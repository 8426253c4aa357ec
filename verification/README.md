# heroku-fork: the decision rules of the app-fork procedure

The fork command copies a hosted app into a new app. It looks up the source
app and its organization, optionally resolves a destination space, creates the
destination app, copies the newest release's slug (the deployable artifact)
and replicates the buildpack list. The repository contains two implementations
of this procedure: `lib/apps.js`, which uses raw REST paths, and
`lib/services/apps.js`, which uses the platform client's resource API. They
apply different rules, so each is modelled in its own module.

Each remote call whose answer the code branches on is a parameter holding that
answer (`Platform.Response`): a body, or an HTTP error with a status code and a
message. These are the app, organization and space lookups and the create
call. The release list and the buildpack list are the fetched sequences
themselves. `GetApp` and both `CreateNewApp` methods end in a
`Platform.Outcome`:

- `Done`: success.
- `Exit`: a user-facing error followed by `process.exit(1)`.
- `Raise`: an exception that propagates to the caller.

Files:

- `platform.dfy` (`Platform`): entities, requests and outcomes. It also holds
  the rules shared by both implementations: JavaScript truthiness of optional
  string arguments, the "name already taken" check in the create handler, and
  the "Forked from" release description with a reader that recovers the app
  name from it. Finally, it holds the two status-code rules of the lookups: a 404
  means "absent" (`AbsentOn404`) or ends the process (`ExitOn404`).
- `releases.dfy` (`Releases`): lodash's `filter('slug').first()` as a filter
  (`WithSlug`) and its head, proved to be a first-match search.
- `cli_apps.dfy` (`CliApps`): `lib/apps.js`.
- `service_apps.dfy` (`ServiceApps`): `lib/services/apps.js`.
- `variants.dfy` (`Variants`): where the two implementations agree and where
  they differ.

`createNewApp` builds its request record by successive assignments. Both
versions are modelled as methods that update a local `NewAppRequest` step by
step. Their `ensures` clauses state the attribute rules one by one. The other
operations are functions. The lookups, release selection and
`ServiceApps.CopySlug` return a `Platform.Result`, whose error is the
exception thrown. `CliApps.CopySlug` and `CliApps.SetBuildpacks` return only
the request they send.

Two null dereferences in `lib/apps.js` are explicit `NullDereference`
outcomes:

- Line 69 reads the organization of a space that the lookup did not find. The
  operation fails before any create request is sent.
- Line 81 reads `org.name` when the source app has no organization and the
  organization came from the requested space. The app has already been created
  when this fails.

Both happen inside the `try`, so they go through the name-taken check and are
rethrown. A 422 "Name is already taken" answer to the space lookup also lands
in that handler, and it ends the process as "name taken". `lib/services/apps.js`
line 87 reads `slug.commit` without a guard. `ServiceApps.CopySlug` therefore
fails when the slug has no commit.

The two implementations apply different rules, so each module keeps its own:

- `lib/apps.js` names the source app in the copied release's description.
  `lib/services/apps.js` names the destination app
  (`Variants.CopySlugDescriptionsDiffer`).
- `lib/apps.js` chooses the organization endpoint by the truthiness of the
  organization name. `lib/services/apps.js` chooses it by whether an
  organization was found.
- Only `lib/apps.js` handles a destination space. Only `lib/services/apps.js`
  accepts a stack override.

## Model

| member | source | states |
|---|---|---|
| Platform.ExitOn404 | lib/apps.js:11-20 | success returns the app; a 404 exits with "app not found" naming the requested app; any other error is rethrown unchanged (`GetApp` in both files) |
| Platform.AbsentOn404 | lib/apps.js:22-44 | a 404 is exactly the "absent" result; success yields the record; any other error propagates unchanged (the organization and space lookups) |
| CliApps.CreateNewApp | lib/apps.js:46-94 | an org-lookup error propagates with nothing sent. Name is the requested name, and stack and tier are the source app's. Region is the truthy override, else the source region. With an org and no space: the org's name, plus the source app's space if it has one. With no org and no space: neither is set. A non-empty space sets the space, takes the space's organization and clears the region. The endpoint is the organization endpoint iff the organization name is truthy. A missing space, and an org taken from a space for a personal app, become null-dereference failures. Create failures go through the name-taken check |
| Platform.CatchCreateFailure | lib/apps.js:88-93 | exits with "name taken" exactly for a 422 whose message is "Name is already taken"; rethrows every other failure unchanged |
| Releases.WithSlug | lib/apps.js:101-102 | the filtered list is no longer than the input, and every element carries a slug and comes from the input |
| Releases.WithSlugHead | lib/apps.js:101-105 | the filtered list is empty iff no release has a slug; otherwise its head is the release at the first position that has a slug |
| Releases.WithSlugAppend | lib/apps.js:101-102 | filtering a concatenation is the concatenation of the filtered parts |
| Releases.FirstSlugIgnoresOlder | lib/apps.js:96-110 | once a newer release has a slug, appending older releases never changes the selected release |
| CliApps.GetLastRelease | lib/apps.js:96-110 | returns the first release in newest-first order that has a slug, so earlier slugless releases are skipped; fails with a plain "no slug" error naming the app iff no release has a slug |
| CliApps.GetLastSlug | lib/apps.js:112-115 | fetches the slug that the selected release refers to, from the same app; fails with the "no slug" error exactly when selection fails |
| Platform.ForkedFromRoundTrip | lib/apps.js:125 | the release description "Forked from " + name reads back as exactly that name |
| CliApps.CopySlug | lib/apps.js:117-128 | the release goes to the destination app, carries the slug's id, and its description names the source app |
| CliApps.Updates | lib/apps.js:137-139 | same length as the installation list; entry i is the buildpack URL of installation i |
| CliApps.SetBuildpacks | lib/apps.js:130-147 | nothing is sent iff the list is empty; otherwise a PUT to the destination app whose updates keep the order and length of the source list and hold each entry's URL |
| ServiceApps.CreateNewApp | lib/services/apps.js:33-63 | an org-lookup error propagates with nothing sent. Stack and region are each the truthy override, else the source app's; no space is ever sent. With an org: the org's name and the organization endpoint, even when the name is empty. Without one: the personal create with no organization. Create failures go through the name-taken check |
| ServiceApps.GetLastRelease | lib/services/apps.js:65-79 | the first release with a slug in newest-first order; a `ForkError` naming the app iff none has a slug |
| ServiceApps.GetLastSlug | lib/services/apps.js:81-84 | fetches the slug that the selected release refers to; fails exactly when selection fails |
| ServiceApps.CopySlug | lib/services/apps.js:86-93 | fails with a null dereference iff the slug has no commit; otherwise the release goes to `app` with the slug's id, and its description names `app` itself |
| Variants.SameLookupRules | lib/services/apps.js:10-31 | the service implementation fetches the source app and resolves its organization by the same shared rules as the command-line one (404 exits for the app, 404 means "no organization"); it holds by those shared definitions |
| Variants.SameReleaseSelected | lib/services/apps.js:70-78 | both implementations select the same release and fail on the same inputs; only the error class differs |
| Variants.CopySlugDescriptionsDiffer | lib/services/apps.js:88-91 | for differently named source and destination apps and a slug with a commit, both send the same target app and slug id but different descriptions |
| Variants.SkipsNewestWithoutSlug | lib/apps.js:101-104 | for releases [v5 without slug, v4 with S2, v3 with S1], v4 is selected |

## Left out

- HTTP transport, paths, `Range` headers and the resource-object client: each call is represented by its answer. The org lookup's `/organizations/<owner id>` path is not modelled.
- Failures of the release, buildpack and slug fetches: they propagate unchanged and are transport behaviour, so those inputs are the fetched lists.
- The answers to the release POST of `copySlug` (lib/apps.js:123, lib/services/apps.js:88) and the buildpack PUT (lib/apps.js:140): the model returns the request sent; a failure of either propagates unchanged and is not represented.
- Generator/`yield` and promise sequencing: the calls are strictly sequential, and each operation is a single function or method.
- Console output, colours, and the 7-character commit shortening. The success messages are modelled only where building them can fail (`org.name` at lib/apps.js:81, `slug.commit` at lib/services/apps.js:87).
- `process.exit` is the `Exit` outcome. The `ForkError` class (from `../errors`, which is not part of this model) is only a tag on the "no slug" error.
- The message text of the "no slug" error: the model keeps only the app name it mentions.
- CliApps.GetLastSlug: returns the slug fetch it issues (app and slug id), not the fetched slug record, which is a transport answer.
- ServiceApps.GetLastSlug: returns the slug fetch it issues (app and slug id), not the fetched slug record, which is a transport answer.
- JavaScript loose equality on non-string arguments: the region, stack and space arguments are treated as optional strings.
