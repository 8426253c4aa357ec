/**
 The service-object implementation of the fork procedure
 (lib/services/apps.js): the resource API client, an optional stack and
 region override, no space handling.
 */
module ServiceApps {
  import opened Platform
  import opened Releases

  /** Fetching the source app: not found ends the process. */
  function GetApp(name: string, resp: Response<App>): Outcome<App> {
    ExitOn404(name, resp)
  }

  /** The organization owning the source app; not found means a personal app. */
  function LookupOrgFromApp(resp: Response<Org>): Result<Option<Org>, Fault> {
    AbsentOn404(resp)
  }

  /**
   Creates the destination app. The organization lookup answers `orgResp` and
   the create call answers `createResp`. `posted` is the create request sent,
   if one was (`PersonalApps` stands for the resource API's `apps().create`);
   `r` is how the operation ends.
   */
  method CreateNewApp(oldApp: App, newAppName: string, stack: Option<string>,
                      region: Option<string>, orgResp: Response<Org>,
                      createResp: Response<App>)
    returns (posted: Option<CreateRequest>, r: Outcome<App>)
    // The organization lookup is outside the name-taken handler.
    ensures LookupOrgFromApp(orgResp).Err? ==>
              posted == None && r == Raise(LookupOrgFromApp(orgResp).error)
    ensures posted.Some? <==> LookupOrgFromApp(orgResp).Ok?
    // Base attributes: stack and region overrides apply when truthy; no space is ever sent.
    ensures posted.Some? ==>
              posted.value.body.name == newAppName
              && posted.value.body.tier == oldApp.tier
              && posted.value.body.stack == (if Truthy(stack) then stack.value else oldApp.stack)
              && posted.value.body.region == Some(if Truthy(region) then region.value else oldApp.region)
              && posted.value.body.space == None
    // With an organization: its name, and the organization endpoint whatever that name is.
    ensures posted.Some? && orgResp.Success? ==>
              posted.value.body.organization == Some(orgResp.body.name)
              && posted.value.endpoint == OrganizationApps
    // Without one: the personal create, with no organization field.
    ensures posted.Some? && orgResp.Failure? ==>
              posted.value.body.organization == None && posted.value.endpoint == PersonalApps
    ensures posted.Some? ==>
              r == (if createResp.Failure? then CatchCreateFailure(newAppName, Http(createResp.error))
                    else Done(createResp.body))
  {
    posted := None;
    var orgLookup := LookupOrgFromApp(orgResp);
    if orgLookup.Err? {
      r := Raise(orgLookup.error);
      return;
    }
    var org := orgLookup.value;
    var info := NewAppRequest(newAppName, Some(OrElse(region, oldApp.region)),
                              OrElse(stack, oldApp.stack), oldApp.tier, None, None);
    if org.Some? {
      info := info.(organization := Some(org.value.name));
      var endpoint := if org.Some? then OrganizationApps else PersonalApps;
      posted := Some(CreateRequest(endpoint, info));
    } else {
      posted := Some(CreateRequest(PersonalApps, info));
    }
    if createResp.Failure? {
      r := CatchCreateFailure(info.name, Http(createResp.error));
      return;
    }
    r := Done(createResp.body);
  }

  /**
   The newest release that carries a slug (`releases` is newest first), or
   the `ForkError` asking the user to push code to the app first.
   */
  function GetLastRelease(app: App, releases: seq<Release>): (r: Result<Release, Fault>)
    ensures r.Err? <==> forall i :: 0 <= i < |releases| ==> !HasSlug(releases[i])
    ensures r.Err? ==> r.error == NoSlug(app.name, ForkError)
    ensures r.Ok? ==> HasSlug(r.value)
                      && exists i :: IsFirstWithSlug(releases, i) && releases[i] == r.value
  {
    var candidates := WithSlug(releases);
    WithSlugHead(releases);
    if candidates == [] then Err(NoSlug(app.name, ForkError)) else Ok(candidates[0])
  }

  /** The slug record fetched: the one the selected release refers to. */
  function GetLastSlug(app: App, releases: seq<Release>): (r: Result<SlugFetch, Fault>)
    ensures r.Err? <==> forall i :: 0 <= i < |releases| ==> !HasSlug(releases[i])
    ensures r.Err? ==> r.error == NoSlug(app.name, ForkError)
    ensures r.Ok? ==> r.value.app == app.name
                      && exists i :: IsFirstWithSlug(releases, i)
                                     && releases[i].slug.value.id == r.value.id
  {
    var release := GetLastRelease(app, releases);
    if release.Err? then Err(release.error)
    else Ok(SlugFetch(app.name, release.value.slug.value.id))
  }

  /**
   The release created on `app` (the destination): same slug, described as
   forked from `app` itself. The progress line reads `slug.commit` without a
   guard, so a slug with no commit throws before anything is sent.
   */
  function CopySlug(app: App, slug: Slug): (r: Result<ReleaseRequest, Fault>)
    ensures r.Err? <==> slug.commit.None?
    ensures r.Err? ==> r.error == NullDereference(SlugCommit)
    ensures r.Ok? ==> r.value.app == app.name && r.value.slug == slug.id
                      && ForkedFrom(r.value.description) == Some(app.name)
  {
    if slug.commit.None? then Err(NullDereference(SlugCommit))
    else
      ForkedFromRoundTrip(app.name);
      Ok(ReleaseRequest(app.name, slug.id, ForkDescription(app.name)))
  }
}
