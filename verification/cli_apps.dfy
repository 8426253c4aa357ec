/**
 The command-line implementation of the fork procedure (lib/apps.js): raw
 REST paths, an optional region override and an optional destination space.
 */
module CliApps {
  import opened Platform
  import opened Releases

  /** Fetching the source app: not found ends the process. */
  function GetApp(name: string, resp: Response<App>): Outcome<App> {
    ExitOn404(name, resp)
  }

  /** The organization owning the source app; not found means a personal app. */
  function LookupOrgFromApp(resp: Response<Org>): Result<Option<Org>, Fault> {
    AbsentOn404(resp)
  }

  /** The space named on the command line; not found means no such space. */
  function LookupSpaceFromSpaceName(resp: Response<Space>): Result<Option<Space>, Fault> {
    AbsentOn404(resp)
  }

  /** The organization lookup found an organization. */
  predicate OrgFound(orgResp: Response<Org>) {
    LookupOrgFromApp(orgResp).Ok? && LookupOrgFromApp(orgResp).value.Some?
  }

  /** The organization lookup answered "not found": the source app is personal. */
  predicate NoOrg(orgResp: Response<Org>) {
    LookupOrgFromApp(orgResp) == Ok(None)
  }

  /**
   Creates the destination app. The organization lookup answers `orgResp`, the
   space lookup (issued only for a non-empty `space`) answers `spaceResp`, and
   the create call answers `createResp`. `posted` is the create request sent,
   if one was; `r` is how the operation ends.
   */
  method CreateNewApp(oldApp: App, newAppName: string, region: Option<string>,
                      space: Option<string>, orgResp: Response<Org>,
                      spaceResp: Response<Space>, createResp: Response<App>)
    returns (posted: Option<CreateRequest>, r: Outcome<App>)
    // The organization lookup is outside the name-taken handler.
    ensures LookupOrgFromApp(orgResp).Err? ==>
              posted == None && r == Raise(LookupOrgFromApp(orgResp).error)
    // A request is sent exactly when both lookups let the operation through.
    ensures posted.Some? <==>
              LookupOrgFromApp(orgResp).Ok? && (!Truthy(space) || spaceResp.Success?)
    // A failed space lookup ends the operation inside the handler; "not found"
    // leaves `spaceInfo` null, and reading its organization throws.
    ensures LookupOrgFromApp(orgResp).Ok? && Truthy(space) && spaceResp.Failure? ==>
              r == CatchCreateFailure(newAppName,
                     if IsNotFound(spaceResp) then NullDereference(SpaceInfoOrganization)
                     else Http(spaceResp.error))
    // Base attributes.
    ensures posted.Some? ==>
              posted.value.body.name == newAppName
              && posted.value.body.stack == oldApp.stack
              && posted.value.body.tier == oldApp.tier
    // Region: the override if truthy, else the source app's; cleared by a space.
    ensures posted.Some? && !Truthy(space) ==>
              posted.value.body.region == Some(if Truthy(region) then region.value else oldApp.region)
    // An organization app keeps its organization and carries its space forward.
    ensures posted.Some? && !Truthy(space) && OrgFound(orgResp) ==>
              posted.value.body.organization == Some(orgResp.body.name)
              && posted.value.body.space == (if oldApp.space.Some? then Some(oldApp.space.value.name) else None)
    // A personal app gets neither organization nor space.
    ensures posted.Some? && !Truthy(space) && NoOrg(orgResp) ==>
              posted.value.body.organization == None && posted.value.body.space == None
    // An explicit space overrides space and organization and clears the region.
    ensures posted.Some? && Truthy(space) ==>
              posted.value.body.space == space
              && posted.value.body.organization == Some(spaceResp.body.organization.name)
              && posted.value.body.region == None
    // The endpoint depends only on whether an organization name is set.
    ensures posted.Some? ==>
              (posted.value.endpoint == OrganizationApps <==> Truthy(posted.value.body.organization))
    // After the request: a failure goes through the name-taken check; success
    // with an organization taken from the space of a personal app reads the
    // null `org` while reporting, after the app was created.
    ensures posted.Some? ==>
              r == (if createResp.Failure? then CatchCreateFailure(newAppName, Http(createResp.error))
                    else if Truthy(posted.value.body.organization) && NoOrg(orgResp)
                    then Raise(NullDereference(OrgName))
                    else Done(createResp.body))
  {
    posted := None;
    var orgLookup := LookupOrgFromApp(orgResp);
    if orgLookup.Err? {
      r := Raise(orgLookup.error);
      return;
    }
    var org := orgLookup.value;
    var info := NewAppRequest(newAppName, Some(OrElse(region, oldApp.region)),
                              oldApp.stack, oldApp.tier, None, None);
    if org.Some? {
      // an organization app carries its source app's space forward
      if oldApp.space.Some? {
        info := info.(space := Some(oldApp.space.value.name));
      }
      info := info.(organization := Some(org.value.name));
    }
    if Truthy(space) {
      info := info.(space := space);
      var spaceLookup := LookupSpaceFromSpaceName(spaceResp);
      if spaceLookup.Err? {
        r := CatchCreateFailure(info.name, spaceLookup.error);
        return;
      }
      var spaceInfo := spaceLookup.value;
      if spaceInfo.None? {
        r := CatchCreateFailure(info.name, NullDereference(SpaceInfoOrganization));
        return;
      }
      info := info.(organization := Some(spaceInfo.value.organization.name));
      info := info.(region := None);
    }
    var endpoint := if Truthy(info.organization) then OrganizationApps else PersonalApps;
    posted := Some(CreateRequest(endpoint, info));
    if createResp.Failure? {
      r := CatchCreateFailure(info.name, Http(createResp.error));
      return;
    }
    if Truthy(info.organization) && org.None? {
      r := CatchCreateFailure(info.name, NullDereference(OrgName));
      return;
    }
    r := Done(createResp.body);
  }

  /**
   The newest release that carries a slug (`releases` is newest first), or
   the error asking the user to push code to the app first.
   */
  function GetLastRelease(app: App, releases: seq<Release>): (r: Result<Release, Fault>)
    ensures r.Err? <==> forall i :: 0 <= i < |releases| ==> !HasSlug(releases[i])
    ensures r.Err? ==> r.error == NoSlug(app.name, PlainError)
    ensures r.Ok? ==> HasSlug(r.value)
                      && exists i :: IsFirstWithSlug(releases, i) && releases[i] == r.value
  {
    var candidates := WithSlug(releases);
    WithSlugHead(releases);
    if candidates == [] then Err(NoSlug(app.name, PlainError)) else Ok(candidates[0])
  }

  /** The slug record fetched: the one the selected release refers to. */
  function GetLastSlug(app: App, releases: seq<Release>): (r: Result<SlugFetch, Fault>)
    ensures r.Err? <==> forall i :: 0 <= i < |releases| ==> !HasSlug(releases[i])
    ensures r.Err? ==> r.error == NoSlug(app.name, PlainError)
    ensures r.Ok? ==> r.value.app == app.name
                      && exists i :: IsFirstWithSlug(releases, i)
                                     && releases[i].slug.value.id == r.value.id
  {
    var release := GetLastRelease(app, releases);
    if release.Err? then Err(release.error)
    else Ok(SlugFetch(app.name, release.value.slug.value.id))
  }

  /** The release created on `newApp`: same slug, described as forked from `oldApp`. */
  function CopySlug(oldApp: App, newApp: App, slug: Slug): (r: ReleaseRequest)
    ensures r.app == newApp.name && r.slug == slug.id
    ensures ForkedFrom(r.description) == Some(oldApp.name)
  {
    ForkedFromRoundTrip(oldApp.name);
    ReleaseRequest(newApp.name, slug.id, ForkDescription(oldApp.name))
  }

  /** The `updates` list: each installation reduced to its buildpack URL, order kept. */
  function Updates(installed: seq<BuildpackInstallation>): (r: seq<BuildpackUpdate>)
    ensures |r| == |installed|
    ensures forall i :: 0 <= i < |installed| ==> r[i] == BuildpackUpdate(installed[i].url)
  {
    if installed == [] then []
    else [BuildpackUpdate(installed[0].url)] + Updates(installed[1..])
  }

  /**
   Replicates the source app's buildpack list (`installed`, as fetched) onto
   `newApp`: nothing is sent for an empty list.
   */
  function SetBuildpacks(newApp: App, installed: seq<BuildpackInstallation>): (r: Option<BuildpackPut>)
    ensures r.None? <==> |installed| == 0
    ensures r.Some? ==> r.value.app == newApp.name && |r.value.updates| == |installed|
    ensures r.Some? ==> forall i :: 0 <= i < |installed| ==>
                          r.value.updates[i].buildpack == installed[i].url
  {
    if |installed| == 0 then None
    else Some(BuildpackPut(newApp.name, Updates(installed)))
  }
}
