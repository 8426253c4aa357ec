/**
 The values the fork procedure reads from and sends to the platform API, the
 outcomes its operations end in, and the few rules both implementations share
 (JavaScript truthiness of optional arguments, the name-taken check of a
 failed create, the provenance text of a copied release).

 The answers the code branches on (the app, organization and space lookups
 and the create call) are `Response` values: the decoded body or the HTTP
 error the client threw. The release and buildpack lists are the fetched
 sequences. The slug fetch, the release POST and the buildpack PUT are
 represented by the request sent.
 */
module Platform {

  datatype Option<T> = None | Some(value: T)

  datatype Result<T, E> = Ok(value: T) | Err(error: E)

  /** Status codes and messages the fork procedure branches on. */
  const NotFoundStatus: int := 404
  const UnprocessableStatus: int := 422
  const NameTakenMessage: string := "Name is already taken"

  /** What the HTTP client throws: a status code and the body's message. */
  datatype HttpError = HttpError(statusCode: int, message: string)

  /** The answer to one remote call. */
  datatype Response<T> = Success(body: T) | Failure(error: HttpError)

  predicate IsNotFound<T>(resp: Response<T>) {
    resp.Failure? && resp.error.statusCode == NotFoundStatus
  }

  // ---------------------------------------------------------------- entities

  /** A source or destination app; `region` and `stack` are the names of the nested records. */
  datatype App = App(name: string, region: string, stack: string, tier: string,
                     space: Option<SpaceRef>)

  datatype SpaceRef = SpaceRef(name: string)

  datatype Org = Org(name: string)

  /** A space record as returned by a space lookup; it names its owning organization. */
  datatype Space = Space(name: string, organization: Org)

  datatype SlugRef = SlugRef(id: string)

  /** A release; `slug` is absent for releases that carry no deployable artifact. */
  datatype Release = Release(version: int, slug: Option<SlugRef>)

  datatype Slug = Slug(id: string, commit: Option<string>)

  /** One entry of an app's buildpack installation list, reduced to its buildpack URL. */
  datatype BuildpackInstallation = BuildpackInstallation(url: string)

  // ---------------------------------------------------------------- requests

  /** The create-app body; `None` fields are left out of the JSON sent. */
  datatype NewAppRequest = NewAppRequest(name: string, region: Option<string>, stack: string,
                                         tier: string, organization: Option<string>,
                                         space: Option<string>)

  /** `/organizations/apps`, or the personal `/apps` collection. */
  datatype Endpoint = OrganizationApps | PersonalApps

  datatype CreateRequest = CreateRequest(endpoint: Endpoint, body: NewAppRequest)

  /** GET of a slug record of an app. */
  datatype SlugFetch = SlugFetch(app: string, id: string)

  /** POST of a new release on `app`. */
  datatype ReleaseRequest = ReleaseRequest(app: string, slug: string, description: string)

  datatype BuildpackUpdate = BuildpackUpdate(buildpack: string)

  /** PUT of the whole buildpack installation list of `app`. */
  datatype BuildpackPut = BuildpackPut(app: string, updates: seq<BuildpackUpdate>)

  // ---------------------------------------------------------------- outcomes

  /** Places where the code reads a property of `null`. */
  datatype NullSite = SpaceInfoOrganization | OrgName | SlugCommit

  /** The class of the thrown "no slug" error. */
  datatype ErrorClass = PlainError | ForkError

  /** Exceptions that propagate to the caller. */
  datatype Fault =
    | Http(err: HttpError)
    | NullDereference(site: NullSite)
    | NoSlug(app: string, kind: ErrorClass)

  /** Conditions reported to the user followed by `process.exit(1)`. */
  datatype Fatal = AppNotFound(app: string) | NameTaken(name: string)

  datatype Outcome<T> = Done(value: T) | Exit(reason: Fatal) | Raise(fault: Fault)

  // ---------------------------------------------------------------- shared rules

  /**
   A fetch whose "not found" answer means the record is absent: success
   yields the record, 404 yields nothing, any other error propagates unchanged.
   */
  function AbsentOn404<T>(resp: Response<T>): (r: Result<Option<T>, Fault>)
    ensures r == Ok(None) <==> IsNotFound(resp)
    ensures resp.Success? <==> r.Ok? && r.value.Some?
    ensures resp.Success? ==> r.value.value == resp.body
    ensures r.Err? ==> resp.Failure? && r.error == Http(resp.error)
  {
    match resp
    case Success(record) => Ok(Some(record))
    case Failure(e) => if e.statusCode == NotFoundStatus then Ok(None) else Err(Http(e))
  }

  /**
   A fetch of the app named `name` whose "not found" answer ends the process:
   success yields the app, 404 exits naming it, any other error propagates unchanged.
   */
  function ExitOn404(name: string, resp: Response<App>): (r: Outcome<App>)
    ensures r.Done? <==> resp.Success?
    ensures r.Done? ==> r.value == resp.body
    ensures r.Exit? <==> IsNotFound(resp)
    ensures r.Exit? ==> r.reason == AppNotFound(name)
    ensures r.Raise? ==> resp.Failure? && r.fault == Http(resp.error)
  {
    match resp
    case Success(app) => Done(app)
    case Failure(e) => if e.statusCode == NotFoundStatus then Exit(AppNotFound(name)) else Raise(Http(e))
  }

  /** JavaScript truthiness of an optional string: absent and "" are both false. */
  predicate Truthy(s: Option<string>) {
    s.Some? && s.value != ""
  }

  /** `a || b` for an optional string `a`. */
  function OrElse(a: Option<string>, b: string): string {
    if Truthy(a) then a.value else b
  }

  predicate IsNameTaken(f: Fault) {
    f == Http(HttpError(UnprocessableStatus, NameTakenMessage))
  }

  /**
   The catch block around app creation: a 422 whose message says the name is
   taken ends the process; anything else is rethrown unchanged.
   */
  function CatchCreateFailure(name: string, f: Fault): (r: Outcome<App>)
    ensures r.Exit? <==> f.Http? && f.err.statusCode == UnprocessableStatus
                         && f.err.message == NameTakenMessage
    ensures r.Exit? ==> r.reason == NameTaken(name)
    ensures !r.Exit? ==> r == Raise(f)
  {
    if IsNameTaken(f) then Exit(NameTaken(name)) else Raise(f)
  }

  // ---------------------------------------------------------------- provenance text

  const ForkedFromPrefix: string := "Forked from "

  /** The description of a release copied from app `name`. */
  function ForkDescription(name: string): string {
    ForkedFromPrefix + name
  }

  /** Reads back the app named in a fork description, if it is one. */
  function ForkedFrom(description: string): (r: Option<string>)
    ensures r.Some? ==> ForkDescription(r.value) == description
  {
    var n := |ForkedFromPrefix|;
    if n <= |description| && description[..n] == ForkedFromPrefix
    then Some(description[n..])
    else None
  }

  /** A fork description always names exactly the app it was built from. */
  lemma ForkedFromRoundTrip(name: string)
    ensures ForkedFrom(ForkDescription(name)) == Some(name)
  {
  }
}
