/**
 How the two implementations of the fork procedure relate where they model
 the same step.
 */
module Variants {
  import opened Platform
  import opened Releases
  import CliApps
  import ServiceApps

  /**
   Records that both files fetch the source app and resolve its organization
   by one shared status-code rule (`ExitOn404`, `AbsentOn404`); it holds by
   those shared definitions.
   */
  lemma SameLookupRules(name: string, appResp: Response<App>, orgResp: Response<Org>)
    ensures CliApps.GetApp(name, appResp) == ServiceApps.GetApp(name, appResp)
    ensures ServiceApps.GetApp(name, appResp).Exit? <==> IsNotFound(appResp)
    ensures CliApps.LookupOrgFromApp(orgResp) == ServiceApps.LookupOrgFromApp(orgResp)
    ensures ServiceApps.LookupOrgFromApp(orgResp) == Ok(None) <==> IsNotFound(orgResp)
  {
  }

  /** Both select the same release; they differ only in the class of the "no slug" error. */
  lemma SameReleaseSelected(app: App, releases: seq<Release>)
    ensures CliApps.GetLastRelease(app, releases).Ok? <==> ServiceApps.GetLastRelease(app, releases).Ok?
    ensures CliApps.GetLastRelease(app, releases).Ok? ==>
              CliApps.GetLastRelease(app, releases).value == ServiceApps.GetLastRelease(app, releases).value
    ensures CliApps.GetLastRelease(app, releases).Err? ==>
              CliApps.GetLastRelease(app, releases).error.kind == PlainError
              && ServiceApps.GetLastRelease(app, releases).error.kind == ForkError
  {
  }

  /**
   Copying a slug between two differently named apps: the command-line
   implementation names the source app in the release description, the
   service implementation names the destination.
   */
  lemma CopySlugDescriptionsDiffer(oldApp: App, newApp: App, slug: Slug)
    requires oldApp.name != newApp.name
    requires slug.commit.Some?
    ensures ServiceApps.CopySlug(newApp, slug).Ok?
    ensures CliApps.CopySlug(oldApp, newApp, slug).app == ServiceApps.CopySlug(newApp, slug).value.app
    ensures CliApps.CopySlug(oldApp, newApp, slug).slug == ServiceApps.CopySlug(newApp, slug).value.slug
    ensures CliApps.CopySlug(oldApp, newApp, slug).description
            != ServiceApps.CopySlug(newApp, slug).value.description
  {
  }

  /** The release list [v5 without slug, v4 with S2, v3 with S1] selects v4. */
  lemma SkipsNewestWithoutSlug(app: App)
    ensures CliApps.GetLastRelease(app, [Release(5, None), Release(4, Some(SlugRef("S2"))),
                                         Release(3, Some(SlugRef("S1")))])
            == Ok(Release(4, Some(SlugRef("S2"))))
  {
  }
}
