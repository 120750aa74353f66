/**
 * App references and app summaries: how `handleListVersions` and
 * `handleVersionMetadata` turn their query parameters into the app they ask
 * the App Store about, and how `appToAppInfo` picks an artwork URL.
 *
 * The App Store itself is abstract: each call the handlers make is recorded
 * as a `StoreCall`, and its outcome is an input.
 */
module Apps {

  import opened Decimal

  /** The fields of `appstore.App` the handlers read or set. */
  datatype StoreApp = StoreApp(
    id: int,
    bundleId: string,
    name: string,
    version: string,
    artworkUrl512: string,
    artworkUrl100: string,
    artworkUrl60: string)

  /** The zero value `appstore.App{}`. */
  const Blank: StoreApp := StoreApp(0, "", "", "", "", "", "")

  /** The summary returned for an app (`AppInfo`), without the price. */
  datatype AppInfo = AppInfo(trackId: int, bundleId: string, name: string, version: string, artworkUrl: string)

  /** The artwork `appToAppInfo` picks: the first non-empty of the 512, 100 and 60 pixel URLs. */
  function ArtworkUrl(app: StoreApp): (url: string)
    ensures url == app.artworkUrl512 || url == app.artworkUrl100 || url == app.artworkUrl60
  {
    if app.artworkUrl512 != "" then app.artworkUrl512
    else if app.artworkUrl100 != "" then app.artworkUrl100
    else app.artworkUrl60
  }

  /** `appToAppInfo`: identity fields copied, one artwork URL chosen. */
  function AppToAppInfo(app: StoreApp): (info: AppInfo)
    ensures info.trackId == app.id && info.bundleId == app.bundleId
    ensures info.name == app.name && info.version == app.version
    ensures info.artworkUrl == ArtworkUrl(app)
  {
    AppInfo(app.id, app.bundleId, app.name, app.version, ArtworkUrl(app))
  }

  /** A larger artwork, when present, is always preferred to a smaller one. */
  lemma ArtworkPrefersLargest(app: StoreApp)
    ensures app.artworkUrl512 != "" ==> AppToAppInfo(app).artworkUrl == app.artworkUrl512
    ensures app.artworkUrl512 == "" && app.artworkUrl100 != "" ==> AppToAppInfo(app).artworkUrl == app.artworkUrl100
    ensures app.artworkUrl512 == "" && app.artworkUrl100 == "" ==> AppToAppInfo(app).artworkUrl == app.artworkUrl60
  {
  }

  /** The summary has no artwork exactly when the app has none at any size. */
  lemma ArtworkMissingOnlyWhenAllMissing(app: StoreApp)
    ensures AppToAppInfo(app).artworkUrl == "" <==>
      app.artworkUrl512 == "" && app.artworkUrl100 == "" && app.artworkUrl60 == ""
  {
  }

  /** A call into the App Store, with the arguments the handler passes. */
  datatype StoreCall =
    | LookupCall(bundleId: string)
    | ListVersionsCall(app: StoreApp)
    | MetadataCall(app: StoreApp, versionId: string)
    | PurchaseCall(app: StoreApp)
    | DownloadCall(app: StoreApp, externalVersionId: string)

  /** An App Store call's outcome: a value, or an error already mapped to an HTTP status. */
  datatype Reply<T> = Failed(status: int) | Succeeded(value: T)

  /** What a handler did: the App Store calls it made, in order, and its answer. */
  datatype Handled<T> = Handled(calls: seq<StoreCall>, answer: Reply<T>)

  /** The body of a successful `handleListVersions` answer. */
  datatype VersionList = VersionList(bundleId: string, externalVersionIds: seq<string>)

  /** The body of a successful `handleVersionMetadata` answer, without the release date. */
  datatype VersionMetadata = VersionMetadata(externalVersionId: string, displayVersion: string)

  /** `appstore.App{ID: n}` for the `app_id` text, parse errors ignored. */
  function AppById(appIdParam: string): (app: StoreApp)
    ensures app.bundleId == "" && MinInt64 <= app.id <= MaxInt64
  {
    Blank.(id := ParseIntOrZero(appIdParam))
  }

  /**
   * `handleListVersions` for the query parameters `bundle_id` and `app_id`:
   * `refValid` is the verdict of the reference validator, `hasAccount` whether
   * the account middleware stored an account, `lookup` and `versions` the App
   * Store's answers.
   */
  function ListVersions(
    bundleIdParam: string, appIdParam: string, refValid: bool, hasAccount: bool,
    lookup: Reply<StoreApp>, versions: Reply<seq<string>>): (h: Handled<VersionList>)
    ensures !refValid ==> h == Handled([], Failed(400))
    ensures refValid && !hasAccount ==> h == Handled([], Failed(401))
    ensures h.answer.Succeeded? <==>
      refValid && hasAccount && (bundleIdParam == "" || lookup.Succeeded?) && versions.Succeeded?
    ensures refValid && hasAccount && bundleIdParam != "" && lookup.Failed? ==> h.answer == Failed(lookup.status)
    ensures refValid && hasAccount && (bundleIdParam == "" || lookup.Succeeded?) && versions.Failed? ==>
      h.answer == Failed(versions.status)
    ensures h.answer.Succeeded? ==> h.answer.value.externalVersionIds == versions.value
    ensures |h.calls| <= 2
  {
    if !refValid then Handled([], Failed(400))
    else if !hasAccount then Handled([], Failed(401))
    else
      var lookupCalls := if bundleIdParam != "" then [LookupCall(bundleIdParam)] else [];
      if bundleIdParam != "" && lookup.Failed? then Handled(lookupCalls, Failed(lookup.status))
      else
        var app := if bundleIdParam != "" then lookup.value else AppById(appIdParam);
        var calls := lookupCalls + [ListVersionsCall(app)];
        match versions
        case Failed(status) => Handled(calls, Failed(status))
        case Succeeded(ids) => Handled(calls, Succeeded(VersionList(app.bundleId, ids)))
  }

  /**
   * With a `bundle_id`, versions are listed for the app the lookup found, and
   * `app_id` is ignored altogether.
   */
  lemma ListVersionsPrefersBundleId(
    bundleIdParam: string, appIdParam: string, otherAppIdParam: string,
    found: StoreApp, versions: Reply<seq<string>>)
    requires bundleIdParam != ""
    ensures var h := ListVersions(bundleIdParam, appIdParam, true, true, Succeeded(found), versions);
      h.calls == [LookupCall(bundleIdParam), ListVersionsCall(found)]
      && (h.answer.Succeeded? ==> h.answer.value.bundleId == found.bundleId)
    ensures ListVersions(bundleIdParam, appIdParam, true, true, Succeeded(found), versions)
         == ListVersions(bundleIdParam, otherAppIdParam, true, true, Succeeded(found), versions)
  {
  }

  /** A failed lookup answers with its status and nothing is listed. */
  lemma ListVersionsLookupFailure(bundleIdParam: string, appIdParam: string, status: int, versions: Reply<seq<string>>)
    requires bundleIdParam != ""
    ensures ListVersions(bundleIdParam, appIdParam, true, true, Failed(status), versions)
         == Handled([LookupCall(bundleIdParam)], Failed(status))
  {
  }

  /**
   * Without a `bundle_id`, no lookup happens: versions are listed for the bare
   * app whose ID is the `app_id` written in decimal, and the answer carries no
   * bundle ID.
   */
  lemma ListVersionsByAppId(n: int, lookup: Reply<StoreApp>, versions: Reply<seq<string>>)
    requires MinInt64 <= n <= MaxInt64
    ensures var h := ListVersions("", FormatInt(n), true, true, lookup, versions);
      h.calls == [ListVersionsCall(Blank.(id := n))]
      && (h.answer.Succeeded? ==> h.answer.value.bundleId == "")
  {
    ParseFormatRoundTrip(n);
  }

  /**
   * `handleVersionMetadata` for `version_id`, `bundle_id` and `app_id`: the
   * version ID is validated first, then the app reference.
   */
  function VersionMetadataFor(
    versionId: string, bundleIdParam: string, appIdParam: string,
    versionValid: bool, refValid: bool, hasAccount: bool,
    metadata: Reply<string>): (h: Handled<VersionMetadata>)
    ensures !versionValid || !refValid ==> h == Handled([], Failed(400))
    ensures versionValid && refValid && !hasAccount ==> h == Handled([], Failed(401))
    ensures h.answer.Succeeded? <==> versionValid && refValid && hasAccount && metadata.Succeeded?
    ensures h.answer.Succeeded? ==> metadata.Succeeded? && h.answer.value == VersionMetadata(versionId, metadata.value)
    ensures versionValid && refValid && hasAccount && metadata.Failed? ==> h.answer == Failed(metadata.status)
    ensures h.calls != [] ==> |h.calls| == 1 && h.calls[0].MetadataCall? && h.calls[0].versionId == versionId
  {
    if !versionValid || !refValid then Handled([], Failed(400))
    else if !hasAccount then Handled([], Failed(401))
    else
      var app := if appIdParam != "" then AppById(appIdParam) else Blank.(bundleId := bundleIdParam);
      var calls := [MetadataCall(app, versionId)];
      match metadata
      case Failed(status) => Handled(calls, Failed(status))
      case Succeeded(display) => Handled(calls, Succeeded(VersionMetadata(versionId, display)))
  }

  /**
   * With an `app_id`, metadata is asked for the app with that ID and no bundle
   * ID, whatever `bundle_id` says.
   */
  lemma MetadataPrefersAppId(versionId: string, bundleIdParam: string, otherBundleIdParam: string, n: int, metadata: Reply<string>)
    requires MinInt64 <= n <= MaxInt64
    ensures VersionMetadataFor(versionId, bundleIdParam, FormatInt(n), true, true, true, metadata).calls
         == [MetadataCall(Blank.(id := n), versionId)]
    ensures VersionMetadataFor(versionId, bundleIdParam, FormatInt(n), true, true, true, metadata)
         == VersionMetadataFor(versionId, otherBundleIdParam, FormatInt(n), true, true, true, metadata)
  {
    ParseFormatRoundTrip(n);
  }

  /** Without an `app_id`, metadata is asked for the app with that bundle ID and ID 0; no lookup happens. */
  lemma MetadataByBundleId(versionId: string, bundleIdParam: string, metadata: Reply<string>)
    ensures VersionMetadataFor(versionId, bundleIdParam, "", true, true, true, metadata).calls
         == [MetadataCall(Blank.(bundleId := bundleIdParam), versionId)]
  {
  }

  /**
   * The two handlers resolve a request naming both an app ID and a bundle ID
   * in opposite ways: listing versions goes by the bundle ID, reading metadata
   * by the app ID.
   */
  lemma OppositePrecedence(versionId: string, bundleIdParam: string, n: int, found: StoreApp,
                           versions: Reply<seq<string>>, metadata: Reply<string>)
    requires bundleIdParam != "" && MinInt64 <= n <= MaxInt64
    ensures ListVersions(bundleIdParam, FormatInt(n), true, true, Succeeded(found), versions).calls[0]
         == LookupCall(bundleIdParam)
    ensures VersionMetadataFor(versionId, bundleIdParam, FormatInt(n), true, true, true, metadata).calls[0].app
         == Blank.(id := n)
  {
    MetadataPrefersAppId(versionId, bundleIdParam, bundleIdParam, n, metadata);
  }
}
