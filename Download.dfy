/**
 * `handleDownload`: decode, validate, authenticate, resolve the app (looking it
 * up by bundle ID only when no app ID was given), optionally purchase it,
 * download it into a temporary file, and stream that file back.
 *
 * The collaborators are abstract: every decision the handler takes on the
 * result of a call it cannot see (the JSON decoder, the validators, the App
 * Store, the file system, the copy to the client) is an input in `Outcomes`.
 * `Flow` is the specification: what the handler does for given outcomes.
 * `Exchange.HandleDownload` is the step-by-step handler, with the temporary
 * file and the open file as ghost state, and with each `defer` written out as
 * the statement that runs after the rest of the body, whichever way it returns.
 */
module Download {

  import opened Http
  import opened Apps

  /** The JSON body of a download request. */
  datatype DownloadRequest = DownloadRequest(appId: int, bundleId: string, externalVersionId: string, autoPurchase: bool)

  /** The outcome of `AppStore.Purchase`; `ErrLicenseRequired` is told apart from every other error. */
  datatype PurchaseOutcome = Purchased | LicenseRequired | PurchaseFailed(status: int)

  /** The outcome of `AppStore.Download`. */
  datatype StoreDownload = Downloaded | DownloadFailed(status: int)

  /** The outcome of copying the file to the client. */
  datatype StreamOutcome = StreamCompleted | StreamBroken(message: string)

  /** The result of every call the handler makes whose outcome it branches on. */
  datatype Outcomes = Outcomes(
    decoded: Option<DownloadRequest>,  // None: the body is not valid JSON for a request
    refValid: bool,                    // validateAppIDOrBundleID on the decimal app ID and the bundle ID
    versionValid: bool,                // validateExternalVersionID
    hasAccount: bool,                  // getAccountInfo
    built: StoreApp,                   // buildAppFromRequest
    lookup: Reply<StoreApp>,
    purchase: PurchaseOutcome,
    tempCreated: bool,                 // os.CreateTemp
    download: StoreDownload,
    fileOpened: bool,                  // os.Open of the downloaded file
    statted: bool,                     // file.Stat
    stream: StreamOutcome)

  /**
   * What the handler did: its App Store calls in order, the statuses it passed
   * to `respondError`, whether it sent the download headers, whether a
   * temporary file was created, and whether the copy completed.
   */
  datatype Trace = Trace(calls: seq<StoreCall>, errors: seq<int>, headersSent: bool, tempCreated: bool, streamed: bool)

  function Refused(calls: seq<StoreCall>, status: int): Trace
  {
    Trace(calls, [status], false, false, false)
  }

  /** The request decoded, both validators accepted it and an account is present. */
  predicate Admitted(o: Outcomes)
  {
    o.decoded.Some? && o.refValid && o.versionValid && o.hasAccount
  }

  /** The request names a bundle ID but the app built from it has no ID. */
  predicate NeedsLookup(o: Outcomes)
    requires o.decoded.Some?
  {
    o.decoded.value.bundleId != "" && o.built.id == 0
  }

  /** The app the handler works with once any lookup has succeeded. */
  function Resolved(o: Outcomes): StoreApp
    requires o.decoded.Some?
    requires NeedsLookup(o) ==> o.lookup.Succeeded?
  {
    if NeedsLookup(o) then o.lookup.value else o.built
  }

  /** What happens once the temporary file exists: download into it, open it, stat it, stream it. */
  function FromTemp(o: Outcomes, app: StoreApp, versionId: string): (t: Trace)
    ensures t.calls == [DownloadCall(app, versionId)] && t.tempCreated
    ensures o.download.DownloadFailed? ==> t.errors == [o.download.status] && !t.headersSent
    ensures o.download.Downloaded? && !(o.fileOpened && o.statted) ==> t.errors == [500] && !t.headersSent
    ensures o.download.Downloaded? && o.fileOpened && o.statted ==>
      t.errors == [] && t.headersSent && (t.streamed <==> o.stream.StreamCompleted?)
  {
    var calls := [DownloadCall(app, versionId)];
    match o.download
    case DownloadFailed(status) => Trace(calls, [status], false, true, false)
    case Downloaded =>
      if !o.fileOpened || !o.statted then Trace(calls, [500], false, true, false)
      else Trace(calls, [], true, true, o.stream.StreamCompleted?)
  }

  /** The specification of `handleDownload`. */
  function Flow(o: Outcomes): (t: Trace)
    ensures !Admitted(o) ==> t.calls == [] && |t.errors| == 1
    ensures t.tempCreated ==> Admitted(o) && o.tempCreated
  {
    if o.decoded.None? || !o.refValid || !o.versionValid then Refused([], 400)
    else if !o.hasAccount then Refused([], 401)
    else
      var req := o.decoded.value;
      var lookupCalls := if NeedsLookup(o) then [LookupCall(req.bundleId)] else [];
      if NeedsLookup(o) && o.lookup.Failed? then Refused(lookupCalls, o.lookup.status)
      else
        var app := Resolved(o);
        var calls := lookupCalls + if req.autoPurchase then [PurchaseCall(app)] else [];
        if req.autoPurchase && o.purchase.PurchaseFailed? then Refused(calls, o.purchase.status)
        else if !o.tempCreated then Refused(calls, 500)
        else
          var rest := FromTemp(o, app, req.externalVersionId);
          rest.(calls := calls + rest.calls)
  }

  /** The admitted request got past the lookup (if any) and the purchase (if asked for). */
  predicate PastPurchase(o: Outcomes)
  {
    && Admitted(o)
    && (NeedsLookup(o) ==> o.lookup.Succeeded?)
    && !(o.decoded.value.autoPurchase && o.purchase.PurchaseFailed?)
  }

  /**
   * The status of each refusal before the purchase: 400 for a body that does
   * not decode or a reference or version the validators reject, 401 without an
   * account, and the lookup's own status when the lookup fails.
   */
  lemma EarlyRefusalStatuses(o: Outcomes)
    ensures o.decoded.None? || !o.refValid || !o.versionValid ==> Flow(o) == Refused([], 400)
    ensures o.decoded.Some? && o.refValid && o.versionValid && !o.hasAccount ==> Flow(o) == Refused([], 401)
    ensures Admitted(o) && NeedsLookup(o) && o.lookup.Failed? ==>
      Flow(o) == Refused([LookupCall(o.decoded.value.bundleId)], o.lookup.status)
  {
  }

  /**
   * The status of each refusal after the purchase: 500 when no temporary file
   * can be created (and then none exists), the download's own status when the
   * App Store download fails, and 500 when the downloaded file cannot be opened
   * or examined; none of them sends the file's headers.
   */
  lemma LateRefusalStatuses(o: Outcomes)
    requires PastPurchase(o)
    ensures !o.tempCreated ==> Flow(o).errors == [500] && !Flow(o).tempCreated && !Flow(o).headersSent
    ensures o.tempCreated && o.download.DownloadFailed? ==>
      Flow(o).errors == [o.download.status] && Flow(o).tempCreated && !Flow(o).headersSent
    ensures o.tempCreated && o.download.Downloaded? && !(o.fileOpened && o.statted) ==>
      Flow(o).errors == [500] && Flow(o).tempCreated && !Flow(o).headersSent
    ensures o.tempCreated && o.download.Downloaded? && o.fileOpened && o.statted ==>
      Flow(o).errors == [] && Flow(o).headersSent
  {
  }

  /** Each request gets exactly one answer: one error response, or the file's headers and no error. */
  lemma ExactlyOneAnswer(o: Outcomes)
    ensures var t := Flow(o);
      (t.headersSent && t.errors == []) || (!t.headersSent && |t.errors| == 1)
  {
  }

  /**
   * Once the headers are out, a failing copy changes nothing about the
   * response: no error status follows, whatever the copy's error was.
   */
  lemma StreamFailureSendsNoError(o: Outcomes, message: string)
    requires Flow(o).headersSent
    ensures Flow(o.(stream := StreamBroken(message))).errors == []
    ensures Flow(o.(stream := StreamBroken(message))) == Flow(o).(streamed := false)
  {
  }

  /** Rank of a call in the handler's fixed order: lookup, purchase, download. */
  function Rank(c: StoreCall): nat
  {
    match c
    case LookupCall(_) => 0
    case PurchaseCall(_) => 1
    case DownloadCall(_, _) => 2
    case _ => 3
  }

  /** Lookup, purchase and download calls only, each kind at most once, in that order. */
  predicate InOrder(calls: seq<StoreCall>)
  {
    forall i, j | 0 <= i < j < |calls| :: Rank(calls[i]) < Rank(calls[j]) <= 2
  }

  /** A lookup, a purchase and a download, each optional, in that order. */
  lemma PiecesInOrder(lookups: seq<StoreCall>, purchases: seq<StoreCall>, downloads: seq<StoreCall>)
    requires |lookups| <= 1 && |purchases| <= 1 && |downloads| <= 1
    requires forall c | c in lookups :: c.LookupCall?
    requires forall c | c in purchases :: c.PurchaseCall?
    requires forall c | c in downloads :: c.DownloadCall?
    ensures InOrder(lookups + purchases + downloads)
  {
    var calls := lookups + purchases + downloads;
    var firstPurchase, firstDownload := |lookups|, |lookups| + |purchases|;
    forall k | 0 <= k < |calls|
      ensures Rank(calls[k]) == if k < firstPurchase then 0 else if k < firstDownload then 1 else 2
    {
      if k < firstPurchase {
        assert calls[k] == lookups[k] && lookups[k] in lookups;
      } else if k < firstDownload {
        assert calls[k] == purchases[k - firstPurchase] && purchases[k - firstPurchase] in purchases;
      } else {
        assert calls[k] == downloads[k - firstDownload] && downloads[k - firstDownload] in downloads;
      }
    }
  }

  /** The App Store is called at most once per kind, always in the order lookup, purchase, download. */
  lemma CallsInOrder(o: Outcomes)
    ensures InOrder(Flow(o).calls)
  {
    var lookups, purchases, downloads := [], [], [];
    if Admitted(o) {
      var req := o.decoded.value;
      if NeedsLookup(o) {
        lookups := [LookupCall(req.bundleId)];
      }
      if !(NeedsLookup(o) && o.lookup.Failed?) {
        var app := Resolved(o);
        if req.autoPurchase {
          purchases := [PurchaseCall(app)];
        }
        if !(req.autoPurchase && o.purchase.PurchaseFailed?) && o.tempCreated {
          downloads := [DownloadCall(app, req.externalVersionId)];
        }
      }
    }
    assert Flow(o).calls == lookups + purchases + downloads;
    PiecesInOrder(lookups, purchases, downloads);
  }

  /**
   * A lookup happens, as the first call, exactly when the request is admitted,
   * names a bundle ID, and the app built from it has ID 0.
   */
  lemma LookupOnlyWithoutAppId(o: Outcomes)
    ensures var calls := Flow(o).calls;
      (|calls| > 0 && calls[0].LookupCall?) <==> Admitted(o) && NeedsLookup(o)
    ensures var calls := Flow(o).calls;
      |calls| > 0 && calls[0].LookupCall? ==> calls[0] == LookupCall(o.decoded.value.bundleId)
    ensures forall i | 0 < i < |Flow(o).calls| :: !Flow(o).calls[i].LookupCall?
  {
    CallsInOrder(o);
  }

  /** Every purchase and download is for the resolved app, and the download for the requested version. */
  lemma CallsUseResolvedApp(o: Outcomes)
    requires Admitted(o)
    requires NeedsLookup(o) ==> o.lookup.Succeeded?
    ensures forall c | c in Flow(o).calls && c.PurchaseCall? :: c.app == Resolved(o)
    ensures forall c | c in Flow(o).calls && c.DownloadCall? ::
      c.app == Resolved(o) && c.externalVersionId == o.decoded.value.externalVersionId
  {
  }

  /**
   * A purchase error other than `ErrLicenseRequired` ends the request with that
   * error's status: no temporary file, no download.
   */
  lemma PurchaseErrorAborts(o: Outcomes, status: int)
    requires Admitted(o) && o.decoded.value.autoPurchase
    requires NeedsLookup(o) ==> o.lookup.Succeeded?
    requires o.purchase == PurchaseFailed(status)
    ensures Flow(o).errors == [status] && !Flow(o).tempCreated
    ensures Flow(o).calls[|Flow(o).calls| - 1] == PurchaseCall(Resolved(o))
  {
  }

  /**
   * A purchase that succeeds and one refused with `ErrLicenseRequired` both go
   * on to the download, exactly as if the purchase had not been asked for,
   * apart from the purchase call itself.
   */
  lemma LicenseRequiredContinues(o: Outcomes)
    requires Admitted(o) && o.decoded.value.autoPurchase
    requires NeedsLookup(o) ==> o.lookup.Succeeded?
    requires o.purchase == LicenseRequired
    ensures Flow(o) == Flow(o.(purchase := Purchased))
    ensures var plain := Flow(o.(decoded := Some(o.decoded.value.(autoPurchase := false))));
      && Flow(o).errors == plain.errors
      && Flow(o).headersSent == plain.headersSent
      && Flow(o).tempCreated == plain.tempCreated == o.tempCreated
  {
  }

  /** Without auto-purchase the purchase outcome is never consulted. */
  lemma NoPurchaseWithoutAutoPurchase(o: Outcomes, other: PurchaseOutcome)
    requires o.decoded.Some? && !o.decoded.value.autoPurchase
    ensures Flow(o) == Flow(o.(purchase := other))
    ensures forall c | c in Flow(o).calls :: !c.PurchaseCall?
  {
  }

  /**
   * The handler's side of one download request. `calls`, `errors`,
   * `headersSent` and `streamed` are what the App Store and the client see;
   * the ghost fields track the temporary file and the opened download.
   */
  class Exchange {
    var calls: seq<StoreCall>
    var errors: seq<int>
    var headersSent: bool
    var streamed: bool
    ghost var tempCreated: bool
    ghost var tempExists: bool
    ghost var fileOpen: bool

    ghost function Observed(): Trace
      reads this
    {
      Trace(calls, errors, headersSent, tempCreated, streamed)
    }

    constructor ()
      ensures Observed() == Trace([], [], false, false, false) && !tempExists && !fileOpen
    {
      calls, errors, headersSent, streamed := [], [], false, false;
      tempCreated, tempExists, fileOpen := false, false, false;
    }

    /** `respondError`; the handler only ever calls it before the download headers are out. */
    method RespondError(status: int)
      requires !headersSent
      modifies this`errors
      ensures errors == old(errors) + [status]
    {
      errors := errors + [status];
    }

    /** `handleDownload`. */
    method HandleDownload(o: Outcomes)
      requires Observed() == Trace([], [], false, false, false) && !tempExists && !fileOpen
      modifies this
      ensures Observed() == Flow(o)
      ensures !tempExists && !fileOpen
    {
      if o.decoded.None? {
        RespondError(400);
        return;
      }
      var req := o.decoded.value;
      if !o.refValid {
        RespondError(400);
        return;
      }
      if !o.versionValid {
        RespondError(400);
        return;
      }
      if !o.hasAccount {
        RespondError(401);
        return;
      }
      var app := o.built;
      if req.bundleId != "" && app.id == 0 {
        calls := calls + [LookupCall(req.bundleId)];
        match o.lookup {
          case Failed(status) =>
            RespondError(status);
            return;
          case Succeeded(found) =>
            app := found;
        }
      }
      if req.autoPurchase {
        calls := calls + [PurchaseCall(app)];
        if o.purchase.PurchaseFailed? {
          RespondError(o.purchase.status);
          return;
        }
      }
      if !o.tempCreated {
        RespondError(500);
        return;
      }
      tempCreated, tempExists := true, true;
      ServeFromTemp(o, app, req.externalVersionId);
      // deferred os.Remove(tmpPath)
      tempExists := false;
    }

    /** The part of `handleDownload` that runs while the temporary file exists. */
    method ServeFromTemp(o: Outcomes, app: StoreApp, versionId: string)
      requires !headersSent && !streamed && !fileOpen
      modifies this`calls, this`errors, this`headersSent, this`streamed, this`fileOpen
      ensures var t := FromTemp(o, app, versionId);
        && calls == old(calls) + t.calls && errors == old(errors) + t.errors
        && headersSent == t.headersSent && streamed == t.streamed
      ensures !fileOpen
    {
      calls := calls + [DownloadCall(app, versionId)];
      if o.download.DownloadFailed? {
        RespondError(o.download.status);
        return;
      }
      if !o.fileOpened {
        RespondError(500);
        return;
      }
      fileOpen := true;
      StreamOpenFile(o);
      // deferred file.Close()
      fileOpen := false;
    }

    /** The part of `handleDownload` that runs while the downloaded file is open. */
    method StreamOpenFile(o: Outcomes)
      requires !headersSent && !streamed
      modifies this`errors, this`headersSent, this`streamed
      ensures !o.statted ==> errors == old(errors) + [500] && !headersSent && !streamed
      ensures o.statted ==> errors == old(errors) && headersSent && streamed == o.stream.StreamCompleted?
    {
      if !o.statted {
        RespondError(500);
        return;
      }
      headersSent := true;
      // a failed copy is only logged: the status line has already gone out
      streamed := o.stream.StreamCompleted?;
    }
  }
}
