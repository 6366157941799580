/** Downloading a package: resuming, restarting a bounded number of times, and failing. */
module FotaDownload {
  import opened Common
  import opened FotaTypes
  import opened FotaSql
  import opened FotaDb
  import opened FotaBoot

  /** How many times the restart count is set to when a download is asked for. */
  const MAX_RESTARTS: nat := 3

  // ------------------------------------------------------------------------------------------
  // Events of the download manager
  // ------------------------------------------------------------------------------------------

  datatype DownloadState = Completed | Paused | Failed | Cancelled | Other

  /** Error codes of the download manager, by the ranges that are told apart. */
  datatype DownloadError =
    | ConnectionError | ContentNotFound | ContentError | ProtocolError | ConnectionFailed | ObjectNotFound
    | BadUrl | MediaRemoved | DiskFull | InvalidDescriptor | UserCancelled | NeedMoreMemory | InvalidContentType
    | UnknownError

  /** Result codes for the errors; each is a reason. */
  function MapDownloadErrors(err: DownloadError): (result: int)
    ensures result != NOT_FOUND
    ensures result == RES_NETWORK_ISSUES <==> err == ConnectionFailed
    ensures result == RES_OUT_OF_MEMORY <==> err == MediaRemoved || err == DiskFull
    ensures result == RES_SERVER_UNAVAILABLE <==> err in {ConnectionError, ContentNotFound, ObjectNotFound}
    ensures result == RES_MALFORMED_OR_BAD_URL <==> err == BadUrl
    ensures result == RES_INVALID_DESCRIPTOR <==> err == InvalidDescriptor
    ensures result == RES_UNDEFINED_ERROR <==>
            err in {ContentError, ProtocolError, UserCancelled, NeedMoreMemory, InvalidContentType, UnknownError}
  {
    match err
    case ConnectionError => RES_SERVER_UNAVAILABLE
    case ContentNotFound => RES_SERVER_UNAVAILABLE
    case ConnectionFailed => RES_NETWORK_ISSUES
    case ObjectNotFound => RES_SERVER_UNAVAILABLE
    case BadUrl => RES_MALFORMED_OR_BAD_URL
    case MediaRemoved => RES_OUT_OF_MEMORY
    case DiskFull => RES_OUT_OF_MEMORY
    case InvalidDescriptor => RES_INVALID_DESCRIPTOR
    case _ => RES_UNDEFINED_ERROR
  }

  /** What becomes of an attempt to submit a download. */
  datatype Submission = MalformedUrl | Submitted | NotOk | OtherError

  /** How a write of the table goes: the database may not open; the write may leave, when the count of
      report attempts has already been restarted in memory; or only the clean-up after it leaves. */
  datatype Writing = Written | OpenFails | WriteFails | CompactFails

  /** Capacity of the buffers for name and version of a package. */
  const TEXT_CAPACITY: nat := 80

  // ------------------------------------------------------------------------------------------
  // The state machine
  // ------------------------------------------------------------------------------------------

  /** The package in memory and in the table, the count in the repository, and a log of the
      restarts. */
  datatype Client = Client(
    pkg: Package,
    row: Package,
    submitted: bool,
    progress: bool,
    restartCount: int,
    restarts: nat)

  datatype Event =
    /** A client asks for a download; all counters are reset. */
    | Download(submission: Submission, writing: Writing)
    /** A paused download is to go on; when it cannot, it may be submitted again. */
    | Resume(resumed: bool, submission: Submission, writing: Writing)
    /** The download begins; its descriptor says what it is. */
    | StartProgress(name: string, version: string, size: PkgSize, writing: Writing)
    | Progress
    | DownloadEvent(state: DownloadState, error: DownloadError, writing: Writing)
    | ClientInterrupt(state: DownloadState, error: DownloadError, writing: Writing)
    | Finalize(writing: Writing)
    /** The server dies and starts again. */
    | Reboot(start: Start)

  predicate Stored(writing: Writing) {
    writing.Written? || writing.CompactFails?
  }

  /** Writes the named columns of the package, of which the state is one. */
  function Store(c: Client, mask: set<Column>, tries: int, writing: Writing): (d: Client)
    ensures d.pkg.state == c.pkg.state && d.pkg.result == c.pkg.result
    ensures d.row.state == if Stored(writing) && State in mask then c.pkg.state else c.row.state
    ensures d.row.result == if Stored(writing) && Result in mask then c.pkg.result else c.row.result
  {
    var pkg := if writing.OpenFails? then c.pkg else c.pkg.(tries := tries);
    c.(pkg := pkg, row := if Stored(writing) then Masked(c.row, pkg, mask + {SmlTryCount}) else c.row)
  }

  const OUTCOME: set<Column> := {State, Result}
  const DESCRIPTOR: set<Column> := {PkgName, Version, Size, State}

  /** A write that takes effect is the one of the table. */
  lemma StoreIsWrite(c: Client, mask: set<Column>, rows: seq<Package>, i: nat, setting: Option<int>)
    requires State in mask && Unique(rows) && i < |rows| && rows[i] == c.row && c.pkg.pkgId == c.row.pkgId
    requires Takes(rows, c.pkg, mask, setting)
    ensures var d := Store(c, mask, TryCount(setting), Written);
            && SetRows(rows, c.pkg, mask, setting) == rows[i := d.row]
            && d.pkg == WithReset(c.pkg, mask, setting)
  {
    hide AllInRange;
    hide Fits;
    hide TryCount;
    hide Masked;
    assert Ids(rows)[i] == c.pkg.pkgId;
    var q := WithReset(c.pkg, mask, setting);
    assert UpdateRows(rows, q, EffectiveMask(mask)) == rows[i := Masked(c.row, q, EffectiveMask(mask))];
  }

  function SetOutcome(c: Client, state: int, result: int): Client {
    c.(pkg := c.pkg.(state := state, result := result))
  }

  /** A failed write leaves before the download is started. */
  function Submit(c: Client, submission: Submission, tries: int, writing: Writing): Client {
    var c' := c.(submitted := false, progress := false);
    match submission
    case MalformedUrl => Store(SetOutcome(c', DOWNLOAD_FAILED, RES_MALFORMED_OR_BAD_URL), OUTCOME, tries, writing)
    case Submitted =>
      Store(SetOutcome(c', STARTING_DOWNLOAD, NOT_FOUND), OUTCOME, tries, writing).(submitted := writing.Written?)
    case NotOk => Store(SetOutcome(c', DOWNLOAD_FAILED, RES_UNDEFINED_ERROR), OUTCOME, tries, writing)
    case OtherError => c'
  }

  /** A text replaces the old one if it fits the buffer. */
  function Copied(old': string, text: string): string {
    if |text| <= TEXT_CAPACITY then text else old'
  }

  function AfterStart(c: Client, name: string, version: string, size: PkgSize, tries: int, writing: Writing): Client {
    var pkg := c.pkg.(state := DOWNLOAD_PROGRESSING, pkgSize := size,
                      name := Copied(c.pkg.name, name), version := Copied(c.pkg.version, version));
    Store(c.(pkg := pkg), DESCRIPTOR, tries, writing)
  }

  /** One restart less; none is left when the count reaches zero. */
  function Decremented(count: int): int {
    if count - 1 < 0 then 0 else count - 1
  }

  function TryResume(c: Client, resumed: bool, submission: Submission, tries: int, writing: Writing): Client {
    var c' := c.(submitted := true, progress := false);
    if resumed then c'
    else
      var d := c'.(restartCount := Decremented(c.restartCount));
      if d.restartCount != 0 then Submit(d.(restarts := d.restarts + 1), submission, tries, writing)
      else
        SetOutcome(d.(submitted := false), DOWNLOAD_FAILED,
                   if d.pkg.result == NOT_FOUND then RES_UNDEFINED_ERROR else d.pkg.result)
  }

  function AfterDownloadEvent(c: Client, state: DownloadState, error: DownloadError, tries: int, writing: Writing)
    : Client
  {
    var c' := c.(submitted := false, progress := false);
    var result := MapDownloadErrors(error);
    var d :=
      match state
      case Completed => SetOutcome(c', DOWNLOAD_COMPLETE, NOT_FOUND)
      case Failed =>
        SetOutcome(c', if result == RES_OUT_OF_MEMORY || result == RES_NETWORK_ISSUES then DOWNLOAD_PROGRESSING
                       else DOWNLOAD_FAILED, result)
      case Other => c'
      case _ => SetOutcome(c', DOWNLOAD_PROGRESSING, result);
    Store(d, OUTCOME, tries, writing)
  }

  /** What an interrupt by the user makes of the package in memory. */
  function Interrupted(c: Client, state: DownloadState, error: DownloadError): Client {
    if state.Cancelled? || state.Failed? then
      match error
      case UserCancelled => SetOutcome(c, DOWNLOAD_FAILED, RES_USER_CANCELLED)
      case NeedMoreMemory => SetOutcome(c, DOWNLOAD_PROGRESSING, RES_USER_CANCELLED)
      case InvalidContentType => SetOutcome(c, DOWNLOAD_FAILED, RES_CONTENT_MISMATCH)
      case _ => c
    else if state.Paused? && error.UserCancelled? then SetOutcome(c, DOWNLOAD_PROGRESSING, RES_USER_CANCELLED)
    else c
  }

  function AfterInterrupt(c: Client, state: DownloadState, error: DownloadError, tries: int, writing: Writing): Client {
    Store(Interrupted(c.(submitted := false, progress := false), state, error), OUTCOME, tries, writing)
  }

  function Step(c: Client, e: Event, tries: int): Client {
    match e
    case Download(submission, writing) => Submit(c.(restartCount := MAX_RESTARTS), submission, tries, writing)
    case Resume(resumed, submission, writing) => TryResume(c, resumed, submission, tries, writing)
    case StartProgress(name, version, size, writing) => AfterStart(c, name, version, size, tries, writing)
    case Progress => c.(progress := true)
    case DownloadEvent(state, error, writing) => AfterDownloadEvent(c, state, error, tries, writing)
    case ClientInterrupt(state, error, writing) => AfterInterrupt(c, state, error, tries, writing)
    case Finalize(writing) => Store(c, OUTCOME, tries, writing)
    case Reboot(start) =>
      var row := BootRow(c.row, start, tries);
      c.(pkg := row, row := row, submitted := false, progress := false)
  }

  // ------------------------------------------------------------------------------------------
  // The client object
  // ------------------------------------------------------------------------------------------

  class DownloadManagerClient {
    var packageState: Package
    var row: Package
    var downloadSubmitted: bool
    var progress: bool
    var downloadRestartCount: int
    ghost var restarts: nat
    const tries: int

    constructor (row: Package, downloadRestartCount: int, tries: int)
      ensures Snapshot() == Client(row, row, false, false, downloadRestartCount, 0) && this.tries == tries
    {
      packageState := row;
      this.row := row;
      downloadSubmitted := false;
      progress := false;
      this.downloadRestartCount := downloadRestartCount;
      restarts := 0;
      this.tries := tries;
    }

    ghost function Snapshot(): Client
      reads this
    {
      Client(packageState, row, downloadSubmitted, progress, downloadRestartCount, restarts)
    }

    /** Writes the named columns of the package; false stands for a leave. */
    method StoreState(mask: set<Column>, writing: Writing) returns (ok: bool)
      requires State in mask
      modifies this`packageState, this`row
      ensures Snapshot() == Store(old(Snapshot()), mask, tries, writing)
      ensures ok <==> writing.Written?
    {
      ok := false;
      if writing.OpenFails? {
        return;
      }
      packageState := packageState.(tries := tries);
      if writing.WriteFails? {
        return;
      }
      row := Masked(row, packageState, mask + {SmlTryCount});
      ok := writing.Written?;
    }

    method ResetCounters()
      modifies this`downloadRestartCount
      ensures Snapshot() == old(Snapshot()).(restartCount := MAX_RESTARTS)
    {
      downloadRestartCount := MAX_RESTARTS;
    }

    method DecrementDownloadRestartCount() returns (left: bool)
      modifies this`downloadRestartCount
      ensures Snapshot() == old(Snapshot()).(restartCount := Decremented(old(downloadRestartCount)))
      ensures left <==> downloadRestartCount != 0
    {
      var count := downloadRestartCount - 1;
      if count < 0 {
        count := 0;
      }
      downloadRestartCount := count;
      left := count != 0;
    }

    /** Submits a download; false stands for a leave. */
    method DownloadL(submission: Submission, writing: Writing) returns (ok: bool)
      modifies this`packageState, this`row, this`downloadSubmitted, this`progress
      ensures Snapshot() == Submit(old(Snapshot()), submission, tries, writing)
      ensures ok <==> submission == OtherError || writing.Written?
    {
      hide Masked;
      ok := true;
      downloadSubmitted := false;
      progress := false;
      if submission == MalformedUrl {
        packageState := packageState.(state := DOWNLOAD_FAILED, result := RES_MALFORMED_OR_BAD_URL);
        ok := StoreState(OUTCOME, writing);
        return;
      }
      if submission == Submitted {
        packageState := packageState.(state := STARTING_DOWNLOAD, result := NOT_FOUND);
        ok := StoreState(OUTCOME, writing);
        if !ok {
          return;
        }
        downloadSubmitted := true;
      }
      if submission == NotOk {
        packageState := packageState.(state := DOWNLOAD_FAILED, result := RES_UNDEFINED_ERROR);
        ok := StoreState(OUTCOME, writing);
      }
    }

    /** The download begins; a failed write is ignored. */
    method StartDownloadProgress(name: string, version: string, size: PkgSize, writing: Writing)
      modifies this`packageState, this`row
      ensures Snapshot() == AfterStart(old(Snapshot()), name, version, size, tries, writing)
    {
      hide Masked;
      packageState := packageState.(state := DOWNLOAD_PROGRESSING, pkgSize := size);
      if |name| <= TEXT_CAPACITY {
        packageState := packageState.(name := name);
      }
      if |version| <= TEXT_CAPACITY {
        packageState := packageState.(version := version);
      }
      var _ := StoreState(DESCRIPTOR, writing);
    }

    method TryResumeDownloadL(resumed: bool, submission: Submission, writing: Writing) returns (ok: bool)
      modifies this
      ensures Snapshot() == TryResume(old(Snapshot()), resumed, submission, tries, writing)
    {
      ok := true;
      downloadSubmitted := true;
      progress := false;
      if !resumed {
        var left := DecrementDownloadRestartCount();
        if left {
          restarts := restarts + 1;
          ok := DownloadL(submission, writing);
        } else {
          packageState := packageState.(state := DOWNLOAD_FAILED);
          if packageState.result == NOT_FOUND {
            packageState := packageState.(result := RES_UNDEFINED_ERROR);
          }
          downloadSubmitted := false;
        }
      }
    }

    method HandleDownloadEvent(dlstate: DownloadState, err0: DownloadError, writing: Writing)
      modifies this`packageState, this`row, this`downloadSubmitted, this`progress
      ensures Snapshot() == AfterDownloadEvent(old(Snapshot()), dlstate, err0, tries, writing)
    {
      hide Store;
      downloadSubmitted := false;
      progress := false;
      if dlstate == Completed {
        packageState := packageState.(state := DOWNLOAD_COMPLETE, result := NOT_FOUND);
      } else if dlstate == Paused || dlstate == Cancelled {
        packageState := packageState.(state := DOWNLOAD_PROGRESSING, result := MapDownloadErrors(err0));
      } else if dlstate == Failed {
        packageState := packageState.(state := DOWNLOAD_FAILED, result := MapDownloadErrors(err0));
        if packageState.result == RES_OUT_OF_MEMORY || packageState.result == RES_NETWORK_ISSUES {
          packageState := packageState.(state := DOWNLOAD_PROGRESSING);
        }
      }
      var _ := StoreState(OUTCOME, writing);
    }

    method HandleClientInterrupt(dlstate: DownloadState, err0: DownloadError, writing: Writing)
      modifies this`packageState, this`row, this`downloadSubmitted, this`progress
      ensures Snapshot() == AfterInterrupt(old(Snapshot()), dlstate, err0, tries, writing)
    {
      hide Store;
      downloadSubmitted := false;
      progress := false;
      if dlstate == Cancelled || dlstate == Failed {
        if err0 == UserCancelled {
          packageState := packageState.(state := DOWNLOAD_FAILED, result := RES_USER_CANCELLED);
        } else if err0 == NeedMoreMemory {
          packageState := packageState.(state := DOWNLOAD_PROGRESSING, result := RES_USER_CANCELLED);
        } else if err0 == InvalidContentType {
          packageState := packageState.(state := DOWNLOAD_FAILED, result := RES_CONTENT_MISMATCH);
        }
      } else if dlstate == Paused {
        if err0 == UserCancelled {
          packageState := packageState.(state := DOWNLOAD_PROGRESSING, result := RES_USER_CANCELLED);
        }
      }
      assert Snapshot() == Interrupted(old(Snapshot()).(submitted := false, progress := false), dlstate, err0);
      hide Interrupted;
      var _ := StoreState(OUTCOME, writing);
    }
  }

  // ------------------------------------------------------------------------------------------
  // Bounded restarts
  // ------------------------------------------------------------------------------------------

  /** An event, and the number of tries that a write sets at its time. */
  datatype Occurrence = At(event: Event, tries: int)

  function RunAll(c: Client, os: seq<Occurrence>): Client
    decreases |os|
  {
    if os == [] then c else RunAll(Step(c, os[0].event, os[0].tries), os[1..])
  }

  /** Number of resumes that did not succeed. */
  function FailedResumes(os: seq<Occurrence>): nat {
    if os == [] then 0
    else (if os[0].event.Resume? && !os[0].event.resumed then 1 else 0) + FailedResumes(os[1..])
  }

  predicate NoRequest(os: seq<Occurrence>) {
    forall i :: 0 <= i < |os| ==> !os[i].event.Download?
  }

  function Min(a: int, b: int): int {
    if a < b then a else b
  }

  lemma StepCounts(c: Client, e: Event, tries: int)
    requires !e.Download? && c.restartCount >= 0
    ensures var d := Step(c, e, tries);
            if !(e.Resume? && !e.resumed) then d.restartCount == c.restartCount && d.restarts == c.restarts
            else d.restartCount == Decremented(c.restartCount)
                 && d.restarts == c.restarts + if c.restartCount > 1 then 1 else 0
  {
    hide BootRow;
  }

  /** Between two resets, over any events and restarts of the server, the failed resumes restart the
      download exactly as often as there are, but at most once less than the count at the reset. */
  lemma {:induction false} RestartsExactly(c: Client, os: seq<Occurrence>)
    requires c.restartCount >= 1 && NoRequest(os)
    ensures var d := RunAll(c, os);
            && d.restarts - c.restarts == Min(FailedResumes(os), c.restartCount - 1)
            && d.restartCount == (if FailedResumes(os) < c.restartCount then c.restartCount - FailedResumes(os) else 0)
    decreases |os|
  {
    hide Step;
    if os != [] {
      StepCounts(c, os[0].event, os[0].tries);
      var d := Step(c, os[0].event, os[0].tries);
      if d.restartCount >= 1 {
        RestartsExactly(d, os[1..]);
      } else {
        NoMoreRestarts(d, os[1..]);
      }
    }
  }

  lemma {:induction false} NoMoreRestarts(c: Client, os: seq<Occurrence>)
    requires c.restartCount == 0 && NoRequest(os)
    ensures var d := RunAll(c, os); d.restarts == c.restarts && d.restartCount == 0
    decreases |os|
  {
    hide Step;
    if os != [] {
      StepCounts(c, os[0].event, os[0].tries);
      NoMoreRestarts(Step(c, os[0].event, os[0].tries), os[1..]);
    }
  }

  /** After a requested download at most two restarts follow, whatever happens until the next
      request; and every failed resume after those fails the download with a reason. */
  lemma RestartsBounded(c: Client, request: Event, os: seq<Occurrence>, again: Event, tries: int)
    requires request.Download? && NoRequest(os) && again.Resume? && !again.resumed
    ensures var start := Step(c, request, tries);
            var d := RunAll(start, os);
            && d.restarts - start.restarts <= MAX_RESTARTS - 1
            && (FailedResumes(os) >= MAX_RESTARTS - 1 ==>
                  var f := Step(d, again, tries);
                  f.restarts == d.restarts && !f.submitted
                  && f.pkg.state == DOWNLOAD_FAILED && f.pkg.result != NOT_FOUND)
  {
    hide Masked;
    RestartsExactly(Step(c, request, tries), os);
  }

  // ------------------------------------------------------------------------------------------
  // Failures have reasons
  // ------------------------------------------------------------------------------------------

  /** A failed download carries a result, in memory and in the table. */
  predicate Reasoned(c: Client) {
    && (c.pkg.state == DOWNLOAD_FAILED ==> c.pkg.result != NOT_FOUND)
    && (c.row.state == DOWNLOAD_FAILED ==> c.row.result != NOT_FOUND)
  }

  /** The device management server starts this server after a download was cut off while starting, and
      no download is active. */
  predicate LosesReason(c: Client, e: Event) {
    e.Reboot? && e.start.hostServer && !e.start.downloadActive
    && c.row.state == STARTING_DOWNLOAD && c.row.result == NOT_FOUND
  }

  /** A step loses the reason exactly then, whether or not its write succeeds. */
  lemma ReasonKeptIff(c: Client, e: Event, tries: int)
    requires Reasoned(c)
    ensures Reasoned(Step(c, e, tries)) <==> !LosesReason(c, e)
  {
    hide Store;
    match e
    case Reboot(_) => hide AfterDownloadEvent;
    case _ => hide BootRow;
  }

  /** The state after the first `k` events. */
  function StateAt(c: Client, os: seq<Occurrence>, k: nat): Client
    requires k <= |os|
  {
    RunAll(c, os[..k])
  }

  lemma StateAtNext(c: Client, os: seq<Occurrence>, k: nat)
    requires k < |os|
    ensures StateAt(c, os, k + 1) == Step(StateAt(c, os, k), os[k].event, os[k].tries)
  {
    hide Step;
    assert os[..k + 1] == os[..k] + [os[k]];
    RunLast(c, os[..k], os[k]);
  }

  lemma {:induction false} ReasonedUntil(c: Client, os: seq<Occurrence>, n: nat)
    requires Reasoned(c) && n <= |os|
    requires forall k :: 0 <= k < n ==> !LosesReason(StateAt(c, os, k), os[k].event)
    ensures Reasoned(StateAt(c, os, n))
  {
    hide Step;
    hide Reasoned;
    hide LosesReason;
    if n > 0 {
      ReasonedUntil(c, os, n - 1);
      StateAtNext(c, os, n - 1);
      hide StateAt;
      ReasonKeptIff(StateAt(c, os, n - 1), os[n - 1].event, os[n - 1].tries);
    }
  }

  /** Every state of a run has reasons exactly when no such start is among its events. */
  lemma AlwaysReasonedIff(c: Client, os: seq<Occurrence>)
    requires Reasoned(c)
    ensures (forall k :: 0 <= k <= |os| ==> Reasoned(StateAt(c, os, k))) <==>
            forall k :: 0 <= k < |os| ==> !LosesReason(StateAt(c, os, k), os[k].event)
  {
    hide Step;
    hide Reasoned;
    hide LosesReason;
    hide StateAt;
    if forall k :: 0 <= k < |os| ==> !LosesReason(StateAt(c, os, k), os[k].event) {
      forall n | 0 <= n <= |os|
        ensures Reasoned(StateAt(c, os, n))
      {
        ReasonedUntil(c, os, n);
      }
    } else {
      var k :| 0 <= k < |os| && LosesReason(StateAt(c, os, k), os[k].event);
      if Reasoned(StateAt(c, os, k)) {
        StateAtNext(c, os, k);
        ReasonKeptIff(StateAt(c, os, k), os[k].event, os[k].tries);
        assert !Reasoned(StateAt(c, os, k + 1));
      }
    }
  }

  lemma {:induction false} RunLast(c: Client, os: seq<Occurrence>, o: Occurrence)
    ensures RunAll(c, os + [o]) == Step(RunAll(c, os), o.event, o.tries)
    decreases |os|
  {
    hide Step;
    if os == [] {
      assert (os + [o])[1..] == [];
    } else {
      assert (os + [o])[1..] == os[1..] + [o];
      RunLast(Step(c, os[0].event, os[0].tries), os[1..], o);
    }
  }

  /** What asking for a download leaves: the counter is reset; a download that is submitted is starting,
      and is active once that is written; a bad URL and a refusal fail it, each with its own reason; and
      another error leaves the package as it was. */
  lemma SubmitOutcome(c: Client, submission: Submission, tries: int, writing: Writing)
    ensures var d := Step(c, Download(submission, writing), tries);
            && d.restartCount == 3 && d.restarts == c.restarts && !d.progress
            && (d.submitted <==> submission == Submitted && writing == Written)
            && (submission == Submitted ==> d.pkg.state == STARTING_DOWNLOAD && d.pkg.result == NOT_FOUND)
            && (submission == MalformedUrl ==>
                  d.pkg.state == DOWNLOAD_FAILED && d.pkg.result == RES_MALFORMED_OR_BAD_URL)
            && (submission == NotOk ==> d.pkg.state == DOWNLOAD_FAILED && d.pkg.result == RES_UNDEFINED_ERROR)
            && (submission == OtherError ==> d.pkg == c.pkg && d.row == c.row)
            && (submission != OtherError ==>
                  d.row == if writing in {Written, CompactFails} then
                             c.row.(state := d.pkg.state, result := d.pkg.result, tries := tries)
                           else c.row)
  {
  }

  /** A resume that fails with no restart left fails the download; a reason that is known is kept. */
  lemma ExhaustedOutcome(c: Client, submission: Submission, tries: int, writing: Writing)
    requires c.restartCount <= 1
    ensures var d := Step(c, Resume(false, submission, writing), tries);
            && d.restartCount == 0 && d.restarts == c.restarts && !d.submitted && d.row == c.row
            && d.pkg == c.pkg.(state := DOWNLOAD_FAILED, result := d.pkg.result)
            && d.pkg.result == if c.pkg.result == NOT_FOUND then RES_UNDEFINED_ERROR else c.pkg.result
  {
  }

  /** What the beginning of a download leaves in the table: the descriptor's size, its name and version if
      they fit, otherwise the old ones, and the result as it was. */
  lemma ProgressOutcome(c: Client, name: string, version: string, size: PkgSize, tries: int)
    ensures var d := Step(c, StartProgress(name, version, size, Written), tries);
            && d.row == c.row.(state := DOWNLOAD_PROGRESSING, pkgSize := size, tries := tries,
                               name := d.row.name, version := d.row.version)
            && d.row.name == (if |name| <= 80 then name else c.pkg.name)
            && d.row.version == (if |version| <= 80 then version else c.pkg.version)
            && d.pkg.result == c.pkg.result && d.pkg.state == DOWNLOAD_PROGRESSING
            && d.pkg.name == d.row.name && d.pkg.version == d.row.version && d.pkg.pkgSize == size
            && d.submitted == c.submitted && d.progress == c.progress
  {
  }

  /** What the user's interrupt leaves: cancelling fails the download, as does content of a wrong type; a
      lack of memory, and a pause, leave it resumable; anything else leaves the package as it was. */
  lemma InterruptOutcome(c: Client, state: DownloadState, error: DownloadError, tries: int, writing: Writing)
    ensures var d := Step(c, ClientInterrupt(state, error, writing), tries);
            var ended := state == Cancelled || state == Failed;
            && !d.submitted && !d.progress
            && (ended && error == UserCancelled ==>
                  d.pkg.state == DOWNLOAD_FAILED && d.pkg.result == RES_USER_CANCELLED)
            && (ended && error == InvalidContentType ==>
                  d.pkg.state == DOWNLOAD_FAILED && d.pkg.result == RES_CONTENT_MISMATCH)
            && ((ended && error == NeedMoreMemory) || (state == Paused && error == UserCancelled) ==>
                  d.pkg.state == DOWNLOAD_PROGRESSING && d.pkg.result == RES_USER_CANCELLED)
            && (!(ended && error in {UserCancelled, InvalidContentType, NeedMoreMemory})
                && !(state == Paused && error == UserCancelled) ==>
                  d.pkg.state == c.pkg.state && d.pkg.result == c.pkg.result)
            && d.row == if writing in {Written, CompactFails} then
                          c.row.(state := d.pkg.state, result := d.pkg.result, tries := tries)
                        else c.row
  {
  }

  /** What the finalizer writes again, and what a restart reads back: memory and table agree about state
      and result. */
  lemma FinalizeAndReboot(c: Client, tries: int, start: Start)
    ensures var d := Step(c, Finalize(Written), tries);
            && d.row == c.row.(state := c.pkg.state, result := c.pkg.result, tries := tries)
            && d.pkg == c.pkg.(tries := tries) && d == c.(pkg := d.pkg, row := d.row)
    ensures var d := Step(c, Reboot(start), tries);
            && d.pkg == d.row == BootRow(c.row, start, tries)
            && d.restartCount == c.restartCount && d.restarts == c.restarts
  {
    hide BootRow;
  }

  /** What the server takes for an active download, which keeps a second one from starting. */
  predicate Active(c: Client) {
    c.submitted || c.progress
  }

  /** Exactly which steps leave a download active. */
  lemma ActiveIff(c: Client, e: Event, tries: int)
    requires c.restartCount >= 0
    ensures Active(Step(c, e, tries)) <==>
            match e
            case Download(submission, writing) => submission == Submitted && writing == Written
            case Resume(resumed, submission, writing) =>
              resumed || (c.restartCount > 1 && submission == Submitted && writing == Written)
            case Progress => true
            case StartProgress(_, _, _, _) => Active(c)
            case Finalize(_) => Active(c)
            case _ => false
  {
    hide Masked;
    hide BootRow;
  }

  /** A resume that succeeds changes neither the package nor the count. */
  lemma ResumedOutcome(c: Client, submission: Submission, tries: int, writing: Writing)
    ensures Step(c, Resume(true, submission, writing), tries) == c.(submitted := true, progress := false)
  {
  }

  /** What a finished download leaves: complete without a result, resumable after trouble with memory
      or network, failed with a reason otherwise; no download is active any more; and the table follows,
      or keeps its row when it could not be written. */
  lemma EventOutcome(c: Client, state: DownloadState, error: DownloadError, tries: int, writing: Writing)
    requires state != Other
    ensures var d := Step(c, DownloadEvent(state, error, writing), tries);
            && !d.submitted && !d.progress
            && (d.pkg.state == DOWNLOAD_COMPLETE <==> state == Completed)
            && (d.pkg.state == DOWNLOAD_FAILED <==>
                  state == Failed && error !in {MediaRemoved, DiskFull, ConnectionFailed})
            && (state in {Paused, Cancelled} ==> d.pkg.state == DOWNLOAD_PROGRESSING)
            && (state == Failed && error in {MediaRemoved, DiskFull, ConnectionFailed} ==>
                  d.pkg.state == DOWNLOAD_PROGRESSING)
            && d.pkg.result == (if state == Completed then NOT_FOUND else MapDownloadErrors(error))
            && d.row == if writing in {Written, CompactFails} then
                          c.row.(state := d.pkg.state, result := d.pkg.result, tries := tries)
                        else c.row
  {
  }
}
