/** Recovery of the package table when the server starts, and the result file of the update agent. */
module FotaBoot {
  import opened Common
  import opened Decimals
  import opened FotaTypes
  import opened FotaSql
  import opened FotaDb

  /** What the server finds when it starts. */
  datatype Start = Start(
    /** The device management server is the client, and does its own clean-up. */
    hostServer: bool,
    /** The software version differs from the one when the download started. */
    versionChanged: bool,
    /** A result file is waiting to be executed. */
    resultPending: bool,
    downloadActive: bool)

  // ------------------------------------------------------------------------------------------
  // What becomes of one row
  // ------------------------------------------------------------------------------------------

  function Move(p: Package, state: int, result: int, tries: int): Package {
    p.(state := state, result := result, tries := tries)
  }

  function CheckVersion(p: Package, st: Start, tries: int): Package {
    if (p.state == STARTING_UPDATE || p.state == DOWNLOAD_PROGRESSING) && st.versionChanged
    then Move(p, UPDATE_FAILED, RES_PACKAGE_MISMATCH, tries)
    else p
  }

  function CheckUpdate(p: Package, st: Start, tries: int): Package {
    if p.state == UPDATE_PROGRESSING && !st.resultPending then Move(p, STARTING_UPDATE, p.result, tries) else p
  }

  function CheckDownload(p: Package, st: Start, tries: int): Package {
    if !st.downloadActive && p.state == STARTING_DOWNLOAD then Move(p, DOWNLOAD_FAILED, p.result, tries) else p
  }

  function CheckFailed(p: Package, st: Start): Package {
    if p.state == DOWNLOAD_FAILED && !st.hostServer then p.(result := RES_NETWORK_ISSUES) else p
  }

  /** The first two checks, or the last two, write the row. */
  predicate WritesUpdate(p: Package, st: Start) {
    || ((p.state == STARTING_UPDATE || p.state == DOWNLOAD_PROGRESSING) && st.versionChanged)
    || (p.state == UPDATE_PROGRESSING && !st.resultPending)
  }

  predicate WritesDownload(p: Package, st: Start) {
    || (p.state == STARTING_DOWNLOAD && !st.downloadActive)
    || (p.state == DOWNLOAD_FAILED && !st.hostServer)
  }

  function BootRow(p: Package, st: Start, tries: int): Package {
    CheckFailed(CheckDownload(CheckUpdate(CheckVersion(p, st, tries), st, tries), st, tries), st)
  }

  // ------------------------------------------------------------------------------------------
  // Passes over the table
  // ------------------------------------------------------------------------------------------

  /** A loop over all packages: the recovery at a start, or the execution of a result file. */
  datatype Pass = StartUp(st: Start) | ResultFile(code: nat)

  function RowAfter(p: Package, pass: Pass, tries: int): (r: Package)
    ensures r.pkgId == p.pkgId && r.url == p.url
  {
    match pass
    case StartUp(st) => BootRow(p, st, tries)
    case ResultFile(code) => ResultRow(p, code, tries)
  }

  /** The pass writes the row. */
  predicate Writes(p: Package, pass: Pass) {
    match pass
    case StartUp(st) => WritesUpdate(p, st) || WritesDownload(p, st)
    case ResultFile(_) => p.state == UPDATE_PROGRESSING
  }

  /** The server gets past the row: the stored URL fits the buffer that it is read into, and if the
      row is written, its identifier fits the end of the statement. */
  predicate Survives(p: Package, pass: Pass) {
    |p.url| <= FILE_NAME_CAPACITY && (Writes(p, pass) ==> |Decimal(p.pkgId)| <= 8)
  }

  /** Number of rows that the server gets past before it panics. */
  function FirstFatal(rows: seq<Package>, pass: Pass): (n: nat)
    ensures n <= |rows| && forall i :: 0 <= i < n ==> Survives(rows[i], pass)
    ensures n < |rows| ==> !Survives(rows[n], pass)
  {
    if rows == [] || !Survives(rows[0], pass) then 0
    else
      var n := FirstFatal(rows[1..], pass);
      assert forall i :: 1 <= i < n + 1 ==> rows[i] == rows[1..][i - 1];
      n + 1
  }

  /** The table after a pass over its first `n` rows. */
  function PassedTo(rows: seq<Package>, pass: Pass, tries: int, n: nat): (r: seq<Package>)
    ensures |r| == |rows|
    ensures forall i :: 0 <= i < |rows| ==> r[i] == if i < n then RowAfter(rows[i], pass, tries) else rows[i]
  {
    seq(|rows|, i requires 0 <= i < |rows| => if i < n then RowAfter(rows[i], pass, tries) else rows[i])
  }

  /** The table after as much of a pass as the server survives. */
  function Passed(rows: seq<Package>, pass: Pass, tries: int): seq<Package> {
    PassedTo(rows, pass, tries, FirstFatal(rows, pass))
  }

  function BootRows(rows: seq<Package>, st: Start, tries: int): (r: seq<Package>)
    ensures |r| == |rows| && forall i :: 0 <= i < |rows| ==> r[i] == BootRow(rows[i], st, tries)
  {
    PassedTo(rows, StartUp(st), tries, |rows|)
  }

  // ------------------------------------------------------------------------------------------
  // Writing a row back
  // ------------------------------------------------------------------------------------------

  /** Writing the outcome of a stored package changes the named columns of its one row, exactly when
      its identifier is short enough. */
  lemma WriteBackIsUpdate(rows: seq<Package>, i: nat, p: Package, mask: set<Column>, setting: Option<int>)
    requires Unique(rows) && i < |rows| && p.pkgId == rows[i].pkgId && |rows[i].url| <= FILE_NAME_CAPACITY
    requires mask != {} && mask <= {Result, State} && AllInRange(mask, p)
    ensures UrlsFit(rows, p.pkgId, FILE_NAME_CAPACITY) && p.pkgId in Ids(rows) && p.pkgId != NOT_FOUND
    ensures Writable(WithReset(p, mask, setting), EffectiveMask(mask)) <==> |Decimal(p.pkgId)| <= 8
    ensures var r := rows[i := Masked(rows[i], WithReset(p, mask, setting), EffectiveMask(mask))];
            SetRows(rows, p, mask, setting) == (if |Decimal(p.pkgId)| <= 8 then r else rows) && Unique(r)
  {
    hide AllInRange;
    hide Fits;
    hide TryCount;
    hide Decimal;
    assert Ids(rows)[i] == p.pkgId;
    OutcomeTakesIff(rows, p, mask, setting);
    var r := rows[i := Masked(rows[i], WithReset(p, mask, setting), EffectiveMask(mask))];
    assert UpdateRows(rows, WithReset(p, mask, setting), EffectiveMask(mask)) == r;
  }

  /** Reading a row of a unique table. */
  lemma {:induction false} LookupAt(rows: seq<Package>, i: nat, tries: int)
    requires Unique(rows) && i < |rows|
    ensures Lookup(rows, rows[i].pkgId, tries) == rows[i]
  {
    if i < |rows| - 1 {
      LookupAt(rows[..|rows| - 1], i, tries);
    }
  }

  class Recovery {
    const database: Database

    constructor (database: Database)
      ensures this.database == database
    {
      this.database := database;
    }

    /** Writes the changed columns of a row; the copy takes over the restarted count.  The server panics
        when the identifier is too long. */
    method WriteBack(p: Package, mask: set<Column>, ghost i: nat) returns (alive: bool, p': Package)
      requires Unique(database.rows) && i < |database.rows| && p.pkgId == database.rows[i].pkgId
      requires |database.rows[i].url| <= FILE_NAME_CAPACITY
      requires mask != {} && mask <= {Result, State} && AllInRange(mask, p)
      modifies database`rows
      ensures p' == WithReset(p, mask, database.genericAlertRetries)
      ensures alive <==> |Decimal(p.pkgId)| <= 8
      ensures database.rows ==
              if alive then old(database.rows)[i := Masked(old(database.rows[i]), p', EffectiveMask(mask))]
              else old(database.rows)
      ensures Unique(database.rows)
    {
      hide SetRows;
      hide Fits;
      hide AllInRange;
      hide Decimal;
      WriteBackIsUpdate(database.rows, i, p, mask, database.genericAlertRetries);
      var outcome;
      outcome, p' := database.SetState(p, mask);
      alive := outcome == Updated;
    }

    /** Reads a row; the server panics when its URL is too long. */
    method ReadRow(ghost i: nat, id: int) returns (alive: bool, p: Package)
      requires Unique(database.rows) && i < |database.rows| && id == database.rows[i].pkgId
      ensures alive <==> |database.rows[i].url| <= FILE_NAME_CAPACITY
      ensures alive ==> p == database.rows[i]
    {
      LookupAt(database.rows, i, TryCount(database.genericAlertRetries));
      var found := database.GetState(id, FILE_NAME_CAPACITY);
      alive := found.Some?;
      p := if alive then found.value else NoPackage(0);
    }

    /** The checks of an interrupted download and of an update. */
    method RecoverUpdate(p: Package, ghost i: nat, st: Start) returns (alive: bool, p': Package)
      requires Unique(database.rows) && i < |database.rows| && p == database.rows[i]
      requires |p.url| <= FILE_NAME_CAPACITY
      modifies database`rows
      ensures var q := CheckUpdate(CheckVersion(p, st, TryCount(database.genericAlertRetries)), st,
                                   TryCount(database.genericAlertRetries));
              && (alive <==> !WritesUpdate(p, st) || |Decimal(p.pkgId)| <= 8)
              && (alive ==> p' == q && database.rows == old(database.rows)[i := q])
      ensures !alive ==> database.rows == old(database.rows)
      ensures Unique(database.rows)
    {
      hide TryCount;
      hide Unique;
      hide Decimal;
      alive, p' := true, p;
      if p'.state == STARTING_UPDATE || p'.state == DOWNLOAD_PROGRESSING {
        if st.versionChanged {
          p' := p'.(state := UPDATE_FAILED, result := RES_PACKAGE_MISMATCH);
          alive, p' := WriteBack(p', {State, Result}, i);
        }
      }
      if alive && p'.state == UPDATE_PROGRESSING && !st.resultPending {
        p' := p'.(state := STARTING_UPDATE);
        alive, p' := WriteBack(p', {State}, i);
      }
    }

    /** The checks of a download that was starting, or has failed. */
    method RecoverDownload(p: Package, ghost i: nat, st: Start) returns (alive: bool)
      requires Unique(database.rows) && i < |database.rows| && p == database.rows[i]
      requires |p.url| <= FILE_NAME_CAPACITY
      modifies database`rows
      ensures alive <==> !WritesDownload(p, st) || |Decimal(p.pkgId)| <= 8
      ensures database.rows ==
              if alive then
                old(database.rows)[i := CheckFailed(CheckDownload(p, st, TryCount(database.genericAlertRetries)), st)]
              else old(database.rows)
      ensures Unique(database.rows)
    {
      hide TryCount;
      hide Unique;
      hide Decimal;
      alive := true;
      var p' := p;
      if !st.downloadActive && p'.state == STARTING_DOWNLOAD {
        p' := p'.(state := DOWNLOAD_FAILED);
        alive, p' := WriteBack(p', {State}, i);
      }
      if alive && p'.state == DOWNLOAD_FAILED && !st.hostServer {
        p' := p'.(result := RES_NETWORK_ISSUES);
        alive, p' := WriteBack(p', {Result}, i);
      }
    }

    /** Recovers one row, or panics before it is changed. */
    method RecoverRow(ghost i: nat, id: int, st: Start) returns (alive: bool)
      requires Unique(database.rows) && i < |database.rows| && id == database.rows[i].pkgId
      modifies database`rows
      ensures alive <==> Survives(old(database.rows[i]), StartUp(st))
      ensures database.rows ==
              if alive then
                old(database.rows)[i := BootRow(old(database.rows[i]), st, TryCount(database.genericAlertRetries))]
              else old(database.rows)
      ensures Unique(database.rows)
    {
      hide TryCount;
      hide Unique;
      hide Decimal;
      var tmp;
      alive, tmp := ReadRow(i, id);
      if alive {
        alive, tmp := RecoverUpdate(tmp, i, st);
      }
      if alive {
        alive := RecoverDownload(tmp, i, st);
      }
    }

    /** Recovers the rows one after the other, until the server panics at one. */
    method ClientAwareConstruct(st: Start) returns (alive: bool)
      requires Unique(database.rows)
      modifies database`rows
      ensures alive <==> forall i :: 0 <= i < |old(database.rows)| ==> Survives(old(database.rows)[i], StartUp(st))
      ensures database.rows == Passed(old(database.rows), StartUp(st), TryCount(database.genericAlertRetries))
      ensures Unique(database.rows)
    {
      hide BootRow;
      hide TryCount;
      hide Survives;
      hide Unique;
      alive := true;
      var states := database.GetAll();
      ghost var before := database.rows;
      for i := 0 to |states|
        invariant Unique(database.rows) && i <= FirstFatal(before, StartUp(st))
        invariant database.rows == PassedTo(before, StartUp(st), TryCount(database.genericAlertRetries), i)
      {
        alive := RecoverRow(i, states[i], st);
        if !alive {
          return;
        }
      }
    }

    /** Writes the outcome of the update agent to the rows one after the other, until the server panics
        at one. */
    method ExecuteUpdateResultFile(code: nat) returns (alive: bool)
      requires Unique(database.rows)
      modifies database`rows
      ensures alive <==> forall i :: 0 <= i < |old(database.rows)| ==> Survives(old(database.rows)[i], ResultFile(code))
      ensures database.rows == Passed(old(database.rows), ResultFile(code), TryCount(database.genericAlertRetries))
      ensures Unique(database.rows)
    {
      hide ResultRow;
      hide TryCount;
      hide Survives;
      hide Unique;
      alive := true;
      var states := database.GetAll();
      ghost var before := database.rows;
      for i := 0 to |states|
        invariant Unique(database.rows) && i <= FirstFatal(before, ResultFile(code))
        invariant database.rows == PassedTo(before, ResultFile(code), TryCount(database.genericAlertRetries), i)
      {
        alive := WriteResult(i, states[i], code);
        if !alive {
          return;
        }
      }
    }

    method WriteResult(ghost i: nat, id: int, code: nat) returns (alive: bool)
      requires Unique(database.rows) && i < |database.rows| && id == database.rows[i].pkgId
      modifies database`rows
      ensures alive <==> Survives(old(database.rows[i]), ResultFile(code))
      ensures database.rows ==
              if alive then
                old(database.rows)[i := ResultRow(old(database.rows[i]), code, TryCount(database.genericAlertRetries))]
              else old(database.rows)
      ensures Unique(database.rows)
    {
      hide TryCount;
      hide Unique;
      hide Decimal;
      var tmp;
      alive, tmp := ReadRow(i, id);
      if alive && tmp.state == UPDATE_PROGRESSING {
        tmp := tmp.(state := OutcomeOf(code).0, result := OutcomeOf(code).1);
        alive, tmp := WriteBack(tmp, {State, Result}, i);
      }
    }

    /** Clean-up after the outcome of a package has been reported; without a row of the package there is
        nothing to do. */
    method ResetFotaState(id: int, ghost i: nat) returns (alive: bool, deletePackage: bool)
      requires Unique(database.rows)
      requires id in Ids(database.rows) ==> i < |database.rows| && id == database.rows[i].pkgId
      modifies database`rows
      ensures id !in Ids(old(database.rows)) ==> alive && !deletePackage && database.rows == old(database.rows)
      ensures id in Ids(old(database.rows)) ==>
                var p := old(database.rows)[i];
                && (alive <==> |p.url| <= FILE_NAME_CAPACITY && (NeedsCleaning(p) ==> |Decimal(id)| <= 8))
                && database.rows == (if alive then
                                       old(database.rows)[i := CleanedRow(p, TryCount(database.genericAlertRetries))]
                                     else old(database.rows))
                && (alive ==> (deletePackage <==> p.state in {DOWNLOAD_FAILED, UPDATE_FAILED}))
      ensures Unique(database.rows)
    {
      hide TryCount;
      hide Unique;
      hide Decimal;
      deletePackage := false;
      var found := database.GetState(id, FILE_NAME_CAPACITY);
      AbsentIsIdle(database.rows, id, i, TryCount(database.genericAlertRetries));
      if found.None? {
        return false, false;
      }
      alive := true;
      var state := found.value;
      var toIdle := false;
      if state.state == DOWNLOAD_FAILED || state.state == UPDATE_FAILED {
        toIdle := true;
        deletePackage := true;
      } else if state.state == UPDATE_FAILED_NO_DATA || state.state == UPDATE_SUCCESSFUL
                || state.state == UPDATE_SUCCESSFUL_NO_DATA {
        toIdle := true;
      } else if state.state == DOWNLOAD_COMPLETE {
        // The stored result stays, because the write names only the state.
        state := state.(state := STARTING_UPDATE, result := NOT_FOUND);
        alive, state := WriteBack(state, {State}, i);
      }
      if toIdle {
        state := state.(state := IDLE, result := NOT_FOUND);
        alive, state := WriteBack(state, {State, Result}, i);
      }
    }
  }

  /** What the clean-up reads. */
  lemma AbsentIsIdle(rows: seq<Package>, id: int, i: nat, tries: int)
    requires Unique(rows) && (id in Ids(rows) ==> i < |rows| && id == rows[i].pkgId)
    ensures id in Ids(rows) ==>
              Lookup(rows, id, tries) == rows[i]
              && (UrlsFit(rows, id, FILE_NAME_CAPACITY) <==> |rows[i].url| <= FILE_NAME_CAPACITY)
    ensures id !in Ids(rows) ==>
              Lookup(rows, id, tries) == NoPackage(tries) && UrlsFit(rows, id, FILE_NAME_CAPACITY)
  {
    LookupIsTable(rows, id, tries);
    TableKeys(rows);
    if id in Ids(rows) {
      LookupAt(rows, i, tries);
    } else {
      assert forall k :: 0 <= k < |rows| ==> Ids(rows)[k] == rows[k].pkgId;
    }
  }

  // ------------------------------------------------------------------------------------------
  // The update agent's result file
  // ------------------------------------------------------------------------------------------

  /** State and result for a code of the update agent. */
  function OutcomeOf(code: nat): (r: (int, int))
    ensures r.0 == if code == 0 then UPDATE_SUCCESSFUL_NO_DATA else UPDATE_FAILED_NO_DATA
    ensures r.1 == RES_SUCCESSFUL <==> code == 0
    ensures r.1 == RES_CORRUPTED <==> code == 3 || code == 4
    ensures r.1 == RES_PACKAGE_MISMATCH <==> code == 5
    ensures r.1 == RES_UPDATE_FAILED <==> code == 1 || code == 2 || code > 5
  {
    match code
    case 0 => (UPDATE_SUCCESSFUL_NO_DATA, RES_SUCCESSFUL)
    case 3 => (UPDATE_FAILED_NO_DATA, RES_CORRUPTED)
    case 4 => (UPDATE_FAILED_NO_DATA, RES_CORRUPTED)
    case 5 => (UPDATE_FAILED_NO_DATA, RES_PACKAGE_MISMATCH)
    case _ => (UPDATE_FAILED_NO_DATA, RES_UPDATE_FAILED)
  }

  function ResultRow(p: Package, code: nat, tries: int): Package {
    if p.state == UPDATE_PROGRESSING then Move(p, OutcomeOf(code).0, OutcomeOf(code).1, tries) else p
  }

  function ResultRows(rows: seq<Package>, code: nat, tries: int): (r: seq<Package>)
    ensures |r| == |rows| && forall i :: 0 <= i < |rows| ==> r[i] == ResultRow(rows[i], code, tries)
  {
    PassedTo(rows, ResultFile(code), tries, |rows|)
  }

  predicate NeedsCleaning(p: Package) {
    p.state in {DOWNLOAD_FAILED, DOWNLOAD_COMPLETE, UPDATE_FAILED, UPDATE_FAILED_NO_DATA, UPDATE_SUCCESSFUL,
                UPDATE_SUCCESSFUL_NO_DATA}
  }

  /** Final states become idle, and a complete download is ready for the update. */
  function CleanedRow(p: Package, tries: int): Package {
    if p.state in {DOWNLOAD_FAILED, UPDATE_FAILED, UPDATE_FAILED_NO_DATA, UPDATE_SUCCESSFUL,
                   UPDATE_SUCCESSFUL_NO_DATA}
    then Move(p, IDLE, NOT_FOUND, tries)
    else if p.state == DOWNLOAD_COMPLETE then Move(p, STARTING_UPDATE, p.result, tries)
    else p
  }

  // ------------------------------------------------------------------------------------------
  // What recovery achieves
  // ------------------------------------------------------------------------------------------

  /** Exactly which transient states survive a start: a download that is still active, and an update
      whose result file is waiting. */
  lemma TransientRowsIff(p: Package, st: Start, tries: int)
    ensures BootRow(p, st, tries).state == STARTING_DOWNLOAD <==> p.state == STARTING_DOWNLOAD && st.downloadActive
    ensures BootRow(p, st, tries).state == UPDATE_PROGRESSING <==> p.state == UPDATE_PROGRESSING && st.resultPending
  {
  }

  /** What a start makes of a row: which states it fails or sets back, with which reason, and that only a
      new state restarts the count of report attempts. */
  lemma BootOutcome(p: Package, st: Start, tries: int)
    ensures var r := BootRow(p, st, tries);
            var mismatch := st.versionChanged && p.state in {STARTING_UPDATE, DOWNLOAD_PROGRESSING};
            && r == p.(state := r.state, result := r.result, tries := r.tries)
            && r.state == (if mismatch then UPDATE_FAILED
                           else if p.state == UPDATE_PROGRESSING && !st.resultPending then STARTING_UPDATE
                           else if p.state == STARTING_DOWNLOAD && !st.downloadActive then DOWNLOAD_FAILED
                           else p.state)
            && r.result == (if mismatch then RES_PACKAGE_MISMATCH
                            else if r.state == DOWNLOAD_FAILED && !st.hostServer then RES_NETWORK_ISSUES
                            else p.result)
            && r.tries == (if r.state != p.state then tries else p.tries)
  {
  }

  /** With no active download and no result file no row is left in a transient state; and no start
      touches a row that is idle, complete or finished, except for the reason of a failed download. */
  lemma BootClearsTransient(rows: seq<Package>, st: Start, tries: int)
    ensures !st.downloadActive && !st.resultPending ==>
              forall r :: r in BootRows(rows, st, tries) ==> r.state !in {STARTING_DOWNLOAD, UPDATE_PROGRESSING}
    ensures forall i :: 0 <= i < |rows|
              && rows[i].state !in {STARTING_DOWNLOAD, DOWNLOAD_PROGRESSING, STARTING_UPDATE, UPDATE_PROGRESSING}
              ==> BootRows(rows, st, tries)[i] == CheckFailed(rows[i], st)
    ensures Ids(BootRows(rows, st, tries)) == Ids(rows)
  {
    hide BootRow;
    var r := BootRows(rows, st, tries);
    forall i | 0 <= i < |rows|
      ensures !st.downloadActive && !st.resultPending ==> r[i].state !in {STARTING_DOWNLOAD, UPDATE_PROGRESSING}
      ensures rows[i].state !in {STARTING_DOWNLOAD, DOWNLOAD_PROGRESSING, STARTING_UPDATE, UPDATE_PROGRESSING} ==>
                r[i] == CheckFailed(rows[i], st)
      ensures r[i].pkgId == rows[i].pkgId
    {
      TransientRowsIff(rows[i], st, tries);
      BootFrame(rows[i], st, tries);
    }
  }

  lemma BootFrame(p: Package, st: Start, tries: int)
    ensures p.state !in {STARTING_DOWNLOAD, DOWNLOAD_PROGRESSING, STARTING_UPDATE, UPDATE_PROGRESSING} ==>
              BootRow(p, st, tries) == CheckFailed(p, st)
    ensures BootRow(p, st, tries).pkgId == p.pkgId && BootRow(p, st, tries).url == p.url
  {
  }

  /** A second start under the same circumstances changes nothing, except after a changed software
      version: an update that the first start set back is failed by the second. */
  lemma BootTwiceIff(p: Package, st: Start, tries: int)
    ensures var once := BootRow(p, st, tries);
            BootRow(once, st, tries) == once <==>
            !(p.state == UPDATE_PROGRESSING && st.versionChanged && !st.resultPending)
    ensures var twice := BootRow(BootRow(p, st, tries), st, tries); BootRow(twice, st, tries) == twice
  {
  }

  /** A row after a series of starts. */
  function BootMany(p: Package, sts: seq<Start>, tries: int): Package {
    if sts == [] then p else BootRow(BootMany(p, sts[..|sts| - 1], tries), sts[|sts| - 1], tries)
  }

  /** Nothing is downloading, and no result file is waiting. */
  predicate Quiet(sts: seq<Start>) {
    forall i :: 0 <= i < |sts| ==> !sts[i].downloadActive && !sts[i].resultPending
  }

  /** Some start from number `k` on finds another software version. */
  predicate VersionChangedFrom(sts: seq<Start>, k: nat) {
    exists i :: k <= i < |sts| && sts[i].versionChanged
  }

  lemma VersionChangedStep(sts: seq<Start>, k: nat)
    requires sts != []
    ensures VersionChangedFrom(sts, k) <==>
            VersionChangedFrom(sts[..|sts| - 1], k) || (k < |sts| && sts[|sts| - 1].versionChanged)
  {
    var init := sts[..|sts| - 1];
    if VersionChangedFrom(init, k) {
      var i :| k <= i < |init| && init[i].versionChanged;
      assert sts[i].versionChanged;
    }
    if VersionChangedFrom(sts, k) {
      var i :| k <= i < |sts| && sts[i].versionChanged;
      assert i < |init| ==> init[i].versionChanged;
    }
  }

  /** The state of a package after any series of starts without an active download or a result file:
      a download that was starting has failed; an interrupted download or a pending update survives
      until a start finds another software version; an update that was running is pending after the
      first start, so that only later starts can fail it; every other state stays. */
  lemma {:induction false} StateAfterBoots(p: Package, sts: seq<Start>, tries: int)
    requires sts != [] && Quiet(sts)
    ensures BootMany(p, sts, tries).state ==
            if p.state == STARTING_DOWNLOAD then DOWNLOAD_FAILED
            else if p.state == UPDATE_PROGRESSING then
              if VersionChangedFrom(sts, 1) then UPDATE_FAILED else STARTING_UPDATE
            else if (p.state == STARTING_UPDATE || p.state == DOWNLOAD_PROGRESSING) && VersionChangedFrom(sts, 0) then
              UPDATE_FAILED
            else p.state
  {
    hide VersionChangedFrom;
    var init := sts[..|sts| - 1];
    VersionChangedStep(sts, 0);
    VersionChangedStep(sts, 1);
    if init == [] {
      assert BootMany(p, init, tries) == p;
      NothingChanged(init);
    } else {
      StateAfterBoots(p, init, tries);
    }
  }

  lemma NothingChanged(sts: seq<Start>)
    requires sts == []
    ensures !VersionChangedFrom(sts, 0) && !VersionChangedFrom(sts, 1)
  {
  }

  // ------------------------------------------------------------------------------------------
  // When recovery gets through
  // ------------------------------------------------------------------------------------------

  /** Without a panic a pass changes every row as it should. */
  lemma PassGetsThrough(rows: seq<Package>, pass: Pass, tries: int)
    requires forall i :: 0 <= i < |rows| ==> Survives(rows[i], pass)
    ensures Passed(rows, pass, tries) == PassedTo(rows, pass, tries, |rows|)
  {
    assert FirstFatal(rows, pass) == |rows|;
  }

  /** The table after a series of starts, each of which gets as far as it can, and each with its own
      setting of the number of tries. */
  function StartMany(rows: seq<Package>, sts: seq<Start>, tries: seq<int>): (r: seq<Package>)
    requires |tries| == |sts|
    ensures |r| == |rows|
  {
    if sts == [] then rows
    else
      var n := |sts| - 1;
      Passed(StartMany(rows, sts[..n], tries[..n]), StartUp(sts[n]), tries[n])
  }

  lemma {:induction false} StartsKeepUrls(rows: seq<Package>, sts: seq<Start>, tries: seq<int>, i: nat)
    requires |tries| == |sts| && i < |rows|
    ensures var r := StartMany(rows, sts, tries); r[i].url == rows[i].url && r[i].pkgId == rows[i].pkgId
  {
    if sts != [] {
      StartsKeepUrls(rows, sts[..|sts| - 1], tries[..|sts| - 1], i);
    }
  }

  /** A package whose stored URL is too long makes every later start panic, whatever the starts find:
      none ever gets past its row. */
  lemma {:induction false} LongUrlStopsEveryStart(
      rows: seq<Package>, sts: seq<Start>, tries: seq<int>, next: Start, i: nat)
    requires |tries| == |sts| && i < |rows| && |rows[i].url| > 256
    ensures FirstFatal(StartMany(rows, sts, tries), StartUp(next)) <= i
    ensures forall k :: i <= k < |rows| ==> StartMany(rows, sts, tries)[k] == rows[k]
  {
    StartsKeepUrls(rows, sts, tries, i);
    StartsStopThere(rows, sts, tries, i);
  }

  lemma {:induction false} StartsStopThere(rows: seq<Package>, sts: seq<Start>, tries: seq<int>, i: nat)
    requires |tries| == |sts| && i < |rows| && |rows[i].url| > FILE_NAME_CAPACITY
    ensures forall k :: i <= k < |rows| ==> StartMany(rows, sts, tries)[k] == rows[k]
  {
    if sts != [] {
      var n := |sts| - 1;
      StartsStopThere(rows, sts[..n], tries[..n], i);
      StartsKeepUrls(rows, sts[..n], tries[..n], i);
      assert FirstFatal(StartMany(rows, sts[..n], tries[..n]), StartUp(sts[n])) <= i;
    }
  }

  /** A state that some start writes. */
  predicate Interruptible(p: Package) {
    p.state in {STARTING_DOWNLOAD, DOWNLOAD_FAILED, DOWNLOAD_PROGRESSING, STARTING_UPDATE, UPDATE_PROGRESSING}
  }

  /** Exactly when no start ever panics, whatever the starts find: the URLs fit, and so do the
      identifiers of all packages in a state that some start writes. */
  lemma NoStartPanicsIff(rows: seq<Package>)
    ensures (forall st :: FirstFatal(rows, StartUp(st)) == |rows|) <==>
            forall i :: 0 <= i < |rows| ==>
              |rows[i].url| <= 256 && (Interruptible(rows[i]) ==> |Decimal(rows[i].pkgId)| <= 8)
  {
    hide Decimal;
    var worst := Start(false, true, false, false);
    assert forall p, st :: Survives(p, StartUp(worst)) ==> Survives(p, StartUp(st));
    if FirstFatal(rows, StartUp(worst)) == |rows| {
      forall st
        ensures FirstFatal(rows, StartUp(st)) == |rows|
      {
        assert forall i :: 0 <= i < |rows| ==> Survives(rows[i], StartUp(st));
      }
    }
  }

  /** Executing the result file after a start moves exactly the packages whose update was in progress,
      to success or failure without data; every other row keeps what the start made of it. */
  lemma ResultAfterBoot(rows: seq<Package>, st: Start, code: nat, tries: int, i: nat)
    requires st.resultPending && i < |rows|
    ensures var booted, r := BootRows(rows, st, tries), ResultRows(BootRows(rows, st, tries), code, tries);
            && (r[i] != booted[i] <==> rows[i].state == UPDATE_PROGRESSING)
            && (rows[i].state == UPDATE_PROGRESSING ==>
                  r[i].state == (if code == 0 then UPDATE_SUCCESSFUL_NO_DATA else UPDATE_FAILED_NO_DATA)
                  && r[i].result != NOT_FOUND && (r[i].result == RES_SUCCESSFUL <==> code == 0)
                  && r[i].tries == tries)
            && r[i].state != UPDATE_PROGRESSING
  {
    TransientRowsIff(rows[i], st, tries);
  }

  /** The clean-up: final states become idle without a result, a complete download is ready for its
      update and keeps its result, and every other state stays; afterwards there is nothing to clean. */
  lemma CleanedOutcome(p: Package, tries: int)
    ensures var r := CleanedRow(p, tries);
            && r == p.(state := r.state, result := r.result, tries := r.tries)
            && (r != p ==> r.tries == tries)
            && (r.state == IDLE <==>
                  p.state in {IDLE, DOWNLOAD_FAILED, UPDATE_FAILED, UPDATE_FAILED_NO_DATA, UPDATE_SUCCESSFUL,
                              UPDATE_SUCCESSFUL_NO_DATA})
            && (r.state == IDLE && p.state != IDLE ==> r.result == NOT_FOUND)
            && (r.state == STARTING_UPDATE <==> p.state == STARTING_UPDATE || p.state == DOWNLOAD_COMPLETE)
            && (r.state == STARTING_UPDATE ==> r.result == p.result)
            && (!NeedsCleaning(p) ==> r == p) && !NeedsCleaning(r)
            && CleanedRow(r, tries) == r
  {
  }

  /** Reporting then clears the outcome: after a start, the result file and the clean-up, a package
      whose update was in progress is idle without a result. */
  lemma UpdateEndsIdle(p: Package, st: Start, code: nat, tries: int)
    requires p.state == UPDATE_PROGRESSING && st.resultPending
    ensures var q := CleanedRow(ResultRow(BootRow(p, st, tries), code, tries), tries);
            q.state == IDLE && q.result == NOT_FOUND && q.tries == tries
  {
  }
}
