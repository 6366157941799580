/** Reporting the outcome of an update to the device management server, across restarts. */
module FotaAlert {
  import opened Common
  import opened Decimals
  import opened FotaTypes
  import opened FotaSql
  import opened FotaDb

  /** How many times in a row a failed job is tried again within one session. */
  const SYNCML_ATTEMPTS: nat := 3

  // ------------------------------------------------------------------------------------------
  // The state machine
  // ------------------------------------------------------------------------------------------

  /** The table, the server's memory, and a log of the packages for which jobs were created. */
  datatype Server = Server(
    rows: seq<Package>,
    pkg: Package,
    monitoring: bool,
    sessionOpen: bool,
    attempts: nat,
    jobId: int,
    owner: int,
    timer: bool,
    jobs: seq<int>)

  datatype JobEnd = StartFailed | StoppedWell | StoppedWithError | Rejected | NotAnEnd

  datatype Event =
    /** A report of a stored package is asked for; the network has to be looked for first. */
    | Request(id: int)
    /** The monitor reports the network; `iapUsable` says whether the access point can be used. */
    | Network(available: bool, iapUsable: bool)
    | JobEvent(identifier: int, end: JobEnd)
    | RetryTimer
    /** Another part of the server writes the table. */
    | DbWrite(package: Package, mask: set<Column>)
    | Restart

  /** What a write that takes effect does to the writer's own copy. */
  function AfterWrite(rows: seq<Package>, p: Package, mask: set<Column>, setting: Option<int>): Package {
    if p.pkgId == NOT_FOUND || p.pkgId !in Ids(rows) then p else WithReset(p, mask, setting)
  }

  /** A report is attempted while the network is available.  A write that does not fit its buffers
      panics, and the server starts anew. */
  function Report(s: Server, iapUsable: bool, setting: Option<int>): Server {
    if s.sessionOpen then s
    else if s.pkg.tries > 0 then
      var q := s.pkg.(tries := s.pkg.tries - 1);
      if !Takes(s.rows, q, {SmlTryCount}, setting) then Restarted(s, setting)
      else
        s.(rows := SetRows(s.rows, q, {SmlTryCount}, setting),
           pkg := if q.iapId < 0 then q.(iapId := 0) else q,
           sessionOpen := true, attempts := if iapUsable then SYNCML_ATTEMPTS else 0,
           jobId := |s.jobs|, owner := q.pkgId, jobs := s.jobs + [q.pkgId])
    else
      var q := s.pkg.(state := IDLE, result := NOT_FOUND);
      if !Takes(s.rows, q, {State, Result}, setting) then Restarted(s, setting)
      else
        s.(rows := SetRows(s.rows, q, {State, Result}, setting),
           pkg := AfterWrite(s.rows, q, {State, Result}, setting))
  }

  lemma CountInRange(p: Package)
    requires p.tries >= 0
    ensures AllInRange({SmlTryCount}, p)
  {
  }

  function OnJobEvent(s: Server, identifier: int, end: JobEnd): Server {
    if s.jobId != identifier || end.NotAnEnd? then s
    else
      var attempts := if end.StoppedWell? then 0 else s.attempts;
      s.(attempts := attempts, timer := attempts != 0)
  }

  function OnRetryTimer(s: Server): Server {
    if s.attempts > 0 then
      s.(attempts := s.attempts - 1, jobId := |s.jobs|, jobs := s.jobs + [s.owner], timer := false)
    else s.(sessionOpen := false, timer := false)
  }

  function Restarted(s: Server, setting: Option<int>): Server {
    Server(s.rows, NoPackage(TryCount(setting)), false, false, 0, -1, NOT_FOUND, false, s.jobs)
  }

  function Step(s: Server, e: Event, setting: Option<int>): Server {
    match e
    case Request(id) => s.(pkg := Lookup(s.rows, id, TryCount(setting)), monitoring := true)
    case Network(available, iapUsable) =>
      (if available then Report(s, iapUsable, setting) else s).(monitoring := false)
    case JobEvent(identifier, end) => OnJobEvent(s, identifier, end)
    case RetryTimer => OnRetryTimer(s)
    case DbWrite(p, mask) => s.(rows := SetRows(s.rows, p, mask, setting))
    case Restart => Restarted(s, setting)
  }

  /** When an event can happen.  Only this part of the server writes the count of report attempts
      alone. */
  predicate Enabled(s: Server, e: Event) {
    match e
    case Request(id) => id in Ids(s.rows)
    case Network(_, _) => s.monitoring
    case JobEvent(_, _) => true
    case RetryTimer => s.timer
    case DbWrite(p, mask) => p.pkgId != NOT_FOUND && SmlTryCount !in mask
    case Restart => true
  }

  // ------------------------------------------------------------------------------------------
  // The server object
  // ------------------------------------------------------------------------------------------

  class FotaServer {
    const database: Database
    var packageState: Package
    var networkAvailable: bool
    var monitoring: bool
    var sessionOpen: bool
    var syncMLAttempts: nat
    var syncJobId: int
    var syncOwner: int
    var timedSMLSessionClose: bool
    var jobs: seq<int>

    constructor (database: Database)
      ensures this.database == database && !networkAvailable
      ensures Snapshot() ==
              Server(database.rows, NoPackage(TryCount(database.genericAlertRetries)), false, false, 0, -1, NOT_FOUND,
                     false, [])
    {
      this.database := database;
      packageState := NoPackage(TryCount(database.genericAlertRetries));
      networkAvailable := false;
      monitoring := false;
      sessionOpen := false;
      syncMLAttempts := 0;
      syncJobId := -1;
      syncOwner := NOT_FOUND;
      timedSMLSessionClose := false;
      jobs := [];
    }

    function Snapshot(): Server
      reads this, database
    {
      Server(database.rows, packageState, monitoring, sessionOpen, syncMLAttempts, syncJobId, syncOwner,
             timedSMLSessionClose, jobs)
    }

    /** Creates a job of the open session for its package. */
    method CreateJob()
      modifies this`syncJobId, this`jobs
      ensures syncJobId == |old(jobs)| && jobs == old(jobs) + [syncOwner]
    {
      syncJobId := |jobs|;
      jobs := jobs + [syncOwner];
    }

    /** Reports a package, now if the network is known to be available, and hands the caller's copy
        back.  `alive` is false when a write panics, and `ok` is false when the method leaves. */
    method CreateDeviceManagementSession(state: Package, iapUsable: bool)
      returns (alive: bool, ok: bool, state': Package)
      modifies this, database`rows
      ensures !old(networkAvailable) ==>
                && alive && ok && !networkAvailable && state' == state
                && Snapshot() == old(Snapshot()).(pkg := state, monitoring := true)
      ensures old(networkAvailable) ==>
                Outcome(alive, state', old(Snapshot()), state, iapUsable)
      ensures old(networkAvailable) && alive ==> !networkAvailable && (ok <==> !old(sessionOpen))
    {
      hide SetRows;
      hide Takes;
      alive, ok, state' := true, true, state;
      if !networkAvailable {
        packageState := state;
        monitoring := true;
        return;
      }
      networkAvailable := false;
      if sessionOpen {
        ok := false;
        return;
      }
      if state.tries <= 0 {
        alive, state' := MoveToIdle(state);
      } else {
        alive, state' := OpenSession(state, iapUsable);
      }
    }

    /** Out of tries: the package becomes idle. */
    method MoveToIdle(state: Package) returns (alive: bool, state': Package)
      requires state.tries <= 0 && !sessionOpen
      modifies database`rows
      ensures Outcome(alive, state', old(Snapshot()), state, false)
    {
      hide UpdateRows;
      hide Fits;
      hide UrlsFit;
      var outcome;
      outcome, state' := database.SetState(state.(state := IDLE, result := NOT_FOUND), {State, Result});
      alive := outcome == Updated || outcome == Inserted;
    }

    /** Spends one try and opens a session with a first job. */
    method OpenSession(state: Package, iapUsable: bool) returns (alive: bool, state': Package)
      requires state.tries > 0 && !sessionOpen
      modifies this`sessionOpen, this`syncMLAttempts, this`syncOwner, this`syncJobId, this`jobs, database`rows
      ensures Outcome(alive, state', old(Snapshot()), state, iapUsable)
    {
      hide SetRows;
      hide Takes;
      alive, state' := SpendTry(state);
      if alive {
        sessionOpen := true;
        if state'.iapId < 0 {
          state' := state'.(iapId := 0);
        }
        syncMLAttempts := if iapUsable then SYNCML_ATTEMPTS else 0;
        syncOwner := state'.pkgId;
        CreateJob();
      }
    }

    /** Writes the count, less one; `alive` is false when the write panics. */
    method SpendTry(state: Package) returns (alive: bool, state': Package)
      requires state.tries > 0
      modifies database`rows
      ensures state' == state.(tries := state.tries - 1)
      ensures alive <==> Takes(old(database.rows), state', {SmlTryCount}, database.genericAlertRetries)
      ensures database.rows == if alive then
                                 SetRows(old(database.rows), state', {SmlTryCount}, database.genericAlertRetries)
                               else old(database.rows)
    {
      hide UpdateRows;
      hide AllInRange;
      hide Fits;
      hide UrlsFit;
      CountInRange(state.(tries := state.tries - 1));
      var outcome;
      outcome, state' := database.SetState(state.(tries := state.tries - 1), {SmlTryCount});
      alive := outcome == Updated || outcome == Inserted;
    }

    /** What reporting a package does to the server and to the copy, or the server died and a new one
        starts. */
    ghost predicate Outcome(alive: bool, state': Package, before: Server, state: Package, iapUsable: bool)
      reads this, database
    {
      var expected := Report(before.(pkg := state), iapUsable, database.genericAlertRetries);
      if alive then Snapshot() == expected.(pkg := before.pkg) && state' == expected.pkg
      else database.rows == before.rows && expected == Restarted(before, database.genericAlertRetries)
    }

    /** The network monitor's report; a leave is trapped. */
    method ReportNetworkStatus(status: bool, iapUsable: bool) returns (alive: bool)
      modifies this, database`rows
      ensures var expected := Step(old(Snapshot()), Network(status, iapUsable), database.genericAlertRetries);
              if alive then Snapshot() == expected && !networkAvailable
              else database.rows == old(database.rows)
                   && expected == Restarted(old(Snapshot()), database.genericAlertRetries)
    {
      hide Report;
      alive := true;
      networkAvailable := status;
      if networkAvailable {
        var ok, state';
        alive, ok, state' := CreateDeviceManagementSession(packageState, iapUsable);
        packageState := state';
      }
      if alive {
        monitoring := false;
      }
    }

    method OnSyncMLSessionEvent(event: JobEnd, identifier: int)
      modifies this`syncMLAttempts, this`timedSMLSessionClose
      ensures Snapshot() == Step(old(Snapshot()), JobEvent(identifier, event), database.genericAlertRetries)
    {
      if syncJobId != identifier {
        return;
      }
      var end := false;
      match event {
        case StartFailed => end := true;
        case StoppedWell =>
          end := true;
          syncMLAttempts := 0;
        case StoppedWithError => end := true;
        case Rejected => end := true;
        case NotAnEnd =>
      }
      if end {
        timedSMLSessionClose := syncMLAttempts != 0;
      }
    }

    method DoCloseSMLSession()
      modifies this
      ensures Snapshot() == Step(old(Snapshot()), RetryTimer, database.genericAlertRetries)
    {
      if syncMLAttempts > 0 {
        CreateJob();
        syncMLAttempts := syncMLAttempts - 1;
      } else {
        sessionOpen := false;
      }
      timedSMLSessionClose := false;
    }
  }

  // ------------------------------------------------------------------------------------------
  // What every step keeps
  // ------------------------------------------------------------------------------------------

  function TriesOf(rows: seq<Package>, id: int): int {
    Lookup(rows, id, 0).tries
  }

  /** Rows are unique; the package in memory is a stored one; the timer runs only for attempts that
      are left, and those only in an open session, whose job is the last that was created. */
  predicate Inv(s: Server) {
    && Unique(s.rows)
    && (s.pkg.pkgId != NOT_FOUND ==> s.pkg.pkgId in Ids(s.rows))
    && (s.monitoring ==> s.pkg.pkgId != NOT_FOUND)
    && (s.timer ==> s.attempts > 0)
    && (s.attempts > 0 ==> s.sessionOpen)
    && (s.sessionOpen ==> s.jobId == |s.jobs| - 1)
  }

  /** A write that restarts the count of a package: one of its state, or its first. */
  predicate Restarts(s: Server, e: Event, id: int) {
    match e
    case DbWrite(p, mask) => p.pkgId == id && (State in mask || id !in Ids(s.rows))
    case Network(available, _) => available && !s.sessionOpen && s.pkg.tries <= 0 && s.pkg.pkgId == id
    case _ => false
  }

  /** What a write does to the counts. */
  lemma TriesAfterSet(rows: seq<Package>, p: Package, mask: set<Column>, setting: Option<int>, id: int)
    requires Unique(rows) && p.pkgId != NOT_FOUND
    ensures var r := SetRows(rows, p, mask, setting);
            && Unique(r) && (id in Ids(rows) ==> id in Ids(r))
            && TriesOf(r, id) ==
               if id != p.pkgId || !Takes(rows, p, mask, setting) then TriesOf(rows, id)
               else if id !in Ids(rows) then p.tries
               else if State in mask then TryCount(setting)
               else if SmlTryCount in mask then p.tries
               else TriesOf(rows, id)
  {
    hide AllInRange;
    hide Fits;
    SetRefinesMap(rows, p, mask, setting);
    var r := SetRows(rows, p, mask, setting);
    TableKeys(rows);
    TableKeys(r);
    LookupIsTable(rows, id, 0);
    LookupIsTable(r, id, 0);
    UrlsFitInTable(rows, p.pkgId, FILE_NAME_CAPACITY);
  }

  lemma ReportKeepsInv(s: Server, iapUsable: bool, setting: Option<int>)
    requires Inv(s) && s.pkg.pkgId != NOT_FOUND
    ensures Inv(Report(s, iapUsable, setting))
  {
    hide SetRows;
    hide Takes;
    hide TryCount;
    hide UrlsFit;
    hide Lookup;
    if !s.sessionOpen {
      var q := if s.pkg.tries > 0 then s.pkg.(tries := s.pkg.tries - 1) else s.pkg.(state := IDLE, result := NOT_FOUND);
      var mask := if s.pkg.tries > 0 then {SmlTryCount} else {State, Result};
      TriesAfterSet(s.rows, q, mask, setting, q.pkgId);
    }
  }

  lemma RealId(rows: seq<Package>, id: int)
    requires Unique(rows) && id in Ids(rows)
    ensures id != NOT_FOUND
  {
  }

  /** What a look-up of a stored package yields does not depend on the default. */
  lemma {:induction false} LookupStored(rows: seq<Package>, id: int, x: int, y: int)
    requires id in Ids(rows)
    ensures Lookup(rows, id, x) == Lookup(rows, id, y)
  {
    LookupIsTable(rows, id, x);
    LookupIsTable(rows, id, y);
    TableKeys(rows);
  }

  lemma StepKeepsInv(s: Server, e: Event, setting: Option<int>)
    requires Inv(s) && Enabled(s, e)
    ensures Inv(Step(s, e, setting))
  {
    hide SetRows;
    hide TryCount;
    hide Takes;
    hide Report;
    match e
    case Network(available, iapUsable) =>
      if available {
        ReportKeepsInv(s, iapUsable, setting);
      }
    case DbWrite(p, mask) => TriesAfterSet(s.rows, p, mask, setting, s.pkg.pkgId);
    case Request(id) => RealId(s.rows, id);
    case _ =>
  }

  // ------------------------------------------------------------------------------------------
  // The budget
  // ------------------------------------------------------------------------------------------

  /** Attempts left in the open session of a package. */
  function Leftover(s: Server, id: int): nat {
    if s.owner == id then s.attempts else 0
  }

  /** The tries that the table holds for a package. */
  function Stored(s: Server, id: int): nat {
    if TriesOf(s.rows, id) > 0 then TriesOf(s.rows, id) else 0
  }

  /** The tries of a report of the package that waits for the network, and can still be made before
      the server is started anew. */
  function Pending(s: Server, id: int): int {
    if s.monitoring && !s.sessionOpen && s.pkg.pkgId == id then s.pkg.tries else 0
  }

  function Count(s: Server, id: int): nat {
    if Pending(s, id) > Stored(s, id) then Pending(s, id) else Stored(s, id)
  }

  /** Jobs that the counts and the open session still allow. */
  function Potential(s: Server, id: int): nat {
    (1 + SYNCML_ATTEMPTS) * Count(s, id) + Leftover(s, id)
  }

  function JobsOf(s: Server, id: int): nat {
    multiset(s.jobs)[id]
  }

  lemma ReportSpends(s: Server, iapUsable: bool, setting: Option<int>, id: int)
    requires Inv(s) && s.monitoring && !Restarts(s, Network(true, iapUsable), id)
    ensures var s' := Report(s, iapUsable, setting).(monitoring := false);
            JobsOf(s', id) + Potential(s', id) <= JobsOf(s, id) + Potential(s, id)
  {
    hide SetRows;
    hide Takes;
    hide TryCount;
    hide UrlsFit;
    hide Lookup;
    if !s.sessionOpen {
      var q := if s.pkg.tries > 0 then s.pkg.(tries := s.pkg.tries - 1) else s.pkg.(state := IDLE, result := NOT_FOUND);
      var mask := if s.pkg.tries > 0 then {SmlTryCount} else {State, Result};
      TriesAfterSet(s.rows, q, mask, setting, id);
    }
  }

  /** No step makes more jobs than the potential pays for, unless it restarts the count. */
  lemma StepSpends(s: Server, e: Event, setting: Option<int>, id: int)
    requires Inv(s) && Enabled(s, e) && !Restarts(s, e, id)
    ensures var s' := Step(s, e, setting);
            JobsOf(s', id) + Potential(s', id) <= JobsOf(s, id) + Potential(s, id)
  {
    hide SetRows;
    hide TryCount;
    hide Takes;
    hide Report;
    hide Lookup;
    match e
    case Network(available, iapUsable) =>
      if available {
        ReportSpends(s, iapUsable, setting, id);
      }
    case DbWrite(p, mask) => TriesAfterSet(s.rows, p, mask, setting, id);
    case Request(r) => LookupStored(s.rows, r, TryCount(setting), 0);
    case _ =>
  }

  /** An event, and the number of tries set in the repository at its time. */
  datatype Occurrence = At(event: Event, setting: Option<int>)

  function RunAll(s: Server, os: seq<Occurrence>): Server
    decreases |os|
  {
    if os == [] then s else RunAll(Step(s, os[0].event, os[0].setting), os[1..])
  }

  /** Every event can happen in its turn, and none restarts the count of the package. */
  predicate Quiet(s: Server, os: seq<Occurrence>, id: int)
    decreases |os|
  {
    os == [] ||
    (Enabled(s, os[0].event) && !Restarts(s, os[0].event, id)
     && Quiet(Step(s, os[0].event, os[0].setting), os[1..], id))
  }

  lemma {:induction false} RunSpends(s: Server, os: seq<Occurrence>, id: int)
    requires Inv(s) && Quiet(s, os, id)
    ensures var t := RunAll(s, os);
            Inv(t) && JobsOf(t, id) + Potential(t, id) <= JobsOf(s, id) + Potential(s, id)
    decreases |os|
  {
    hide Inv;
    hide Step;
    hide Enabled;
    hide Restarts;
    hide Potential;
    if os != [] {
      StepKeepsInv(s, os[0].event, os[0].setting);
      StepSpends(s, os[0].event, os[0].setting, id);
      RunSpends(Step(s, os[0].event, os[0].setting), os[1..], id);
    }
  }

  /** Between two writes that restart its count, over any number of restarts of the server and any
      changes of the setting, the jobs created for a package are at most one and the attempts in a row
      for each try, and the attempts left in a session that was open at the first.  The tries are the
      stored ones, or those of a report that was waiting then, if they are more. */
  lemma JobBudget(s: Server, os: seq<Occurrence>, id: int)
    requires Inv(s) && Quiet(s, os, id)
    ensures JobsOf(RunAll(s, os), id) - JobsOf(s, id) <= (1 + SYNCML_ATTEMPTS) * Count(s, id) + Leftover(s, id)
  {
    hide Inv;
    hide Quiet;
    RunSpends(s, os, id);
  }

  // ------------------------------------------------------------------------------------------
  // The last attempt
  // ------------------------------------------------------------------------------------------

  /** A report with no count left moves the package to idle, without a result, and creates no job.
      It takes effect exactly when the stored URL and the package's identifier fit their buffers. */
  lemma OutOfTriesGoesIdle(s: Server, iapUsable: bool, setting: Option<int>)
    requires Inv(s) && s.pkg.pkgId != NOT_FOUND && !s.sessionOpen && s.pkg.tries <= 0
    ensures var s', id := Report(s, iapUsable, setting), s.pkg.pkgId;
            var before, after := Lookup(s.rows, id, 0), Lookup(s'.rows, id, 0);
            && s'.jobs == s.jobs
            && after == if UrlsFit(s.rows, id, FILE_NAME_CAPACITY) && |EndOf(s.pkg)| <= END_CAPACITY
                        then before.(state := IDLE, result := NOT_FOUND, tries := TryCount(setting))
                        else before
  {
    hide AllInRange;
    hide Fits;
    hide UpdateRows;
    hide Lookup;
    hide TryCount;
    hide UrlsFit;
    hide Ids;
    var q := s.pkg.(state := IDLE, result := NOT_FOUND);
    var r := WithReset(q, {State, Result}, setting);
    IdleFits(r, setting);
    if UrlsFit(s.rows, q.pkgId, FILE_NAME_CAPACITY) && |EndOf(s.pkg)| <= END_CAPACITY {
      GetAfterSet(s.rows, q, {State, Result}, setting, q.pkgId, 0);
    }
  }

  lemma IdleFits(r: Package, setting: Option<int>)
    requires r.state == IDLE && r.result == NOT_FOUND && r.tries == TryCount(setting)
    ensures Writable(r, EffectiveMask({State, Result})) <==> |EndOf(r)| <= END_CAPACITY
  {
    ReportColumnsFit(EffectiveMask({State, Result}), r);
  }

  // ------------------------------------------------------------------------------------------
  // What ends a report
  // ------------------------------------------------------------------------------------------

  /** The end of the current job changes the attempts and the timer at most: success leaves no attempt
      and no timer; every other end keeps the attempts, and starts the timer exactly when some are
      left. */
  lemma EndOfJob(s: Server, identifier: int, end: JobEnd, setting: Option<int>)
    ensures var t := Step(s, JobEvent(identifier, end), setting);
            && t == s.(attempts := t.attempts, timer := t.timer)
            && (identifier != s.jobId || end == NotAnEnd ==> t == s)
            && (identifier == s.jobId && end == StoppedWell ==> t.attempts == 0 && !t.timer)
            && (identifier == s.jobId && end !in {StoppedWell, NotAnEnd} ==>
                  t.attempts == s.attempts && (t.timer <==> s.attempts > 0))
  {
  }

  /** When the retry timer fires, the next job is for the package of the session, and spends an attempt;
      without an attempt the session is closed. */
  lemma TimerSpends(s: Server, setting: Option<int>)
    ensures var t := Step(s, RetryTimer, setting);
            && !t.timer && t.rows == s.rows && t.pkg == s.pkg && t.monitoring == s.monitoring && t.owner == s.owner
            && (s.attempts > 0 ==>
                  t.jobs == s.jobs + [s.owner] && t.jobId == |s.jobs| && t.attempts == s.attempts - 1
                  && t.sessionOpen == s.sessionOpen)
            && (s.attempts == 0 ==> t.jobs == s.jobs && t.attempts == 0 && !t.sessionOpen)
  {
  }

  /** Every event can happen in its turn. */
  predicate Possible(s: Server, os: seq<Occurrence>)
    decreases |os|
  {
    os == [] || (Enabled(s, os[0].event) && Possible(Step(s, os[0].event, os[0].setting), os[1..]))
  }

  predicate NoRestart(os: seq<Occurrence>) {
    forall i :: 0 <= i < |os| ==> os[i].event != Restart
  }

  /** A session that creates no further job. */
  predicate Settled(s: Server) {
    s.sessionOpen && s.attempts == 0 && !s.timer
  }

  lemma {:induction false} SettledStays(s: Server, os: seq<Occurrence>)
    requires Settled(s) && Possible(s, os) && NoRestart(os)
    ensures Settled(RunAll(s, os)) && RunAll(s, os).jobs == s.jobs
    decreases |os|
  {
    hide SetRows;
    hide TryCount;
    hide Lookup;
    if os != [] {
      SettledStays(Step(s, os[0].event, os[0].setting), os[1..]);
    }
  }

  /** A report that succeeds is the last: after the current job of the session has stopped well, no job
      is created for any package, whatever happens, until the server is started anew. */
  lemma SuccessIsFinal(s: Server, setting: Option<int>, os: seq<Occurrence>)
    requires s.sessionOpen
    requires var t := Step(s, JobEvent(s.jobId, StoppedWell), setting); Possible(t, os) && NoRestart(os)
    ensures RunAll(Step(s, JobEvent(s.jobId, StoppedWell), setting), os).jobs == s.jobs
  {
    EndOfJob(s, s.jobId, StoppedWell, setting);
    SettledStays(Step(s, JobEvent(s.jobId, StoppedWell), setting), os);
  }

  /** Once the network is found, a report with tries left opens its session exactly when its package can
      be written.  It spends one try, in memory and in the table, on a job of that package.  With a
      usable access point the session may try again; without one that job is the last until the server
      is started anew. */
  lemma ReportCreatesJob(s: Server, iapUsable: bool, setting: Option<int>, later: seq<Occurrence>)
    requires Inv(s) && s.monitoring && !s.sessionOpen && s.pkg.tries > 0 && Short(s.pkg.tries)
    ensures var t := Step(s, Network(true, iapUsable), setting);
            && (t.sessionOpen <==> Sendable(s.rows, s.pkg.pkgId))
            && (t.sessionOpen ==>
                  && t.jobs == s.jobs + [s.pkg.pkgId] && t.jobId == |s.jobs| && t.owner == s.pkg.pkgId
                  && t.attempts == (if iapUsable then SYNCML_ATTEMPTS else 0)
                  && t.pkg == s.pkg.(tries := s.pkg.tries - 1, iapId := if s.pkg.iapId < 0 then 0 else s.pkg.iapId)
                  && TriesOf(t.rows, s.pkg.pkgId) == s.pkg.tries - 1)
            && (t.sessionOpen && !iapUsable && Possible(t, later) && NoRestart(later) ==>
                  RunAll(t, later).jobs == t.jobs)
  {
    hide SetRows;
    hide Takes;
    hide Sendable;
    hide TryCount;
    hide Lookup;
    var q := s.pkg.(tries := s.pkg.tries - 1);
    CountInRange(q);
    OutcomeTakesIff(s.rows, q, {SmlTryCount}, setting);
    TriesAfterSet(s.rows, q, {SmlTryCount}, setting, q.pkgId);
    var t := Step(s, Network(true, iapUsable), setting);
    if t.sessionOpen && !iapUsable && Possible(t, later) && NoRestart(later) {
      SettledStays(t, later);
    }
  }

  // ------------------------------------------------------------------------------------------
  // The budget is attained
  // ------------------------------------------------------------------------------------------

  lemma {:induction false} RunConcat(s: Server, a: seq<Occurrence>, b: seq<Occurrence>, id: int)
    ensures RunAll(s, a + b) == RunAll(RunAll(s, a), b)
    ensures Quiet(s, a + b, id) <==> Quiet(s, a, id) && Quiet(RunAll(s, a), b, id)
    decreases |a|
  {
    hide Step;
    hide Enabled;
    hide Restarts;
    if a == [] {
      assert a + b == b;
    } else {
      assert (a + b)[1..] == a[1..] + b;
      RunConcat(Step(s, a[0].event, a[0].setting), a[1..], b, id);
    }
  }

  lemma RunOne(s: Server, o: Occurrence, id: int)
    requires Enabled(s, o.event) && !Restarts(s, o.event, id)
    ensures RunAll(s, [o]) == Step(s, o.event, o.setting) && Quiet(s, [o], id)
  {
    hide Step;
    hide Enabled;
    hide Restarts;
    var t := Step(s, o.event, o.setting);
    assert [o][1..] == [] && RunAll(t, []) == t && Quiet(t, [], id);
  }

  /** A run can be continued by one event. */
  lemma Continue(s: Server, os: seq<Occurrence>, o: Occurrence, id: int)
    requires Quiet(s, os, id)
    requires var t := RunAll(s, os); Enabled(t, o.event) && !Restarts(t, o.event, id)
    ensures RunAll(s, os + [o]) == Step(RunAll(s, os), o.event, o.setting) && Quiet(s, os + [o], id)
  {
    hide Step;
    hide Enabled;
    hide Restarts;
    RunConcat(s, os, [o], id);
    RunOne(RunAll(s, os), o, id);
  }

  /** Each job fails, and the timer starts the next one, until no attempt is left. */
  lemma {:induction false} RetriesAreMade(s: Server, setting: Option<int>, id: int) returns (os: seq<Occurrence>)
    requires Inv(s) && s.owner == id
    ensures Quiet(s, os, id)
    ensures var t := RunAll(s, os); t.rows == s.rows && JobsOf(t, id) == JobsOf(s, id) + s.attempts
    decreases s.attempts, !s.timer
  {
    hide Unique;
    if s.attempts == 0 {
      os := [];
    } else {
      var o := At(if s.timer then RetryTimer else JobEvent(s.jobId, StoppedWithError), setting);
      var t := Step(s, o.event, setting);
      RunOne(s, o, id);
      var rest := RetriesAreMade(t, setting, id);
      RunConcat(s, [o], rest, id);
      os := [o] + rest;
    }
  }

  /** A server that has just been started. */
  predicate Started(s: Server) {
    !s.sessionOpen && s.attempts == 0 && !s.monitoring && s.pkg.pkgId == NOT_FOUND && !s.timer
  }

  lemma CountIsWritten(rows: seq<Package>, p: Package, setting: Option<int>, id: int)
    requires Unique(rows) && Sendable(rows, id) && p.pkgId == id
    requires p.tries >= 0 && Short(p.tries)
    ensures Takes(rows, p, {SmlTryCount}, setting)
    ensures var r := SetRows(rows, p, {SmlTryCount}, setting);
            Unique(r) && Sendable(r, id) && TriesOf(r, id) == p.tries
  {
    hide Decimal;
    ReportColumnsFit({SmlTryCount}, p);
    assert |SQL_WHERE| == 13;
    TriesAfterSet(rows, p, {SmlTryCount}, setting, id);
    SetRefinesMap(rows, p, {SmlTryCount}, setting);
  }

  /** A waiting report finds the network: it spends one try on a first job and the attempts in a row,
      and then the server is started anew. */
  lemma OneReport(s: Server, setting: Option<int>, id: int) returns (os: seq<Occurrence>)
    requires Inv(s) && Sendable(s.rows, id) && Pending(s, id) > 0 && Short(Pending(s, id))
    ensures Quiet(s, os, id)
    ensures var t := RunAll(s, os);
            && Inv(t) && Started(t) && Sendable(t.rows, id) && TriesOf(t.rows, id) == Pending(s, id) - 1
            && JobsOf(t, id) == JobsOf(s, id) + 1 + SYNCML_ATTEMPTS
  {
    hide SetRows;
    hide Takes;
    hide UrlsFit;
    hide Lookup;
    hide Unique;
    CountIsWritten(s.rows, s.pkg.(tries := s.pkg.tries - 1), setting, id);
    var o := At(Network(true, true), setting);
    var u := Step(s, o.event, setting);
    StepKeepsInv(s, o.event, setting);
    RunOne(s, o, id);
    assert u.attempts == SYNCML_ATTEMPTS && u.owner == id && JobsOf(u, id) == JobsOf(s, id) + 1;
    var retries := RetriesAreMade(u, setting, id);
    RunConcat(s, [o], retries, id);
    Continue(s, [o] + retries, At(Restart, setting), id);
    os := [o] + retries + [At(Restart, setting)];
    RunSpends(s, os, id);
  }

  /** A start of the server reads the package, whose report then waits for the network. */
  lemma OneStart(s: Server, setting: Option<int>, id: int) returns (os: seq<Occurrence>)
    requires Inv(s) && Started(s) && Sendable(s.rows, id) && TriesOf(s.rows, id) > 0 && Short(TriesOf(s.rows, id))
    ensures Quiet(s, os, id)
    ensures var t := RunAll(s, os);
            && Inv(t) && Started(t) && Sendable(t.rows, id) && TriesOf(t.rows, id) == TriesOf(s.rows, id) - 1
            && JobsOf(t, id) == JobsOf(s, id) + 1 + SYNCML_ATTEMPTS
  {
    hide SetRows;
    hide UrlsFit;
    hide Lookup;
    hide Unique;
    var o := At(Request(id), setting);
    LookupStored(s.rows, id, TryCount(setting), 0);
    StepKeepsInv(s, o.event, setting);
    RunOne(s, o, id);
    var rest := OneReport(Step(s, o.event, setting), setting, id);
    RunConcat(s, [o], rest, id);
    os := [o] + rest;
  }

  lemma {:induction false} AllStarts(s: Server, setting: Option<int>, id: int, tries: nat) returns (os: seq<Occurrence>)
    requires Inv(s) && Started(s) && Sendable(s.rows, id) && Stored(s, id) == tries && Short(tries)
    ensures Quiet(s, os, id)
    ensures JobsOf(RunAll(s, os), id) == JobsOf(s, id) + (1 + SYNCML_ATTEMPTS) * tries
    decreases tries
  {
    hide Inv;
    hide Started;
    hide Sendable;
    if tries == 0 {
      os := [];
    } else {
      hide Quiet;
      var first := OneStart(s, setting, id);
      var rest := AllStarts(RunAll(s, first), setting, id, tries - 1);
      RunConcat(s, first, rest, id);
      os := first + rest;
    }
  }

  /** The attempts left in the open session are made, and the server is started anew. */
  lemma FinishSession(s: Server, setting: Option<int>, id: int) returns (os: seq<Occurrence>)
    requires Inv(s)
    ensures Quiet(s, os, id)
    ensures var t := RunAll(s, os);
            Inv(t) && Started(t) && t.rows == s.rows && JobsOf(t, id) == JobsOf(s, id) + Leftover(s, id)
  {
    hide Unique;
    os := [];
    if s.owner == id {
      os := RetriesAreMade(s, setting, id);
    }
    Continue(s, os, At(Restart, setting), id);
    os := os + [At(Restart, setting)];
    RunSpends(s, os, id);
  }

  /** The bound of `JobBudget` is exact: from every state some run creates that many jobs.  The
      package must be one whose reports can be written, with a count of at most six digits; the
      counts that the server sets are at most 1001. */
  lemma BudgetIsAttained(s: Server, setting: Option<int>, id: int) returns (os: seq<Occurrence>)
    requires Inv(s) && Sendable(s.rows, id) && Short(Count(s, id))
    ensures Quiet(s, os, id)
    ensures JobsOf(RunAll(s, os), id) - JobsOf(s, id) == (1 + SYNCML_ATTEMPTS) * Count(s, id) + Leftover(s, id)
  {
    hide Quiet;
    hide Sendable;
    hide Started;
    var first;
    if Pending(s, id) > Stored(s, id) {
      first := OneReport(s, setting, id);
    } else {
      first := FinishSession(s, setting, id);
    }
    var t := RunAll(s, first);
    var rest := AllStarts(t, setting, id, Stored(t, id));
    RunConcat(s, first, rest, id);
    os := first + rest;
  }

  /** Exactly when the stored tries bound the jobs: no report that waits for the network holds more
      tries than the table. */
  lemma StoredBudgetIff(s: Server, id: int)
    requires Inv(s) && Sendable(s.rows, id) && Short(Count(s, id))
    ensures (forall os :: Quiet(s, os, id) ==>
               JobsOf(RunAll(s, os), id) - JobsOf(s, id) <= (1 + SYNCML_ATTEMPTS) * Stored(s, id) + Leftover(s, id))
            <==> Pending(s, id) <= Stored(s, id)
  {
    hide Inv;
    hide Quiet;
    hide Sendable;
    if Pending(s, id) <= Stored(s, id) {
      forall os | Quiet(s, os, id)
        ensures JobsOf(RunAll(s, os), id) - JobsOf(s, id) <= (1 + SYNCML_ATTEMPTS) * Stored(s, id) + Leftover(s, id)
      {
        JobBudget(s, os, id);
      }
    } else {
      var os := BudgetIsAttained(s, None, id);
    }
  }

  /** The condition can fail: a report of a package with five tries waits for the network while its
      state is written and the setting has been lowered to zero.  Two tries are stored, and twenty
      jobs follow instead of eight. */
  lemma LoweredSettingExceeds(p: Package) returns (s: Server, os: seq<Occurrence>)
    requires p.pkgId == 1 && p.tries == 5 && 0 <= p.state <= 100 && |p.url| <= FILE_NAME_CAPACITY
    ensures var waiting := Server([p], p, true, false, 0, -1, NOT_FOUND, false, []);
            && Inv(waiting) && Enabled(waiting, DbWrite(p, {State}))
            && s == Step(waiting, DbWrite(p, {State}), Some(0))
    ensures Stored(s, 1) == 2 && Leftover(s, 1) == 0
    ensures Quiet(s, os, 1) && JobsOf(RunAll(s, os), 1) - JobsOf(s, 1) == 20
  {
    var rows := [p];
    assert Ids(rows) == [1];
    assert Decimal(1) == "1";
    assert Sendable(rows, 1);
    OutcomeTakesIff(rows, p.(tries := 2), {State}, Some(0));
    var waiting := Server(rows, p, true, false, 0, -1, NOT_FOUND, false, []);
    s := Step(waiting, DbWrite(p, {State}), Some(0));
    assert WithReset(p, {State}, Some(0)) == WithReset(p.(tries := 2), {State}, Some(0));
    assert s.rows == [p.(tries := 2)];
    assert rows[..0] == [] && s.rows[..0] == [];
    assert Ids(s.rows) == [1];
    os := BudgetIsAttained(s, Some(0), 1);
  }
}
