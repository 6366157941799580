/** The device dialog server: asynchronous requests behind dialogs that replace each other. */
module DeviceDialog {
  import opened Common

  const ERR_NONE := 0
  const ERR_CANCEL := -3
  const ERR_ARGUMENT := -6
  const ERR_SERVER_BUSY := -16
  const ERR_ACCESS_DENIED := -46
  /** What the server answers when the user accepts a session. */
  const ACCEPTED := 0

  datatype Dialog = NoDialog | Query | InfoAlert | ConfirmAlert | Connect

  datatype RequestKind =
    /** A server-initiated session; `profileOk` says whether the server's profile can be opened. */
    | ServerAlert(silent: bool, profileOk: bool, openError: int)
    | ConnectNoteIsActive
    | ConnectNoteDismiss
    | ConnectNoteShowAgain
    | DisplayAlert
    | ConfirmationAlert
    | CancelServerAlert
    | UnknownRequest

  /** How opening the job of an accepted session goes. */
  datatype JobStart = Started | OpenFails | EventsFail

  datatype Event =
    | Request(kind: RequestKind, permitted: bool)
    /** The user's answer to the dialog that is shown. */
    | Response(code: int, job: JobStart, indicatorOk: bool)
    | JobStopped
    | IndicatorActivated
    /** A client's session ends. */
    | SessionEnds
    | CloseTimer

  // ------------------------------------------------------------------------------------------
  // The messages
  // ------------------------------------------------------------------------------------------

  /** The pending count, the stored message, and a log of the completed ones.  Messages are numbered
      as they arrive; `open` holds the admitted ones that are still to be completed, and `leaked` counts
      the admitted ones that failed on the way to their dialog. */
  datatype Ledger = Ledger(
    sessionCount: int,
    message: Option<nat>,
    next: nat,
    log: seq<(nat, int)>,
    open: set<nat>,
    leaked: nat)

  function Complete(l: Ledger, m: nat, code: int): Ledger {
    l.(log := l.log + [(m, code)], open := l.open - {m})
  }

  /** Completes the stored message and counts it off. */
  function CompleteStored(l: Ledger, code: int): Ledger {
    var t := l.(sessionCount := l.sessionCount - 1);
    if l.message.Some? then Complete(t, l.message.value, code) else t
  }

  /** Admits an asynchronous request and stores its message. */
  function Admit(l: Ledger, m: nat): Ledger {
    l.(sessionCount := l.sessionCount + 1, message := Some(m), open := l.open + {m})
  }

  function LedgerDispatch(l: Ledger, queryNote: bool, m: nat, kind: RequestKind): Ledger {
    match kind
    case ServerAlert(silent, profileOk, openError) =>
      if silent then Complete(l, m, ERR_NONE)
      else if profileOk then Admit(l, m)
      else
        // Leaving makes the framework complete the message; the count and the stored message stay.
        Complete(Admit(l, m).(leaked := l.leaked + 1), m, openError)
    case DisplayAlert => Admit(l, m)
    case ConfirmationAlert => Admit(l, m)
    case CancelServerAlert => Complete(if queryNote then CompleteStored(l, ERR_CANCEL) else l, m, ERR_NONE)
    case UnknownRequest => Complete(l, m, ERR_ARGUMENT)
    case _ => Complete(l, m, ERR_NONE)
  }

  function LedgerResponse(l: Ledger, shown: Dialog, code: int, job: JobStart): Ledger {
    match shown
    case Query =>
      if code != ACCEPTED then CompleteStored(l, ERR_CANCEL)
      else if job.Started? then CompleteStored(l, ERR_NONE)
      else l
    case InfoAlert => CompleteStored(l, ERR_NONE)
    case ConfirmAlert => CompleteStored(l, code)
    case _ => l
  }

  // ------------------------------------------------------------------------------------------
  // The dialogs
  // ------------------------------------------------------------------------------------------

  /** The dialog on the screen, and the server's flags. */
  datatype Screen = Screen(
    shown: Dialog,
    anyDialog: bool,
    queryNote: bool,
    connectNote: bool,
    indicator: bool,
    indicatorMade: bool,
    jobOngoing: bool,
    stopServer: bool,
    closing: bool,
    running: bool)

  function StopServer(c: Screen): (t: Screen)
    ensures t.shown == c.shown && t.queryNote == c.queryNote && t.running == c.running
  {
    if !c.stopServer && !c.jobOngoing then c.(connectNote := false, stopServer := true, closing := true) else c
  }

  function DismissDialog(c: Screen): (t: Screen)
    ensures (t.shown == c.shown || t.shown == NoDialog) && t.queryNote == c.queryNote && t.running == c.running
  {
    var t :=
      if c.connectNote && !c.indicator then c.(shown := NoDialog, anyDialog := false, connectNote := false) else c;
    t.(indicator := false)
  }

  function ShowConnectAgain(c: Screen): (t: Screen)
    ensures (t.shown == c.shown || t.shown == Connect) && t.queryNote == c.queryNote && t.running == c.running
  {
    if c.jobOngoing && !c.indicator && !c.connectNote
    then c.(shown := Connect, anyDialog := true, connectNote := true)
    else c
  }

  function ScreenDispatch(c: Screen, kind: RequestKind): Screen {
    match kind
    case ServerAlert(silent, profileOk, _) =>
      if !silent && profileOk then c.(shown := Query, queryNote := true, anyDialog := true) else c
    case ConnectNoteDismiss => if c.connectNote then DismissDialog(c) else c
    case ConnectNoteShowAgain => if c.connectNote then c else ShowConnectAgain(c)
    case DisplayAlert => c.(shown := InfoAlert, anyDialog := true)
    case ConfirmationAlert => c.(shown := ConfirmAlert, anyDialog := true)
    case CancelServerAlert => if c.queryNote then c.(shown := NoDialog, queryNote := false) else c
    case _ => c
  }

  /** The user answers the question whether to start a session. */
  function QueryAnswered(c: Screen, code: int, job: JobStart): (t: Screen)
    ensures t.shown == c.shown || t.shown == Connect
    ensures t.queryNote ==> c.queryNote && code == ACCEPTED && job != Started
    ensures t.running == c.running
  {
    if code == ACCEPTED then
      var t := c.(shown := Connect, anyDialog := true, connectNote := true);
      match job
      case OpenFails => t
      case EventsFail => t.(jobOngoing := true)
      case Started => t.(jobOngoing := true, queryNote := false)
    else StopServer(c).(queryNote := false)
  }

  function AlertAnswered(c: Screen): (t: Screen)
    ensures (t.shown == c.shown || t.shown == Connect) && t.queryNote == c.queryNote && t.running == c.running
  {
    if c.jobOngoing then ShowConnectAgain(c) else StopServer(c)
  }

  function ConnectAnswered(c: Screen, code: int, indicatorOk: bool): (t: Screen)
    ensures (t.shown == c.shown || t.shown == NoDialog) && t.queryNote == c.queryNote && t.running == c.running
  {
    var t := c.(connectNote := false);
    if code == ERR_CANCEL then StopServer(DismissDialog(t))
    else if indicatorOk then t.(indicator := true, indicatorMade := true)
    else t
  }

  function ScreenResponse(c: Screen, code: int, job: JobStart, indicatorOk: bool): Screen {
    var t := c.(shown := NoDialog, anyDialog := false);
    match c.shown
    case Query => QueryAnswered(t, code, job)
    case InfoAlert => AlertAnswered(t)
    case ConfirmAlert => AlertAnswered(t)
    case _ => ConnectAnswered(t, code, indicatorOk)
  }

  // ------------------------------------------------------------------------------------------
  // The state machine
  // ------------------------------------------------------------------------------------------

  datatype Server = Server(ledger: Ledger, screen: Screen)

  const INITIAL: Server :=
    Server(Ledger(0, None, 0, [], {}, 0),
           Screen(NoDialog, false, false, false, false, false, false, false, false, true))

  function Dispatch(s: Server, m: nat, kind: RequestKind): Server {
    Server(LedgerDispatch(s.ledger, s.screen.queryNote, m, kind), ScreenDispatch(s.screen, kind))
  }

  function Service(s: Server, kind: RequestKind, permitted: bool): Server {
    var m, l := s.ledger.next, s.ledger.(next := s.ledger.next + 1);
    if !permitted then Server(Complete(l, m, ERR_ACCESS_DENIED), s.screen)
    else
      var t := Server(l, s.screen.(closing := false));
      if t.screen.queryNote && !kind.CancelServerAlert? then t.(ledger := Complete(l, m, ERR_SERVER_BUSY))
      else Dispatch(t, m, kind)
  }

  function OnResponse(s: Server, code: int, job: JobStart, indicatorOk: bool): Server {
    Server(LedgerResponse(s.ledger, s.screen.shown, code, job), ScreenResponse(s.screen, code, job, indicatorOk))
  }

  function Step(s: Server, e: Event): Server {
    match e
    case Request(kind, permitted) => Service(s, kind, permitted)
    case Response(code, job, indicatorOk) => OnResponse(s, code, job, indicatorOk)
    case JobStopped => s.(screen := StopServer(DismissDialog(s.screen.(jobOngoing := false))))
    case IndicatorActivated => s.(screen := ShowConnectAgain(s.screen.(indicator := false)))
    case SessionEnds => if s.ledger.sessionCount > 0 then s else s.(screen := StopServer(s.screen))
    case CloseTimer => Server(s.ledger.(sessionCount := 0), s.screen.(running := false, closing := false))
  }

  predicate Enabled(c: Screen, e: Event) {
    && c.running
    && match e
       case Request(_, _) => true
       case Response(_, _, _) => c.shown != NoDialog
       case JobStopped => c.jobOngoing
       case IndicatorActivated => c.indicatorMade
       case SessionEnds => true
       case CloseTimer => c.closing
  }

  // ------------------------------------------------------------------------------------------
  // The server object
  // ------------------------------------------------------------------------------------------

  class DialogServer {
    var sessionCount: int
    var message: Option<nat>
    var next: nat
    var log: seq<(nat, int)>
    ghost var open: set<nat>
    ghost var leaked: nat
    var shown: Dialog
    var anyDialogDisplaying: bool
    var pkgZeroQueryNoteDisplaying: bool
    var pkgZeroConnectionNoteShown: bool
    var indicatorLaunched: bool
    var indicatorMade: bool
    var jobOngoing: bool
    var stopServer: bool
    var serverCloseRequest: bool
    var running: bool

    constructor ()
      ensures Snapshot() == INITIAL
    {
      sessionCount, message, next, log, open, leaked := 0, None, 0, [], {}, 0;
      shown, anyDialogDisplaying := NoDialog, false;
      pkgZeroQueryNoteDisplaying, pkgZeroConnectionNoteShown := false, false;
      indicatorLaunched, indicatorMade, jobOngoing, stopServer, serverCloseRequest := false, false, false, false, false;
      running := true;
    }

    ghost function Messages(): Ledger
      reads this`sessionCount, this`message, this`next, this`log, this`open, this`leaked
    {
      Ledger(sessionCount, message, next, log, open, leaked)
    }

    function Dialogs(): Screen
      reads this`shown, this`anyDialogDisplaying, this`pkgZeroQueryNoteDisplaying, this`pkgZeroConnectionNoteShown,
            this`indicatorLaunched, this`indicatorMade, this`jobOngoing, this`stopServer, this`serverCloseRequest,
            this`running
    {
      Screen(shown, anyDialogDisplaying, pkgZeroQueryNoteDisplaying, pkgZeroConnectionNoteShown, indicatorLaunched,
             indicatorMade, jobOngoing, stopServer, serverCloseRequest, running)
    }

    ghost function Snapshot(): Server
      reads this
    {
      Server(Messages(), Dialogs())
    }

    method CompleteMessage(m: nat, code: int)
      modifies this`log, this`open
      ensures Messages() == Complete(old(Messages()), m, code)
    {
      log := log + [(m, code)];
      open := open - {m};
    }

    method CompleteStoredMessage(code: int)
      modifies this`log, this`open, this`sessionCount
      ensures Messages() == CompleteStored(old(Messages()), code)
    {
      if message.Some? {
        CompleteMessage(message.value, code);
      }
      sessionCount := sessionCount - 1;
    }

    method Stop()
      modifies this`pkgZeroConnectionNoteShown, this`stopServer, this`serverCloseRequest
      ensures Dialogs() == StopServer(old(Dialogs()))
    {
      if !stopServer && !jobOngoing {
        pkgZeroConnectionNoteShown := false;
        stopServer := true;
        serverCloseRequest := true;
      }
    }

    method Dismiss()
      modifies this`shown, this`anyDialogDisplaying, this`pkgZeroConnectionNoteShown, this`indicatorLaunched
      ensures Dialogs() == DismissDialog(old(Dialogs()))
    {
      if pkgZeroConnectionNoteShown && !indicatorLaunched {
        shown := NoDialog;
        anyDialogDisplaying := false;
        pkgZeroConnectionNoteShown := false;
      }
      if indicatorLaunched {
        indicatorLaunched := false;
      }
    }

    method ShowConnectDialogAgain()
      modifies this`shown, this`anyDialogDisplaying, this`pkgZeroConnectionNoteShown
      ensures Dialogs() == ShowConnectAgain(old(Dialogs()))
    {
      if jobOngoing && !indicatorLaunched && !pkgZeroConnectionNoteShown {
        ShowConnect();
      }
    }

    method ShowConnect()
      modifies this`shown, this`anyDialogDisplaying, this`pkgZeroConnectionNoteShown
      ensures Dialogs() == old(Dialogs()).(shown := Connect, anyDialog := true, connectNote := true)
    {
      shown := Connect;
      anyDialogDisplaying := true;
      pkgZeroConnectionNoteShown := true;
    }

    /** Counts an asynchronous request. */
    method NewAsyncRequest(ghost m: nat)
      modifies this`sessionCount, this`open
      ensures sessionCount == old(sessionCount) + 1 && open == old(open) + {m}
    {
      sessionCount := sessionCount + 1;
      open := open + {m};
    }

    /** Shows the question whether to start a session; false stands for leaving. */
    method LaunchPkgZeroNote(m: nat, profileOk: bool) returns (ok: bool)
      modifies this`message, this`shown, this`pkgZeroQueryNoteDisplaying, this`anyDialogDisplaying
      ensures ok == profileOk && message == Some(m)
      ensures Dialogs() == ScreenDispatch(old(Dialogs()), ServerAlert(false, profileOk, 0))
    {
      message := Some(m);
      if !profileOk {
        return false;
      }
      if anyDialogDisplaying {
        shown := NoDialog;
        anyDialogDisplaying := false;
      }
      shown := Query;
      pkgZeroQueryNoteDisplaying := true;
      anyDialogDisplaying := true;
      ok := true;
    }

    /** Shows an alert in place of whatever is shown. */
    method ShowAlert(m: nat, dialog: Dialog)
      modifies this`message, this`shown, this`anyDialogDisplaying
      ensures message == Some(m)
      ensures Dialogs() == old(Dialogs()).(shown := dialog, anyDialog := true)
    {
      message := Some(m);
      shown := dialog;
      anyDialogDisplaying := true;
    }

    method CancelPendingServerAlert()
      modifies this`log, this`open, this`sessionCount, this`shown, this`pkgZeroQueryNoteDisplaying
      ensures Dialogs() == ScreenDispatch(old(Dialogs()), CancelServerAlert)
      ensures Messages() == if old(pkgZeroQueryNoteDisplaying) then CompleteStored(old(Messages()), ERR_CANCEL)
                            else old(Messages())
    {
      if pkgZeroQueryNoteDisplaying {
        shown := NoDialog;
        pkgZeroQueryNoteDisplaying := false;
        CompleteStoredMessage(ERR_CANCEL);
      }
    }

    method ServerAlertArrives(m: nat, silent: bool, profileOk: bool, openError: int)
      modifies this`message, this`shown, this`pkgZeroQueryNoteDisplaying, this`anyDialogDisplaying,
               this`log, this`open, this`sessionCount, this`leaked
      ensures Snapshot() == Dispatch(old(Snapshot()), m, ServerAlert(silent, profileOk, openError))
    {
      if silent {
        CompleteMessage(m, ERR_NONE);
      } else {
        NewAsyncRequest(m);
        var ok := LaunchPkgZeroNote(m, profileOk);
        if !ok {
          leaked := leaked + 1;
          CompleteMessage(m, openError);
        }
      }
    }

    /** Handles an admitted request; a leave is answered by completing the message with the error. */
    method DispatchMessage(m: nat, kind: RequestKind)
      modifies this
      ensures Snapshot() == Dispatch(old(Snapshot()), m, kind)
    {
      hide DismissDialog;
      hide ShowConnectAgain;
      match kind
      case ServerAlert(silent, profileOk, openError) =>
        ServerAlertArrives(m, silent, profileOk, openError);
      case ConnectNoteIsActive =>
        CompleteMessage(m, ERR_NONE);
      case ConnectNoteDismiss =>
        if pkgZeroConnectionNoteShown {
          Dismiss();
        }
        CompleteMessage(m, ERR_NONE);
      case ConnectNoteShowAgain =>
        if !pkgZeroConnectionNoteShown {
          ShowConnectDialogAgain();
        }
        CompleteMessage(m, ERR_NONE);
      case DisplayAlert =>
        NewAsyncRequest(m);
        ShowAlert(m, InfoAlert);
      case ConfirmationAlert =>
        NewAsyncRequest(m);
        ShowAlert(m, ConfirmAlert);
      case CancelServerAlert =>
        CancelPendingServerAlert();
        CompleteMessage(m, ERR_NONE);
      case UnknownRequest =>
        CompleteMessage(m, ERR_ARGUMENT);
    }

    /** A request arrives. */
    method ServiceRequest(kind: RequestKind, permitted: bool)
      modifies this
      ensures Snapshot() == Service(old(Snapshot()), kind, permitted)
    {
      hide Dispatch;
      var m := next;
      next := next + 1;
      if !permitted {
        CompleteMessage(m, ERR_ACCESS_DENIED);
        return;
      }
      serverCloseRequest := false;
      if !pkgZeroQueryNoteDisplaying || kind.CancelServerAlert? {
        DispatchMessage(m, kind);
      } else {
        CompleteMessage(m, ERR_SERVER_BUSY);
      }
    }

    /** The user answers the dialog that is shown. */
    method DevDialogResponse(code: int, job: JobStart, indicatorOk: bool)
      requires shown != NoDialog
      modifies this
      ensures Snapshot() == OnResponse(old(Snapshot()), code, job, indicatorOk)
    {
      hide QueryAnswered;
      hide AlertAnswered;
      hide ConnectAnswered;
      hide CompleteStored;
      var notifierType := shown;
      shown := NoDialog;
      anyDialogDisplaying := false;
      match notifierType
      case Query =>
        QueryResponse(code, job);
      case InfoAlert =>
        AlertResponse(ERR_NONE);
      case ConfirmAlert =>
        AlertResponse(code);
      case Connect =>
        ConnectResponse(code, indicatorOk);
    }

    method QueryResponse(code: int, job: JobStart)
      modifies this
      ensures Dialogs() == QueryAnswered(old(Dialogs()), code, job)
      ensures Messages() == LedgerResponse(old(Messages()), Query, code, job)
    {
      hide StopServer;
      hide CompleteStored;
      if code == ACCEPTED {
        AcceptSession(job);
      } else {
        DeclineSession();
      }
    }

    /** The connection dialog follows; the message is completed once the job has been opened. */
    method AcceptSession(job: JobStart)
      modifies this`shown, this`anyDialogDisplaying, this`pkgZeroConnectionNoteShown, this`jobOngoing,
               this`pkgZeroQueryNoteDisplaying, this`log, this`open, this`sessionCount
      ensures Dialogs() == QueryAnswered(old(Dialogs()), ACCEPTED, job)
      ensures Messages() == if job.Started? then CompleteStored(old(Messages()), ERR_NONE) else old(Messages())
    {
      hide CompleteStored;
      ShowConnect();
      if job.OpenFails? {
        return;
      }
      jobOngoing := true;
      if job.EventsFail? {
        return;
      }
      CompleteStoredMessage(ERR_NONE);
      pkgZeroQueryNoteDisplaying := false;
    }

    method DeclineSession()
      modifies this`pkgZeroConnectionNoteShown, this`stopServer, this`serverCloseRequest,
               this`pkgZeroQueryNoteDisplaying, this`log, this`open, this`sessionCount
      ensures Dialogs() == StopServer(old(Dialogs())).(queryNote := false)
      ensures Messages() == CompleteStored(old(Messages()), ERR_CANCEL)
    {
      hide CompleteStored;
      CompleteStoredMessage(ERR_CANCEL);
      Stop();
      pkgZeroQueryNoteDisplaying := false;
    }

    method AlertResponse(code: int)
      modifies this
      ensures Dialogs() == AlertAnswered(old(Dialogs()))
      ensures Messages() == CompleteStored(old(Messages()), code)
    {
      hide StopServer;
      hide ShowConnectAgain;
      hide CompleteStored;
      CompleteStoredMessage(code);
      if !jobOngoing {
        Stop();
      } else {
        ShowConnectDialogAgain();
      }
    }

    method ConnectResponse(code: int, indicatorOk: bool)
      modifies this`shown, this`anyDialogDisplaying, this`pkgZeroConnectionNoteShown, this`indicatorLaunched,
               this`indicatorMade, this`stopServer, this`serverCloseRequest
      ensures Dialogs() == ConnectAnswered(old(Dialogs()), code, indicatorOk)
    {
      hide StopServer;
      hide DismissDialog;
      pkgZeroConnectionNoteShown := false;
      if code == ERR_CANCEL {
        Dismiss();
        Stop();
      } else if indicatorOk {
        indicatorMade := true;
        indicatorLaunched := true;
      }
    }

    method OnSyncMLSessionEvent()
      modifies this`jobOngoing, this`shown, this`anyDialogDisplaying, this`pkgZeroConnectionNoteShown,
               this`indicatorLaunched, this`stopServer, this`serverCloseRequest
      ensures Snapshot() == Step(old(Snapshot()), JobStopped)
    {
      hide StopServer;
      hide DismissDialog;
      jobOngoing := false;
      assert Messages() == old(Messages()) && Dialogs() == old(Dialogs()).(jobOngoing := false);
      Dismiss();
      Stop();
    }

    /** The destructor of a session: without pending requests the server is to stop. */
    method SessionEnded()
      modifies this`pkgZeroConnectionNoteShown, this`stopServer, this`serverCloseRequest
      ensures Snapshot() == Step(old(Snapshot()), SessionEnds)
    {
      hide StopServer;
      if sessionCount <= 0 {
        Stop();
      }
    }

    method IndicatorUserActivated()
      modifies this`indicatorLaunched, this`shown, this`anyDialogDisplaying, this`pkgZeroConnectionNoteShown
      ensures Snapshot() == Step(old(Snapshot()), IndicatorActivated)
    {
      hide ShowConnectAgain;
      indicatorLaunched := false;
      ShowConnectDialogAgain();
    }
  }

  // ------------------------------------------------------------------------------------------
  // The books
  // ------------------------------------------------------------------------------------------

  predicate IsCompleted(log: seq<(nat, int)>, m: nat) {
    exists i :: 0 <= i < |log| && log[i].0 == m
  }

  predicate NoneTwice(log: seq<(nat, int)>) {
    forall i, j :: 0 <= i < j < |log| ==> log[i].0 != log[j].0
  }

  /** No message is completed twice, no open message is completed, and all have arrived. */
  predicate Books(l: Ledger) {
    && NoneTwice(l.log)
    && (forall i :: 0 <= i < |l.log| ==> l.log[i].0 < l.next)
    && (forall m :: m in l.open ==> m < l.next && !IsCompleted(l.log, m))
  }

  /** The pending count is the number of open messages and of those that failed on the way. */
  predicate Counted(l: Ledger) {
    l.sessionCount == |l.open| + l.leaked
  }

  predicate StoredOpen(l: Ledger) {
    l.message.Some? && l.message.value in l.open
  }

  lemma AppendedLog(log: seq<(nat, int)>, m: nat, code: int)
    requires NoneTwice(log) && !IsCompleted(log, m)
    ensures NoneTwice(log + [(m, code)])
    ensures forall k :: IsCompleted(log + [(m, code)], k) <==> IsCompleted(log, k) || k == m
  {
    var r := log + [(m, code)];
    assert r[|log|].0 == m;
    forall k
      ensures IsCompleted(r, k) <==> IsCompleted(log, k) || k == m
    {
      if IsCompleted(log, k) {
        var i :| 0 <= i < |log| && log[i].0 == k;
        assert r[i].0 == k;
      }
    }
  }

  lemma CompleteKeepsBooks(l: Ledger, m: nat, code: int)
    requires Books(l) && m < l.next && !IsCompleted(l.log, m)
    ensures var t := Complete(l, m, code); Books(t) && |t.open| == |l.open| - if m in l.open then 1 else 0
    ensures forall k :: IsCompleted(Complete(l, m, code).log, k) <==> IsCompleted(l.log, k) || k == m
  {
    hide NoneTwice;
    hide IsCompleted;
    AppendedLog(l.log, m, code);
    var t := Complete(l, m, code);
    if m in l.open {
      assert l.open == t.open + {m};
    } else {
      assert l.open == t.open;
    }
  }

  lemma CompleteStoredKeeps(l: Ledger, code: int)
    requires Books(l) && Counted(l) && StoredOpen(l)
    ensures var t := CompleteStored(l, code);
            && Books(t) && Counted(t)
            && forall k :: IsCompleted(t.log, k) <==> IsCompleted(l.log, k) || k == l.message.value
  {
    hide NoneTwice;
    hide IsCompleted;
    CompleteKeepsBooks(l.(sessionCount := l.sessionCount - 1), l.message.value, code);
  }

  lemma AdmitKeepsBooks(l: Ledger, m: nat)
    requires Books(l) && Counted(l) && m < l.next && !IsCompleted(l.log, m) && m !in l.open
    ensures Books(Admit(l, m)) && Counted(Admit(l, m)) && StoredOpen(Admit(l, m))
  {
    hide NoneTwice;
    hide IsCompleted;
  }

  lemma ArrivalKeepsBooks(l: Ledger)
    requires Books(l)
    ensures Books(l.(next := l.next + 1)) && !IsCompleted(l.log, l.next) && l.next !in l.open
  {
  }

  lemma FailedLaunchKeeps(l: Ledger, m: nat, code: int)
    requires Books(l) && Counted(l) && m < l.next && !IsCompleted(l.log, m) && m !in l.open
    ensures var t := Complete(Admit(l, m).(leaked := l.leaked + 1), m, code);
            Books(t) && Counted(t) && !StoredOpen(t)
  {
    hide NoneTwice;
    hide IsCompleted;
    AdmitKeepsBooks(l, m);
    CompleteKeepsBooks(Admit(l, m).(leaked := l.leaked + 1), m, code);
  }

  /** A dispatched request keeps the books; whether the stored message is still open depends on the
      request. */
  lemma LedgerDispatchKeeps(l: Ledger, queryNote: bool, m: nat, kind: RequestKind)
    requires Books(l) && Counted(l) && m < l.next && !IsCompleted(l.log, m) && m !in l.open
    requires queryNote ==> StoredOpen(l)
    ensures var t := LedgerDispatch(l, queryNote, m, kind);
            && Books(t) && Counted(t)
            && (Stores(kind) ==> StoredOpen(t))
            && (Fails(kind) ==> !StoredOpen(t))
            && (!Stores(kind) && !Fails(kind) && !(queryNote && kind.CancelServerAlert?) && StoredOpen(l)
                ==> StoredOpen(t))
  {
    hide Books;
    hide Admit;
    hide NoneTwice;
    hide IsCompleted;
    hide Complete;
    hide CompleteStored;
    hide Counted;
    hide StoredOpen;
    if Stores(kind) {
      AdmitKeepsBooks(l, m);
    } else if Fails(kind) {
      FailedLaunchKeeps(l, m, kind.openError);
    } else if queryNote && kind.CancelServerAlert? {
      CancelKeeps(l, m);
    } else {
      CompleteOtherKeeps(l, m, if kind.UnknownRequest? then ERR_ARGUMENT else ERR_NONE);
    }
  }

  lemma CompleteOtherKeeps(l: Ledger, m: nat, code: int)
    requires Books(l) && Counted(l) && m < l.next && !IsCompleted(l.log, m) && m !in l.open
    ensures var t := Complete(l, m, code); Books(t) && Counted(t) && (StoredOpen(l) ==> StoredOpen(t))
  {
    hide NoneTwice;
    hide IsCompleted;
    CompleteKeepsBooks(l, m, code);
  }

  lemma CancelKeeps(l: Ledger, m: nat)
    requires Books(l) && Counted(l) && StoredOpen(l) && m < l.next && !IsCompleted(l.log, m) && m !in l.open
    ensures var t := Complete(CompleteStored(l, ERR_CANCEL), m, ERR_NONE); Books(t) && Counted(t)
  {
    hide NoneTwice;
    hide IsCompleted;
    CompleteStoredKeeps(l, ERR_CANCEL);
    CompleteKeepsBooks(CompleteStored(l, ERR_CANCEL), m, ERR_NONE);
  }

  /** The request's message is stored behind a dialog. */
  predicate Stores(kind: RequestKind) {
    kind.DisplayAlert? || kind.ConfirmationAlert? || (kind.ServerAlert? && !kind.silent && kind.profileOk)
  }

  /** The request's message is stored, but no dialog follows. */
  predicate Fails(kind: RequestKind) {
    kind.ServerAlert? && !kind.silent && !kind.profileOk
  }

  // ------------------------------------------------------------------------------------------
  // Messages are completed at most once
  // ------------------------------------------------------------------------------------------

  predicate IsAlert(d: Dialog) {
    d == InfoAlert || d == ConfirmAlert
  }

  /** The dialog's answer completes the stored message. */
  predicate Waits(c: Screen) {
    c.queryNote || IsAlert(c.shown)
  }

  /** The flag stands for the question as long as it is shown, and never for an alert. */
  predicate FlagRight(c: Screen) {
    (c.shown == Query ==> c.queryNote) && (c.queryNote ==> !IsAlert(c.shown))
  }

  predicate Inv(s: Server) {
    && Books(s.ledger) && FlagRight(s.screen)
    && (Waits(s.screen) ==> StoredOpen(s.ledger))
    && (s.screen.running ==> Counted(s.ledger))
  }

  /** The one way to lose track of a message: a request for a session whose profile cannot be opened,
      while an alert is shown. */
  predicate LosesTrack(c: Screen, e: Event) {
    e.Request? && e.permitted && Fails(e.kind) && IsAlert(c.shown)
  }

  lemma ScreenDispatchKeeps(c: Screen, kind: RequestKind)
    requires FlagRight(c) && (c.queryNote ==> kind.CancelServerAlert?)
    ensures var t := ScreenDispatch(c, kind);
            && FlagRight(t) && t.running == c.running
            && (Waits(t) ==> Stores(kind) || Waits(c))
            && (Fails(kind) ==> t == c)
            && (c.queryNote ==> !Waits(t))
  {
    hide DismissDialog;
    hide ShowConnectAgain;
  }

  lemma DispatchKeepsIff(s: Server, m: nat, kind: RequestKind)
    requires Inv(s) && s.screen.running
    requires m < s.ledger.next && !IsCompleted(s.ledger.log, m) && m !in s.ledger.open
    requires s.screen.queryNote ==> kind.CancelServerAlert?
    ensures Inv(Dispatch(s, m, kind)) <==> !(Fails(kind) && IsAlert(s.screen.shown))
  {
    hide Books;
    hide LedgerDispatch;
    hide ScreenDispatch;
    hide IsCompleted;
    ScreenDispatchKeeps(s.screen, kind);
    LedgerDispatchKeeps(s.ledger, s.screen.queryNote, m, kind);
  }

  lemma ArrivalKeepsInv(s: Server)
    requires Inv(s)
    ensures Inv(Server(s.ledger.(next := s.ledger.next + 1), s.screen.(closing := false)))
    ensures !IsCompleted(s.ledger.log, s.ledger.next) && s.ledger.next !in s.ledger.open
    ensures s.screen.queryNote ==> !IsAlert(s.screen.shown)
  {
    hide NoneTwice;
    hide IsCompleted;
    ArrivalKeepsBooks(s.ledger);
  }

  lemma RefusalKeepsInv(s: Server, code: int, closing: bool)
    requires Inv(s)
    ensures Inv(Server(Complete(s.ledger.(next := s.ledger.next + 1), s.ledger.next, code),
                       s.screen.(closing := closing)))
  {
    hide NoneTwice;
    hide IsCompleted;
    ArrivalKeepsBooks(s.ledger);
    CompleteKeepsBooks(s.ledger.(next := s.ledger.next + 1), s.ledger.next, code);
  }

  lemma RequestKeepsIff(s: Server, kind: RequestKind, permitted: bool)
    requires Inv(s) && s.screen.running
    ensures Inv(Service(s, kind, permitted)) <==> !LosesTrack(s.screen, Request(kind, permitted))
  {
    hide Inv;
    hide Complete;
    hide Dispatch;
    hide IsCompleted;
    ArrivalKeepsInv(s);
    if !permitted {
      RefusalKeepsInv(s, ERR_ACCESS_DENIED, s.screen.closing);
    } else if s.screen.queryNote && !kind.CancelServerAlert? {
      RefusalKeepsInv(s, ERR_SERVER_BUSY, false);
    } else {
      DispatchKeepsIff(Server(s.ledger.(next := s.ledger.next + 1), s.screen.(closing := false)), s.ledger.next, kind);
    }
  }

  lemma ScreenResponseKeeps(c: Screen, code: int, job: JobStart, indicatorOk: bool)
    requires FlagRight(c) && c.shown != NoDialog
    ensures var t := ScreenResponse(c, code, job, indicatorOk);
            && FlagRight(t) && t.running == c.running
            && (Waits(t) ==> c.queryNote)
            && (Waits(t) ==> c.shown == Connect || (c.shown == Query && code == ACCEPTED && job != Started))
  {
    hide QueryAnswered;
    hide AlertAnswered;
    hide ConnectAnswered;
  }

  lemma ResponseKeeps(s: Server, code: int, job: JobStart, indicatorOk: bool)
    requires Inv(s) && s.screen.running && s.screen.shown != NoDialog
    ensures Inv(OnResponse(s, code, job, indicatorOk))
  {
    hide Books;
    hide IsCompleted;
    hide ScreenResponse;
    ScreenResponseKeeps(s.screen, code, job, indicatorOk);
    if Waits(s.screen) {
      CompleteStoredKeeps(s.ledger, ERR_NONE);
      CompleteStoredKeeps(s.ledger, ERR_CANCEL);
      CompleteStoredKeeps(s.ledger, code);
    }
  }

  /** A step keeps the books exactly when it is not that one. */
  lemma StepKeepsIff(s: Server, e: Event)
    requires Inv(s) && Enabled(s.screen, e)
    ensures Inv(Step(s, e)) <==> !LosesTrack(s.screen, e)
  {
    hide NoneTwice;
    hide IsCompleted;
    hide Service;
    hide OnResponse;
    match e
    case Request(kind, permitted) => RequestKeepsIff(s, kind, permitted);
    case Response(code, job, indicatorOk) => ResponseKeeps(s, code, job, indicatorOk);
    case _ =>
  }

  function RunAll(s: Server, es: seq<Event>): Server
    decreases |es|
  {
    if es == [] then s else RunAll(Step(s, es[0]), es[1..])
  }

  /** The request is admitted, and fails on the way to its dialog. */
  predicate FailsAdmitted(c: Screen, e: Event) {
    e.Request? && e.permitted && !c.queryNote && Fails(e.kind)
  }

  /** How many requests of a run do so. */
  function FailedLaunches(s: Server, es: seq<Event>): nat
    decreases |es|
  {
    if es == [] then 0
    else (if FailsAdmitted(s.screen, es[0]) then 1 else 0) + FailedLaunches(Step(s, es[0]), es[1..])
  }

  lemma StepLeaks(s: Server, e: Event)
    ensures Step(s, e).ledger.leaked == s.ledger.leaked + if FailsAdmitted(s.screen, e) then 1 else 0
  {
    hide ScreenDispatch;
    hide ScreenResponse;
    hide StopServer;
    hide DismissDialog;
    hide ShowConnectAgain;
  }

  lemma {:induction false} LeakedIsFailed(s: Server, es: seq<Event>)
    ensures RunAll(s, es).ledger.leaked == s.ledger.leaked + FailedLaunches(s, es)
    decreases |es|
  {
    hide Step;
    hide FailsAdmitted;
    if es != [] {
      StepLeaks(s, es[0]);
      LeakedIsFailed(Step(s, es[0]), es[1..]);
    }
  }

  // ------------------------------------------------------------------------------------------
  // When a message is completed twice
  // ------------------------------------------------------------------------------------------

  /** An alert is shown, and the stored message is not the alert's: it has been completed. */
  predicate Adrift(s: Server) {
    && Books(s.ledger) && IsAlert(s.screen.shown) && !s.screen.queryNote
    && s.ledger.message.Some? && IsCompleted(s.ledger.log, s.ledger.message.value)
    && (s.screen.running ==> Counted(s.ledger))
  }

  /** A request whose message is stored behind a dialog. */
  predicate StoresMessage(e: Event) {
    e.Request? && e.permitted && Stores(e.kind)
  }

  lemma GrownLog(log: seq<(nat, int)>, m: nat, code: int)
    ensures !NoneTwice(log) || IsCompleted(log, m) ==> !NoneTwice(log + [(m, code)])
    ensures forall k :: IsCompleted(log, k) ==> IsCompleted(log + [(m, code)], k)
  {
    var r := log + [(m, code)];
    if !NoneTwice(log) {
      var i, j :| 0 <= i < j < |log| && log[i].0 == log[j].0;
      assert r[i].0 == r[j].0;
    } else if IsCompleted(log, m) {
      var i :| 0 <= i < |log| && log[i].0 == m;
      assert r[i].0 == r[|log|].0;
    }
    forall k | IsCompleted(log, k)
      ensures IsCompleted(r, k)
    {
      var i :| 0 <= i < |log| && log[i].0 == k;
      assert r[i].0 == k;
    }
  }

  /** A message completed twice stays so. */
  lemma TwiceForever(s: Server, e: Event)
    requires !NoneTwice(s.ledger.log)
    ensures !NoneTwice(Step(s, e).ledger.log)
  {
    hide NoneTwice;
    hide IsCompleted;
    hide ScreenDispatch;
    hide ScreenResponse;
    hide StopServer;
    hide DismissDialog;
    hide ShowConnectAgain;
    forall log, m: nat, code | !NoneTwice(log)
      ensures !NoneTwice(log + [(m, code)])
    {
      GrownLog(log, m, code);
    }
  }

  /** The answer to the alert completes the stored message again. */
  lemma AdriftAnswered(s: Server, code: int, job: JobStart, indicatorOk: bool)
    requires Adrift(s)
    ensures !NoneTwice(OnResponse(s, code, job, indicatorOk).ledger.log)
  {
    hide NoneTwice;
    hide IsCompleted;
    hide ScreenResponse;
    GrownLog(s.ledger.log, s.ledger.message.value, code);
    GrownLog(s.ledger.log, s.ledger.message.value, ERR_NONE);
  }

  /** The step that loses track leaves the server adrift. */
  lemma LossAdrift(s: Server, e: Event)
    requires Inv(s) || Adrift(s)
    requires Enabled(s.screen, e) && LosesTrack(s.screen, e)
    ensures Adrift(Step(s, e))
  {
    hide NoneTwice;
    hide IsCompleted;
    var m, l := s.ledger.next, s.ledger.(next := s.ledger.next + 1);
    ArrivalKeepsBooks(s.ledger);
    FailedLaunchKeeps(l, m, e.kind.openError);
    AdmitKeepsBooks(l, m);
    CompleteKeepsBooks(Admit(l, m).(leaked := l.leaked + 1), m, e.kind.openError);
  }

  /** Every such step is felt: if the user answers next, a message is completed twice. */
  lemma LossIsFelt(s: Server, e: Event, code: int, job: JobStart, indicatorOk: bool)
    requires Inv(s) && Enabled(s.screen, e) && LosesTrack(s.screen, e)
    ensures var t := Step(s, e);
            Enabled(t.screen, Response(code, job, indicatorOk))
            && !NoneTwice(Step(t, Response(code, job, indicatorOk)).ledger.log)
  {
    hide NoneTwice;
    LossAdrift(s, e);
    AdriftAnswered(Step(s, e), code, job, indicatorOk);
  }

  /** What a step makes of a screen on which an alert is shown. */
  lemma AlertScreen(s: Server, e: Event)
    requires !StoresMessage(e)
    ensures var c, t := s.screen, Step(s, e).screen;
            && (IsAlert(t.shown) ==> IsAlert(c.shown))
            && (LosesTrack(c, e) && !c.queryNote ==> t.shown == c.shown)
            && (IsAlert(c.shown) && !c.queryNote ==> !t.queryNote && t.shown != Query)
            && (!e.CloseTimer? ==> t.running == c.running)
  {
    hide LedgerDispatch;
    hide LedgerResponse;
    hide Complete;
    hide QueryAnswered;
    hide AlertAnswered;
    hide ConnectAnswered;
    hide DismissDialog;
    hide ShowConnectAgain;
    hide StopServer;
    match e
    case Request(_, _) =>
    case Response(_, _, _) =>
    case _ =>
  }

  /** A dispatched request that stores no message completes its own, and nothing else. */
  lemma OtherDispatch(l: Ledger, m: nat, kind: RequestKind)
    requires !Stores(kind) && !Fails(kind)
    ensures var t := LedgerDispatch(l, false, m, kind);
            t.message == l.message && |t.log| == |l.log| + 1 && t.log == l.log + [(m, t.log[|l.log|].1)]
  {
  }

  /** A dispatched request stores its own message, or the completed one stays stored. */
  lemma AdriftDispatch(l: Ledger, m: nat, kind: RequestKind)
    requires Books(l) && Counted(l) && m < l.next && !IsCompleted(l.log, m) && m !in l.open
    requires l.message.Some? && IsCompleted(l.log, l.message.value) && !Fails(kind)
    ensures var t := LedgerDispatch(l, false, m, kind);
            && Books(t) && Counted(t)
            && (if Stores(kind) then StoredOpen(t) else t.message == l.message && IsCompleted(t.log, t.message.value))
  {
    hide NoneTwice;
    hide IsCompleted;
    hide Books;
    hide Counted;
    hide StoredOpen;
    LedgerDispatchKeeps(l, false, m, kind);
    hide LedgerDispatch;
    if !Stores(kind) {
      OtherDispatch(l, m, kind);
      GrownLog(l.log, m, LedgerDispatch(l, false, m, kind).log[|l.log|].1);
    }
  }

  /** What a request makes of the ledger then. */
  lemma AdriftRequest(s: Server, kind: RequestKind, permitted: bool)
    requires Adrift(s) && s.screen.running && !LosesTrack(s.screen, Request(kind, permitted))
    ensures var t := Step(s, Request(kind, permitted)).ledger;
            && Books(t) && Counted(t)
            && (if permitted && Stores(kind) then StoredOpen(t)
                else t.message == s.ledger.message && IsCompleted(t.log, t.message.value))
  {
    hide NoneTwice;
    hide IsCompleted;
    hide ScreenDispatch;
    var m, l := s.ledger.next, s.ledger.(next := s.ledger.next + 1);
    ArrivalKeepsBooks(s.ledger);
    assert Books(l) && Counted(l);
    hide Books;
    hide Counted;
    hide LedgerDispatch;
    hide Stores;
    hide StoredOpen;
    if permitted {
      AdriftDispatch(l, m, kind);
    } else {
      CompleteOtherKeeps(l, m, ERR_ACCESS_DENIED);
      GrownLog(l.log, m, ERR_ACCESS_DENIED);
    }
  }

  /** Events other than requests and answers change no message. */
  lemma OtherLedger(s: Server, e: Event)
    requires !e.Request? && !e.Response?
    ensures Step(s, e).ledger == if e.CloseTimer? then s.ledger.(sessionCount := 0) else s.ledger
  {
  }

  /** What a step makes of the screen then. */
  lemma AdriftScreen(s: Server, e: Event)
    requires IsAlert(s.screen.shown) && !s.screen.queryNote && !e.Response?
    ensures var t := Step(s, e).screen;
            && FlagRight(t)
            && (!StoresMessage(e) ==> !t.queryNote)
            && (if e.CloseTimer? then !t.running else t.running == s.screen.running)
  {
    hide LedgerDispatch;
    if !StoresMessage(e) {
      AlertScreen(s, e);
    }
  }

  /** An adrift server stays so until the alert goes, or another message is stored. */
  lemma AdriftStep(s: Server, e: Event)
    requires Adrift(s) && Enabled(s.screen, e) && !e.Response?
    ensures var t := Step(s, e);
            if !StoresMessage(e) && IsAlert(t.screen.shown) then Adrift(t) else Inv(t)
  {
    hide NoneTwice;
    hide IsCompleted;
    hide Step;
    if LosesTrack(s.screen, e) {
      LossAdrift(s, e);
      AlertScreen(s, e);
    } else {
      if e.Request? {
        AdriftRequest(s, e.kind, e.permitted);
      } else {
        OtherLedger(s, e);
      }
      AdriftScreen(s, e);
    }
  }

  /** The state after the first `k` events. */
  function At(es: seq<Event>, k: nat): Server
    requires k <= |es|
  {
    RunAll(INITIAL, es[..k])
  }

  /** Every event can happen in its turn. */
  predicate Possible(es: seq<Event>) {
    forall k :: 0 <= k < |es| ==> Enabled(At(es, k).screen, es[k])
  }

  /** One of the first `k` events has lost track of a message, and none has been stored since. */
  predicate LossBefore(es: seq<Event>, k: nat)
    requires k <= |es|
  {
    exists i :: 0 <= i < k && LosesTrack(At(es, i).screen, es[i]) && NoneStored(es, i + 1, k)
  }

  /** An alert is shown after `k` events; before, one of the events has lost track of a message, and
      no message has been stored since. */
  predicate Lost(es: seq<Event>, k: nat)
    requires k <= |es|
  {
    IsAlert(At(es, k).screen.shown) && LossBefore(es, k)
  }

  predicate NoneStored(es: seq<Event>, i: nat, k: nat)
    requires k <= |es|
  {
    forall j :: i <= j < k ==> !StoresMessage(es[j])
  }

  lemma {:induction false} RunLast(s: Server, es: seq<Event>, e: Event)
    ensures RunAll(s, es + [e]) == Step(RunAll(s, es), e)
    decreases |es|
  {
    hide Step;
    if es == [] {
      assert (es + [e])[1..] == [];
    } else {
      assert (es + [e])[1..] == es[1..] + [e];
      RunLast(Step(s, es[0]), es[1..], e);
    }
  }

  lemma AtNext(es: seq<Event>, k: nat)
    requires k < |es|
    ensures At(es, k + 1) == Step(At(es, k), es[k])
  {
    hide Step;
    assert es[..k + 1] == es[..k] + [es[k]];
    RunLast(INITIAL, es[..k], es[k]);
  }

  /** How the last event changes whether track is lost. */
  lemma LostNext(es: seq<Event>, k: nat)
    requires k < |es| && FlagRight(At(es, k).screen)
    ensures var e := es[k];
            Lost(es, k + 1) <==>
            LosesTrack(At(es, k).screen, e)
            || (Lost(es, k) && !StoresMessage(e) && IsAlert(At(es, k + 1).screen.shown))
  {
    AtNext(es, k);
    var e, c := es[k], At(es, k).screen;
    if !StoresMessage(e) {
      AlertScreen(At(es, k), e);
    }
    assert LosesTrack(c, e) ==> !StoresMessage(e) && !c.queryNote;
    hide At;
    hide Step;
    hide StoresMessage;
    LossesNext(es, k);
  }

  lemma LossesNext(es: seq<Event>, k: nat)
    requires k < |es|
    ensures LossBefore(es, k + 1) <==>
            LosesTrack(At(es, k).screen, es[k]) || (LossBefore(es, k) && !StoresMessage(es[k]))
  {
    hide At;
    hide LosesTrack;
    hide StoresMessage;
    if LossBefore(es, k + 1) {
      var i :| 0 <= i < k + 1 && LosesTrack(At(es, i).screen, es[i]) && NoneStored(es, i + 1, k + 1);
      assert i < k ==> NoneStored(es, i + 1, k) && !StoresMessage(es[k]);
    }
    if LossBefore(es, k) && !StoresMessage(es[k]) {
      var i :| 0 <= i < k && LosesTrack(At(es, i).screen, es[i]) && NoneStored(es, i + 1, k);
      assert NoneStored(es, i + 1, k + 1);
    }
    if LosesTrack(At(es, k).screen, es[k]) {
      assert NoneStored(es, k + 1, k + 1);
    }
  }

  /** The alert is answered while track is lost. */
  predicate LostAnswer(es: seq<Event>, k: nat)
    requires k < |es|
  {
    es[k].Response? && Lost(es, k)
  }

  predicate Answered(es: seq<Event>, k: nat)
    requires k <= |es|
  {
    exists j :: 0 <= j < k && LostAnswer(es, j)
  }

  lemma AnsweredNext(es: seq<Event>, k: nat)
    requires k < |es|
    ensures Answered(es, k + 1) <==> Answered(es, k) || LostAnswer(es, k)
  {
    hide LostAnswer;
    if Answered(es, k) {
      var j :| 0 <= j < k && LostAnswer(es, j);
      assert j < k + 1 && LostAnswer(es, j);
    }
  }

  /** Until an alert is answered while track is lost, the state is sound or adrift; then a message
      has been completed twice. */
  lemma {:induction false} RunClassified(es: seq<Event>, k: nat)
    requires Possible(es) && k <= |es|
    ensures if Answered(es, k) then !NoneTwice(At(es, k).ledger.log)
            else if Lost(es, k) then Adrift(At(es, k))
            else Inv(At(es, k))
  {
    hide At;
    hide Inv;
    hide Adrift;
    hide Lost;
    hide Answered;
    hide NoneTwice;
    hide Enabled;
    if k == 0 {
      RunStarts(es);
    } else {
      RunClassified(es, k - 1);
      AnsweredNext(es, k - 1);
      ClassifiedStep(es, k - 1);
    }
  }

  lemma RunStarts(es: seq<Event>)
    ensures !Answered(es, 0) && !Lost(es, 0) && Inv(At(es, 0))
  {
  }

  lemma ClassifiedStep(es: seq<Event>, k: nat)
    requires k < |es| && Enabled(At(es, k).screen, es[k])
    ensures var s, t := At(es, k), At(es, k + 1);
            && (!NoneTwice(s.ledger.log) ==> !NoneTwice(t.ledger.log))
            && (Lost(es, k) && Adrift(s) ==>
                  if LostAnswer(es, k) then !NoneTwice(t.ledger.log)
                  else if Lost(es, k + 1) then Adrift(t) else Inv(t))
            && (!Lost(es, k) && Inv(s) ==> if Lost(es, k + 1) then Adrift(t) else Inv(t))
  {
    AtNext(es, k);
    var s, t, e := At(es, k), At(es, k + 1), es[k];
    hide At;
    hide Step;
    hide NoneTwice;
    hide Books;
    hide Lost;
    hide IsCompleted;
    if !NoneTwice(s.ledger.log) {
      TwiceForever(s, e);
    }
    if Lost(es, k) && Adrift(s) {
      LostNext(es, k);
      if e.Response? {
        AnswerAdrift(s, e);
      } else {
        AdriftStep(s, e);
        if LosesTrack(s.screen, e) {
          LosesTrackKeepsAlert(s, e);
        }
      }
    }
    if !Lost(es, k) && Inv(s) {
      LostNext(es, k);
      StepKeepsIff(s, e);
      if LosesTrack(s.screen, e) {
        LossAdrift(s, e);
      }
    }
  }

  lemma AnswerAdrift(s: Server, e: Event)
    requires Adrift(s) && e.Response?
    ensures !NoneTwice(Step(s, e).ledger.log)
  {
    hide NoneTwice;
    AdriftAnswered(s, e.code, e.job, e.indicatorOk);
  }

  lemma LosesTrackKeepsAlert(s: Server, e: Event)
    requires Adrift(s) && LosesTrack(s.screen, e)
    ensures IsAlert(Step(s, e).screen.shown) && !StoresMessage(e)
  {
    AlertScreen(s, e);
  }

  /** Exactly when a run completes no message twice: no alert is answered after a step that lost
      track of a message, unless another message has been stored in between. */
  lemma NoneTwiceIff(es: seq<Event>)
    requires Possible(es)
    ensures NoneTwice(RunAll(INITIAL, es).ledger.log) <==> !exists k :: 0 <= k < |es| && LostAnswer(es, k)
  {
    hide NoneTwice;
    RunClassified(es, |es|);
    assert es[..|es|] == es;
  }

  /** In every run of requests, answers, job events and cancels without such an answer no message is
      completed twice; while the question is shown its message is open, and while an alert is shown
      exactly unless track is lost; and while the server runs, the pending count is the number of
      admitted messages that are open, and of the requests of the run that failed on the way to their
      dialog. */
  lemma NeverTwice(es: seq<Event>)
    requires Possible(es) && !exists k :: 0 <= k < |es| && LostAnswer(es, k)
    ensures var s := RunAll(INITIAL, es);
            && NoneTwice(s.ledger.log)
            && (s.screen.shown == Query ==> StoredOpen(s.ledger))
            && (IsAlert(s.screen.shown) ==> (StoredOpen(s.ledger) <==> !Lost(es, |es|)))
            && (s.screen.running ==>
                  s.ledger.sessionCount == |s.ledger.open| + FailedLaunches(INITIAL, es))
  {
    hide NoneTwice;
    hide Lost;
    RunClassified(es, |es|);
    assert es[..|es|] == es;
    LeakedIsFailed(INITIAL, es);
  }

  /** A failed launch keeps the server alive: from then on, as long as no alert is answered with track
      lost, the pending count stays above zero, so that no session that ends asks the server to stop. */
  lemma FailedLaunchKeepsServer(es: seq<Event>)
    requires Possible(es) && !exists k :: 0 <= k < |es| && LostAnswer(es, k)
    ensures var s := RunAll(INITIAL, es);
            s.screen.running && FailedLaunches(INITIAL, es) > 0 ==> Step(s, SessionEnds) == s
  {
    NeverTwice(es);
  }

  // ------------------------------------------------------------------------------------------
  // Which answer reaches which message
  // ------------------------------------------------------------------------------------------

  /** What a request gets at once: a refusal, a busy answer, the error of a failed launch, or success;
      only the three kinds that put up a dialog are not answered yet, and a cancel also answers the
      pending question. */
  lemma RequestIsAnswered(s: Server, kind: RequestKind, permitted: bool)
    ensures var (l, t, m) := (s.ledger, Step(s, Request(kind, permitted)).ledger, s.ledger.next);
            && t.next == m + 1
            && (!permitted ==> t.log == l.log + [(m, -46)])
            && (permitted && s.screen.queryNote && kind != CancelServerAlert ==> t.log == l.log + [(m, -16)])
            && (permitted && s.screen.queryNote && kind == CancelServerAlert && l.message.Some? ==>
                  t.log == l.log + [(l.message.value, -3)] + [(m, 0)] && t.sessionCount == l.sessionCount - 1)
            && (permitted && !s.screen.queryNote ==>
                  match kind
                  case ServerAlert(silent, profileOk, openError) =>
                    if silent then t.log == l.log + [(m, 0)]
                    else if profileOk then t == Admit(l.(next := m + 1), m)
                    else t.log == l.log + [(m, openError)]
                  case DisplayAlert => t == Admit(l.(next := m + 1), m)
                  case ConfirmationAlert => t == Admit(l.(next := m + 1), m)
                  case UnknownRequest => t.log == l.log + [(m, -6)]
                  case _ => t.log == l.log + [(m, 0)])
  {
    hide ScreenDispatch;
  }

  /** Which code an answer of the user sends to the stored message, if it sends any. */
  predicate Sends(shown: Dialog, code: int, job: JobStart, sent: int) {
    || (shown == ConfirmAlert && sent == code)
    || (shown == InfoAlert && sent == ERR_NONE)
    || (shown == Query && code != ACCEPTED && sent == ERR_CANCEL)
    || (shown == Query && code == ACCEPTED && job == Started && sent == ERR_NONE)
  }

  predicate SendsNothing(shown: Dialog, code: int, job: JobStart) {
    shown == NoDialog || shown == Connect || (shown == Query && code == ACCEPTED && job != Started)
  }

  /** An answer to an alert or to the question completes the stored message, and no other, with the
      user's own code for a confirmation; the question's message stays open as long as the job of an
      accepted session cannot be started. */
  lemma AnswerIsSent(s: Server, m: nat, code: int, job: JobStart, indicatorOk: bool)
    requires s.ledger.message == Some(m)
    ensures var t := Step(s, Response(code, job, indicatorOk)).ledger;
            && (forall sent :: Sends(s.screen.shown, code, job, sent) ==>
                  t.log == s.ledger.log + [(m, sent)] && t.sessionCount == s.ledger.sessionCount - 1)
            && (SendsNothing(s.screen.shown, code, job) ==> t == s.ledger)
            && (SendsNothing(s.screen.shown, code, job) <==> !exists sent :: Sends(s.screen.shown, code, job, sent))
  {
    hide ScreenResponse;
    var d := s.screen.shown;
    if !SendsNothing(d, code, job) {
      assert Sends(d, code, job, if d == ConfirmAlert then code else if d == Query && code != ACCEPTED then ERR_CANCEL
                                 else ERR_NONE);
    }
  }

  /** The dialog that a request asks for. */
  function DialogOf(kind: RequestKind): Dialog {
    match kind
    case ServerAlert(_, _, _) => Query
    case DisplayAlert => InfoAlert
    case ConfirmationAlert => ConfirmAlert
    case _ => NoDialog
  }

  /** Event `i` has put up the dialog that is shown after `k` events, and its message is stored. */
  predicate ShownBy(es: seq<Event>, i: nat, k: nat)
    requires i < k <= |es|
  {
    && StoresMessage(es[i]) && DialogOf(es[i].kind) == At(es, k).screen.shown
    && At(es, k).ledger.message == Some(At(es, i).ledger.next)
  }

  lemma DispatchedMessage(l: Ledger, queryNote: bool, m: nat, kind: RequestKind)
    ensures LedgerDispatch(l, queryNote, m, kind).message == if Stores(kind) || Fails(kind) then Some(m) else l.message
  {
  }

  lemma DispatchedDialog(c: Screen, kind: RequestKind)
    requires FlagRight(c)
    ensures var t := ScreenDispatch(c, kind);
            if Stores(kind) then t.shown == DialogOf(kind)
            else t.shown == c.shown || t.shown in {NoDialog, Connect}
  {
    hide DismissDialog;
    hide ShowConnectAgain;
  }

  /** A question or an alert stays shown, with its message, or has just been put up. */
  lemma ShownStep(s: Server, e: Event)
    requires FlagRight(s.screen) && !LosesTrack(s.screen, e)
    ensures var t := Step(s, e);
            t.screen.shown in {Query, InfoAlert, ConfirmAlert} ==>
              || (StoresMessage(e) && !s.screen.queryNote
                  && t.screen.shown == DialogOf(e.kind) && t.ledger.message == Some(s.ledger.next))
              || ((StoresMessage(e) ==> s.screen.queryNote)
                  && t.screen.shown == s.screen.shown && t.ledger.message == s.ledger.message)
  {
    match e
    case Request(kind, permitted) =>
      var m, l, c := s.ledger.next, s.ledger.(next := s.ledger.next + 1), s.screen.(closing := false);
      DispatchedMessage(l, c.queryNote, m, kind);
      DispatchedDialog(c, kind);
      hide LedgerDispatch;
      hide ScreenDispatch;
      hide DialogOf;
      hide Stores;
      hide Fails;
    case _ => ShownAfterOther(s, e);
  }

  /** Answers and the other events put up no question and no alert. */
  lemma ShownAfterOther(s: Server, e: Event)
    requires !e.Request?
    ensures var t := Step(s, e);
            t.screen.shown in {NoDialog, Connect}
            || (t.screen.shown == s.screen.shown && t.ledger.message == s.ledger.message)
  {
    hide LedgerResponse;
    hide QueryAnswered;
    hide AlertAnswered;
    hide ConnectAnswered;
    hide DismissDialog;
    hide ShowConnectAgain;
    hide StopServer;
  }

  /** The dialog that is shown after one more event was there before, or the event has put it up. */
  lemma AskerNext(es: seq<Event>, n: nat)
    requires n < |es| && FlagRight(At(es, n).screen) && !Lost(es, n + 1)
    requires At(es, n + 1).screen.shown in {Query, InfoAlert, ConfirmAlert}
    ensures ShownBy(es, n, n + 1)
            || (At(es, n).screen.shown == At(es, n + 1).screen.shown && !Lost(es, n)
                && At(es, n).ledger.message == At(es, n + 1).ledger.message)
  {
    AtNext(es, n);
    LostNext(es, n);
    hide At;
    hide Step;
    ShownStep(At(es, n), es[n]);
    assert FlagRight(At(es, n).screen) && At(es, n).screen.queryNote ==> !IsAlert(At(es, n).screen.shown);
    assert Lost(es, n) ==> IsAlert(At(es, n).screen.shown);
    hide LossBefore;
    hide LosesTrack;
    hide DialogOf;
    hide Stores;
  }

  /** Unless track is lost, the dialog on the screen is that of the stored message. */
  lemma {:induction false} ShownHasAsker(es: seq<Event>, k: nat) returns (i: nat)
    requires Possible(es) && k <= |es| && !Answered(es, k) && !Lost(es, k)
    requires At(es, k).screen.shown in {Query, InfoAlert, ConfirmAlert}
    ensures i < k && ShownBy(es, i, k)
  {
    RunStarts(es);
    var n := k - 1;
    AnsweredNext(es, n);
    RunClassified(es, n);
    assert FlagRight(At(es, n).screen);
    hide Possible;
    hide Inv;
    hide Adrift;
    hide Answered;
    hide Lost;
    AskerNext(es, n);
    if ShownBy(es, n, k) {
      i := n;
    } else {
      hide At;
      i := ShownHasAsker(es, n);
    }
  }

  /** Over every run: while no alert has been answered with track lost, the user's answer to a question
      or an alert completes the message of the request that put that dialog up, with the code of that
      answer, and no other message. */
  lemma AnswerReachesAsker(es: seq<Event>, k: nat) returns (i: nat)
    requires Possible(es) && k < |es| && !Answered(es, k) && !Lost(es, k) && es[k].Response?
    requires At(es, k).screen.shown in {Query, InfoAlert, ConfirmAlert}
    ensures i < k && ShownBy(es, i, k)
    ensures var s, t, m := At(es, k), At(es, k + 1), At(es, i).ledger.next;
            && (forall sent :: Sends(s.screen.shown, es[k].code, es[k].job, sent) ==>
                  t.ledger.log == s.ledger.log + [(m, sent)])
            && (SendsNothing(s.screen.shown, es[k].code, es[k].job) ==> t.ledger == s.ledger)
  {
    i := ShownHasAsker(es, k);
    AtNext(es, k);
    AnswerIsSent(At(es, k), At(es, i).ledger.next, es[k].code, es[k].job, es[k].indicatorOk);
  }

  /** While the question is shown, every permitted request but the cancel is answered as busy, and
      nothing else happens; a request that is not permitted is refused access. */
  lemma BusyWhileQuery(s: Server, kind: RequestKind, permitted: bool)
    requires Inv(s) && s.screen.running && s.screen.shown == Query && !(permitted && kind.CancelServerAlert?)
    ensures var t := Step(s, Request(kind, permitted));
            var code := if permitted then ERR_SERVER_BUSY else ERR_ACCESS_DENIED;
            && t.ledger == s.ledger.(next := s.ledger.next + 1, log := s.ledger.log + [(s.ledger.next, code)])
            && t.screen == s.screen.(closing := s.screen.closing && !permitted)
  {
    ArrivalKeepsBooks(s.ledger);
    assert s.ledger.open - {s.ledger.next} == s.ledger.open;
  }

  /** Without that restriction a message can be completed twice: an alert is shown, a session whose
      profile cannot be opened is asked for, and the user answers the alert. */
  lemma CompletedTwice(openError: int)
    ensures var es := [Request(DisplayAlert, true), Request(ServerAlert(false, false, openError), true),
                       Response(0, Started, false)];
            var s := RunAll(INITIAL, es);
            s.ledger.log == [(1, openError), (1, ERR_NONE)] && !NoneTwice(s.ledger.log)
  {
    var a, b, c := Request(DisplayAlert, true), Request(ServerAlert(false, false, openError), true),
                   Response(0, Started, false);
    var s1 := Step(INITIAL, a);
    var s2 := Step(s1, b);
    var s3 := Step(s2, c);
    assert [a, b, c][1..] == [b, c] && [b, c][1..] == [c] && [c][1..] == [];
    assert s3.ledger.log == [(1, openError), (1, ERR_NONE)];
    assert s3.ledger.log[0].0 == s3.ledger.log[1].0;
    assert RunAll(s2, [c]) == RunAll(s3, []) == s3;
    assert RunAll(s1, [b, c]) == s3;
  }
}
