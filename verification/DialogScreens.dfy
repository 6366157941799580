/** Which dialog follows which, and when the device dialog server closes. */
module DialogScreens {
  import opened Common
  import opened DeviceDialog

  /** The dialogs and flags after an event; the messages matter only to a session that ends. */
  function NextScreen(c: Screen, e: Event, pending: bool): Screen {
    match e
    case Request(kind, permitted) =>
      if !permitted then c
      else if c.queryNote && !kind.CancelServerAlert? then c.(closing := false)
      else ScreenDispatch(c.(closing := false), kind)
    case Response(code, job, indicatorOk) => ScreenResponse(c, code, job, indicatorOk)
    case JobStopped => StopServer(DismissDialog(c.(jobOngoing := false)))
    case IndicatorActivated => ShowConnectAgain(c.(indicator := false))
    case SessionEnds => if pending then c else StopServer(c)
    case CloseTimer => c.(running := false, closing := false)
  }

  lemma ScreenOf(s: Server, e: Event)
    ensures Step(s, e).screen == NextScreen(s.screen, e, s.ledger.sessionCount > 0)
  {
    hide LedgerDispatch;
    hide LedgerResponse;
    hide ScreenDispatch;
    hide ScreenResponse;
    hide StopServer;
    hide DismissDialog;
    hide ShowConnectAgain;
  }

  lemma StopFields(c: Screen)
    ensures var t := StopServer(c);
            && t.shown == c.shown && t.anyDialog == c.anyDialog && t.queryNote == c.queryNote
            && t.indicator == c.indicator && t.indicatorMade == c.indicatorMade && t.jobOngoing == c.jobOngoing
            && t.running == c.running
            && (t.connectNote <==> c.connectNote && (c.stopServer || c.jobOngoing))
            && (t.stopServer <==> c.stopServer || !c.jobOngoing)
            && (t.closing <==> c.closing || (!c.stopServer && !c.jobOngoing))
  {
  }

  lemma DismissFields(c: Screen)
    ensures var t := DismissDialog(c);
            && t.queryNote == c.queryNote && t.indicatorMade == c.indicatorMade && t.jobOngoing == c.jobOngoing
            && t.stopServer == c.stopServer && t.closing == c.closing && t.running == c.running
            && t.shown == (if c.connectNote && !c.indicator then NoDialog else c.shown)
            && (t.anyDialog <==> c.anyDialog && !(c.connectNote && !c.indicator))
            && (t.connectNote <==> c.connectNote && c.indicator) && !t.indicator
  {
  }

  lemma AgainFields(c: Screen)
    ensures var t := ShowConnectAgain(c);
            var again := c.jobOngoing && !c.indicator && !c.connectNote;
            && t.queryNote == c.queryNote && t.indicator == c.indicator && t.indicatorMade == c.indicatorMade
            && t.jobOngoing == c.jobOngoing && t.stopServer == c.stopServer && t.closing == c.closing
            && t.running == c.running
            && t.shown == (if again then Connect else c.shown)
            && (t.anyDialog <==> c.anyDialog || again) && (t.connectNote <==> c.connectNote || again)
  {
  }

  /** The request is neither refused nor answered as busy. */
  predicate Dispatched(c: Screen, e: Event) {
    e.Request? && e.permitted && (c.queryNote ==> e.kind.CancelServerAlert?)
  }

  predicate DispatchedStoring(c: Screen, e: Event) {
    Dispatched(c, e) && Stores(e.kind)
  }

  /** The user accepts the session. */
  predicate Accepts(c: Screen, e: Event) {
    e.Response? && c.shown == Query && e.code == ACCEPTED
  }

  /** The connection dialog comes up: for an accepted session, and again while its job goes on, without
      an indicator in its place. */
  predicate OpensConnection(c: Screen, e: Event) {
    || Accepts(c, e)
    || (c.jobOngoing && !c.connectNote
        && (e.IndicatorActivated?
            || (!c.indicator
                && ((e.Response? && IsAlert(c.shown)) || (Dispatched(c, e) && e.kind.ConnectNoteShowAgain?)))))
  }

  /** The connection dialog is taken down, and with it whatever is shown in its place. */
  predicate DismissesConnection(c: Screen, e: Event) {
    c.connectNote && !c.indicator && (e.JobStopped? || (Dispatched(c, e) && e.kind.ConnectNoteDismiss?))
  }

  /** The user hides the connection dialog behind the indicator. */
  predicate Hides(c: Screen, e: Event) {
    e.Response? && c.shown == Connect && e.code != ERR_CANCEL && e.indicatorOk
  }

  /** The events after which the server has nothing more to do. */
  predicate AsksToClose(c: Screen, e: Event, pending: bool) {
    match e
    case Response(code, _, _) =>
      || (c.shown == Query && code != ACCEPTED)
      || (IsAlert(c.shown) && !c.jobOngoing)
      || (c.shown == Connect && code == ERR_CANCEL)
    case JobStopped => true
    case SessionEnds => !pending
    case _ => false
  }

  /** The server is asked to close by such an event without a job, and only once. */
  predicate Closes(c: Screen, e: Event, pending: bool) {
    AsksToClose(c, e, pending) && !c.stopServer && (!e.JobStopped? ==> !c.jobOngoing)
  }

  /** What an event makes of the screen: which dialog is shown, which flags are set, whether a job goes on,
      and whether the server is to close.  A permitted request takes the closing back. */
  ghost predicate Follows(c: Screen, e: Event, pending: bool, t: Screen) {
    && t.shown == (if DispatchedStoring(c, e) then DialogOf(e.kind)
                   else if OpensConnection(c, e) then Connect
                   else if DismissesConnection(c, e) || e.Response? || (c.queryNote && Dispatched(c, e)) then NoDialog
                   else c.shown)
    && (t.anyDialog <==>
          DispatchedStoring(c, e) || OpensConnection(c, e)
          || (c.anyDialog && !e.Response? && !DismissesConnection(c, e)))
    && (t.queryNote <==>
          (DispatchedStoring(c, e) && e.kind.ServerAlert?)
          || (c.queryNote && !Dispatched(c, e)
              && (e.Response? && c.shown == Query ==> Accepts(c, e) && !e.job.Started?)))
    && (t.connectNote <==>
          OpensConnection(c, e)
          || (c.connectNote && !DismissesConnection(c, e) && !(e.Response? && c.shown == Connect)
              && !Closes(c, e, pending)))
    && (t.indicator <==>
          Hides(c, e)
          || (c.indicator && !e.JobStopped? && !e.IndicatorActivated?
              && !(c.connectNote && Dispatched(c, e) && e.kind.ConnectNoteDismiss?)
              && !(e.Response? && c.shown == Connect && e.code == ERR_CANCEL)))
    && (t.indicatorMade <==> c.indicatorMade || Hides(c, e))
    && (t.jobOngoing <==> (Accepts(c, e) && !e.job.OpenFails?) || (c.jobOngoing && !e.JobStopped?))
    && (t.stopServer <==> c.stopServer || Closes(c, e, pending))
    && (t.closing <==>
          Closes(c, e, pending) || (c.closing && !e.CloseTimer? && !(e.Request? && e.permitted)))
    && (t.running <==> !e.CloseTimer?)
  }

  /** Exactly what every event makes of the dialogs. */
  lemma ScreenFollows(s: Server, e: Event)
    requires Enabled(s.screen, e)
    ensures Follows(s.screen, e, s.ledger.sessionCount > 0, Step(s, e).screen)
  {
    var c, pending := s.screen, s.ledger.sessionCount > 0;
    ScreenOf(s, e);
    hide Step;
    match e
    case Request(_, _) => RequestFollows(c, e, pending);
    case Response(_, _, _) => ResponseFollows(c, e, pending);
    case JobStopped => JobStoppedFollows(c, e, pending);
    case _ => OtherFollows(c, e, pending);
  }

  lemma RequestFollows(c: Screen, e: Event, pending: bool)
    requires Enabled(c, e) && e.Request?
    ensures Follows(c, e, pending, NextScreen(c, e, pending))
  {
    if !Dispatched(c, e) {
      RefusedFollows(c, e, pending);
    } else if Stores(e.kind) {
      StoringFollows(c, e, pending);
    } else if e.kind.ConnectNoteDismiss? {
      DismissFollows(c, e, pending);
    } else if e.kind.ConnectNoteShowAgain? {
      AgainFollows(c, e, pending);
    } else {
      DispatchFollows(c, e, pending);
    }
  }

  lemma RefusedFollows(c: Screen, e: Event, pending: bool)
    requires Enabled(c, e) && e.Request? && !Dispatched(c, e)
    ensures Follows(c, e, pending, NextScreen(c, e, pending))
  {
    hide ScreenDispatch;
    hide DialogOf;
    hide Stores;
  }

  lemma DismissFollows(c: Screen, e: Event, pending: bool)
    requires Enabled(c, e) && Dispatched(c, e) && e.kind.ConnectNoteDismiss?
    ensures Follows(c, e, pending, NextScreen(c, e, pending))
  {
    hide DismissDialog;
    DismissFields(c.(closing := false));
  }

  lemma AgainFollows(c: Screen, e: Event, pending: bool)
    requires Enabled(c, e) && Dispatched(c, e) && e.kind.ConnectNoteShowAgain?
    ensures Follows(c, e, pending, NextScreen(c, e, pending))
  {
    hide ShowConnectAgain;
    AgainFields(c.(closing := false));
  }

  lemma StoringFollows(c: Screen, e: Event, pending: bool)
    requires Enabled(c, e) && DispatchedStoring(c, e)
    ensures Follows(c, e, pending, NextScreen(c, e, pending))
  {
  }

  lemma DispatchFollows(c: Screen, e: Event, pending: bool)
    requires Enabled(c, e) && Dispatched(c, e)
    requires !Stores(e.kind) && !e.kind.ConnectNoteDismiss? && !e.kind.ConnectNoteShowAgain?
    ensures Follows(c, e, pending, NextScreen(c, e, pending))
  {
    hide ShowConnectAgain;
    hide DismissDialog;
    hide DialogOf;
  }

  lemma ResponseFollows(c: Screen, e: Event, pending: bool)
    requires Enabled(c, e) && e.Response?
    ensures Follows(c, e, pending, NextScreen(c, e, pending))
  {
    if Accepts(c, e) {
      AcceptFollows(c, e, pending);
    } else if c.shown == Query {
      DeclineFollows(c, e, pending);
    } else if IsAlert(c.shown) {
      AlertFollows(c, e, pending);
    } else if e.code == ERR_CANCEL {
      CancelFollows(c, e, pending);
    } else {
      HideFollows(c, e, pending);
    }
  }

  lemma AcceptFollows(c: Screen, e: Event, pending: bool)
    requires Enabled(c, e) && Accepts(c, e)
    ensures Follows(c, e, pending, NextScreen(c, e, pending))
  {
  }

  lemma DeclineFollows(c: Screen, e: Event, pending: bool)
    requires Enabled(c, e) && e.Response? && c.shown == Query && e.code != ACCEPTED
    ensures Follows(c, e, pending, NextScreen(c, e, pending))
  {
    hide StopServer;
    StopFields(c.(shown := NoDialog, anyDialog := false));
  }

  lemma AlertFollows(c: Screen, e: Event, pending: bool)
    requires Enabled(c, e) && e.Response? && IsAlert(c.shown)
    ensures Follows(c, e, pending, NextScreen(c, e, pending))
  {
    hide StopServer;
    hide ShowConnectAgain;
    StopFields(c.(shown := NoDialog, anyDialog := false));
    AgainFields(c.(shown := NoDialog, anyDialog := false));
  }

  lemma CancelFollows(c: Screen, e: Event, pending: bool)
    requires Enabled(c, e) && e.Response? && c.shown == Connect && e.code == ERR_CANCEL
    ensures Follows(c, e, pending, NextScreen(c, e, pending))
  {
    hide StopServer;
    hide DismissDialog;
    var t := c.(shown := NoDialog, anyDialog := false, connectNote := false);
    DismissFields(t);
    StopFields(DismissDialog(t));
  }

  lemma HideFollows(c: Screen, e: Event, pending: bool)
    requires Enabled(c, e) && e.Response? && c.shown == Connect && e.code != ERR_CANCEL
    ensures Follows(c, e, pending, NextScreen(c, e, pending))
  {
    hide StopServer;
    hide DismissDialog;
    hide QueryAnswered;
    hide AlertAnswered;
    assert !Accepts(c, e) && !OpensConnection(c, e) && !DispatchedStoring(c, e) && !Closes(c, e, pending);
    hide DialogOf;
    hide Stores;
  }

  lemma JobStoppedFollows(c: Screen, e: Event, pending: bool)
    requires Enabled(c, e) && e.JobStopped?
    ensures Follows(c, e, pending, NextScreen(c, e, pending))
  {
    hide StopServer;
    hide DismissDialog;
    DismissFields(c.(jobOngoing := false));
    StopFields(DismissDialog(c.(jobOngoing := false)));
  }

  lemma OtherFollows(c: Screen, e: Event, pending: bool)
    requires Enabled(c, e) && (e.IndicatorActivated? || e.SessionEnds? || e.CloseTimer?)
    ensures Follows(c, e, pending, NextScreen(c, e, pending))
  {
    hide StopServer;
    hide ShowConnectAgain;
    AgainFields(c.(indicator := false));
    StopFields(c);
  }

  /** A closing that has been taken back is never asked for again: the server then runs for ever. */
  lemma {:induction false} NeverCloses(es: seq<Event>, k: nat, n: nat)
    requires Possible(es) && k <= n <= |es|
    requires var c := At(es, k).screen; c.running && c.stopServer && !c.closing
    ensures var c := At(es, n).screen; c.running && c.stopServer && !c.closing
  {
    if k < n {
      NeverCloses(es, k, n - 1);
      AtNext(es, n - 1);
      assert Enabled(At(es, n - 1).screen, es[n - 1]);
      hide At;
      hide Step;
      ScreenFollows(At(es, n - 1), es[n - 1]);
    }
  }
}
