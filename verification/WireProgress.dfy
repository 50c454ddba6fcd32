/** The provider never hangs: whatever it is in the middle of can be brought to its
    end, and a query on a quiet connection can get its result. */
module WireProgress {
  import opened Bytes
  import opened Decimals
  import opened Multiplexer
  import opened MultiplexerSteps
  import opened MultiplexerInvariant
  import opened MultiplexerTheorems
  import opened MultiplexerRuns
  import opened WireDiscipline
  import opened WireRuns
  import opened WireOutcomes

  predicate AllReturned(s: State) {
    forall h | h in s.ops :: s.ops[h].phase.Done?
  }

  /** What waits for an operation waits for one there is, and `openMu` is held by the
      inquiry that says so. */
  ghost predicate Waits(y: System) {
    && (forall t | t in y.inquiries ::
          && (y.inquiries[t].phase.Opening? || y.inquiries[t].phase.Querying? ==> y.inquiries[t].phase.h in y.mux.ops)
          && (y.inquiries[t].phase.HoldsOpenLock() <==> y.openLock == Some(t)))
    && (forall c | c in y.closers ::
          y.closers[c].AwaitShutdown? || y.closers[c].AwaitExit? ==> y.closers[c].h in y.mux.ops)
    && (y.openLock.Some? ==> y.openLock.value in y.inquiries)
  }

  lemma AttainedWaits(y: System)
    requires Attained(y)
    ensures Waits(y)
  {
    var es :| Runs(START, es, y);
    OutcomesFromStart(es, y);
    forall t | t in y.inquiries
      ensures y.inquiries[t].phase.Opening? || y.inquiries[t].phase.Querying? ==> y.inquiries[t].phase.h in y.mux.ops
      ensures y.inquiries[t].phase.HoldsOpenLock() <==> y.openLock == Some(t)
    {
      assert InquiryInv(y, t) && AwaitsOwn(y, t);
    }
    forall c | c in y.closers
      ensures y.closers[c].AwaitShutdown? || y.closers[c].AwaitExit? ==> y.closers[c].h in y.mux.ops
    {
      assert CloserAwaitsOwn(y, c);
    }
  }

  /** All operations under way return, by timeouts if need be. */
  lemma OpsReturn(y: System) returns (y': System)
    requires Attained(y)
    ensures Attained(y') && Continues(y, y') && y' == y.(mux := y'.mux) && AllReturned(y'.mux)
  {
    AttainedReachable(y);
    var s := FinishFrom(y.mux, false);
    LeadsContinues(y, Course(false), s);
    y' := y.(mux := s);
    ContinuesAttained(y, y');
  }

  // ------------------------------------------------------------- inquiries

  function InquiryRank(phase: InquiryPhase): nat {
    match phase
    case WantOpen => 6
    case Checking => 5
    case Opening(_) => 4
    case Closing(_) => 3
    case Opened => 2
    case Querying(_) => 1
    case Finished(_) => 0
  }

  /** The next event of an inquiry whose operation, if any, has returned. A file that
      is not open is taken for unreadable. */
  function NextEvent(y: System, t: nat, h: nat): Event
    requires t in y.inquiries && !y.inquiries[t].phase.Finished?
  {
    match y.inquiries[t].phase
    case WantOpen => LockOpen(t)
    case Checking => if y.inquiries[t].file in y.openFiles then FindOpen(t) else FailRead(t)
    case Opening(_) => EndDidOpen(t)
    case Closing(_) => UnlockOpen(t)
    case Opened => SendQuery(t, h, "0")
    case Querying(_) => EndQuery(t)
  }

  /** Only the inquiry `t` has moved, and towards its end. */
  ghost predicate InquiryAdvanced(y: System, t: nat, y': System)
    requires t in y.inquiries
  {
    && t in y'.inquiries && y'.inquiries == y.inquiries[t := y'.inquiries[t]]
    && InquiryRank(y'.inquiries[t].phase) < InquiryRank(y.inquiries[t].phase)
    && y'.closers == y.closers && (y'.openLock == None || y'.openLock == Some(t))
  }

  lemma QuerySends(y: System, t: nat, h: nat)
    requires t in y.inquiries && y.inquiries[t].phase.Opened? && (y.openLock == None || y.openLock == Some(t))
    requires h !in y.mux.ops
    ensures var e := NextEvent(y, t, h); Allowed(y, e) && !Starts(e) && InquiryAdvanced(y, t, After(y, e))
  {
  }

  lemma NextEventMoves(y: System, t: nat, h: nat)
    requires Waits(y) && AllReturned(y.mux) && t in y.inquiries && !y.inquiries[t].phase.Finished?
    requires (y.openLock == None || y.openLock == Some(t)) && h !in y.mux.ops
    ensures var e := NextEvent(y, t, h); Allowed(y, e) && !Starts(e) && InquiryAdvanced(y, t, After(y, e))
  {
    if y.inquiries[t].phase.Opened? {
      QuerySends(y, t, h);
    }
  }

  lemma InquiryMovesOn(y: System, t: nat) returns (y': System)
    requires Attained(y) && AllReturned(y.mux) && t in y.inquiries && !y.inquiries[t].phase.Finished?
    requires y.openLock == None || y.openLock == Some(t)
    ensures Attained(y') && Continues(y, y') && AllReturned(y'.mux) && InquiryAdvanced(y, t, y')
  {
    AttainedWaits(y);
    var above := FreshHandle(y.mux.ops.Keys);
    var e := NextEvent(y, t, above);
    NextEventMoves(y, t, above);
    var m := After(y, e);
    ContinuesOne(y, e);
    ContinuesAttained(y, m);
    y' := OpsReturn(m);
    ContinuesOn(y, m, y');
  }

  lemma Replaced<T>(m: map<nat, T>, k: nat, first: T, last: T)
    ensures m[k := first][k := last] == m[k := last]
  {
  }

  lemma NothingToFinish(y: System, t: nat)
    requires Attained(y) && t in y.inquiries && y.inquiries[t].phase.Finished? && (y.openLock == None || y.openLock == Some(t))
    ensures y.openLock == None && Continues(y, y) && y.inquiries == y.inquiries[t := y.inquiries[t]]
  {
    AttainedWaits(y);
    ContinuesNowhere(y);
  }

  lemma {:induction false} FinishInquiry(y: System, t: nat) returns (y': System)
    requires Attained(y) && AllReturned(y.mux) && t in y.inquiries && (y.openLock == None || y.openLock == Some(t))
    ensures Attained(y') && Continues(y, y') && AllReturned(y'.mux) && y'.openLock == None && y'.closers == y.closers
    ensures t in y'.inquiries && y'.inquiries == y.inquiries[t := y'.inquiries[t]] && y'.inquiries[t].phase.Finished?
    decreases InquiryRank(y.inquiries[t].phase)
  {
    if y.inquiries[t].phase.Finished? {
      NothingToFinish(y, t);
      y' := y;
    } else {
      var m := InquiryMovesOn(y, t);
      y' := FinishInquiry(m, t);
      ContinuesOn(y, m, y');
      Replaced(y.inquiries, t, m.inquiries[t], y'.inquiries[t]);
    }
  }

  ghost function OpenInquiries(y: System): set<nat> {
    set t | t in y.inquiries && !y.inquiries[t].phase.Finished?
  }

  lemma NoneOpen(y: System)
    requires OpenInquiries(y) == {}
    ensures forall t | t in y.inquiries :: y.inquiries[t].phase.Finished?
  {
    assert forall t | t in y.inquiries :: t !in OpenInquiries(y);
  }

  lemma OneLess(y: System, t: nat, m: System)
    requires t in OpenInquiries(y) && t in m.inquiries && m.inquiries == y.inquiries[t := m.inquiries[t]]
    requires m.inquiries[t].phase.Finished?
    ensures OpenInquiries(m) == OpenInquiries(y) - {t} && m.inquiries.Keys == y.inquiries.Keys
  {
  }

  lemma {:induction false} FinishInquiries(y: System) returns (y': System)
    requires Attained(y) && AllReturned(y.mux) && y.openLock == None
    ensures Attained(y') && Continues(y, y') && AllReturned(y'.mux) && y'.closers == y.closers
    ensures y'.inquiries.Keys == y.inquiries.Keys && forall t | t in y'.inquiries :: y'.inquiries[t].phase.Finished?
    decreases OpenInquiries(y)
  {
    if OpenInquiries(y) == {} {
      NoneOpen(y);
      ContinuesNowhere(y);
      y' := y;
    } else {
      var t :| t in OpenInquiries(y);
      var m := FinishInquiry(y, t);
      OneLess(y, t, m);
      y' := FinishInquiries(m);
      ContinuesOn(y, m, y');
    }
  }

  // --------------------------------------------------------------- closers

  function CloserRank(closer: Closer): nat {
    match closer
    case AskShutdown => 5
    case AwaitShutdown(_) => 4
    case AskExit => 3
    case AwaitExit(_) => 2
    case AtTable => 1
    case Gone => 0
  }

  function NextOfCloser(y: System, c: nat, h: nat): Event
    requires c in y.closers && y.closers[c] != Gone
  {
    match y.closers[c]
    case AskShutdown => SendShutdown(c, h, "0")
    case AwaitShutdown(_) => EndShutdown(c)
    case AskExit => SendExit(c, h, "0")
    case AwaitExit(_) => EndExit(c)
    case AtTable => CloseTable(c)
  }

  ghost predicate CloserAdvanced(y: System, c: nat, y': System)
    requires c in y.closers
  {
    && c in y'.closers && y'.closers == y.closers[c := y'.closers[c]]
    && CloserRank(y'.closers[c]) < CloserRank(y.closers[c]) && y'.inquiries == y.inquiries
  }

  lemma CloserSends(y: System, c: nat, h: nat)
    requires c in y.closers && (y.closers[c].AskShutdown? || y.closers[c].AskExit?) && h !in y.mux.ops
    ensures var e := NextOfCloser(y, c, h); Allowed(y, e) && !Starts(e) && CloserAdvanced(y, c, After(y, e))
  {
  }

  lemma NextOfCloserMoves(y: System, c: nat, h: nat)
    requires Waits(y) && AllReturned(y.mux) && c in y.closers && y.closers[c] != Gone && h !in y.mux.ops
    ensures var e := NextOfCloser(y, c, h); Allowed(y, e) && !Starts(e) && CloserAdvanced(y, c, After(y, e))
  {
    if y.closers[c].AskShutdown? || y.closers[c].AskExit? {
      CloserSends(y, c, h);
    }
  }

  lemma CloserMovesOn(y: System, c: nat) returns (y': System)
    requires Attained(y) && AllReturned(y.mux) && c in y.closers && y.closers[c] != Gone
    ensures Attained(y') && Continues(y, y') && AllReturned(y'.mux) && CloserAdvanced(y, c, y')
  {
    AttainedWaits(y);
    var above := FreshHandle(y.mux.ops.Keys);
    var e := NextOfCloser(y, c, above);
    NextOfCloserMoves(y, c, above);
    var m := After(y, e);
    ContinuesOne(y, e);
    ContinuesAttained(y, m);
    y' := OpsReturn(m);
    ContinuesOn(y, m, y');
  }

  lemma {:induction false} FinishCloser(y: System, c: nat) returns (y': System)
    requires Attained(y) && AllReturned(y.mux) && c in y.closers
    ensures Attained(y') && Continues(y, y') && AllReturned(y'.mux) && y'.inquiries == y.inquiries
    ensures c in y'.closers && y'.closers == y.closers[c := Gone]
    decreases CloserRank(y.closers[c])
  {
    if y.closers[c] == Gone {
      ContinuesNowhere(y);
      y' := y;
      assert y.closers[c := Gone] == y.closers;
    } else {
      var m := CloserMovesOn(y, c);
      y' := FinishCloser(m, c);
      ContinuesOn(y, m, y');
      Replaced(y.closers, c, m.closers[c], Gone);
    }
  }

  ghost function OpenClosers(y: System): set<nat> {
    set c | c in y.closers && y.closers[c] != Gone
  }

  lemma {:induction false} FinishClosers(y: System) returns (y': System)
    requires Attained(y) && AllReturned(y.mux)
    ensures Attained(y') && Continues(y, y') && AllReturned(y'.mux) && y'.inquiries == y.inquiries
    ensures y'.closers.Keys == y.closers.Keys && forall c | c in y'.closers :: y'.closers[c] == Gone
    decreases OpenClosers(y)
  {
    if OpenClosers(y) == {} {
      assert forall c | c in y.closers :: c !in OpenClosers(y);
      ContinuesNowhere(y);
      y' := y;
    } else {
      var c :| c in OpenClosers(y);
      var m := FinishCloser(y, c);
      assert OpenClosers(m) == OpenClosers(y) - {c};
      y' := FinishClosers(m);
      ContinuesOn(y, m, y');
    }
  }

  // -------------------------------------------------------------- everything

  lemma LockFreed(y: System) returns (y': System)
    requires Attained(y) && AllReturned(y.mux)
    ensures Attained(y') && Continues(y, y') && AllReturned(y'.mux) && y'.openLock == None
    ensures y'.closers == y.closers && y'.inquiries.Keys == y.inquiries.Keys
  {
    AttainedWaits(y);
    if y.openLock.Some? {
      y' := FinishInquiry(y, y.openLock.value);
    } else {
      ContinuesNowhere(y);
      y' := y;
    }
  }

  /** There is no deadlock: from every state of every run, with nothing new begun, all
      operations and all queries can return and all `Close` calls can get through
      the pending table. */
  lemma EverythingReturns(es: seq<Event>, y: System)
    requires Runs(START, es, y)
    ensures exists y' :: Continues(y, y') && AllReturned(y'.mux)
                         && y'.inquiries.Keys == y.inquiries.Keys && y'.closers.Keys == y.closers.Keys
                         && (forall t | t in y'.inquiries :: y'.inquiries[t].phase.Finished?)
                         && (forall c | c in y'.closers :: y'.closers[c] == Gone)
  {
    var a := OpsReturn(y);
    var b := LockFreed(a);
    ContinuesOn(y, a, b);
    var c := FinishInquiries(b);
    ContinuesOn(y, b, c);
    var d := FinishClosers(c);
    ContinuesOn(y, c, d);
  }
}
