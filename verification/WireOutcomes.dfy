/** What the provider makes of the outcome of its messages: it serves only after a
    handshake that went well, and a query returns only a result that the server
    sent for it. */
module WireOutcomes {
  import opened Bytes
  import opened Decimals
  import opened Multiplexer
  import opened MultiplexerSteps
  import opened MultiplexerInvariant
  import opened MultiplexerTheorems
  import opened WireDiscipline

  // ----------------------------------------------------------- good outcomes

  /** The call `h` has returned the result in frame `i`: a response to its own id
      that is no error. */
  predicate AnsweredWell(s: State, h: nat, i: nat) {
    && h in s.ops && s.ops[h].kind.Request? && s.ops[h].phase == Done(Replied(i))
    && i < |s.taken| && s.taken[i].Incoming? && s.taken[i].methodName == ""
    && s.taken[i].id == Decimal(s.ops[h].kind.id) && !s.taken[i].isError
  }

  predicate Tagged(s: State, h: nat, tag: Tag) {
    h in s.ops && s.ops[h].msg.tag == tag
  }

  /** `initialize` was answered with a result. */
  ghost predicate InitializeAnswered(s: State) {
    exists h, i :: Tagged(s, h, Initialize) && AnsweredWell(s, h, i)
  }

  /** `initialized` was sent. */
  ghost predicate InitializedSent(s: State) {
    exists h :: Tagged(s, h, Initialized) && s.ops[h].phase == Done(Sent)
  }

  /** The result in frame `i` answers a query with this method for this file. */
  ghost predicate QueryAnswered(s: State, methodName: Text, file: Text, i: nat) {
    exists h :: Tagged(s, h, Query(methodName, file)) && AnsweredWell(s, h, i)
  }

  // --------------------------------------------------------------- invariant

  predicate OfCall(tag: Tag) {
    tag.Initialize? || tag.Query? || tag.Shutdown?
  }

  predicate OfNotice(tag: Tag) {
    tag.Initialized? || tag.DidOpen? || tag.Exit?
  }

  ghost predicate KindsInv(s: State) {
    forall h | h in s.ops ::
      && (OfCall(s.ops[h].msg.tag) ==> !s.ops[h].kind.Notice?)
      && (OfNotice(s.ops[h].msg.tag) ==> s.ops[h].kind.Notice?)
  }

  ghost predicate AwaitsOwn(y: System, t: nat)
    requires t in y.inquiries
  {
    var q := y.inquiries[t];
    && (q.phase.Querying? ==> Tagged(y.mux, q.phase.h, Query(q.methodName, q.file)))
    && (q.phase.Finished? && q.phase.frame.Some? ==> QueryAnswered(y.mux, q.methodName, q.file, q.phase.frame.value))
  }

  predicate CloserAwaitsOwn(y: System, c: nat)
    requires c in y.closers
  {
    && (y.closers[c].AwaitShutdown? ==> Tagged(y.mux, y.closers[c].h, Shutdown))
    && (y.closers[c].AwaitExit? ==> Tagged(y.mux, y.closers[c].h, Exit))
    && (y.closers[c].Gone? ==> y.mux.table.closed)
  }

  ghost predicate HandshakeWell(y: System) {
    && (y.startup.Answered? || y.startup.AwaitInitialized? || y.startup.Serving? ==> InitializeAnswered(y.mux))
    && (y.startup.Serving? ==> InitializedSent(y.mux))
  }

  ghost predicate OutcomeInv(y: System) {
    && KindsInv(y.mux) && HandshakeWell(y)
    && (forall t | t in y.inquiries :: AwaitsOwn(y, t))
    && (forall c | c in y.closers :: CloserAwaitsOwn(y, c))
  }

  // ----------------------------------------------------------- what persists

  /** Operations stay what they are, returned ones unchanged, and frames taken stay
      taken. */
  ghost predicate Kept(s: State, s': State) {
    && (forall h | h in s.ops :: h in s'.ops && s'.ops[h].msg == s.ops[h].msg && s'.ops[h].kind == s.ops[h].kind)
    && (forall h | h in s.ops && s.ops[h].phase.Done? :: s'.ops[h] == s.ops[h])
    && s.taken <= s'.taken && (s.table.closed ==> s'.table.closed)
  }

  lemma TakenGrows(s: State, l: Label)
    requires Enabled(s, l)
    ensures s.taken <= Next(s, l).taken
  {
    if TouchesOp(l) {
      Leaves(s, l);
      if Starting(l) {
        StarterLeaves(s, l);
      } else if !WireLabel(l) {
        CallerLeaves(s, l);
      }
    }
  }

  lemma StepKeeps(s: State, l: Label)
    requires Enabled(s, l)
    ensures Kept(s, Next(s, l))
  {
    OpMoves(s, l);
    OpsKept(s, l, Next(s, l));
    TakenGrows(s, l);
    if s.table.closed {
      StaysClosed(s, l);
    }
  }

  lemma StaysClosed(s: State, l: Label)
    requires Enabled(s, l) && s.table.closed
    ensures Next(s, l).table.closed
  {
    if Shuts(l) {
      ShutLeaves(s, l);
    } else {
      StaysOpen(s, l);
    }
  }

  lemma AnswerStays(s: State, s': State, h: nat, i: nat)
    requires Kept(s, s') && AnsweredWell(s, h, i)
    ensures AnsweredWell(s', h, i)
  {
  }

  lemma HandshakeStays(s: State, s': State)
    requires Kept(s, s')
    ensures InitializeAnswered(s) ==> InitializeAnswered(s')
    ensures InitializedSent(s) ==> InitializedSent(s')
  {
    if InitializeAnswered(s) {
      var h, i :| Tagged(s, h, Initialize) && AnsweredWell(s, h, i);
      AnswerStays(s, s', h, i);
      assert Tagged(s', h, Initialize);
    }
    if InitializedSent(s) {
      var h :| Tagged(s, h, Initialized) && s.ops[h].phase == Done(Sent);
      assert Tagged(s', h, Initialized) && s'.ops[h].phase == Done(Sent);
    }
  }

  lemma QueryStays(s: State, s': State, methodName: Text, file: Text, i: nat)
    requires Kept(s, s') && QueryAnswered(s, methodName, file, i)
    ensures QueryAnswered(s', methodName, file, i)
  {
    var h :| Tagged(s, h, Query(methodName, file)) && AnsweredWell(s, h, i);
    AnswerStays(s, s', h, i);
    assert Tagged(s', h, Query(methodName, file));
  }

  lemma AwaitStays(y: System, y': System, t: nat)
    requires t in y.inquiries && t in y'.inquiries && y'.inquiries[t] == y.inquiries[t] && Kept(y.mux, y'.mux)
    requires AwaitsOwn(y, t)
    ensures AwaitsOwn(y', t)
  {
    var q := y.inquiries[t];
    if q.phase.Finished? && q.phase.frame.Some? {
      QueryStays(y.mux, y'.mux, q.methodName, q.file, q.phase.frame.value);
    }
  }

  lemma AllAwaitStay(y: System, y': System)
    requires OutcomeInv(y) && Kept(y.mux, y'.mux)
    ensures forall t | t in y'.inquiries && t in y.inquiries && y'.inquiries[t] == y.inquiries[t] :: AwaitsOwn(y', t)
    ensures forall c | c in y'.closers && c in y.closers && y'.closers[c] == y.closers[c] :: CloserAwaitsOwn(y', c)
    ensures y'.startup == y.startup ==> HandshakeWell(y')
  {
    forall t | t in y'.inquiries && t in y.inquiries && y'.inquiries[t] == y.inquiries[t] ensures AwaitsOwn(y', t) {
      AwaitStays(y, y', t);
    }
    HandshakeStays(y.mux, y'.mux);
  }

  // ------------------------------------------------------------- one outcome

  /** What success means for a call and for a notice. */
  lemma SuccessMeans(s: State, h: nat)
    requires Inv(s) && Returned(s, h) && Succeeded(s, h)
    ensures s.ops[h].kind.Request? ==> s.ops[h].phase.outcome.Replied? && AnsweredWell(s, h, s.ops[h].phase.outcome.frame)
    ensures !s.ops[h].kind.Request? ==> s.ops[h].phase == Done(Sent)
  {
    assert KindFits(s.ops[h]);
    if s.ops[h].phase.outcome.Replied? {
      assert Delivered(s, h, s.ops[h].phase.outcome.frame);
      assert Answers(s, s.ops[h].phase.outcome.frame, h);
    }
  }

  lemma ReturnedKinds(s: State, h: nat)
    requires OpsInv(s) && KindsInv(s) && Returned(s, h) && Succeeded(s, h)
    ensures OfCall(s.ops[h].msg.tag) ==> s.ops[h].kind.Request?
    ensures OfNotice(s.ops[h].msg.tag) ==> s.ops[h].kind.Notice?
  {
    assert KindFits(s.ops[h]);
  }

  // ------------------------------------------------------------- preservation

  lemma NewKinds(s: State, l: Label)
    requires KindsInv(s) && Enabled(s, l)
    requires l.Register? ==> OfCall(l.tag)
    requires l.CheckNotice? ==> OfNotice(l.tag)
    ensures KindsInv(Next(s, l))
  {
    OpMoves(s, l);
    if Starting(l) {
      NewKind(s, l);
    }
    KindsMove(s, l, Next(s, l));
  }

  lemma NewKind(s: State, l: Label)
    requires Enabled(s, l) && Starting(l)
    ensures var op := Next(s, l).ops[l.h];
            && (l.Respond? ==> op.kind.Notice? && op.msg.tag.MethodNotFound?)
            && (l.Register? ==> !op.kind.Notice? && op.msg.tag == l.tag)
            && (l.CheckNotice? ==> op.kind.Notice? && op.msg.tag == l.tag)
  {
  }

  lemma KindsMove(s: State, l: Label, s': State)
    requires KindsInv(s) && OpMove(s, l, s')
    requires Starting(l) ==> (OfCall(s'.ops[l.h].msg.tag) ==> !s'.ops[l.h].kind.Notice?)
                             && (OfNotice(s'.ops[l.h].msg.tag) ==> s'.ops[l.h].kind.Notice?)
    ensures KindsInv(s')
  {
  }

  lemma EventKinds(y: System, e: Event)
    requires KindsInv(y.mux) && Allowed(y, e)
    ensures KindsInv(After(y, e).mux)
  {
    if MuxLabel(y, e).Some? {
      NewKinds(y.mux, MuxLabel(y, e).value);
    }
  }

  lemma EventKeeps(y: System, e: Event)
    requires Allowed(y, e)
    ensures Kept(y.mux, After(y, e).mux)
  {
    if MuxLabel(y, e).Some? {
      StepKeeps(y.mux, MuxLabel(y, e).value);
    }
  }

  /** The part of the provider that an event moves. */
  predicate SameInquiries(y: System, y': System, e: Event) {
    forall t | t in y'.inquiries :: (t in y.inquiries && y'.inquiries[t] == y.inquiries[t]) || (Inquires(e) && t == e.t)
  }

  predicate Inquires(e: Event) {
    OfInquiry(e) || e.SendDidOpen? || e.SendQuery?
  }

  predicate Closes(e: Event) {
    OfCloser(e) || e.SendShutdown? || e.SendExit? || e.CloseTable?
  }

  lemma Parts(y: System, e: Event)
    requires Allowed(y, e)
    ensures SameInquiries(y, After(y, e), e)
    ensures forall c | c in After(y, e).closers ::
              (c in y.closers && After(y, e).closers[c] == y.closers[c]) || (Closes(e) && c == e.c)
  {
  }

  lemma StartupChanges(y: System, e: Event)
    requires Allowed(y, e) && After(y, e).startup != y.startup
    ensures e.SendInitialize? || e.EndInitialize? || e.SendInitialized? || e.EndInitialized?
  {
  }

  /** The handshake goes on only when it goes well. */
  lemma HandshakeEvent(y: System, e: Event)
    requires Inv(y.mux) && StartupInv(y) && OutcomeInv(y) && Allowed(y, e)
    requires e.SendInitialize? || e.EndInitialize? || e.SendInitialized? || e.EndInitialized?
    ensures HandshakeWell(After(y, e))
  {
    EventKeeps(y, e);
    HandshakeStays(y.mux, After(y, e).mux);
    if (e.EndInitialize? || e.EndInitialized?) && Succeeded(y.mux, y.startup.h) {
      var h := y.startup.h;
      ReturnedKinds(y.mux, h);
      SuccessMeans(y.mux, h);
      assert Tagged(y.mux, h, y.mux.ops[h].msg.tag);
    }
  }

  lemma QueryEvent(y: System, e: Event)
    requires Inv(y.mux) && OutcomeInv(y) && Allowed(y, e) && e.EndQuery?
    ensures AwaitsOwn(After(y, e), e.t)
  {
    var h := y.inquiries[e.t].phase.h;
    assert AwaitsOwn(y, e.t);
    if Succeeded(y.mux, h) {
      ReturnedKinds(y.mux, h);
      SuccessMeans(y.mux, h);
    }
  }

  lemma InquiryEvent(y: System, e: Event)
    requires Inv(y.mux) && OutcomeInv(y) && Allowed(y, e) && Inquires(e)
    ensures AwaitsOwn(After(y, e), e.t)
  {
    if e.EndQuery? {
      QueryEvent(y, e);
    } else if e.SendQuery? {
      SentQuery(y, e);
    } else {
      OtherInquiryEvent(y, e);
    }
  }

  lemma OtherInquiryEvent(y: System, e: Event)
    requires Allowed(y, e) && Inquires(e) && !e.EndQuery? && !e.SendQuery?
    ensures AwaitsOwn(After(y, e), e.t)
  {
  }

  lemma SentQuery(y: System, e: Event)
    requires Allowed(y, e) && e.SendQuery?
    ensures AwaitsOwn(After(y, e), e.t)
  {
    StartsOne(y.mux, MuxLabel(y, e).value);
  }

  lemma CloserEvent(y: System, e: Event)
    requires Allowed(y, e) && Closes(e)
    ensures CloserAwaitsOwn(After(y, e), e.c)
  {
    if e.SendShutdown? || e.SendExit? {
      StartsOne(y.mux, MuxLabel(y, e).value);
    } else if e.CloseTable? {
      TableShut(y.mux);
    }
  }

  lemma TableShut(s: State)
    ensures Next(s, CloseShutdown(CLOSE_CAUSE)).table.closed
  {
  }

  lemma HandshakeKept(y: System, e: Event)
    requires Inv(y.mux) && StartupInv(y) && OutcomeInv(y) && Allowed(y, e)
    ensures HandshakeWell(After(y, e))
  {
    if After(y, e).startup != y.startup {
      StartupChanges(y, e);
      HandshakeEvent(y, e);
    } else {
      EventKeeps(y, e);
      HandshakeStays(y.mux, After(y, e).mux);
    }
  }

  lemma OutcomeStep(y: System, e: Event)
    requires SystemInv(y) && OutcomeInv(y) && Allowed(y, e)
    ensures OutcomeInv(After(y, e))
  {
    var y' := After(y, e);
    EventKinds(y, e);
    EventKeeps(y, e);
    HandshakeKept(y, e);
    Parts(y, e);
    if Inquires(e) {
      InquiryEvent(y, e);
    }
    if Closes(e) {
      CloserEvent(y, e);
    }
    AllAwaitStay(y, y');
  }

  lemma {:induction false} OutcomeRuns(y: System, es: seq<Event>, y': System)
    requires SystemInv(y) && OutcomeInv(y) && Runs(y, es, y')
    ensures SystemInv(y') && OutcomeInv(y')
    decreases |es|
  {
    if es != [] {
      OutcomeStep(y, es[0]);
      SystemStep(y, es[0]);
      OutcomeRuns(After(y, es[0]), es[1..], y');
    }
  }

  lemma OutcomesFromStart(es: seq<Event>, y: System)
    requires Runs(START, es, y)
    ensures SystemInv(y) && OutcomeInv(y)
  {
    InvInit();
    OutcomeRuns(START, es, y);
  }

  // ----------------------------------------------------------------- results

  /** Over every run: from the end of `initialize` on the server has answered it with
      a result and no error, and a provider that serves has sent `initialized`. */
  lemma HandshakeSound(es: seq<Event>, y: System)
    requires Runs(START, es, y)
    ensures y.startup == Answered || y.startup.AwaitInitialized? || y.startup == Serving ==>
              exists h, i :: Tagged(y.mux, h, Initialize) && AnsweredWell(y.mux, h, i)
    ensures y.startup == Serving ==> exists h :: Tagged(y.mux, h, Initialized) && y.mux.ops[h].phase == Done(Sent)
  {
    OutcomesFromStart(es, y);
  }

  /** The end of `initialize`, for every way the call can return: a result starts
      the second half of the handshake; an error response, a timeout, a lost
      connection and a failed or refused write end the start-up. */
  lemma InitializeEnds(es: seq<Event>, y: System)
    requires Runs(START, es, y) && Allowed(y, EndInitialize)
    ensures var outcome := y.mux.ops[y.startup.h].phase.outcome;
            && !outcome.Sent?
            && (outcome.Replied? ==> outcome.frame < |y.mux.taken| && y.mux.taken[outcome.frame].Incoming?)
            && After(y, EndInitialize)
               == y.(startup := if outcome.Replied? && !y.mux.taken[outcome.frame].isError then Answered else NotStarted)
  {
    OutcomesFromStart(es, y);
    CallOutcome(y.mux, y.startup.h);
  }

  /** The end of `initialized`: the provider serves if and only if it was sent. */
  lemma InitializedEnds(es: seq<Event>, y: System)
    requires Runs(START, es, y) && Allowed(y, EndInitialized)
    ensures After(y, EndInitialized)
         == y.(startup := if y.mux.ops[y.startup.h].phase.outcome == Sent then Serving else NotStarted)
  {
    OutcomesFromStart(es, y);
    NoticeOutcome(y.mux, y.startup.h);
  }

  predicate NothingServed(y: System) {
    y.startup == NotStarted && y.inquiries == map[] && y.closers == map[]
  }

  /** What there was is there, and what is new replies to the server. */
  ghost predicate OnlyReplies(s: State, s': State) {
    && (forall h | h in s.ops :: h in s'.ops && s'.ops[h].msg == s.ops[h].msg)
    && (forall h | h in s'.ops && h !in s.ops :: s'.ops[h].msg.tag.MethodNotFound?)
  }

  /** A start-up that failed is over: nothing starts any more but replies to the
      server. */
  lemma {:induction false} NotStartedForGood(y: System, es: seq<Event>, y': System)
    requires NothingServed(y) && Runs(y, es, y')
    ensures NothingServed(y') && OnlyReplies(y.mux, y'.mux)
    decreases |es|
  {
    if es != [] {
      NotStartedStep(y, es[0]);
      NotStartedForGood(After(y, es[0]), es[1..], y');
    }
  }

  lemma NotStartedStep(y: System, e: Event)
    requires NothingServed(y) && Allowed(y, e)
    ensures NothingServed(After(y, e)) && OnlyReplies(y.mux, After(y, e).mux)
  {
    OnlyInner(y, e);
    NewOps(y.mux, e.l);
    StepKeeps(y.mux, e.l);
  }

  lemma OnlyInner(y: System, e: Event)
    requires NothingServed(y) && Allowed(y, e)
    ensures e.Inner? && Enabled(y.mux, e.l) && !e.l.Register? && !e.l.CheckNotice? && After(y, e) == y.(mux := Next(y.mux, e.l))
  {
  }

  /** The end of a didOpen: the file counts as open if and only if it was sent. */
  lemma DidOpenEnds(es: seq<Event>, y: System, t: nat)
    requires Runs(START, es, y) && Allowed(y, EndDidOpen(t))
    ensures var sent := y.mux.ops[y.inquiries[t].phase.h].phase.outcome == Sent;
            After(y, EndDidOpen(t)) ==
            y.(inquiries := y.inquiries[t := Inquiry(y.inquiries[t].file, y.inquiries[t].methodName, Closing(sent))],
               openFiles := if sent then y.openFiles + {y.inquiries[t].file} else y.openFiles)
  {
    OutcomesFromStart(es, y);
    assert InquiryInv(y, t);
    NoticeOutcome(y.mux, y.inquiries[t].phase.h);
  }

  lemma NoticeOutcome(s: State, h: nat)
    requires OpsInv(s) && KindsInv(s) && Returned(s, h) && OfNotice(s.ops[h].msg.tag)
    ensures Succeeded(s, h) <==> s.ops[h].phase.outcome == Sent
  {
    assert KindFits(s.ops[h]);
  }

  /** The end of a query: it returns the result of its response, or an error when the
      response was one or there was none. */
  lemma QueryEnds(es: seq<Event>, y: System, t: nat)
    requires Runs(START, es, y) && Allowed(y, EndQuery(t))
    ensures var outcome, q := y.mux.ops[y.inquiries[t].phase.h].phase.outcome, y.inquiries[t];
            && (outcome.Replied? ==> outcome.frame < |y.mux.taken| && y.mux.taken[outcome.frame].Incoming?)
            && var frame := if outcome.Replied? && !y.mux.taken[outcome.frame].isError then Some(outcome.frame) else None;
               After(y, EndQuery(t)) == y.(inquiries := y.inquiries[t := Inquiry(q.file, q.methodName, Finished(frame))])
  {
    OutcomesFromStart(es, y);
    assert AwaitsOwn(y, t);
    CallOutcome(y.mux, y.inquiries[t].phase.h);
  }

  lemma CallOutcome(s: State, h: nat)
    requires Inv(s) && KindsInv(s) && Returned(s, h) && OfCall(s.ops[h].msg.tag)
    ensures var outcome := s.ops[h].phase.outcome;
            && !outcome.Sent? && (outcome.Replied? ==> outcome.frame < |s.taken| && s.taken[outcome.frame].Incoming?)
            && (Succeeded(s, h) <==> outcome.Replied? && !s.taken[outcome.frame].isError)
  {
    assert KindFits(s.ops[h]);
    if s.ops[h].phase.outcome.Replied? {
      assert Delivered(s, h, s.ops[h].phase.outcome.frame);
    }
  }

  /** A query that returns a result returns that of a response to a request of its
      own, with its method and for its file. */
  lemma QueryReturnsOwn(es: seq<Event>, y: System, t: nat, i: nat)
    requires Runs(START, es, y) && t in y.inquiries && y.inquiries[t].phase == Finished(Some(i))
    ensures exists h :: Tagged(y.mux, h, Query(y.inquiries[t].methodName, y.inquiries[t].file)) && AnsweredWell(y.mux, h, i)
  {
    OutcomesFromStart(es, y);
    assert AwaitsOwn(y, t);
  }

  /** Once a `Close` call has returned, the table is closed. */
  lemma ClosedOnReturn(es: seq<Event>, y: System, c: nat)
    requires Runs(START, es, y) && c in y.closers && y.closers[c] == Gone
    ensures y.mux.table.closed && y.mux.table.pending == map[]
  {
    OutcomesFromStart(es, y);
    assert CloserAwaitsOwn(y, c);
  }

  /** A further `Close` on a closed table goes straight to it, and a first one asks the
      server to shut down. */
  lemma CloseBeginsWith(y: System, c: nat)
    requires Allowed(y, BeginClose(c))
    ensures y.mux.table.closed ==> After(y, BeginClose(c)) == y.(closers := y.closers[c := AtTable])
    ensures !y.mux.table.closed ==> After(y, BeginClose(c)) == y.(closers := y.closers[c := AskShutdown])
  {
  }
}
