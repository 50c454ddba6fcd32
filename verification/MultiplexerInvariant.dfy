/** What every step of the multiplexer keeps. */
module MultiplexerInvariant {
  import opened Bytes
  import opened Decimals
  import opened Framing
  import opened Multiplexer
  import opened MultiplexerSteps

  // ------------------------------------------------------------ pending table

  predicate RequestOp(s: State, h: nat) {
    h in s.ops && s.ops[h].kind.Request?
  }

  predicate KindFits(op: Op) {
    match op.kind
    case Request(_) => op.phase.Leaving? || op.phase.Done? ==> !op.phase.outcome.Sent?
    case Notice => !op.phase.Waiting? && !op.phase.SawClosed? && !op.phase.Leaving?
                   && (op.phase.Done? ==> op.phase.outcome.Sent? || op.phase.outcome.WriteFailed? || op.phase.outcome.Rejected?)
    case Refused => op.phase.Done? && op.phase.outcome.Rejected?
  }

  /** The cause an operation reports is the one recorded at shutdown. */
  predicate CauseFits(t: Table, phase: Phase) {
    && (phase.SawClosed? ==> t.closed)
    && ((phase.Leaving? || phase.Done?) && (phase.outcome.Disconnected? || phase.outcome.Rejected?) ==>
        t.closed && phase.outcome.cause == t.connErr)
  }

  /** A call that has not returned is in the table, or its channel is closed. */
  predicate Listed(s: State, h: nat)
    requires RequestOp(s, h) && h in s.chans
  {
    var key := Decimal(s.ops[h].kind.id);
    if s.table.closed then s.chans[h].closed
    else key in s.table.pending && s.table.pending[key] == h
  }

  /** Ids number the calls from 1 in order of registration. */
  predicate CallNumber(s: State, h: nat)
    requires RequestOp(s, h)
  {
    1 <= s.ops[h].kind.id <= |s.calls| && s.calls[s.ops[h].kind.id - 1] == h
  }

  ghost predicate TableInv(s: State) {
    && |s.calls| == s.table.nextId
    && (forall k | k in s.table.pending ::
          RequestOp(s, s.table.pending[k]) && k == Decimal(s.ops[s.table.pending[k]].kind.id) &&
          !s.ops[s.table.pending[k]].phase.Done?)
    && (forall h | RequestOp(s, h) :: h in s.chans && CallNumber(s, h))
    && (forall h | RequestOp(s, h) && !s.ops[h].phase.Done? :: Listed(s, h))
    && (forall h | h in s.chans :: RequestOp(s, h) && (s.chans[h].closed ==> s.table.closed))
    && (s.table.closed ==> s.table.pending == map[])
    && (s.table.closed <==> s.table.connErr.Some?)
  }

  ghost predicate OpsInv(s: State) {
    forall h | h in s.ops :: KindFits(s.ops[h]) && CauseFits(s.table, s.ops[h].phase)
  }

  // ----------------------------------------------------------------- delivery

  /** Frame `i` sits in the channel of `h` or is what `h` returns. */
  predicate Delivered(s: State, h: nat, i: nat) {
    || (h in s.chans && s.chans[h].buf == Some(i))
    || (h in s.ops && s.ops[h].phase.Returns(Replied(i)))
  }

  ghost predicate Undelivered(s: State, i: nat) {
    forall h :: !Delivered(s, h, i)
  }

  predicate Answers(s: State, i: nat, h: nat) {
    && i < |s.taken| && s.taken[i].IsResponse()
    && RequestOp(s, h) && s.taken[i].id == Decimal(s.ops[h].kind.id)
  }

  ghost predicate DeliveryInv(s: State) {
    && (forall h, i | Delivered(s, h, i) :: Answers(s, i, h))
    && (s.reader.Holding? || s.reader.Found? ==> s.taken != [])
    && (s.reader.Found? ==> Answers(s, |s.taken| - 1, s.reader.h) && s.reader.h in s.chans)
    && (s.reader.Holding? || s.reader.Found? ==> Undelivered(s, |s.taken| - 1))
  }

  /** The panic is exactly the lost race. */
  ghost predicate RaceInv(s: State) {
    s.raced <==> s.reader.Panicked? || (s.reader.Found? && s.reader.h in s.chans && s.chans[s.reader.h].closed)
  }

  // --------------------------------------------------------------------- wire

  function Bodies(log: seq<Entry>): seq<Text> {
    seq(|log|, i requires 0 <= i < |log| => log[i].msg.body)
  }

  function Writers(log: seq<Entry>): seq<nat> {
    seq(|log|, i requires 0 <= i < |log| => log[i].op)
  }

  predicate Logged(log: seq<Entry>, h: nat) {
    exists i :: 0 <= i < |log| && log[i].op == h
  }

  /** The part of a frame that the holder of the lock has written so far. */
  function Partial(s: State): Text {
    if s.writer.Some? && At(s, s.writer.value, HeaderOut) then HeaderOf(s.ops[s.writer.value].msg.body) else ""
  }

  /** The grant whose message is not complete yet. */
  function OpenGrant(s: State): seq<nat> {
    if s.writer.Some? && (At(s, s.writer.value, HeaderOut) || At(s, s.writer.value, Locked)) then [s.writer.value]
    else []
  }

  ghost predicate LockInv(s: State) {
    && (forall h | h in s.ops :: s.ops[h].phase.HoldsLock() <==> s.writer == Some(h))
    && (s.writer.Some? ==> s.writer.value in s.ops)
  }

  ghost predicate LogInv(s: State) {
    && (forall i | 0 <= i < |s.log| ::
          s.log[i].op in s.ops && s.ops[s.log[i].op].msg == s.log[i].msg && s.ops[s.log[i].op].phase.Written())
    && (forall h | h in s.ops && s.ops[h].phase.Written() :: Logged(s.log, h))
    && (forall i, j | 0 <= i < j < |s.log| :: s.log[i].op != s.log[j].op)
  }

  ghost predicate WireInv(s: State) {
    && (!s.failed ==> s.out == FramesOf(Bodies(s.log)) + Partial(s))
    && (!s.failed ==> s.grants == Writers(s.log) + OpenGrant(s))
    && (!s.failed ==> forall h | h in s.ops :: !s.ops[h].phase.Torn?)
  }

  // -------------------------------------------------------------- preservation

  /** A step that leaves the table and the channels' closed marks alone and at
      most moves phases. */
  ghost predicate TableStill(s: State, s': State) {
    && s'.table == s.table && s'.calls == s.calls
    && s'.chans.Keys == s.chans.Keys && s'.ops.Keys == s.ops.Keys
    && (forall h | h in s.chans :: s'.chans[h].closed == s.chans[h].closed)
    && (forall h | h in s.ops :: s'.ops[h].kind == s.ops[h].kind)
    && (forall h | RequestOp(s, h) :: s'.ops[h].phase.Done? == s.ops[h].phase.Done?)
  }

  lemma TableStillKeeps(s: State, s': State)
    requires TableInv(s) && TableStill(s, s')
    ensures TableInv(s')
  {
    forall g | RequestOp(s', g) ensures g in s'.chans && CallNumber(s', g) && (!s'.ops[g].phase.Done? ==> Listed(s', g)) {
      assert RequestOp(s, g) && CallNumber(s, g);
      assert !s.ops[g].phase.Done? ==> Listed(s, g);
    }
    forall k | k in s'.table.pending ensures RequestOp(s', s'.table.pending[k]) {
      assert RequestOp(s, s.table.pending[k]);
    }
    forall g | g in s'.chans ensures RequestOp(s', g) && (s'.chans[g].closed ==> s'.table.closed) {
      assert g in s.chans && RequestOp(s, g);
    }
  }

  lemma TableNewOp(s: State, s': State, h: nat)
    requires TableInv(s) && h !in s.ops && s'.table == s.table && s'.calls == s.calls && s'.chans == s.chans
    requires h in s'.ops && !s'.ops[h].kind.Request? && s'.ops == s.ops[h := s'.ops[h]]
    ensures TableInv(s')
  {
    forall g | RequestOp(s', g) ensures g in s'.chans && CallNumber(s', g) && (!s'.ops[g].phase.Done? ==> Listed(s', g)) {
      assert RequestOp(s, g);
      assert !s.ops[g].phase.Done? ==> Listed(s, g);
    }
    forall k | k in s'.table.pending ensures RequestOp(s', s'.table.pending[k]) {
      assert RequestOp(s, s.table.pending[k]);
    }
    forall g | g in s'.chans ensures RequestOp(s', g) && (s'.chans[g].closed ==> s'.table.closed) {
      assert g in s.chans && RequestOp(s, g);
    }
  }

  lemma FreshKey(s: State)
    requires TableInv(s)
    ensures Decimal(s.table.nextId + 1) !in s.table.pending
  {
    var key := Decimal(s.table.nextId + 1);
    if key in s.table.pending {
      var g := s.table.pending[key];
      assert RequestOp(s, g) && CallNumber(s, g);
      DecimalInjective(s.ops[g].kind.id, s.table.nextId + 1);
    }
  }

  lemma OthersListed(s: State, s': State, h: nat)
    requires TableInv(s) && h !in s.ops && !s.table.closed
    requires s'.table == Registered(s.table, h) && s'.calls == s.calls + [h] && s'.chans == s.chans[h := OPEN]
    requires h in s'.ops && s'.ops == s.ops[h := s'.ops[h]]
    ensures forall g | RequestOp(s', g) && g != h ::
              g in s'.chans && CallNumber(s', g) && (!s'.ops[g].phase.Done? ==> Listed(s', g))
  {
    FreshKey(s);
    forall g | RequestOp(s', g) && g != h
      ensures g in s'.chans && CallNumber(s', g) && (!s'.ops[g].phase.Done? ==> Listed(s', g))
    {
      assert RequestOp(s, g);
      assert !s.ops[g].phase.Done? ==> Listed(s, g);
    }
  }

  lemma TableRegister(s: State, s': State, h: nat)
    requires TableInv(s) && h !in s.ops && !s.table.closed
    requires s'.table == Registered(s.table, h) && s'.calls == s.calls + [h] && s'.chans == s.chans[h := OPEN]
    requires h in s'.ops && s'.ops == s.ops[h := s'.ops[h]]
    requires s'.ops[h].kind == Request(s.table.nextId + 1) && !s'.ops[h].phase.Done?
    ensures TableInv(s')
  {
    OthersListed(s, s', h);
    assert CallNumber(s', h) && Listed(s', h);
    forall k | k in s'.table.pending && k in s.table.pending && k != Decimal(s.table.nextId + 1)
      ensures RequestOp(s', s'.table.pending[k]) && s'.table.pending[k] == s.table.pending[k]
    {
      assert RequestOp(s, s.table.pending[k]);
    }
    forall g | g in s'.chans && g != h ensures RequestOp(s', g) && (s'.chans[g].closed ==> s'.table.closed) {
      assert g in s.chans && RequestOp(s, g);
    }
  }

  lemma OwnKey(s: State, h: nat, g: nat)
    requires TableInv(s) && RequestOp(s, h) && RequestOp(s, g) && g != h
    ensures Decimal(s.ops[g].kind.id) != Decimal(s.ops[h].kind.id)
  {
    assert CallNumber(s, h) && CallNumber(s, g);
    if Decimal(s.ops[g].kind.id) == Decimal(s.ops[h].kind.id) {
      DecimalInjective(s.ops[g].kind.id, s.ops[h].kind.id);
    }
  }

  lemma OthersStay(s: State, s': State, h: nat)
    requires TableInv(s) && RequestOp(s, h)
    requires s'.table == Deregistered(s.table, Decimal(s.ops[h].kind.id)) && s'.calls == s.calls && s'.chans == s.chans
    requires h in s'.ops && s'.ops == s.ops[h := s'.ops[h]] && s'.ops[h].kind == s.ops[h].kind
    ensures forall g | RequestOp(s', g) && g != h ::
              g in s'.chans && CallNumber(s', g) && (!s'.ops[g].phase.Done? ==> Listed(s', g))
  {
    forall g | RequestOp(s', g) && g != h
      ensures g in s'.chans && CallNumber(s', g) && (!s'.ops[g].phase.Done? ==> Listed(s', g))
    {
      assert RequestOp(s, g);
      OwnKey(s, h, g);
      assert !s.ops[g].phase.Done? ==> Listed(s, g);
    }
  }

  lemma TableDeregister(s: State, s': State, h: nat)
    requires TableInv(s) && RequestOp(s, h)
    requires s'.table == Deregistered(s.table, Decimal(s.ops[h].kind.id)) && s'.calls == s.calls && s'.chans == s.chans
    requires h in s'.ops && s'.ops == s.ops[h := s'.ops[h]]
    requires s'.ops[h].kind == s.ops[h].kind && s'.ops[h].phase.Done?
    ensures TableInv(s')
  {
    OthersStay(s, s', h);
    assert CallNumber(s, h) && CallNumber(s', h);
    forall k | k in s'.table.pending ensures RequestOp(s', s'.table.pending[k]) && s'.table.pending[k] != h {
      assert k in s.table.pending && RequestOp(s, s.table.pending[k]);
    }
    forall g | g in s'.chans ensures RequestOp(s', g) && (s'.chans[g].closed ==> s'.table.closed) {
      assert g in s.chans && RequestOp(s, g);
    }
  }

  /** Shutting down closes a channel at most once: what is pending is open. */
  lemma PendingOpen(s: State, k: Text)
    requires TableInv(s) && k in s.table.pending
    ensures s.table.pending[k] in s.chans && !s.chans[s.table.pending[k]].closed
  {
  }

  lemma TableShutDown(s: State, s': State, cause: Text)
    requires TableInv(s) && s'.calls == s.calls && s'.ops == s.ops
    requires s'.table == ShutDown(s.table, cause) && s'.chans == Released(s.table, s.chans)
    ensures TableInv(s')
  {
    forall g | RequestOp(s', g) ensures g in s'.chans && CallNumber(s', g) && (!s'.ops[g].phase.Done? ==> Listed(s', g)) {
      assert RequestOp(s, g);
      if !s.ops[g].phase.Done? {
        assert Listed(s, g);
        assert !s.table.closed ==> g in s.table.pending.Values;
      }
    }
    forall g | g in s'.chans ensures RequestOp(s', g) {
      assert g in s.chans && RequestOp(s, g);
    }
  }

  predicate LeavesTable(l: Label) {
    !(l.Register? || l.CheckNotice? || l.Respond? || l.Deregister? || l.ReaderShutdown? || l.CloseShutdown?)
  }

  lemma MarksStill(s: State, l: Label)
    requires Enabled(s, l) && LeavesTable(l)
    ensures var chans := Next(s, l).chans;
            chans.Keys == s.chans.Keys && forall h | h in s.chans :: chans[h].closed == s.chans[h].closed
  {
    Leaves(s, l);
    if l.Receive? {
      CallerLeaves(s, l);
    } else if l.Send? {
      SendLeaves(s);
    }
  }

  lemma StillStep(s: State, l: Label)
    requires OpsInv(s) && Enabled(s, l) && LeavesTable(l)
    ensures TableStill(s, Next(s, l))
  {
    Leaves(s, l);
    MarksStill(s, l);
    OpMoves(s, l);
    OpsStill(s, l, Next(s, l));
  }

  /** A call is on its way out before it returns, and returns by deregistering. */
  lemma OpsStill(s: State, l: Label, s': State)
    requires OpMove(s, l, s') && LeavesTable(l)
    ensures s'.ops.Keys == s.ops.Keys
    ensures forall h | h in s.ops :: s'.ops[h].kind == s.ops[h].kind
    ensures forall h | RequestOp(s, h) :: s'.ops[h].phase.Done? == s.ops[h].phase.Done?
  {
  }

  lemma TableChangeStep(s: State, l: Label)
    requires TableInv(s) && Enabled(s, l) && !LeavesTable(l)
    ensures TableInv(Next(s, l))
  {
    var s' := Next(s, l);
    if l.Register? && !s.table.closed {
      TableRegister(s, s', l.h);
    } else if l.Register? || l.CheckNotice? || l.Respond? {
      TableNewOp(s, s', l.h);
    } else if l.Deregister? {
      TableDeregister(s, s', l.h);
    } else {
      TableShutDown(s, s', if l.ReaderShutdown? then s.reader.cause else l.cause);
    }
  }

  lemma TableStep(s: State, l: Label)
    requires TableInv(s) && OpsInv(s) && Enabled(s, l)
    ensures TableInv(Next(s, l))
  {
    if LeavesTable(l) {
      StillStep(s, l);
      TableStillKeeps(s, Next(s, l));
    } else {
      TableChangeStep(s, l);
    }
  }

  // ------------------------------------------------------- phases and causes

  lemma FitsAdvance(op: Op, op': Op)
    requires KindFits(op) && Advances(op, op')
    ensures KindFits(op')
  {
  }

  lemma FreshFits(s: State, l: Label)
    requires TableInv(s) && Enabled(s, l) && Starting(l)
    ensures var op := Next(s, l).ops[l.h]; KindFits(op) && CauseFits(Next(s, l).table, op.phase)
  {
  }

  lemma CauseAdvances(s: State, l: Label)
    requires TableInv(s) && OpsInv(s) && Enabled(s, l) && TouchesOp(l) && !Starting(l)
    ensures CauseFits(s.table, Next(s, l).ops[l.h].phase)
  {
    assert CauseFits(s.table, s.ops[l.h].phase);
  }

  lemma CausesStay(s: State, l: Label)
    requires TableInv(s) && Enabled(s, l)
    ensures s.table.closed ==> Next(s, l).table.closed && Next(s, l).table.connErr == s.table.connErr
    ensures TouchesOp(l) ==> Next(s, l).table.connErr == s.table.connErr && Next(s, l).table.closed == s.table.closed
  {
    Leaves(s, l);
    if l.Register? {
      StarterLeaves(s, l);
    } else if l.Deregister? {
      CallerLeaves(s, l);
    } else if Shuts(l) {
      ShutLeaves(s, l);
    }
  }

  lemma OpsStep(s: State, l: Label)
    requires TableInv(s) && OpsInv(s) && Enabled(s, l)
    ensures OpsInv(Next(s, l))
  {
    var s' := Next(s, l);
    OpMoves(s, l);
    CausesStay(s, l);
    if Starting(l) {
      FreshFits(s, l);
    } else if TouchesOp(l) {
      FitsAdvance(s.ops[l.h], s'.ops[l.h]);
      CauseAdvances(s, l);
    }
    OpsFit(s, l, s');
  }

  lemma OpsFit(s: State, l: Label, s': State)
    requires OpsInv(s) && OpMove(s, l, s')
    requires TouchesOp(l) ==> KindFits(s'.ops[l.h]) && CauseFits(s'.table, s'.ops[l.h].phase)
    requires s.table.closed ==> s'.table.closed && s'.table.connErr == s.table.connErr
    ensures OpsInv(s')
  {
  }

  // ---------------------------------------------------------------- delivery

  /** Frames only move towards their call, and kinds stay. */
  ghost predicate DeliveryStill(s: State, s': State) {
    && s'.taken == s.taken
    && (forall h | RequestOp(s, h) :: RequestOp(s', h) && s'.ops[h].kind == s.ops[h].kind)
    && (forall h, i :: Delivered(s', h, i) ==> Delivered(s, h, i))
    && s.chans.Keys <= s'.chans.Keys
  }

  lemma DeliveryStillKeeps(s: State, s': State)
    requires DeliveryInv(s) && DeliveryStill(s, s')
    requires s'.reader == s.reader || !(s'.reader.Holding? || s'.reader.Found?)
    ensures DeliveryInv(s')
  {
  }

  lemma BuffersStill(s: State, l: Label, g: nat)
    requires Enabled(s, l) && !l.Send?
    requires g in Next(s, l).chans && Next(s, l).chans[g].buf.Some?
    ensures g in s.chans && s.chans[g].buf == Next(s, l).chans[g].buf
  {
    Leaves(s, l);
    if l.Register? {
      StarterLeaves(s, l);
    } else if l.Receive? {
      CallerLeaves(s, l);
    } else if Shuts(l) {
      ShutLeaves(s, l);
    }
  }

  lemma ChansGrow(s: State, l: Label)
    requires Enabled(s, l)
    ensures s.chans.Keys <= Next(s, l).chans.Keys
  {
    Leaves(s, l);
    if l.Register? {
      StarterLeaves(s, l);
    } else if l.Receive? {
      CallerLeaves(s, l);
    } else if l.Send? {
      SendLeaves(s);
    } else if Shuts(l) {
      ShutLeaves(s, l);
    }
  }

  /** Only by receiving does a call come to return a reply. */
  lemma NewReply(s: State, l: Label, i: nat)
    requires Enabled(s, l) && TouchesOp(l) && !Starting(l) && !l.Deregister?
    requires Next(s, l).ops[l.h].phase.Returns(Replied(i))
    ensures Delivered(s, l.h, i)
  {
  }

  lemma RepliesStill(s: State, l: Label, s': State, g: nat, i: nat)
    requires OpMove(s, l, s') && g in s'.ops && s'.ops[g].phase.Returns(Replied(i))
    ensures g in s.ops && (s.ops[g].phase.Returns(Replied(i)) || (TouchesOp(l) && !Starting(l) && !l.Deregister? && g == l.h))
  {
  }

  lemma RequestsStill(s: State, l: Label, s': State)
    requires OpMove(s, l, s')
    ensures forall h | RequestOp(s, h) :: RequestOp(s', h) && s'.ops[h].kind == s.ops[h].kind
  {
  }

  lemma OpsDeliveryStill(s: State, l: Label)
    requires Enabled(s, l) && !(l.Take? || l.LookUp? || l.Send?)
    ensures DeliveryStill(s, Next(s, l))
  {
    var s' := Next(s, l);
    OpMoves(s, l);
    RequestsStill(s, l, s');
    ChansGrow(s, l);
    forall g, i: nat | Delivered(s', g, i) ensures Delivered(s, g, i) {
      if g in s'.chans && s'.chans[g].buf == Some(i) {
        BuffersStill(s, l, g);
      } else {
        RepliesStill(s, l, s', g, i);
        if !s.ops[g].phase.Returns(Replied(i)) {
          NewReply(s, l, i);
        }
      }
    }
  }

  lemma TakeStep(s: State, frame: Incoming)
    requires DeliveryInv(s) && Enabled(s, Take(frame))
    ensures DeliveryInv(Next(s, Take(frame)))
  {
    var s' := Next(s, Take(frame));
    forall h, i: nat | Delivered(s', h, i) ensures Answers(s', i, h) && i < |s.taken| {
      assert Delivered(s, h, i);
      assert Answers(s, i, h);
    }
  }

  lemma LookUpStep(s: State)
    requires TableInv(s) && DeliveryInv(s) && Enabled(s, LookUp)
    ensures DeliveryInv(Next(s, LookUp))
  {
    var s' := Next(s, LookUp);
    forall h, i: nat | Delivered(s', h, i) ensures Answers(s', i, h) && i != |s.taken| - 1 {
      assert Delivered(s, h, i);
      assert Answers(s, i, h);
    }
    if s'.reader.Found? {
      assert RequestOp(s, s'.reader.h);
    }
  }

  lemma SendStep(s: State)
    requires DeliveryInv(s) && Enabled(s, Send)
    ensures DeliveryInv(Next(s, Send))
  {
    var s' := Next(s, Send);
    forall h, i: nat | Delivered(s', h, i) ensures Answers(s', i, h) {
      if !Delivered(s, h, i) {
        assert h == s.reader.h && i == |s.taken| - 1;
      }
      assert Answers(s, i, h);
    }
  }

  lemma DeliveryStep(s: State, l: Label)
    requires TableInv(s) && DeliveryInv(s) && Enabled(s, l)
    ensures DeliveryInv(Next(s, l))
  {
    if l.Take? {
      TakeStep(s, l.frame);
    } else if l.LookUp? {
      LookUpStep(s);
    } else if l.Send? {
      SendStep(s);
    } else {
      OpsDeliveryStill(s, l);
      DeliveryStillKeeps(s, Next(s, l));
    }
  }

  /** The marks of the channels, the reader and the race stay. */
  ghost predicate RaceStill(s: State, s': State) {
    && s'.raced == s.raced && (s'.reader == s.reader || !(s.reader.Found? || s'.reader.Found?))
    && (s'.reader.Panicked? <==> s.reader.Panicked?)
    && (s'.reader.Found? && s'.reader.h in s.chans ==>
        s'.reader.h in s'.chans && s'.chans[s'.reader.h].closed == s.chans[s'.reader.h].closed)
  }

  lemma RaceStillStep(s: State, l: Label)
    requires Enabled(s, l) && TouchesOp(l)
    requires l.Register? ==> l.h !in s.chans
    ensures RaceStill(s, Next(s, l))
  {
  }

  lemma RaceReaderStep(s: State, l: Label)
    requires TableInv(s) && DeliveryInv(s) && RaceInv(s) && Enabled(s, l) && !TouchesOp(l)
    ensures RaceInv(Next(s, l))
  {
    if l.LookUp? && Current(s).id in s.table.pending {
      PendingOpen(s, Current(s).id);
    }
  }

  lemma RaceStep(s: State, l: Label)
    requires TableInv(s) && DeliveryInv(s) && RaceInv(s) && Enabled(s, l)
    ensures RaceInv(Next(s, l))
  {
    if TouchesOp(l) {
      RaceStillStep(s, l);
    } else {
      RaceReaderStep(s, l);
    }
  }

  // ------------------------------------------------------- the lock, the wire

  lemma WriterField(s: State, l: Label)
    requires Enabled(s, l)
    ensures Next(s, l).writer == if l.Lock? then Some(l.h) else if l.Unlock? then None else s.writer
    ensures l.Lock? ==> s.writer == None
  {
    if !WireLabel(l) {
      Leaves(s, l);
    }
  }

  lemma LockMoves(s: State, l: Label, s': State)
    requires LockInv(s) && OpMove(s, l, s') && (l.Lock? ==> s.writer == None)
    requires s'.writer == if l.Lock? then Some(l.h) else if l.Unlock? then None else s.writer
    ensures LockInv(s')
  {
  }

  lemma LockStep(s: State, l: Label)
    requires LockInv(s) && Enabled(s, l)
    ensures LockInv(Next(s, l))
  {
    OpMoves(s, l);
    WriterField(s, l);
    LockMoves(s, l, Next(s, l));
  }

  lemma LoggedAppend(log: seq<Entry>, e: Entry, h: nat)
    ensures Logged(log + [e], h) <==> Logged(log, h) || e.op == h
  {
    var log' := log + [e];
    assert log'[|log|].op == e.op;
    if Logged(log, h) {
      var i :| 0 <= i < |log| && log[i].op == h;
      assert log'[i].op == h;
    }
  }

  lemma LogStill(s: State, s': State)
    requires LogInv(s) && s'.log == s.log && s.ops.Keys <= s'.ops.Keys
    requires forall h | h in s.ops :: s'.ops[h].msg == s.ops[h].msg && s'.ops[h].phase.Written() == s.ops[h].phase.Written()
    requires forall h | h in s'.ops && h !in s.ops :: !s'.ops[h].phase.Written()
    ensures LogInv(s')
  {
  }

  lemma LogAppend(s: State, h: nat)
    requires LogInv(s) && Enabled(s, WriteBody(h))
    ensures LogInv(Next(s, WriteBody(h)))
  {
    var s' := Next(s, WriteBody(h));
    var e := Entry(h, s.ops[h].msg);
    forall i | 0 <= i < |s.log| ensures s.log[i].op != h {
      assert s.ops[s.log[i].op].phase.Written();
    }
    forall g | g in s'.ops && s'.ops[g].phase.Written() ensures Logged(s'.log, g) {
      LoggedAppend(s.log, e, g);
      assert g != h ==> s.ops[g].phase.Written();
    }
  }

  lemma LogStep(s: State, l: Label)
    requires TableInv(s) && OpsInv(s) && LogInv(s) && Enabled(s, l)
    ensures LogInv(Next(s, l))
  {
    if l.WriteBody? {
      LogAppend(s, l.h);
    } else {
      OpMoves(s, l);
      LogField(s, l);
      WrittenStill(s, l, Next(s, l));
      LogStill(s, Next(s, l));
    }
  }

  lemma LogField(s: State, l: Label)
    requires Enabled(s, l) && !l.WriteBody?
    ensures Next(s, l).log == s.log
  {
    if !WireLabel(l) {
      Leaves(s, l);
    }
  }

  lemma WrittenStill(s: State, l: Label, s': State)
    requires OpMove(s, l, s') && !l.WriteBody?
    ensures forall h | h in s.ops ::
              && h in s'.ops && s'.ops[h].msg == s.ops[h].msg
              && s'.ops[h].phase.Written() == s.ops[h].phase.Written()
    ensures forall h | h in s'.ops && h !in s.ops :: !s'.ops[h].phase.Written()
  {
  }

  lemma HolderStill(s: State, l: Label, s': State)
    requires LockInv(s) && !WireLabel(l) && OpMove(s, l, s') && s'.writer == s.writer
    ensures Partial(s') == Partial(s) && OpenGrant(s') == OpenGrant(s)
  {
    if s.writer.Some? {
      assert s.ops[s.writer.value].phase.HoldsLock();
      assert s'.ops[s.writer.value] == s.ops[s.writer.value];
    }
  }

  lemma TornStill(s: State, l: Label, s': State)
    requires OpMove(s, l, s') && !WireLabel(l) && forall h | h in s.ops :: !s.ops[h].phase.Torn?
    ensures forall h | h in s'.ops :: !s'.ops[h].phase.Torn?
  {
  }

  lemma WireStill(s: State, l: Label, s': State)
    requires LockInv(s) && WireInv(s) && !WireLabel(l) && OpMove(s, l, s') && s'.out == s.out && s'.log == s.log
    requires s'.grants == s.grants && s'.writer == s.writer && s'.failed == s.failed
    ensures WireInv(s')
  {
    HolderStill(s, l, s');
    if !s.failed {
      TornStill(s, l, s');
    }
  }

  lemma BodiesAppend(log: seq<Entry>, e: Entry)
    ensures FramesOf(Bodies(log + [e])) == FramesOf(Bodies(log)) + FrameOf(e.msg.body)
    ensures Writers(log + [e]) == Writers(log) + [e.op]
  {
    var bodies := Bodies(log + [e]);
    assert bodies[..|bodies| - 1] == Bodies(log);
  }

  lemma FrameCompleted(frames: Text, body: Text)
    ensures (frames + HeaderOf(body)) + body == frames + FrameOf(body)
    ensures frames + FrameOf(body) + "" == frames + FrameOf(body)
  {
  }

  lemma BodyWritten(s: State, h: nat)
    requires Enabled(s, WriteBody(h))
    ensures var s', e := Next(s, WriteBody(h)), Entry(h, s.ops[h].msg);
            && s'.out == s.out + e.msg.body && s'.log == s.log + [e]
            && s'.grants == s.grants && s'.failed == s.failed && s'.writer == s.writer
  {
  }

  lemma WireWriteBody(s: State, h: nat)
    requires LockInv(s) && WireInv(s) && Enabled(s, WriteBody(h))
    ensures WireInv(Next(s, WriteBody(h)))
  {
    BodyWritten(s, h);
    OpMoves(s, WriteBody(h));
    WireCompleted(s, h, Next(s, WriteBody(h)));
  }

  lemma WireCompleted(s: State, h: nat, s': State)
    requires LockInv(s) && WireInv(s) && At(s, h, HeaderOut) && OpMove(s, WriteBody(h), s')
    requires var e := Entry(h, s.ops[h].msg);
             && s'.out == s.out + e.msg.body && s'.log == s.log + [e]
             && s'.grants == s.grants && s'.failed == s.failed && s'.writer == s.writer
    ensures WireInv(s')
  {
    var e := Entry(h, s.ops[h].msg);
    assert s.ops[h].phase.HoldsLock();
    BodiesAppend(s.log, e);
    FrameCompleted(FramesOf(Bodies(s.log)), e.msg.body);
    assert Partial(s) == HeaderOf(e.msg.body) && Partial(s') == "";
    assert OpenGrant(s) == [h] && OpenGrant(s') == [];
    assert Writers(s'.log) + [] == Writers(s'.log);
  }

  lemma WireHeader(s: State, h: nat)
    requires LockInv(s) && WireInv(s) && Enabled(s, WriteHeader(h))
    ensures WireInv(Next(s, WriteHeader(h)))
  {
    var s' := Next(s, WriteHeader(h));
    assert s.ops[h].phase.HoldsLock();
    assert Partial(s) == "" && Partial(s') == HeaderOf(s.ops[h].msg.body);
    assert FramesOf(Bodies(s.log)) + "" == FramesOf(Bodies(s.log));
  }

  lemma WireLock(s: State, l: Label)
    requires LockInv(s) && WireInv(s) && Enabled(s, l) && (l.Lock? || l.Unlock? || l.FailWrite?)
    ensures WireInv(Next(s, l))
  {
    var s', h := Next(s, l), l.h;
    assert s.ops[h].phase.HoldsLock() <==> s.writer == Some(h);
    assert l.FailWrite? || Partial(s') == Partial(s);
  }

  lemma WireStep(s: State, l: Label)
    requires LockInv(s) && WireInv(s) && Enabled(s, l)
    ensures WireInv(Next(s, l))
  {
    if l.WriteBody? {
      WireWriteBody(s, l.h);
    } else if l.WriteHeader? {
      WireHeader(s, l.h);
    } else if WireLabel(l) {
      WireLock(s, l);
    } else {
      OpMoves(s, l);
      Leaves(s, l);
      WireStill(s, l, Next(s, l));
    }
  }

  // ------------------------------------------------------------------- chunks

  /** What an operation has contributed to stdin: its whole frame once written, a
      part of it where a write failed, and its header, or nothing yet, while it
      holds the lock. */
  predicate ChunkFits(op: Op, chunk: Text) {
    var frame := FrameOf(op.msg.body);
    match op.phase
    case Ready => false
    case Locked => chunk == ""
    case HeaderOut => chunk == HeaderOf(op.msg.body)
    case Torn => chunk <= frame
    case Leaving(o) => if o.WriteFailed? then chunk <= frame else !o.Rejected? && chunk == frame
    case Done(o) => if o.WriteFailed? then chunk <= frame else !o.Rejected? && chunk == frame
    case _ => chunk == frame
  }

  /** The bytes on stdin, cut by the grants of the lock they were written under. */
  ghost predicate Chunked(s: State, chunks: seq<Text>) {
    && |chunks| == |s.grants| && s.out == Concat(chunks)
    && forall i | 0 <= i < |chunks| :: s.grants[i] in s.ops && ChunkFits(s.ops[s.grants[i]], chunks[i])
  }

  predicate Granted(s: State, h: nat) {
    exists i :: 0 <= i < |s.grants| && s.grants[i] == h
  }

  predicate PastLock(phase: Phase) {
    !phase.Ready? && !((phase.Leaving? || phase.Done?) && phase.outcome.Rejected?)
  }

  ghost predicate GrantInv(s: State) {
    && (forall i, j | 0 <= i < j < |s.grants| :: s.grants[i] != s.grants[j])
    && (forall h | h in s.ops && PastLock(s.ops[h].phase) :: Granted(s, h))
    && (forall h | Granted(s, h) :: h in s.ops && PastLock(s.ops[h].phase))
    && (s.writer.Some? ==> s.grants != [] && s.grants[|s.grants| - 1] == s.writer.value)
  }

  ghost predicate ChunksInv(s: State) {
    exists chunks :: Chunked(s, chunks)
  }

  predicate WritesLabel(l: Label) {
    l.Lock? || l.WriteHeader? || l.WriteBody? || l.FailWrite?
  }

  lemma WritesFields(s: State, l: Label)
    requires Enabled(s, l) && !WritesLabel(l)
    ensures var s' := Next(s, l);
            s'.out == s.out && s'.grants == s.grants && (s'.writer == s.writer || s'.writer == None)
  {
    if !l.Unlock? {
      Leaves(s, l);
    }
  }

  lemma PastStays(s: State, l: Label, s': State)
    requires OpMove(s, l, s') && !l.Lock?
    ensures forall h | h in s'.ops && PastLock(s'.ops[h].phase) :: h in s.ops && PastLock(s.ops[h].phase)
    ensures forall h | h in s.ops && PastLock(s.ops[h].phase) :: h in s'.ops && PastLock(s'.ops[h].phase)
  {
  }

  lemma GrantStill(s: State, l: Label, s': State)
    requires GrantInv(s) && OpMove(s, l, s') && !l.Lock? && s'.grants == s.grants
    requires s'.writer == s.writer || s'.writer == None
    ensures GrantInv(s')
  {
    PastStays(s, l, s');
    assert forall h :: Granted(s', h) == Granted(s, h);
  }

  lemma GrantLock(s: State, h: nat, s': State)
    requires GrantInv(s) && OpMove(s, Lock(h), s') && s'.grants == s.grants + [h] && s'.writer == Some(h)
    ensures GrantInv(s')
  {
    assert !Granted(s, h);
    assert s'.grants[|s.grants|] == h;
    forall g ensures Granted(s', g) <==> Granted(s, g) || g == h {
      if Granted(s, g) {
        var i :| 0 <= i < |s.grants| && s.grants[i] == g;
        assert s'.grants[i] == g;
      }
    }
  }

  lemma ChunkAdvances(op: Op, op': Op, chunk: Text)
    requires ChunkFits(op, chunk) && Advances(op, op') && !op.phase.Locked? && !op.phase.HeaderOut?
    ensures ChunkFits(op', chunk)
  {
  }

  lemma ChunksStill(s: State, l: Label, s': State, chunks: seq<Text>)
    requires Chunked(s, chunks) && OpMove(s, l, s') && !WritesLabel(l) && s'.out == s.out && s'.grants == s.grants
    ensures Chunked(s', chunks)
  {
    forall i | 0 <= i < |chunks| ensures s'.grants[i] in s'.ops && ChunkFits(s'.ops[s'.grants[i]], chunks[i]) {
      var h := s.grants[i];
      if s'.ops[h] != s.ops[h] {
        ChunkAdvances(s.ops[h], s'.ops[h], chunks[i]);
      }
    }
  }

  lemma NoMore(chunks: seq<Text>)
    ensures Concat(chunks + [""]) == Concat(chunks)
  {
    ConcatLast(chunks, "");
    assert Concat(chunks) + "" == Concat(chunks);
  }

  lemma ChunksLock(s: State, h: nat, s': State, chunks: seq<Text>)
    requires GrantInv(s) && Chunked(s, chunks) && OpMove(s, Lock(h), s') && s'.ops[h].phase == Locked
    requires s'.grants == s.grants + [h] && s'.out == s.out
    ensures Chunked(s', chunks + [""])
  {
    NoMore(chunks);
    assert !Granted(s, h);
    forall i | 0 <= i < |chunks| ensures s'.ops[s.grants[i]] == s.ops[s.grants[i]] {
      assert s.grants[i] != h;
    }
  }

  lemma ConcatGrow(front: seq<Text>, last: Text, more: Text)
    ensures Concat(front + [last + more]) == Concat(front + [last]) + more
  {
    ConcatLast(front, last + more);
    ConcatLast(front, last);
    Associate(Concat(front), last, more);
  }

  lemma EarlierGrants(s: State, l: Label, s': State)
    requires GrantInv(s) && OpMove(s, l, s') && TouchesOp(l) && s.writer == Some(l.h)
    ensures s.grants != [] && s.grants[|s.grants| - 1] == l.h
    ensures forall i | 0 <= i < |s.grants| - 1 && s.grants[i] in s.ops ::
              s.grants[i] in s'.ops && s'.ops[s.grants[i]] == s.ops[s.grants[i]]
  {
    var n := |s.grants| - 1;
    assert forall i | 0 <= i < n :: s.grants[i] != s.grants[n];
  }

  /** The holder of the lock, whose grant is the last, goes on with its chunk. */
  lemma ChunksGrow(s: State, l: Label, s': State, chunks: seq<Text>, more: Text)
    requires GrantInv(s) && Chunked(s, chunks) && OpMove(s, l, s') && WritesLabel(l) && !l.Lock?
    requires s.writer == Some(l.h) && s'.grants == s.grants && s'.out == s.out + more
    requires forall chunk | ChunkFits(s.ops[l.h], chunk) :: ChunkFits(s'.ops[l.h], chunk + more)
    ensures ChunksInv(s')
  {
    var n := |chunks| - 1;
    EarlierGrants(s, l, s');
    assert chunks == chunks[..n] + [chunks[n]];
    ConcatGrow(chunks[..n], chunks[n], more);
    assert ChunkFits(s.ops[s.grants[n]], chunks[n]);
    LastChunk(s, s', chunks, chunks[n] + more);
  }

  lemma LastChunk(s: State, s': State, chunks: seq<Text>, last: Text)
    requires Chunked(s, chunks) && chunks != [] && s'.grants == s.grants
    requires s'.out == Concat(chunks[..|chunks| - 1] + [last])
    requires forall i | 0 <= i < |s.grants| - 1 :: s.grants[i] in s'.ops && s'.ops[s.grants[i]] == s.ops[s.grants[i]]
    requires var h := s.grants[|chunks| - 1]; h in s'.ops && ChunkFits(s'.ops[h], last)
    ensures ChunksInv(s')
  {
    var chunks' := chunks[..|chunks| - 1] + [last];
    assert forall i | 0 <= i < |chunks| - 1 :: chunks'[i] == chunks[i] && ChunkFits(s.ops[s.grants[i]], chunks[i]);
    assert Chunked(s', chunks');
  }

  /** What a write of the holder sends. */
  function Written(s: State, l: Label): Text
    requires Enabled(s, l) && WritesLabel(l) && !l.Lock?
  {
    if l.FailWrite? then Unwritten(s, l.h)[..l.count] else Unwritten(s, l.h)
  }

  lemma WrittenFits(s: State, l: Label, chunk: Text)
    requires Enabled(s, l) && WritesLabel(l) && !l.Lock? && ChunkFits(s.ops[l.h], chunk)
    ensures ChunkFits(Next(s, l).ops[l.h], chunk + Written(s, l))
  {
    var header, body := HeaderOf(s.ops[l.h].msg.body), s.ops[l.h].msg.body;
    assert "" + header == header;
    if l.FailWrite? {
      PrefixParts(header, body, l.count);
    }
  }

  lemma PrefixParts(header: Text, body: Text, count: nat)
    ensures count <= |header| ==> "" + header[..count] <= header + body
    ensures count <= |body| ==> header + body[..count] <= header + body
  {
  }

  lemma HolderWrites(s: State, l: Label)
    requires LockInv(s) && Enabled(s, l) && WritesLabel(l) && !l.Lock?
    ensures s.writer == Some(l.h)
    ensures Next(s, l).grants == s.grants && Next(s, l).out == s.out + Written(s, l) && Next(s, l).writer == s.writer
  {
    assert s.ops[l.h].phase.HoldsLock();
  }

  lemma LockTaken(s: State, h: nat)
    requires Enabled(s, Lock(h))
    ensures var s' := Next(s, Lock(h));
            s'.grants == s.grants + [h] && s'.out == s.out && s'.writer == Some(h) && At(s', h, Locked)
  {
  }

  lemma GrantStep(s: State, l: Label)
    requires LockInv(s) && GrantInv(s) && Enabled(s, l)
    ensures GrantInv(Next(s, l))
  {
    OpMoves(s, l);
    if l.Lock? {
      LockTaken(s, l.h);
      GrantLock(s, l.h, Next(s, l));
    } else {
      if WritesLabel(l) {
        HolderWrites(s, l);
      } else {
        WritesFields(s, l);
      }
      GrantStill(s, l, Next(s, l));
    }
  }

  /** Every step keeps stdin a sequence of chunks, one for each grant of the lock. */
  lemma ChunksStep(s: State, l: Label)
    requires LockInv(s) && GrantInv(s) && ChunksInv(s) && Enabled(s, l)
    ensures ChunksInv(Next(s, l))
  {
    var chunks :| Chunked(s, chunks);
    OpMoves(s, l);
    if l.Lock? {
      LockTaken(s, l.h);
      ChunksLock(s, l.h, Next(s, l), chunks);
    } else if WritesLabel(l) {
      HolderWrites(s, l);
      forall chunk | ChunkFits(s.ops[l.h], chunk) ensures ChunkFits(Next(s, l).ops[l.h], chunk + Written(s, l)) {
        WrittenFits(s, l, chunk);
      }
      ChunksGrow(s, l, Next(s, l), chunks, Written(s, l));
    } else {
      WritesFields(s, l);
      ChunksStill(s, l, Next(s, l), chunks);
    }
  }

  // ------------------------------------------------------------- all together

  ghost predicate Inv(s: State) {
    && TableInv(s) && OpsInv(s) && DeliveryInv(s) && RaceInv(s)
    && LockInv(s) && LogInv(s) && WireInv(s) && GrantInv(s) && ChunksInv(s)
  }

  lemma InvInit()
    ensures Inv(INIT)
  {
    assert FramesOf(Bodies([])) + "" == "" && Writers([]) + [] == [];
    assert Chunked(INIT, []);
  }

  /** One step of any goroutine keeps every invariant. */
  lemma InvStep(s: State, l: Label)
    requires Inv(s) && Enabled(s, l)
    ensures Inv(Next(s, l))
  {
    TableStep(s, l);
    OpsStep(s, l);
    DeliveryStep(s, l);
    RaceStep(s, l);
    LockStep(s, l);
    LogStep(s, l);
    WireStep(s, l);
    GrantStep(s, l);
    ChunksStep(s, l);
  }

  lemma {:induction false} InvSteps(s: State, ls: seq<Label>, s': State)
    requires Inv(s) && Steps(s, ls, s')
    ensures Inv(s')
    decreases |ls|
  {
    if ls != [] {
      InvStep(s, ls[0]);
      InvSteps(Next(s, ls[0]), ls[1..], s');
    }
  }

  lemma ReachableInv(s: State)
    requires Reachable(s)
    ensures Inv(s)
  {
    var ls :| Steps(INIT, ls, s);
    InvInit();
    InvSteps(INIT, ls, s);
  }

  lemma ReachableStep(s: State, l: Label)
    requires Reachable(s) && Enabled(s, l)
    ensures Reachable(Next(s, l))
  {
    var ls :| Steps(INIT, ls, s);
    StepsOne(s, l);
    StepsAppend(INIT, ls, s, [l], Next(s, l));
  }

  lemma PartialIsNoFrame(s: State)
    requires LockInv(s)
    ensures ReadAll(Partial(s)) == ([], Partial(s))
  {
    if s.writer.Some? && At(s, s.writer.value, HeaderOut) {
      var body := s.ops[s.writer.value].msg.body;
      ReadPartialFrame(body, |HeaderOf(body)|);
      assert FrameOf(body)[..|HeaderOf(body)|] == HeaderOf(body);
    }
  }

  lemma InvReads(s: State)
    requires LockInv(s) && WireInv(s) && !s.failed
    ensures ReadAll(s.out) == (Bodies(s.log), Partial(s))
  {
    ReadAllFrames(Bodies(s.log), Partial(s));
    PartialIsNoFrame(s);
    assert Bodies(s.log) + [] == Bodies(s.log);
  }
}
