/** When a peer can stop the reader for good: exactly when it answers some call
    twice. The runs that show it are built here, step by step. */
module MultiplexerRuns {
  import opened Bytes
  import opened Decimals
  import opened Framing
  import opened Multiplexer
  import opened MultiplexerSteps
  import opened MultiplexerInvariant
  import opened MultiplexerTheorems

  // ------------------------------------------------------- pieces of any run

  /** Steps that neither start an operation on the caller's side nor close. */
  predicate Ongoing(l: Label) {
    !l.Register? && !l.CheckNotice? && !l.CloseShutdown?
  }

  /** Two states that differ at most in the operations and the wire. */
  predicate SameButWire(s: State, s': State) {
    && s'.table == s.table && s'.chans == s.chans && s'.calls == s.calls
    && s'.reader == s.reader && s'.taken == s.taken && s'.raced == s.raced && s'.failed == s.failed
  }

  /** The operation `h` has written its message and left the lock. */
  predicate WroteOut(s: State, s': State, h: nat)
    requires h in s.ops
  {
    && SameButWire(s, s') && s'.writer == None && h in s'.ops && s'.ops == s.ops[h := s'.ops[h]]
    && s'.ops[h] == s.ops[h].(phase := if s.ops[h].kind.Request? then Waiting else Done(Sent))
  }

  lemma LockTakes(s: State, h: nat) returns (m: State)
    requires At(s, h, Ready) && s.writer == None
    ensures Leads(Ongoing, s, m) && SameButWire(s, m) && m.writer == Some(h)
    ensures m.ops == s.ops[h := s.ops[h].(phase := Locked)]
  {
    m := Next(s, Lock(h));
    LeadsOne(Ongoing, s, Lock(h));
  }

  lemma HeaderLeaves(s: State, h: nat) returns (m: State)
    requires At(s, h, Locked)
    ensures Leads(Ongoing, s, m) && SameButWire(s, m) && m.writer == s.writer
    ensures m.ops == s.ops[h := s.ops[h].(phase := HeaderOut)]
  {
    m := Next(s, WriteHeader(h));
    LeadsOne(Ongoing, s, WriteHeader(h));
  }

  lemma HeaderGoesOut(s: State, h: nat) returns (m: State)
    requires At(s, h, Ready) && s.writer == None
    ensures Leads(Ongoing, s, m) && SameButWire(s, m) && m.writer == Some(h)
    ensures h in m.ops && m.ops == s.ops[h := s.ops[h].(phase := HeaderOut)]
  {
    var a := LockTakes(s, h);
    m := HeaderLeaves(a, h);
    LeadsOn(Ongoing, s, a, m);
  }

  lemma BodyGoesOut(s: State, h: nat) returns (m: State)
    requires At(s, h, HeaderOut)
    ensures Leads(Ongoing, s, m) && SameButWire(s, m) && m.writer == None && h in m.ops
    ensures m.ops == s.ops[h := s.ops[h].(phase := if s.ops[h].kind.Request? then Waiting else Done(Sent))]
  {
    var a := Next(s, WriteBody(h));
    LeadsOne(Ongoing, s, WriteBody(h));
    m := Next(a, Unlock(h));
    LeadsOne(Ongoing, a, Unlock(h));
    LeadsOn(Ongoing, s, a, m);
  }

  lemma WriteOut(s: State, h: nat) returns (s': State)
    requires At(s, h, Ready) && s.writer == None
    ensures Leads(Ongoing, s, s') && WroteOut(s, s', h)
  {
    var m := HeaderGoesOut(s, h);
    s' := BodyGoesOut(m, h);
    LeadsOn(Ongoing, s, m, s');
  }

  /** The reader takes a response and finds the channel of its call. */
  lemma FindCall(s: State, frame: Incoming) returns (s': State)
    requires s.reader == Reading && frame.IsResponse() && frame.id in s.table.pending
    ensures Leads(Ongoing, s, s')
    ensures s' == s.(reader := Found(s.table.pending[frame.id]), taken := s.taken + [frame])
  {
    var a := Next(s, Take(frame));
    LeadsOne(Ongoing, s, Take(frame));
    s' := Next(a, LookUp);
    LeadsOne(Ongoing, a, LookUp);
    LeadsOn(Ongoing, s, a, s');
  }

  lemma {:induction false} FreshHandle(hs: set<nat>) returns (h: nat)
    ensures forall g | g in hs :: g < h
    decreases hs
  {
    if hs == {} {
      h := 0;
    } else {
      var g :| g in hs;
      var above := FreshHandle(hs - {g});
      h := if g < above then above else g + 1;
      assert forall k | k in hs && k != g :: k in hs - {g};
    }
  }

  /** A call has been registered. */
  function WithCall(s: State, h: nat, tag: Tag): State {
    s.(table := Registered(s.table, h), chans := s.chans[h := OPEN], calls := s.calls + [h],
       ops := s.ops[h := Op(Request(s.table.nextId + 1), Message(tag, "0"), Ready)])
  }

  /** A notice has passed its check. */
  function WithNotice(s: State, h: nat, tag: Tag): State {
    s.(ops := s.ops[h := Op(Notice, Message(tag, "0"), Ready)])
  }

  lemma CallRegisters(s: State, h: nat, tag: Tag)
    requires h !in s.ops && !s.table.closed && !tag.MethodNotFound?
    ensures Next(s, Register(h, tag, "0")) == WithCall(s, h, tag)
  {
  }

  lemma NoticePasses(s: State, h: nat, tag: Tag)
    requires h !in s.ops && !s.table.closed && !tag.MethodNotFound?
    ensures Next(s, CheckNotice(h, tag, "0")) == WithNotice(s, h, tag)
  {
  }

  lemma OpReplaced(ops: map<nat, Op>, h: nat, first: Op, last: Op)
    ensures ops[h := first][h := last] == ops[h := last]
  {
  }

  lemma NoticeSent(s: State, h: nat, tag: Tag) returns (s': State)
    requires s.writer == None && h !in s.ops
    ensures Leads(Ongoing, WithNotice(s, h, tag), s') && SameButWire(s, s') && s'.writer == None
    ensures s'.ops == s.ops[h := Op(Notice, Message(tag, "0"), Done(Sent))]
  {
    s' := WriteOut(WithNotice(s, h, tag), h);
    OpReplaced(s.ops, h, WithNotice(s, h, tag).ops[h], s'.ops[h]);
  }

  lemma CallSent(s: State, h: nat, tag: Tag) returns (s': State)
    requires s.writer == None && h !in s.ops
    ensures Leads(Ongoing, WithCall(s, h, tag), s') && SameButWire(WithCall(s, h, tag), s') && s'.writer == None
    ensures s'.ops == s.ops[h := Op(Request(s.table.nextId + 1), Message(tag, "0"), Waiting)]
  {
    s' := WriteOut(WithCall(s, h, tag), h);
    CallWritten(s, h, tag, s');
  }

  lemma CallWritten(s: State, h: nat, tag: Tag, s': State)
    requires WroteOut(WithCall(s, h, tag), s', h)
    ensures s'.ops == s.ops[h := Op(Request(s.table.nextId + 1), Message(tag, "0"), Waiting)]
  {
    OpReplaced(s.ops, h, WithCall(s, h, tag).ops[h], s'.ops[h]);
  }

  // ------------------------------------------------------- frames that pass by

  predicate Idle(s: State) {
    s.reader == Reading && s.writer == None && !s.table.closed && !s.raced
  }

  predicate PassesBy(s: State, frame: Incoming) {
    frame.IsResponse() ==> frame.id !in s.table.pending
  }

  /** The reader has taken these frames, and no call has noticed. */
  ghost predicate Passed(s: State, frames: seq<Incoming>, s': State) {
    && Idle(s') && s'.table == s.table && s'.chans == s.chans && s'.taken == s.taken + frames
    && forall h | h in s.ops :: h in s'.ops && s'.ops[h] == s.ops[h]
  }

  lemma StartReply(s: State, h: nat) returns (m: State)
    requires s.reader == Holding && s.writer == None && s.taken != [] && Current(s).IsServerRequest() && h !in s.ops
    ensures Leads(Ongoing, s, m) && At(m, h, Ready) && m.writer == None && m.reader == Replying(h)
    ensures !m.ops[h].kind.Request? && m.ops == s.ops[h := m.ops[h]] && SameButWire(s.(reader := m.reader), m)
  {
    m := Next(s, Respond(h, "0"));
    LeadsOne(Ongoing, s, Respond(h, "0"));
  }

  lemma EndReply(s: State, h: nat) returns (m: State)
    requires s.reader == Replying(h) && At(s, h, Done(Sent))
    ensures Leads(Ongoing, s, m) && m == s.(reader := Reading)
  {
    m := Next(s, RespondDone);
    LeadsOne(Ongoing, s, RespondDone);
  }

  lemma ReplyGoesOut(s: State, h: nat) returns (m: State)
    requires At(s, h, Ready) && s.writer == None && !s.ops[h].kind.Request?
    ensures Leads(Ongoing, s, m) && SameButWire(s, m) && m.writer == None
    ensures At(m, h, Done(Sent)) && m.ops == s.ops[h := m.ops[h]]
  {
    m := WriteOut(s, h);
  }

  lemma AnswerRequest(s: State, h: nat) returns (s': State)
    requires s.reader == Holding && s.writer == None && s.taken != [] && Current(s).IsServerRequest() && h !in s.ops
    ensures Leads(Ongoing, s, s') && s'.writer == None && SameButWire(s.(reader := Reading), s')
    ensures h in s'.ops && s'.ops == s.ops[h := s'.ops[h]]
  {
    var b := ReplyWritten(s, h);
    s' := EndReply(b, h);
    LeadsOn(Ongoing, s, b, s');
  }

  lemma ReplyWritten(s: State, h: nat) returns (m: State)
    requires s.reader == Holding && s.writer == None && s.taken != [] && Current(s).IsServerRequest() && h !in s.ops
    ensures Leads(Ongoing, s, m) && m.writer == None && m.reader == Replying(h)
    ensures SameButWire(s.(reader := m.reader), m) && At(m, h, Done(Sent)) && m.ops == s.ops[h := m.ops[h]]
  {
    var a := StartReply(s, h);
    m := ReplyGoesOut(a, h);
    LeadsOn(Ongoing, s, a, m);
  }

  lemma TakeFrame(s: State, frame: Incoming) returns (m: State)
    requires s.reader == Reading
    ensures Leads(Ongoing, s, m) && m == s.(reader := Holding, taken := s.taken + [frame]) && Current(m) == frame
  {
    m := Next(s, Take(frame));
    LeadsOne(Ongoing, s, Take(frame));
  }

  lemma DropFrame(s: State) returns (m: State)
    requires s.reader == Holding && s.taken != [] && !Current(s).IsServerRequest() && PassesBy(s, Current(s))
    ensures Leads(Ongoing, s, m) && m == s.(reader := Reading)
  {
    var l := if Current(s).IsResponse() then LookUp else Skip;
    m := Next(s, l);
    LeadsOne(Ongoing, s, l);
  }

  lemma PassFrame(s: State, frame: Incoming) returns (s': State)
    requires Idle(s) && PassesBy(s, frame)
    ensures Leads(Ongoing, s, s') && Passed(s, [frame], s')
  {
    var a := TakeFrame(s, frame);
    if frame.IsServerRequest() {
      var h := FreshHandle(s.ops.Keys);
      s' := AnswerRequest(a, h);
    } else {
      s' := DropFrame(a);
    }
    LeadsOn(Ongoing, s, a, s');
  }

  lemma PassedOn(s: State, frames: seq<Incoming>, m: State, s': State)
    requires frames != [] && Passed(s, [frames[0]], m) && Passed(m, frames[1..], s')
    ensures Passed(s, frames, s')
  {
    assert s.taken + frames == s.taken + [frames[0]] + frames[1..];
  }

  lemma StillPass(s: State, frames: seq<Incoming>, m: State)
    requires frames != [] && m.table == s.table && forall i | 0 <= i < |frames| :: PassesBy(s, frames[i])
    ensures forall i | 0 <= i < |frames[1..]| :: PassesBy(m, frames[1..][i])
  {
    forall i | 0 <= i < |frames[1..]| ensures PassesBy(m, frames[1..][i]) {
      assert PassesBy(s, frames[i + 1]);
    }
  }

  lemma PassedNone(s: State)
    requires Idle(s)
    ensures Passed(s, [], s)
  {
  }

  lemma {:induction false} PassFrames(s: State, frames: seq<Incoming>) returns (s': State)
    requires Idle(s) && forall i | 0 <= i < |frames| :: PassesBy(s, frames[i])
    ensures Leads(Ongoing, s, s') && Passed(s, frames, s')
    decreases |frames|
  {
    if frames == [] {
      LeadsNowhere(Ongoing, s);
      PassedNone(s);
      s' := s;
    } else {
      var m := PassFrame(s, frames[0]);
      StillPass(s, frames, m);
      s' := PassFrames(m, frames[1..]);
      LeadsOn(Ongoing, s, m, s');
      PassedOn(s, frames, m, s');
    }
  }

  // --------------------------------------------------- a peer that answers twice

  /** The reader faces the full channel of a call that has returned. */
  ghost predicate Stuck(s: State) {
    && s.reader.Found? && s.reader.h in s.ops && s.ops[s.reader.h].phase.Done?
    && s.reader.h in s.chans && s.chans[s.reader.h].buf.Some? && !s.chans[s.reader.h].closed
  }

  lemma ReturnedNotPending(s: State, h: nat)
    requires TableInv(s) && h in s.ops && s.ops[h].phase.Done?
    ensures h !in s.table.pending.Values
  {
  }

  lemma StuckStep(s: State, l: Label)
    requires TableInv(s) && Stuck(s) && Enabled(s, l)
    ensures Stuck(Next(s, l)) && Next(s, l).taken == s.taken
  {
    ReturnedNotPending(s, s.reader.h);
    OpMoves(s, l);
    ReturnedStays(s, l, Next(s, l), s.reader.h);
    StuckReader(s, l);
    StuckChannel(s, l);
  }

  lemma ReturnedStays(s: State, l: Label, s': State, h: nat)
    requires OpMove(s, l, s') && h in s.ops && s.ops[h].phase.Done?
    ensures h in s'.ops && s'.ops[h] == s.ops[h]
  {
  }

  lemma StuckReader(s: State, l: Label)
    requires Stuck(s) && Enabled(s, l)
    ensures Next(s, l).reader == s.reader && Next(s, l).taken == s.taken && !l.Send?
  {
    if TouchesOp(l) {
      Leaves(s, l);
      if Starting(l) {
        StarterLeaves(s, l);
      } else if !WireLabel(l) {
        CallerLeaves(s, l);
      }
    }
  }

  lemma StuckChannel(s: State, l: Label)
    requires TableInv(s) && Stuck(s) && Enabled(s, l) && s.reader.h !in s.table.pending.Values
    ensures var chans, h := Next(s, l).chans, s.reader.h; h in chans && chans[h] == s.chans[h]
  {
    StuckReader(s, l);
    Leaves(s, l);
    if l.Register? {
      StarterLeaves(s, l);
    } else if l.Receive? {
      CallerLeaves(s, l);
    } else if Shuts(l) {
      ShutLeaves(s, l);
    }
  }

  lemma StuckSendsNot(s: State)
    requires Stuck(s)
    ensures !Enabled(s, Send)
  {
  }

  /** Whatever happens afterwards, shutdown included, the reader takes no other
      frame. */
  lemma {:induction false} StuckForGood(s: State, ls: seq<Label>, s': State)
    requires TableInv(s) && OpsInv(s) && Stuck(s) && Steps(s, ls, s')
    ensures Stuck(s') && s'.taken == s.taken && !Enabled(s', Send)
    decreases |ls|
  {
    if ls == [] {
      StuckSendsNot(s);
    } else {
      StuckStep(s, ls[0]);
      TableStep(s, ls[0]);
      OpsStep(s, ls[0]);
      StuckForGood(Next(s, ls[0]), ls[1..], s');
    }
  }

  /** A call that has not returned can still be cut short by closing the table. */
  lemma CloseFrees(s: State)
    requires TableInv(s) && s.reader.Found? && s.taken != [] && RequestOp(s, s.reader.h) && s.reader.h in s.chans
    requires !s.ops[s.reader.h].phase.Done?
    ensures Enabled(Next(s, CloseShutdown("")), Send)
  {
    var h := s.reader.h;
    assert Listed(s, h);
    assert !s.table.closed ==> h in s.table.pending.Values;
  }

  lemma NotStuckFrees(s: State) returns (s': State)
    requires Reachable(s) && s.reader.Found? && !Stuck(s)
    ensures (exists ls :: Steps(s, ls, s')) && Enabled(s', Send)
  {
    ReachableFound(s);
    if Enabled(s, Send) {
      s' := s;
      assert Steps(s, [], s);
    } else {
      CloseFrees(s);
      s' := Next(s, CloseShutdown(""));
      StepsOne(s, CloseShutdown(""));
    }
  }

  lemma ReachableFound(s: State)
    requires Reachable(s) && s.reader.Found?
    ensures TableInv(s) && OpsInv(s) && s.taken != [] && RequestOp(s, s.reader.h) && s.reader.h in s.chans
  {
    ReachableInv(s);
  }

  /** A reader between lookup and send is stuck if and only if no continuation,
      whatever the callers, the peer and `Close` do, lets it send. */
  lemma StuckIff(s: State)
    requires Reachable(s) && s.reader.Found?
    ensures Stuck(s) <==> forall ls, s' :: Steps(s, ls, s') ==> !Enabled(s', Send)
  {
    ReachableFound(s);
    if Stuck(s) {
      forall ls, s' | Steps(s, ls, s') ensures !Enabled(s', Send) {
        StuckForGood(s, ls, s');
      }
    } else {
      var s' := NotStuckFrees(s);
    }
  }

  // ------------------------------------------------------- building such a run

  /** A connection on which `n` calls have come and gone. */
  predicate Quiescent(s: State, n: nat) {
    Idle(s) && s.table == Table(n, map[], false, None) && s.taken == []
  }

  /** A call is registered and waits for its answer. */
  predicate Awaits(s: State, h: nat, n: nat) {
    && Idle(s) && n >= 1 && h in s.ops && s.ops[h].kind == Request(n) && s.ops[h].phase == Waiting
    && s.table == Table(n, map[Decimal(n) := h], false, None) && h in s.chans
  }

  lemma StartCall(s: State, n: nat) returns (h: nat, s': State)
    requires Reachable(s) && Idle(s) && s.table == Table(n, map[], false, None)
    ensures Reachable(s') && Awaits(s', h, n + 1) && s'.chans[h] == OPEN && s'.taken == s.taken
  {
    h := FreshHandle(s.ops.Keys);
    var l := Register(h, Initialize, "0");
    var m := Next(s, l);
    ReachableStep(s, l);
    s' := WriteOut(m, h);
    LeadsReachable(Ongoing, m, s');
    assert map[][Decimal(n + 1) := h] == map[Decimal(n + 1) := h];
  }

  /** The call times out and deregisters. */
  lemma EndCall(s: State, h: nat) returns (s': State)
    requires At(s, h, Waiting) && s.ops[h].kind.Request?
    ensures Leads(Ongoing, s, s') && s'.table == Deregistered(s.table, Decimal(s.ops[h].kind.id))
    ensures s' == s.(table := s'.table, ops := s.ops[h := s.ops[h].(phase := Done(TimedOut))])
  {
    var m := CallTimesOut(s, h);
    s' := CallDeregisters(m, h);
    LeadsOn(Ongoing, s, m, s');
    assert m.ops[h := m.ops[h].(phase := Done(TimedOut))] == s.ops[h := s.ops[h].(phase := Done(TimedOut))];
  }

  lemma CallTimesOut(s: State, h: nat) returns (m: State)
    requires At(s, h, Waiting)
    ensures Leads(Ongoing, s, m) && m == s.(ops := s.ops[h := s.ops[h].(phase := Leaving(TimedOut))])
  {
    m := Next(s, TimeOut(h));
    LeadsOne(Ongoing, s, TimeOut(h));
  }

  lemma CallDeregisters(s: State, h: nat) returns (m: State)
    requires At(s, h, Leaving(TimedOut)) && s.ops[h].kind.Request?
    ensures Leads(Ongoing, s, m) && m.table == Deregistered(s.table, Decimal(s.ops[h].kind.id))
    ensures m == s.(table := m.table, ops := s.ops[h := s.ops[h].(phase := Done(TimedOut))])
  {
    m := Next(s, Deregister(h));
    LeadsOne(Ongoing, s, Deregister(h));
  }

  /** One call comes and goes. */
  lemma CallComesAndGoes(s: State, n: nat) returns (s': State)
    requires Reachable(s) && Quiescent(s, n)
    ensures Reachable(s') && Quiescent(s', n + 1)
  {
    var h, a := StartCall(s, n);
    s' := EndCall(a, h);
    LeadsReachable(Ongoing, a, s');
    assert map[Decimal(n + 1) := h] - {Decimal(n + 1)} == map[];
  }

  lemma InitQuiescent()
    ensures Reachable(INIT) && Quiescent(INIT, 0)
  {
    assert Steps(INIT, [], INIT);
  }

  lemma {:induction false} ReachQuiescent(n: nat) returns (s: State)
    ensures Reachable(s) && Quiescent(s, n)
  {
    if n == 0 {
      InitQuiescent();
      s := INIT;
    } else {
      var m := ReachQuiescent(n - 1);
      s := CallComesAndGoes(m, n - 1);
    }
  }

  /** A call is started on a connection that has seen any frames so far, and it has
      the number `n`. */
  lemma ReachCall(frames: seq<Incoming>, n: nat) returns (h: nat, s: State)
    requires n >= 1
    ensures Reachable(s) && Awaits(s, h, n) && s.chans[h] == OPEN && s.taken == frames
  {
    var q := ReachQuiescent(n - 1);
    var a := PassFrames(q, frames);
    LeadsReachable(Ongoing, q, a);
    assert [] + frames == frames;
    h, s := StartCall(a, n - 1);
  }

  lemma Buffer(s: State, h: nat, n: nat, frame: Incoming) returns (s': State)
    requires Reachable(s) && Awaits(s, h, n) && s.chans[h] == OPEN && frame.IsResponse() && frame.id == Decimal(n)
    ensures Reachable(s') && Awaits(s', h, n) && s'.taken == s.taken + [frame]
    ensures s'.chans[h] == Chan(Some(|s.taken|), false)
  {
    var m := FindCall(s, frame);
    LeadsReachable(Ongoing, s, m);
    s' := Next(m, Send);
    ReachableStep(m, Send);
  }

  /** From the first answer on, up to the second: the call times out only once the
      reader has looked its channel up again. */
  lemma BlockWithSecond(s: State, h: nat, n: nat, between: seq<Incoming>, frame: Incoming) returns (s': State)
    requires Reachable(s) && Awaits(s, h, n) && s.chans[h].buf.Some? && !s.chans[h].closed
    requires forall i | 0 <= i < |between| :: between[i].IsResponse() ==> between[i].id != Decimal(n)
    requires frame.IsResponse() && frame.id == Decimal(n)
    ensures Reachable(s') && Stuck(s') && !s'.raced && s'.taken == s.taken + between + [frame]
  {
    var a := PassFrames(s, between);
    LeadsReachable(Ongoing, s, a);
    var b := FindCall(a, frame);
    LeadsReachable(Ongoing, a, b);
    s' := EndCall(b, h);
    LeadsReachable(Ongoing, b, s');
  }

  /** The last frame answers a call that an earlier one has answered. */
  ghost predicate EndsWithSecond(frames: seq<Incoming>) {
    exists i, j :: j == |frames| - 1 && AnswersAgain(frames, i, j)
  }

  lemma NearestAnswer(frames: seq<Incoming>) returns (i: nat)
    requires EndsWithSecond(frames)
    ensures AnswersAgain(frames, i, |frames| - 1)
    ensures forall k | i < k < |frames| - 1 :: frames[k].IsResponse() ==> frames[k].id != frames[i].id
  {
    var last := |frames| - 1;
    var first, j :| j == last && AnswersAgain(frames, first, j);
    i := last - 1;
    while frames[i].IsResponse() ==> frames[i].id != frames[last].id
      invariant first <= i < last
      invariant forall k | i < k < last :: frames[k].IsResponse() ==> frames[k].id != frames[last].id
      decreases i
    {
      i := i - 1;
    }
  }

  lemma TwoAnswers(before: seq<Incoming>, first: Incoming, between: seq<Incoming>, second: Incoming, n: nat)
    returns (s: State)
    requires n >= 1 && first.IsResponse() && first.id == Decimal(n) && second.IsResponse() && second.id == Decimal(n)
    requires forall i | 0 <= i < |between| :: between[i].IsResponse() ==> between[i].id != Decimal(n)
    ensures Reachable(s) && Stuck(s) && !s.raced && s.taken == before + [first] + between + [second]
  {
    var h, a := ReachCall(before, n);
    var b := Buffer(a, h, n, first);
    s := BlockWithSecond(b, h, n, between, second);
  }

  lemma CutTwice(frames: seq<Incoming>, i: nat)
    requires i < |frames| - 1
    ensures frames[..i] + [frames[i]] + frames[i + 1..|frames| - 1] + [frames[|frames| - 1]] == frames
  {
  }

  lemma SecondAnswerBlocks(frames: seq<Incoming>) returns (s: State)
    requires EndsWithSecond(frames)
    ensures Reachable(s) && Stuck(s) && !s.raced && s.taken == frames
  {
    var i := NearestAnswer(frames);
    var n: nat :| n >= 1 && frames[i].id == Decimal(n);
    var last := |frames| - 1;
    var between := frames[i + 1..last];
    forall k | 0 <= k < |between| ensures between[k].IsResponse() ==> between[k].id != Decimal(n) {
      assert between[k] == frames[i + 1 + k];
    }
    s := TwoAnswers(frames[..i], frames[i], between, frames[last], n);
    CutTwice(frames, i);
  }

  /** For all frames: the reader can be stuck on the last of them if and only if it
      answers a call that an earlier one has answered. */
  lemma StuckFrames(frames: seq<Incoming>)
    ensures (exists s :: Reachable(s) && Stuck(s) && s.taken == frames) <==> EndsWithSecond(frames)
  {
    if s :| Reachable(s) && Stuck(s) && s.taken == frames {
      FoundChannel(s);
      assert AnswersAgain(frames, s.chans[s.reader.h].buf.value, |frames| - 1);
    }
    if EndsWithSecond(frames) {
      var s := SecondAnswerBlocks(frames);
    }
  }

  /** The reader holds a frame it can never deliver, whatever is done around it. */
  ghost predicate Halted(s: State) {
    Reachable(s) && s.reader.Found? && forall ls, s' :: Steps(s, ls, s') ==> !Enabled(s', Send)
  }

  /** A peer that sends these frames can have stopped the reader with some of them. */
  ghost predicate CanStop(frames: seq<Incoming>) {
    exists s: State, k: nat :: k <= |frames| && s.taken == frames[..k] && Halted(s)
  }

  lemma StopsOnlyWithSecond(frames: seq<Incoming>, s: State, k: nat)
    requires k <= |frames| && s.taken == frames[..k] && Halted(s)
    ensures !OneResponsePerCall(frames)
  {
    StuckIff(s);
    FoundChannel(s);
    assert AnswersAgain(frames, s.chans[s.reader.h].buf.value, k - 1);
  }

  lemma SecondStops(frames: seq<Incoming>, i: nat, j: nat)
    requires AnswersAgain(frames, i, j)
    ensures CanStop(frames)
  {
    var front := frames[..j + 1];
    assert AnswersAgain(front, i, |front| - 1);
    var s := SecondAnswerBlocks(front);
    StuckIff(s);
    assert Halted(s);
  }

  /** The exact condition for the reader's progress: what a peer sends can stop the
      reader for the rest of the connection if and only if it answers some call
      twice. Responses to anything but a call do no harm in any number. */
  lemma SecondAnswerBlocksReader(frames: seq<Incoming>)
    ensures CanStop(frames) <==> !OneResponsePerCall(frames)
  {
    if CanStop(frames) {
      var s: State, k: nat :| k <= |frames| && s.taken == frames[..k] && Halted(s);
      StopsOnlyWithSecond(frames, s, k);
    }
    if i, j :| AnswersAgain(frames, i, j) {
      SecondStops(frames, i, j);
    }
  }
}
