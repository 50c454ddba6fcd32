/** The requests of the server and the replies to them: over every run the reader
    answers exactly the requests it has taken, with their ids and methods, and the
    replies go out in the order of the requests. */
module MultiplexerReplies {
  import opened Bytes
  import opened Decimals
  import opened Multiplexer
  import opened MultiplexerSteps
  import opened MultiplexerInvariant

  /** The replies that frames call for: one for each frame with a method and an id,
      with that id and that method. */
  function Due(frames: seq<Incoming>): seq<Tag> {
    if frames == [] then []
    else Due(frames[..|frames| - 1]) + DueTo(frames[|frames| - 1])
  }

  function DueTo(frame: Incoming): seq<Tag> {
    match frame
    case Malformed => []
    case Incoming(methodName, id, _, _) =>
      if methodName == "" || id == "" then [] else [MethodNotFound(id, methodName)]
  }

  /** The frames the reader has dealt with: all but one it is still holding. */
  function Dealt(s: State): seq<Incoming> {
    if s.reader.Holding? && s.taken != [] then s.taken[..|s.taken| - 1] else s.taken
  }

  predicate IsReply(ops: map<nat, Op>, h: nat) {
    h in ops && ops[h].msg.tag.MethodNotFound?
  }

  /** The replies among operations, in their order. */
  function RepliesAmong(hs: seq<nat>, ops: map<nat, Op>): seq<nat> {
    if hs == [] then []
    else
      RepliesAmong(hs[..|hs| - 1], ops) + (if IsReply(ops, hs[|hs| - 1]) then [hs[|hs| - 1]] else [])
  }

  predicate Refusal(phase: Phase) {
    (phase.Leaving? || phase.Done?) && phase.outcome.Rejected?
  }

  /** All but the last of `hs` have returned; the last may be under way. */
  ghost predicate InTurn(s: State, hs: seq<nat>) {
    && (forall i | 0 <= i < |hs| :: hs[i] in s.ops && !Refusal(s.ops[hs[i]].phase))
    && (forall i | 0 <= i < |hs| - 1 :: s.ops[hs[i]].phase.Done?)
    && (s.reader.Replying? ==> hs != [] && hs[|hs| - 1] == s.reader.h)
    && (!s.reader.Replying? && hs != [] ==> s.ops[hs[|hs| - 1]].phase.Done?)
  }

  /** The replies `hs` are all there are; they answer the requests dealt with, one
      each and in order; and they have been granted the lock in this order, all but
      a last one that still waits for it. */
  ghost predicate AnswerRequests(s: State, hs: seq<nat>) {
    && |hs| == |Due(Dealt(s))| && InTurn(s, hs)
    && (forall i | 0 <= i < |hs| :: IsReply(s.ops, hs[i]) && s.ops[hs[i]].msg.tag == Due(Dealt(s))[i])
    && (forall i, j | 0 <= i < j < |hs| :: hs[i] != hs[j])
    && (forall h | IsReply(s.ops, h) :: h in hs)
    && RepliesAmong(s.grants, s.ops) == if hs != [] && s.ops[hs[|hs| - 1]].phase.Ready? then hs[..|hs| - 1] else hs
  }

  ghost predicate ReplyInv(s: State) {
    exists hs :: AnswerRequests(s, hs)
  }

  lemma {:induction false} SameReplies(hs: seq<nat>, ops: map<nat, Op>, ops': map<nat, Op>)
    requires forall i | 0 <= i < |hs| :: IsReply(ops', hs[i]) == IsReply(ops, hs[i])
    ensures RepliesAmong(hs, ops') == RepliesAmong(hs, ops)
  {
    if hs != [] {
      SameReplies(hs[..|hs| - 1], ops, ops');
    }
  }

  lemma RepliesNext(hs: seq<nat>, h: nat, ops: map<nat, Op>)
    ensures RepliesAmong(hs + [h], ops) == RepliesAmong(hs, ops) + (if IsReply(ops, h) then [h] else [])
  {
    assert (hs + [h])[..|hs|] == hs;
  }

  lemma DueNext(frames: seq<Incoming>)
    requires frames != []
    ensures Due(frames) == Due(frames[..|frames| - 1]) + DueTo(frames[|frames| - 1])
  {
  }

  // ---------------------------------------------------------------- the steps

  /** What is granted exists, and what exists keeps its message. */
  lemma GrantsSame(s: State, l: Label, s': State)
    requires GrantInv(s) && OpMove(s, l, s')
    ensures RepliesAmong(s.grants, s'.ops) == RepliesAmong(s.grants, s.ops)
  {
    forall i | 0 <= i < |s.grants| ensures IsReply(s'.ops, s.grants[i]) == IsReply(s.ops, s.grants[i]) {
      assert Granted(s, s.grants[i]);
    }
    SameReplies(s.grants, s.ops, s'.ops);
  }

  /** What a returned or an unlocked reply may become. */
  lemma RepliesMove(s: State, l: Label, s': State, hs: seq<nat>)
    requires OpMove(s, l, s') && InTurn(s, hs)
    ensures forall i | 0 <= i < |hs| :: hs[i] in s'.ops && !Refusal(s'.ops[hs[i]].phase)
    ensures forall i | 0 <= i < |hs| :: s'.ops[hs[i]].msg == s.ops[hs[i]].msg
    ensures forall i | 0 <= i < |hs| && s.ops[hs[i]].phase.Done? :: s'.ops[hs[i]] == s.ops[hs[i]]
    ensures forall i | 0 <= i < |hs| && s.ops[hs[i]].phase.Ready? :: s'.ops[hs[i]] == s.ops[hs[i]] || l.Lock?
    ensures forall i | 0 <= i < |hs| && s'.ops[hs[i]].phase.Ready? :: s.ops[hs[i]].phase.Ready?
  {
  }

  /** Steps that start no reply, take no lock and leave the requests dealt with. */
  lemma RepliesStay(s: State, l: Label, s': State, hs: seq<nat>)
    requires GrantInv(s) && AnswerRequests(s, hs) && OpMove(s, l, s') && !l.Lock? && !l.Respond?
    requires s'.grants == s.grants && Due(Dealt(s')) == Due(Dealt(s))
    requires Starting(l) ==> !s'.ops[l.h].msg.tag.MethodNotFound?
    requires s'.reader == s.reader || (!s'.reader.Replying? && (!s.reader.Replying? || Finished(s, s.reader.h)))
    ensures AnswerRequests(s', hs)
  {
    GrantsSame(s, l, s');
    RepliesMove(s, l, s', hs);
    NewReplies(s, l, s', hs);
  }

  predicate Finished(s: State, h: nat) {
    h in s.ops && s.ops[h].phase.Done?
  }

  lemma NewReplies(s: State, l: Label, s': State, hs: seq<nat>)
    requires OpMove(s, l, s') && (forall h | IsReply(s.ops, h) :: h in hs)
    requires Starting(l) ==> !s'.ops[l.h].msg.tag.MethodNotFound?
    ensures forall h | IsReply(s'.ops, h) :: h in hs
  {
    forall h | IsReply(s'.ops, h) ensures h in hs {
      assert IsReply(s.ops, h);
    }
  }

  lemma LockReply(s: State, h: nat, s': State, hs: seq<nat>)
    requires GrantInv(s) && AnswerRequests(s, hs) && OpMove(s, Lock(h), s') && s'.ops[h].phase == Locked
    requires s'.grants == s.grants + [h] && s'.reader == s.reader && s'.taken == s.taken
    ensures AnswerRequests(s', hs)
  {
    RepliesMove(s, Lock(h), s', hs);
    NewReplies(s, Lock(h), s', hs);
    LockGrants(s, h, s', hs);
  }

  lemma LockGrants(s: State, h: nat, s': State, hs: seq<nat>)
    requires GrantInv(s) && AnswerRequests(s, hs) && OpMove(s, Lock(h), s') && s'.ops[h].phase == Locked
    requires s'.grants == s.grants + [h]
    ensures RepliesAmong(s'.grants, s'.ops)
         == if hs != [] && s'.ops[hs[|hs| - 1]].phase.Ready? then hs[..|hs| - 1] else hs
  {
    GrantsSame(s, Lock(h), s');
    RepliesNext(s.grants, h, s'.ops);
    if IsReply(s.ops, h) {
      ReplyLocks(s, h, hs);
    } else {
      OthersWait(s, h, s', hs);
      assert RepliesAmong(s.grants, s.ops) + [] == RepliesAmong(s.grants, s.ops);
    }
  }

  lemma ReplyLocks(s: State, h: nat, hs: seq<nat>)
    requires AnswerRequests(s, hs) && IsReply(s.ops, h) && s.ops[h].phase.Ready?
    ensures hs != [] && hs[|hs| - 1] == h && RepliesAmong(s.grants, s.ops) + [h] == hs
  {
    LastLocks(s, h, hs);
    LastGranted(s, h, hs);
  }

  lemma LastGranted(s: State, h: nat, hs: seq<nat>)
    requires AnswerRequests(s, hs) && hs != [] && hs[|hs| - 1] == h && s.ops[h].phase.Ready?
    ensures RepliesAmong(s.grants, s.ops) == hs[..|hs| - 1]
  {
  }

  /** A reply that waits for the lock is the last one. */
  lemma LastLocks(s: State, h: nat, hs: seq<nat>)
    requires AnswerRequests(s, hs) && IsReply(s.ops, h) && s.ops[h].phase.Ready?
    ensures hs != [] && hs[|hs| - 1] == h && hs[..|hs| - 1] + [h] == hs
  {
    var i :| 0 <= i < |hs| && hs[i] == h;
    assert i == |hs| - 1;
  }

  lemma OthersWait(s: State, h: nat, s': State, hs: seq<nat>)
    requires AnswerRequests(s, hs) && OpMove(s, Lock(h), s') && !IsReply(s.ops, h)
    ensures hs != [] ==> hs[|hs| - 1] in s'.ops && s'.ops[hs[|hs| - 1]] == s.ops[hs[|hs| - 1]]
  {
    assert hs != [] ==> IsReply(s.ops, hs[|hs| - 1]);
  }

  /** A new reply has been started after all others have returned. */
  ghost predicate Started(s: State, h: nat, s': State) {
    h !in s.ops && h in s'.ops && s'.ops == s.ops[h := s'.ops[h]] && s'.ops[h].phase == Ready && IsReply(s'.ops, h)
  }

  lemma StartTurn(s: State, h: nat, s': State, hs: seq<nat>)
    requires InTurn(s, hs) && !s.reader.Replying? && Started(s, h, s') && s'.reader == Replying(h)
    ensures InTurn(s', hs + [h])
  {
    var hs' := hs + [h];
    assert forall i | 0 <= i < |hs| :: hs'[i] == hs[i] && hs[i] != h && s'.ops[hs[i]] == s.ops[hs[i]];
  }

  lemma StartAll(s: State, h: nat, s': State, hs: seq<nat>)
    requires (forall g | IsReply(s.ops, g) :: g in hs) && Started(s, h, s')
    ensures forall g | IsReply(s'.ops, g) :: g in hs + [h]
  {
    var hs' := hs + [h];
    assert hs'[|hs|] == h;
    forall g | IsReply(s'.ops, g) ensures g in hs' {
      assert g != h ==> IsReply(s.ops, g);
    }
  }

  lemma StartGrants(s: State, h: nat, s': State)
    requires GrantInv(s) && Started(s, h, s')
    ensures RepliesAmong(s.grants, s'.ops) == RepliesAmong(s.grants, s.ops)
  {
    forall i | 0 <= i < |s.grants| ensures IsReply(s'.ops, s.grants[i]) == IsReply(s.ops, s.grants[i]) {
      assert Granted(s, s.grants[i]);
    }
    SameReplies(s.grants, s.ops, s'.ops);
  }

  lemma LastReturned(s: State, hs: seq<nat>)
    requires AnswerRequests(s, hs) && !s.reader.Replying?
    ensures RepliesAmong(s.grants, s.ops) == hs
  {
  }

  lemma StartTags(s: State, h: nat, s': State, hs: seq<nat>)
    requires AnswerRequests(s, hs) && Started(s, h, s') && Due(Dealt(s')) == Due(Dealt(s)) + [s'.ops[h].msg.tag]
    ensures var hs' := hs + [h];
            && |hs'| == |Due(Dealt(s'))|
            && (forall i | 0 <= i < |hs'| :: IsReply(s'.ops, hs'[i]) && s'.ops[hs'[i]].msg.tag == Due(Dealt(s'))[i])
            && forall i, j | 0 <= i < j < |hs'| :: hs'[i] != hs'[j]
  {
    assert forall i | 0 <= i < |hs| :: IsReply(s.ops, hs[i]) && hs[i] != h;
  }

  lemma StartReply(s: State, h: nat, s': State, hs: seq<nat>)
    requires GrantInv(s) && AnswerRequests(s, hs) && Started(s, h, s') && s.reader.Holding?
    requires s'.grants == s.grants && s'.reader == Replying(h) && Due(Dealt(s')) == Due(Dealt(s)) + [s'.ops[h].msg.tag]
    ensures AnswerRequests(s', hs + [h])
  {
    StartTurn(s, h, s', hs);
    StartAll(s, h, s', hs);
    StartGrants(s, h, s');
    StartTags(s, h, s', hs);
    LastReturned(s, hs);
    assert (hs + [h])[..|hs|] == hs;
  }

  // ------------------------------------------------------- one step at a time

  lemma RespondFields(s: State, l: Label)
    requires Enabled(s, l) && l.Respond?
    ensures var s', frame := Next(s, l), s.taken[|s.taken| - 1];
            && frame.Incoming? && l.h in s'.ops && s'.ops == s.ops[l.h := s'.ops[l.h]] && s'.ops[l.h].phase == Ready
            && s'.ops[l.h].msg.tag == MethodNotFound(frame.id, frame.methodName) && DueTo(frame) == [s'.ops[l.h].msg.tag]
            && s'.grants == s.grants && s'.reader == Replying(l.h) && s'.taken == s.taken
  {
  }

  lemma RespondStep(s: State, l: Label, hs: seq<nat>)
    requires GrantInv(s) && AnswerRequests(s, hs) && Enabled(s, l) && l.Respond?
    ensures AnswerRequests(Next(s, l), hs + [l.h])
  {
    RespondFields(s, l);
    DueNext(s.taken);
    StartReply(s, l.h, Next(s, l), hs);
  }

  lemma LockFields(s: State, h: nat)
    requires Enabled(s, Lock(h))
    ensures var s' := Next(s, Lock(h)); s'.ops[h].phase == Locked && s'.reader == s.reader && s'.taken == s.taken
  {
  }

  /** A step of a caller leaves the reader and its frames alone. */
  lemma CallerStep(s: State, l: Label)
    requires Enabled(s, l) && TouchesOp(l) && !l.Respond?
    ensures Next(s, l).reader == s.reader && Next(s, l).taken == s.taken
    ensures Starting(l) ==> !Next(s, l).ops[l.h].msg.tag.MethodNotFound?
  {
    Leaves(s, l);
    if Starting(l) {
      StarterLeaves(s, l);
      CallerTag(s, l);
    } else if !WireLabel(l) {
      CallerLeaves(s, l);
    }
  }

  lemma CallerTag(s: State, l: Label)
    requires Enabled(s, l) && (l.Register? || l.CheckNotice?)
    ensures !Next(s, l).ops[l.h].msg.tag.MethodNotFound?
  {
  }

  /** A step of the reader passes by only what calls for no reply. */
  lemma ReaderStep(s: State, l: Label)
    requires Enabled(s, l) && !TouchesOp(l)
    ensures Due(Dealt(Next(s, l))) == Due(Dealt(s))
    ensures var r := Next(s, l).reader; r == s.reader || (!r.Replying? && (!s.reader.Replying? || Finished(s, s.reader.h)))
  {
    if l.Take? {
      assert Next(s, l).taken[..|s.taken|] == s.taken;
    } else if l.Skip? || l.LookUp? {
      FramePassed(s, l);
    } else {
      FramesStay(s, l);
    }
  }

  lemma FramePassed(s: State, l: Label)
    requires Enabled(s, l) && (l.Skip? || l.LookUp?)
    ensures Dealt(s) == s.taken[..|s.taken| - 1] && Dealt(Next(s, l)) == s.taken
    ensures Due(Dealt(Next(s, l))) == Due(Dealt(s))
  {
    DueNext(s.taken);
  }

  lemma FramesStay(s: State, l: Label)
    requires Enabled(s, l) && !TouchesOp(l) && !l.Take? && !l.Skip? && !l.LookUp?
    ensures Dealt(Next(s, l)) == Dealt(s)
    ensures var r := Next(s, l).reader; r == s.reader || (!r.Replying? && (!s.reader.Replying? || Finished(s, s.reader.h)))
  {
  }

  lemma GrantsField(s: State, l: Label)
    requires Enabled(s, l) && !l.Lock?
    ensures Next(s, l).grants == s.grants
  {
    if !WireLabel(l) {
      Leaves(s, l);
    }
  }

  lemma LockReplyStep(s: State, h: nat, hs: seq<nat>)
    requires GrantInv(s) && AnswerRequests(s, hs) && Enabled(s, Lock(h))
    ensures AnswerRequests(Next(s, Lock(h)), hs)
  {
    OpMoves(s, Lock(h));
    LockTaken(s, h);
    LockFields(s, h);
    LockReply(s, h, Next(s, Lock(h)), hs);
  }

  lemma OtherFields(s: State, l: Label)
    requires Enabled(s, l) && !l.Respond? && !l.Lock?
    ensures Next(s, l).grants == s.grants && Due(Dealt(Next(s, l))) == Due(Dealt(s))
    ensures Starting(l) ==> !Next(s, l).ops[l.h].msg.tag.MethodNotFound?
    ensures var r := Next(s, l).reader; r == s.reader || (!r.Replying? && (!s.reader.Replying? || Finished(s, s.reader.h)))
  {
    GrantsField(s, l);
    if TouchesOp(l) {
      CallerStep(s, l);
    } else {
      ReaderStep(s, l);
    }
  }

  lemma OtherStep(s: State, l: Label, hs: seq<nat>)
    requires GrantInv(s) && AnswerRequests(s, hs) && Enabled(s, l) && !l.Respond? && !l.Lock?
    ensures AnswerRequests(Next(s, l), hs)
  {
    OpMoves(s, l);
    OtherFields(s, l);
    RepliesStay(s, l, Next(s, l), hs);
  }

  /** Every step keeps the replies in step with the requests. */
  lemma ReplyStep(s: State, l: Label)
    requires GrantInv(s) && ReplyInv(s) && Enabled(s, l)
    ensures ReplyInv(Next(s, l))
  {
    var hs :| AnswerRequests(s, hs);
    if l.Respond? {
      RespondStep(s, l, hs);
    } else if l.Lock? {
      LockReplyStep(s, l.h, hs);
    } else {
      OtherStep(s, l, hs);
    }
  }

  lemma {:induction false} ReplySteps(s: State, ls: seq<Label>, s': State)
    requires LockInv(s) && GrantInv(s) && ReplyInv(s) && Steps(s, ls, s')
    ensures ReplyInv(s')
    decreases |ls|
  {
    if ls != [] {
      LockStep(s, ls[0]);
      GrantStep(s, ls[0]);
      ReplyStep(s, ls[0]);
      ReplySteps(Next(s, ls[0]), ls[1..], s');
    }
  }

  /** In every reachable state the MethodNotFound operations are the answers to the
      server requests dealt with: one for each, with its id and its method, in the
      order of the requests, each returned before the next frame is taken; and they
      have gone through `writeMu` in that order. */
  lemma RequestsAnswered(s: State)
    requires Reachable(s)
    ensures exists hs :: AnswerRequests(s, hs)
  {
    var ls :| Steps(INIT, ls, s);
    NoRequestsYet();
    ReplySteps(INIT, ls, s);
  }

  lemma NoRequestsYet()
    ensures LockInv(INIT) && GrantInv(INIT) && ReplyInv(INIT)
  {
    assert AnswerRequests(INIT, []);
  }
}
