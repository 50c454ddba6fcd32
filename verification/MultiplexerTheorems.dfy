/** What the multiplexer guarantees in every reachable state and over every run. */
module MultiplexerTheorems {
  import opened Bytes
  import opened Decimals
  import opened Framing
  import opened Multiplexer
  import opened MultiplexerSteps
  import opened MultiplexerInvariant

  // ----------------------------------------------------------- demultiplexing

  /** A call that returns a result returns that of a response frame whose raw id
      is the decimal text of the call's own id. */
  lemma ReplyIsOwn(s: State, h: nat, i: nat)
    requires Reachable(s) && h in s.ops && s.ops[h].phase.Returns(Replied(i))
    ensures s.ops[h].kind.Request? && i < |s.taken|
    ensures s.taken[i].IsResponse() && s.taken[i].id == Decimal(s.ops[h].kind.id)
  {
    ReachableInv(s);
    assert Delivered(s, h, i);
  }

  /** No two calls are given the same frame, in their channels or as a result. */
  lemma NoFrameTwice(s: State, h: nat, g: nat, i: nat)
    requires Reachable(s) && Delivered(s, h, i) && Delivered(s, g, i)
    ensures h == g
  {
    ReachableInv(s);
    assert Answers(s, i, h) && Answers(s, i, g);
    if h != g {
      OwnKey(s, h, g);
    }
  }

  lemma KeysAreDecimal(s: State, k: Text)
    requires TableInv(s) && k in s.table.pending
    ensures AllDigits(k)
  {
  }

  /** A response whose raw id is not a plain decimal number, such as a quoted
      string or `null`, reaches nobody. */
  lemma ForeignIdIgnored(s: State)
    requires Reachable(s) && Enabled(s, LookUp) && !AllDigits(Current(s).id)
    ensures Next(s, LookUp) == s.(reader := Reading)
  {
    ReachableInv(s);
    if Current(s).id in s.table.pending {
      KeysAreDecimal(s, Current(s).id);
    }
  }

  // -------------------------------------------------------------- dispatching

  /** A frame with a method and an id, of whatever shape, is a request of the server:
      the reader can neither skip it nor take it for a response, and any reply it
      starts carries the id and the method of that frame. */
  lemma ServerRequestAnswered(s: State, methodName: Text, id: Text, isError: bool, payload: Text, h: nat, body: Json)
    requires s.reader == Holding && s.taken != [] && h !in s.ops
    requires s.taken[|s.taken| - 1] == Incoming(methodName, id, isError, payload) && methodName != "" && id != ""
    ensures !Enabled(s, Skip) && !Enabled(s, LookUp) && Enabled(s, Respond(h, body))
    ensures Next(s, Respond(h, body))
         == s.(reader := Replying(h),
               ops := s.ops[h := Op(Notice, Message(MethodNotFound(id, methodName), body), Ready)])
  {
  }

  /** A frame with an id and no method is a response, an error response included: it
      can only be looked up, and the lookup finds the call pending under the id. */
  lemma ResponseLookedUp(s: State, id: Text, isError: bool, payload: Text)
    requires s.reader == Holding && s.taken != []
    requires s.taken[|s.taken| - 1] == Incoming("", id, isError, payload) && id != ""
    ensures !Enabled(s, Skip) && (forall h, body :: !Enabled(s, Respond(h, body))) && Enabled(s, LookUp)
    ensures id in s.table.pending ==> Next(s, LookUp) == s.(reader := Found(s.table.pending[id]))
    ensures id !in s.table.pending ==> Next(s, LookUp) == s.(reader := Reading)
  {
  }

  /** Every other frame, notification or malformed, can only be skipped. */
  lemma OtherSkipped(s: State)
    requires s.reader == Holding && s.taken != []
    requires var frame := s.taken[|s.taken| - 1]; frame.Malformed? || frame.id == ""
    ensures Enabled(s, Skip) && Next(s, Skip) == s.(reader := Reading)
    ensures !Enabled(s, LookUp) && forall h, body :: !Enabled(s, Respond(h, body))
  {
  }

  /** At the top of its loop the reader can take any frame, and see the end of the
      stream with any cause; after the end it shuts the table down and stops. */
  lemma ReaderCourse(s: State, frame: Incoming, cause: Text)
    ensures s.reader == Reading ==>
              && Enabled(s, Take(frame)) && Next(s, Take(frame)) == s.(reader := Holding, taken := s.taken + [frame])
              && Enabled(s, EndOfStream(cause)) && Next(s, EndOfStream(cause)) == s.(reader := Ending(cause))
    ensures s.reader.Ending? ==> Enabled(s, ReaderShutdown) && Next(s, ReaderShutdown).reader == Stopped
  {
  }

  lemma FrameInHand(s: State)
    requires Reachable(s)
    ensures s.reader.Holding? || s.reader.Found? ==> s.taken != []
    ensures s.reader.Found? ==> s.reader.h in s.chans
  {
    ReachableInv(s);
  }

  /** What keeps the reader from going on: it has stopped or panicked, it waits for its
      own reply to return, or it faces a channel that is full and open. */
  predicate Held(s: State) {
    match s.reader
    case Stopped => true
    case Panicked => true
    case Replying(h) => h !in s.ops || !s.ops[h].phase.Done?
    case Found(h) => h in s.chans && s.chans[h].buf.Some? && !s.chans[h].closed
    case _ => false
  }

  /** The step the reader takes next; `h` is for a reply, should one be due. */
  function ReaderStep(s: State, h: nat): Label {
    match s.reader
    case Reading => Take(Malformed)
    case Holding =>
      if s.taken != [] && Current(s).IsServerRequest() then Respond(h, "0")
      else if s.taken != [] && Current(s).IsResponse() then LookUp
      else Skip
    case Found(_) => Send
    case Replying(_) => RespondDone
    case Ending(_) => ReaderShutdown
    case _ => Skip
  }

  lemma ReaderStepEnabled(s: State, h: nat)
    requires !Held(s) && h !in s.ops
    requires s.reader.Holding? || s.reader.Found? ==> s.taken != []
    requires s.reader.Found? ==> s.reader.h in s.chans
    ensures Enabled(s, ReaderStep(s, h))
  {
  }

  /** In every reachable state a reader that nothing holds up has a step of its own. */
  lemma ReaderGoesOn(s: State, h: nat)
    requires Reachable(s) && !Held(s) && h !in s.ops
    ensures Enabled(s, ReaderStep(s, h))
  {
    FrameInHand(s);
    ReaderStepEnabled(s, h);
  }

  // ------------------------------------------------------------ the selection

  /** A waiting call may time out at any moment; it may receive exactly when a reply is
      buffered, closed channel or not, and gets that reply; and it sees the channel
      closed exactly when nothing is buffered. */
  lemma SelectIs(s: State, h: nat)
    requires At(s, h, Waiting) && h in s.chans
    ensures Enabled(s, TimeOut(h))
         && Next(s, TimeOut(h)) == s.(ops := s.ops[h := s.ops[h].(phase := Leaving(TimedOut))])
    ensures Enabled(s, Receive(h)) <==> s.chans[h].buf.Some?
    ensures s.chans[h].buf.Some? ==>
              Next(s, Receive(h))
              == s.(ops := s.ops[h := s.ops[h].(phase := Leaving(Replied(s.chans[h].buf.value)))],
                    chans := s.chans[h := Chan(None, s.chans[h].closed)])
    ensures Enabled(s, SeeClosed(h)) <==> s.chans[h].closed && s.chans[h].buf == None
  {
  }

  /** A write of the header or of the body may fail after any number of its bytes, and
      exactly these have then gone out. */
  lemma WriteMayFail(s: State, h: nat, count: nat)
    requires At(s, h, Locked) || At(s, h, HeaderOut)
    requires count <= if At(s, h, Locked) then |HeaderOf(s.ops[h].msg.body)| else |s.ops[h].msg.body|
    ensures Enabled(s, FailWrite(h, count)) && At(Next(s, FailWrite(h, count)), h, Torn)
    ensures Next(s, FailWrite(h, count)).out
         == s.out + (if At(s, h, Locked) then HeaderOf(s.ops[h].msg.body) else s.ops[h].msg.body)[..count]
  {
  }

  // ---------------------------------------------------------- frame integrity

  lemma ReachableWire(s: State)
    requires Reachable(s)
    ensures LockInv(s) && WireInv(s) && LogInv(s)
  {
    ReachableInv(s);
  }

  /** While no write has failed, stdin holds complete frames plus at most the
      header of the lock holder's frame, so a peer that reads it recovers exactly
      the messages written; with the lock free these are the messages of its
      successive holders, and nothing is left over. */
  lemma FrameIntegrity(s: State)
    requires Reachable(s) && !s.failed
    ensures ReadAll(s.out) == (Bodies(s.log), Partial(s))
    ensures s.writer == None ==> Partial(s) == "" && Writers(s.log) == s.grants
    ensures forall i | 0 <= i < |s.log| :: s.log[i].op in s.ops && s.log[i].msg == s.ops[s.log[i].op].msg
  {
    ReachableWire(s);
    InvReads(s);
    assert Writers(s.log) + [] == Writers(s.log);
  }

  /** Failed writes included, stdin is one chunk after another, one for each grant
      of the lock in the order of the grants: the whole frame of an operation past
      its write, a part of the frame of one whose write failed, and from the holder
      its header or nothing so far. No operation is granted the lock twice, and
      every one past it has its grant. */
  lemma WireChunks(s: State)
    requires Reachable(s)
    ensures exists chunks :: Chunked(s, chunks)
    ensures forall i, j | 0 <= i < j < |s.grants| :: s.grants[i] != s.grants[j]
    ensures forall h | h in s.ops && PastLock(s.ops[h].phase) :: Granted(s, h)
  {
    ReachableInv(s);
  }

  /** An operation reports success only after its whole message is on the wire,
      whatever other writes have failed, and it is there exactly once: the bytes
      around it were written under the grants before and after its only grant. */
  lemma ReportedIsWritten(s: State, h: nat)
    requires Reachable(s) && h in s.ops && s.ops[h].phase.Written()
    ensures exists chunks, i :: Chunked(s, chunks) && IsWhole(s, h, chunks, i)
    ensures forall i, j | 0 <= i < j < |s.grants| :: s.grants[i] != s.grants[j]
  {
    WireChunks(s);
    var chunks :| Chunked(s, chunks);
    assert Granted(s, h);
    var i :| 0 <= i < |s.grants| && s.grants[i] == h;
    ConcatAt(chunks, i);
    assert ChunkFits(s.ops[h], chunks[i]);
    assert IsWhole(s, h, chunks, i);
  }

  /** Chunk `i` is the whole frame of `h`. */
  ghost predicate IsWhole(s: State, h: nat, chunks: seq<Text>, i: int)
    requires h in s.ops
  {
    && 0 <= i < |chunks| == |s.grants| && s.grants[i] == h
    && s.out == Concat(chunks[..i]) + FrameOf(s.ops[h].msg.body) + Concat(chunks[i + 1..])
  }

  lemma ConcatAt(chunks: seq<Text>, i: nat)
    requires i < |chunks|
    ensures Concat(chunks) == Concat(chunks[..i]) + chunks[i] + Concat(chunks[i + 1..])
  {
    CutThree(chunks, i);
    ConcatAround(chunks[..i], chunks[i], chunks[i + 1..]);
  }

  lemma CutThree(chunks: seq<Text>, i: nat)
    requires i < |chunks|
    ensures chunks == chunks[..i] + [chunks[i]] + chunks[i + 1..]
  {
  }

  lemma ConcatAround(a: seq<Text>, c: Text, b: seq<Text>)
    ensures Concat(a + [c] + b) == Concat(a) + c + Concat(b)
  {
    ConcatAppend(a + [c], b);
    ConcatLast(a, c);
  }

  /** The messages of the first `k` holders of the lock. */
  function FirstBodies(s: State, k: nat): seq<Text>
    requires k <= |s.grants| && forall i | 0 <= i < k :: s.grants[i] in s.ops
  {
    seq(k, i requires 0 <= i < k => s.ops[s.grants[i]].msg.body)
  }

  lemma ConcatNext(chunks: seq<Text>, k: nat)
    requires k < |chunks|
    ensures Concat(chunks[..k + 1]) == Concat(chunks[..k]) + chunks[k]
  {
    assert chunks[..k + 1] == chunks[..k] + [chunks[k]];
    ConcatLast(chunks[..k], chunks[k]);
  }

  lemma FirstBodiesNext(s: State, k: nat)
    requires k < |s.grants| && forall i | 0 <= i <= k :: s.grants[i] in s.ops
    ensures FramesOf(FirstBodies(s, k + 1)) == FramesOf(FirstBodies(s, k)) + FrameOf(s.ops[s.grants[k]].msg.body)
  {
    var bodies := FirstBodies(s, k + 1);
    assert bodies[..k] == FirstBodies(s, k);
  }

  lemma WholeChunk(s: State, chunks: seq<Text>, i: nat)
    requires Chunked(s, chunks) && i < |chunks| && s.ops[s.grants[i]].phase.Written()
    ensures chunks[i] == FrameOf(s.ops[s.grants[i]].msg.body)
  {
    assert ChunkFits(s.ops[s.grants[i]], chunks[i]);
  }

  lemma {:induction false} WholeChunks(s: State, chunks: seq<Text>, k: nat)
    requires Chunked(s, chunks) && k <= |chunks|
    requires forall i | 0 <= i < k :: s.ops[s.grants[i]].phase.Written()
    ensures Concat(chunks[..k]) == FramesOf(FirstBodies(s, k))
  {
    if k > 0 {
      WholeChunks(s, chunks, k - 1);
      WholeChunk(s, chunks, k - 1);
      ConcatNext(chunks, k - 1);
      FirstBodiesNext(s, k - 1);
    }
  }

  lemma ConcatSplit(chunks: seq<Text>, k: nat)
    requires k <= |chunks|
    ensures Concat(chunks) == Concat(chunks[..k]) + Concat(chunks[k..])
  {
    CutTwo(chunks, k);
    ConcatAppend(chunks[..k], chunks[k..]);
  }

  lemma CutTwo(chunks: seq<Text>, k: nat)
    requires k <= |chunks|
    ensures chunks == chunks[..k] + chunks[k..]
  {
  }

  /** A failed write spoils nothing before it: a peer that reads stdin recovers, in
      order, the messages of all holders of the lock up to the first whose write
      failed or is not finished. */
  lemma ReadsUpToFailure(s: State, k: nat)
    requires Reachable(s) && k <= |s.grants|
    requires forall i | 0 <= i < k :: s.grants[i] in s.ops && s.ops[s.grants[i]].phase.Written()
    ensures FirstBodies(s, k) <= ReadAll(s.out).0
  {
    WireChunks(s);
    var chunks :| Chunked(s, chunks);
    ReadsWhole(s, chunks, k);
  }

  lemma ReadsWhole(s: State, chunks: seq<Text>, k: nat)
    requires Chunked(s, chunks) && k <= |chunks|
    requires forall i | 0 <= i < k :: s.ops[s.grants[i]].phase.Written()
    ensures FirstBodies(s, k) <= ReadAll(s.out).0
  {
    WholeChunks(s, chunks, k);
    ConcatSplit(chunks, k);
    ReadAllFrames(FirstBodies(s, k), Concat(chunks[k..]));
  }

  // ----------------------------------------------------------------- shutdown

  lemma ClosedStep(s: State, l: Label)
    requires TableInv(s) && Enabled(s, l) && s.table.closed
    ensures Next(s, l).table == s.table && Next(s, l).calls == s.calls
  {
    Leaves(s, l);
    if l.Register? {
      StarterLeaves(s, l);
      RefusedCalls(s, l);
    } else if l.Deregister? {
      CallerLeaves(s, l);
      assert s.table.pending - {Decimal(s.ops[l.h].kind.id)} == s.table.pending;
    } else if Shuts(l) {
      ShutLeaves(s, l);
    }
  }

  lemma RefusedCalls(s: State, l: Label)
    requires Enabled(s, l) && l.Register? && s.table.closed
    ensures Next(s, l).calls == s.calls
  {
  }

  /** Once closed, always closed: the table stays empty, no call gets in, the
      first cause is kept, and it is the cause every later failure reports. */
  lemma {:induction false} ClosedForGood(s: State, ls: seq<Label>, s': State)
    requires Inv(s) && s.table.closed && Steps(s, ls, s')
    ensures s'.table == s.table && s'.table.pending == map[] && s'.calls == s.calls
    ensures forall h | h in s'.ops && (s'.ops[h].phase.Leaving? || s'.ops[h].phase.Done?) ::
              (s'.ops[h].phase.outcome.Disconnected? || s'.ops[h].phase.outcome.Rejected?) ==>
                s'.ops[h].phase.outcome.cause == s.table.connErr && s.table.connErr.Some?
    decreases |ls|
  {
    if ls != [] {
      ClosedStep(s, ls[0]);
      InvStep(s, ls[0]);
      ClosedForGood(Next(s, ls[0]), ls[1..], s');
    } else {
      forall h | h in s'.ops ensures CauseFits(s'.table, s'.ops[h].phase) {
      }
    }
  }

  /** After shutdown a call and a notice are refused on the spot, with the recorded
      cause, and nothing else happens: no id is used up, no channel is made, nothing
      is written. */
  lemma RefusedAfterShutdown(s: State, h: nat, tag: Tag, body: Json)
    requires s.table.closed && h !in s.ops && !tag.MethodNotFound?
    ensures var refused := Done(Rejected(s.table.connErr));
            && Next(s, Register(h, tag, body)) == s.(ops := s.ops[h := Op(Refused, Message(tag, body), refused)])
            && Next(s, CheckNotice(h, tag, body)) == s.(ops := s.ops[h := Op(Notice, Message(tag, body), refused)])
  {
  }

  /** Before it, a call gets the next id, a pending entry under its decimal text and
      an empty open channel; a notice needs nothing. */
  lemma AdmittedBefore(s: State, h: nat, tag: Tag, body: Json)
    requires !s.table.closed && h !in s.ops && !tag.MethodNotFound?
    ensures var s', id := Next(s, Register(h, tag, body)), s.table.nextId + 1;
            && s'.table == Table(id, s.table.pending[Decimal(id) := h], false, s.table.connErr)
            && s'.chans == s.chans[h := Chan(None, false)] && s'.out == s.out
            && s'.ops == s.ops[h := Op(Request(id), Message(tag, body), Ready)]
    ensures Next(s, CheckNotice(h, tag, body)) == s.(ops := s.ops[h := Op(Notice, Message(tag, body), Ready)])
  {
  }

  /** The first cause in a run, read off its labels: that of the first `Close` to get
      to the table, or of the end of the stream if the reader gets there first. */
  function FirstCause(ls: seq<Label>, atEnd: Option<Text>): Option<Text> {
    if ls == [] then None
    else
      match ls[0]
      case EndOfStream(cause) => FirstCause(ls[1..], Some(cause))
      case ReaderShutdown => atEnd
      case CloseShutdown(cause) => Some(cause)
      case _ => FirstCause(ls[1..], atEnd)
  }

  function EndCause(reader: Reader): Option<Text> {
    match reader case Ending(cause) => Some(cause) case _ => None
  }

  lemma ShutCause(s: State, l: Label)
    requires Enabled(s, l) && Shuts(l) && !s.table.closed
    ensures Next(s, l).table.closed
    ensures Next(s, l).table.connErr == if l.ReaderShutdown? then EndCause(s.reader) else Some(l.cause)
  {
  }

  lemma StaysOpen(s: State, l: Label)
    requires Enabled(s, l) && !Shuts(l)
    ensures Next(s, l).table.closed == s.table.closed
  {
    Leaves(s, l);
    if l.Register? {
      StarterLeaves(s, l);
    } else if l.Deregister? {
      CallerLeaves(s, l);
    }
  }

  lemma CauseStep(s: State, l: Label)
    requires TableInv(s) && Enabled(s, l)
    ensures s.table.closed ==> Next(s, l).table.connErr == s.table.connErr && Next(s, l).table.closed
    ensures !s.table.closed && !Shuts(l) ==> !Next(s, l).table.closed
    ensures !s.table.closed && Shuts(l) ==>
              Next(s, l).table.closed && Next(s, l).table.connErr == FirstCause([l], EndCause(s.reader))
  {
    CausesStay(s, l);
    if Shuts(l) {
      if !s.table.closed {
        ShutCause(s, l);
      }
    } else {
      StaysOpen(s, l);
    }
  }

  lemma EndCauseStep(s: State, l: Label)
    requires Enabled(s, l) && !Shuts(l)
    ensures EndCause(Next(s, l).reader) == if l.EndOfStream? then Some(l.cause) else EndCause(s.reader)
  {
    if TouchesOp(l) {
      Leaves(s, l);
      if Starting(l) {
        StarterLeaves(s, l);
      } else if !WireLabel(l) {
        CallerLeaves(s, l);
      }
    }
  }

  lemma ShutFirst(ls: seq<Label>, atEnd: Option<Text>)
    requires ls != [] && Shuts(ls[0])
    ensures FirstCause(ls, atEnd) == FirstCause([ls[0]], atEnd)
  {
  }

  lemma {:induction false} CauseOfRun(s: State, ls: seq<Label>, s': State)
    requires TableInv(s) && OpsInv(s) && Steps(s, ls, s')
    ensures s.table.closed ==> s'.table.connErr == s.table.connErr
    ensures !s.table.closed ==> s'.table.connErr == FirstCause(ls, EndCause(s.reader))
    decreases |ls|
  {
    if ls != [] {
      TableStep(s, ls[0]);
      OpsStep(s, ls[0]);
      CauseStep(s, ls[0]);
      if Shuts(ls[0]) {
        ShutFirst(ls, EndCause(s.reader));
      } else {
        EndCauseStep(s, ls[0]);
      }
      CauseOfRun(Next(s, ls[0]), ls[1..], s');
    }
  }

  /** Over every run the recorded cause is the first one, and the table is closed if
      and only if there was one. */
  lemma CauseIsFirst(ls: seq<Label>, s: State)
    requires Steps(INIT, ls, s)
    ensures s.table.connErr == FirstCause(ls, None) && (s.table.closed <==> FirstCause(ls, None).Some?)
  {
    InvInit();
    CauseOfRun(INIT, ls, s);
    InvSteps(INIT, ls, s);
  }

  /** How far an operation is from returning. */
  function Rank(phase: Phase): nat {
    match phase
    case Ready => 7
    case Locked => 6
    case HeaderOut => 5
    case BodyOut => 4
    case Torn => 4
    case Waiting => 3
    case SawClosed => 2
    case Leaving(_) => 1
    case Done(_) => 0
  }

  /** The step an operation takes next without failing, and without timing out unless
      its channel is open and empty. */
  function OwnStep(s: State, h: nat): Label
    requires h in s.ops && !s.ops[h].phase.Done?
  {
    match s.ops[h].phase
    case Ready => Lock(h)
    case Locked => WriteHeader(h)
    case HeaderOut => WriteBody(h)
    case BodyOut => Unlock(h)
    case Torn => Unlock(h)
    case Waiting =>
      if h in s.chans && s.chans[h].buf.Some? then Receive(h)
      else if h in s.chans && s.chans[h].closed then SeeClosed(h)
      else TimeOut(h)
    case SawClosed => ReadCause(h)
    case Leaving(_) => Deregister(h)
  }

  /** After shutdown no call waits in vain: its channel still yields a buffered
      reply, and otherwise shows itself closed. */
  lemma WaitersReleased(s: State, h: nat)
    requires Reachable(s) && s.table.closed && At(s, h, Waiting)
    ensures h in s.chans && s.chans[h].closed
    ensures Enabled(s, if s.chans[h].buf.Some? then Receive(h) else SeeClosed(h))
  {
    ReachableInv(s);
    assert KindFits(s.ops[h]);
    assert RequestOp(s, h) && Listed(s, h);
  }

  lemma ReachableOps(s: State)
    requires Reachable(s)
    ensures TableInv(s) && OpsInv(s) && LockInv(s)
  {
    ReachableInv(s);
  }

  lemma OwnStepEnabled(s: State, h: nat)
    requires OpsInv(s) && LockInv(s) && h in s.ops && !s.ops[h].phase.Done?
    requires !(s.ops[h].phase.Ready? && s.writer.Some?)
    ensures Enabled(s, OwnStep(s, h))
  {
    if s.ops[h].phase.Leaving? {
      LeaverIsCall(s, h);
    }
  }

  lemma HolderCanMove(s: State)
    requires LockInv(s) && s.writer.Some?
    ensures s.writer.value in s.ops && s.ops[s.writer.value].phase.HoldsLock()
    ensures Enabled(s, OwnStep(s, s.writer.value))
  {
  }

  lemma LeaverIsCall(s: State, h: nat)
    requires OpsInv(s) && h in s.ops && s.ops[h].phase.Leaving?
    ensures s.ops[h].kind.Request?
  {
  }

  /** After shutdown every operation can take its own next step, unless it queues
      for the lock, and then the holder of the lock can. */
  lemma ReleasedOps(s: State, h: nat)
    requires Reachable(s) && s.table.closed && h in s.ops && !s.ops[h].phase.Done?
    ensures s.ops[h].phase.Ready? && s.writer.Some? ==>
              && s.writer.value in s.ops && s.ops[s.writer.value].phase.HoldsLock()
              && Enabled(s, OwnStep(s, s.writer.value))
    ensures !(s.ops[h].phase.Ready? && s.writer.Some?) ==> Enabled(s, OwnStep(s, h)) && !OwnStep(s, h).TimeOut?
  {
    ReachableOps(s);
    if s.writer.Some? {
      HolderCanMove(s);
    }
    if !(s.ops[h].phase.Ready? && s.writer.Some?) {
      OwnStepEnabled(s, h);
    }
    if s.ops[h].phase.Waiting? {
      WaitersReleased(s, h);
    }
  }

  /** In every state, a step never puts an operation further from its return, and
      the step of an existing operation brings that one strictly closer. */
  lemma RankFalls(s: State, l: Label, h: nat)
    requires Enabled(s, l) && h in s.ops
    ensures var s' := Next(s, l);
            && h in s'.ops && Rank(s'.ops[h].phase) <= Rank(s.ops[h].phase)
            && (TouchesOp(l) && h == l.h ==> Rank(s'.ops[h].phase) < Rank(s.ops[h].phase))
  {
    OpMoves(s, l);
    RankFollows(s, l, Next(s, l), h);
  }

  lemma RankFollows(s: State, l: Label, s': State, h: nat)
    requires OpMove(s, l, s') && h in s.ops
    ensures h in s'.ops && Rank(s'.ops[h].phase) <= Rank(s.ops[h].phase)
    ensures TouchesOp(l) && h == l.h ==> Rank(s'.ops[h].phase) < Rank(s.ops[h].phase)
  {
  }

  /** The labels by which operations run to their end on their own. */
  predicate Voluntary(l: Label) {
    || l.Lock? || l.WriteHeader? || l.WriteBody? || l.Unlock?
    || l.Receive? || l.SeeClosed? || l.ReadCause? || l.Deregister?
  }

  /** The same, and the timeout. */
  predicate Patient(l: Label) {
    Voluntary(l) || l.TimeOut?
  }

  /** How operations run to their end, once the table is closed or at any time. */
  function Course(closed: bool): Label -> bool {
    if closed then Voluntary else Patient
  }

  lemma OwnStepKeeps(s: State, h: nat)
    requires h in s.ops && !s.ops[h].phase.Done? && Enabled(s, OwnStep(s, h))
    requires s.writer == None || s.writer == Some(h)
    ensures var m := Next(s, OwnStep(s, h));
            && m.table.closed == s.table.closed && (m.writer == None || m.writer == Some(h))
            && m.ops.Keys == s.ops.Keys && Rank(m.ops[h].phase) < Rank(s.ops[h].phase)
            && (forall g | g in s.ops && g != h :: m.ops[g] == s.ops[g])
  {
    var l := OwnStep(s, h);
    OpMoves(s, l);
    WriterField(s, l);
    TableOpen(s, l);
    RankFollows(s, l, Next(s, l), h);
  }

  lemma TableOpen(s: State, l: Label)
    requires Enabled(s, l) && TouchesOp(l) && !Starting(l)
    ensures Next(s, l).table.closed == s.table.closed
  {
    Leaves(s, l);
    if l.Deregister? {
      CallerLeaves(s, l);
    }
  }

  lemma OwnStepLeads(s: State, h: nat, closed: bool)
    requires Reachable(s) && (closed ==> s.table.closed) && h in s.ops && !s.ops[h].phase.Done?
    requires s.writer == None || s.writer == Some(h)
    ensures var l := OwnStep(s, h); Enabled(s, l) && Leads(Course(closed), s, Next(s, l))
  {
    ReachableOps(s);
    OwnStepEnabled(s, h);
    if closed {
      ReleasedOps(s, h);
    }
    LeadsOne(Course(closed), s, OwnStep(s, h));
  }

  lemma TakeOwnStep(s: State, h: nat, closed: bool) returns (m: State)
    requires Reachable(s) && (closed ==> s.table.closed) && h in s.ops && !s.ops[h].phase.Done?
    requires s.writer == None || s.writer == Some(h)
    ensures Leads(Course(closed), s, m) && (closed ==> m.table.closed) && (m.writer == None || m.writer == Some(h))
    ensures m.ops.Keys == s.ops.Keys && Rank(m.ops[h].phase) < Rank(s.ops[h].phase)
    ensures forall g | g in s.ops && g != h :: m.ops[g] == s.ops[g]
  {
    OwnStepLeads(s, h, closed);
    OwnStepKeeps(s, h);
    m := Next(s, OwnStep(s, h));
  }

  lemma HolderKnown(s: State)
    requires Reachable(s) && s.writer.Some?
    ensures s.writer.value in s.ops && s.ops[s.writer.value].phase.HoldsLock()
  {
    ReachableOps(s);
  }

  /** One operation runs to its end while the others stand still. */
  lemma {:induction false} FinishOp(s: State, h: nat, closed: bool) returns (s': State)
    requires Reachable(s) && (closed ==> s.table.closed) && h in s.ops && (s.writer == None || s.writer == Some(h))
    ensures Leads(Course(closed), s, s') && (closed ==> s'.table.closed) && s'.writer == None
    ensures s'.ops.Keys == s.ops.Keys && s'.ops[h].phase.Done?
    ensures forall g | g in s.ops && g != h :: s'.ops[g] == s.ops[g]
    decreases Rank(s.ops[h].phase)
  {
    if s.ops[h].phase.Done? {
      if s.writer.Some? {
        HolderKnown(s);
      }
      LeadsNowhere(Course(closed), s);
      s' := s;
    } else {
      var m := TakeOwnStep(s, h, closed);
      LeadsReachable(Course(closed), s, m);
      s' := FinishOp(m, h, closed);
      LeadsOn(Course(closed), s, m, s');
    }
  }

  ghost function Unfinished(s: State): set<nat> {
    set h | h in s.ops && !s.ops[h].phase.Done?
  }

  lemma {:induction false} FinishAll(s: State, closed: bool) returns (s': State)
    requires Reachable(s) && (closed ==> s.table.closed) && s.writer == None
    ensures Leads(Course(closed), s, s') && s'.ops.Keys == s.ops.Keys
    ensures s'.writer == None && forall h | h in s'.ops :: s'.ops[h].phase.Done?
    decreases Unfinished(s)
  {
    if Unfinished(s) == {} {
      assert forall h | h in s.ops :: h !in Unfinished(s);
      LeadsNowhere(Course(closed), s);
      s' := s;
    } else {
      var h :| h in Unfinished(s);
      var m := FinishOp(s, h, closed);
      LeadsReachable(Course(closed), s, m);
      assert Unfinished(m) == Unfinished(s) - {h};
      s' := FinishAll(m, closed);
      LeadsOn(Course(closed), s, m, s');
    }
  }

  lemma FinishFrom(s: State, closed: bool) returns (s': State)
    requires Reachable(s) && (closed ==> s.table.closed)
    ensures Leads(Course(closed), s, s') && s'.ops.Keys == s.ops.Keys
    ensures s'.writer == None && forall h | h in s'.ops :: s'.ops[h].phase.Done?
  {
    var m := s;
    LeadsNowhere(Course(closed), s);
    if s.writer.Some? {
      HolderKnown(s);
      m := FinishOp(s, s.writer.value, closed);
      LeadsReachable(Course(closed), s, m);
    }
    s' := FinishAll(m, closed);
    LeadsOn(Course(closed), s, m, s');
  }

  /** After shutdown every operation can return with no timeout, no help from the
      peer and no failed write. */
  lemma ShutdownDrains(s: State)
    requires Reachable(s) && s.table.closed
    ensures exists s' :: Leads(Voluntary, s, s') && s'.ops.Keys == s.ops.Keys
                         && forall h | h in s'.ops :: s'.ops[h].phase.Done?
  {
    var s' := FinishFrom(s, true);
  }

  /** No call hangs: in every reachable state all operations can return, by steps of
      their own and timeouts, with no help from the peer. */
  lemma NoCallHangs(s: State)
    requires Reachable(s)
    ensures exists s' :: Leads(Patient, s, s') && s'.ops.Keys == s.ops.Keys
                         && forall h | h in s'.ops :: s'.ops[h].phase.Done?
  {
    var s' := FinishFrom(s, false);
  }

  // ---------------------------------------------------------- reader progress

  /** The raw ids that calls have. */
  ghost predicate CallId(id: Text) {
    exists n: nat :: n >= 1 && id == Decimal(n)
  }

  /** The frames `i` and `j` are responses to one call. */
  ghost predicate AnswersAgain(frames: seq<Incoming>, i: int, j: int) {
    && 0 <= i < j < |frames| && frames[i].IsResponse() && frames[j].IsResponse()
    && frames[i].id == frames[j].id && CallId(frames[i].id)
  }

  /** The peer answers no call twice, as section 5 of JSON-RPC 2.0 asks. Responses
      that answer no call, such as errors with id `null`, may come in any number. */
  ghost predicate OneResponsePerCall(frames: seq<Incoming>) {
    forall i, j :: !AnswersAgain(frames, i, j)
  }

  /** A full channel in front of the reader takes a second response to one call. */
  lemma FullMeansAgain(s: State)
    requires TableInv(s) && DeliveryInv(s) && s.reader.Found? && s.chans[s.reader.h].buf.Some?
    ensures AnswersAgain(s.taken, s.chans[s.reader.h].buf.value, |s.taken| - 1)
  {
    var h, i := s.reader.h, s.chans[s.reader.h].buf.value;
    assert Delivered(s, h, i);
    assert Answers(s, i, h) && Answers(s, |s.taken| - 1, h);
    assert CallNumber(s, h);
  }

  /** Then the reader is never stuck on a send: it finds the channel open with a
      free slot, even when the call has timed out and deregistered meanwhile. The
      one exception is a channel closed by `Close` after the lookup. */
  lemma ReaderProgress(s: State)
    requires Reachable(s) && OneResponsePerCall(s.taken) && s.reader.Found? && !s.raced
    ensures Enabled(s, Send) && s.chans[s.reader.h] == OPEN
    ensures Next(s, Send).reader == Reading && Delivered(Next(s, Send), s.reader.h, |s.taken| - 1)
  {
    FoundChannel(s);
    assert forall i, j :: !AnswersAgain(s.taken, i, j);
    SendDelivers(s);
  }

  /** The channel the reader has looked up is closed if and only if the race was
      lost, and full only with an earlier answer to the same call. */
  lemma FoundChannel(s: State)
    requires Reachable(s) && s.reader.Found?
    ensures s.taken != [] && s.reader.h in s.chans
    ensures s.chans[s.reader.h].closed <==> s.raced
    ensures s.chans[s.reader.h].buf.Some? ==> AnswersAgain(s.taken, s.chans[s.reader.h].buf.value, |s.taken| - 1)
  {
    ReachableInv(s);
    if s.chans[s.reader.h].buf.Some? {
      FullMeansAgain(s);
    }
  }

  lemma SendDelivers(s: State)
    requires s.reader.Found? && s.taken != [] && s.reader.h in s.chans && s.chans[s.reader.h] == OPEN
    ensures Enabled(s, Send) && Next(s, Send).reader == Reading
    ensures Delivered(Next(s, Send), s.reader.h, |s.taken| - 1)
  {
  }

  /** `Close` never shuts the table down while the reader is between its lookup
      and its send. */
  ghost predicate CloseAvoidsReader(s: State, ls: seq<Label>)
    decreases |ls|
  {
    ls == [] || (&& Enabled(s, ls[0]) && !(ls[0].CloseShutdown? && s.reader.Found?)
                 && CloseAvoidsReader(Next(s, ls[0]), ls[1..]))
  }

  /** Without that overlap nothing is ever sent on a closed channel. */
  lemma {:induction false} NoSendOnClosed(s: State, ls: seq<Label>, s': State)
    requires Inv(s) && !s.raced && Steps(s, ls, s') && CloseAvoidsReader(s, ls)
    ensures !s'.raced && !s'.reader.Panicked?
    decreases |ls|
  {
    if ls != [] {
      InvStep(s, ls[0]);
      RacesOnlyThen(s, ls[0]);
      NoSendOnClosed(Next(s, ls[0]), ls[1..], s');
    }
  }

  lemma RacesOnlyThen(s: State, l: Label)
    requires Enabled(s, l) && !(l.CloseShutdown? && s.reader.Found?)
    ensures Next(s, l).raced == s.raced
  {
  }

  lemma ReachableRace(s: State)
    requires Reachable(s)
    ensures RaceInv(s) && (s.reader.Found? ==> s.reader.h in s.chans && s.taken != [])
  {
    ReachableInv(s);
  }

  /** In every reachable state: the race was lost if and only if the reader has
      sent on a closed channel or is bound to. */
  lemma PanicIsTheRace(s: State)
    requires Reachable(s)
    ensures s.raced <==> s.reader.Panicked? || (Enabled(s, Send) && Next(s, Send).reader.Panicked?)
  {
    ReachableRace(s);
  }
}
