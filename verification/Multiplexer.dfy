/** The LSP client multiplexer as a labelled transition system: any number of
    goroutines share one connection, each making a call or sending a notice,
    beside one reader and whoever closes the provider. One step is one critical
    section, one write, one channel operation or one frame taken. */
module Multiplexer {
  import opened Bytes
  import opened Decimals
  import opened Framing

  // ------------------------------------------------------------------ messages

  datatype Tag =
    | Initialize
    | Initialized
    | DidOpen(file: Text)
    | Query(methodName: Text, file: Text)
    | Shutdown
    | Exit
    | MethodNotFound(id: Text, methodName: Text)

  /** A JSON encoding, opaque except that it is never empty. */
  type Json = b: Text | b != "" witness "0"

  datatype Message = Message(tag: Tag, body: Json)

  /** A frame from the peer after decoding. `id` is the raw JSON text of the id,
      empty when the field is absent. */
  datatype Incoming = Malformed | Incoming(methodName: Text, id: Text, isError: bool, payload: Text)
  {
    predicate IsServerRequest() {
      Incoming? && methodName != "" && id != ""
    }

    predicate IsResponse() {
      Incoming? && methodName == "" && id != ""
    }
  }

  // ------------------------------------------------------------ pending table

  /** The fields guarded by `pendingMu`, and the id counter. A channel is named
      by the handle of the operation that made it. */
  datatype Table = Table(nextId: nat, pending: map<Text, nat>, closed: bool, connErr: Option<Text>)

  /** A channel of capacity one; `buf` is the index of the frame it holds. */
  datatype Chan = Chan(buf: Option<nat>, closed: bool)

  type Channels = map<nat, Chan>

  const EMPTY_TABLE: Table := Table(0, map[], false, None)

  const OPEN: Chan := Chan(None, false)

  function Registered(t: Table, h: nat): Table {
    var id := t.nextId + 1;
    t.(nextId := id, pending := t.pending[Decimal(id) := h])
  }

  function Deregistered(t: Table, key: Text): Table {
    t.(pending := t.pending - {key})
  }

  function ShutDown(t: Table, cause: Text): Table {
    if t.closed then t else Table(t.nextId, map[], true, Some(cause))
  }

  /** Shutting down closes the channel of every pending call. */
  function Released(t: Table, chans: Channels): Channels {
    if t.closed then chans
    else map h | h in chans :: if h in t.pending.Values then chans[h].(closed := true) else chans[h]
  }

  // --------------------------------------------------------------- operations

  datatype Kind = Request(id: nat) | Notice | Refused

  datatype Outcome =
    | Replied(frame: nat)
    | Disconnected(cause: Option<Text>)
    | TimedOut
    | Sent
    | WriteFailed
    | Rejected(cause: Option<Text>)

  /** Where an operation stands: before `writeMu`, inside it, in the select, on
      the way out through the deferred delete, or returned. */
  datatype Phase =
    | Ready
    | Locked
    | HeaderOut
    | BodyOut
    | Torn
    | Waiting
    | SawClosed
    | Leaving(outcome: Outcome)
    | Done(outcome: Outcome)
  {
    predicate HoldsLock() {
      Locked? || HeaderOut? || BodyOut? || Torn?
    }

    /** The whole message is on the wire. */
    predicate Written() {
      || BodyOut? || Waiting? || SawClosed?
      || ((Leaving? || Done?) && !outcome.WriteFailed? && !outcome.Rejected?)
    }

    predicate Returns(o: Outcome) {
      (Leaving? || Done?) && outcome == o
    }
  }

  datatype Op = Op(kind: Kind, msg: Message, phase: Phase)

  /** The reader: about to read, holding the latest frame, between the lookup
      and the send, busy with a MethodNotFound reply, or on its way out. */
  datatype Reader =
    | Reading
    | Holding
    | Found(h: nat)
    | Replying(h: nat)
    | Ending(cause: Text)
    | Stopped
    | Panicked

  datatype Entry = Entry(op: nat, msg: Message)

  /** `out` is what stdin received. The rest of the last line is history: the
      messages completely written, the grants of `writeMu`, the calls in order of
      registration, the frames taken, whether some write failed, and whether a
      shutdown by `Close` hit the channel the reader had looked up and not yet
      used. */
  datatype State = State(
    table: Table,
    chans: Channels,
    ops: map<nat, Op>,
    writer: Option<nat>,
    out: Text,
    reader: Reader,
    log: seq<Entry>, grants: seq<nat>, calls: seq<nat>, taken: seq<Incoming>, failed: bool, raced: bool)

  const INIT: State := State(EMPTY_TABLE, map[], map[], None, "", Reading, [], [], [], [], false, false)

  datatype Label =
    | Register(h: nat, tag: Tag, body: Json)
    | CheckNotice(h: nat, tag: Tag, body: Json)
    | Lock(h: nat)
    | WriteHeader(h: nat)
    | WriteBody(h: nat)
    | FailWrite(h: nat, count: nat)
    | Unlock(h: nat)
    | Receive(h: nat)
    | SeeClosed(h: nat)
    | ReadCause(h: nat)
    | TimeOut(h: nat)
    | Deregister(h: nat)
    | Take(frame: Incoming)
    | Skip
    | Respond(h: nat, body: Json)
    | RespondDone
    | LookUp
    | Send
    | EndOfStream(cause: Text)
    | ReaderShutdown
    | CloseShutdown(cause: Text)

  predicate At(s: State, h: nat, phase: Phase) {
    h in s.ops && s.ops[h].phase == phase
  }

  function Current(s: State): Incoming
    requires s.taken != []
  {
    s.taken[|s.taken| - 1]
  }

  /** What the holder of the lock is in the middle of writing. */
  function Unwritten(s: State, h: nat): Text
    requires h in s.ops
  {
    match s.ops[h].phase
    case Locked => HeaderOf(s.ops[h].msg.body)
    case HeaderOut => s.ops[h].msg.body
    case _ => ""
  }

  predicate Enabled(s: State, l: Label) {
    match l
    case Register(h, tag, _) => h !in s.ops && !tag.MethodNotFound?
    case CheckNotice(h, tag, _) => h !in s.ops && !tag.MethodNotFound?
    case Lock(h) => At(s, h, Ready) && s.writer == None
    case WriteHeader(h) => At(s, h, Locked)
    case WriteBody(h) => At(s, h, HeaderOut)
    case FailWrite(h, count) => (At(s, h, Locked) || At(s, h, HeaderOut)) && count <= |Unwritten(s, h)|
    case Unlock(h) => At(s, h, BodyOut) || At(s, h, Torn)
    case Receive(h) => At(s, h, Waiting) && h in s.chans && s.chans[h].buf.Some?
    case SeeClosed(h) => At(s, h, Waiting) && h in s.chans && s.chans[h] == Chan(None, true)
    case ReadCause(h) => At(s, h, SawClosed)
    case TimeOut(h) => At(s, h, Waiting)
    case Deregister(h) => h in s.ops && s.ops[h].phase.Leaving? && s.ops[h].kind.Request?
    case Take(_) => s.reader == Reading
    case Skip => s.reader == Holding && s.taken != [] && !Current(s).IsServerRequest() && !Current(s).IsResponse()
    case Respond(h, _) => s.reader == Holding && s.taken != [] && Current(s).IsServerRequest() && h !in s.ops
    case RespondDone => s.reader.Replying? && s.reader.h in s.ops && s.ops[s.reader.h].phase.Done?
    case LookUp => s.reader == Holding && s.taken != [] && Current(s).IsResponse()
    case Send => s.reader.Found? && s.taken != [] && s.reader.h in s.chans &&
                 (s.chans[s.reader.h].closed || s.chans[s.reader.h].buf == None)
    case EndOfStream(_) => s.reader == Reading
    case ReaderShutdown => s.reader.Ending?
    case CloseShutdown(_) => true
  }

  function InPhase(s: State, h: nat, phase: Phase): State
    requires h in s.ops
  {
    s.(ops := s.ops[h := s.ops[h].(phase := phase)])
  }

  function ShutDownState(s: State, cause: Text): State {
    s.(table := ShutDown(s.table, cause), chans := Released(s.table, s.chans))
  }

  function Next(s: State, l: Label): State
    requires Enabled(s, l)
  {
    match l
    case Register(h, tag, body) =>
      if s.table.closed then
        s.(ops := s.ops[h := Op(Refused, Message(tag, body), Done(Rejected(s.table.connErr)))])
      else
        s.(table := Registered(s.table, h),
           chans := s.chans[h := OPEN],
           calls := s.calls + [h],
           ops := s.ops[h := Op(Request(s.table.nextId + 1), Message(tag, body), Ready)])
    case CheckNotice(h, tag, body) =>
      var phase := if s.table.closed then Done(Rejected(s.table.connErr)) else Ready;
      s.(ops := s.ops[h := Op(Notice, Message(tag, body), phase)])
    case Lock(h) =>
      InPhase(s, h, Locked).(writer := Some(h), grants := s.grants + [h])
    case WriteHeader(h) =>
      InPhase(s, h, HeaderOut).(out := s.out + HeaderOf(s.ops[h].msg.body))
    case WriteBody(h) =>
      InPhase(s, h, BodyOut).(out := s.out + s.ops[h].msg.body, log := s.log + [Entry(h, s.ops[h].msg)])
    case FailWrite(h, count) =>
      InPhase(s, h, Torn).(out := s.out + Unwritten(s, h)[..count], failed := true)
    case Unlock(h) =>
      var request := s.ops[h].kind.Request?;
      var phase := if s.ops[h].phase == Torn then (if request then Leaving(WriteFailed) else Done(WriteFailed))
                   else if request then Waiting else Done(Sent);
      InPhase(s, h, phase).(writer := None)
    case Receive(h) =>
      InPhase(s, h, Leaving(Replied(s.chans[h].buf.value))).(chans := s.chans[h := s.chans[h].(buf := None)])
    case SeeClosed(h) => InPhase(s, h, SawClosed)
    case ReadCause(h) => InPhase(s, h, Leaving(Disconnected(s.table.connErr)))
    case TimeOut(h) => InPhase(s, h, Leaving(TimedOut))
    case Deregister(h) =>
      InPhase(s, h, Done(s.ops[h].phase.outcome)).(table := Deregistered(s.table, Decimal(s.ops[h].kind.id)))
    case Take(frame) => s.(reader := Holding, taken := s.taken + [frame])
    case Skip => s.(reader := Reading)
    case Respond(h, body) =>
      var reply := Message(MethodNotFound(Current(s).id, Current(s).methodName), body);
      s.(reader := Replying(h), ops := s.ops[h := Op(Notice, reply, Ready)])
    case RespondDone => s.(reader := Reading)
    case LookUp =>
      var key := Current(s).id;
      s.(reader := if key in s.table.pending then Found(s.table.pending[key]) else Reading)
    case Send =>
      var h := s.reader.h;
      if s.chans[h].closed then s.(reader := Panicked)
      else s.(reader := Reading, chans := s.chans[h := s.chans[h].(buf := Some(|s.taken| - 1))])
    case EndOfStream(cause) => s.(reader := Ending(cause))
    case ReaderShutdown => ShutDownState(s, s.reader.cause).(reader := Stopped)
    case CloseShutdown(cause) =>
      var hit := s.reader.Found? && !s.table.closed && s.reader.h in s.table.pending.Values;
      ShutDownState(s, cause).(raced := s.raced || hit)
  }

  // --------------------------------------------------------------------- runs

  /** The labels `ls` lead from `s` to `s'`. */
  ghost predicate Steps(s: State, ls: seq<Label>, s': State)
    decreases |ls|
  {
    if ls == [] then s == s'
    else Enabled(s, ls[0]) && Steps(Next(s, ls[0]), ls[1..], s')
  }

  ghost predicate Reachable(s: State) {
    exists ls :: Steps(INIT, ls, s)
  }

  lemma {:induction false} StepsAppend(s: State, ls: seq<Label>, m: State, ls': seq<Label>, s': State)
    requires Steps(s, ls, m) && Steps(m, ls', s')
    ensures Steps(s, ls + ls', s')
    decreases |ls|
  {
    if ls == [] {
      assert ls + ls' == ls';
    } else {
      assert (ls + ls')[1..] == ls[1..] + ls';
      StepsAppend(Next(s, ls[0]), ls[1..], m, ls', s');
    }
  }

  lemma StepsOne(s: State, l: Label)
    requires Enabled(s, l)
    ensures Steps(s, [l], Next(s, l))
  {
  }

  /** A run from `s` to `s'` by labels of one sort. */
  ghost predicate Leads(sort: Label -> bool, s: State, s': State) {
    exists ls :: Steps(s, ls, s') && forall i | 0 <= i < |ls| :: sort(ls[i])
  }

  lemma LeadsNowhere(sort: Label -> bool, s: State)
    ensures Leads(sort, s, s)
  {
    assert Steps(s, [], s);
  }

  lemma LeadsOne(sort: Label -> bool, s: State, l: Label)
    requires Enabled(s, l) && sort(l)
    ensures Leads(sort, s, Next(s, l))
  {
    StepsOne(s, l);
    assert [l][0] == l;
  }

  lemma LeadsOn(sort: Label -> bool, s: State, m: State, s': State)
    requires Leads(sort, s, m) && Leads(sort, m, s')
    ensures Leads(sort, s, s')
  {
    var ls :| Steps(s, ls, m) && forall i | 0 <= i < |ls| :: sort(ls[i]);
    var ls' :| Steps(m, ls', s') && forall i | 0 <= i < |ls'| :: sort(ls'[i]);
    StepsAppend(s, ls, m, ls', s');
    assert forall i | 0 <= i < |ls + ls'| :: sort((ls + ls')[i]);
  }

  lemma LeadsReachable(sort: Label -> bool, s: State, s': State)
    requires Reachable(s) && Leads(sort, s, s')
    ensures Reachable(s')
  {
    var ls :| Steps(INIT, ls, s);
    var ls' :| Steps(s, ls', s') && forall i | 0 <= i < |ls'| :: sort(ls'[i]);
    StepsAppend(INIT, ls, s, ls', s');
  }
}
