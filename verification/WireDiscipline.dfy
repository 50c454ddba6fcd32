/** The provider on top of the multiplexer: the start-up handshake, the opening of
    files under `openMu` and the queries, for any number of goroutines. Every
    message goes through the multiplexer, whose steps stay interleaved at will. */
module WireDiscipline {
  import opened Bytes
  import opened Framing
  import opened Multiplexer
  import opened MultiplexerSteps
  import opened MultiplexerInvariant

  /** How far `New` has come; only a ready provider is handed out. */
  datatype Startup =
    | Spawned
    | AwaitInitialize(h: nat)
    | Answered
    | AwaitInitialized(h: nat)
    | Serving
    | NotStarted

  /** Where a query stands. In the end it returns the result in some frame, or an
      error. */
  datatype InquiryPhase =
    | WantOpen
    | Checking
    | Opening(h: nat)
    | Closing(ok: bool)
    | Opened
    | Querying(h: nat)
    | Finished(frame: Option<nat>)
  {
    predicate HoldsOpenLock() {
      Checking? || Opening? || Closing?
    }
  }

  /** One definition, references or documentSymbol query for one file. */
  datatype Inquiry = Inquiry(file: Text, methodName: Text, phase: InquiryPhase)

  /** Where a call of `Close` stands: about to ask for shutdown, about to send exit,
      about to shut the pending table down, or returned. */
  datatype Closer =
    | AskShutdown
    | AwaitShutdown(h: nat)
    | AskExit
    | AwaitExit(h: nat)
    | AtTable
    | Gone

  datatype System = System(
    mux: State,
    startup: Startup,
    openLock: Option<nat>,
    openFiles: set<Text>,
    inquiries: map<nat, Inquiry>,
    closers: map<nat, Closer>)

  const START: System := System(INIT, Spawned, None, {}, map[], map[])

  const CLOSE_CAUSE: Text := "lsp: provider closed"

  datatype Event =
    | Inner(l: Label)
    | SendInitialize(h: nat, body: Json)
    | EndInitialize
    | SendInitialized(h: nat, body: Json)
    | EndInitialized
    | Begin(t: nat, file: Text, methodName: Text)
    | LockOpen(t: nat)
    | FindOpen(t: nat)
    | FailRead(t: nat)
    | SendDidOpen(t: nat, h: nat, body: Json)
    | EndDidOpen(t: nat)
    | UnlockOpen(t: nat)
    | SendQuery(t: nat, h: nat, body: Json)
    | EndQuery(t: nat)
    | BeginClose(c: nat)
    | SendShutdown(c: nat, h: nat, body: Json)
    | EndShutdown(c: nat)
    | SendExit(c: nat, h: nat, body: Json)
    | EndExit(c: nat)
    | CloseTable(c: nat)

  predicate InquiryAt(y: System, t: nat, phase: InquiryPhase) {
    t in y.inquiries && y.inquiries[t].phase == phase
  }

  predicate CloserAt(y: System, c: nat, closer: Closer) {
    c in y.closers && y.closers[c] == closer
  }

  predicate Returned(s: State, h: nat) {
    h in s.ops && s.ops[h].phase.Done?
  }

  /** `call` or `notify` returned without an error. */
  predicate Succeeded(s: State, h: nat)
    requires Returned(s, h)
  {
    match s.ops[h].phase.outcome
    case Sent => true
    case Replied(i) => i < |s.taken| && s.taken[i].Incoming? && !s.taken[i].isError
    case _ => false
  }

  function Result(outcome: Outcome): Option<nat> {
    match outcome case Replied(i) => Some(i) case _ => None
  }

  /** The step of the multiplexer inside an event, if any. */
  function MuxLabel(y: System, e: Event): Option<Label> {
    match e
    case Inner(l) => Some(l)
    case SendInitialize(h, body) => Some(Register(h, Initialize, body))
    case SendInitialized(h, body) => Some(CheckNotice(h, Initialized, body))
    case SendDidOpen(t, h, body) => Some(CheckNotice(h, DidOpen(if t in y.inquiries then y.inquiries[t].file else ""), body))
    case SendQuery(t, h, body) =>
      if t in y.inquiries then Some(Register(h, Query(y.inquiries[t].methodName, y.inquiries[t].file), body)) else None
    case SendShutdown(_, h, body) => Some(Register(h, Shutdown, body))
    case SendExit(_, h, body) => Some(CheckNotice(h, Exit, body))
    case CloseTable(_) => Some(CloseShutdown(CLOSE_CAUSE))
    case _ => None
  }

  predicate Allowed(y: System, e: Event) {
    && (MuxLabel(y, e).Some? ==> Enabled(y.mux, MuxLabel(y, e).value))
    && match e
       case Inner(l) => !l.Register? && !l.CheckNotice? && !l.CloseShutdown?
       case SendInitialize(_, _) => y.startup == Spawned
       case EndInitialize => y.startup.AwaitInitialize? && Returned(y.mux, y.startup.h)
       case SendInitialized(_, _) => y.startup == Answered
       case EndInitialized => y.startup.AwaitInitialized? && Returned(y.mux, y.startup.h)
       case Begin(t, _, _) => y.startup == Serving && t !in y.inquiries
       case LockOpen(t) => InquiryAt(y, t, WantOpen) && y.openLock == None
       case FindOpen(t) => InquiryAt(y, t, Checking) && y.inquiries[t].file in y.openFiles
       case FailRead(t) => InquiryAt(y, t, Checking) && y.inquiries[t].file !in y.openFiles
       case SendDidOpen(t, _, _) => InquiryAt(y, t, Checking) && y.inquiries[t].file !in y.openFiles
       case EndDidOpen(t) => t in y.inquiries && y.inquiries[t].phase.Opening? && Returned(y.mux, y.inquiries[t].phase.h)
       case UnlockOpen(t) => t in y.inquiries && y.inquiries[t].phase.Closing?
       case SendQuery(t, _, _) => InquiryAt(y, t, Opened)
       case EndQuery(t) => t in y.inquiries && y.inquiries[t].phase.Querying? && Returned(y.mux, y.inquiries[t].phase.h)
       case BeginClose(c) => y.startup == Serving && c !in y.closers
       case SendShutdown(c, _, _) => CloserAt(y, c, AskShutdown)
       case EndShutdown(c) => c in y.closers && y.closers[c].AwaitShutdown? && Returned(y.mux, y.closers[c].h)
       case SendExit(c, _, _) => CloserAt(y, c, AskExit)
       case EndExit(c) => c in y.closers && y.closers[c].AwaitExit? && Returned(y.mux, y.closers[c].h)
       case CloseTable(c) => CloserAt(y, c, AtTable)
  }

  function Advance(y: System, t: nat, phase: InquiryPhase): System
    requires t in y.inquiries
  {
    y.(inquiries := y.inquiries[t := y.inquiries[t].(phase := phase)])
  }

  function Outer(y: System, e: Event): System
    requires Allowed(y, e)
  {
    match e
    case SendInitialize(h, _) => y.(startup := AwaitInitialize(h))
    case EndInitialize => y.(startup := if Succeeded(y.mux, y.startup.h) then Answered else NotStarted)
    case SendInitialized(h, _) => y.(startup := AwaitInitialized(h))
    case EndInitialized => y.(startup := if Succeeded(y.mux, y.startup.h) then Serving else NotStarted)
    case Begin(t, file, methodName) => y.(inquiries := y.inquiries[t := Inquiry(file, methodName, WantOpen)])
    case LockOpen(t) => Advance(y, t, Checking).(openLock := Some(t))
    case FindOpen(t) => Advance(y, t, Closing(true))
    case FailRead(t) => Advance(y, t, Closing(false))
    case SendDidOpen(t, h, _) => Advance(y, t, Opening(h))
    case EndDidOpen(t) =>
      var ok := Succeeded(y.mux, y.inquiries[t].phase.h);
      Advance(y, t, Closing(ok)).(openFiles := if ok then y.openFiles + {y.inquiries[t].file} else y.openFiles)
    case UnlockOpen(t) => Advance(y, t, if y.inquiries[t].phase.ok then Opened else Finished(None)).(openLock := None)
    case SendQuery(t, h, _) => Advance(y, t, Querying(h))
    case EndQuery(t) =>
      var h := y.inquiries[t].phase.h;
      Advance(y, t, Finished(if Succeeded(y.mux, h) then Result(y.mux.ops[h].phase.outcome) else None))
    case BeginClose(c) => y.(closers := y.closers[c := if y.mux.table.closed then AtTable else AskShutdown])
    case SendShutdown(c, h, _) => y.(closers := y.closers[c := AwaitShutdown(h)])
    case EndShutdown(c) => y.(closers := y.closers[c := AskExit])
    case SendExit(c, h, _) => y.(closers := y.closers[c := AwaitExit(h)])
    case EndExit(c) => y.(closers := y.closers[c := AtTable])
    case CloseTable(c) => y.(closers := y.closers[c := Gone])
    case Inner(_) => y
  }

  function After(y: System, e: Event): System
    requires Allowed(y, e)
  {
    var l := MuxLabel(y, e);
    Outer(y, e).(mux := if l.Some? then Next(y.mux, l.value) else y.mux)
  }

  ghost predicate Runs(y: System, es: seq<Event>, y': System)
    decreases |es|
  {
    if es == [] then y == y'
    else Allowed(y, es[0]) && Runs(After(y, es[0]), es[1..], y')
  }

  // --------------------------------------------------------- what the log obeys

  predicate HasTag(log: seq<Entry>, k: int, tag: Tag) {
    0 <= k < |log| && log[k].msg.tag == tag
  }

  /** Both handshake messages, in order, among the first `k` messages. */
  ghost predicate HandshakeBefore(log: seq<Entry>, k: int) {
    exists i, j :: i < j < k && HasTag(log, i, Initialize) && HasTag(log, j, Initialized)
  }

  ghost predicate SentBefore(log: seq<Entry>, k: int, tag: Tag) {
    exists i :: i < k && HasTag(log, i, tag)
  }

  predicate NeedsHandshake(tag: Tag) {
    tag.DidOpen? || tag.Query? || tag.Shutdown? || tag.Exit?
  }

  predicate OnceOnly(tag: Tag) {
    tag.Initialize? || tag.Initialized? || tag.DidOpen?
  }

  ghost predicate InOrder(log: seq<Entry>, k: int)
    requires 0 <= k < |log|
  {
    var tag := log[k].msg.tag;
    && (NeedsHandshake(tag) ==> HandshakeBefore(log, k))
    && (tag.Initialized? ==> SentBefore(log, k, Initialize))
    && (tag.Query? ==> SentBefore(log, k, DidOpen(tag.file)))
    && (OnceOnly(tag) ==> !SentBefore(log, k, tag))
  }

  ghost predicate Disciplined(log: seq<Entry>) {
    forall k | 0 <= k < |log| :: InOrder(log, k)
  }

  // ----------------------------------------------------------------- invariant

  ghost predicate StartupInv(y: System) {
    var log := y.mux.log;
    && (forall h | h in y.mux.ops :: NeedsHandshake(y.mux.ops[h].msg.tag) ==> y.startup == Serving)
    && (forall h | h in y.mux.ops :: y.mux.ops[h].msg.tag.Initialized? ==> SentBefore(log, |log|, Initialize))
    && (y.inquiries != map[] || y.closers != map[] ==> y.startup == Serving)
    && (y.startup.AwaitInitialize? ==> y.startup.h in y.mux.ops && y.mux.ops[y.startup.h].msg.tag == Initialize)
    && (y.startup.AwaitInitialized? ==> y.startup.h in y.mux.ops && y.mux.ops[y.startup.h].msg.tag == Initialized)
    && (y.startup.Answered? ==> SentBefore(log, |log|, Initialize))
    && (y.startup.Serving? ==> HandshakeBefore(log, |log|))
  }

  /** The handshake messages are sent once each, at their place. */
  ghost predicate HandshakeInv(y: System) {
    && (forall h | h in y.mux.ops && y.mux.ops[h].msg.tag.Initialize? :: y.startup != Spawned)
    && (forall h | h in y.mux.ops && y.mux.ops[h].msg.tag.Initialized? ::
          y.startup.AwaitInitialized? || y.startup == Serving || y.startup == NotStarted)
    && (forall h, g | h in y.mux.ops && g in y.mux.ops && y.mux.ops[h].msg.tag == y.mux.ops[g].msg.tag
                      && (y.mux.ops[h].msg.tag.Initialize? || y.mux.ops[h].msg.tag.Initialized?) :: h == g)
  }

  predicate InquiryInv(y: System, t: nat)
    requires t in y.inquiries
  {
    var inquiry := y.inquiries[t];
    && (inquiry.phase.HoldsOpenLock() <==> y.openLock == Some(t))
    && (inquiry.phase.Opening? ==> inquiry.file !in y.openFiles && inquiry.phase.h in y.mux.ops
                                   && y.mux.ops[inquiry.phase.h].msg.tag == DidOpen(inquiry.file))
    && (inquiry.phase.Opened? || inquiry.phase.Querying? || inquiry.phase == Closing(true) ==> inquiry.file in y.openFiles)
  }

  /** The didOpen operation `h` is the one the holder of `openMu` waits for. */
  predicate Underway(y: System, h: nat)
    requires h in y.mux.ops && y.mux.ops[h].msg.tag.DidOpen?
  {
    && y.openLock.Some? && InquiryAt(y, y.openLock.value, Opening(h))
    && y.inquiries[y.openLock.value].file == y.mux.ops[h].msg.tag.file
  }

  ghost predicate FilesInv(y: System) {
    && (forall t | t in y.inquiries :: InquiryInv(y, t))
    && (y.openLock.Some? ==> y.openLock.value in y.inquiries)
    && (forall f | f in y.openFiles :: SentBefore(y.mux.log, |y.mux.log|, DidOpen(f)))
    && (forall h | h in y.mux.ops && y.mux.ops[h].msg.tag.DidOpen? :: !y.mux.ops[h].kind.Request?)
    && (forall h | h in y.mux.ops && y.mux.ops[h].msg.tag.DidOpen? && !y.mux.ops[h].phase.Done? :: Underway(y, h))
    && (forall h | h in y.mux.ops && y.mux.ops[h].msg.tag.DidOpen? && y.mux.ops[h].phase.Written() ::
          y.mux.ops[h].msg.tag.file in y.openFiles || Underway(y, h))
    && (forall h | h in y.mux.ops && y.mux.ops[h].msg.tag.Query? ::
          SentBefore(y.mux.log, |y.mux.log|, DidOpen(y.mux.ops[h].msg.tag.file)))
  }

  ghost predicate SystemInv(y: System) {
    Inv(y.mux) && StartupInv(y) && HandshakeInv(y) && FilesInv(y) && Disciplined(y.mux.log)
  }

  // -------------------------------------------------- steps of the multiplexer

  /** What any step of the multiplexer means to the provider: operations stay what
      they are, a returned one does not change, and a body write appends that one
      message to the log. */
  ghost predicate Moves(s: State, s': State) {
    && (forall h | h in s.ops :: h in s'.ops && s'.ops[h].msg == s.ops[h].msg && s'.ops[h].kind == s.ops[h].kind)
    && (forall h | h in s.ops && s.ops[h].phase.Done? :: s'.ops[h] == s.ops[h])
    && (forall h | h in s'.ops && h !in s.ops :: !s'.ops[h].phase.Written())
    && (Quiet(s, s') || exists h :: Writes(s, s', h))
  }

  ghost predicate Quiet(s: State, s': State) {
    && s'.log == s.log
    && forall h | h in s.ops && h in s'.ops :: s'.ops[h].phase.Written() == s.ops[h].phase.Written()
  }

  ghost predicate Writes(s: State, s': State, h: nat) {
    && h in s.ops && !s.ops[h].phase.Done? && s'.log == s.log + [Entry(h, s.ops[h].msg)]
    && forall g | g in s.ops && g in s'.ops && g != h :: s'.ops[g].phase.Written() == s.ops[g].phase.Written()
  }

  lemma StepMoves(s: State, l: Label)
    requires Enabled(s, l)
    ensures Moves(s, Next(s, l))
  {
    var s' := Next(s, l);
    OpMoves(s, l);
    OpsKept(s, l, s');
    if l.WriteBody? {
      BodyLogged(s, l.h);
      assert Writes(s, s', l.h);
    } else {
      LogField(s, l);
      WrittenStill(s, l, s');
      assert Quiet(s, s');
    }
  }

  lemma BodyLogged(s: State, h: nat)
    requires Enabled(s, WriteBody(h))
    ensures Next(s, WriteBody(h)).log == s.log + [Entry(h, s.ops[h].msg)]
  {
  }

  lemma OpsKept(s: State, l: Label, s': State)
    requires OpMove(s, l, s')
    ensures forall h | h in s.ops :: h in s'.ops && s'.ops[h].msg == s.ops[h].msg && s'.ops[h].kind == s.ops[h].kind
    ensures forall h | h in s.ops && s.ops[h].phase.Done? :: s'.ops[h] == s.ops[h]
    ensures forall h | h in s'.ops && h !in s.ops :: !s'.ops[h].phase.Written()
  {
  }

  /** Only a MethodNotFound reply starts without the provider asking for it. */
  lemma NewOps(s: State, l: Label)
    requires Enabled(s, l) && !l.Register? && !l.CheckNotice?
    ensures forall h | h in Next(s, l).ops && h !in s.ops :: Next(s, l).ops[h].msg.tag.MethodNotFound?
  {
    OpMoves(s, l);
    if l.Respond? {
      ReplyTag(s, l);
    }
  }

  lemma ReplyTag(s: State, l: Label)
    requires Enabled(s, l) && l.Respond?
    ensures Next(s, l).ops[l.h].msg.tag.MethodNotFound?
  {
  }

  // ---------------------------------------------------------------- the order

  lemma LongerLog(log: seq<Entry>, log': seq<Entry>, k: int)
    requires log <= log' && k <= |log|
    ensures HandshakeBefore(log, k) ==> HandshakeBefore(log', k) && HandshakeBefore(log', |log'|)
    ensures forall tag :: SentBefore(log, k, tag) ==> SentBefore(log', k, tag) && SentBefore(log', |log'|, tag)
  {
    if HandshakeBefore(log, k) {
      var i, j :| i < j < k && HasTag(log, i, Initialize) && HasTag(log, j, Initialized);
      assert HasTag(log', i, Initialize) && HasTag(log', j, Initialized);
    }
    forall tag | SentBefore(log, k, tag) ensures SentBefore(log', k, tag) && SentBefore(log', |log'|, tag) {
      var i :| i < k && HasTag(log, i, tag);
      assert HasTag(log', i, tag);
    }
  }

  lemma ShorterLog(log: seq<Entry>, log': seq<Entry>, tag: Tag)
    requires log <= log' && SentBefore(log', |log|, tag)
    ensures SentBefore(log, |log|, tag)
  {
    var i :| i < |log| && HasTag(log', i, tag);
    assert HasTag(log, i, tag);
  }

  lemma OrderAppend(log: seq<Entry>, e: Entry)
    requires Disciplined(log)
    requires InOrder(log + [e], |log|)
    ensures Disciplined(log + [e])
  {
    var log' := log + [e];
    forall k | 0 <= k < |log'| ensures InOrder(log', k) {
      if k < |log| {
        assert InOrder(log, k);
        LongerLog(log, log', k);
        assert log' [..k] == log[..k];
        if OnceOnly(log[k].msg.tag) && SentBefore(log', k, log[k].msg.tag) {
          var i :| i < k && HasTag(log', i, log[k].msg.tag);
          assert HasTag(log, i, log[k].msg.tag);
        }
      }
    }
  }

  /** While a didOpen is underway, no other one for its file has been written. */
  lemma OneDidOpen(y: System, h: nat, g: nat)
    requires FilesInv(y) && h in y.mux.ops && g in y.mux.ops
    requires y.mux.ops[h].msg.tag.DidOpen? && y.mux.ops[g].msg.tag == y.mux.ops[h].msg.tag
    requires !y.mux.ops[h].phase.Done? && y.mux.ops[g].phase.Written()
    ensures g == h
  {
  }

  lemma OneWriter(y: System, h: nat, g: nat)
    requires HandshakeInv(y) && FilesInv(y) && h in y.mux.ops && g in y.mux.ops
    requires OnceOnly(y.mux.ops[h].msg.tag) && y.mux.ops[g].msg.tag == y.mux.ops[h].msg.tag
    requires !y.mux.ops[h].phase.Done? && y.mux.ops[g].phase.Written()
    ensures g == h
  {
    if y.mux.ops[h].msg.tag.DidOpen? {
      OneDidOpen(y, h, g);
    }
  }

  lemma AppendedIsNew(log: seq<Entry>, e: Entry)
    requires forall i, j | 0 <= i < j < |log + [e]| :: (log + [e])[i].op != (log + [e])[j].op
    ensures !Logged(log, e.op)
  {
    assert (log + [e])[|log|] == e;
    assert forall i | 0 <= i < |log| :: (log + [e])[i] == log[i];
  }

  /** A message about to be written is in order. */
  lemma WriteInOrder(y: System, h: nat)
    requires LogInv(y.mux) && StartupInv(y) && HandshakeInv(y) && FilesInv(y)
    requires h in y.mux.ops && !y.mux.ops[h].phase.Done? && !Logged(y.mux.log, h)
    ensures InOrder(y.mux.log + [Entry(h, y.mux.ops[h].msg)], |y.mux.log|)
  {
    var log, tag := y.mux.log, y.mux.ops[h].msg.tag;
    var log' := log + [Entry(h, y.mux.ops[h].msg)];
    LongerLog(log, log', |log|);
    if OnceOnly(tag) && SentBefore(log', |log|, tag) {
      ShorterLog(log, log', tag);
      var i :| i < |log| && HasTag(log, i, tag);
      OneWriter(y, h, log[i].op);
    }
  }

  lemma OrderStep(y: System, s': State)
    requires LogInv(y.mux) && StartupInv(y) && HandshakeInv(y) && FilesInv(y) && Disciplined(y.mux.log)
    requires Moves(y.mux, s') && LogInv(s')
    ensures Disciplined(s'.log)
  {
    if !Quiet(y.mux, s') {
      var h :| Writes(y.mux, s', h);
      AppendedIsNew(y.mux.log, Entry(h, y.mux.ops[h].msg));
      WriteInOrder(y, h);
      OrderAppend(y.mux.log, Entry(h, y.mux.ops[h].msg));
    }
  }

  // ------------------------------------------- the provider's own bookkeeping

  /** The provider stands still while the multiplexer moves on its own. */
  lemma InnerKeeps(y: System, y': System)
    requires StartupInv(y) && HandshakeInv(y) && FilesInv(y) && Moves(y.mux, y'.mux)
    requires y' == y.(mux := y'.mux, closers := y'.closers) && y'.closers.Keys == y.closers.Keys
    requires forall h | h in y'.mux.ops && h !in y.mux.ops :: y'.mux.ops[h].msg.tag.MethodNotFound?
    ensures StartupInv(y') && HandshakeInv(y') && FilesInv(y')
  {
    InnerKeepsStartup(y, y');
    InnerKeepsFiles(y, y');
  }

  lemma InnerKeepsStartup(y: System, y': System)
    requires StartupInv(y) && HandshakeInv(y) && Moves(y.mux, y'.mux)
    requires y' == y.(mux := y'.mux, closers := y'.closers) && y'.closers.Keys == y.closers.Keys
    requires forall h | h in y'.mux.ops && h !in y.mux.ops :: y'.mux.ops[h].msg.tag.MethodNotFound?
    ensures StartupInv(y') && HandshakeInv(y')
  {
    LongerLog(y.mux.log, y'.mux.log, |y.mux.log|);
    assert y'.closers != map[] ==> y.closers != map[];
  }

  lemma InnerKeepsFiles(y: System, y': System)
    requires FilesInv(y) && Moves(y.mux, y'.mux) && y' == y.(mux := y'.mux, closers := y'.closers)
    requires forall h | h in y'.mux.ops && h !in y.mux.ops :: y'.mux.ops[h].msg.tag.MethodNotFound?
    ensures FilesInv(y')
  {
    LongerLog(y.mux.log, y'.mux.log, |y.mux.log|);
    forall t | t in y'.inquiries ensures InquiryInv(y', t) {
      assert InquiryInv(y, t);
    }
    forall h | h in y'.mux.ops && y'.mux.ops[h].msg.tag.DidOpen?
      ensures !y'.mux.ops[h].phase.Done? ==> Underway(y', h)
      ensures y'.mux.ops[h].phase.Written() ==> y'.mux.ops[h].msg.tag.file in y'.openFiles || Underway(y', h)
    {
      assert h in y.mux.ops;
      assert Underway(y', h) == Underway(y, h);
    }
  }

  /** The provider starts an operation. */
  ghost predicate StartsOp(s: State, s': State, h: nat, tag: Tag) {
    && h !in s.ops && h in s'.ops && s'.ops == s.ops[h := s'.ops[h]] && s'.log == s.log
    && s'.ops[h].msg.tag == tag && !s'.ops[h].phase.Written() && (tag.DidOpen? ==> !s'.ops[h].kind.Request?)
  }

  lemma StartsOne(s: State, l: Label)
    requires Enabled(s, l) && (l.CheckNotice? || (l.Register? && !l.tag.DidOpen?))
    ensures StartsOp(s, Next(s, l), l.h, l.tag)
  {
  }

  /** How the start-up phase bears on what is sent. */
  ghost predicate SentAt(y: System, y': System, h: nat, tag: Tag) {
    || (y'.startup == y.startup && tag != Initialize && tag != Initialized)
    || (tag == Initialize && y.startup == Spawned && y'.startup == AwaitInitialize(h))
    || (tag == Initialized && y.startup == Answered && y'.startup == AwaitInitialized(h))
  }

  lemma StartKeepsStartup(y: System, y': System, h: nat, tag: Tag)
    requires StartupInv(y) && StartsOp(y.mux, y'.mux, h, tag)
    requires NeedsHandshake(tag) ==> y.startup == Serving
    requires y'.inquiries.Keys == y.inquiries.Keys && y'.closers.Keys == y.closers.Keys
    requires SentAt(y, y', h, tag)
    ensures StartupInv(y')
  {
    assert y'.closers != map[] ==> y.closers != map[];
    assert y'.inquiries != map[] ==> y.inquiries != map[];
  }

  lemma StartKeepsHandshake(y: System, y': System, h: nat, tag: Tag)
    requires HandshakeInv(y) && StartsOp(y.mux, y'.mux, h, tag)
    requires SentAt(y, y', h, tag)
    ensures HandshakeInv(y')
  {
  }

  lemma StartKeepsFiles(y: System, y': System, h: nat, tag: Tag)
    requires FilesInv(y) && StartsOp(y.mux, y'.mux, h, tag)
    requires y'.openFiles == y.openFiles && y'.openLock == y.openLock && y'.inquiries == y.inquiries
    requires !tag.DidOpen? && !tag.Query?
    ensures FilesInv(y')
  {
  }

  lemma DidOpenKeepsFiles(y: System, y': System, t: nat, h: nat)
    requires FilesInv(y) && InquiryAt(y, t, Checking) && y.inquiries[t].file !in y.openFiles
    requires StartsOp(y.mux, y'.mux, h, DidOpen(y.inquiries[t].file)) && y' == Advance(y, t, Opening(h)).(mux := y'.mux)
    ensures FilesInv(y')
  {
  }

  lemma QueryKeepsFiles(y: System, y': System, t: nat, h: nat)
    requires FilesInv(y) && InquiryAt(y, t, Opened)
    requires StartsOp(y.mux, y'.mux, h, Query(y.inquiries[t].methodName, y.inquiries[t].file))
    requires y' == Advance(y, t, Querying(h)).(mux := y'.mux)
    ensures FilesInv(y')
  {
  }

  /** Events of one inquiry that send nothing and leave the open files alone. */
  lemma InquiryKeepsFiles(y: System, y': System, t: nat, phase: InquiryPhase)
    requires FilesInv(y) && t in y.inquiries && y' == Advance(y, t, phase).(openLock := y'.openLock)
    requires !y.inquiries[t].phase.Opening? && !phase.Opening?
    requires phase.HoldsOpenLock() <==> y'.openLock == Some(t)
    requires y'.openLock == y.openLock
          || (y.openLock == None && y'.openLock == Some(t)) || (y.openLock == Some(t) && y'.openLock == None)
    requires phase.Opened? || phase.Querying? || phase == Closing(true) ==> y.inquiries[t].file in y.openFiles
    ensures FilesInv(y')
  {
  }

  lemma BeginKeepsFiles(y: System, y': System, t: nat, inquiry: Inquiry)
    requires FilesInv(y) && t !in y.inquiries && inquiry.phase == WantOpen && y' == y.(inquiries := y.inquiries[t := inquiry])
    ensures FilesInv(y')
  {
  }

  /** A returned didOpen was written if and only if it succeeded. */
  lemma DidOpenOutcome(s: State, h: nat)
    requires OpsInv(s) && Returned(s, h) && s.ops[h].msg.tag.DidOpen? && !s.ops[h].kind.Request?
    ensures s.ops[h].phase.Written() <==> Succeeded(s, h)
  {
  }

  lemma EndDidOpenKeepsFiles(y: System, t: nat)
    requires FilesInv(y) && OpsInv(y.mux) && LogInv(y.mux) && Allowed(y, EndDidOpen(t))
    ensures FilesInv(After(y, EndDidOpen(t)))
  {
    var y', h := After(y, EndDidOpen(t)), y.inquiries[t].phase.h;
    assert InquiryInv(y, t);
    DidOpenOutcome(y.mux, h);
    if Succeeded(y.mux, h) {
      SuccessIsLogged(y.mux, h);
    }
    forall u | u in y'.inquiries ensures InquiryInv(y', u) {
      assert InquiryInv(y, u);
    }
    forall g | g in y'.mux.ops && y'.mux.ops[g].msg.tag.DidOpen?
      ensures y'.mux.ops[g].phase.Done?
      ensures y'.mux.ops[g].phase.Written() ==> y'.mux.ops[g].msg.tag.file in y'.openFiles
    {
      assert Underway(y, g) ==> g == h;
    }
  }

  lemma SuccessIsLogged(s: State, h: nat)
    requires LogInv(s) && Returned(s, h) && Succeeded(s, h)
    ensures SentBefore(s.log, |s.log|, s.ops[h].msg.tag)
  {
    assert Logged(s.log, h);
    var i :| 0 <= i < |s.log| && s.log[i].op == h;
    assert HasTag(s.log, i, s.ops[h].msg.tag);
  }

  lemma HandshakeDone(log: seq<Entry>)
    requires Disciplined(log) && SentBefore(log, |log|, Initialized)
    ensures HandshakeBefore(log, |log|)
  {
    var j :| j < |log| && HasTag(log, j, Initialized);
    assert InOrder(log, j);
    var i :| i < j && HasTag(log, i, Initialize);
    assert i < j < |log|;
  }

  // -------------------------------------------------------------- one event

  predicate Sends(e: Event) {
    || e.SendInitialize? || e.SendInitialized? || e.SendDidOpen? || e.SendQuery?
    || e.SendShutdown? || e.SendExit?
  }

  lemma SendWhen(y: System, e: Event)
    requires StartupInv(y) && Allowed(y, e) && Sends(e)
    ensures var l := MuxLabel(y, e).value; NeedsHandshake(l.tag) ==> y.startup == Serving
  {
    if e.SendDidOpen? || e.SendQuery? {
      assert y.inquiries != map[];
    } else if e.SendShutdown? || e.SendExit? {
      assert y.closers != map[];
    }
  }

  lemma SendThen(y: System, e: Event)
    requires Allowed(y, e) && Sends(e)
    ensures var y', l := After(y, e), MuxLabel(y, e).value;
            SentAt(y, y', l.h, l.tag) && y'.inquiries.Keys == y.inquiries.Keys && y'.closers.Keys == y.closers.Keys
  {
  }

  lemma SendKeepsStartup(y: System, e: Event)
    requires StartupInv(y) && HandshakeInv(y) && Allowed(y, e) && Sends(e)
    ensures StartupInv(After(y, e)) && HandshakeInv(After(y, e))
  {
    var l := MuxLabel(y, e).value;
    StartsOne(y.mux, l);
    SendWhen(y, e);
    SendThen(y, e);
    StartKeepsStartup(y, After(y, e), l.h, l.tag);
    StartKeepsHandshake(y, After(y, e), l.h, l.tag);
  }

  lemma SendKeepsFiles(y: System, e: Event)
    requires FilesInv(y) && Allowed(y, e) && Sends(e)
    ensures FilesInv(After(y, e))
  {
    var y', l := After(y, e), MuxLabel(y, e).value;
    StartsOne(y.mux, l);
    if e.SendDidOpen? {
      DidOpenKeepsFiles(y, y', e.t, e.h);
    } else if e.SendQuery? {
      QueryKeepsFiles(y, y', e.t, e.h);
    } else {
      StartKeepsFiles(y, y', l.h, l.tag);
    }
  }

  lemma StartupStep(y: System, e: Event)
    requires OpsInv(y.mux) && LogInv(y.mux) && StartupInv(y) && HandshakeInv(y) && FilesInv(y) && Disciplined(y.mux.log)
    requires Allowed(y, e) && (e.EndInitialize? || e.EndInitialized?)
    ensures StartupInv(After(y, e)) && HandshakeInv(After(y, e)) && FilesInv(After(y, e))
  {
    var y', h := After(y, e), y.startup.h;
    if Succeeded(y.mux, h) {
      SuccessIsLogged(y.mux, h);
      if e.EndInitialized? {
        HandshakeDone(y.mux.log);
      }
    }
    SameFiles(y, y');
  }

  lemma SameFiles(y: System, y': System)
    requires FilesInv(y) && y' == y.(startup := y'.startup, closers := y'.closers)
    ensures FilesInv(y')
  {
  }

  lemma SameStartup(y: System, y': System)
    requires StartupInv(y) && HandshakeInv(y) && y'.mux == y.mux && y'.startup == y.startup
    requires (y'.inquiries == map[] && y'.closers == map[]) || y.startup == Serving
    ensures StartupInv(y') && HandshakeInv(y')
  {
  }

  predicate OfInquiry(e: Event) {
    || e.Begin? || e.LockOpen? || e.FindOpen? || e.FailRead? || e.EndDidOpen? || e.UnlockOpen? || e.EndQuery?
  }

  lemma InquiryKeepsStartup(y: System, e: Event)
    requires StartupInv(y) && HandshakeInv(y) && Allowed(y, e) && OfInquiry(e)
    ensures StartupInv(After(y, e)) && HandshakeInv(After(y, e))
  {
    assert e.t in y.inquiries ==> y.inquiries != map[];
    SameStartup(y, After(y, e));
  }

  lemma InquiryMoves(y: System, e: Event)
    requires FilesInv(y) && Allowed(y, e) && OfInquiry(e) && !e.Begin? && !e.EndDidOpen?
    ensures FilesInv(After(y, e))
  {
    assert InquiryInv(y, e.t);
    InquiryKeepsFiles(y, After(y, e), e.t, After(y, e).inquiries[e.t].phase);
  }

  lemma InquiryStep(y: System, e: Event)
    requires FilesInv(y) && OpsInv(y.mux) && LogInv(y.mux) && Allowed(y, e) && OfInquiry(e)
    ensures FilesInv(After(y, e))
  {
    if e.Begin? {
      BeginKeepsFiles(y, After(y, e), e.t, Inquiry(e.file, e.methodName, WantOpen));
    } else if e.EndDidOpen? {
      EndDidOpenKeepsFiles(y, e.t);
    } else {
      InquiryMoves(y, e);
    }
  }

  predicate OfCloser(e: Event) {
    e.BeginClose? || e.EndShutdown? || e.EndExit?
  }

  lemma CloserStep(y: System, e: Event)
    requires StartupInv(y) && HandshakeInv(y) && FilesInv(y) && Allowed(y, e) && OfCloser(e)
    ensures StartupInv(After(y, e)) && HandshakeInv(After(y, e)) && FilesInv(After(y, e))
  {
    var y' := After(y, e);
    assert e.c in y.closers ==> y.closers != map[];
    SameStartup(y, y');
    SameFiles(y, y');
  }

  lemma MuxStep(y: System, e: Event)
    requires StartupInv(y) && HandshakeInv(y) && FilesInv(y) && Allowed(y, e) && (e.Inner? || e.CloseTable?)
    requires Moves(y.mux, After(y, e).mux)
    ensures StartupInv(After(y, e)) && HandshakeInv(After(y, e)) && FilesInv(After(y, e))
  {
    NewOps(y.mux, MuxLabel(y, e).value);
    InnerKeeps(y, After(y, e));
  }

  lemma OuterStep(y: System, e: Event)
    requires SystemInv(y) && Allowed(y, e)
    ensures StartupInv(After(y, e)) && HandshakeInv(After(y, e)) && FilesInv(After(y, e))
  {
    if e.Inner? || e.CloseTable? {
      StepMoves(y.mux, MuxLabel(y, e).value);
      MuxStep(y, e);
    } else if Sends(e) {
      SendKeepsStartup(y, e);
      SendKeepsFiles(y, e);
    } else if e.EndInitialize? || e.EndInitialized? {
      StartupStep(y, e);
    } else if OfCloser(e) {
      CloserStep(y, e);
    } else {
      InquiryKeepsStartup(y, e);
      InquiryStep(y, e);
    }
  }

  lemma SystemStep(y: System, e: Event)
    requires SystemInv(y) && Allowed(y, e)
    ensures SystemInv(After(y, e))
  {
    var l := MuxLabel(y, e);
    OuterStep(y, e);
    if l.Some? {
      InvStep(y.mux, l.value);
      StepMoves(y.mux, l.value);
      OrderStep(y, After(y, e).mux);
    }
  }

  lemma {:induction false} SystemRuns(y: System, es: seq<Event>, y': System)
    requires SystemInv(y) && Runs(y, es, y')
    ensures SystemInv(y')
    decreases |es|
  {
    if es != [] {
      SystemStep(y, es[0]);
      SystemRuns(After(y, es[0]), es[1..], y');
    }
  }

  lemma RunsDisciplined(es: seq<Event>, y: System)
    requires Runs(START, es, y)
    ensures Disciplined(y.mux.log)
    ensures forall f | f in y.openFiles :: SentBefore(y.mux.log, |y.mux.log|, DidOpen(f))
  {
    InvInit();
    SystemRuns(START, es, y);
  }

  /** Over every run: `initialize` and then `initialized` precede every didOpen,
      query, shutdown and exit, and are written at most once each; a file has at
      most one didOpen written, which precedes every query for the file; and a file
      counts as open only once its didOpen is written. */
  lemma WireOrder(es: seq<Event>, y: System)
    requires Runs(START, es, y)
    ensures forall k | 0 <= k < |y.mux.log| && NeedsHandshake(y.mux.log[k].msg.tag) ::
              exists i, j :: i < j < k && HasTag(y.mux.log, i, Initialize) && HasTag(y.mux.log, j, Initialized)
    ensures forall k | 0 <= k < |y.mux.log| && y.mux.log[k].msg.tag.Query? ::
              exists i :: i < k && HasTag(y.mux.log, i, DidOpen(y.mux.log[k].msg.tag.file))
    ensures forall i, k | 0 <= i < k < |y.mux.log| && OnceOnly(y.mux.log[k].msg.tag) ::
              y.mux.log[i].msg.tag != y.mux.log[k].msg.tag
    ensures forall f | f in y.openFiles :: exists i :: HasTag(y.mux.log, i, DidOpen(f))
  {
    RunsDisciplined(es, y);
    var log := y.mux.log;
    forall k | 0 <= k < |log| && NeedsHandshake(log[k].msg.tag)
      ensures exists i, j :: i < j < k && HasTag(log, i, Initialize) && HasTag(log, j, Initialized)
    {
      assert InOrder(log, k) && HandshakeBefore(log, k);
    }
    forall k | 0 <= k < |log| && log[k].msg.tag.Query?
      ensures exists i :: i < k && HasTag(log, i, DidOpen(log[k].msg.tag.file))
    {
      assert InOrder(log, k) && SentBefore(log, k, DidOpen(log[k].msg.tag.file));
    }
    forall i, k | 0 <= i < k < |log| && OnceOnly(log[k].msg.tag) ensures log[i].msg.tag != log[k].msg.tag {
      assert InOrder(log, k);
      assert HasTag(log, i, log[i].msg.tag);
    }
    forall f | f in y.openFiles ensures exists i :: HasTag(log, i, DidOpen(f)) {
      assert SentBefore(log, |log|, DidOpen(f));
    }
  }

  /** The server sees these messages in this order: while no write has failed, what
      it reads from its end of the pipe is the log. */
  lemma ServerReadsLog(es: seq<Event>, y: System)
    requires Runs(START, es, y) && !y.mux.failed
    ensures ReadAll(y.mux.out).0 == Bodies(y.mux.log) && Disciplined(y.mux.log)
  {
    InvInit();
    SystemRuns(START, es, y);
    InvReads(y.mux);
  }
}
