/** Two overlapping calls of `Close` can make the reader send on a closed channel:
    the run, from the start of the provider on. */
module CloseRace {
  import opened Bytes
  import opened Decimals
  import opened Framing
  import opened Multiplexer
  import opened MultiplexerSteps
  import opened MultiplexerInvariant
  import opened MultiplexerTheorems
  import opened MultiplexerRuns
  import opened WireDiscipline
  import opened WireRuns

  function Answer(n: nat): Incoming {
    Incoming("", Decimal(n), false, "x")
  }

  /** Nothing is being read or written, and the table is as given. */
  predicate Rests(s: State, n: nat, pending: map<Text, nat>, taken: seq<Incoming>) {
    && s.reader == Reading && s.writer == None && !s.raced && !s.failed
    && s.table == Table(n, pending, false, None) && s.taken == taken
  }

  lemma CallGoesOut(s: State, h: nat, tag: Tag, n: nat, pending: map<Text, nat>, taken: seq<Incoming>)
    returns (s': State)
    requires Rests(s, n, pending, taken) && h !in s.ops
    ensures Leads(Ongoing, WithCall(s, h, tag), s') && Rests(s', n + 1, pending[Decimal(n + 1) := h], taken)
    ensures s'.ops == s.ops[h := Op(Request(n + 1), Message(tag, "0"), Waiting)] && s'.chans == s.chans[h := OPEN]
  {
    s' := CallSent(s, h, tag);
    CallRests(s, h, tag, n, pending, taken, s');
  }

  lemma CallRests(s: State, h: nat, tag: Tag, n: nat, pending: map<Text, nat>, taken: seq<Incoming>, s': State)
    requires Rests(s, n, pending, taken) && SameButWire(WithCall(s, h, tag), s') && s'.writer == None
    requires s'.ops == s.ops[h := Op(Request(s.table.nextId + 1), Message(tag, "0"), Waiting)]
    ensures Rests(s', n + 1, pending[Decimal(n + 1) := h], taken) && s'.chans == s.chans[h := OPEN]
    ensures s'.ops == s.ops[h := Op(Request(n + 1), Message(tag, "0"), Waiting)]
  {
  }

  lemma NoticeGoesOut(s: State, h: nat, tag: Tag, n: nat, pending: map<Text, nat>, taken: seq<Incoming>)
    returns (s': State)
    requires Rests(s, n, pending, taken) && h !in s.ops
    ensures Leads(Ongoing, WithNotice(s, h, tag), s') && Rests(s', n, pending, taken) && s'.chans == s.chans
    ensures s'.ops == s.ops[h := Op(Notice, Message(tag, "0"), Done(Sent))]
  {
    s' := NoticeSent(s, h, tag);
  }

  // ------------------------------------------------------------------ start-up

  lemma ReplyArrives(s: State, h: nat, n: nat) returns (s': State)
    requires At(s, h, Waiting) && s.ops[h].kind == Request(n) && h in s.chans && s.chans[h] == OPEN
    requires Rests(s, n, map[Decimal(n) := h], [])
    ensures Leads(Ongoing, s, s') && Rests(s', n, map[Decimal(n) := h], [Answer(n)])
    ensures s'.ops == s.ops && s'.chans == s.chans[h := Chan(Some(0), false)]
  {
    var m := FindCall(s, Answer(n));
    s' := Next(m, Send);
    LeadsOne(Ongoing, m, Send);
    LeadsOn(Ongoing, s, m, s');
  }

  lemma ReplyReturned(s: State, h: nat, n: nat) returns (s': State)
    requires At(s, h, Waiting) && s.ops[h].kind == Request(n) && h in s.chans && s.chans[h] == Chan(Some(0), false)
    requires Rests(s, n, map[Decimal(n) := h], [Answer(n)])
    ensures Leads(Ongoing, s, s') && Rests(s', n, map[], [Answer(n)])
    ensures s'.ops == s.ops[h := s.ops[h].(phase := Done(Replied(0)))]
  {
    var m := Next(s, Receive(h));
    LeadsOne(Ongoing, s, Receive(h));
    s' := Next(m, Deregister(h));
    LeadsOne(Ongoing, m, Deregister(h));
    LeadsOn(Ongoing, s, m, s');
    assert map[Decimal(n) := h] - {Decimal(n)} == map[];
  }

  lemma InitializeHappens() returns (y: System)
    ensures Attained(y) && y == START.(mux := WithCall(INIT, 0, Initialize), startup := AwaitInitialize(0))
  {
    assert Runs(START, [], START);
    Happens(START, SendInitialize(0, "0"));
    CallRegisters(INIT, 0, Initialize);
    y := After(START, SendInitialize(0, "0"));
  }

  lemma InitializeReturns(y: System) returns (y': System)
    requires Attained(y) && y.startup == AwaitInitialize(0) && At(y.mux, 0, Done(Replied(0))) && y.mux.taken == [Answer(1)]
    ensures Attained(y') && y' == y.(startup := Answered)
  {
    Happens(y, EndInitialize);
    y' := After(y, EndInitialize);
  }

  lemma OnlyKey(k: Text)
    ensures map[][k := 0] == map[k := 0]
  {
  }

  lemma InitializeAnswered() returns (s: State)
    ensures Leads(Ongoing, WithCall(INIT, 0, Initialize), s) && Rests(s, 1, map[], [Answer(1)])
    ensures s.ops == map[0 := Op(Request(1), Message(Initialize, "0"), Done(Replied(0)))]
  {
    var a := WithCall(INIT, 0, Initialize);
    var b := CallGoesOut(INIT, 0, Initialize, 0, map[], []);
    OnlyKey(Decimal(1));
    var c := ReplyArrives(b, 0, 1);
    LeadsOn(Ongoing, a, b, c);
    s := ReplyReturned(c, 0, 1);
    LeadsOn(Ongoing, a, c, s);
  }

  lemma Initializing() returns (y: System)
    ensures Attained(y) && y == START.(mux := y.mux, startup := Answered)
    ensures Rests(y.mux, 1, map[], [Answer(1)]) && y.mux.ops.Keys == {0}
  {
    var a := InitializeHappens();
    var s := InitializeAnswered();
    Meanwhile(a, s);
    y := InitializeReturns(a.(mux := s));
  }

  lemma InitializedHappens(y: System) returns (y': System)
    requires Attained(y) && y.startup == Answered && 1 !in y.mux.ops && !y.mux.table.closed
    ensures Attained(y') && y' == y.(mux := WithNotice(y.mux, 1, Initialized), startup := AwaitInitialized(1))
  {
    Happens(y, SendInitialized(1, "0"));
    NoticePasses(y.mux, 1, Initialized);
    y' := After(y, SendInitialized(1, "0"));
  }

  lemma InitializedReturns(y: System) returns (y': System)
    requires Attained(y) && y.startup == AwaitInitialized(1) && At(y.mux, 1, Done(Sent))
    ensures Attained(y') && y' == y.(startup := Serving)
  {
    Happens(y, EndInitialized);
    y' := After(y, EndInitialized);
  }

  /** The provider is handed out. */
  lemma StartsUp() returns (y: System)
    ensures Attained(y) && y == START.(mux := y.mux, startup := Serving)
    ensures Rests(y.mux, 1, map[], [Answer(1)]) && y.mux.ops.Keys == {0, 1}
  {
    var a := Initializing();
    var b := InitializedHappens(a);
    var s := NoticeGoesOut(a.mux, 1, Initialized, 1, map[], [Answer(1)]);
    Meanwhile(b, s);
    y := InitializedReturns(b.(mux := s));
  }

  // --------------------------------------------------------- closing twice

  lemma CloseBegins(y: System, c: nat) returns (y': System)
    requires Attained(y) && y.startup == Serving && c !in y.closers && !y.mux.table.closed
    ensures Attained(y') && y' == y.(closers := y.closers[c := AskShutdown])
  {
    Happens(y, BeginClose(c));
    y' := After(y, BeginClose(c));
  }

  lemma ShutdownHappens(y: System, c: nat, h: nat) returns (y': System)
    requires Attained(y) && CloserAt(y, c, AskShutdown) && h !in y.mux.ops && !y.mux.table.closed
    ensures Attained(y') && y' == y.(mux := WithCall(y.mux, h, Shutdown), closers := y.closers[c := AwaitShutdown(h)])
  {
    Happens(y, SendShutdown(c, h, "0"));
    CallRegisters(y.mux, h, Shutdown);
    y' := After(y, SendShutdown(c, h, "0"));
  }

  /** A closer sends its shutdown request. */
  lemma AsksShutdown(y: System, c: nat, h: nat, n: nat, pending: map<Text, nat>) returns (y': System)
    requires Attained(y) && CloserAt(y, c, AskShutdown) && h !in y.mux.ops
    requires n > 0 && Rests(y.mux, n - 1, pending, [Answer(1)])
    ensures Attained(y') && y' == y.(mux := y'.mux, closers := y.closers[c := AwaitShutdown(h)])
    ensures Rests(y'.mux, n, pending[Decimal(n) := h], [Answer(1)])
    ensures y'.mux.ops == y.mux.ops[h := Op(Request(n), Message(Shutdown, "0"), Waiting)]
    ensures y'.mux.chans == y.mux.chans[h := OPEN]
  {
    var a := ShutdownHappens(y, c, h);
    var s := CallGoesOut(y.mux, h, Shutdown, n - 1, pending, [Answer(1)]);
    Meanwhile(a, s);
    y' := a.(mux := s);
  }

  lemma BothBegin() returns (y: System)
    ensures Attained(y) && y.startup == Serving && y.closers == map[0 := AskShutdown, 1 := AskShutdown]
    ensures Rests(y.mux, 1, map[], [Answer(1)]) && y.mux.ops.Keys == {0, 1}
  {
    var a := StartsUp();
    var b := CloseBegins(a, 0);
    y := CloseBegins(b, 1);
    assert y.closers == map[0 := AskShutdown, 1 := AskShutdown];
  }

  /** The second closer's shutdown request is out. */
  predicate SecondAsked(y: System, first: Closer, pending: map<Text, nat>) {
    && y.startup == Serving && y.closers == map[0 := first, 1 := AwaitShutdown(3)]
    && Rests(y.mux, 3, pending, [Answer(1)]) && 4 !in y.mux.ops && 3 in y.mux.chans && y.mux.chans[3] == OPEN
  }

  lemma FirstAsks() returns (y: System)
    ensures Attained(y) && y.startup == Serving && y.closers == map[0 := AwaitShutdown(2), 1 := AskShutdown]
    ensures Rests(y.mux, 2, map[Decimal(2) := 2], [Answer(1)]) && y.mux.ops.Keys == {0, 1, 2}
    ensures At(y.mux, 2, Waiting) && y.mux.ops[2].kind == Request(2)
  {
    var a := BothBegin();
    y := AsksShutdown(a, 0, 2, 2, map[]);
    assert y.closers == map[0 := AwaitShutdown(2), 1 := AskShutdown];
    assert map[][Decimal(2) := 2] == map[Decimal(2) := 2];
  }

  lemma BothAsk() returns (y: System)
    ensures Attained(y) && SecondAsked(y, AwaitShutdown(2), map[Decimal(2) := 2, Decimal(3) := 3])
    ensures At(y.mux, 2, Waiting) && y.mux.ops[2].kind == Request(2)
  {
    var a := FirstAsks();
    y := AsksShutdown(a, 1, 3, 3, map[Decimal(2) := 2]);
    SecondMoves(AwaitShutdown(2), AskShutdown, AwaitShutdown(3));
    SecondAdded(Decimal(2), Decimal(3));
  }

  lemma SecondMoves(first: Closer, second: Closer, second': Closer)
    ensures map[0 := first, 1 := second][1 := second'] == map[0 := first, 1 := second']
  {
  }

  lemma SecondAdded(k: Text, l: Text)
    ensures map[k := 2][l := 3] == map[k := 2, l := 3]
  {
  }

  lemma ShutdownReturns(y: System, h: nat) returns (y': System)
    requires Attained(y) && CloserAt(y, 0, AwaitShutdown(h)) && Returned(y.mux, h)
    ensures Attained(y') && y' == y.(closers := y.closers[0 := AskExit])
  {
    Happens(y, EndShutdown(0));
    y' := After(y, EndShutdown(0));
  }

  lemma TwoKeys(m: nat, n: nat)
    requires m != n
    ensures Decimal(m) != Decimal(n)
    ensures map[Decimal(m) := m, Decimal(n) := n] - {Decimal(m)} == map[Decimal(n) := n]
  {
    if Decimal(m) == Decimal(n) {
      DecimalInjective(m, n);
    }
  }

  /** The call of operation 2 times out; that of operation 3 stays pending. */
  lemma FirstTimesOut(s: State) returns (s': State)
    requires At(s, 2, Waiting) && s.ops[2].kind == Request(2)
    requires Rests(s, 3, map[Decimal(2) := 2, Decimal(3) := 3], [Answer(1)])
    ensures Leads(Ongoing, s, s') && Rests(s', 3, map[Decimal(3) := 3], [Answer(1)])
    ensures s'.chans == s.chans && s'.ops.Keys == s.ops.Keys && Returned(s', 2)
  {
    s' := EndCall(s, 2);
    TwoKeys(2, 3);
  }

  lemma FirstMoves(first: Closer, first': Closer, second: Closer)
    ensures map[0 := first, 1 := second][0 := first'] == map[0 := first', 1 := second]
  {
  }

  /** The first closer's request times out. */
  lemma FirstGivesUp() returns (y: System)
    ensures Attained(y) && SecondAsked(y, AskExit, map[Decimal(3) := 3])
  {
    var a := BothAsk();
    var s := FirstTimesOut(a.mux);
    Meanwhile(a, s);
    y := ShutdownReturns(a.(mux := s), 2);
    FirstMoves(AwaitShutdown(2), AskExit, AwaitShutdown(3));
  }

  lemma ExitHappens(y: System, h: nat) returns (y': System)
    requires Attained(y) && CloserAt(y, 0, AskExit) && h !in y.mux.ops && !y.mux.table.closed
    ensures Attained(y') && y' == y.(mux := WithNotice(y.mux, h, Exit), closers := y.closers[0 := AwaitExit(h)])
  {
    Happens(y, SendExit(0, h, "0"));
    NoticePasses(y.mux, h, Exit);
    y' := After(y, SendExit(0, h, "0"));
  }

  lemma ExitReturns(y: System, h: nat) returns (y': System)
    requires Attained(y) && CloserAt(y, 0, AwaitExit(h)) && Returned(y.mux, h)
    ensures Attained(y') && y' == y.(closers := y.closers[0 := AtTable])
  {
    Happens(y, EndExit(0));
    y' := After(y, EndExit(0));
  }

  /** It sends exit and comes to the pending table. */
  lemma FirstAtTable() returns (y: System)
    ensures Attained(y) && CloserAt(y, 0, AtTable) && y.startup == Serving
    ensures Rests(y.mux, 3, map[Decimal(3) := 3], [Answer(1)]) && 3 in y.mux.chans && y.mux.chans[3] == OPEN
  {
    var a := FirstGivesUp();
    var b := ExitHappens(a, 4);
    var s := NoticeGoesOut(a.mux, 4, Exit, 3, map[Decimal(3) := 3], [Answer(1)]);
    Meanwhile(b, s);
    y := ExitReturns(b.(mux := s), 4);
  }

  // ----------------------------------------------------------------- the race

  lemma TableCloses(y: System) returns (y': System)
    requires Attained(y) && CloserAt(y, 0, AtTable) && !y.mux.table.closed
    ensures Attained(y') && y'.startup == y.startup
    ensures y'.mux.chans == Released(y.mux.table, y.mux.chans) && y'.mux.reader == y.mux.reader
    ensures y'.mux.taken == y.mux.taken
  {
    y' := TableClosing(y);
    TableShuts(y.mux);
  }

  lemma TableMayClose(y: System)
    requires CloserAt(y, 0, AtTable)
    ensures Allowed(y, CloseTable(0))
    ensures After(y, CloseTable(0)).startup == y.startup
    ensures After(y, CloseTable(0)).mux == Next(y.mux, CloseShutdown(CLOSE_CAUSE))
  {
  }

  lemma TableClosing(y: System) returns (y': System)
    requires Attained(y) && CloserAt(y, 0, AtTable)
    ensures Attained(y') && y'.startup == y.startup && y'.mux == Next(y.mux, CloseShutdown(CLOSE_CAUSE))
  {
    TableMayClose(y);
    Happens(y, CloseTable(0));
    y' := After(y, CloseTable(0));
  }

  lemma TableShuts(s: State)
    ensures var s' := Next(s, CloseShutdown(CLOSE_CAUSE));
            s'.chans == Released(s.table, s.chans) && s'.reader == s.reader && s'.taken == s.taken
  {
  }

  lemma ClosedSend(s: State)
    requires s.reader == Found(3) && s.taken != [] && 3 in s.chans && s.chans[3].closed
    ensures Enabled(s, Send) && Next(s, Send) == s.(reader := Panicked)
  {
  }

  lemma SendsOnClosed(y: System) returns (y': System)
    requires Attained(y) && y.mux.reader == Found(3) && y.mux.taken != [] && 3 in y.mux.chans && y.mux.chans[3].closed
    ensures Attained(y') && y' == y.(mux := y.mux.(reader := Panicked))
  {
    ClosedSend(y.mux);
    Happens(y, Inner(Send));
    y' := After(y, Inner(Send));
  }

  lemma DifferentCalls()
    ensures OneResponsePerCall([Answer(1), Answer(3)])
  {
    TwoKeys(1, 3);
  }

  lemma AnswerFound(s: State) returns (s': State)
    requires Rests(s, 3, map[Decimal(3) := 3], [Answer(1)]) && 3 in s.chans && s.chans[3] == OPEN
    ensures Leads(Ongoing, s, s') && s'.reader == Found(3) && s'.taken == [Answer(1), Answer(3)]
    ensures s'.table == s.table && s'.chans == s.chans
    ensures Released(s'.table, s'.chans)[3].closed
  {
    s' := FindCall(s, Answer(3));
    assert s.table.pending[Decimal(3)] == 3 && 3 in s.table.pending.Values;
  }

  lemma RacingRun() returns (y: System)
    ensures Attained(y) && y.startup == Serving && y.mux.taken == [Answer(1), Answer(3)] && y.mux.reader.Panicked?
  {
    var a := FirstAtTable();
    var s := AnswerFound(a.mux);
    Meanwhile(a, s);
    var b := TableCloses(a.(mux := s));
    y := SendsOnClosed(b);
  }

  /** One of two overlapping `Close` calls shuts the table down while the reader is
      between lookup and send with the answer to the other's shutdown request. The
      provider is serving, the peer answers each call once, and the reader sends on
      a closed channel. */
  lemma CloseRacesReader()
    ensures exists es, y :: Runs(START, es, y) && y.startup == Serving
                            && OneResponsePerCall(y.mux.taken) && y.mux.reader.Panicked?
  {
    var y := RacingRun();
    DifferentCalls();
    var es :| Runs(START, es, y);
  }
}
