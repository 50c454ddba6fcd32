/** What a query is for: on a connection at rest, the file is opened if need be, the
    request goes out, and the result the server sends is the result returned. */
module WireService {
  import opened Bytes
  import opened Decimals
  import opened Multiplexer
  import opened MultiplexerSteps
  import opened MultiplexerInvariant
  import opened MultiplexerTheorems
  import opened MultiplexerRuns
  import opened WireDiscipline
  import opened WireRuns
  import opened WireOutcomes
  import opened WireProgress

  /** The provider serves, the table is open, and nobody is reading or writing. */
  predicate AtRest(y: System) {
    && y.startup == Serving && !y.mux.table.closed && y.openLock == None
    && y.mux.reader == Reading && y.mux.writer == None
  }

  function ResultFrame(id: nat, payload: Text): Incoming {
    Incoming("", Decimal(id), false, payload)
  }

  // --------------------------------------------------------- in the multiplexer

  lemma SendToOpen(s: State, h: nat, i: nat) returns (s': State)
    requires s.reader == Found(h) && |s.taken| == i + 1 && h in s.chans && s.chans[h] == OPEN
    ensures Leads(Ongoing, s, s')
    ensures s' == s.(reader := Reading, chans := s.chans[h := Chan(Some(i), false)])
  {
    s' := Next(s, Send);
    LeadsOne(Ongoing, s, Send);
  }

  /** The answer arrives in the channel of the waiting call. */
  lemma AnswerArrives(s: State, h: nat, id: nat, payload: Text) returns (s': State)
    requires s.reader == Reading && At(s, h, Waiting) && s.ops[h].kind == Request(id)
    requires Decimal(id) in s.table.pending && s.table.pending[Decimal(id)] == h && h in s.chans && s.chans[h] == OPEN
    ensures Leads(Ongoing, s, s')
    ensures s' == s.(taken := s.taken + [ResultFrame(id, payload)], chans := s.chans[h := Chan(Some(|s.taken|), false)])
  {
    var m := FindCall(s, ResultFrame(id, payload));
    s' := SendToOpen(m, h, |s.taken|);
    LeadsOn(Ongoing, s, m, s');
  }

  lemma AnswerReturned(s: State, h: nat, i: nat) returns (s': State)
    requires At(s, h, Waiting) && s.ops[h].kind.Request? && h in s.chans && s.chans[h].buf == Some(i)
    ensures Leads(Ongoing, s, s') && s'.ops == s.ops[h := s.ops[h].(phase := Done(Replied(i)))]
    ensures s'.taken == s.taken
  {
    var m := Next(s, Receive(h));
    LeadsOne(Ongoing, s, Receive(h));
    s' := Next(m, Deregister(h));
    LeadsOne(Ongoing, m, Deregister(h));
    LeadsOn(Ongoing, s, m, s');
  }

  /** A call from its registration to its result. */
  lemma CallAnswered(s: State, h: nat, tag: Tag, payload: Text) returns (s': State)
    requires s.reader == Reading && s.writer == None && h !in s.ops
    ensures Leads(Ongoing, WithCall(s, h, tag), s')
    ensures s'.ops == s.ops[h := Op(Request(s.table.nextId + 1), Message(tag, "0"), Done(Replied(|s.taken|)))]
    ensures s'.taken == s.taken + [ResultFrame(s.table.nextId + 1, payload)]
  {
    var a := CallSent(s, h, tag);
    s' := SentAnswered(a, h, s.table.nextId + 1, payload);
    LeadsOn(Ongoing, WithCall(s, h, tag), a, s');
    OpReplaced(s.ops, h, a.ops[h], s'.ops[h]);
  }

  lemma SentAnswered(s: State, h: nat, id: nat, payload: Text) returns (s': State)
    requires s.reader == Reading && At(s, h, Waiting) && s.ops[h].kind == Request(id)
    requires Decimal(id) in s.table.pending && s.table.pending[Decimal(id)] == h && h in s.chans && s.chans[h] == OPEN
    ensures Leads(Ongoing, s, s') && s'.taken == s.taken + [ResultFrame(id, payload)]
    ensures s'.ops == s.ops[h := s.ops[h].(phase := Done(Replied(|s.taken|)))]
  {
    var m := AnswerArrives(s, h, id, payload);
    s' := AnswerReturned(m, h, |s.taken|);
    LeadsOn(Ongoing, s, m, s');
  }

  // ------------------------------------------------------------ the inquiry

  lemma InquiryReplaced(inquiries: map<nat, Inquiry>, t: nat, first: Inquiry, last: Inquiry)
    ensures inquiries[t := first][t := last] == inquiries[t := last]
  {
  }

  lemma InquiryBegins(y: System, t: nat, file: Text, methodName: Text) returns (y': System)
    requires Attained(y) && y.startup == Serving && t !in y.inquiries
    ensures Attained(y') && y' == y.(inquiries := y.inquiries[t := Inquiry(file, methodName, WantOpen)])
  {
    Happens(y, Begin(t, file, methodName));
    y' := After(y, Begin(t, file, methodName));
  }

  lemma LockTakenBy(y: System, t: nat) returns (y': System)
    requires Attained(y) && InquiryAt(y, t, WantOpen) && y.openLock == None
    ensures Attained(y') && y' == Advance(y, t, Checking).(openLock := Some(t))
  {
    Happens(y, LockOpen(t));
    y' := After(y, LockOpen(t));
  }

  lemma QueryBegins(y: System, t: nat, file: Text, methodName: Text) returns (y': System)
    requires Attained(y) && AtRest(y) && t !in y.inquiries
    ensures Attained(y') && y' == y.(openLock := Some(t), inquiries := y.inquiries[t := Inquiry(file, methodName, Checking)])
  {
    var m := InquiryBegins(y, t, file, methodName);
    y' := LockTakenBy(m, t);
    InquiryReplaced(y.inquiries, t, Inquiry(file, methodName, WantOpen), Inquiry(file, methodName, Checking));
  }

  lemma DidOpenGoes(y: System, t: nat, h: nat) returns (y': System)
    requires Attained(y) && InquiryAt(y, t, Checking) && y.inquiries[t].file !in y.openFiles
    requires !y.mux.table.closed && h !in y.mux.ops
    ensures Attained(y')
    ensures y' == Advance(y, t, Opening(h)).(mux := WithNotice(y.mux, h, DidOpen(y.inquiries[t].file)))
  {
    var e := SendDidOpen(t, h, "0");
    NoticePasses(y.mux, h, DidOpen(y.inquiries[t].file));
    Happens(y, e);
    y' := After(y, e);
  }

  lemma DidOpenReturns(y: System, t: nat, h: nat) returns (y': System)
    requires Attained(y) && InquiryAt(y, t, Opening(h)) && At(y.mux, h, Done(Sent))
    ensures Attained(y')
    ensures y' == Advance(y, t, Closing(true)).(openFiles := y.openFiles + {y.inquiries[t].file})
  {
    Happens(y, EndDidOpen(t));
    y' := After(y, EndDidOpen(t));
  }

  lemma FoundOpen(y: System, t: nat) returns (y': System)
    requires Attained(y) && InquiryAt(y, t, Checking) && y.inquiries[t].file in y.openFiles
    ensures Attained(y') && y' == Advance(y, t, Closing(true))
  {
    Happens(y, FindOpen(t));
    y' := After(y, FindOpen(t));
  }

  /** The inquiry `t`, on a connection that is otherwise at rest. */
  predicate Inquiring(y: System, t: nat, inquiry: Inquiry) {
    && t in y.inquiries && y.inquiries[t] == inquiry
    && !y.mux.table.closed && y.mux.reader == Reading && y.mux.writer == None
  }

  /** Whether the file was open or not, it is now. */
  lemma FileOpened(y: System, t: nat, file: Text, methodName: Text) returns (y': System)
    requires Attained(y) && Inquiring(y, t, Inquiry(file, methodName, Checking))
    ensures Attained(y') && Inquiring(y', t, Inquiry(file, methodName, Closing(true))) && file in y'.openFiles
    ensures y'.mux.taken == y.mux.taken
  {
    if file in y.openFiles {
      y' := FoundOpen(y, t);
    } else {
      var h := FreshHandle(y.mux.ops.Keys);
      var a := DidOpenGoes(y, t, h);
      var s := NoticeSent(y.mux, h, DidOpen(file));
      Meanwhile(a, s);
      y' := DidOpenReturns(a.(mux := s), t, h);
    }
  }

  lemma LockReleased(y: System, t: nat, file: Text, methodName: Text) returns (y': System)
    requires Attained(y) && Inquiring(y, t, Inquiry(file, methodName, Closing(true)))
    ensures Attained(y') && Inquiring(y', t, Inquiry(file, methodName, Opened))
    ensures y'.openFiles == y.openFiles && y'.mux == y.mux
  {
    Happens(y, UnlockOpen(t));
    y' := After(y, UnlockOpen(t));
  }

  lemma QueryGoes(y: System, t: nat, file: Text, methodName: Text, h: nat) returns (y': System)
    requires Attained(y) && Inquiring(y, t, Inquiry(file, methodName, Opened)) && h !in y.mux.ops
    ensures Attained(y')
    ensures y' == Advance(y, t, Querying(h)).(mux := WithCall(y.mux, h, Query(methodName, file)))
  {
    var e := SendQuery(t, h, "0");
    CallRegisters(y.mux, h, Query(methodName, file));
    Happens(y, e);
    y' := After(y, e);
  }

  lemma QueryReturns(y: System, t: nat, h: nat, i: nat) returns (y': System)
    requires Attained(y) && InquiryAt(y, t, Querying(h)) && At(y.mux, h, Done(Replied(i)))
    requires i < |y.mux.taken| && y.mux.taken[i].Incoming? && !y.mux.taken[i].isError
    ensures Attained(y') && y' == Advance(y, t, Finished(Some(i)))
  {
    Happens(y, EndQuery(t));
    y' := After(y, EndQuery(t));
  }

  lemma QueryAsked(y: System, t: nat, file: Text, methodName: Text, payload: Text) returns (y': System)
    requires Attained(y) && Inquiring(y, t, Inquiry(file, methodName, Opened))
    ensures Attained(y') && t in y'.inquiries && y'.openFiles == y.openFiles
    ensures y'.inquiries[t] == Inquiry(file, methodName, Finished(Some(|y.mux.taken|)))
    ensures exists id :: y'.mux.taken == y.mux.taken + [ResultFrame(id, payload)]
  {
    var h := FreshHandle(y.mux.ops.Keys);
    var a := QueryGoes(y, t, file, methodName, h);
    var s := CallAnswered(y.mux, h, Query(methodName, file), payload);
    Meanwhile(a, s);
    y' := QueryReturns(a.(mux := s), t, h, |y.mux.taken|);
  }

  /** Whatever has happened before: on a connection at rest, a query for any file with
      any method can go all the way, the file being opened on the way if it is not
      open yet, and what it returns is what the server puts into its answer. */
  lemma QueryGetsThrough(es: seq<Event>, y: System, t: nat, file: Text, methodName: Text, payload: Text)
    requires Runs(START, es, y) && AtRest(y) && t !in y.inquiries
    ensures exists es', y' ::
              && Runs(START, es', y') && t in y'.inquiries && file in y'.openFiles
              && y'.inquiries[t] == Inquiry(file, methodName, Finished(Some(|y.mux.taken|)))
              && |y'.mux.taken| == |y.mux.taken| + 1 && y'.mux.taken[|y.mux.taken|].Incoming?
              && y'.mux.taken[|y.mux.taken|].payload == payload
  {
    var a := QueryBegins(y, t, file, methodName);
    var b := FileOpened(a, t, file, methodName);
    var c := LockReleased(b, t, file, methodName);
    var y' := QueryAsked(c, t, file, methodName, payload);
    var es' :| Runs(START, es', y');
  }

  /** A query whose file cannot be read ends with an error and sends nothing. */
  lemma UnreadableFile(es: seq<Event>, y: System, t: nat, file: Text, methodName: Text)
    requires Runs(START, es, y) && AtRest(y) && t !in y.inquiries && file !in y.openFiles
    ensures exists es', y' ::
              Runs(START, es', y') && y' == y.(inquiries := y.inquiries[t := Inquiry(file, methodName, Finished(None))])
  {
    var a := QueryBegins(y, t, file, methodName);
    var b := ReadFails(a, t);
    var y' := LockGivenBack(b, t);
    InquiryReplaced(y.inquiries, t, a.inquiries[t], b.inquiries[t]);
    InquiryReplaced(y.inquiries, t, b.inquiries[t], y'.inquiries[t]);
    var es' :| Runs(START, es', y');
  }

  lemma ReadFails(y: System, t: nat) returns (y': System)
    requires Attained(y) && InquiryAt(y, t, Checking) && y.inquiries[t].file !in y.openFiles
    ensures Attained(y') && y' == Advance(y, t, Closing(false))
  {
    Happens(y, FailRead(t));
    y' := After(y, FailRead(t));
  }

  lemma LockGivenBack(y: System, t: nat) returns (y': System)
    requires Attained(y) && InquiryAt(y, t, Closing(false))
    ensures Attained(y') && y' == Advance(y, t, Finished(None)).(openLock := None)
  {
    Happens(y, UnlockOpen(t));
    y' := After(y, UnlockOpen(t));
  }
}
