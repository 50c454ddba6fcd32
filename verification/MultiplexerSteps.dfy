/** One step of the multiplexer, seen from outside: the program order of operations,
    and what each sort of step leaves alone. */
module MultiplexerSteps {
  import opened Bytes
  import opened Decimals
  import opened Multiplexer

  // ----------------------------------------------------------- program order

  /** The order in which an operation passes through its program points. */
  predicate Follows(request: bool, from: Phase, to: Phase) {
    match from
    case Ready => to == Locked
    case Locked => to == HeaderOut || to == Torn
    case HeaderOut => to == BodyOut || to == Torn
    case BodyOut => to == if request then Waiting else Done(Sent)
    case Torn => to == if request then Leaving(WriteFailed) else Done(WriteFailed)
    case Waiting => to == SawClosed || (to.Leaving? && (to.outcome.Replied? || to.outcome.TimedOut?))
    case SawClosed => to.Leaving? && to.outcome.Disconnected?
    case Leaving(outcome) => to == Done(outcome)
    case Done(_) => false
  }

  predicate Advances(op: Op, op': Op) {
    op'.kind == op.kind && op'.msg == op.msg && Follows(op.kind.Request?, op.phase, op'.phase)
  }

  predicate Starting(l: Label) {
    l.Register? || l.CheckNotice? || l.Respond?
  }

  predicate TouchesOp(l: Label) {
    !(l.Take? || l.Skip? || l.RespondDone? || l.LookUp? || l.Send? || l.EndOfStream? || l.ReaderShutdown?
      || l.CloseShutdown?)
  }

  /** The labels under which an operation leaves a phase, or enters `writeMu`'s
      last one. */
  predicate FitsLabel(l: Label, from: Phase, to: Phase) {
    && (from.Ready? <==> l.Lock?)
    && (from.BodyOut? || from.Torn? <==> l.Unlock?)
    && (from.Leaving? <==> l.Deregister?)
    && (to.HeaderOut? <==> l.WriteHeader?)
    && (to.BodyOut? <==> l.WriteBody?)
    && (to.Torn? <==> l.FailWrite?)
  }

  /** What a step does to the operations: one starts, or one moves on, or none. */
  ghost predicate OpMove(s: State, l: Label, s': State) {
    if Starting(l) then
      && l.h !in s.ops && l.h in s'.ops && s'.ops == s.ops[l.h := s'.ops[l.h]]
      && (s'.ops[l.h].phase == Ready || (s'.ops[l.h].phase.Done? && s'.ops[l.h].phase.outcome.Rejected?))
    else if TouchesOp(l) then
      && l.h in s.ops && l.h in s'.ops && s'.ops == s.ops[l.h := s'.ops[l.h]]
      && Advances(s.ops[l.h], s'.ops[l.h]) && FitsLabel(l, s.ops[l.h].phase, s'.ops[l.h].phase)
    else s'.ops == s.ops
  }

  predicate WireLabel(l: Label) {
    l.Lock? || l.WriteHeader? || l.WriteBody? || l.FailWrite? || l.Unlock?
  }

  lemma WriterMoves(s: State, l: Label)
    requires Enabled(s, l) && WireLabel(l)
    ensures OpMove(s, l, Next(s, l))
  {
  }

  lemma CallerMoves(s: State, l: Label)
    requires Enabled(s, l) && !WireLabel(l) && TouchesOp(l) && !Starting(l)
    ensures OpMove(s, l, Next(s, l))
  {
  }

  lemma StarterMoves(s: State, l: Label)
    requires Enabled(s, l) && Starting(l)
    ensures OpMove(s, l, Next(s, l))
  {
  }

  lemma NoneMoves(s: State, l: Label)
    requires Enabled(s, l) && !TouchesOp(l)
    ensures OpMove(s, l, Next(s, l))
  {
  }

  lemma OpMoves(s: State, l: Label)
    requires Enabled(s, l)
    ensures OpMove(s, l, Next(s, l))
  {
    if Starting(l) {
      StarterMoves(s, l);
    } else if WireLabel(l) {
      WriterMoves(s, l);
    } else if TouchesOp(l) {
      CallerMoves(s, l);
    } else {
      NoneMoves(s, l);
    }
  }

  // ------------------------------------------------ what each sort of step leaves

  ghost predicate WireSame(s: State, s': State) {
    s'.out == s.out && s'.log == s.log && s'.grants == s.grants && s'.writer == s.writer && s'.failed == s.failed
  }

  ghost predicate ReaderSame(s: State, s': State) {
    s'.reader == s.reader && s'.taken == s.taken && s'.raced == s.raced
  }

  ghost predicate TableSame(s: State, s': State) {
    s'.table == s.table && s'.calls == s.calls
  }

  lemma WriterLeaves(s: State, l: Label)
    requires Enabled(s, l) && WireLabel(l)
    ensures var s' := Next(s, l); TableSame(s, s') && ReaderSame(s, s') && s'.chans == s.chans
  {
  }

  lemma CallerLeaves(s: State, l: Label)
    requires Enabled(s, l) && !WireLabel(l) && TouchesOp(l) && !Starting(l)
    ensures var s' := Next(s, l);
            && WireSame(s, s') && ReaderSame(s, s') && s'.calls == s.calls
            && (if l.Deregister? then s'.table == Deregistered(s.table, Decimal(s.ops[l.h].kind.id)) else s'.table == s.table)
            && (if l.Receive? then l.h in s.chans && s'.chans == s.chans[l.h := s.chans[l.h].(buf := None)]
                else s'.chans == s.chans)
  {
  }

  lemma StarterLeaves(s: State, l: Label)
    requires Enabled(s, l) && Starting(l)
    ensures var s' := Next(s, l);
            && WireSame(s, s') && s'.taken == s.taken && s'.raced == s.raced
            && (l.Respond? || s'.reader == s.reader)
            && (if l.Register? && !s.table.closed then s'.table == Registered(s.table, l.h) && s'.chans == s.chans[l.h := OPEN]
                else TableSame(s, s') && s'.chans == s.chans)
  {
  }

  predicate Shuts(l: Label) {
    l.ReaderShutdown? || l.CloseShutdown?
  }

  lemma ReaderWire(s: State, l: Label)
    requires Enabled(s, l) && !TouchesOp(l)
    ensures WireSame(s, Next(s, l))
  {
  }

  lemma ReaderLeaves(s: State, l: Label)
    requires Enabled(s, l) && !TouchesOp(l)
    ensures var s' := Next(s, l);
            && s'.calls == s.calls && (Shuts(l) || s'.table == s.table)
            && (Shuts(l) || l.Send? || s'.chans == s.chans)
  {
  }

  lemma SendLeaves(s: State)
    requires Enabled(s, Send)
    ensures var s', h := Next(s, Send), s.reader.h;
            && s'.taken == s.taken && s'.raced == s.raced
            && s'.chans == if s.chans[h].closed then s.chans else s.chans[h := Chan(Some(|s.taken| - 1), false)]
  {
  }

  lemma ShutLeaves(s: State, l: Label)
    requires Enabled(s, l) && Shuts(l)
    ensures Next(s, l).taken == s.taken && Next(s, l).chans == Released(s.table, s.chans)
    ensures exists cause :: Next(s, l).table == ShutDown(s.table, cause)
  {
    if l.ReaderShutdown? {
      assert Next(s, l).table == ShutDown(s.table, s.reader.cause);
    } else {
      assert Next(s, l).table == ShutDown(s.table, l.cause);
    }
  }

  /** Everything a step leaves alone, by the sort of its label. */
  lemma Leaves(s: State, l: Label)
    requires Enabled(s, l)
    ensures var s' := Next(s, l);
            && (!WireLabel(l) ==> WireSame(s, s'))
            && (WireLabel(l) ==> TableSame(s, s') && ReaderSame(s, s'))
            && (l.Register? || s'.calls == s.calls)
            && (l.Register? || l.Deregister? || Shuts(l) || s'.table == s.table)
            && (l.Register? || l.Receive? || l.Send? || Shuts(l) || s'.chans == s.chans)
  {
    if WireLabel(l) {
      WriterLeaves(s, l);
    } else if Starting(l) {
      StarterLeaves(s, l);
    } else if TouchesOp(l) {
      CallerLeaves(s, l);
    } else {
      ReaderWire(s, l);
      ReaderLeaves(s, l);
    }
  }
}
