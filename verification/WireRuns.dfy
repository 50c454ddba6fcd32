/** Runs of the provider, put together from single events and from stretches in
    which the multiplexer goes on by itself. */
module WireRuns {
  import opened Bytes
  import opened Multiplexer
  import opened MultiplexerSteps
  import opened MultiplexerInvariant
  import opened MultiplexerRuns
  import opened WireDiscipline

  ghost predicate Attained(y: System) {
    exists es :: Runs(START, es, y)
  }

  lemma {:induction false} RunsAppend(y: System, es: seq<Event>, m: System, e: Event)
    requires Runs(y, es, m) && Allowed(m, e)
    ensures Runs(y, es + [e], After(m, e))
    decreases |es|
  {
    if es == [] {
      assert Runs(After(y, e), [], After(y, e));
      assert [] + [e] == [e] && [e][1..] == [];
    } else {
      assert (es + [e])[1..] == es[1..] + [e];
      RunsAppend(After(y, es[0]), es[1..], m, e);
    }
  }

  lemma Happens(y: System, e: Event)
    requires Attained(y) && Allowed(y, e)
    ensures Attained(After(y, e))
  {
    var es :| Runs(START, es, y);
    RunsAppend(START, es, y, e);
  }

  lemma {:induction false} StepsHappen(y: System, ls: seq<Label>, s': State)
    requires Attained(y) && Steps(y.mux, ls, s') && forall i | 0 <= i < |ls| :: Ongoing(ls[i])
    ensures Attained(y.(mux := s'))
    decreases |ls|
  {
    if ls == [] {
      assert y.(mux := s') == y;
    } else {
      var m := After(y, Inner(ls[0]));
      Happens(y, Inner(ls[0]));
      assert m == y.(mux := Next(y.mux, ls[0]));
      StepsHappen(m, ls[1..], s');
    }
  }

  lemma {:induction false} RunsReach(y: System, es: seq<Event>, y': System)
    requires Runs(y, es, y') && Reachable(y.mux)
    ensures Reachable(y'.mux)
    decreases |es|
  {
    if es != [] {
      if MuxLabel(y, es[0]).Some? {
        ReachableStep(y.mux, MuxLabel(y, es[0]).value);
      }
      RunsReach(After(y, es[0]), es[1..], y');
    }
  }

  lemma AttainedReachable(y: System)
    requires Attained(y)
    ensures Reachable(y.mux)
  {
    var es :| Runs(START, es, y);
    assert Steps(INIT, [], INIT);
    RunsReach(START, es, y);
  }

  /** The multiplexer goes on by itself. */
  lemma Meanwhile(y: System, s': State)
    requires Attained(y) && Leads(Ongoing, y.mux, s')
    ensures Attained(y.(mux := s'))
  {
    var ls :| Steps(y.mux, ls, s') && forall i | 0 <= i < |ls| :: Ongoing(ls[i]);
    StepsHappen(y, ls, s');
  }

  /** A run from `y` to `y'` by events that start nothing new. */
  ghost predicate Continues(y: System, y': System) {
    exists es :: Runs(y, es, y') && forall i | 0 <= i < |es| :: !Starts(es[i])
  }

  /** The events by which the outside sets something going. */
  predicate Starts(e: Event) {
    e.SendInitialize? || e.SendInitialized? || e.Begin? || e.BeginClose?
  }

  lemma ContinuesNowhere(y: System)
    ensures Continues(y, y)
  {
    assert Runs(y, [], y);
  }

  lemma RunsCons(y: System, e: Event, es: seq<Event>, y': System)
    requires Allowed(y, e) && Runs(After(y, e), es, y')
    ensures Runs(y, [e] + es, y')
  {
    assert ([e] + es)[1..] == es;
  }

  lemma {:induction false} RunsOn(y: System, es: seq<Event>, m: System, es': seq<Event>, y': System)
    requires Runs(y, es, m) && Runs(m, es', y')
    ensures Runs(y, es + es', y')
    decreases |es|
  {
    if es == [] {
      assert es + es' == es';
    } else {
      RunsOn(After(y, es[0]), es[1..], m, es', y');
      RunsCons(y, es[0], es[1..] + es', y');
      assert [es[0]] + (es[1..] + es') == es + es';
    }
  }

  lemma ContinuesOn(y: System, m: System, y': System)
    requires Continues(y, m) && Continues(m, y')
    ensures Continues(y, y')
  {
    var es :| Runs(y, es, m) && forall i | 0 <= i < |es| :: !Starts(es[i]);
    var es' :| Runs(m, es', y') && forall i | 0 <= i < |es'| :: !Starts(es'[i]);
    RunsOn(y, es, m, es', y');
    assert forall i | 0 <= i < |es + es'| :: !Starts((es + es')[i]);
  }

  lemma ContinuesOne(y: System, e: Event)
    requires Allowed(y, e) && !Starts(e)
    ensures Continues(y, After(y, e))
  {
    assert Runs(After(y, e), [], After(y, e));
    assert [e][1..] == [];
    assert Runs(y, [e], After(y, e));
  }

  lemma ContinuesAttained(y: System, y': System)
    requires Attained(y) && Continues(y, y')
    ensures Attained(y')
  {
    var es :| Runs(START, es, y);
    var es' :| Runs(y, es', y') && forall i | 0 <= i < |es'| :: !Starts(es'[i]);
    RunsOn(START, es, y, es', y');
  }

  lemma {:induction false} StepsContinue(y: System, ls: seq<Label>, s': State)
    requires Steps(y.mux, ls, s') && forall i | 0 <= i < |ls| :: Ongoing(ls[i])
    ensures Continues(y, y.(mux := s'))
    decreases |ls|
  {
    if ls == [] {
      assert y.(mux := s') == y;
      ContinuesNowhere(y);
    } else {
      var m := After(y, Inner(ls[0]));
      ContinuesOne(y, Inner(ls[0]));
      assert m == y.(mux := Next(y.mux, ls[0]));
      StepsContinue(m, ls[1..], s');
      ContinuesOn(y, m, y.(mux := s'));
    }
  }

  /** The multiplexer goes on by itself, by labels of any such sort. */
  lemma LeadsContinues(y: System, sort: Label -> bool, s': State)
    requires Leads(sort, y.mux, s') && forall l | sort(l) :: Ongoing(l)
    ensures Continues(y, y.(mux := s'))
  {
    var ls :| Steps(y.mux, ls, s') && forall i | 0 <= i < |ls| :: sort(ls[i]);
    StepsContinue(y, ls, s');
  }
}
