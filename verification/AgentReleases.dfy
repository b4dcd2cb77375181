/** When an agent is released: what each release goes back to, over whole runs. */
module AgentReleases {
  import opened AgentLifecycle

  lemma {:induction false} LastStep(s: State, run: seq<Event>)
    requires run != [] && Possible(s, run)
    ensures Possible(s, run[..|run| - 1])
    ensures var t := After(s, run[..|run| - 1]);
            Enabled(t, run[|run| - 1]) && After(s, run) == Next(t, run[|run| - 1])
    decreases |run|
  {
    if |run| == 1 {
    } else {
      LastStep(Next(s, run[0]), run[1..]);
      assert run[1..][..|run| - 2] == run[..|run| - 1][1..];
    }
  }

  /** The history is that of the run: which invocations began and ended, and which closes were asked for. */
  lemma {:induction false} HistoryIsRun(run: seq<Event>)
    requires Possible(INITIAL, run)
    ensures var s := After(INITIAL, run);
            && (forall i :: i in s.started <==> Enter(i) in run)
            && (forall i :: i in s.ended <==> Exit(i) in run)
            && (forall r :: r in s.requested <==> Close(r) in run)
    decreases |run|
  {
    if run == [] {
    } else {
      var before, e := run[..|run| - 1], run[|run| - 1];
      LastStep(INITIAL, run);
      HistoryIsRun(before);
      assert run == before + [e];
      HistoryStep(After(INITIAL, before), e);
    }
  }

  lemma HistoryStep(s: State, e: Event)
    requires Enabled(s, e)
    ensures Next(s, e).started == if e.Enter? then s.started + {e.invocation} else s.started
    ensures Next(s, e).ended == if e.Exit? then s.ended + {e.invocation} else s.ended
    ensures Next(s, e).requested == if e.Close? then s.requested + {e.request} else s.requested
  {
  }

  /** How many releases there have been or may still come without another close being asked for. */
  function Claims(s: State): nat {
    |s.releases| + s.carriers + if s.closePending then 1 else 0
  }

  lemma ClaimsStep(s: State, e: Event)
    requires Enabled(s, e)
    ensures Claims(Next(s, e)) <= Claims(s) + if e.Close? then 1 else 0
  {
  }

  /**
   * Every release, every parked close and every exit that carries one goes back to a close request of its own. So
   * there are never more releases than close requests, and none without any.
   */
  lemma {:induction false} ReleasesNeedCloses(run: seq<Event>)
    requires Possible(INITIAL, run)
    ensures var s := After(INITIAL, run);
            |s.releases| + s.carriers + (if s.closePending then 1 else 0) <= |s.requested|
    decreases |run|
  {
    if run == [] {
    } else {
      var before, e := run[..|run| - 1], run[|run| - 1];
      LastStep(INITIAL, run);
      ReleasesNeedCloses(before);
      HistoryStep(After(INITIAL, before), e);
      ClaimsStep(After(INITIAL, before), e);
    }
  }

  lemma NoReleaseWithoutClose(run: seq<Event>)
    requires Possible(INITIAL, run) && forall e :: e in run ==> !e.Close?
    ensures var s := After(INITIAL, run); s.releases == [] && s.carriers == 0 && !s.closePending
  {
    HistoryIsRun(run);
    ReleasesNeedCloses(run);
    assert After(INITIAL, run).requested == {};
  }

  /**
   * A step releases the agent exactly if it is a close, asked for or carried along, and every invocation that has
   * begun has ended; otherwise a close is parked. Nothing but a close ever releases.
   */
  lemma ReleasedExactly(run: seq<Event>, e: Event)
    requires Possible(INITIAL, run) && Enabled(After(INITIAL, run), e)
    ensures var s, t := After(INITIAL, run), Next(After(INITIAL, run), e);
            && |s.releases| <= |t.releases| <= |s.releases| + 1
            && (|t.releases| > |s.releases| <==>
                  (e.Close? || e.Carry?) && forall i :: Enter(i) in run ==> Exit(i) in run)
            && ((e.Close? || e.Carry?) && |t.releases| == |s.releases| ==> t.closePending)
  {
    var s := After(INITIAL, run);
    RunKeepsInv(INITIAL, run);
    HistoryIsRun(run);
    IdleMeansEnded(s);
    assert s.started == s.ended <==> forall i :: i in s.started ==> i in s.ended;
    assert forall i :: i in s.ended ==> i in s.started;
    assert (forall i :: i in s.started ==> i in s.ended) <==> (forall i :: Enter(i) in run ==> Exit(i) in run);
  }

  /** An exit takes a parked close along exactly if it leaves no invocation open and a close is parked. */
  lemma CarriedExactly(run: seq<Event>, i: nat)
    requires Possible(INITIAL, run) && Enabled(After(INITIAL, run), Exit(i))
    ensures var s, t := After(INITIAL, run), Next(After(INITIAL, run), Exit(i));
            && (t.carriers == s.carriers + 1 <==> s.closePending && s.started == s.ended + {i})
            && (t.carriers != s.carriers + 1 ==> t.carriers == s.carriers && t.closePending == s.closePending)
  {
    var s := After(INITIAL, run);
    RunKeepsInv(INITIAL, run);
    assert s.started - (s.ended + {i}) == (s.started - s.ended) - {i};
    IdleMeansEnded(s.(inFlight := s.inFlight - 1, ended := s.ended + {i}));
  }

  /** A close asked for while an invocation is open is served once that one has ended. */
  lemma DeferredCloseOccurs()
    ensures var run := [Enter(0), Close(0), Exit(0), Carry];
            && Possible(INITIAL, run) && |After(INITIAL, run).releases| == 1
            && After(INITIAL, run).releases[0] == Release({0}, {0}, {0})
  {
    var run := [Enter(0), Close(0), Exit(0), Carry];
    var s1 := Next(INITIAL, run[0]);
    var s2 := Next(s1, run[1]);
    var s3 := Next(s2, run[2]);
    assert run[4..] == [];
    UnrollAt(s3, run, 3);
    UnrollAt(s2, run, 2);
    UnrollAt(s1, run, 1);
    UnrollAt(INITIAL, run, 0);
    assert run[0..] == run;
  }

  lemma UnrollAt(s: State, run: seq<Event>, i: nat)
    requires i < |run| && Enabled(s, run[i]) && Possible(Next(s, run[i]), run[i + 1..])
    ensures Possible(s, run[i..]) && After(s, run[i..]) == After(Next(s, run[i]), run[i + 1..])
  {
    assert run[i..][0] == run[i] && run[i..][1..] == run[i + 1..];
  }
}
