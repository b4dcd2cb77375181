/** What each caller of the MCP client is answered, and that a closed client comes to its end. */
module McpOutcomes {
  import opened Strings
  import opened McpClient

  // ----- The items of the queue -----

  /** What a step puts behind `before`: a request, or the sentinel on the first close. */
  function PutBy(before: seq<Item>, e: Event): seq<Item> {
    match e
    case Enqueue(id) => [Request(id)]
    case Aclose => if Close in before then [] else [Close]
    case _ => []
  }

  /** What a run puts on the queue, in its order. */
  function Puts(run: seq<Event>): seq<Item> {
    if run == [] then [] else Puts(run[..|run| - 1]) + PutBy(Puts(run[..|run| - 1]), run[|run| - 1])
  }

  /** The queue, with what the owner has taken from it, holds exactly that; the client is closed once it was asked. */
  lemma QueueIsRun(run: seq<Event>)
    requires Possible(INITIAL, run)
    ensures var s := After(INITIAL, run);
            && s.put == Puts(run)
            && (s.closed <==> Aclose in run)
            && (!s.owner.Done? ==> s.taken <= |s.put| && s.queue == s.put[s.taken..])
  {
    PutIsRun(run);
    RunKeepsInv(INITIAL, run);
  }

  lemma {:induction false} PutIsRun(run: seq<Event>)
    requires Possible(INITIAL, run)
    ensures After(INITIAL, run).put == Puts(run)
    ensures After(INITIAL, run).closed <==> Aclose in run
    decreases |run|
  {
    if run == [] {
    } else {
      AfterLast(INITIAL, run);
      var before, e := run[..|run| - 1], run[|run| - 1];
      PutIsRun(before);
      RunKeepsInv(INITIAL, before);
      PutStep(After(INITIAL, before), e);
      LastOf(run);
    }
  }

  lemma LastOf(run: seq<Event>)
    requires run != []
    ensures Aclose in run <==> Aclose in run[..|run| - 1] || run[|run| - 1] == Aclose
    ensures Puts(run) == Puts(run[..|run| - 1]) + PutBy(Puts(run[..|run| - 1]), run[|run| - 1])
  {
    assert run == run[..|run| - 1] + [run[|run| - 1]];
  }

  lemma PutStep(s: State, e: Event)
    requires QueueInv(s) && Enabled(s, e)
    ensures Next(s, e).put == s.put + PutBy(s.put, e)
    ensures Next(s, e).closed <==> s.closed || e.Aclose?
  {
    assert s.closed <==> Close in s.put;
  }

  // ----- Who settles a future -----

  /** This step settles the pending future of this request, with this outcome. */
  ghost predicate Settles(s: State, e: Event, id: nat, outcome: Future) {
    && id in s.futures && s.futures[id].Pending?
    && match outcome
       case Pending => false
       case Value(v) => e == Return(v) && s.owner == Calling(id)
       case Raised => (e.Raise? && s.owner == Calling(id)) || e.Exit?
       case Cancelled => e == Cancel(id)
  }

  lemma SettleStep(s: State, e: Event, id: nat, outcome: Future)
    requires Inv(s) && Enabled(s, e) && !outcome.Pending?
    ensures id in Next(s, e).futures && Next(s, e).futures[id] == outcome <==>
            (id in s.futures && s.futures[id] == outcome) || Settles(s, e, id, outcome)
  {
    if e.Exit? {
      ExitRaises(s, id);
    } else {
      FuturesNext(s, e);
    }
  }

  /** What each step but the last does to the futures. */
  lemma FuturesNext(s: State, e: Event)
    requires Enabled(s, e) && !e.Exit?
    ensures Next(s, e).futures == match e
                                  case Enqueue(id) => s.futures[id := Pending]
                                  case Return(value) => Settle(s.futures, s.owner.id, Value(value))
                                  case Raise => Settle(s.futures, s.owner.id, Raised)
                                  case Cancel(id) => Settle(s.futures, id, Cancelled)
                                  case _ => s.futures
  {
  }

  lemma ExitRaises(s: State, id: nat)
    requires Inv(s) && s.owner.Leaving?
    ensures Exited(s).futures.Keys == s.futures.Keys
    ensures id in s.futures ==> Exited(s).futures[id] == if s.futures[id].Pending? then Raised else s.futures[id]
  {
    ExitSettles(s);
    DrainKeeps(if s.active.Some? then Settle(s.futures, s.active.value, Raised) else s.futures, s.queue);
  }

  ghost predicate SettledAt(run: seq<Event>, i: nat, id: nat, outcome: Future)
    requires Possible(INITIAL, run)
  {
    i < |run| && Possible(INITIAL, run[..i]) && Settles(After(INITIAL, run[..i]), run[i], id, outcome)
  }

  /**
   * A future has an outcome exactly because some step of the run gave it that one while it was pending: a value is
   * the one that the session call of this very request returned; an error comes from that call raising, or from the
   * end of the owner; and a future is cancelled only by its own caller.
   */
  lemma {:induction false} SettledExactly(run: seq<Event>, id: nat, outcome: Future)
    requires Possible(INITIAL, run) && !outcome.Pending?
    ensures id in After(INITIAL, run).futures && After(INITIAL, run).futures[id] == outcome <==>
            exists i :: SettledAt(run, i, id, outcome)
    decreases |run|
  {
    if run == [] {
    } else {
      var before, e := run[..|run| - 1], run[|run| - 1];
      AfterLast(INITIAL, run);
      RunKeepsInv(INITIAL, before);
      SettleStep(After(INITIAL, before), e, id, outcome);
      SettledExactly(before, id, outcome);
      SettledLastOrEarlier(run, before, id, outcome);
    }
  }

  lemma SettledLastOrEarlier(run: seq<Event>, before: seq<Event>, id: nat, outcome: Future)
    requires run != [] && before == run[..|run| - 1] && Possible(INITIAL, run) && Possible(INITIAL, before)
    ensures (exists i :: SettledAt(run, i, id, outcome)) <==>
            (exists i :: SettledAt(before, i, id, outcome)) ||
            Settles(After(INITIAL, before), run[|run| - 1], id, outcome)
  {
    SettledLast(run, before, id, outcome);
    if i: nat :| SettledAt(run, i, id, outcome) && i < |before| {
      SettledEarlier(run, before, i, id, outcome);
    }
    if i: nat :| SettledAt(before, i, id, outcome) {
      SettledEarlier(run, before, i, id, outcome);
    }
  }

  lemma SettledLast(run: seq<Event>, before: seq<Event>, id: nat, outcome: Future)
    requires run != [] && before == run[..|run| - 1] && Possible(INITIAL, run) && Possible(INITIAL, before)
    ensures SettledAt(run, |before|, id, outcome) <==>
            Settles(After(INITIAL, before), run[|run| - 1], id, outcome)
  {
    assert run[..|before|] == before;
  }

  lemma SettledEarlier(run: seq<Event>, before: seq<Event>, i: nat, id: nat, outcome: Future)
    requires run != [] && before == run[..|run| - 1] && Possible(INITIAL, run) && Possible(INITIAL, before)
    requires i < |before|
    ensures SettledAt(run, i, id, outcome) <==> SettledAt(before, i, id, outcome)
  {
    assert before[..i] == run[..i] && before[i] == run[i];
  }

  /** While the session call of a request is open and its caller waits, what the call returns is the answer. */
  lemma ReturnAnswers(run: seq<Event>, value: int)
    requires Possible(INITIAL, run) && After(INITIAL, run).owner.Calling?
    ensures var s := After(INITIAL, run);
            var id := s.owner.id;
            && id in s.futures
            && Next(s, Return(value)).owner.Waiting?
            && (s.futures[id].Pending? ==> Next(s, Return(value)).futures == s.futures[id := Value(value)])
            && (!s.futures[id].Pending? ==> Next(s, Return(value)).futures == s.futures)
  {
    RunKeepsInv(INITIAL, run);
    OpenCallIsKnown(After(INITIAL, run));
  }

  lemma OpenCallIsKnown(s: State)
    requires QueueInv(s) && TurnsInv(s) && s.owner.Calling?
    ensures s.owner.id in s.futures
  {
  }

  /** A first request, its dispatch and its answer. */
  lemma AnswerOccurs(value: int)
    ensures var run := [Start, SessionReady, Enqueue(0), Take];
            && Possible(INITIAL, run) && After(INITIAL, run).owner == Calling(0)
            && 0 in After(INITIAL, run).futures && After(INITIAL, run).futures[0].Pending?
            && Next(After(INITIAL, run), Return(value)).futures[0] == Value(value)
  {
    var run := [Start, SessionReady, Enqueue(0), Take];
    var s1 := Next(INITIAL, run[0]);
    var s2 := Next(s1, run[1]);
    var s3 := Next(s2, run[2]);
    assert run[4..] == [];
    UnrollAt(s3, run, 3);
    UnrollAt(s2, run, 2);
    UnrollAt(s1, run, 1);
    UnrollAt(INITIAL, run, 0);
    assert run[0..] == run;
  }

  lemma UnrollAt(s: State, run: seq<Event>, i: nat)
    requires i < |run| && Enabled(s, run[i]) && Possible(Next(s, run[i]), run[i + 1..])
    ensures Possible(s, run[i..]) && After(s, run[i..]) == After(Next(s, run[i]), run[i + 1..])
  {
    assert run[i..][0] == run[i] && run[i..][1..] == run[i + 1..];
  }

  // ----- The end of a closed client -----

  /** The owner's own steps, with sessions that come up and calls that end. */
  predicate Own(e: Event) {
    e.SessionReady? || e.Take? || e.Return? || e.Raise? || e.Exit?
  }

  /** How many of its own steps a closed client has left, at most. */
  function StepsLeft(s: State): nat {
    match s.owner
    case Unstarted => 0
    case Opening => 2 * |s.queue| + 2
    case Waiting => 2 * |s.queue| + 1
    case Calling(_) => 2 * |s.queue| + 2
    case Leaving => 1
    case Done => 0
  }

  ghost predicate CloseInQueue(s: State) {
    s.closed && (s.owner.Opening? || s.owner.Waiting? || s.owner.Calling? ==> Close in s.queue)
  }

  lemma ClosedHasSentinel(s: State)
    requires Inv(s) && s.closed
    ensures CloseInQueue(s)
  {
    if s.owner.Opening? || s.owner.Waiting? || s.owner.Calling? {
      assert s.queue[s.closeAt.value - s.taken] == Close;
    }
  }

  lemma OwnStep(s: State, e: Event)
    requires Inv(s) && s.closed && Own(e) && Enabled(s, e)
    ensures Next(s, e).closed && StepsLeft(Next(s, e)) < StepsLeft(s)
  {
    if e.Take? {
      TakenFrame(s, Taken(s));
    }
  }

  lemma StoppedMeansDone(s: State)
    requires Inv(s) && s.closed
    ensures (forall e: Event :: Own(e) ==> !Enabled(s, e)) <==> s.owner.Done? || s.owner.Unstarted?
  {
    ClosedHasSentinel(s);
    if s.owner.Opening? {
      assert Own(SessionReady) && Enabled(s, SessionReady);
    } else if s.owner.Waiting? {
      assert Own(Take) && Enabled(s, Take);
    } else if s.owner.Calling? {
      assert Own(Raise) && Enabled(s, Raise);
    } else if s.owner.Leaving? {
      assert Own(Exit) && Enabled(s, Exit);
    }
  }

  /**
   * Once closed, a started client runs for a bounded number of its own steps, and comes to rest only when its owner
   * is done: then nobody is left waiting (`NothingLeftUnsettled`).
   */
  lemma {:induction false} CloseEnds(s: State, run: seq<Event>)
    requires Inv(s) && s.closed && Possible(s, run) && forall e :: e in run ==> Own(e)
    ensures |run| <= StepsLeft(s) <= 2 * |s.queue| + 2
    ensures (forall e: Event :: Own(e) ==> !Enabled(After(s, run), e)) <==>
            After(s, run).owner.Done? || After(s, run).owner.Unstarted?
    decreases |run|
  {
    if run == [] {
      StoppedMeansDone(s);
    } else {
      assert run[0] in run && forall e :: e in run[1..] ==> e in run;
      InvStep(s, run[0]);
      OwnStep(s, run[0]);
      CloseEnds(Next(s, run[0]), run[1..]);
    }
  }

  /** A failed owner is done one step later, wherever it was. */
  lemma FailureEnds(s: State)
    requires Inv(s) && Enabled(s, Fail)
    ensures Enabled(Next(s, Fail), Exit) && Next(Next(s, Fail), Exit).owner.Done?
    ensures forall id :: id in s.futures ==>
              id in Next(Next(s, Fail), Exit).futures && !Next(Next(s, Fail), Exit).futures[id].Pending?
  {
    InvStep(s, Fail);
    ExitSettles(Next(s, Fail));
  }
}
