/**
 * The agent's in-flight counter with deferred close.
 *
 * Each block under the lifecycle lock is one atomic step. A close that finds invocations in flight
 * is parked; the last invocation to leave takes it along and asks for the close again.
 */
module AgentLifecycle {

  /** What stood open and what had been asked for when a release was decided. */
  datatype Release = Release(started: set<nat>, ended: set<nat>, served: set<nat>)

  datatype State = State(
    inFlight: int,
    closePending: bool,
    // history: invocations begun and ended, exits on their way to `aclose` with a close they took along,
    // close requests made and those no release has answered yet, and the releases decided so far
    started: set<nat>,
    ended: set<nat>,
    carriers: nat,
    requested: set<nat>,
    unserved: set<nat>,
    releases: seq<Release>)

  const INITIAL := State(0, false, {}, {}, 0, {}, {}, [])

  datatype Event =
    | Enter(invocation: nat)   // `_invocation` on entry
    | Exit(invocation: nat)    // `_invocation` on exit
    | Close(request: nat)      // `close` or `aclose` from outside, up to its decision
    | Carry                    // `aclose` from an exit that took a parked close along

  predicate Enabled(s: State, e: Event) {
    match e
    case Enter(i) => i !in s.started
    case Exit(i) => i in s.started && i !in s.ended
    case Close(r) => r !in s.requested
    case Carry => s.carriers > 0
  }

  /** `_defer_close_while_busy`: park the close, or decide to release. */
  function Decide(s: State): State {
    if s.inFlight <= 0 then
      s.(unserved := {}, releases := s.releases + [Release(s.started, s.ended, s.requested)])
    else s.(closePending := true)
  }

  function Next(s: State, e: Event): State
    requires Enabled(s, e)
  {
    match e
    case Enter(i) => s.(inFlight := s.inFlight + 1, started := s.started + {i})
    case Exit(i) =>
      var left := s.(inFlight := s.inFlight - 1, ended := s.ended + {i});
      if left.inFlight <= 0 && s.closePending then left.(closePending := false, carriers := s.carriers + 1) else left
    case Close(r) => Decide(s.(requested := s.requested + {r}, unserved := s.unserved + {r}))
    case Carry => Decide(s.(carriers := s.carriers - 1))
  }

  // ----- The agent's fields -----

  class Lifecycle {
    var inFlight: int
    var closePending: bool
    ghost var history: State

    ghost predicate Valid()
      reads this
    {
      history.inFlight == inFlight && history.closePending == closePending
    }

    constructor ()
      ensures Valid() && history == INITIAL
    {
      inFlight, closePending := 0, false;
      history := INITIAL;
    }

    method EnterInvocation(ghost invocation: nat)
      requires Valid() && Enabled(history, Enter(invocation))
      modifies this
      ensures Valid() && history == Next(old(history), Enter(invocation))
    {
      inFlight := inFlight + 1;
      history := Next(history, Enter(invocation));
    }

    /** Leaves the invocation; `release` says that this exit goes on to call `aclose`. */
    method ExitInvocation(ghost invocation: nat) returns (release: bool)
      requires Valid() && Enabled(history, Exit(invocation))
      modifies this
      ensures Valid() && history == Next(old(history), Exit(invocation))
      ensures history.carriers == old(history).carriers + (if release then 1 else 0)
    {
      inFlight := inFlight - 1;
      release := inFlight <= 0 && closePending;
      if release {
        closePending := false;
      }
      history := Next(history, Exit(invocation));
    }

    /** `close`/`aclose` up to the decision; `released` says that the resources are now released. */
    method DeferCloseWhileBusy(ghost call: Event) returns (released: bool)
      requires Valid() && (call.Close? || call.Carry?) && Enabled(history, call)
      modifies this
      ensures Valid() && history == Next(old(history), call)
      ensures |history.releases| == |old(history).releases| + (if released then 1 else 0)
    {
      history := Next(history, call);
      if inFlight <= 0 {
        return true;
      }
      closePending := true;
      released := false;
    }
  }

  // ----- Runs -----

  predicate Possible(s: State, run: seq<Event>)
    decreases |run|
  {
    run == [] || (Enabled(s, run[0]) && Possible(Next(s, run[0]), run[1..]))
  }

  function After(s: State, run: seq<Event>): State
    requires Possible(s, run)
    decreases |run|
  {
    if run == [] then s else After(Next(s, run[0]), run[1..])
  }

  ghost predicate CountInv(s: State) {
    && s.ended <= s.started
    && s.inFlight == |s.started - s.ended|
    && (s.closePending ==> s.inFlight > 0)
    && (forall r :: r in s.releases ==> r.started == r.ended)
  }

  ghost predicate Inv(s: State) {
    && CountInv(s)
    && s.unserved <= s.requested
    && (s.unserved != {} ==> s.closePending || s.carriers > 0)
    && ServedInv(s)
  }

  ghost predicate ServedInv(s: State) {
    var served := s.requested - s.unserved;
    served != {} ==> s.releases != [] && served <= s.releases[|s.releases| - 1].served
  }

  lemma EnterStep(s: State, i: nat)
    requires Inv(s) && Enabled(s, Enter(i))
    ensures Inv(Next(s, Enter(i)))
  {
    assert (s.started + {i}) - s.ended == (s.started - s.ended) + {i};
  }

  lemma ExitStep(s: State, i: nat)
    requires Inv(s) && Enabled(s, Exit(i))
    ensures Inv(Next(s, Exit(i)))
  {
    assert s.started - (s.ended + {i}) == (s.started - s.ended) - {i};
  }

  /** The decision keeps the invariant even though the call that makes it is no longer counted among the carriers. */
  lemma DecideStep(s: State)
    requires CountInv(s) && s.unserved <= s.requested && ServedInv(s)
    ensures Inv(Decide(s))
  {
    IdleMeansEnded(s);
  }

  lemma InvStep(s: State, e: Event)
    requires Inv(s) && Enabled(s, e)
    ensures Inv(Next(s, e))
  {
    match e
    case Enter(i) => EnterStep(s, i);
    case Exit(i) => ExitStep(s, i);
    case Close(r) =>
      assert (s.requested + {r}) - (s.unserved + {r}) == s.requested - s.unserved;
      DecideStep(s.(requested := s.requested + {r}, unserved := s.unserved + {r}));
    case Carry =>
      DecideStep(s.(carriers := s.carriers - 1));
  }

  lemma IdleMeansEnded(s: State)
    requires s.ended <= s.started && s.inFlight == |s.started - s.ended|
    ensures s.inFlight <= 0 <==> s.started == s.ended
  {
    if s.inFlight <= 0 {
      assert s.started - s.ended == {};
    } else {
      assert s.started - s.ended != {};
    }
  }

  lemma {:induction false} RunKeepsInv(s: State, run: seq<Event>)
    requires Inv(s) && Possible(s, run)
    ensures Inv(After(s, run))
    decreases |run|
  {
    if run == [] {
    } else {
      InvStep(s, run[0]);
      RunKeepsInv(Next(s, run[0]), run[1..]);
    }
  }

  /** A pending close implies open invocations, and the counter is their number. */
  lemma CounterCountsOpen(run: seq<Event>)
    requires Possible(INITIAL, run)
    ensures var s := After(INITIAL, run);
            s.inFlight == |s.started - s.ended| && (s.closePending ==> s.started - s.ended != {})
  {
    RunKeepsInv(INITIAL, run);
  }

  /** Every release was decided when each invocation begun before it had ended. */
  lemma ReleasesFindAgentIdle(run: seq<Event>)
    requires Possible(INITIAL, run)
    ensures forall r :: r in After(INITIAL, run).releases ==> r.started == r.ended
  {
    RunKeepsInv(INITIAL, run);
  }

  /**
   * When nothing is in flight and no exit is still carrying a close, every close request has been answered
   * by a release.
   */
  lemma NoCloseIsLost(run: seq<Event>)
    requires Possible(INITIAL, run)
    requires var s := After(INITIAL, run); s.started == s.ended && s.carriers == 0
    ensures var s := After(INITIAL, run);
            s.requested != {} ==> s.releases != [] && s.requested <= s.releases[|s.releases| - 1].served
  {
    RunKeepsInv(INITIAL, run);
    var s := After(INITIAL, run);
    IdleMeansEnded(s);
    assert s.requested - s.unserved == s.requested;
  }

  /** The steps still to come once no new invocation starts and no new close is asked for. */
  ghost predicate WindDown(run: seq<Event>) {
    forall e :: e in run ==> e.Exit? || e.Carry?
  }

  /**
   * Winding down always ends, in at most two steps per open invocation and one per carried close,
   * and it can only end in the idle state in which no close is lost.
   */
  lemma {:induction false} WindDownEnds(s: State, run: seq<Event>)
    requires Inv(s) && Possible(s, run) && WindDown(run)
    ensures |run| <= 2 * s.inFlight + s.carriers
    ensures (forall e: Event :: e.Exit? || e.Carry? ==> !Enabled(After(s, run), e)) <==>
            After(s, run).started == After(s, run).ended && After(s, run).carriers == 0
    decreases |run|
  {
    if run == [] {
      if s.started != s.ended {
        var i :| i in s.started && i !in s.ended;
        assert Enabled(s, Exit(i));
      }
      if s.carriers > 0 {
        assert Enabled(s, Carry);
      }
    } else {
      assert run[0] in run && forall e :: e in run[1..] ==> e in run;
      InvStep(s, run[0]);
      WindDownEnds(Next(s, run[0]), run[1..]);
    }
  }
}
