/**
 * The task-owned MCP client: one owner task, a queue of requests and a future per request.
 *
 * Everything between two awaits is one atomic step. `Next` gives the state after each step;
 * the class carries the steps out on its fields.
 */
module McpClient {
  import opened Strings

  datatype Future = Pending | Value(value: int) | Raised | Cancelled

  /** A queued request, named by the number of its future, or the close sentinel. */
  datatype Item = Request(id: nat) | Close

  /** Where the owner task stands between two steps. */
  datatype Owner =
    | Unstarted          // no task yet
    | Opening            // opening and initialising the session
    | Waiting            // at `queue.get()`
    | Calling(id: nat)   // inside the session call of this request
    | Leaving            // leaving the session context, before the `finally` block
    | Done

  datatype State = State(
    owner: Owner,
    ready: Future,
    closed: bool,
    queue: seq<Item>,
    active: Option<nat>,
    futures: map<nat, Future>,
    // history: every item put on the queue, where each request and the sentinel stand in it,
    // how many items the owner took, and which of them it dispatched
    put: seq<Item>,
    place: map<nat, nat>,
    closeAt: Option<nat>,
    taken: nat,
    turns: seq<nat>)

  const INITIAL := State(Unstarted, Pending, false, [], None, map[], [], map[], None, 0, [])

  datatype Event =
    | Start               // `_start` finds no task and creates it
    | Enqueue(id: nat)    // the rest of `_request` once `_start` has returned
    | Aclose              // `aclose` up to its await
    | SessionReady        // `initialize` returned
    | Take                // one round of the loop head, up to the session call
    | Return(value: int)  // the session call returned
    | Raise               // the session call raised or timed out
    | Fail                // the transport failed or the owner task was cancelled
    | Exit                // the `finally` block
    | Cancel(id: nat)     // a caller stopped waiting for its future

  /** When the code can take this step. */
  predicate Enabled(s: State, e: Event) {
    match e
    case Start => s.owner.Unstarted? && !s.closed
    case Enqueue(id) => s.ready.Value? && !s.owner.Done? && id !in s.futures
    case Aclose => true
    case SessionReady => s.owner.Opening?
    case Take => s.owner.Waiting? && s.queue != []
    case Return(_) => s.owner.Calling?
    case Raise => s.owner.Calling?
    case Fail => s.owner.Opening? || s.owner.Waiting? || s.owner.Calling? || s.owner.Leaving?
    case Exit => s.owner.Leaving?
    case Cancel(id) => id in s.futures
  }

  /** A future changes only while it is pending. */
  function Settle(futures: map<nat, Future>, id: nat, outcome: Future): map<nat, Future> {
    if id in futures && futures[id].Pending? then futures[id := outcome] else futures
  }

  /** The draining loop of the `finally` block. */
  function Drain(futures: map<nat, Future>, queue: seq<Item>): map<nat, Future> {
    if queue == [] then futures
    else Drain(if queue[0].Request? then Settle(futures, queue[0].id, Raised) else futures, queue[1..])
  }

  function Enqueued(s: State, id: nat): State {
    s.(queue := s.queue + [Request(id)], futures := s.futures[id := Pending],
       put := s.put + [Request(id)], place := s.place[id := |s.put|])
  }

  function Closing(s: State): State {
    if s.closed then s
    else s.(closed := true, queue := s.queue + [Close], put := s.put + [Close], closeAt := Some(|s.put|))
  }

  function Taken(s: State): State
    requires s.queue != []
  {
    var rest := s.(queue := s.queue[1..], taken := s.taken + 1);
    match s.queue[0]
    case Close => rest.(owner := Leaving)
    case Request(id) =>
      if id in s.futures && s.futures[id].Cancelled? then rest.(active := Some(id))
      else rest.(active := Some(id), owner := Calling(id), turns := s.turns + [s.taken])
  }

  function Exited(s: State): State {
    var settled := if s.active.Some? then Settle(s.futures, s.active.value, Raised) else s.futures;
    s.(owner := Done,
       ready := if s.ready.Pending? then Raised else s.ready,
       futures := Drain(settled, s.queue),
       queue := [])
  }

  function Next(s: State, e: Event): State
    requires Enabled(s, e)
  {
    match e
    case Start => s.(owner := Opening)
    case Enqueue(id) => Enqueued(s, id)
    case Aclose => Closing(s)
    case SessionReady => s.(owner := Waiting, ready := Value(0))
    case Take => Taken(s)
    case Return(value) => s.(owner := Waiting, futures := Settle(s.futures, s.owner.id, Value(value)))
    case Raise => s.(owner := Waiting, futures := Settle(s.futures, s.owner.id, Raised))
    case Fail => s.(owner := Leaving)
    case Exit => Exited(s)
    case Cancel(id) => s.(futures := Settle(s.futures, id, Cancelled))
  }

  // ----- The client -----

  class ManagedMCPClient {
    var queue: seq<Item>
    var task: Owner
    var ready: Future
    var closed: bool
    var active: Option<nat>
    var futures: map<nat, Future>
    ghost var put: seq<Item>
    ghost var place: map<nat, nat>
    ghost var closeAt: Option<nat>
    ghost var taken: nat
    ghost var turns: seq<nat>

    ghost function Now(): State
      reads this
    {
      State(task, ready, closed, queue, active, futures, put, place, closeAt, taken, turns)
    }

    constructor ()
      ensures Now() == INITIAL
    {
      queue, task, ready, closed, active, futures := [], Unstarted, Pending, false, None, map[];
      put, place, closeAt, taken, turns := [], map[], None, 0, [];
    }

    /** `_start` up to its await: refused once closed, otherwise the task exists afterwards. */
    method StartTask() returns (refused: bool)
      modifies this
      ensures refused == old(closed)
      ensures Now() == if Enabled(old(Now()), Start) then Next(old(Now()), Start) else old(Now())
    {
      if closed {
        return true;
      }
      if task.Unstarted? {
        task := Opening;
      }
      refused := false;
    }

    /** The rest of `_request` once the session is ready: refused when the owner is done. */
    method PutRequest(id: nat) returns (refused: bool)
      requires ready.Value? && id !in futures
      modifies this
      ensures refused == old(task).Done?
      ensures Now() == if refused then old(Now()) else Next(old(Now()), Enqueue(id))
    {
      if task.Done? {
        return true;
      }
      futures := futures[id := Pending];
      queue := queue + [Request(id)];
      put, place := put + [Request(id)], place[id := |put|];
      refused := false;
    }

    method AcloseClient()
      modifies this
      ensures Now() == Next(old(Now()), Aclose)
    {
      if !closed {
        closed := true;
        queue := queue + [Close];
        put, closeAt := put + [Close], Some(|put|);
      }
    }

    method BecomeReady()
      requires task.Opening?
      modifies this
      ensures Now() == Next(old(Now()), SessionReady)
    {
      ready := Value(0);
      task := Waiting;
    }

    /** One round of the serving loop: take an item, and dispatch it unless it is cancelled or the sentinel. */
    method TakeNext()
      requires task.Waiting? && queue != []
      modifies this
      ensures Now() == Next(old(Now()), Take)
    {
      var request := queue[0];
      queue := queue[1..];
      match request {
        case Close =>
          task := Leaving;
        case Request(id) =>
          active := Some(id);
          if !(id in futures && futures[id].Cancelled?) {
            task := Calling(id);
            turns := turns + [taken];
          }
      }
      taken := taken + 1;
    }

    method CallReturned(value: int)
      requires task.Calling?
      modifies this
      ensures Now() == Next(old(Now()), Return(value))
    {
      futures := Settle(futures, task.id, Value(value));
      task := Waiting;
    }

    method CallRaised()
      requires task.Calling?
      modifies this
      ensures Now() == Next(old(Now()), Raise)
    {
      futures := Settle(futures, task.id, Raised);
      task := Waiting;
    }

    /** The `finally` block: settle the active request, then drain the queue. */
    method Finish()
      requires task.Leaving?
      modifies this
      ensures Now() == Next(old(Now()), Exit)
    {
      if ready.Pending? {
        ready := Raised;
      }
      if active.Some? {
        futures := Settle(futures, active.value, Raised);
      }
      ghost var result := Drain(futures, queue);
      while queue != []
        invariant Drain(futures, queue) == result
        invariant Now().(queue := [], futures := map[], owner := Leaving) ==
                  old(Now()).(queue := [], futures := map[], owner := Leaving,
                               ready := if old(ready).Pending? then Raised else old(ready))
        decreases |queue|
      {
        var pending := queue[0];
        queue := queue[1..];
        if pending.Request? {
          futures := Settle(futures, pending.id, Raised);
        }
      }
      task := Done;
    }
  }

  // ----- Runs -----

  predicate Possible(s: State, run: seq<Event>)
    decreases |run|
  {
    run == [] || (Enabled(s, run[0]) && Possible(Next(s, run[0]), run[1..]))
  }

  function After(s: State, run: seq<Event>): State
    requires Possible(s, run)
    decreases |run|
  {
    if run == [] then s else After(Next(s, run[0]), run[1..])
  }

  /** The part of the invariant about the queue and its history. */
  ghost predicate QueueInv(s: State) {
    && s.taken <= |s.put|
    && (if s.owner.Done? then forall x :: x in s.queue ==> x.Close? else s.queue == s.put[s.taken..])
    && s.place.Keys == s.futures.Keys
    && (forall id :: id in s.place ==> s.place[id] < |s.put| && s.put[s.place[id]] == Request(id))
    && (forall i :: 0 <= i < |s.put| && s.put[i].Request? ==> s.put[i].id in s.place && s.place[s.put[i].id] == i)
    && (s.closed <==> s.closeAt.Some?)
    && (s.closeAt.Some? ==> s.closeAt.value < |s.put| && s.put[s.closeAt.value] == Close)
    && (forall i :: 0 <= i < |s.put| && s.put[i].Close? ==> s.closeAt == Some(i))
  }

  /** The part about dispatching: in queue order, only from before the sentinel, at most one call open. */
  ghost predicate TurnsInv(s: State) {
    && (forall i, j :: 0 <= i < j < |s.turns| ==> s.turns[i] < s.turns[j])
    && (forall i :: 0 <= i < |s.turns| ==> s.turns[i] < s.taken <= |s.put| && s.put[s.turns[i]].Request?)
    && (s.closeAt.Some? ==> forall i :: 0 <= i < |s.turns| ==> s.turns[i] < s.closeAt.value)
    && (!s.owner.Leaving? && !s.owner.Done? && s.closeAt.Some? ==> s.taken <= s.closeAt.value)
    && (s.owner.Calling? ==>
          s.turns != [] && s.turns[|s.turns| - 1] == s.taken - 1 < |s.put| && s.put[s.taken - 1] == Request(s.owner.id))
  }

  /** The part about futures: a pending one is still queued, or it is the active one. */
  ghost predicate FuturesInv(s: State) {
    && (forall id :: id in s.futures && s.futures[id].Pending? && id in s.place ==>
          !s.owner.Done? &&
          (s.place[id] >= s.taken || (s.active == Some(id) && (s.owner == Calling(id) || s.owner.Leaving?))))
    && (s.owner.Calling? ==> s.active == Some(s.owner.id))
    && (s.owner.Unstarted? || s.owner.Opening? ==> s.ready.Pending?)
    && (s.owner.Waiting? || s.owner.Calling? ==> s.ready.Value?)
    && (s.owner.Done? ==> !s.ready.Pending?)
  }

  ghost predicate Inv(s: State) {
    QueueInv(s) && TurnsInv(s) && FuturesInv(s)
  }

  lemma {:induction false} DrainKeeps(futures: map<nat, Future>, queue: seq<Item>)
    ensures var r := Drain(futures, queue);
            && r.Keys == futures.Keys
            && (forall id :: id in futures ==>
               r[id] == futures[id] || (futures[id].Pending? && r[id].Raised? && Request(id) in queue))
            && (forall id :: id in futures && Request(id) in queue ==> !r[id].Pending?)
  {
    if queue == [] {
    } else {
      DrainKeeps(if queue[0].Request? then Settle(futures, queue[0].id, Raised) else futures, queue[1..]);
    }
  }

  /** The steps that leave the queue, its history and the dispatch record alone. */
  predicate Quiet(e: Event) {
    e.Start? || e.SessionReady? || e.Return? || e.Raise? || e.Fail? || e.Cancel?
  }

  lemma QuietQueue(s: State, e: Event)
    requires QueueInv(s) && Enabled(s, e) && Quiet(e)
    ensures QueueInv(Next(s, e))
  {
  }

  lemma QuietTurns(s: State, e: Event)
    requires TurnsInv(s) && Enabled(s, e) && Quiet(e)
    ensures TurnsInv(Next(s, e))
  {
  }

  lemma QuietFutures(s: State, e: Event)
    requires s.place.Keys == s.futures.Keys && FuturesInv(s) && Enabled(s, e) && Quiet(e)
    ensures FuturesInv(Next(s, e))
  {
  }

  lemma EnqueueQueue(s: State, id: nat)
    requires QueueInv(s) && !s.owner.Done? && id !in s.futures
    ensures QueueInv(Enqueued(s, id))
  {
    var t := Enqueued(s, id);
    SuffixGrows(s.put, Request(id), s.taken);
    assert forall i :: 0 <= i < |s.put| ==> t.put[i] == s.put[i];
  }

  lemma AcloseQueue(s: State)
    requires QueueInv(s)
    ensures QueueInv(Closing(s))
  {
    SuffixGrows(s.put, Close, s.taken);
    assert forall i :: 0 <= i < |s.put| ==> (s.put + [Close])[i] == s.put[i];
  }

  lemma SuffixGrows(put: seq<Item>, item: Item, n: nat)
    requires n <= |put|
    ensures (put + [item])[n..] == put[n..] + [item]
  {
  }

  lemma EnqueueTurns(s: State, id: nat)
    requires QueueInv(s) && TurnsInv(s)
    ensures TurnsInv(Enqueued(s, id))
  {
    assert forall i :: 0 <= i < |s.put| ==> Enqueued(s, id).put[i] == s.put[i];
  }

  lemma AcloseTurns(s: State)
    requires QueueInv(s) && TurnsInv(s)
    ensures TurnsInv(Closing(s))
  {
    assert forall i :: 0 <= i < |s.put| ==> Closing(s).put[i] == s.put[i];
  }

  lemma PutFutures(s: State, e: Event)
    requires QueueInv(s) && FuturesInv(s) && Enabled(s, e) && (e.Enqueue? || e.Aclose?)
    ensures FuturesInv(Next(s, e))
  {
  }

  lemma TakeHead(s: State)
    requires QueueInv(s) && Enabled(s, Take)
    ensures s.taken < |s.put| && s.queue[0] == s.put[s.taken] && s.queue[1..] == s.put[s.taken + 1..]
  {
  }

  /** What taking an item leaves as it is, and what it changes. */
  lemma TakenFrame(s: State, t: State)
    requires Enabled(s, Take) && t == Taken(s)
    ensures t.put == s.put && t.place == s.place && t.closeAt == s.closeAt
            && t.futures == s.futures && t.closed == s.closed
    ensures t.taken == s.taken + 1 && t.queue == s.queue[1..]
    ensures t.owner.Waiting? || t.owner.Leaving? || t.owner.Calling?
    ensures t.owner.Leaving? <==> s.queue[0].Close?
    ensures t.owner.Calling? ==> s.queue[0] == Request(t.owner.id)
    ensures t.turns == if t.owner.Calling? then s.turns + [s.taken] else s.turns
  {
  }

  lemma TurnsAfterTaking(s: State, t: State)
    requires s.closeAt.Some? ==> s.closeAt.value < |s.put| && s.put[s.closeAt.value] == Close
    requires TurnsInv(s) && s.owner.Waiting? && s.queue != []
    requires s.taken < |s.put| && s.queue[0] == s.put[s.taken]
    requires t.put == s.put && t.closeAt == s.closeAt && t.taken == s.taken + 1
    requires t.owner.Waiting? || t.owner.Leaving? || t.owner.Calling?
    requires t.owner.Leaving? <==> s.queue[0].Close?
    requires t.owner.Calling? ==> s.queue[0] == Request(t.owner.id)
    requires t.turns == if t.owner.Calling? then s.turns + [s.taken] else s.turns
    ensures TurnsInv(t)
  {
    assert !s.queue[0].Close? && s.closeAt.Some? ==> s.taken < s.closeAt.value;
    forall i | 0 <= i < |t.turns|
      ensures t.turns[i] == if i < |s.turns| then s.turns[i] else s.taken
    {
    }
    assert forall i, j :: 0 <= i < j < |t.turns| ==> t.turns[i] < t.turns[j];
  }

  lemma TakeFutures(s: State)
    requires s.place.Keys == s.futures.Keys && FuturesInv(s) && Enabled(s, Take)
    requires forall id :: id in s.place && s.place[id] == s.taken ==> s.queue[0] == Request(id)
    ensures FuturesInv(Taken(s))
  {
  }

  lemma QueueAfterTaking(s: State, t: State)
    requires QueueInv(s) && !s.owner.Done? && !t.owner.Done?
    requires s.taken < |s.put| && t.taken == s.taken + 1 && t.queue == s.put[s.taken + 1..]
    requires t.put == s.put && t.place == s.place && t.closeAt == s.closeAt
    requires t.futures == s.futures && t.closed == s.closed
    ensures QueueInv(t)
  {
  }

  lemma TakeStep(s: State)
    requires Inv(s) && Enabled(s, Take)
    ensures Inv(Taken(s))
  {
    var t := Taken(s);
    TakeHead(s);
    TakenFrame(s, t);
    QueueAfterTaking(s, t);
    TurnsAfterTaking(s, t);
    TakeFutures(s);
  }

  /** The `finally` block settles whatever is still pending. */
  lemma ExitSettles(s: State)
    requires QueueInv(s) && FuturesInv(s) && s.owner.Leaving?
    ensures Exited(s).futures.Keys == s.futures.Keys
    ensures forall id :: id in s.futures ==> !Exited(s).futures[id].Pending?
  {
    var settled := if s.active.Some? then Settle(s.futures, s.active.value, Raised) else s.futures;
    DrainKeeps(settled, s.queue);
    forall id | id in s.futures
      ensures !Exited(s).futures[id].Pending?
    {
      if s.futures[id].Pending? {
        PendingIsReached(s, id);
      }
    }
  }

  lemma PendingIsReached(s: State, id: nat)
    requires QueueInv(s) && FuturesInv(s) && s.owner.Leaving? && id in s.futures && s.futures[id].Pending?
    ensures s.active == Some(id) || Request(id) in s.queue
  {
    if s.place[id] >= s.taken {
      QueuedRequest(s, id);
    }
  }

  lemma QueuedRequest(s: State, id: nat)
    requires QueueInv(s) && !s.owner.Done? && id in s.place && s.place[id] >= s.taken
    ensures Request(id) in s.queue
  {
    assert s.queue[s.place[id] - s.taken] == Request(id);
  }

  lemma ExitStep(s: State)
    requires Inv(s) && s.owner.Leaving?
    ensures Inv(Exited(s))
  {
    ExitSettles(s);
    ExitQueue(s);
    assert TurnsInv(Exited(s)) by {
      assert Exited(s).turns == s.turns && Exited(s).put == s.put;
    }
  }

  lemma ExitQueue(s: State)
    requires QueueInv(s) && s.owner.Leaving?
    requires Exited(s).futures.Keys == s.futures.Keys
    ensures QueueInv(Exited(s))
  {
  }

  lemma InvStep(s: State, e: Event)
    requires Inv(s) && Enabled(s, e)
    ensures Inv(Next(s, e))
  {
    match e
    case Enqueue(id) => EnqueueQueue(s, id); EnqueueTurns(s, id); PutFutures(s, e);
    case Aclose => AcloseQueue(s); AcloseTurns(s); PutFutures(s, e);
    case Take => TakeStep(s);
    case Exit => ExitStep(s);
    case _ => QuietQueue(s, e); QuietTurns(s, e); QuietFutures(s, e);
  }

  // ----- What holds of every run -----

  lemma {:induction false} RunKeepsInv(s: State, run: seq<Event>)
    requires Inv(s) && Possible(s, run)
    ensures Inv(After(s, run))
    decreases |run|
  {
    if run == [] {
    } else {
      InvStep(s, run[0]);
      RunKeepsInv(Next(s, run[0]), run[1..]);
    }
  }

  /**
   * Requests are dispatched in the order in which they were put on the queue, each at most once,
   * and none that was put behind the close sentinel.
   */
  lemma DispatchedInOrder(run: seq<Event>)
    requires Possible(INITIAL, run)
    ensures var s := After(INITIAL, run);
            && (forall i :: 0 <= i < |s.turns| ==> s.turns[i] < |s.put| && s.put[s.turns[i]].Request?)
            && (forall i, j :: 0 <= i < j < |s.turns| ==>
                  s.turns[i] < s.turns[j] && s.put[s.turns[i]].id != s.put[s.turns[j]].id)
            && (forall i, k :: 0 <= i < |s.turns| && 0 <= k < |s.put| && s.put[k].Close? ==> s.turns[i] < k)
  {
    RunKeepsInv(INITIAL, run);
  }

  /** How many session calls have returned or raised. */
  function Finished(run: seq<Event>): nat {
    if run == [] then 0
    else Finished(run[..|run| - 1]) + (if run[|run| - 1].Return? || run[|run| - 1].Raise? then 1 else 0)
  }

  lemma {:induction false} AfterLast(s: State, run: seq<Event>)
    requires run != [] && Possible(s, run)
    ensures Possible(s, run[..|run| - 1])
    ensures var t := After(s, run[..|run| - 1]);
            Enabled(t, run[|run| - 1]) && After(s, run) == Next(t, run[|run| - 1])
    decreases |run|
  {
    if |run| == 1 {
    } else {
      AfterLast(Next(s, run[0]), run[1..]);
      assert run[1..][..|run| - 2] == run[..|run| - 1][1..];
    }
  }

  /** Session calls never overlap: one more is dispatched than is finished only while it is the open one. */
  lemma {:induction false} OneCallAtATime(run: seq<Event>)
    requires Possible(INITIAL, run)
    ensures var s := After(INITIAL, run);
            && (s.owner.Calling? ==> |s.turns| == Finished(run) + 1)
            && (!s.owner.Calling? && !s.owner.Leaving? && !s.owner.Done? ==> |s.turns| == Finished(run))
            && Finished(run) <= |s.turns| <= Finished(run) + 1
    decreases |run|
  {
    if run == [] {
    } else {
      AfterLast(INITIAL, run);
      OneCallAtATime(run[..|run| - 1]);
    }
  }

  lemma StepKeepsSettled(s: State, e: Event, id: nat)
    requires Enabled(s, e) && id in s.futures && !s.futures[id].Pending?
    ensures id in Next(s, e).futures && Next(s, e).futures[id] == s.futures[id]
  {
    if e.Exit? {
      DrainKeeps(if s.active.Some? then Settle(s.futures, s.active.value, Raised) else s.futures, s.queue);
    }
  }

  /** A future is settled at most once: whatever follows, its outcome stays. */
  lemma {:induction false} SettledOnce(s: State, run: seq<Event>, id: nat)
    requires Possible(s, run) && id in s.futures && !s.futures[id].Pending?
    ensures id in After(s, run).futures && After(s, run).futures[id] == s.futures[id]
    decreases |run|
  {
    if run == [] {
    } else {
      StepKeepsSettled(s, run[0], id);
      SettledOnce(Next(s, run[0]), run[1..], id);
    }
  }

  ghost predicate Dispatched(s: State, id: nat) {
    id in s.place && s.place[id] in s.turns
  }

  lemma CancelledStep(s: State, e: Event, id: nat)
    requires QueueInv(s) && Enabled(s, e)
    requires id in s.futures && s.futures[id].Cancelled? && !Dispatched(s, id)
    ensures !Dispatched(Next(s, e), id)
  {
    assert Next(s, e).place[id] == s.place[id];
    if e.Take? {
      TakeHead(s);
      assert s.place[id] == s.taken ==> s.queue[0] == Request(id);
    }
  }

  /** A request whose caller cancels before its turn is never dispatched. */
  lemma {:induction false} CancelledNeverDispatched(s: State, run: seq<Event>, id: nat)
    requires Inv(s) && Possible(s, run)
    requires id in s.futures && s.futures[id].Cancelled? && !Dispatched(s, id)
    ensures !Dispatched(After(s, run), id)
    decreases |run|
  {
    if run == [] {
    } else {
      InvStep(s, run[0]);
      StepKeepsSettled(s, run[0], id);
      CancelledStep(s, run[0], id);
      CancelledNeverDispatched(Next(s, run[0]), run[1..], id);
    }
  }

  /** When the owner task is done, every request ever put on the queue has been settled. */
  lemma NothingLeftUnsettled(run: seq<Event>)
    requires Possible(INITIAL, run) && After(INITIAL, run).owner.Done?
    ensures var s := After(INITIAL, run);
            forall i :: 0 <= i < |s.put| && s.put[i].Request? ==>
              s.put[i].id in s.futures && !s.futures[s.put[i].id].Pending?
  {
    RunKeepsInv(INITIAL, run);
  }

  /** A request that slipped in behind the sentinel ends raised or cancelled, never answered. */
  lemma BehindSentinelNeverAnswered(run: seq<Event>, k: nat, i: nat)
    requires Possible(INITIAL, run)
    requires var s := After(INITIAL, run); k < i < |s.put| && s.put[k].Close? && s.put[i].Request?
    ensures var s := After(INITIAL, run);
            s.put[i].id in s.futures && !s.futures[s.put[i].id].Value?
  {
    AnswersWereDispatched(run);
    DispatchedInOrder(run);
    RunKeepsInv(INITIAL, run);
    var s := After(INITIAL, run);
    assert s.place[s.put[i].id] == i && i !in s.turns;
  }

  /** Only a dispatched request is ever answered with a value. */
  lemma {:induction false} AnswersWereDispatched(run: seq<Event>)
    requires Possible(INITIAL, run)
    ensures var s := After(INITIAL, run);
            forall id :: id in s.futures && s.futures[id].Value? ==> Dispatched(s, id)
    decreases |run|
  {
    if run == [] {
    } else {
      AfterLast(INITIAL, run);
      var before, e := run[..|run| - 1], run[|run| - 1];
      AnswersWereDispatched(before);
      RunKeepsInv(INITIAL, before);
      AnswerStep(After(INITIAL, before), e);
    }
  }

  lemma AnswerStep(s: State, e: Event)
    requires Inv(s) && Enabled(s, e)
    requires forall id :: id in s.futures && s.futures[id].Value? ==> Dispatched(s, id)
    ensures forall id :: id in Next(s, e).futures && Next(s, e).futures[id].Value? ==> Dispatched(Next(s, e), id)
  {
    forall id | id in Next(s, e).futures && Next(s, e).futures[id].Value?
      ensures Dispatched(Next(s, e), id)
    {
      AnswerOrigin(s, e, id);
      TurnsGrow(s, e);
      if s.owner.Calling? && id == s.owner.id {
        assert s.turns[|s.turns| - 1] == s.place[id];
      }
    }
  }

  /** A value was there before, or the open call has just returned it. */
  lemma AnswerOrigin(s: State, e: Event, id: nat)
    requires Enabled(s, e) && id in Next(s, e).futures && Next(s, e).futures[id].Value?
    ensures id in s.futures
    ensures s.futures[id].Value? || (s.owner.Calling? && s.owner.id == id && e.Return?)
  {
    if e.Exit? {
      DrainKeeps(if s.active.Some? then Settle(s.futures, s.active.value, Raised) else s.futures, s.queue);
    }
  }

  lemma TurnsGrow(s: State, e: Event)
    requires QueueInv(s) && Enabled(s, e)
    ensures forall i :: i in s.turns ==> i in Next(s, e).turns
    ensures forall id :: id in s.place ==> id in Next(s, e).place && Next(s, e).place[id] == s.place[id]
  {
  }
}
