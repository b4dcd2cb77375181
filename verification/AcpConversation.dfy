/**
 * One conversation with a delegated ACP agent: turns, permission pauses and resumes.
 *
 * Everything between two awaits is one atomic step. A prompt has at most one permission request
 * outstanding and does not return while it is open.
 */
module AcpConversation {
  import opened Strings

  /** A permission request the host still has to answer. */
  datatype Suspended = Suspended(permission: nat, options: seq<string>)

  /** Who holds the turn lock, and where in `_wait_for_prompt_outcome` it is. */
  datatype Turn =
    | Free
    | Watching(task: nat, ear: Ear)      // waiting for the prompt or a permission request
    | Joining(task: nat)                 // awaiting the prompt alone

  /** The task that listens for permission requests on behalf of a watching turn. */
  datatype Ear =
    | NotYet                             // it has not taken its first step
    | Listening                          // it waits for the event to be set
    | Woken                              // it has found the event set, or has been woken by it

  /** The `request_permission` callback. */
  datatype Handler =
    | Idle
    | Announcing(request: Suspended)     // emitting the request to the host
    | Asking(permission: nat)            // awaiting its future

  datatype State = State(
    promptTask: Option<nat>,
    turn: Turn,
    pending: Option<Suspended>,
    future: Option<nat>,
    requested: bool,                     // the event that announces a permission request
    queued: Option<string>,              // the option of a resume call that waits for the lock
    handler: Handler,
    live: set<nat>,                      // prompt tasks that have not finished
    nextTask: nat,
    nextPermission: nat,
    // history: who asked for each permission, what it offered and how its future was answered,
    // and which prompt each successful resume went on to wait for
    asker: map<nat, nat>,
    offered: map<nat, seq<string>>,
    answers: map<nat, string>,
    resumed: seq<(nat, nat)>)

  const INITIAL := State(None, Free, None, None, false, None, Idle, {}, 0, 0, map[], map[], map[], [])

  datatype Event =
    | RunTurn(blocksOk: bool)            // `run_turn` under the lock, up to its wait
    | Resume(option: string)             // `resume_permission`: its guards, and the rest if the lock is free
    | Acquire                            // the waiting resume call gets the lock, and goes on to its wait
    | Withdraw                           // the waiting resume call is cancelled
    | Listen                             // the first step of the listening task
    | Wake                               // the wait for prompt or permission is over
    | Join                               // the prompt alone has been awaited
    | Abandon                            // the waiting caller is cancelled
    | Ask(task: nat, options: seq<string>)  // the agent asks for a permission
    | Block                              // the request is hard-blocked
    | Suspend                            // the request becomes pending
    | Deliver                            // the callback returns the answer to the agent
    | Drop                               // the callback is cancelled while it waits
    | Finish(task: nat)                  // a prompt task finishes

  predicate Enabled(s: State, e: Event) {
    match e
    case RunTurn(_) => s.turn.Free?
    case Resume(_) => s.queued.None?
    case Acquire => s.turn.Free? && s.queued.Some?
    case Withdraw => s.queued.Some?
    case Listen => s.turn.Watching? && s.turn.ear.NotYet?
    case Wake => s.turn.Watching? && (s.turn.ear.Woken? || s.turn.task !in s.live)
    case Join => s.turn.Joining? && s.turn.task !in s.live
    case Abandon => s.turn.Watching?
    case Ask(task, _) => s.handler.Idle? && task in s.live
    case Block => s.handler.Announcing?
    case Suspend => s.handler.Announcing?
    case Deliver => s.handler.Asking? && s.handler.permission in s.answers
    case Drop => s.handler.Asking?
    case Finish(task) => task in s.live && s.handler.Idle?
  }

  /** The two guards of `run_turn`. */
  predicate RefusesTurn(s: State) {
    s.pending.Some? || (s.promptTask.Some? && s.promptTask.value in s.live)
  }

  function TurnStarted(s: State, blocksOk: bool): State {
    if RefusesTurn(s) then s
    else
      var started := s.(pending := None, requested := false);
      if !blocksOk then started
      else started.(promptTask := Some(s.nextTask), turn := Watching(s.nextTask, NotYet),
                    live := s.live + {s.nextTask}, nextTask := s.nextTask + 1)
  }

  /** The guards of `resume_permission`, which it passes before it asks for the lock. */
  predicate ResumeGuards(s: State) {
    s.pending.Some? && s.promptTask.Some? && s.promptTask.value in s.live
  }

  /** `resolve_permission` accepts this option. */
  predicate Resolves(s: State, option: string) {
    s.pending.Some? && s.future.Some? && option in s.pending.value.options
  }

  /** `resume_permission` once it has the lock, up to its wait. */
  function Resumed(s: State, option: string): State {
    var cleared := s.(requested := false);
    if !Resolves(s, option) then cleared
    else
      var p := s.future.value;
      var answered := cleared.(answers := if p in s.answers then s.answers else s.answers[p := option]);
      if s.promptTask.None? then answered
      else answered.(turn := Watching(s.promptTask.value, NotYet), resumed := s.resumed + [(p, s.promptTask.value)])
  }

  function ResumeCalled(s: State, option: string): State {
    if !ResumeGuards(s) then s
    else if s.turn.Free? then Resumed(s, option)
    else s.(queued := Some(option))
  }

  function Listened(s: State): State
    requires s.turn.Watching?
  {
    s.(turn := s.turn.(ear := if s.requested then Woken else Listening))
  }

  /** The `finally` block of `request_permission`. */
  function Closed(s: State): State {
    s.(pending := None, future := None, requested := false, handler := Idle)
  }

  function Asked(s: State, task: nat, options: seq<string>): State {
    s.(handler := Announcing(Suspended(s.nextPermission, options)), nextPermission := s.nextPermission + 1,
       asker := s.asker[s.nextPermission := task], offered := s.offered[s.nextPermission := options])
  }

  /** The request becomes pending, and setting the event wakes whoever listens. */
  function Paused(s: State): State
    requires s.handler.Announcing?
  {
    var request := s.handler.request;
    s.(pending := Some(request), requested := true,
       future := Some(request.permission), handler := Asking(request.permission),
       turn := if s.turn.Watching? && s.turn.ear.Listening? then s.turn.(ear := Woken) else s.turn)
  }

  function Next(s: State, e: Event): State
    requires Enabled(s, e)
  {
    match e
    case RunTurn(blocksOk) => TurnStarted(s, blocksOk)
    case Resume(option) => ResumeCalled(s, option)
    case Acquire => Resumed(s.(queued := None), s.queued.value)
    case Withdraw => s.(queued := None)
    case Listen => Listened(s)
    case Wake => if s.turn.ear.Woken? && s.pending.Some? then s.(turn := Free) else s.(turn := Joining(s.turn.task))
    case Join => s.(promptTask := None, turn := Free)
    case Abandon => s.(turn := Free)
    case Ask(task, options) => Asked(s, task, options)
    case Block => s.(handler := Idle)
    case Suspend => Paused(s)
    case Deliver => Closed(s)
    case Drop => Closed(s)
    case Finish(task) => s.(live := s.live - {task})
  }

  // ----- The service and its client callback -----

  datatype Outcome = PermissionRequired(request: Suspended) | Completed | Refused | Watch | Queue

  class Conversation {
    var promptTask: Option<nat>
    var turn: Turn
    var pending: Option<Suspended>
    var future: Option<nat>
    var requested: bool
    var queued: Option<string>
    var handler: Handler
    var live: set<nat>
    var nextTask: nat
    var nextPermission: nat
    var answers: map<nat, string>
    ghost var asker: map<nat, nat>
    ghost var offered: map<nat, seq<string>>
    ghost var resumed: seq<(nat, nat)>

    ghost function Now(): State
      reads this
    {
      State(promptTask, turn, pending, future, requested, queued, handler, live, nextTask, nextPermission,
            asker, offered, answers, resumed)
    }

    constructor ()
      ensures Now() == INITIAL
    {
      promptTask, turn, pending, future, requested, queued, handler := None, Free, None, None, false, None, Idle;
      live, nextTask, nextPermission, answers := {}, 0, 0, map[];
      asker, offered, resumed := map[], map[], [];
    }

    method StartTurn(blocksOk: bool) returns (r: Outcome)
      requires turn.Free?
      modifies this
      ensures Now() == TurnStarted(old(Now()), blocksOk)
      ensures r == if RefusesTurn(old(Now())) || !blocksOk then Refused else Watch
    {
      if pending.Some? {
        return Refused;
      }
      if promptTask.Some? && promptTask.value in live {
        return Refused;
      }
      pending, requested := None, false;
      if !blocksOk {
        return Refused;
      }
      promptTask := Some(nextTask);
      live := live + {nextTask};
      turn := Watching(nextTask, NotYet);
      nextTask := nextTask + 1;
      r := Watch;
    }

    /** Refused by a guard before the lock, or queued for it, or carried on under it. */
    method ResumePermission(option: string) returns (r: Outcome)
      requires queued.None?
      modifies this
      ensures Now() == Next(old(Now()), Resume(option))
      ensures r == if !ResumeGuards(old(Now())) then Refused
                   else if !old(turn).Free? then Queue
                   else if Resolves(old(Now()), option) then Watch else Refused
    {
      if pending.None? {
        return Refused;
      }
      if promptTask.None? || promptTask.value !in live {
        return Refused;
      }
      if !turn.Free? {
        queued := Some(option);
        return Queue;
      }
      r := ResumeLocked(option);
    }

    /** The waiting resume call gets the lock; what its guards saw may have changed since. */
    method AcquireLock() returns (r: Outcome)
      requires turn.Free? && queued.Some?
      modifies this
      ensures Now() == Next(old(Now()), Acquire)
      ensures r == if Resolves(old(Now()), old(queued).value) && old(promptTask).Some? then Watch else Refused
    {
      var option := queued.value;
      queued := None;
      r := ResumeLocked(option);
    }

    method ResumeLocked(option: string) returns (r: Outcome)
      requires turn.Free?
      modifies this
      ensures Now() == Resumed(old(Now()), option)
      ensures r == if Resolves(old(Now()), option) && old(promptTask).Some? then Watch else Refused
    {
      requested := false;
      if pending.None? || future.None? || option !in pending.value.options {
        return Refused;
      }
      if future.value !in answers {
        answers := answers[future.value := option];
      }
      if promptTask.None? {
        return Refused;
      }
      turn := Watching(promptTask.value, NotYet);
      resumed := resumed + [(future.value, promptTask.value)];
      r := Watch;
    }

    /** The first step of `wait_for_permission_request`: the event may have been set before. */
    method StartListening()
      requires turn.Watching? && turn.ear.NotYet?
      modifies this
      ensures Now() == Next(old(Now()), Listen)
    {
      turn := turn.(ear := if requested then Woken else Listening);
    }

    /** `_wait_for_prompt_outcome` once its wait is over. */
    method OutcomeKnown() returns (r: Outcome)
      requires Enabled(Now(), Wake)
      modifies this
      ensures Now() == Next(old(Now()), Wake)
      ensures r.PermissionRequired? <==> turn.Free?
      ensures r.PermissionRequired? ==> pending == Some(r.request)
    {
      if turn.ear.Woken? && pending.Some? {
        turn := Free;
        return PermissionRequired(pending.value);
      }
      turn := Joining(turn.task);
      r := Watch;
    }

    /** The rest of it once the prompt has been awaited. */
    method PromptJoined() returns (r: Outcome)
      requires Enabled(Now(), Join)
      modifies this
      ensures Now() == Next(old(Now()), Join)
      ensures r == if pending.Some? then PermissionRequired(pending.value) else Completed
    {
      promptTask := None;
      turn := Free;
      r := if pending.Some? then PermissionRequired(pending.value) else Completed;
    }

    /** `request_permission` up to the emission of the request. */
    method AskPermission(task: nat, options: seq<string>)
      requires Enabled(Now(), Ask(task, options))
      modifies this
      ensures Now() == Next(old(Now()), Ask(task, options))
    {
      handler := Announcing(Suspended(nextPermission, options));
      asker, offered := asker[nextPermission := task], offered[nextPermission := options];
      nextPermission := nextPermission + 1;
    }

    /** `request_permission` from the emission to its await; a hard-blocked request is turned down at once. */
    method SuspendPrompt(hardBlocked: bool)
      requires handler.Announcing?
      modifies this
      ensures hardBlocked ==> Now() == Next(old(Now()), Block)
      ensures !hardBlocked ==> Now() == Next(old(Now()), Suspend)
    {
      if hardBlocked {
        handler := Idle;
        return;
      }
      pending := Some(handler.request);
      requested := true;
      future := Some(handler.request.permission);
      handler := Asking(handler.request.permission);
      if turn.Watching? && turn.ear.Listening? {
        turn := turn.(ear := Woken);
      }
    }

    /** The end of `request_permission`: the answer goes to the agent. */
    method DeliverAnswer() returns (option: string)
      requires Enabled(Now(), Deliver)
      modifies this
      ensures Now() == Next(old(Now()), Deliver)
      ensures option == answers[old(handler).permission]
    {
      option := answers[handler.permission];
      pending, future, requested, handler := None, None, false, Idle;
    }
  }

  // ----- Runs -----

  predicate Possible(s: State, run: seq<Event>)
    decreases |run|
  {
    run == [] || (Enabled(s, run[0]) && Possible(Next(s, run[0]), run[1..]))
  }

  function After(s: State, run: seq<Event>): State
    requires Possible(s, run)
    decreases |run|
  {
    if run == [] then s else After(Next(s, run[0]), run[1..])
  }

  /** Only the conversation's own prompt task can be unfinished, and the lock holder watches that very task. */
  ghost predicate PromptInv(s: State) {
    && (forall t :: t in s.live ==> s.promptTask == Some(t) && t < s.nextTask)
    && (s.turn.Watching? ==> s.promptTask == Some(s.turn.task))
    && (s.turn.Joining? ==> s.promptTask == Some(s.turn.task))
  }

  /** A request in progress belongs to an unfinished prompt; it is pending exactly while its future is awaited. */
  ghost predicate PermissionInv(s: State) {
    && s.asker.Keys == s.offered.Keys
    && (forall p :: p in s.asker ==> p < s.nextPermission)
    && (match s.handler
        case Idle => s.pending.None? && s.future.None?
        case Announcing(request) =>
          && s.pending.None? && s.future.None?
          && request.permission in s.asker && request.permission !in s.answers
          && s.asker[request.permission] in s.live && s.offered[request.permission] == request.options
        case Asking(p) =>
          && s.future == Some(p) && s.pending.Some? && s.pending.value.permission == p
          && p in s.asker && s.asker[p] in s.live && s.offered[p] == s.pending.value.options)
    && (s.requested ==> s.pending.Some?)
  }

  /** Answers are offered options. */
  ghost predicate AnswersInv(s: State) {
    forall p :: p in s.answers ==> p in s.offered && s.answers[p] in s.offered[p]
  }

  /** Resumes wait for the prompt that asked. */
  ghost predicate ResumesInv(s: State) {
    forall i :: 0 <= i < |s.resumed| ==> s.resumed[i].0 in s.asker && s.asker[s.resumed[i].0] == s.resumed[i].1
  }

  /** The open permission has been answered. */
  predicate Answered(s: State) {
    s.pending.Some? && s.pending.value.permission in s.answers
  }

  /** What the listening task of a waiting turn has heard of the open permission. */
  ghost predicate EarInv(s: State) {
    && (s.turn.Watching? && s.turn.ear.NotYet? && s.pending.Some? ==> s.requested || Answered(s))
    && (s.turn.Watching? && s.turn.ear.Listening? && s.pending.Some? ==> Answered(s))
    && (s.turn.Watching? && s.turn.ear.Woken? ==> !Answered(s))
    && (s.turn.Joining? ==> !Answered(s))
    && (s.requested ==> !Answered(s))
  }

  ghost predicate Inv(s: State) {
    PromptInv(s) && PermissionInv(s) && AnswersInv(s) && ResumesInv(s) && EarInv(s)
  }

  lemma PromptStep(s: State, e: Event)
    requires PromptInv(s) && Enabled(s, e)
    ensures PromptInv(Next(s, e))
  {
  }

  lemma PermissionStep(s: State, e: Event)
    requires Inv(s) && Enabled(s, e)
    ensures PermissionInv(Next(s, e))
  {
  }

  lemma AnswersStep(s: State, e: Event)
    requires Inv(s) && Enabled(s, e)
    ensures AnswersInv(Next(s, e))
  {
  }

  lemma ResumesStep(s: State, e: Event)
    requires Inv(s) && Enabled(s, e)
    ensures ResumesInv(Next(s, e))
  {
  }

  lemma EarStep(s: State, e: Event)
    requires Inv(s) && Enabled(s, e)
    ensures EarInv(Next(s, e))
  {
  }

  lemma InvStep(s: State, e: Event)
    requires Inv(s) && Enabled(s, e)
    ensures Inv(Next(s, e))
  {
    PromptStep(s, e);
    PermissionStep(s, e);
    AnswersStep(s, e);
    ResumesStep(s, e);
    EarStep(s, e);
  }

  lemma {:induction false} RunKeepsInv(s: State, run: seq<Event>)
    requires Inv(s) && Possible(s, run)
    ensures Inv(After(s, run))
    decreases |run|
  {
    if run == [] {
    } else {
      InvStep(s, run[0]);
      RunKeepsInv(Next(s, run[0]), run[1..]);
    }
  }

  // ----- What holds of every run -----

  /** At most one prompt task is unfinished, and it is the conversation's own. */
  lemma AtMostOnePrompt(run: seq<Event>)
    requires Possible(INITIAL, run)
    ensures forall a, b :: a in After(INITIAL, run).live && b in After(INITIAL, run).live ==> a == b
    ensures forall a :: a in After(INITIAL, run).live ==> After(INITIAL, run).promptTask == Some(a)
  {
    RunKeepsInv(INITIAL, run);
  }

  /**
   * While a permission is pending, its prompt is the conversation's unfinished one, so both guards refuse
   * a new turn, and refusing it changes nothing.
   */
  lemma PendingPermissionRefusesTurn(run: seq<Event>, blocksOk: bool)
    requires Possible(INITIAL, run) && After(INITIAL, run).pending.Some? && After(INITIAL, run).turn.Free?
    ensures var s := After(INITIAL, run);
            && s.pending.value.permission in s.asker
            && s.promptTask == Some(s.asker[s.pending.value.permission]) && s.promptTask.value in s.live
            && Next(s, RunTurn(blocksOk)) == s
  {
    RunKeepsInv(INITIAL, run);
  }

  /** A permission is only ever answered with an option it offered. */
  lemma AnswersWereOffered(run: seq<Event>)
    requires Possible(INITIAL, run)
    ensures var s := After(INITIAL, run);
            forall p :: p in s.answers ==> p in s.offered && s.answers[p] in s.offered[p]
  {
    RunKeepsInv(INITIAL, run);
  }

  /** The answer of a permission future never changes once given. */
  lemma {:induction false} AnsweredOnce(s: State, run: seq<Event>, p: nat)
    requires Possible(s, run) && p in s.answers
    ensures p in After(s, run).answers && After(s, run).answers[p] == s.answers[p]
    decreases |run|
  {
    if run == [] {
    } else {
      AnsweredOnce(Next(s, run[0]), run[1..], p);
    }
  }

  /**
   * A resume that is not refused waits for the very prompt that asked for the permission, and that prompt is
   * unfinished.
   */
  lemma ResumeContinuesSamePrompt(run: seq<Event>, option: string)
    requires Possible(INITIAL, run) && After(INITIAL, run).turn.Free?
    requires Resolves(After(INITIAL, run), option)
    ensures var s := After(INITIAL, run);
            s.pending.value.permission in s.asker &&
            var task := s.asker[s.pending.value.permission];
            && task in s.live
            && (s.queued.None? ==> Next(s, Resume(option)).turn == Watching(task, NotYet))
            && (s.queued == Some(option) ==> Next(s, Acquire).turn == Watching(task, NotYet))
  {
    RunKeepsInv(INITIAL, run);
  }

  /** The second look at the pending permission, after the prompt has been awaited, never finds one. */
  lemma NothingPendingAfterJoin(run: seq<Event>)
    requires Possible(INITIAL, run) && Enabled(After(INITIAL, run), Join)
    ensures After(INITIAL, run).pending.None?
  {
    RunKeepsInv(INITIAL, run);
  }

  // ----- Whether a permission request is heard -----

  /** A turn that waits for the prompt alone no longer hears permission requests. */
  ghost predicate Deaf(s: State) {
    s.turn.Joining? && s.turn.task in s.live
  }

  /** A waiting turn hears of an open, unanswered permission within two steps of its own, and reports it. */
  lemma RequestIsHeard(run: seq<Event>)
    requires Possible(INITIAL, run)
    requires var s := After(INITIAL, run); s.turn.Watching? && s.pending.Some? && !Answered(s)
    ensures var s := After(INITIAL, run);
            var heard := if s.turn.ear.NotYet? then Next(s, Listen) else s;
            && Enabled(heard, Wake)
            && Next(heard, Wake).turn.Free? && Next(heard, Wake).pending == s.pending
  {
    RunKeepsInv(INITIAL, run);
  }

  /**
   * A step that takes the conversation on: no cancellation, no refused call, and no call that has to
   * wait for the lock.
   */
  predicate GoesOn(s: State, e: Event) {
    Enabled(s, e) &&
    match e
    case Resume(option) => s.turn.Free? && Resolves(s, option)
    case _ => e.Acquire? || e.Listen? || e.Wake? || e.Join? || e.Deliver? || e.Finish?
  }

  /** While a permission is open the conversation can go on, unless its turn is deaf or the request offers no option. */
  lemma OpenPermissionGoesOn(run: seq<Event>)
    requires Possible(INITIAL, run) && After(INITIAL, run).handler.Asking?
    ensures var s := After(INITIAL, run);
            (exists e :: GoesOn(s, e)) <==>
            !Deaf(s) &&
            !(s.turn.Free? && s.queued.None? && !Answered(s) && s.pending.Some? && s.pending.value.options == [])
  {
    RunKeepsInv(INITIAL, run);
    var s := After(INITIAL, run);
    if Answered(s) {
      assert GoesOn(s, Deliver);
    } else if s.turn.Watching? {
      assert GoesOn(s, Listen) || GoesOn(s, Wake);
    } else if s.turn.Free? {
      assert s.queued.Some? ==> GoesOn(s, Acquire);
      assert s.queued.None? && s.pending.value.options != [] ==> GoesOn(s, Resume(s.pending.value.options[0]));
    }
  }

  // ----- Which runs make a turn deaf -----

  /** The turn was woken by a permission request that is no longer pending. */
  ghost predicate WokenForNothing(s: State) {
    s.turn.Watching? && s.turn.ear.Woken? && s.pending.None? && s.turn.task in s.live
  }

  predicate WokenTurn(s: State) {
    s.turn.Watching? && s.turn.ear.Woken?
  }

  /** What ends that situation. */
  predicate Disturbs(e: Event) {
    e.Suspend? || e.Wake? || e.Abandon? || e.Finish?
  }

  lemma WokenStep(s: State, e: Event)
    requires Inv(s) && Enabled(s, e)
    ensures WokenForNothing(Next(s, e)) <==> (e.Drop? && WokenTurn(s)) || (WokenForNothing(s) && !Disturbs(e))
  {
  }

  lemma DeafStep(s: State, e: Event)
    requires Inv(s) && Enabled(s, e)
    ensures Deaf(Next(s, e)) <==> (e.Wake? && WokenForNothing(s)) || (Deaf(s) && !e.Finish?)
  {
  }

  lemma {:induction false} LastStep(s: State, run: seq<Event>)
    requires run != [] && Possible(s, run)
    ensures var before, e := run[..|run| - 1], run[|run| - 1];
            Possible(s, before) && Enabled(After(s, before), e) && After(s, run) == Next(After(s, before), e)
    decreases |run|
  {
    if |run| == 1 {
      assert run[..0] == [];
      Unroll(s, run);
    } else {
      var next, rest := Next(s, run[0]), run[1..];
      LastStep(next, rest);
      var before := run[..|run| - 1];
      assert before[0] == run[0] && before[1..] == rest[..|rest| - 1];
      Unroll(s, before);
    }
  }

  /** At step `i` the callback was cancelled although the turn was already woken for it, and nothing mended that. */
  ghost predicate CancelledAfterWaking(run: seq<Event>, i: nat)
    requires Possible(INITIAL, run)
  {
    && i < |run| && run[i].Drop?
    && Possible(INITIAL, run[..i]) && WokenTurn(After(INITIAL, run[..i]))
    && forall k :: i < k < |run| ==> !Disturbs(run[k])
  }

  lemma {:induction false} WokenForNothingExactly(run: seq<Event>)
    requires Possible(INITIAL, run)
    ensures WokenForNothing(After(INITIAL, run)) <==> exists i :: CancelledAfterWaking(run, i)
    decreases |run|
  {
    if run == [] {
    } else {
      var n := |run| - 1;
      var before, e := run[..n], run[n];
      LastStep(INITIAL, run);
      RunKeepsInv(INITIAL, before);
      WokenStep(After(INITIAL, before), e);
      WokenForNothingExactly(before);
      forall i: nat | i < n
        ensures CancelledAfterWaking(run, i) <==> CancelledAfterWaking(before, i) && !Disturbs(e)
      {
        CancelledEarlier(run, i);
      }
      assert CancelledAfterWaking(run, n) <==> e.Drop? && WokenTurn(After(INITIAL, before));
    }
  }

  lemma CancelledEarlier(run: seq<Event>, i: nat)
    requires Possible(INITIAL, run) && i < |run| - 1 && Possible(INITIAL, run[..|run| - 1])
    ensures CancelledAfterWaking(run, i) <==> CancelledAfterWaking(run[..|run| - 1], i) && !Disturbs(run[|run| - 1])
  {
    var before := run[..|run| - 1];
    assert before[..i] == run[..i];
    assert forall k :: 0 <= k < |before| ==> before[k] == run[k];
  }

  /** At step `j` the turn acted on that wake-up, and the prompt has not finished since. */
  ghost predicate WokeForNothingAt(run: seq<Event>, j: nat)
    requires Possible(INITIAL, run)
  {
    && j < |run| && run[j].Wake?
    && Possible(INITIAL, run[..j]) && (exists i :: CancelledAfterWaking(run[..j], i))
    && forall k :: j < k < |run| ==> !run[k].Finish?
  }

  /**
   * A turn is deaf exactly when a callback was cancelled after the turn had been woken for it, the turn
   * acted on the wake-up before anything else was asked, and the prompt has not finished since.
   */
  lemma {:induction false} DeafExactly(run: seq<Event>)
    requires Possible(INITIAL, run)
    ensures Deaf(After(INITIAL, run)) <==> exists j :: WokeForNothingAt(run, j)
    decreases |run|
  {
    if run == [] {
    } else {
      var n := |run| - 1;
      var before, e := run[..n], run[n];
      LastStep(INITIAL, run);
      RunKeepsInv(INITIAL, before);
      DeafStep(After(INITIAL, before), e);
      DeafExactly(before);
      WokenForNothingExactly(before);
      forall j: nat | j < n
        ensures WokeForNothingAt(run, j) <==> WokeForNothingAt(before, j) && !e.Finish?
      {
        WokeEarlier(run, j);
      }
      assert WokeForNothingAt(run, n) <==> e.Wake? && WokenForNothing(After(INITIAL, before));
    }
  }

  lemma WokeEarlier(run: seq<Event>, j: nat)
    requires Possible(INITIAL, run) && j < |run| - 1 && Possible(INITIAL, run[..|run| - 1])
    ensures WokeForNothingAt(run, j) <==> WokeForNothingAt(run[..|run| - 1], j) && !run[|run| - 1].Finish?
  {
    var before := run[..|run| - 1];
    assert before[..j] == run[..j];
    assert forall k :: 0 <= k < |before| ==> before[k] == run[k];
  }

  /** In particular no turn goes deaf as long as no callback is cancelled. */
  lemma NeverDeafWithoutDrop(run: seq<Event>)
    requires Possible(INITIAL, run) && Drop !in run
    ensures !Deaf(After(INITIAL, run))
  {
    DeafExactly(run);
    forall j: nat, i: nat | j < |run| && i < j
      ensures !run[..j][i].Drop?
    {
      assert run[i] in run;
    }
  }

  /** A deaf turn whose prompt is suspended holds the lock that the answer needs. */
  ghost predicate Stuck(s: State) {
    Deaf(s) && s.handler.Asking? && s.handler.permission !in s.answers
  }

  /**
   * Then only cancellations and calls that have to wait are possible: no end of the prompt, and nothing
   * frees the lock.
   */
  lemma StuckIsDeadlock(s: State, e: Event)
    requires Stuck(s)
    ensures Enabled(s, e) <==> e.Drop? || (e.Resume? && s.queued.None?) || (e.Withdraw? && s.queued.Some?)
    ensures Enabled(s, e) && !e.Drop? ==> Next(s, e) == s.(queued := Next(s, e).queued)
  {
  }

  /** Whenever a request has woken the turn, cancelling its callback at once and asking again ends stuck. */
  lemma DropCanStick(s: State, options: seq<string>)
    requires Inv(s) && WokenTurn(s) && s.pending.Some?
    ensures var run := [Drop, Wake, Ask(s.turn.task, options), Suspend];
            Possible(s, run) && Stuck(After(s, run))
  {
    var run := [Drop, Wake, Ask(s.turn.task, options), Suspend];
    DropThenWake(s);
    var s1 := Next(s, Drop);
    var s2 := Next(s1, Wake);
    AskOfDeaf(s2, options);
    var s3 := Next(s2, Ask(s2.turn.task, options));
    assert run[4..] == [];
    UnrollAt(s3, run, 3);
    UnrollAt(s2, run, 2);
    UnrollAt(s1, run, 1);
    UnrollAt(s, run, 0);
    assert run[0..] == run;
  }

  lemma DropThenWake(s: State)
    requires Inv(s) && WokenTurn(s) && s.pending.Some?
    ensures Enabled(s, Drop) && Enabled(Next(s, Drop), Wake)
    ensures var s2 := Next(Next(s, Drop), Wake);
            Deaf(s2) && s2.handler.Idle? && s2.turn.task == s.turn.task && s2.nextPermission !in s2.answers
  {
  }

  lemma AskOfDeaf(s: State, options: seq<string>)
    requires Deaf(s) && s.handler.Idle? && s.nextPermission !in s.answers
    ensures Enabled(s, Ask(s.turn.task, options)) && Enabled(Next(s, Ask(s.turn.task, options)), Suspend)
    ensures Stuck(Next(Next(s, Ask(s.turn.task, options)), Suspend))
  {
  }

  /** Such a state: the first request of the first turn. */
  lemma WokenTurnOccurs(options: seq<string>)
    ensures var run := [RunTurn(true), Listen, Ask(0, options), Suspend];
            && Possible(INITIAL, run) && WokenTurn(After(INITIAL, run)) && After(INITIAL, run).pending.Some?
  {
    var run := [RunTurn(true), Listen, Ask(0, options), Suspend];
    var s1 := Next(INITIAL, run[0]);
    var s2 := Next(s1, run[1]);
    var s3 := Next(s2, run[2]);
    assert run[4..] == [];
    UnrollAt(s3, run, 3);
    UnrollAt(s2, run, 2);
    UnrollAt(s1, run, 1);
    UnrollAt(INITIAL, run, 0);
    assert run[0..] == run;
  }

  lemma UnrollAt(s: State, run: seq<Event>, i: nat)
    requires i < |run| && Enabled(s, run[i]) && Possible(Next(s, run[i]), run[i + 1..])
    ensures Possible(s, run[i..]) && After(s, run[i..]) == After(Next(s, run[i]), run[i + 1..])
  {
    assert run[i..][0] == run[i] && run[i..][1..] == run[i + 1..];
  }

  lemma Unroll(s: State, run: seq<Event>)
    requires run != [] && Enabled(s, run[0]) && Possible(Next(s, run[0]), run[1..])
    ensures Possible(s, run) && After(s, run) == After(Next(s, run[0]), run[1..])
  {
  }
}
