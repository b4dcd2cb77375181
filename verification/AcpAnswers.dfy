/** Where the requests and answers of an ACP conversation come from, over whole runs. */
module AcpAnswers {
  import opened Strings
  import opened AcpConversation

  // ----- Requests -----

  /** A permission stands for the request of one step: who asked, and what was offered. */
  ghost predicate AskedAt(run: seq<Event>, i: nat, p: nat, task: nat, options: seq<string>)
    requires Possible(INITIAL, run)
  {
    && i < |run| && run[i] == Ask(task, options)
    && Possible(INITIAL, run[..i]) && After(INITIAL, run[..i]).nextPermission == p
  }

  /** Every permission is the request of exactly one step, with its task and its options. */
  lemma {:induction false} AskedExactly(run: seq<Event>, p: nat, task: nat, options: seq<string>)
    requires Possible(INITIAL, run)
    ensures var s := After(INITIAL, run);
            p in s.asker && s.asker[p] == task && p in s.offered && s.offered[p] == options <==>
            exists i :: AskedAt(run, i, p, task, options)
    decreases |run|
  {
    if run == [] {
    } else {
      var before := run[..|run| - 1];
      LastStep(INITIAL, run);
      RunKeepsInv(INITIAL, run);
      RunKeepsInv(INITIAL, before);
      AskedExactly(before, p, task, options);
      AskStep(After(INITIAL, before), run[|run| - 1], p, task, options);
      AskedLastOrEarlier(run, before, p, task, options);
    }
  }

  lemma AskStep(s: State, e: Event, p: nat, task: nat, options: seq<string>)
    requires PermissionInv(s) && Enabled(s, e) && PermissionInv(Next(s, e))
    ensures var t := Next(s, e);
            p in t.asker && t.asker[p] == task && t.offered[p] == options <==>
            (p in s.asker && s.asker[p] == task && s.offered[p] == options) ||
            (e == Ask(task, options) && p == s.nextPermission)
  {
    AskFrame(s, e);
  }

  lemma AskFrame(s: State, e: Event)
    requires Enabled(s, e)
    ensures Next(s, e).asker == if e.Ask? then s.asker[s.nextPermission := e.task] else s.asker
    ensures Next(s, e).offered == if e.Ask? then s.offered[s.nextPermission := e.options] else s.offered
  {
    match e
    case RunTurn(_) =>
    case Resume(_) =>
    case _ =>
  }

  lemma AskedLastOrEarlier(run: seq<Event>, before: seq<Event>, p: nat, task: nat, options: seq<string>)
    requires run != [] && before == run[..|run| - 1] && Possible(INITIAL, run) && Possible(INITIAL, before)
    ensures (exists i :: AskedAt(run, i, p, task, options)) <==>
            (exists i :: AskedAt(before, i, p, task, options)) ||
            (run[|run| - 1] == Ask(task, options) && After(INITIAL, before).nextPermission == p)
  {
    AskedLast(run, before, p, task, options);
    if i: nat :| AskedAt(run, i, p, task, options) && i < |before| {
      AskedEarlier(run, before, i, p, task, options);
    }
    if i: nat :| AskedAt(before, i, p, task, options) {
      AskedEarlier(run, before, i, p, task, options);
    }
  }

  lemma AskedLast(run: seq<Event>, before: seq<Event>, p: nat, task: nat, options: seq<string>)
    requires run != [] && before == run[..|run| - 1] && Possible(INITIAL, run) && Possible(INITIAL, before)
    ensures AskedAt(run, |before|, p, task, options) <==>
            run[|run| - 1] == Ask(task, options) && After(INITIAL, before).nextPermission == p
  {
    assert run[..|before|] == before;
  }

  lemma AskedEarlier(run: seq<Event>, before: seq<Event>, i: nat, p: nat, task: nat, options: seq<string>)
    requires run != [] && before == run[..|run| - 1] && Possible(INITIAL, run) && Possible(INITIAL, before)
    requires i < |before|
    ensures AskedAt(run, i, p, task, options) <==> AskedAt(before, i, p, task, options)
  {
    assert before[..i] == run[..i] && before[i] == run[i];
  }

  // ----- Answers -----

  /**
   * This step answers this permission with this option: a resume call with the option, or the queued one, has the
   * lock, and the permission is pending, not answered yet, and offers the option.
   */
  ghost predicate Answers(s: State, e: Event, p: nat, option: string) {
    && s.turn.Free? && (e == Resume(option) || (e.Acquire? && s.queued == Some(option)))
    && s.pending.Some? && s.pending.value.permission == p && p !in s.answers
    && option in s.pending.value.options
  }

  lemma AnswerStep(s: State, e: Event, p: nat, option: string)
    requires Inv(s) && Enabled(s, e)
    ensures p in Next(s, e).answers && Next(s, e).answers[p] == option <==>
            (p in s.answers && s.answers[p] == option) || Answers(s, e, p, option)
  {
    AnswerFrame(s, e);
    match e
    case Resume(given) =>
      if ResumeGuards(s) && s.turn.Free? {
        ResumedAnswers(s, given);
      }
    case Acquire => ResumedAnswers(s.(queued := None), s.queued.value);
    case _ =>
  }

  /** No step but a resume touches the answers. */
  lemma AnswerFrame(s: State, e: Event)
    requires Enabled(s, e)
    ensures Next(s, e).answers == match e
                                  case Resume(option) =>
                                    if ResumeGuards(s) && s.turn.Free? then Resumed(s, option).answers else s.answers
                                  case Acquire => Resumed(s.(queued := None), s.queued.value).answers
                                  case _ => s.answers
  {
  }

  lemma ResumedAnswers(s: State, option: string)
    requires PermissionInv(s)
    ensures Resumed(s, option).answers ==
            if s.pending.Some? && option in s.pending.value.options && s.pending.value.permission !in s.answers
            then s.answers[s.pending.value.permission := option]
            else s.answers
  {
  }

  ghost predicate AnsweredAt(run: seq<Event>, i: nat, p: nat, option: string)
    requires Possible(INITIAL, run)
  {
    i < |run| && Possible(INITIAL, run[..i]) && Answers(After(INITIAL, run[..i]), run[i], p, option)
  }

  /**
   * A permission has an answer exactly because a resume call of the run gave that very option while the permission
   * was pending, offered it, and had not been answered.
   */
  lemma {:induction false} AnsweredExactly(run: seq<Event>, p: nat, option: string)
    requires Possible(INITIAL, run)
    ensures var s := After(INITIAL, run);
            p in s.answers && s.answers[p] == option <==> exists i :: AnsweredAt(run, i, p, option)
    decreases |run|
  {
    if run == [] {
    } else {
      var before := run[..|run| - 1];
      LastStep(INITIAL, run);
      RunKeepsInv(INITIAL, before);
      AnsweredExactly(before, p, option);
      AnswerStep(After(INITIAL, before), run[|run| - 1], p, option);
      AnsweredLastOrEarlier(run, before, p, option);
    }
  }

  lemma AnsweredLastOrEarlier(run: seq<Event>, before: seq<Event>, p: nat, option: string)
    requires run != [] && before == run[..|run| - 1] && Possible(INITIAL, run) && Possible(INITIAL, before)
    ensures (exists i :: AnsweredAt(run, i, p, option)) <==>
            (exists i :: AnsweredAt(before, i, p, option)) ||
            Answers(After(INITIAL, before), run[|run| - 1], p, option)
  {
    AnsweredLast(run, before, p, option);
    if i: nat :| AnsweredAt(run, i, p, option) {
      AnsweredIn(run, before, i, p, option);
    }
    if i: nat :| AnsweredAt(before, i, p, option) {
      AnsweredEarlier(run, before, i, p, option);
    }
  }

  lemma AnsweredIn(run: seq<Event>, before: seq<Event>, i: nat, p: nat, option: string)
    requires run != [] && before == run[..|run| - 1] && Possible(INITIAL, run) && Possible(INITIAL, before)
    requires AnsweredAt(run, i, p, option)
    ensures i == |before| || AnsweredAt(before, i, p, option)
  {
    if i < |before| {
      AnsweredEarlier(run, before, i, p, option);
    }
  }

  lemma AnsweredLast(run: seq<Event>, before: seq<Event>, p: nat, option: string)
    requires run != [] && before == run[..|run| - 1] && Possible(INITIAL, run) && Possible(INITIAL, before)
    ensures AnsweredAt(run, |before|, p, option) <==> Answers(After(INITIAL, before), run[|run| - 1], p, option)
  {
    assert run[..|before|] == before;
  }

  lemma AnsweredEarlier(run: seq<Event>, before: seq<Event>, i: nat, p: nat, option: string)
    requires run != [] && before == run[..|run| - 1] && Possible(INITIAL, run) && Possible(INITIAL, before)
    requires i < |before|
    ensures AnsweredAt(run, i, p, option) <==> AnsweredAt(before, i, p, option)
  {
    assert before[..i] == run[..i] && before[i] == run[i];
  }

  /** An accepted resume answers the open permission with the option it was given, and waits for the prompt. */
  lemma ResumeAnswers(run: seq<Event>, option: string)
    requires Possible(INITIAL, run)
    requires var s := After(INITIAL, run);
             && s.turn.Free? && s.pending.Some? && option in s.pending.value.options && !Answered(s)
    ensures var s := After(INITIAL, run);
            var p := s.pending.value.permission;
            && (s.queued.None? ==> Next(s, Resume(option)).answers == s.answers[p := option])
            && (s.queued == Some(option) ==> Next(s, Acquire).answers == s.answers[p := option])
  {
    RunKeepsInv(INITIAL, run);
    var s := After(INITIAL, run);
    ResumedAnswers(s, option);
    if s.queued.None? {
      AnswerFrame(s, Resume(option));
    } else if s.queued == Some(option) {
      AnswerFrame(s, Acquire);
      ResumedAnswers(s.(queued := None), option);
    }
  }

  // ----- The waiting resume call -----

  /** At step `i` a resume call with this option had to wait for the lock, and nothing has ended its wait since. */
  ghost predicate QueuedAt(run: seq<Event>, i: nat, option: string)
    requires Possible(INITIAL, run)
  {
    && i < |run| && run[i] == Resume(option)
    && Possible(INITIAL, run[..i])
    && After(INITIAL, run[..i]).pending.Some? && !After(INITIAL, run[..i]).turn.Free?
    && forall k :: i < k < |run| ==> !run[k].Acquire? && !run[k].Withdraw?
  }

  lemma QueueStep(s: State, e: Event, option: string)
    requires PromptInv(s) && PermissionInv(s) && Enabled(s, e)
    ensures Next(s, e).queued == Some(option) <==>
            (s.queued == Some(option) && !e.Acquire? && !e.Withdraw?) ||
            (e == Resume(option) && s.pending.Some? && !s.turn.Free?)
  {
    PendingMeansLive(s);
  }

  lemma PendingMeansLive(s: State)
    requires PromptInv(s) && PermissionInv(s)
    ensures s.pending.Some? <==> ResumeGuards(s)
  {
  }

  /** The option that waits for the lock is the one that a resume call, with a permission pending, came with. */
  lemma {:induction false} QueuedExactly(run: seq<Event>, option: string)
    requires Possible(INITIAL, run)
    ensures After(INITIAL, run).queued == Some(option) <==> exists i :: QueuedAt(run, i, option)
    decreases |run|
  {
    if run == [] {
    } else {
      var before := run[..|run| - 1];
      LastStep(INITIAL, run);
      RunKeepsInv(INITIAL, before);
      QueuedExactly(before, option);
      QueueStep(After(INITIAL, before), run[|run| - 1], option);
      QueuedLastOrEarlier(run, before, option);
    }
  }

  lemma QueuedLastOrEarlier(run: seq<Event>, before: seq<Event>, option: string)
    requires run != [] && before == run[..|run| - 1] && Possible(INITIAL, run) && Possible(INITIAL, before)
    ensures var e, s := run[|run| - 1], After(INITIAL, before);
            (exists i :: QueuedAt(run, i, option)) <==>
            ((exists i :: QueuedAt(before, i, option)) && !e.Acquire? && !e.Withdraw?) ||
            (e == Resume(option) && s.pending.Some? && !s.turn.Free?)
  {
    QueuedLast(run, before, option);
    if i: nat :| QueuedAt(run, i, option) && i < |before| {
      QueuedEarlier(run, before, i, option);
    }
    if i: nat :| QueuedAt(before, i, option) {
      QueuedEarlier(run, before, i, option);
    }
  }

  lemma QueuedLast(run: seq<Event>, before: seq<Event>, option: string)
    requires run != [] && before == run[..|run| - 1] && Possible(INITIAL, run) && Possible(INITIAL, before)
    ensures var e, s := run[|run| - 1], After(INITIAL, before);
            QueuedAt(run, |before|, option) <==> e == Resume(option) && s.pending.Some? && !s.turn.Free?
  {
    assert run[..|before|] == before;
  }

  lemma QueuedEarlier(run: seq<Event>, before: seq<Event>, i: nat, option: string)
    requires run != [] && before == run[..|run| - 1] && Possible(INITIAL, run) && Possible(INITIAL, before)
    requires i < |before|
    ensures QueuedAt(run, i, option) <==>
            QueuedAt(before, i, option) && !run[|run| - 1].Acquire? && !run[|run| - 1].Withdraw?
  {
    assert before[..i] == run[..i];
    assert forall k :: 0 <= k < |before| ==> before[k] == run[k];
  }

  // ----- Prompts -----

  /**
   * A new prompt begins exactly with an accepted turn: nothing is pending, no prompt is unfinished. The conversation
   * keeps it as its own until it has been awaited alone.
   */
  lemma PromptStartsExactly(run: seq<Event>, e: Event)
    requires Possible(INITIAL, run) && Enabled(After(INITIAL, run), e)
    ensures var s, t := After(INITIAL, run), Next(After(INITIAL, run), e);
            && (!(t.live <= s.live) <==> e == RunTurn(true) && s.pending.None? && s.live == {})
            && (!(t.live <= s.live) ==>
                  t.live == {s.nextTask} && t.promptTask == Some(s.nextTask) && t.turn == Watching(s.nextTask, NotYet))
            && (t.live <= s.live ==> t.promptTask == if e.Join? then None else s.promptTask)
  {
    RunKeepsInv(INITIAL, run);
    LiveFrame(After(INITIAL, run), e);
    OnlyOwnPrompt(After(INITIAL, run));
  }

  lemma LiveFrame(s: State, e: Event)
    requires Enabled(s, e)
    ensures Next(s, e).live == match e
                               case RunTurn(blocksOk) => TurnStarted(s, blocksOk).live
                               case Finish(task) => s.live - {task}
                               case _ => s.live
    ensures Next(s, e).promptTask == match e
                                     case RunTurn(blocksOk) => TurnStarted(s, blocksOk).promptTask
                                     case Join => None
                                     case _ => s.promptTask
  {
  }

  lemma OnlyOwnPrompt(s: State)
    requires PromptInv(s)
    ensures s.live == {} || (s.promptTask.Some? && s.live == {s.promptTask.value} && s.nextTask !in s.live)
  {
    if s.live != {} {
      var t :| t in s.live;
      assert s.live == {t};
    }
  }

  // ----- Pauses -----

  /** The lock is given back exactly by reporting a permission, by joining the prompt, and by a cancelled caller. */
  lemma LockFreedExactly(s: State, e: Event)
    requires Enabled(s, e) && !s.turn.Free?
    ensures Next(s, e).turn.Free? <==>
            e.Join? || e.Abandon? || (e.Wake? && s.turn.ear.Woken? && s.pending.Some?)
  {
  }

  /** A permission is pending from the step that suspends the prompt for it to the one that closes it, and only then. */
  lemma PendingExactly(s: State, e: Event)
    requires PermissionInv(s) && Enabled(s, e)
    ensures Next(s, e).pending ==
            if e.Suspend? then Some(s.handler.request)
            else if e.Deliver? || e.Drop? then None
            else s.pending
  {
    PendingFrame(s, e);
    if e.RunTurn? && s.pending.None? {
      assert TurnStarted(s, e.blocksOk).pending == None;
    }
  }

  lemma PendingFrame(s: State, e: Event)
    requires Enabled(s, e)
    ensures Next(s, e).pending == match e
                                  case RunTurn(blocksOk) => TurnStarted(s, blocksOk).pending
                                  case Suspend => Some(s.handler.request)
                                  case Deliver => None
                                  case Drop => None
                                  case _ => s.pending
  {
  }
}
