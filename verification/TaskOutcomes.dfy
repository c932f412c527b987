/** What the rows of tasks and runs hold, value by value, in every reachable state of the protocol. */
module TaskOutcomes {
  import opened Collections
  import opened TaskProtocol
  import opened TaskAgreement
  import opened TaskHandlers

  // ---- One step ----

  /** The row a callback leaves. */
  predicate ShowsCallback(before: Task, row: Task, c: Callback) {
    && row.status == (match c.verdict case Good => Succeeded case Bad => Failed)
    && row.result == Some(if c.result == "" then "null" else c.result)
    && row.error == c.error
    && row.run == before.run && row.session == before.session && row.expires == before.expires
  }

  /** A timeout keeps the result and names the limit. */
  predicate ShowsTimeout(before: Task, row: Task, limit: string) {
    && row.status == Timeout && row.error == "task timed out after " + limit
    && row.result == before.result
    && row.run == before.run && row.session == before.session && row.expires == before.expires
  }

  predicate ShowsExpiry(before: Task, row: Task) {
    && row.status == Expired && row.result == before.result && row.error == before.error
    && row.run == before.run && row.session == before.session && row.expires == before.expires
  }

  /** The step is the first statement of a callback for task t, and it is answered. */
  predicate CallsBack(st: State, a: Action, t: nat) {
    && a.CallbackStep? && a.k < |st.callbacks| && st.callbacks[a.k].pc == AtTask && st.callbacks[a.k].task == t
    && !a.fault
  }

  /** It is the update of a watcher that has read its task as queued or running. */
  predicate TimesOut(st: State, a: Action, t: nat) {
    a.WatcherStep? && a.w < |st.watchers| && st.watchers[a.w].pc == Checked && st.watchers[a.w].task == t && !a.fault
  }

  predicate ReapsTask(st: State, a: Action, t: nat)
    requires t < |st.tasks|
  {
    a.Reap? && st.tasks[t].expires < a.now
  }

  /** How any step changes any task row: a row that is queued or running by a callback, a timeout or the
      reaper, each leaving its own values; and otherwise not at all. */
  lemma RowChanges(st: State, a: Action, t: nat)
    requires Shaped(st) && t < |st.tasks|
    ensures t < |Step(st, a).tasks|
    ensures var row, next := st.tasks[t], Step(st, a).tasks[t];
            if row.status != Queued && row.status != Running then next == row
            else if CallsBack(st, a, t) then ShowsCallback(row, next, st.callbacks[a.k])
            else if TimesOut(st, a, t) then ShowsTimeout(row, next, st.watchers[a.w].after)
            else if ReapsTask(st, a, t) then ShowsExpiry(row, next)
            else next == row
  {
    if a.Reap? {
      ReapShape(st, a.now, |st.tasks|);
    }
  }

  /** The step is the update of run r by a callback for a task of that run. */
  predicate CallsBackRun(st: State, a: Action, r: nat) {
    && a.CallbackStep? && a.k < |st.callbacks| && st.callbacks[a.k].pc == AtRun && !a.fault
    && st.callbacks[a.k].task < |st.tasks| && st.tasks[st.callbacks[a.k].task].run == Some(r)
  }

  /** How any step changes any run row: by a callback that has come to its run, or by the handler of
      the message, whatever the row held; and otherwise not at all. */
  lemma RunChanges(st: State, a: Action, r: nat)
    requires Shaped(st) && r < |st.runs|
    ensures r < |Step(st, a).runs|
    ensures var row, next := st.runs[r], Step(st, a).runs[r];
            && next.session == row.session
            && next.status ==
               if CallsBackRun(st, a, r) then
                 (match st.callbacks[a.k].verdict case Good => Completed case Bad => RunFailed)
               else if a.WriteRun? && a.r == r then
                 (match a.verdict case Good => Completed case Bad => RunFailed)
               else row.status
  {
    if a.Reap? {
      ReapShape(st, a.now, |st.tasks|);
    }
  }

  // ---- Every reachable state ----

  /** In every reachable state a task row holds what its first writer brought: a callback's verdict,
      result and message, the text of a timeout, or nothing more for the reaper; and while nobody has
      written to it, it is as it was queued. */
  lemma FirstWriteTells(actions: seq<Action>, t: nat)
    requires t < |Reach(actions).tasks|
    ensures var st := Reach(actions);
            var row, writes := st.tasks[t], st.attempts[t];
            if writes == [] then row.status == Queued && row.result == None && row.error == ""
            else match writes[0]
              case ByCallback(k) =>
                && k < |st.callbacks| && st.callbacks[k].task == t
                && row.status == (match st.callbacks[k].verdict case Good => Succeeded case Bad => Failed)
                && row.result == Some(if st.callbacks[k].result == "" then "null" else st.callbacks[k].result)
                && row.error == st.callbacks[k].error
              case ByTimeout(limit) =>
                row.status == Timeout && row.result == None && row.error == "task timed out after " + limit
              case ByReaper => row.status == Expired && row.result == None && row.error == ""
  {
    RowsAlways(actions);
    var st := Reach(actions);
    assert FirstWins(st, t) && GoodAttempts(st, t);
    if st.attempts[t] != [] && st.attempts[t][0].ByCallback? {
      assert Handled(st, st.attempts[t][0].k, t);
    }
  }

  /** Who has written to a task: the list grows by one at each step that aims a terminal write at it,
      and at no other. */
  lemma AttemptsGrow(st: State, a: Action, t: nat)
    requires Shaped(st) && t < |st.tasks|
    ensures t < |Step(st, a).attempts|
    ensures Step(st, a).attempts[t] == st.attempts[t] +
            if CallsBack(st, a, t) then [ByCallback(a.k)]
            else if TimesOut(st, a, t) then [ByTimeout(st.watchers[a.w].after)]
            else if ReapsTask(st, a, t) then [ByReaper]
            else []
  {
    assert st.attempts[t] + [] == st.attempts[t];
    if a.Reap? {
      ReapShape(st, a.now, |st.tasks|);
    }
  }

  // ---- A callback handled to its end ----

  lemma {:induction false} FinishExtends(st: State, k: nat, faults: nat -> bool, i: nat)
    requires Shaped(st) && k < |st.callbacks|
    ensures Extends(st, Finish(st, k, faults, i))
    ensures st.callbacks[k].pc != AtTask ==> Finish(st, k, faults, i).tasks == st.tasks
    decreases Left(st.callbacks[k].pc)
  {
    if Left(st.callbacks[k].pc) == 0 {
      StandingStill(st);
    } else {
      var next := StepCallback(st, k, faults(i));
      CallbackExtends(st, k, faults(i));
      FinishStep(st, k, faults, i, next);
      FinishExtends(next, k, faults, i + 1);
      ExtendsTrans(st, next, Finish(st, k, faults, i));
      LaterStatementsLeaveTasks(st, k, faults(i));
    }
  }

  /** Only the first statement of a callback touches a task. */
  lemma LaterStatementsLeaveTasks(st: State, k: nat, fault: bool)
    requires Shaped(st) && k < |st.callbacks|
    ensures var next := StepCallback(st, k, fault);
            && k < |next.callbacks| && next.callbacks[k].pc != AtTask
            && (st.callbacks[k].pc != AtTask || fault ==> next.tasks == st.tasks)
  {
  }

  /** What `TaskCallback` leaves in the table of tasks, whatever fails on the way: nothing new if its
      first statement fails; else its verdict, result and message in the row of a task that was queued
      or running, and no other row changed. */
  lemma CallbackLeaves(st: State, task: nat, verdict: Verdict, result: string, error: string, faults: nat -> bool)
    requires Shaped(st)
    ensures Shaped(Step(st, Deliver(task, verdict, result, error)))
    ensures var next := Finish(Step(st, Deliver(task, verdict, result, error)), |st.callbacks|, faults, 0);
            && |next.tasks| == |st.tasks|
            && forall t: nat :: t < |st.tasks| ==>
                 if t == task && !faults(0) && st.tasks[t].status in {Queued, Running} then
                   && next.tasks[t].status == (if verdict.Good? then Succeeded else Failed)
                   && next.tasks[t].result == Some(if result == "" then "null" else result)
                   && next.tasks[t].error == error
                   && SameKeys(st.tasks[t], next.tasks[t])
                 else next.tasks[t] == st.tasks[t]
  {
    var a := Deliver(task, verdict, result, error);
    StepShape(st, a);
    var s0, k := Step(st, a), |st.callbacks|;
    var s1 := StepCallback(s0, k, faults(0));
    FinishStep(s0, k, faults, 0, s1);
    LaterStatementsLeaveTasks(s0, k, faults(0));
    FinishExtends(s1, k, faults, 1);
    forall t: nat | t < |st.tasks| {
      RowChanges(s0, CallbackStep(k, faults(0)), t);
    }
  }

  // ---- Enqueueing ----

  /** A watcher never changes its task or its limit. */
  lemma WatcherKeeps(st: State, a: Action, w: nat)
    requires Shaped(st) && w < |st.watchers|
    ensures w < |Step(st, a).watchers|
    ensures Step(st, a).watchers[w].task == st.watchers[w].task && Step(st, a).watchers[w].after == st.watchers[w].after
  {
    if a.Reap? {
      ReapShape(st, a.now, |st.tasks|);
    }
  }

  /** Task t keeps what it was enqueued with; w is the number of its watcher, if it has a limit. */
  predicate Kept(st: State, t: nat, e: Action, w: nat)
    requires e.Enqueue?
  {
    && t < |st.tasks|
    && st.tasks[t].session == e.session && st.tasks[t].run == e.run && st.tasks[t].expires == e.expires
    && (e.outcome == Inserted(true) ==> t in st.published)
    && (e.watch.Some? ==> w < |st.watchers| && st.watchers[w].task == t && st.watchers[w].after == e.watch.value)
  }

  lemma KeptOn(st: State, a: Action, t: nat, e: Action, w: nat)
    requires Shaped(st) && e.Enqueue? && Kept(st, t, e, w)
    ensures Kept(Step(st, a), t, e, w)
  {
    StepExtends(st, a);
    if e.watch.Some? {
      WatcherKeeps(st, a, w);
    }
    if e.outcome == Inserted(true) {
      PublishedGrows(st, a, t);
    }
  }

  lemma KeptAtFirst(st: State, e: Action)
    requires Shaped(st) && e.Enqueue? && e.outcome.Inserted?
    ensures Kept(Step(st, e), |st.tasks|, e, |st.watchers|)
  {
    var published := Step(st, e).published;
    assert e.outcome.announced ==> published[|published| - 1] == |st.tasks|;
  }

  /** What becomes of a task that is inserted in any reachable state, for ever after: it keeps its
      session, run and expiry, it was announced if it was, and it has a watcher with its limit if there
      is one. */
  lemma {:induction false} EnqueuedStays(past: seq<Action>, e: Action, future: seq<Action>)
    requires e.Enqueue? && e.outcome.Inserted?
    ensures Kept(Reach(past + [e] + future), |Reach(past).tasks|, e, |Reach(past).watchers|)
  {
    if future == [] {
      ReachMore(past, e);
      assert past + [e] + future == past + [e];
      KeptAtFirst(Reach(past), e);
    } else {
      var n := |future| - 1;
      var mid := past + [e] + future[..n];
      EnqueuedStays(past, e, future[..n]);
      assert past + [e] + future == mid + [future[n]];
      ReachMore(mid, future[n]);
      KeptOn(Reach(mid), future[n], |Reach(past).tasks|, e, |Reach(past).watchers|);
    }
  }

  lemma PublishedGrows(st: State, a: Action, t: nat)
    requires Shaped(st) && t in st.published
    ensures t in Step(st, a).published
  {
    if a.Reap? {
      ReapShape(st, a.now, |st.tasks|);
    }
  }

  /** The insert itself: one new row, queued, under the next id; nothing but the announcement and the
      watcher beside it; and nothing at all when the insert fails. */
  lemma EnqueueAddsOne(st: State, session: string, run: Option<nat>, expires: int, watch: Option<string>,
                       outcome: Enqueued)
    requires Shaped(st)
    ensures var next, t := Step(st, Enqueue(session, run, expires, watch, outcome)), |st.tasks|;
            if outcome.InsertLost? then next == st
            else
              && next.tasks == st.tasks + [Task(Queued, None, "", run, session, expires)]
              && next.runs == st.runs && next.callbacks == st.callbacks
              && next.published == st.published + (if outcome == Inserted(true) then [t] else [])
              && next.watchers == st.watchers +
                 (if outcome.Inserted? && watch.Some? then [Watcher(t, watch.value, Sleeping)] else [])
  {
    assert st.published + [] == st.published && st.watchers + [] == st.watchers;
  }

  // ---- The watcher ----

  /** A watcher that fires on a queued or running task, undisturbed and without a fault, times it out and
      announces it if there is a bus and a session. */
  lemma WatcherTimesOut(st: State, w: nat, faults: nat -> bool, bus: bool)
    requires Shaped(st) && w < |st.watchers| && st.watchers[w].pc == Sleeping && !faults(0) && !faults(1)
    requires st.tasks[st.watchers[w].task].status in {Queued, Running}
    ensures var next, t := Watch(st, w, faults, bus), st.watchers[w].task;
            && t < |next.tasks| && ShowsTimeout(st.tasks[t], next.tasks[t], st.watchers[w].after)
            && next.notices == st.notices + (if bus && st.tasks[t].session != "" then [w] else [])
  {
    assert st.notices + [] == st.notices;
    WatcherExtends(st, w, false);
    var s1 := StepWatcher(st, w, false);
    assert s1.watchers[w] == st.watchers[w].(pc := Checked) && s1.tasks == st.tasks;
    WatcherExtends(s1, w, false);
    var s2 := StepWatcher(s1, w, false);
    assert s2.watchers[w].pc == Marked;
  }

  // ---- Messages and events ----

  /** In every reachable state, each message and each result event stands in the session of the run of
      its callback's task. */
  lemma NotesInTheRunsSession(actions: seq<Action>, n: Note)
    requires n in Reach(actions).messages || n in Reach(actions).events
    ensures var st := Reach(actions);
            && n.from < |st.callbacks| && st.callbacks[n.from].task < |st.tasks|
            && var run := st.tasks[st.callbacks[n.from].task].run;
               run.Some? && run.value < |st.runs| && n.session == st.runs[run.value].session
  {
    NotesAlways(actions);
    assert NoteInv(Reach(actions), n);
  }
}
