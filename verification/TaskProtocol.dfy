/** The asynchronous task protocol: enqueueing, the timeout watcher and the reaper
    (`internal/async/task.go`), the callback handler (`internal/grpcserver/server.go`) and the
    worker that sends the callbacks (`services/ai/orchestrator/consumer.py`).

    Every database statement is one atomic step; the steps of different callbacks, watchers and
    reaper ticks interleave freely.  A callback that is never delivered was lost, one delivered
    again is a duplicate, and any of them may come at any time. */
module TaskProtocol {
  import opened Collections

  datatype Status = Queued | Running | Succeeded | Failed | Timeout | Expired
  {
    predicate Active() { Queued? || Running? }
  }

  datatype Verdict = Good | Bad

  /** A row of async_tasks. */
  datatype Task = Task(status: Status, result: Option<string>, error: string, run: Option<nat>, session: string,
    expires: int)

  datatype RunStatus = InProgress | Completed | RunFailed

  /** A row of runs. */
  datatype RunRow = RunRow(session: string, status: RunStatus)

  /** The next statement of a callback being handled. */
  datatype Pc = AtTask | AtLookup | AtRun | AtSession | AtMessage | AtEvent | Finished | Aborted

  /** A delivered callback; faulted remembers a database error or a missing row on the way. */
  datatype Callback = Callback(task: nat, verdict: Verdict, result: string, error: string, pc: Pc, faulted: bool)

  datatype WatcherPc = Sleeping | Checked | Marked | Done | Gone

  /** after is the time limit as it is printed. */
  datatype Watcher = Watcher(task: nat, after: string, pc: WatcherPc)

  /** An UPDATE whose key matched the row, whether or not its status guard did. */
  datatype Attempt = ByCallback(k: nat) | ByTimeout(after: string) | ByReaper

  /** An update of a run: by a callback, or by the handler of the message that started the run, when
      it answers itself or gives up. */
  datatype RunWrite = FromCallback(k: nat) | FromHandler(verdict: Verdict)

  /** What becomes of an enqueued task: its row is inserted and announced or not, the insert fails,
      or the row is there but its id cannot be read back. */
  datatype Enqueued = Inserted(announced: bool) | InsertLost | IdLost

  /** An assistant message or a `result` event, with the callback it came from. */
  datatype Note = Note(session: string, from: nat)

  datatype State = State(
    tasks: seq<Task>,
    runs: seq<RunRow>,
    callbacks: seq<Callback>,
    watchers: seq<Watcher>,
    messages: seq<Note>,
    events: seq<Note>,
    notices: seq<nat>,            // watchers that announced a timeout
    attempts: seq<seq<Attempt>>,  // for each task, the terminal writes aimed at it
    runWrites: seq<seq<RunWrite>>,  // for each run, who updated it
    published: seq<nat>)          // tasks announced to the workers

  const INIT := State([], [], [], [], [], [], [], [], [], [])

  datatype Action =
    | StartRun(session: string)
    | Enqueue(session: string, run: Option<nat>, expires: int, watch: Option<string>, outcome: Enqueued)
    | WriteRun(r: nat, verdict: Verdict)
    | Deliver(task: nat, verdict: Verdict, result: string, error: string)
    | CallbackStep(k: nat, fault: bool)
    | WatcherStep(w: nat, fault: bool)
    | Reap(now: int)

  function TimeoutMessage(after: string): string { "task timed out after " + after }

  function StatusOf(v: Verdict): Status { if v.Good? then Succeeded else Failed }

  function RunStatusOf(v: Verdict): RunStatus { if v.Good? then Completed else RunFailed }

  function ResultJson(result: string): string { if result == "" then "null" else result }

  /** What a terminal write leaves in the row it hits. */
  function Outcome(t: Task, a: Attempt, callbacks: seq<Callback>): Task {
    match a
    case ByCallback(k) =>
      if k >= |callbacks| then t
      else
        var c := callbacks[k];
        t.(status := StatusOf(c.verdict), result := Some(ResultJson(c.result)), error := c.error)
    case ByTimeout(after) => t.(status := Timeout, error := TimeoutMessage(after))
    case ByReaper => t.(status := Expired)
  }

  /** The update of a task row, guarded by its status: only a queued or running one is changed. */
  function Write(st: State, t: nat, a: Attempt): State
    requires t < |st.tasks| == |st.attempts|
  {
    st.(tasks := if st.tasks[t].status.Active() then st.tasks[t := Outcome(st.tasks[t], a, st.callbacks)] else st.tasks,
        attempts := st.attempts[t := st.attempts[t] + [a]])
  }

  function SetPc(st: State, k: nat, pc: Pc, fault: bool): State
    requires k < |st.callbacks|
  {
    st.(callbacks := st.callbacks[k := st.callbacks[k].(pc := pc, faulted := st.callbacks[k].faulted || fault)])
  }

  function RunOf(st: State, c: Callback): Option<nat> {
    if c.task < |st.tasks| then st.tasks[c.task].run else None
  }

  /** `TaskCallback`, first statement: the guarded update of the task.  A task that is not there
      has no row to update. */
  function TaskUpdate(st: State, k: nat, fault: bool): State
    requires k < |st.callbacks| && |st.tasks| == |st.attempts|
  {
    var c := st.callbacks[k];
    if fault then SetPc(st, k, Aborted, true)
    else if c.task >= |st.tasks| then SetPc(st, k, AtLookup, true)
    else Write(SetPc(st, k, AtLookup, false), c.task, ByCallback(k))
  }

  /** Second: the look-up of the task's run.  An error counts as no run. */
  function RunLookup(st: State, k: nat, fault: bool): State
    requires k < |st.callbacks|
  {
    SetPc(st, k, if !fault && RunOf(st, st.callbacks[k]).Some? then AtRun else Finished, fault)
  }

  /** The run behind a callback has a row. */
  predicate HasRunRow(st: State, c: Callback) {
    RunOf(st, c).Some? && RunOf(st, c).value < |st.runs|
  }

  /** The unguarded update of a run row. */
  function WriteRunRow(st: State, r: nat, x: RunWrite, v: Verdict): State
    requires r < |st.runs| == |st.runWrites|
  {
    st.(runs := st.runs[r := st.runs[r].(status := RunStatusOf(v))],
        runWrites := st.runWrites[r := st.runWrites[r] + [x]])
  }

  /** Third: the update of the run.  An error is logged and passed over; a run that is not there is
      not updated. */
  function RunUpdate(st: State, k: nat, fault: bool): State
    requires k < |st.callbacks| && |st.runs| == |st.runWrites|
  {
    var c := st.callbacks[k];
    if fault || !HasRunRow(st, c) then SetPc(st, k, AtSession, true)
    else WriteRunRow(SetPc(st, k, AtSession, false), RunOf(st, c).value, FromCallback(k), c.verdict)
  }

  /** Fourth: the look-up of the run's session, without which the handling ends. */
  function SessionLookup(st: State, k: nat, fault: bool): State
    requires k < |st.callbacks|
  {
    var lost := fault || !HasRunRow(st, st.callbacks[k]);
    SetPc(st, k, if lost then Finished else AtMessage, lost)
  }

  /** Then the assistant message and the `result` event. */
  function StoreMessage(st: State, k: nat, fault: bool): State
    requires k < |st.callbacks|
  {
    if fault then SetPc(st, k, AtEvent, true)
    else SetPc(st, k, AtEvent, false).(messages := st.messages + [Note(SessionOf(st, st.callbacks[k]), k)])
  }

  function PublishEvent(st: State, k: nat): State
    requires k < |st.callbacks|
  {
    SetPc(st, k, Finished, false).(events := st.events + [Note(SessionOf(st, st.callbacks[k]), k)])
  }

  /** One statement of `TaskCallback`. */
  function StepCallback(st: State, k: nat, fault: bool): State
    requires k < |st.callbacks| && |st.tasks| == |st.attempts| && |st.runs| == |st.runWrites|
  {
    match st.callbacks[k].pc
    case AtTask => TaskUpdate(st, k, fault)
    case AtLookup => RunLookup(st, k, fault)
    case AtRun => RunUpdate(st, k, fault)
    case AtSession => SessionLookup(st, k, fault)
    case AtMessage => StoreMessage(st, k, fault)
    case AtEvent => PublishEvent(st, k)
    case _ => st
  }

  /** The session of the run behind a callback. */
  function SessionOf(st: State, c: Callback): string {
    if HasRunRow(st, c) then st.runs[RunOf(st, c).value].session else ""
  }

  /** One statement of the timeout watcher, once its timer has fired.  At the last one a fault
      stands for the absence of a bus. */
  function StepWatcher(st: State, w: nat, fault: bool): State
    requires w < |st.watchers| && |st.tasks| == |st.attempts|
    requires st.watchers[w].task < |st.tasks|
  {
    var x := st.watchers[w];
    var go := (pc: WatcherPc) => st.(watchers := st.watchers[w := x.(pc := pc)]);
    match x.pc
    case Sleeping =>
      if fault then go(Gone) else if st.tasks[x.task].status.Active() then go(Checked) else go(Done)
    case Checked => if fault then go(Gone) else Write(go(Marked), x.task, ByTimeout(x.after))
    case Marked =>
      if fault || st.tasks[x.task].session == "" then go(Done) else go(Done).(notices := st.notices + [w])
    case _ => st
  }

  /** The reaper's single statement over all rows. */
  function ReapAll(st: State, now: int, n: nat): State
    requires n <= |st.tasks| == |st.attempts|
    ensures |ReapAll(st, now, n).tasks| == |ReapAll(st, now, n).attempts| == |st.tasks|
  {
    if n == 0 then st
    else
      var before := ReapAll(st, now, n - 1);
      if before.tasks[n - 1].expires < now then Write(before, n - 1, ByReaper) else before
  }

  predicate Shaped(st: State) {
    && |st.attempts| == |st.tasks| && |st.runWrites| == |st.runs|
    && forall w :: 0 <= w < |st.watchers| ==> st.watchers[w].task < |st.tasks|
  }

  function Step(st: State, a: Action): State
    requires Shaped(st)
  {
    match a
    case StartRun(s) => st.(runs := st.runs + [RunRow(s, InProgress)], runWrites := st.runWrites + [[]])
    case Enqueue(s, run, expires, watch, outcome) =>
      if outcome.InsertLost? then st
      else
        var row := st.(tasks := st.tasks + [Task(Queued, None, "", run, s, expires)], attempts := st.attempts + [[]]);
        if outcome.IdLost? then row
        else row.(published := if outcome.announced then st.published + [|st.tasks|] else st.published,
                  watchers := if watch.Some? then st.watchers + [Watcher(|st.tasks|, watch.value, Sleeping)]
                    else st.watchers)
    case WriteRun(r, v) => if r < |st.runs| then WriteRunRow(st, r, FromHandler(v), v) else st
    case Deliver(t, v, result, error) =>
      st.(callbacks := st.callbacks + [Callback(t, v, result, error, AtTask, false)])
    case CallbackStep(k, fault) => if k < |st.callbacks| then StepCallback(st, k, fault) else st
    case WatcherStep(w, fault) => if w < |st.watchers| then StepWatcher(st, w, fault) else st
    case Reap(now) => ReapAll(st, now, |st.tasks|)
  }

  lemma {:induction false} ReapShape(st: State, now: int, n: nat)
    requires n <= |st.tasks| == |st.attempts|
    ensures var t := ReapAll(st, now, n);
            && t == st.(tasks := t.tasks, attempts := t.attempts)
            && |t.tasks| == |t.attempts| == |st.tasks|
            && forall i: nat :: i < |st.tasks| ==>
                 if i < n && st.tasks[i].expires < now
                 then t.tasks[i] == (if st.tasks[i].status.Active() then st.tasks[i].(status := Expired)
                   else st.tasks[i])
                      && t.attempts[i] == st.attempts[i] + [ByReaper]
                 else t.tasks[i] == st.tasks[i] && t.attempts[i] == st.attempts[i]
  {
    if n == 0 {
    } else {
      ReapShape(st, now, n - 1);
    }
  }

  lemma StepShape(st: State, a: Action)
    requires Shaped(st)
    ensures Shaped(Step(st, a))
  {
    match a {
      case CallbackStep(k, fault) => if k < |st.callbacks| { CallbackShape(st, k, fault); }
      case WatcherStep(w, fault) => if w < |st.watchers| { WatcherShape(st, w, fault); }
      case Reap(now) => ReapShape(st, now, |st.tasks|);
      case _ =>
    }
  }

  lemma CallbackShape(st: State, k: nat, fault: bool)
    requires Shaped(st) && k < |st.callbacks|
    ensures Shaped(StepCallback(st, k, fault))
  {
  }

  lemma WatcherShape(st: State, w: nat, fault: bool)
    requires Shaped(st) && w < |st.watchers|
    ensures Shaped(StepWatcher(st, w, fault))
  {
  }

  /** The state after a sequence of steps. */
  function Reach(actions: seq<Action>): (st: State)
    ensures Shaped(st)
  {
    if actions == [] then INIT
    else
      var before := Reach(actions[..|actions| - 1]);
      StepShape(before, actions[|actions| - 1]);
      Step(before, actions[|actions| - 1])
  }

  // ---- What never changes ----

  predicate SameCall(c: Callback, d: Callback) {
    c.task == d.task && c.verdict == d.verdict && c.result == d.result && c.error == d.error
  }

  predicate SameKeys(t: Task, u: Task) {
    t.run == u.run && t.session == u.session && t.expires == u.expires
  }

  /** Rows and callbacks are never deleted or renumbered, histories only grow, and a terminal
      task row is final. */
  predicate Extends(st: State, later: State)
    requires Shaped(st) && Shaped(later)
  {
    && |st.tasks| <= |later.tasks| && |st.runs| <= |later.runs| && |st.callbacks| <= |later.callbacks|
    && (forall t :: 0 <= t < |st.tasks| ==>
          SameKeys(st.tasks[t], later.tasks[t]) && (!st.tasks[t].status.Active() ==> later.tasks[t] == st.tasks[t]))
    && (forall t :: 0 <= t < |st.tasks| ==> st.attempts[t] <= later.attempts[t])
    && (forall r :: 0 <= r < |st.runs| ==>
          st.runs[r].session == later.runs[r].session && st.runWrites[r] <= later.runWrites[r])
    && (forall k :: 0 <= k < |st.callbacks| ==> SameCall(st.callbacks[k], later.callbacks[k]))
  }

  lemma WriteExtends(st: State, t: nat, a: Attempt)
    requires Shaped(st) && t < |st.tasks|
    ensures Shaped(Write(st, t, a)) && Extends(st, Write(st, t, a))
  {
  }

  lemma TaskUpdateExtends(st: State, k: nat, fault: bool)
    requires Shaped(st) && k < |st.callbacks|
    ensures Shaped(TaskUpdate(st, k, fault)) && Extends(st, TaskUpdate(st, k, fault))
  {
    var c := st.callbacks[k];
    if !fault && c.task < |st.tasks| {
      WriteExtends(SetPc(st, k, AtLookup, false), c.task, ByCallback(k));
    }
  }

  lemma RunUpdateExtends(st: State, k: nat, fault: bool)
    requires Shaped(st) && k < |st.callbacks|
    ensures Shaped(RunUpdate(st, k, fault)) && Extends(st, RunUpdate(st, k, fault))
  {
  }

  lemma CallbackExtends(st: State, k: nat, fault: bool)
    requires Shaped(st) && k < |st.callbacks|
    ensures Shaped(StepCallback(st, k, fault)) && Extends(st, StepCallback(st, k, fault))
  {
    match st.callbacks[k].pc {
      case AtTask => TaskUpdateExtends(st, k, fault);
      case AtRun => RunUpdateExtends(st, k, fault);
      case _ =>
    }
  }

  lemma WatcherExtends(st: State, w: nat, fault: bool)
    requires Shaped(st) && w < |st.watchers|
    ensures Shaped(StepWatcher(st, w, fault)) && Extends(st, StepWatcher(st, w, fault))
  {
    var x := st.watchers[w];
    if x.pc == Checked && !fault {
      WriteExtends(st.(watchers := st.watchers[w := x.(pc := Marked)]), x.task, ByTimeout(x.after));
    }
  }

  lemma EnqueueExtends(st: State, a: Action)
    requires Shaped(st) && a.Enqueue?
    ensures Shaped(Step(st, a)) && Extends(st, Step(st, a))
  {
  }

  lemma WriteRunRowExtends(st: State, r: nat, x: RunWrite, v: Verdict)
    requires Shaped(st) && r < |st.runs|
    ensures Shaped(WriteRunRow(st, r, x, v)) && Extends(st, WriteRunRow(st, r, x, v))
  {
  }

  lemma ReapExtends(st: State, now: int)
    requires Shaped(st)
    ensures Shaped(Step(st, Reap(now))) && Extends(st, Step(st, Reap(now)))
  {
    ReapShape(st, now, |st.tasks|);
  }

  lemma ArrivalExtends(st: State, a: Action)
    requires Shaped(st) && (a.StartRun? || a.Deliver?)
    ensures Shaped(Step(st, a)) && Extends(st, Step(st, a))
  {
  }

  lemma StandingStill(st: State)
    requires Shaped(st)
    ensures Extends(st, st)
  {
  }

  lemma StepExtends(st: State, a: Action)
    requires Shaped(st)
    ensures Shaped(Step(st, a)) && Extends(st, Step(st, a))
  {
    StandingStill(st);
    match a {
      case StartRun(_) => ArrivalExtends(st, a);
      case Enqueue(_, _, _, _, _) => EnqueueExtends(st, a);
      case WriteRun(r, v) => if r < |st.runs| { WriteRunRowExtends(st, r, FromHandler(v), v); }
      case Deliver(_, _, _, _) => ArrivalExtends(st, a);
      case CallbackStep(k, fault) => if k < |st.callbacks| { CallbackExtends(st, k, fault); }
      case WatcherStep(w, fault) => if w < |st.watchers| { WatcherExtends(st, w, fault); }
      case Reap(now) => ReapExtends(st, now);
    }
  }

  lemma ExtendsTrans(a: State, b: State, c: State)
    requires Shaped(a) && Shaped(b) && Shaped(c) && Extends(a, b) && Extends(b, c)
    ensures Extends(a, c)
  {
    forall k | 0 <= k < |a.callbacks| ensures SameCall(a.callbacks[k], c.callbacks[k]) {
      assert SameCall(b.callbacks[k], c.callbacks[k]);
    }
    forall t | 0 <= t < |a.tasks| ensures a.attempts[t] <= c.attempts[t] {
      assert b.attempts[t] <= c.attempts[t];
    }
    forall r | 0 <= r < |a.runs|
      ensures a.runs[r].session == c.runs[r].session && a.runWrites[r] <= c.runWrites[r]
    {
      assert b.runWrites[r] <= c.runWrites[r];
    }
  }

  /** Over every continuation of every run: a task that has left queued/running keeps its whole
      row for ever. */
  lemma {:induction false} TerminalIsFinal(past: seq<Action>, future: seq<Action>)
    ensures Extends(Reach(past), Reach(past + future))
  {
    if future == [] {
      assert past + future == past;
    } else {
      var n := |future| - 1;
      var mid, a := past + future[..n], future[n];
      TerminalIsFinal(past, future[..n]);
      assert past + future == mid + [a];
      ReachExtends(mid, a);
      ExtendsTrans(Reach(past), Reach(mid), Reach(mid + [a]));
    }
  }

  lemma ReachMore(actions: seq<Action>, a: Action)
    ensures Reach(actions + [a]) == Step(Reach(actions), a)
  {
    assert (actions + [a])[..|actions|] == actions;
  }

  lemma ReachExtends(actions: seq<Action>, a: Action)
    ensures Extends(Reach(actions), Reach(actions + [a]))
  {
    ReachMore(actions, a);
    StepExtends(Reach(actions), a);
  }

  // ---- The first terminal writer wins ----

  function Fresh(t: Task): Task { t.(status := Queued, result := None, error := "") }

  /** The row is the freshly queued one, changed by the first write aimed at it and no other. */
  predicate FirstWins(st: State, t: nat)
    requires Shaped(st) && t < |st.tasks|
  {
    if st.attempts[t] == [] then st.tasks[t] == Fresh(st.tasks[t])
    else
      && st.tasks[t] == Outcome(Fresh(st.tasks[t]), st.attempts[t][0], st.callbacks)
      && !st.tasks[t].status.Active()
  }

  /** A callback listed among the writes of a task is one for that task, past its first step. */
  predicate GoodAttempts(st: State, t: nat)
    requires Shaped(st) && t < |st.tasks|
  {
    forall i :: 0 <= i < |st.attempts[t]| && st.attempts[t][i].ByCallback? ==> Handled(st, st.attempts[t][i].k, t)
  }

  predicate Handled(st: State, k: nat, t: nat) {
    k < |st.callbacks| && st.callbacks[k].task == t && st.callbacks[k].pc != AtTask
  }

  predicate RowsInv(st: State)
    requires Shaped(st)
  {
    forall t: nat :: t < |st.tasks| ==> FirstWins(st, t) && GoodAttempts(st, t)
  }

  lemma WriteKeepsRows(st: State, t: nat, a: Attempt)
    requires Shaped(st) && RowsInv(st) && t < |st.tasks|
    requires a.ByCallback? ==> Handled(st, a.k, t)
    ensures RowsInv(Write(st, t, a))
  {
    assert FirstWins(st, t) && GoodAttempts(st, t);
    var next := Write(st, t, a);
    forall u: nat | u < |next.tasks| ensures FirstWins(next, u) && GoodAttempts(next, u) {
      assert FirstWins(st, u) && GoodAttempts(st, u);
    }
  }

  /** Moving a callback forward touches no row. */
  lemma SetPcKeepsRows(st: State, k: nat, pc: Pc, fault: bool)
    requires Shaped(st) && RowsInv(st) && k < |st.callbacks| && pc != AtTask
    ensures Shaped(SetPc(st, k, pc, fault)) && RowsInv(SetPc(st, k, pc, fault))
  {
    var next := SetPc(st, k, pc, fault);
    forall u: nat | u < |next.tasks| ensures FirstWins(next, u) && GoodAttempts(next, u) {
      assert FirstWins(st, u) && GoodAttempts(st, u);
    }
  }

  lemma StepKeepsRows(st: State, a: Action)
    requires Shaped(st) && RowsInv(st)
    ensures Shaped(Step(st, a)) && RowsInv(Step(st, a))
  {
    StepShape(st, a);
    match a {
      case CallbackStep(k, fault) => if k < |st.callbacks| { CallbackKeepsRows(st, k, fault); }
      case WatcherStep(w, fault) =>
        if w < |st.watchers| && st.watchers[w].pc == Checked && !fault {
          var moved := st.(watchers := st.watchers[w := st.watchers[w].(pc := Marked)]);
          assert forall u: nat :: u < |st.tasks| ==>
            FirstWins(st, u) == FirstWins(moved, u) && GoodAttempts(st, u) == GoodAttempts(moved, u);
          WriteKeepsRows(moved, st.watchers[w].task, ByTimeout(st.watchers[w].after));
        } else {
          SameTables(st, Step(st, a));
        }
      case Reap(now) => ReapKeepsRows(st, now);
      case Enqueue(_, _, _, _, _) => EnqueueKeepsRows(st, a);
      case WriteRun(_, _) => SameTables(st, Step(st, a));
      case Deliver(t, v, result, error) => DeliverKeepsRows(st, a);
      case StartRun(s) => SameTables(st, Step(st, a));
    }
  }

  lemma SameTables(st: State, next: State)
    requires Shaped(st) && Shaped(next) && RowsInv(st)
    requires st.tasks == next.tasks && st.attempts == next.attempts && st.callbacks == next.callbacks
    ensures RowsInv(next)
  {
    forall u: nat | u < |next.tasks| ensures FirstWins(next, u) && GoodAttempts(next, u) {
      assert FirstWins(st, u) && GoodAttempts(st, u);
    }
  }

  lemma CallbackKeepsRows(st: State, k: nat, fault: bool)
    requires Shaped(st) && RowsInv(st) && k < |st.callbacks|
    ensures Shaped(StepCallback(st, k, fault)) && RowsInv(StepCallback(st, k, fault))
  {
    CallbackExtends(st, k, fault);
    var c := st.callbacks[k];
    if c.pc == AtTask && !fault && c.task < |st.tasks| {
      SetPcKeepsRows(st, k, AtLookup, false);
      WriteKeepsRows(SetPc(st, k, AtLookup, false), c.task, ByCallback(k));
    } else if c.pc != Finished && c.pc != Aborted {
      LaterCallbackKeepsRows(st, k, fault);
    }
  }

  lemma LaterCallbackKeepsRows(st: State, k: nat, fault: bool)
    requires Shaped(st) && RowsInv(st) && k < |st.callbacks|
    requires !st.callbacks[k].pc.Finished? && !st.callbacks[k].pc.Aborted?
    requires st.callbacks[k].pc == AtTask ==> fault || st.callbacks[k].task >= |st.tasks|
    ensures Shaped(StepCallback(st, k, fault)) && RowsInv(StepCallback(st, k, fault))
  {
    CallbackExtends(st, k, fault);
    var next := StepCallback(st, k, fault);
    var d := next.callbacks[k];
    SetPcKeepsRows(st, k, d.pc, d.faulted);
    SameTables(SetPc(st, k, d.pc, d.faulted), next);
  }

  lemma ReapKeepsRows(st: State, now: int)
    requires Shaped(st) && RowsInv(st)
    ensures Shaped(Step(st, Reap(now))) && RowsInv(Step(st, Reap(now)))
  {
    ReapShape(st, now, |st.tasks|);
    var next := Step(st, Reap(now));
    forall u: nat | u < |next.tasks| ensures FirstWins(next, u) && GoodAttempts(next, u) {
      assert FirstWins(st, u) && GoodAttempts(st, u);
    }
  }

  lemma EnqueueKeepsRows(st: State, a: Action)
    requires Shaped(st) && RowsInv(st) && a.Enqueue?
    ensures Shaped(Step(st, a)) && RowsInv(Step(st, a))
  {
    var next := Step(st, a);
    forall u: nat | u < |next.tasks| ensures FirstWins(next, u) && GoodAttempts(next, u) {
      if u < |st.tasks| {
        assert FirstWins(st, u) && GoodAttempts(st, u);
      }
    }
  }

  lemma DeliverKeepsRows(st: State, a: Action)
    requires Shaped(st) && RowsInv(st) && a.Deliver?
    ensures Shaped(Step(st, a)) && RowsInv(Step(st, a))
  {
    var next := Step(st, a);
    forall u: nat | u < |next.tasks| ensures FirstWins(next, u) && GoodAttempts(next, u) {
      assert FirstWins(st, u) && GoodAttempts(st, u);
    }
  }

  lemma {:induction false} RowsAlways(actions: seq<Action>)
    ensures RowsInv(Reach(actions))
  {
    if actions == [] {
    } else {
      RowsAlways(actions[..|actions| - 1]);
      StepKeepsRows(Reach(actions[..|actions| - 1]), actions[|actions| - 1]);
    }
  }
}
