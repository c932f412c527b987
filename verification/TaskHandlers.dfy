/** The handlers behind the steps of the task protocol, as they run when nothing interrupts
    them: `EnqueueTask`, the timeout watcher and the reaper (`internal/async/task.go`) and
    `TaskCallback` (`internal/grpcserver/server.go`). */
module TaskHandlers {
  import opened Collections
  import opened TaskProtocol

  /** How many statements a callback has before it at most. */
  function Left(pc: Pc): nat {
    match pc
    case AtTask => 6
    case AtLookup => 5
    case AtRun => 4
    case AtSession => 3
    case AtMessage => 2
    case AtEvent => 1
    case _ => 0
  }

  lemma CallbackMoves(st: State, k: nat, fault: bool)
    requires Shaped(st) && k < |st.callbacks|
    ensures var next := StepCallback(st, k, fault);
            && Shaped(next) && |next.callbacks| == |st.callbacks|
            && (Left(st.callbacks[k].pc) > 0 ==> Left(next.callbacks[k].pc) < Left(st.callbacks[k].pc))
  {
    CallbackExtends(st, k, fault);
  }

  /** The remaining steps of callback k, one after the other; statement number i fails when
      faults(i). */
  function Finish(st: State, k: nat, faults: nat -> bool, i: nat): (r: State)
    requires Shaped(st) && k < |st.callbacks|
    ensures Shaped(r) && |r.callbacks| == |st.callbacks|
    decreases Left(st.callbacks[k].pc)
  {
    if Left(st.callbacks[k].pc) == 0 then st
    else
      CallbackMoves(st, k, faults(i));
      Finish(StepCallback(st, k, faults(i)), k, faults, i + 1)
  }

  lemma FinishStep(st: State, k: nat, faults: nat -> bool, i: nat, next: State)
    requires Shaped(st) && k < |st.callbacks| && Left(st.callbacks[k].pc) > 0
    requires next == StepCallback(st, k, faults(i))
    ensures Shaped(next) && k < |next.callbacks| && Left(next.callbacks[k].pc) < Left(st.callbacks[k].pc)
    ensures Finish(st, k, faults, i) == Finish(next, k, faults, i + 1)
  {
    CallbackMoves(st, k, faults(i));
  }

  lemma FinishEnds(st: State, k: nat, faults: nat -> bool, i: nat)
    requires Shaped(st) && k < |st.callbacks| && Left(st.callbacks[k].pc) == 0
    ensures Finish(st, k, faults, i) == st
  {
  }

  /** Some interleaving of steps leads to this state. */
  ghost predicate Reachable(st: State) {
    exists actions :: st == Reach(actions)
  }

  lemma StepIsReachable(st: State, a: Action)
    requires Shaped(st) && Reachable(st)
    ensures Reachable(Step(st, a))
  {
    var actions :| st == Reach(actions);
    ReachMore(actions, a);
  }

  /** A handler that is not interrupted makes a run of the protocol like any other, so all that
      holds of every reachable state holds after it. */
  lemma {:induction false} FinishIsReachable(st: State, k: nat, faults: nat -> bool, i: nat)
    requires Shaped(st) && Reachable(st) && k < |st.callbacks|
    ensures Reachable(Finish(st, k, faults, i))
    decreases Left(st.callbacks[k].pc)
  {
    if Left(st.callbacks[k].pc) == 0 {
      FinishEnds(st, k, faults, i);
    } else {
      var next := StepCallback(st, k, faults(i));
      StepIsReachable(st, CallbackStep(k, faults(i)));
      FinishStep(st, k, faults, i, next);
      FinishIsReachable(next, k, faults, i + 1);
    }
  }

  /** The steps of a watcher whose timer has fired; without a bus there is no notice. */
  function Watch(st: State, w: nat, faults: nat -> bool, bus: bool): (r: State)
    requires Shaped(st) && w < |st.watchers|
    ensures Shaped(r)
  {
    WatcherExtends(st, w, faults(0));
    var s1 := StepWatcher(st, w, faults(0));
    WatcherExtends(s1, w, faults(1));
    var s2 := StepWatcher(s1, w, faults(1));
    WatcherExtends(s2, w, !bus);
    StepWatcher(s2, w, !bus)
  }

  class Hub {
    var st: State

    constructor ()
      ensures st == INIT && Shaped(st)
    {
      st := INIT;
    }

    /** `EnqueueTask`; the row's key is a fresh id.  A failed announcement is logged and passed over. */
    method EnqueueTask(session: string, run: Option<nat>, expires: int, timeout: Option<string>, outcome: Enqueued)
      returns (id: Option<nat>)
      requires Shaped(st)
      modifies this
      ensures Shaped(st)
      ensures st == Step(old(st), Enqueue(session, run, expires, timeout, outcome))
      ensures id == if outcome.Inserted? then Some(|old(st).tasks|) else None
    {
      if outcome.InsertLost? {
        return None;
      }
      var t := |st.tasks|;
      st := st.(tasks := st.tasks + [Task(Queued, None, "", run, session, expires)], attempts := st.attempts + [[]]);
      if outcome.IdLost? {
        return None;
      }
      if outcome.announced {
        st := st.(published := st.published + [t]);
      }
      if timeout.Some? {
        st := st.(watchers := st.watchers + [Watcher(t, timeout.value, Sleeping)]);
      }
      return Some(t);
    }

    /** The update of a run by the handler of a message: `publishSyncResult` with a good verdict,
        `finishRunFailed` with a bad one. */
    method FinishRun(run: nat, verdict: Verdict)
      requires Shaped(st)
      modifies this
      ensures Shaped(st) && st == Step(old(st), Action.WriteRun(run, verdict))
    {
      if run < |st.runs| {
        var status := if verdict.Bad? then RunFailed else Completed;
        st := st.(runs := st.runs[run := st.runs[run].(status := status)],
                  runWrites := st.runWrites[run := st.runWrites[run] + [FromHandler(verdict)]]);
      }
    }

    /** The guarded update of a task row. */
    method UpdateTask(t: nat, a: Attempt)
      requires Shaped(st) && t < |st.tasks|
      modifies this
      ensures Shaped(st) && st == Write(old(st), t, a)
    {
      var row := st.tasks[t];
      if row.status.Queued? || row.status.Running? {
        st := st.(tasks := st.tasks[t := Outcome(row, a, st.callbacks)]);
      }
      st := st.(attempts := st.attempts[t := st.attempts[t] + [a]]);
    }

    /** Callback k goes on to its next statement. */
    method Advance(k: nat, pc: Pc, fault: bool)
      requires Shaped(st) && k < |st.callbacks|
      modifies this
      ensures Shaped(st) && st == SetPc(old(st), k, pc, fault)
    {
      var c := st.callbacks[k];
      st := st.(callbacks := st.callbacks[k := c.(pc := pc, faulted := c.faulted || fault)]);
    }

    /** The statement `UPDATE async_tasks` of a callback. */
    method WriteOutcome(k: nat, fault: bool) returns (ok: bool)
      requires Shaped(st) && k < |st.callbacks| && st.callbacks[k].pc == AtTask
      modifies this
      ensures Shaped(st) && st == StepCallback(old(st), k, fault)
      ensures ok <==> !fault
    {
      if fault {
        Advance(k, Aborted, true);
        return false;
      }
      var task := st.callbacks[k].task;
      Advance(k, AtLookup, task >= |st.tasks|);
      if task < |st.tasks| {
        UpdateTask(task, ByCallback(k));
      }
      return true;
    }

    /** The statement `SELECT run_id`. */
    method FindRun(k: nat, fault: bool) returns (run: Option<nat>)
      requires Shaped(st) && k < |st.callbacks| && st.callbacks[k].pc == AtLookup
      modifies this
      ensures Shaped(st) && st == StepCallback(old(st), k, fault)
      ensures run == if fault then None else RunOf(old(st), old(st).callbacks[k])
    {
      var task := st.callbacks[k].task;
      run := if task < |st.tasks| && !fault then st.tasks[task].run else None;
      Advance(k, if run.None? then Finished else AtRun, fault);
    }

    /** The statement `UPDATE runs`. */
    method UpdateRun(k: nat, run: nat, fault: bool)
      requires Shaped(st) && k < |st.callbacks| && st.callbacks[k].pc == AtRun &&
        RunOf(st, st.callbacks[k]) == Some(run)
      modifies this
      ensures Shaped(st) && st == StepCallback(old(st), k, fault)
    {
      var done := !fault && run < |st.runs|;
      Advance(k, AtSession, !done);
      if done {
        var status := if st.callbacks[k].verdict.Bad? then RunFailed else Completed;
        st := st.(runs := st.runs[run := st.runs[run].(status := status)],
                  runWrites := st.runWrites[run := st.runWrites[run] + [FromCallback(k)]]);
      }
    }

    /** The statement `SELECT session_id`. */
    method FindSession(k: nat, run: nat, fault: bool) returns (sid: Option<string>)
      requires Shaped(st) && k < |st.callbacks| && st.callbacks[k].pc == AtSession &&
        RunOf(st, st.callbacks[k]) == Some(run)
      modifies this
      ensures Shaped(st) && st == StepCallback(old(st), k, fault)
      ensures sid == if fault || run >= |old(st).runs| then None else Some(SessionOf(st, st.callbacks[k]))
    {
      sid := if fault || run >= |st.runs| then None else Some(st.runs[run].session);
      Advance(k, if sid.None? then Finished else AtMessage, sid.None?);
    }

    /** The statement `INSERT INTO messages`. */
    method SaveMessage(k: nat, sid: string, fault: bool)
      requires Shaped(st) && k < |st.callbacks| && st.callbacks[k].pc == AtMessage &&
        sid == SessionOf(st, st.callbacks[k])
      modifies this
      ensures Shaped(st) && st == StepCallback(old(st), k, fault)
    {
      if !fault {
        st := st.(messages := st.messages + [Note(sid, k)]);
      }
      Advance(k, AtEvent, fault);
    }

    method PublishResult(k: nat, sid: string)
      requires Shaped(st) && k < |st.callbacks| && st.callbacks[k].pc == AtEvent &&
        sid == SessionOf(st, st.callbacks[k])
      modifies this
      ensures Shaped(st) && st == StepCallback(old(st), k, false)
    {
      st := st.(events := st.events + [Note(sid, k)]);
      Advance(k, Finished, false);
    }

    /** The part of `TaskCallback` after the run is updated. */
    method Announce(k: nat, run: nat, faults: nat -> bool)
      requires Shaped(st) && k < |st.callbacks| && st.callbacks[k].pc == AtSession &&
        RunOf(st, st.callbacks[k]) == Some(run)
      modifies this
      ensures Shaped(st) && st == Finish(old(st), k, faults, 3)
    {
      ghost var s3 := st;
      var sid := FindSession(k, run, faults(3));
      FinishStep(s3, k, faults, 3, st);
      if sid.None? {
        return;
      }
      ghost var s4 := st;
      SaveMessage(k, sid.value, faults(4));
      FinishStep(s4, k, faults, 4, st);
      ghost var s5 := st;
      PublishResult(k, sid.value);
      FinishStep(s5, k, faults, 5, st);
    }

    /** The part after the run is known. */
    method RecordRun(k: nat, run: nat, faults: nat -> bool)
      requires Shaped(st) && k < |st.callbacks| && st.callbacks[k].pc == AtRun &&
        RunOf(st, st.callbacks[k]) == Some(run)
      modifies this
      ensures Shaped(st) && st == Finish(old(st), k, faults, 2)
    {
      ghost var s2 := st;
      UpdateRun(k, run, faults(2));
      FinishStep(s2, k, faults, 2, st);
      Announce(k, run, faults);
    }

    /** `TaskCallback`, for a status that is succeeded or failed. */
    method TaskCallback(task: nat, verdict: Verdict, result: string, error: string, faults: nat -> bool)
      returns (ok: bool)
      requires Shaped(st)
      modifies this
      ensures Shaped(st)
      ensures st == Finish(Step(old(st), Deliver(task, verdict, result, error)), old(|st.callbacks|), faults, 0)
      ensures ok <==> !faults(0)
    {
      var k := |st.callbacks|;
      st := st.(callbacks := st.callbacks + [Callback(task, verdict, result, error, AtTask, false)]);
      ghost var s0 := st;
      ok := WriteOutcome(k, faults(0));
      FinishStep(s0, k, faults, 0, st);
      if !ok {
        return;
      }
      ghost var s1 := st;
      var run := FindRun(k, faults(1));
      FinishStep(s1, k, faults, 1, st);
      if run.None? {
        return;
      }
      RecordRun(k, run.value, faults);
    }

    /** The timeout watcher, from the firing of its timer: a read, an update, a notice. */
    method TimeoutWatcher(w: nat, faults: nat -> bool, bus: bool)
      requires Shaped(st) && w < |st.watchers| && st.watchers[w].pc == Sleeping
      modifies this
      ensures Shaped(st) && st == Watch(old(st), w, faults, bus)
    {
      var x := st.watchers[w];
      if faults(0) {
        st := st.(watchers := st.watchers[w := x.(pc := Gone)]);
        return;
      }
      var status := st.tasks[x.task].status;
      if !status.Queued? && !status.Running? {
        st := st.(watchers := st.watchers[w := x.(pc := Done)]);
        return;
      }
      if faults(1) {
        st := st.(watchers := st.watchers[w := x.(pc := Gone)]);
        return;
      }
      st := st.(watchers := st.watchers[w := x.(pc := Marked)]);
      UpdateTask(x.task, ByTimeout(x.after));
      st := st.(watchers := st.watchers[w := x.(pc := Done)]);
      if bus && st.tasks[x.task].session != "" {
        st := st.(notices := st.notices + [w]);
      }
    }

    /** One tick of the reaper. */
    method ReapExpired(now: int)
      requires Shaped(st)
      modifies this
      ensures Shaped(st) && st == Step(old(st), Reap(now))
    {
      for t := 0 to |st.tasks|
        invariant Shaped(st) && |st.tasks| == old(|st.tasks|)
        invariant st == ReapAll(old(st), now, t)
      {
        ReapShape(old(st), now, t);
        if st.tasks[t].expires < now {
          UpdateTask(t, ByReaper);
        }
      }
    }
  }
}
