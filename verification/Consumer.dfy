/** The worker's side of a task (`services/ai/orchestrator/consumer.py`): which callbacks one
    message makes it send, and what they do to the task and its run. */
module Consumer {
  import opened Collections
  import opened TaskProtocol
  import opened TaskAgreement
  import opened TaskHandlers
  import opened TaskOutcomes

  /** What happens while a message is processed.  An RPC error inside a callback is swallowed by
      the client, so a callback never raises; everything else may. */
  datatype Env = Env(
    parsed: bool,         // the message is well-formed JSON
    taskId: string,
    workflowOk: bool,     // the pipeline finished within its time limit
    clientOk: bool,       // a client could be obtained for the success callback
    ackOk: bool,
    retryClientOk: bool)  // and another for the failure callback

  /** `process_message`: the callbacks sent, in order, and whether the message was acknowledged. */
  method ProcessMessage(env: Env) returns (sends: seq<Verdict>, acked: bool)
    ensures Good in sends <==> env.parsed && env.workflowOk && env.clientOk
    ensures acked <==> Good in sends && env.ackOk
    ensures Bad in sends <==> !acked && env.parsed && env.taskId != "" && env.retryClientOk
    ensures sends == [] || sends == [Good] || sends == [Bad] || sends == [Good, Bad]
    ensures acked ==> sends == [Good]
    ensures sends == [Good, Bad] ==> !env.ackOk
  {
    sends, acked := [], false;
    var taskId := "";
    var raised := !env.parsed;
    if !raised {
      taskId := env.taskId;
      raised := !env.workflowOk || !env.clientOk;
      if !raised {
        sends := sends + [Good];
        acked := env.ackOk;
        raised := !acked;
      }
    }
    if raised && taskId != "" && env.retryClientOk {
      sends := sends + [Bad];
    }
  }

  // ---- Handling callbacks one after the other ----

  const NO_FAULTS: nat -> bool := (i: nat) => false

  /** Callback v for task t, delivered as number |st.callbacks| and handled without a fault. */
  function Handle(st: State, t: nat, v: Verdict, result: string, error: string): (next: State)
    requires Shaped(st)
    ensures Shaped(next)
  {
    StepShape(st, Deliver(t, v, result, error));
    Finish(Step(st, Deliver(t, v, result, error)), |st.callbacks|, NO_FAULTS, 0)
  }

  /** The last three statements: nothing but a message and an event. */
  lemma TailEffect(st: State, k: nat)
    requires Shaped(st) && k < |st.callbacks| && st.callbacks[k].pc == AtSession && HasRunRow(st, st.callbacks[k])
    ensures var next := Finish(st, k, NO_FAULTS, 3);
            && next.tasks == st.tasks && next.runs == st.runs
            && next.messages == st.messages + [Note(SessionOf(st, st.callbacks[k]), k)]
            && next.events == st.events + [Note(SessionOf(st, st.callbacks[k]), k)]
  {
    var s4 := StepCallback(st, k, false);
    FinishStep(st, k, NO_FAULTS, 3, s4);
    var s5 := StepCallback(s4, k, false);
    FinishStep(s4, k, NO_FAULTS, 4, s5);
    var s6 := StepCallback(s5, k, false);
    FinishStep(s5, k, NO_FAULTS, 5, s6);
    FinishEnds(s6, k, NO_FAULTS, 6);
  }

  /** The update of the run, and what follows. */
  lemma RunEffect(st: State, k: nat, r: nat)
    requires Shaped(st) && k < |st.callbacks| && st.callbacks[k].pc == AtRun
    requires RunOf(st, st.callbacks[k]) == Some(r) && r < |st.runs|
    ensures var next := Finish(st, k, NO_FAULTS, 2);
            && next.tasks == st.tasks && |next.runs| == |st.runs|
            && next.runs[r].status == RunStatusOf(st.callbacks[k].verdict)
            && next.messages == st.messages + [Note(st.runs[r].session, k)]
            && next.events == st.events + [Note(st.runs[r].session, k)]
  {
    var s3 := StepCallback(st, k, false);
    FinishStep(st, k, NO_FAULTS, 2, s3);
    TailEffect(s3, k);
  }

  /** All six: the task takes the verdict if it is active, the run takes it in any case. */
  lemma HeadEffect(st: State, k: nat, t: nat, r: nat)
    requires Shaped(st) && k < |st.callbacks| && st.callbacks[k].pc == AtTask && st.callbacks[k].task == t
    requires t < |st.tasks| && st.tasks[t].run == Some(r) && r < |st.runs|
    ensures var c := st.callbacks[k];
            var next := Finish(st, k, NO_FAULTS, 0);
            && |next.tasks| == |st.tasks| && |next.runs| == |st.runs|
            && (if st.tasks[t].status.Active() then ShowsCallback(st.tasks[t], next.tasks[t], c)
                else next.tasks[t] == st.tasks[t])
            && next.runs[r].status == RunStatusOf(c.verdict)
            && next.messages == st.messages + [Note(st.runs[r].session, k)]
            && next.events == st.events + [Note(st.runs[r].session, k)]
  {
    var s1 := StepCallback(st, k, false);
    FinishStep(st, k, NO_FAULTS, 0, s1);
    var s2 := StepCallback(s1, k, false);
    FinishStep(s1, k, NO_FAULTS, 1, s2);
    RunEffect(s2, k, r);
  }

  /** A task that is still queued or running takes the verdict, the result ("null" for none) and the
      message, any other stays as it is; the run takes the verdict in any case; and one message and one
      event go to the run's session. */
  lemma HandleEffect(st: State, t: nat, v: Verdict, result: string, error: string, r: nat)
    requires Shaped(st) && t < |st.tasks| && st.tasks[t].run == Some(r) && r < |st.runs|
    ensures var next, row, k := Handle(st, t, v, result, error), st.tasks[t], |st.callbacks|;
            && |next.tasks| == |st.tasks| && |next.runs| == |st.runs|
            && (row.status == Queued || row.status == Running ==>
                  && next.tasks[t].status == (if v.Good? then Succeeded else Failed)
                  && next.tasks[t].result == Some(if result == "" then "null" else result)
                  && next.tasks[t].error == error && SameKeys(next.tasks[t], row))
            && (row.status != Queued && row.status != Running ==> next.tasks[t] == row)
            && next.runs[r].status == (if v.Good? then Completed else RunFailed)
            && next.messages == st.messages + [Note(st.runs[r].session, k)]
            && next.events == st.events + [Note(st.runs[r].session, k)]
  {
    StepShape(st, Deliver(t, v, result, error));
    HeadEffect(Step(st, Deliver(t, v, result, error)), |st.callbacks|, t, r);
  }

  /** Handled one after the other, a success callback and the failure callback that follows it
      when the acknowledgement raises always leave an active task succeeded and its run failed. */
  lemma FailedAckSplitsTaskAndRun(st: State, t: nat, result: string, error: string, r: nat)
    requires Shaped(st) && t < |st.tasks| && st.tasks[t].run == Some(r) && r < |st.runs|
    requires st.tasks[t].status.Active()
    ensures var last := Handle(Handle(st, t, Good, result, ""), t, Bad, "", error);
            && |last.tasks| == |st.tasks| && |last.runs| == |st.runs|
            && last.tasks[t].status == Succeeded && last.runs[r].status == RunFailed
            && last.tasks[t].result == Some(if result == "" then "null" else result) && last.tasks[t].error == ""
            && !Agree(last.tasks[t], last.runs[r])
            && |last.messages| == |st.messages| + 2 && |last.events| == |st.events| + 2
  {
    HandleEffect(st, t, Good, result, "", r);
    HandleEffect(Handle(st, t, Good, result, ""), t, Bad, "", error, r);
  }
}
