/** What the task protocol means for runs, messages, events and watchers, and when a task and
    its run tell the same story. */
module TaskAgreement {
  import opened Collections
  import opened TaskProtocol

  // ---- Runs record their last writer ----

  /** The callback has passed its run update. */
  predicate PastRun(c: Callback) { c.pc in {AtSession, AtMessage, AtEvent, Finished} }

  predicate WroteRun(st: State, k: nat, r: nat) {
    k < |st.callbacks| && PastRun(st.callbacks[k]) && RunOf(st, st.callbacks[k]) == Some(r)
  }

  /** The verdict a run update brought. */
  function Brought(st: State, x: RunWrite): Verdict {
    match x
    case FromHandler(v) => v
    case FromCallback(k) => if k < |st.callbacks| then st.callbacks[k].verdict else Good
  }

  predicate GenuineWrite(st: State, x: RunWrite, r: nat) {
    x.FromCallback? ==> WroteRun(st, x.k, r)
  }

  /** A run shows the verdict of its last update. */
  predicate LastWins(st: State, r: nat)
    requires Shaped(st) && r < |st.runs|
  {
    var xs := st.runWrites[r];
    && (forall i :: 0 <= i < |xs| ==> GenuineWrite(st, xs[i], r))
    && st.runs[r].status == if xs == [] then InProgress else RunStatusOf(Brought(st, xs[|xs| - 1]))
  }

  predicate RunsInv(st: State)
    requires Shaped(st)
  {
    forall r: nat :: r < |st.runs| ==> LastWins(st, r)
  }

  /** Callbacks never step back before their run update. */
  predicate Forward(st: State, next: State) {
    |st.callbacks| <= |next.callbacks|
    && forall k :: 0 <= k < |st.callbacks| && PastRun(st.callbacks[k]) ==> PastRun(next.callbacks[k])
  }

  lemma CallbackForward(st: State, k: nat, fault: bool)
    requires Shaped(st) && k < |st.callbacks|
    ensures Forward(st, StepCallback(st, k, fault))
  {
  }

  lemma StepForward(st: State, a: Action)
    requires Shaped(st)
    ensures Forward(st, Step(st, a))
  {
    match a {
      case CallbackStep(k, fault) => if k < |st.callbacks| { CallbackForward(st, k, fault); }
      case Reap(now) => ReapShape(st, now, |st.tasks|);
      case _ =>
    }
  }

  lemma WriteStays(st: State, next: State, x: RunWrite, r: nat)
    requires Shaped(st) && Shaped(next) && Extends(st, next) && Forward(st, next) && GenuineWrite(st, x, r)
    ensures GenuineWrite(next, x, r) && Brought(next, x) == Brought(st, x)
  {
    if x.FromCallback? {
      assert SameCall(st.callbacks[x.k], next.callbacks[x.k]);
    }
  }

  lemma RunKept(st: State, next: State, r: nat)
    requires Shaped(st) && Shaped(next) && Extends(st, next) && Forward(st, next)
    requires r < |st.runs| && LastWins(st, r)
    requires next.runs[r] == st.runs[r] && next.runWrites[r] == st.runWrites[r]
    ensures LastWins(next, r)
  {
    var xs := st.runWrites[r];
    forall i | 0 <= i < |xs| ensures GenuineWrite(next, xs[i], r) && Brought(next, xs[i]) == Brought(st, xs[i]) {
      assert GenuineWrite(st, xs[i], r);
      WriteStays(st, next, xs[i], r);
    }
  }

  lemma StepKeepsRuns(st: State, a: Action)
    requires Shaped(st) && RunsInv(st)
    ensures Shaped(Step(st, a)) && RunsInv(Step(st, a))
  {
    StepExtends(st, a);
    StepForward(st, a);
    if a.CallbackStep? && a.k < |st.callbacks| && st.callbacks[a.k].pc == AtRun {
      RunUpdateKeepsRuns(st, a.k, a.fault);
    } else if a.WriteRun? {
      if a.r < |st.runs| {
        WriteRunRowKeeps(st, a.r, FromHandler(a.verdict), a.verdict);
      }
    } else {
      RunsUntouched(st, a);
      OtherRunsKept(st, Step(st, a));
    }
  }

  lemma OtherRunsKept(st: State, next: State)
    requires Shaped(st) && Shaped(next) && Extends(st, next) && Forward(st, next) && RunsInv(st)
    requires forall r: nat :: r < |next.runs| ==>
      if r < |st.runs| then next.runs[r] == st.runs[r] && next.runWrites[r] == st.runWrites[r]
      else next.runs[r].status == InProgress && next.runWrites[r] == []
    ensures RunsInv(next)
  {
    forall r: nat | r < |next.runs| ensures LastWins(next, r) {
      if r < |st.runs| {
        assert LastWins(st, r);
        RunKept(st, next, r);
      }
    }
  }

  lemma RunsUntouched(st: State, a: Action)
    requires Shaped(st) && !a.WriteRun? && !(a.CallbackStep? && a.k < |st.callbacks| && st.callbacks[a.k].pc == AtRun)
    ensures var next := Step(st, a);
            if a.StartRun? then next.runs == st.runs + [RunRow(a.session, InProgress)] &&
              next.runWrites == st.runWrites + [[]]
            else next.runs == st.runs && next.runWrites == st.runWrites
  {
    if a.Reap? {
      ReapShape(st, a.now, |st.tasks|);
    }
  }

  /** One more update of one run. */
  lemma WriteRunRowKeeps(st: State, r: nat, x: RunWrite, v: Verdict)
    requires Shaped(st) && RunsInv(st) && r < |st.runs| && GenuineWrite(st, x, r) && Brought(st, x) == v
    ensures Shaped(WriteRunRow(st, r, x, v)) && RunsInv(WriteRunRow(st, r, x, v))
  {
    var next := WriteRunRow(st, r, x, v);
    forall q: nat | q < |next.runs| ensures LastWins(next, q) {
      assert LastWins(st, q);
      assert forall y :: GenuineWrite(st, y, q) ==> GenuineWrite(next, y, q);
    }
  }

  lemma RunUpdateKeepsRuns(st: State, k: nat, fault: bool)
    requires Shaped(st) && RunsInv(st) && k < |st.callbacks| && st.callbacks[k].pc == AtRun
    ensures Shaped(RunUpdate(st, k, fault)) && RunsInv(RunUpdate(st, k, fault))
  {
    var c := st.callbacks[k];
    var lost := fault || !HasRunRow(st, c);
    var moved := SetPc(st, k, AtSession, lost);
    OtherRunsKept(st, moved);
    if !lost {
      WriteRunRowKeeps(moved, RunOf(st, c).value, FromCallback(k), c.verdict);
    }
  }

  lemma {:induction false} RunsAlways(actions: seq<Action>)
    ensures RunsInv(Reach(actions))
  {
    if actions == [] {
    } else {
      RunsAlways(actions[..|actions| - 1]);
      StepKeepsRuns(Reach(actions[..|actions| - 1]), actions[|actions| - 1]);
    }
  }

  // ---- When task and run agree ----

  /** The run shows what the task shows. */
  predicate Agree(task: Task, run: RunRow) {
    (task.status.Succeeded? && run.status.Completed?) || (task.status.Failed? && run.status.RunFailed?)
  }

  /** Exactly when a task and a run agree, in any reachable state: the first write aimed at the task
      came from a callback, and the last update of the run brought the same verdict. */
  lemma AgreementIsFirstEqualsLast(actions: seq<Action>, t: nat, r: nat)
    requires t < |Reach(actions).tasks| && r < |Reach(actions).runs|
    ensures var st := Reach(actions);
            var first, last := st.attempts[t], st.runWrites[r];
            Agree(st.tasks[t], st.runs[r]) <==>
              && first != [] && first[0].ByCallback? && first[0].k < |st.callbacks| && last != []
              && st.callbacks[first[0].k].verdict == Brought(st, last[|last| - 1])
  {
    RowsAlways(actions);
    RunsAlways(actions);
    var st := Reach(actions);
    assert FirstWins(st, t) && GoodAttempts(st, t) && LastWins(st, r);
    var first := st.attempts[t];
    if first != [] && first[0].ByCallback? {
      assert Handled(st, first[0].k, t);
    }
  }

  predicate OnlyTaskOn(st: State, t: nat, r: nat) {
    forall u: nat :: u < |st.tasks| && st.tasks[u].run == Some(r) ==> u == t
  }

  predicate AtMostOneCallback(st: State, t: nat) {
    forall k, l :: 0 <= k < l < |st.callbacks| ==> st.callbacks[k].task != t || st.callbacks[l].task != t
  }

  /** The callbacks of a run's writers are callbacks of its only task. */
  lemma OneCallback(st: State, t: nat, r: nat, k: nat, l: nat)
    requires OnlyTaskOn(st, t, r) && AtMostOneCallback(st, t)
    requires Handled(st, k, t) && WroteRun(st, l, r)
    ensures k == l
  {
    assert st.tasks[st.callbacks[l].task].run == Some(r);
    assert st.callbacks[k].task == t && st.callbacks[l].task == t;
  }

  /** With one task on the run, at most one callback for it, that callback ahead of timeout and
      expiry and past its run update, and no update by the handler that started the run, task and
      run agree. */
  lemma SingleCallbackAgrees(actions: seq<Action>, t: nat, r: nat)
    requires t < |Reach(actions).tasks| && r < |Reach(actions).runs|
    requires var st := Reach(actions);
             && OnlyTaskOn(st, t, r) && AtMostOneCallback(st, t)
             && st.attempts[t] != [] && st.attempts[t][0].ByCallback?
             && st.runWrites[r] != [] && forall i :: 0 <= i < |st.runWrites[r]| ==> st.runWrites[r][i].FromCallback?
    ensures Agree(Reach(actions).tasks[t], Reach(actions).runs[r])
  {
    var st := Reach(actions);
    RowsAlways(actions);
    RunsAlways(actions);
    AgreementIsFirstEqualsLast(actions, t, r);
    OneWriterAgrees(st, t, r);
  }

  lemma OneWriterAgrees(st: State, t: nat, r: nat)
    requires Shaped(st) && RowsInv(st) && RunsInv(st) && t < |st.tasks| && r < |st.runs|
    requires OnlyTaskOn(st, t, r) && AtMostOneCallback(st, t)
    requires st.attempts[t] != [] && st.attempts[t][0].ByCallback?
    requires st.runWrites[r] != [] && forall i :: 0 <= i < |st.runWrites[r]| ==> st.runWrites[r][i].FromCallback?
    ensures var last := st.runWrites[r];
            st.attempts[t][0].k < |st.callbacks| &&
              st.callbacks[st.attempts[t][0].k].verdict == Brought(st, last[|last| - 1])
  {
    assert GoodAttempts(st, t) && LastWins(st, r);
    var k, last := st.attempts[t][0].k, st.runWrites[r][|st.runWrites[r]| - 1];
    assert Handled(st, k, t);
    assert GenuineWrite(st, last, r);
    OneCallback(st, t, r, k, last.k);
  }

  /** A task whose id is lost after its insert keeps its row, while the handler gives its run up: from
      then on, and until something else happens to the run, the two disagree. */
  lemma LostIdSplitsTaskAndRun(actions: seq<Action>, session: string, r: nat, expires: int, watch: Option<string>)
    requires r < |Reach(actions).runs|
    ensures var st := Reach(actions + [Enqueue(session, Some(r), expires, watch, IdLost)] + [WriteRun(r, Bad)]);
            var t := |Reach(actions).tasks|;
            && |st.tasks| == t + 1 && r < |st.runs|
            && st.tasks[t].run == Some(r) && st.tasks[t].status == Queued && st.runs[r].status == RunFailed
            && !Agree(st.tasks[t], st.runs[r])
  {
    var enqueue := Enqueue(session, Some(r), expires, watch, IdLost);
    ReachMore(actions, enqueue);
    ReachMore(actions + [enqueue], WriteRun(r, Bad));
  }

  // ---- One message and one event for every handled callback ----

  function CountFrom(notes: seq<Note>, k: nat): nat {
    if notes == [] then 0
    else CountFrom(notes[..|notes| - 1], k) + (if notes[|notes| - 1].from == k then 1 else 0)
  }

  lemma CountMore(notes: seq<Note>, n: Note, k: nat)
    ensures CountFrom(notes + [n], k) == CountFrom(notes, k) + (if n.from == k then 1 else 0)
  {
    assert (notes + [n])[..|notes|] == notes;
  }

  /** Messages m and events e a callback at this point of its handling has produced. */
  predicate Produced(c: Callback, hasRun: bool, m: nat, e: nat) {
    match c.pc
    case AtEvent => hasRun && m <= 1 && e == 0 && (!c.faulted ==> m == 1)
    case Finished => m <= 1 && e <= 1 && (!c.faulted ==> m == e == if hasRun then 1 else 0)
    case AtTask => m == e == 0
    case AtLookup => m == e == 0
    case Aborted => m == e == 0
    case _ => hasRun && m == e == 0
  }

  predicate CallbackInv(st: State, k: nat)
    requires k < |st.callbacks|
  {
    var c := st.callbacks[k];
    && Produced(c, RunOf(st, c).Some?, CountFrom(st.messages, k), CountFrom(st.events, k))
    && (c.pc in {AtLookup, Finished} && !c.faulted ==> c.task < |st.tasks|)
  }

  predicate NoteInv(st: State, n: Note) {
    n.from < |st.callbacks| && n.session == SessionOf(st, st.callbacks[n.from]) && PastRun(st.callbacks[n.from])
    && HasRunRow(st, st.callbacks[n.from])
  }

  /** The callback's run row exists while its message and event are written. */
  predicate RunThere(st: State, c: Callback) {
    c.pc in {AtMessage, AtEvent} ==> HasRunRow(st, c)
  }

  predicate NotesInv(st: State) {
    && (forall k: nat :: k < |st.callbacks| ==> CallbackInv(st, k) && RunThere(st, st.callbacks[k]))
    && (forall i :: 0 <= i < |st.messages| ==> NoteInv(st, st.messages[i]))
    && (forall i :: 0 <= i < |st.events| ==> NoteInv(st, st.events[i]))
  }

  lemma NoteKept(st: State, next: State, n: Note)
    requires Shaped(st) && Shaped(next) && Extends(st, next) && Forward(st, next) && NoteInv(st, n)
    ensures NoteInv(next, n)
  {
    assert SameCall(st.callbacks[n.from], next.callbacks[n.from]);
  }

  lemma NotesKept(st: State, next: State)
    requires Shaped(st) && Shaped(next) && Extends(st, next) && Forward(st, next) && NotesInv(st)
    ensures forall i :: 0 <= i < |st.messages| ==> NoteInv(next, st.messages[i])
    ensures forall i :: 0 <= i < |st.events| ==> NoteInv(next, st.events[i])
  {
    forall i | 0 <= i < |st.messages| ensures NoteInv(next, st.messages[i]) { NoteKept(st, next, st.messages[i]); }
    forall i | 0 <= i < |st.events| ensures NoteInv(next, st.events[i]) { NoteKept(st, next, st.events[i]); }
  }

  lemma {:induction false} NoNotesYet(notes: seq<Note>, k: nat)
    requires forall i :: 0 <= i < |notes| ==> notes[i].from < k
    ensures CountFrom(notes, k) == 0
  {
    if notes == [] {
    } else {
      NoNotesYet(notes[..|notes| - 1], k);
    }
  }

  /** A callback that does not move keeps its account, whatever else happens. */
  lemma CallbackKept(st: State, next: State, k: nat)
    requires Shaped(st) && Shaped(next) && Extends(st, next) && k < |st.callbacks|
    requires next.callbacks[k] == st.callbacks[k] && CallbackInv(st, k) && RunThere(st, st.callbacks[k])
    requires CountFrom(next.messages, k) == CountFrom(st.messages, k)
    requires CountFrom(next.events, k) == CountFrom(st.events, k)
    ensures CallbackInv(next, k) && RunThere(next, next.callbacks[k])
  {
  }

  lemma StepKeepsNotes(st: State, a: Action)
    requires Shaped(st) && NotesInv(st)
    ensures Shaped(Step(st, a)) && NotesInv(Step(st, a))
  {
    StepExtends(st, a);
    StepForward(st, a);
    if a.CallbackStep? && a.k < |st.callbacks| {
      CallbackKeepsNotes(st, a.k, a.fault);
    } else {
      NotesUntouched(st, a);
      OthersKeepNotes(st, Step(st, a));
    }
  }

  lemma OthersKeepNotes(st: State, next: State)
    requires Shaped(st) && Shaped(next) && Extends(st, next) && Forward(st, next) && NotesInv(st)
    requires next.messages == st.messages && next.events == st.events
    requires |next.callbacks| <= |st.callbacks| + 1 && next.callbacks[..|st.callbacks|] == st.callbacks
    requires |next.callbacks| > |st.callbacks| ==> next.callbacks[|st.callbacks|].pc == AtTask
    ensures NotesInv(next)
  {
    NotesKept(st, next);
    forall k: nat | k < |next.callbacks| ensures CallbackInv(next, k) && RunThere(next, next.callbacks[k]) {
      if k < |st.callbacks| {
        assert next.callbacks[k] == next.callbacks[..|st.callbacks|][k];
        CallbackKept(st, next, k);
      } else {
        NewCallback(st, next, k);
      }
    }
  }

  lemma NewCallback(st: State, next: State, k: nat)
    requires NotesInv(st) && k == |st.callbacks| < |next.callbacks| && next.callbacks[k].pc == AtTask
    requires next.messages == st.messages && next.events == st.events
    ensures CallbackInv(next, k) && RunThere(next, next.callbacks[k])
  {
    forall i | 0 <= i < |st.messages| ensures st.messages[i].from < k { assert NoteInv(st, st.messages[i]); }
    forall i | 0 <= i < |st.events| ensures st.events[i].from < k { assert NoteInv(st, st.events[i]); }
    NoNotesYet(st.messages, k);
    NoNotesYet(st.events, k);
  }

  lemma NotesUntouched(st: State, a: Action)
    requires Shaped(st) && !(a.CallbackStep? && a.k < |st.callbacks|)
    ensures var next := Step(st, a);
            && next.messages == st.messages && next.events == st.events
            && |st.callbacks| <= |next.callbacks| <= |st.callbacks| + 1
            && next.callbacks[..|st.callbacks|] == st.callbacks
            && (|next.callbacks| > |st.callbacks| ==> next.callbacks[|st.callbacks|].pc == AtTask)
  {
    if a.Reap? {
      ReapShape(st, a.now, |st.tasks|);
    }
  }

  /** The callback's own account is in order. */
  predicate Accounted(st: State, k: nat) {
    k < |st.callbacks| && CallbackInv(st, k) && RunThere(st, st.callbacks[k])
  }

  /** How one statement of callback k changes its own account. */
  lemma OwnAccount(st: State, k: nat, fault: bool)
    requires Shaped(st) && Accounted(st, k)
    ensures Accounted(StepCallback(st, k, fault), k)
  {
    match st.callbacks[k].pc {
      case AtTask => OwnTaskUpdate(st, k, fault);
      case AtRun => OwnRunUpdate(st, k, fault);
      case AtMessage => OwnMessage(st, k, fault);
      case AtLookup => OwnRunLookup(st, k, fault);
      case AtSession => OwnSessionLookup(st, k, fault);
      case AtEvent => OwnEvent(st, k);
      case _ =>
    }
  }

  lemma OwnTaskUpdate(st: State, k: nat, fault: bool)
    requires Shaped(st) && Accounted(st, k) && st.callbacks[k].pc.AtTask?
    ensures Accounted(TaskUpdate(st, k, fault), k)
  {
  }

  lemma OwnRunUpdate(st: State, k: nat, fault: bool)
    requires Shaped(st) && Accounted(st, k) && st.callbacks[k].pc.AtRun?
    ensures Accounted(RunUpdate(st, k, fault), k)
  {
  }

  lemma OwnRunLookup(st: State, k: nat, fault: bool)
    requires Accounted(st, k) && st.callbacks[k].pc.AtLookup?
    ensures Accounted(RunLookup(st, k, fault), k)
  {
  }

  lemma OwnSessionLookup(st: State, k: nat, fault: bool)
    requires Accounted(st, k) && st.callbacks[k].pc.AtSession?
    ensures Accounted(SessionLookup(st, k, fault), k)
  {
  }

  lemma OwnEvent(st: State, k: nat)
    requires Accounted(st, k) && st.callbacks[k].pc.AtEvent?
    ensures Accounted(PublishEvent(st, k), k)
  {
    CountMore(st.events, Note(SessionOf(st, st.callbacks[k]), k), k);
  }

  lemma OwnMessage(st: State, k: nat, fault: bool)
    requires Accounted(st, k) && st.callbacks[k].pc.AtMessage?
    ensures Accounted(StoreMessage(st, k, fault), k)
  {
    CountMore(st.messages, Note(SessionOf(st, st.callbacks[k]), k), k);
  }

  lemma CallbackKeepsNotes(st: State, k: nat, fault: bool)
    requires Shaped(st) && NotesInv(st) && k < |st.callbacks|
    ensures Shaped(StepCallback(st, k, fault)) && NotesInv(StepCallback(st, k, fault))
  {
    CallbackExtends(st, k, fault);
    StepForward(st, CallbackStep(k, fault));
    assert Accounted(st, k);
    OwnAccount(st, k, fault);
    NewNote(st, k, fault);
    OnlyMover(st, k, fault);
    OneMoverKeepsNotes(st, StepCallback(st, k, fault), k, Note(SessionOf(st, st.callbacks[k]), k));
  }

  lemma OnlyMover(st: State, k: nat, fault: bool)
    requires Shaped(st) && k < |st.callbacks|
    ensures var next := StepCallback(st, k, fault);
            && |next.callbacks| == |st.callbacks|
            && forall j: nat :: j < |st.callbacks| && j != k ==> next.callbacks[j] == st.callbacks[j]
  {
  }

  lemma OneMoverKeepsNotes(st: State, next: State, k: nat, n: Note)
    requires Shaped(st) && Shaped(next) && Extends(st, next) && Forward(st, next) && NotesInv(st)
    requires |next.callbacks| == |st.callbacks| && k < |st.callbacks| && n.from == k
    requires forall j: nat :: j < |st.callbacks| && j != k ==> next.callbacks[j] == st.callbacks[j]
    requires CallbackInv(next, k) && RunThere(next, next.callbacks[k])
    requires next.messages == st.messages || (next.messages == st.messages + [n] && NoteInv(next, n))
    requires next.events == st.events || (next.events == st.events + [n] && NoteInv(next, n))
    ensures NotesInv(next)
  {
    NotesKept(st, next);
    forall j: nat | j < |next.callbacks| ensures CallbackInv(next, j) && RunThere(next, next.callbacks[j]) {
      if j != k {
        CountMore(st.messages, n, j);
        CountMore(st.events, n, j);
        CallbackKept(st, next, j);
      }
    }
  }

  /** Any note a statement of callback k adds is in order. */
  lemma NewNote(st: State, k: nat, fault: bool)
    requires Shaped(st) && NotesInv(st) && k < |st.callbacks|
    ensures var next := StepCallback(st, k, fault);
            var n := Note(SessionOf(st, st.callbacks[k]), k);
            && (next.messages == st.messages || (next.messages == st.messages + [n] && NoteInv(next, n)))
            && (next.events == st.events || (next.events == st.events + [n] && NoteInv(next, n)))
  {
    assert RunThere(st, st.callbacks[k]);
  }

  lemma {:induction false} NotesAlways(actions: seq<Action>)
    ensures NotesInv(Reach(actions))
  {
    if actions == [] {
    } else {
      NotesAlways(actions[..|actions| - 1]);
      StepKeepsNotes(Reach(actions[..|actions| - 1]), actions[|actions| - 1]);
    }
  }

  /** A callback handled to its end without a fault, for a task with a run, has left exactly one
      assistant message and one result event, both in the run's session. */
  lemma OneMessageOneEvent(actions: seq<Action>, k: nat)
    requires k < |Reach(actions).callbacks|
    requires var c := Reach(actions).callbacks[k]; c.pc == Finished && !c.faulted && RunOf(Reach(actions), c).Some?
    ensures var st := Reach(actions);
            && CountFrom(st.messages, k) == 1 && CountFrom(st.events, k) == 1
            && (forall i :: 0 <= i < |st.messages| ==> NoteInv(st, st.messages[i]))
            && (forall i :: 0 <= i < |st.events| ==> NoteInv(st, st.events[i]))
  {
    NotesAlways(actions);
    assert CallbackInv(Reach(actions), k);
  }

  // ---- Watchers ----

  predicate WatcherInv(st: State, w: nat)
    requires Shaped(st) && w < |st.watchers|
  {
    var x := st.watchers[w];
    && (x.pc in {Marked, Done} ==> !st.tasks[x.task].status.Active())
    && (x.pc == Marked || w in st.notices ==> ByTimeout(x.after) in st.attempts[x.task])
    && (w in st.notices ==> x.pc == Done)
  }

  predicate WatchersInv(st: State)
    requires Shaped(st)
  {
    && (forall w: nat :: w < |st.watchers| ==> WatcherInv(st, w))
    && (forall i :: 0 <= i < |st.notices| ==> st.notices[i] < |st.watchers|)
  }

  lemma StepKeepsWatchers(st: State, a: Action)
    requires Shaped(st) && WatchersInv(st)
    ensures Shaped(Step(st, a)) && WatchersInv(Step(st, a))
  {
    StepExtends(st, a);
    var next := Step(st, a);
    if a.Reap? {
      ReapShape(st, a.now, |st.tasks|);
    }
    forall w: nat | w < |next.watchers| ensures WatcherInv(next, w) {
      if w < |st.watchers| {
        assert WatcherInv(st, w);
        WatcherKept(st, a, w);
      }
    }
  }

  lemma WatcherKept(st: State, a: Action, w: nat)
    requires Shaped(st) && Shaped(Step(st, a)) && Extends(st, Step(st, a)) && w < |st.watchers| && WatcherInv(st, w)
    ensures w < |Step(st, a).watchers| && WatcherInv(Step(st, a), w)
  {
    if a.WatcherStep? && a.w == w {
      WatcherMoves(st, w, a.fault);
    } else {
      WatcherRests(st, a, w);
      assert st.attempts[st.watchers[w].task] <= Step(st, a).attempts[st.watchers[w].task];
    }
  }

  lemma WatcherMoves(st: State, w: nat, fault: bool)
    requires Shaped(st) && w < |st.watchers| && WatcherInv(st, w)
    ensures Shaped(StepWatcher(st, w, fault)) && w < |StepWatcher(st, w, fault).watchers|
    ensures WatcherInv(StepWatcher(st, w, fault), w)
  {
  }

  lemma WatcherRests(st: State, a: Action, w: nat)
    requires Shaped(st) && w < |st.watchers| && !(a.WatcherStep? && a.w == w)
    ensures var next := Step(st, a);
            w < |next.watchers| && next.watchers[w] == st.watchers[w] && (w in next.notices <==> w in st.notices)
  {
    if a.Reap? {
      ReapShape(st, a.now, |st.tasks|);
    }
  }

  lemma {:induction false} WatchersAlways(actions: seq<Action>)
    ensures WatchersInv(Reach(actions))
  {
    if actions == [] {
    } else {
      WatchersAlways(actions[..|actions| - 1]);
      StepKeepsWatchers(Reach(actions[..|actions| - 1]), actions[|actions| - 1]);
    }
  }

  /** A watcher that ends without a database error leaves its task terminal. */
  lemma WatcherLeavesTerminal(actions: seq<Action>, w: nat)
    requires w < |Reach(actions).watchers| && Reach(actions).watchers[w].pc == Done
    ensures !Reach(actions).tasks[Reach(actions).watchers[w].task].status.Active()
  {
    WatchersAlways(actions);
    assert WatcherInv(Reach(actions), w);
  }

  /** An announced timeout is the task's real outcome exactly when no other write came first. */
  lemma NoticeMeansTimeout(actions: seq<Action>, w: nat)
    requires w in Reach(actions).notices
    ensures var st := Reach(actions);
            && w < |st.watchers|
            && var t := st.watchers[w].task;
               && ByTimeout(st.watchers[w].after) in st.attempts[t]
               && (st.tasks[t].status.Timeout? <==> st.attempts[t][0].ByTimeout?)
  {
    WatchersAlways(actions);
    RowsAlways(actions);
    var st := Reach(actions);
    assert WatcherInv(st, w);
    var t := st.watchers[w].task;
    assert FirstWins(st, t) && GoodAttempts(st, t);
    if st.attempts[t][0].ByCallback? {
      assert Handled(st, st.attempts[t][0].k, t);
    }
  }
}
