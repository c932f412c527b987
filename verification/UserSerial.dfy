/** Interleaved user handlers whose writes are all timely leave the tables as the same handlers leave
    them one after the other, each in the place of its last write.  That serial run lags behind: it
    performs a review only at its grant, so until then the request counts as pending for it. */
module UserSerial {
  import opened UserRoles
  import opened UserRaces

  /** The handler has decided request k and not yet granted it. */
  predicate Grants(job: Job, k: nat) {
    job.pc.AtGrant? && job.ask.Review? && job.ask.request == k
  }

  predicate Lagging(jobs: seq<Job>, k: nat) {
    exists j :: 0 <= j < |jobs| && Grants(jobs[j], k)
  }

  /** The requests as the serial run sees them. */
  function Undecided(requests: seq<UpgradeRequest>, jobs: seq<Job>): seq<UpgradeRequest> {
    seq(|requests|, i requires 0 <= i < |requests| =>
      if Lagging(jobs, i) then requests[i].(status := Pending) else requests[i])
  }

  function Behind(base: State, jobs: seq<Job>): State {
    base.(requests := Undecided(base.requests, jobs))
  }

  /** An approval under way shows in its request. */
  predicate Shown(base: State, job: Job) {
    job.pc.AtGrant? && job.ask.Review? ==>
      job.ask.request < |base.requests| && base.requests[job.ask.request].status.Approved?
  }

  /** Two approvals under way are of different requests. */
  predicate Different(a: Job, b: Job) {
    a.pc.AtGrant? && a.ask.Review? && b.pc.AtGrant? && b.ask.Review? ==> a.ask.request != b.ask.request
  }

  predicate Orderly(base: State, jobs: seq<Job>) {
    && (forall j :: 0 <= j < |jobs| ==> Shown(base, jobs[j]))
    && (forall i, j :: 0 <= i < j < |jobs| ==> Different(jobs[i], jobs[j]))
  }

  /** Nothing has been written to the row of user u since then. */
  predicate Untouched(log: seq<Write>, since: nat, u: nat) {
    forall i :: since <= i < |log| ==> !Touches(log[i], u)
  }

  predicate Aims(job: Job, u: nat) {
    job.pc.AtWrite? && (job.ask.ChangeRole? || job.ask.Delete?) && job.ask.target == u
  }

  /** A row that a handler has read is there until it is written to. */
  ghost predicate RowsThere(w: World) {
    forall j, u :: 0 <= j < |w.jobs| && Aims(w.jobs[j], u) && Untouched(w.log, w.jobs[j].pc.since, u) ==>
      u in w.base.users
  }

  ghost predicate Follows(w: World, actions: seq<Action>) {
    Inv(w) && Orderly(w.base, w.jobs) && RowsThere(w) && Run(actions) == Behind(w.base, w.jobs)
  }

  // ---- The serial run ----

  /** A handler's place in the serial run. */
  datatype Turn = Turn(job: nat, action: Action)

  function Actions(turns: seq<Turn>): seq<Action> {
    seq(|turns|, i requires 0 <= i < |turns| => turns[i].action)
  }

  /** The request of a handler without what failed on the way. */
  function Bare(a: Action): Action {
    match a
    case Register(caller, form, role, _, _) => Register(caller, form, role, false, false)
    case SelfRegister(form, _, _) => SelfRegister(form, false, false)
    case ChangeRole(caller, target, role, _) => ChangeRole(caller, target, role, false)
    case Delete(caller, target, _) => Delete(caller, target, false)
    case RequestUpgrade(caller, role, _) => RequestUpgrade(caller, role, false)
    case Review(caller, k, approve, _, _) => Review(caller, k, approve, false, false)
  }

  /** The action for a write that went through; a failed look-up of a phone makes no difference. */
  function SerialFor(a: Action): Action {
    match Bare(a)
    case Register(caller, form, role, _, fails) => Register(caller, form, role, true, fails)
    case SelfRegister(form, _, fails) => SelfRegister(form, true, fails)
    case b => b
  }

  /** The action for an approval whose grant was sent. */
  function GrantFor(a: Action, fault: bool): Action
    requires a.Review?
  {
    Review(a.caller, a.request, a.approve, fault, false)
  }

  /** The turn an event gives: to a handler whose write goes through, or, for an approval, to the
      grant that follows. */
  function TurnOf(w: World, e: Event): seq<Turn> {
    if !e.Go? || e.j >= |w.jobs| then []
    else
      var job := w.jobs[e.j];
      if job.pc.AtWrite? && !e.fault && !(job.ask.Review? && job.ask.approve) then [Turn(e.j, SerialFor(job.ask))]
      else if job.pc.AtGrant? && job.ask.Review? then [Turn(e.j, GrantFor(job.ask, e.fault))]
      else []
  }

  function Schedule(events: seq<Event>): seq<Turn> {
    if events == [] then []
    else
      var n := |events| - 1;
      Schedule(events[..n]) + TurnOf(Reach(events[..n]), events[n])
  }

  /** The approvals still under way, with grants that fail. */
  function GivenUp(jobs: seq<Job>, n: nat): seq<Turn>
    requires n <= |jobs|
  {
    if n == 0 then []
    else
      var job := jobs[n - 1];
      GivenUp(jobs, n - 1) + (if job.pc.AtGrant? && job.ask.Review? then [Turn(n - 1, GrantFor(job.ask, true))] else [])
  }

  function SerialRun(events: seq<Event>): seq<Turn> {
    Schedule(events) + GivenUp(Reach(events).jobs, |Reach(events).jobs|)
  }

  lemma ActionsConcat(a: seq<Turn>, b: seq<Turn>)
    ensures Actions(a + b) == Actions(a) + Actions(b)
  {
  }

  // ---- What becomes of the lag ----

  lemma SameLag(requests: seq<UpgradeRequest>, jobs: seq<Job>, next: seq<Job>)
    requires forall k :: Lagging(next, k) <==> Lagging(jobs, k)
    ensures Undecided(requests, next) == Undecided(requests, jobs)
  {
  }

  /** A job that is not granting and does not come to it changes no lag. */
  lemma MovedAside(jobs: seq<Job>, j: nat, job: Job)
    requires j < |jobs| && !jobs[j].pc.AtGrant? && !job.pc.AtGrant?
    ensures forall k :: Lagging(jobs[j := job], k) <==> Lagging(jobs, k)
  {
    forall k ensures Lagging(jobs[j := job], k) <==> Lagging(jobs, k) {
      if Lagging(jobs, k) {
        var i :| 0 <= i < |jobs| && Grants(jobs[i], k);
        assert Grants(jobs[j := job][i], k);
      }
      if Lagging(jobs[j := job], k) {
        var i :| 0 <= i < |jobs| && Grants(jobs[j := job][i], k);
        assert Grants(jobs[i], k);
      }
    }
  }

  lemma NewJob(jobs: seq<Job>, job: Job)
    requires !job.pc.AtGrant?
    ensures forall k :: Lagging(jobs + [job], k) <==> Lagging(jobs, k)
  {
    forall k ensures Lagging(jobs + [job], k) <==> Lagging(jobs, k) {
      if Lagging(jobs, k) {
        var i :| 0 <= i < |jobs| && Grants(jobs[i], k);
        assert Grants((jobs + [job])[i], k);
      }
    }
  }

  /** A job that comes to its grant adds its request to the lag. */
  lemma LagGrows(jobs: seq<Job>, j: nat, job: Job, k: nat)
    requires j < |jobs| && !jobs[j].pc.AtGrant? && Grants(job, k)
    ensures forall q :: Lagging(jobs[j := job], q) <==> Lagging(jobs, q) || q == k
  {
    var next := jobs[j := job];
    assert Grants(next[j], k);
    forall q ensures Lagging(next, q) <==> Lagging(jobs, q) || q == k {
      if Lagging(jobs, q) {
        var i :| 0 <= i < |jobs| && Grants(jobs[i], q);
        assert Grants(next[i], q);
      }
      if Lagging(next, q) && q != k {
        var i :| 0 <= i < |next| && Grants(next[i], q);
        assert Grants(jobs[i], q);
      }
    }
  }

  /** A job that leaves its grant takes its request out of the lag. */
  lemma LagShrinks(base: State, jobs: seq<Job>, j: nat, job: Job, k: nat)
    requires Orderly(base, jobs) && j < |jobs| && Grants(jobs[j], k) && !job.pc.AtGrant?
    ensures forall q :: Lagging(jobs[j := job], q) <==> Lagging(jobs, q) && q != k
  {
    var next := jobs[j := job];
    forall q ensures Lagging(next, q) <==> Lagging(jobs, q) && q != k {
      if Lagging(jobs, q) && q != k {
        var i :| 0 <= i < |jobs| && Grants(jobs[i], q);
        assert Grants(next[i], q);
      }
      if Lagging(next, q) {
        var i :| 0 <= i < |next| && Grants(next[i], q);
        assert Grants(jobs[i], q) && i != j;
        assert Different(jobs[if i < j then i else j], jobs[if i < j then j else i]);
      }
    }
  }

  // ---- Rows that were read ----

  /** A write leaves every user it does not touch in place. */
  predicate Keeps(base: State, x: seq<Write>, next: State) {
    forall u :: u in base.users && u !in next.users ==> |x| == 1 && Touches(x[0], u)
  }

  lemma CommitKeeps(base: State, a: Action)
    ensures Keeps(base, Written(base, a), Commit(base, a))
  {
  }

  lemma GrantKeeps(base: State, k: nat)
    ensures Keeps(base, GrantWritten(base, k), Grant(base, k))
  {
  }

  lemma UntouchedBefore(log: seq<Write>, x: seq<Write>, since: nat, u: nat)
    requires Untouched(log + x, since, u) && since <= |log|
    ensures Untouched(log, since, u) && (|x| == 1 ==> !Touches(x[0], u))
  {
    forall i | since <= i < |log| ensures !Touches(log[i], u) {
      assert (log + x)[i] == log[i];
    }
    if |x| == 1 {
      assert (log + x)[|log|] == x[0];
    }
  }

  predicate SeesTarget(base: State, a: Action) {
    a.ChangeRole? || a.Delete? ==> a.target in base.users
  }

  /** The rows stay there when one handler moves and writes. */
  lemma RowsStay(w: World, x: seq<Write>, base: State, j: nat, pc: Pc)
    requires Inv(w) && RowsThere(w) && j < |w.jobs| && Keeps(w.base, x, base)
    requires pc.AtWrite? ==> x == [] && base == w.base && SeesTarget(base, w.jobs[j].ask)
    ensures RowsThere(World(base, Moved(w, j, pc), w.log + x))
  {
    var next := World(base, Moved(w, j, pc), w.log + x);
    forall i, u | 0 <= i < |next.jobs| && Aims(next.jobs[i], u) && Untouched(next.log, next.jobs[i].pc.since, u)
      ensures u in next.base.users
    {
      if i != j {
        assert JobInv(w, w.jobs[i]);
        UntouchedBefore(w.log, x, w.jobs[i].pc.since, u);
        assert Aims(w.jobs[i], u);
      }
    }
  }

  // ---- The serial step for each write ----

  lemma RunMoreBehind(actions: seq<Action>, a: Action, base: State, jobs: seq<Job>, next: State)
    requires Run(actions) == Behind(base, jobs) && Step(Behind(base, jobs), a) == next
    ensures Run(actions + [a]) == next
  {
    RunMore(actions, a);
  }

  lemma UserWriteIsSerial(base: State, jobs: seq<Job>, a: Action)
    requires Admits(a) && (a.Register? || a.SelfRegister? || a.ChangeRole? || a.Delete?)
    requires a.ChangeRole? || a.Delete? ==> Ordinary(base, a.target)
    ensures Step(Behind(base, jobs), SerialFor(a)) == Behind(Commit(base, a), jobs)
  {
  }

  lemma LaggingIsApproved(base: State, jobs: seq<Job>, k: nat)
    requires Orderly(base, jobs)
    ensures Lagging(jobs, k) ==> k < |base.requests| && base.requests[k].status.Approved?
  {
    if Lagging(jobs, k) {
      var j :| 0 <= j < |jobs| && Grants(jobs[j], k);
      assert Shown(base, jobs[j]);
    }
  }

  lemma FilingIsSerial(base: State, jobs: seq<Job>, a: Action)
    requires Admits(a) && a.RequestUpgrade? && Orderly(base, jobs)
    ensures Step(Behind(base, jobs), SerialFor(a)) == Behind(Commit(base, a), jobs)
  {
    var more := Commit(base, a).requests;
    LaggingIsApproved(base, jobs, |base.requests|);
    assert Undecided(more, jobs) == Undecided(base.requests, jobs) + [more[|base.requests|]];
  }

  lemma RejectionIsSerial(base: State, jobs: seq<Job>, a: Action)
    requires Admits(a) && a.Review? && !a.approve && Orderly(base, jobs)
    requires a.request < |base.requests| && base.requests[a.request].status.Pending?
    ensures Step(Behind(base, jobs), SerialFor(a)) == Behind(Commit(base, a), jobs)
  {
    var k, more := a.request, Commit(base, a).requests;
    LaggingIsApproved(base, jobs, k);
    assert Undecided(more, jobs) == Undecided(base.requests, jobs)[k := more[k]];
  }

  /** An approval does nothing for the serial run yet. */
  lemma ApprovalLags(base: State, jobs: seq<Job>, j: nat, a: Action)
    requires a.Review? && a.approve && Orderly(base, jobs) && j < |jobs| && jobs[j].ask == a && !jobs[j].pc.AtGrant?
    requires a.request < |base.requests| && base.requests[a.request].status.Pending?
    ensures Behind(Commit(base, a), jobs[j := Job(a, AtGrant)]) == Behind(base, jobs)
  {
    LagGrows(jobs, j, Job(a, AtGrant), a.request);
    LaggingIsApproved(base, jobs, a.request);
    assert Undecided(Commit(base, a).requests, jobs[j := Job(a, AtGrant)]) == Undecided(base.requests, jobs);
  }

  /** The grant, or its failure, is where the serial run performs the review. */
  lemma GrantIsSerial(base: State, jobs: seq<Job>, j: nat, k: nat, fault: bool)
    requires Orderly(base, jobs) && j < |jobs| && Grants(jobs[j], k) && Admits(jobs[j].ask)
    ensures Step(Behind(base, jobs), Review(jobs[j].ask.caller, k, true, fault, false))
         == Behind(if fault then base else Grant(base, k), jobs[j := Job(jobs[j].ask, Done)])
  {
    LagShrinks(base, jobs, j, Job(jobs[j].ask, Done), k);
    assert Shown(base, jobs[j]) && Lagging(jobs, k);
    assert Undecided(base.requests, jobs)[k := base.requests[k]] ==
      Undecided(base.requests, jobs[j := Job(jobs[j].ask, Done)]);
  }

  // ---- Order among the approvals ----

  lemma OrderlyAside(base: State, jobs: seq<Job>, j: nat, job: Job)
    requires Orderly(base, jobs) && j < |jobs| && !job.pc.AtGrant?
    ensures Orderly(base, jobs[j := job])
  {
  }

  /** A write of the tables that leaves approved requests alone. */
  lemma OrderlyBase(base: State, next: State, jobs: seq<Job>)
    requires Orderly(base, jobs) && |base.requests| <= |next.requests|
    requires forall k :: 0 <= k < |base.requests| && base.requests[k].status.Approved? ==>
      next.requests[k].status.Approved?
    ensures Orderly(next, jobs)
  {
    forall j | 0 <= j < |jobs| ensures Shown(next, jobs[j]) {
      assert Shown(base, jobs[j]);
    }
  }

  lemma OrderlyApproval(base: State, jobs: seq<Job>, j: nat, a: Action)
    requires Orderly(base, jobs) && j < |jobs| && a.Review? && a.approve
    requires a.request < |base.requests| && base.requests[a.request].status.Pending?
    ensures Orderly(Commit(base, a), jobs[j := Job(a, AtGrant)])
  {
    var next := jobs[j := Job(a, AtGrant)];
    forall i | 0 <= i < |next| ensures Shown(Commit(base, a), next[i]) {
      assert i != j ==> Shown(base, jobs[i]);
    }
    forall i, l | 0 <= i < l < |next| ensures Different(next[i], next[l]) {
      assert Shown(base, jobs[i]) && Shown(base, jobs[l]) && Different(jobs[i], jobs[l]);
    }
  }

  // ---- One event ----

  /** What a timely write can rely on. */
  lemma TimelyTarget(w: World, j: nat)
    requires Inv(w) && RowsThere(w) && j < |w.jobs| && w.jobs[j].pc.AtWrite? && Timely(w, Go(j, false))
    ensures var a := w.jobs[j].ask;
            && (a.ChangeRole? || a.Delete? ==> Ordinary(w.base, a.target))
            && (a.Review? ==> a.request < |w.base.requests| && w.base.requests[a.request].status.Pending?)
  {
    var a := w.jobs[j].ask;
    assert JobInv(w, w.jobs[j]);
    if a.ChangeRole? || a.Delete? {
      assert Aims(w.jobs[j], a.target) && Untouched(w.log, w.jobs[j].pc.since, a.target);
      UntouchedIsNotSuper(w.log, w.jobs[j].pc.since, a.target);
    }
  }

  lemma QuietMove(w: World, j: nat, pc: Pc, actions: seq<Action>)
    requires Follows(w, actions) && j < |w.jobs| && !w.jobs[j].pc.AtGrant? && !pc.AtGrant?
    requires pc.AtWrite? ==> SeesTarget(w.base, w.jobs[j].ask)
    requires Inv(w.(jobs := Moved(w, j, pc)))
    ensures Follows(w.(jobs := Moved(w, j, pc)), actions)
  {
    var job := w.jobs[j].(pc := pc);
    MovedAside(w.jobs, j, job);
    SameLag(w.base.requests, w.jobs, Moved(w, j, pc));
    OrderlyAside(w.base, w.jobs, j, job);
    RowsStay(w, [], w.base, j, pc);
    assert w.log + [] == w.log;
  }

  lemma WriteMove(w: World, j: nat, actions: seq<Action>)
    requires Follows(w, actions) && j < |w.jobs| && w.jobs[j].pc.AtWrite? && Timely(w, Go(j, false))
    requires Inv(Advance(w, j, false))
    ensures Follows(Advance(w, j, false), actions + Actions(TurnOf(w, Go(j, false))))
  {
    var a := w.jobs[j].ask;
    assert JobInv(w, w.jobs[j]);
    TimelyTarget(w, j);
    CommitKeeps(w.base, a);
    if a.Review? && a.approve {
      RowsStay(w, Written(w.base, a), Commit(w.base, a), j, AtGrant);
      ApprovalLags(w.base, w.jobs, j, a);
      OrderlyApproval(w.base, w.jobs, j, a);
      assert actions + Actions(TurnOf(w, Go(j, false))) == actions;
    } else {
      var next := Moved(w, j, Done);
      RowsStay(w, Written(w.base, a), Commit(w.base, a), j, Done);
      if a.Review? {
        RejectionIsSerial(w.base, w.jobs, a);
      } else if a.RequestUpgrade? {
        FilingIsSerial(w.base, w.jobs, a);
      } else {
        UserWriteIsSerial(w.base, w.jobs, a);
      }
      assert Actions(TurnOf(w, Go(j, false))) == [SerialFor(a)];
      RunMoreBehind(actions, SerialFor(a), w.base, w.jobs, Behind(Commit(w.base, a), w.jobs));
      MovedAside(w.jobs, j, Job(a, Done));
      SameLag(Commit(w.base, a).requests, w.jobs, next);
      OrderlyBase(w.base, Commit(w.base, a), w.jobs);
      OrderlyAside(Commit(w.base, a), w.jobs, j, Job(a, Done));
    }
  }

  lemma GrantMove(w: World, j: nat, fault: bool, actions: seq<Action>)
    requires Follows(w, actions) && j < |w.jobs| && w.jobs[j].pc.AtGrant? && w.jobs[j].ask.Review?
    requires Inv(Advance(w, j, fault))
    ensures Follows(Advance(w, j, fault), actions + [GrantFor(w.jobs[j].ask, fault)])
  {
    var a := w.jobs[j].ask;
    assert JobInv(w, w.jobs[j]);
    var k := a.request;
    assert Grants(w.jobs[j], k);
    var next := if fault then w.base else Grant(w.base, k);
    var x := if fault then [] else GrantWritten(w.base, k);
    GrantKeeps(w.base, k);
    RowsStay(w, x, next, j, Done);
    assert w.log + [] == w.log;
    GrantIsSerial(w.base, w.jobs, j, k, fault);
    RunMoreBehind(actions, GrantFor(a, fault), w.base, w.jobs, Behind(next, Moved(w, j, Done)));
    OrderlyBase(w.base, next, w.jobs);
    OrderlyAside(next, w.jobs, j, Job(a, Done));
  }

  lemma Arrival(w: World, a: Action, actions: seq<Action>)
    requires Follows(w, actions) && Inv(w.(jobs := w.jobs + [Job(a, AtRead)]))
    ensures Follows(w.(jobs := w.jobs + [Job(a, AtRead)]), actions)
  {
    var job := Job(a, AtRead);
    NewJob(w.jobs, job);
    SameLag(w.base.requests, w.jobs, w.jobs + [job]);
  }

  lemma Simulates(w: World, e: Event, actions: seq<Action>)
    requires Follows(w, actions) && Timely(w, e)
    ensures Follows(Next(w, e), actions + Actions(TurnOf(w, e)))
  {
    NextKeeps(w, e);
    assert actions + [] == actions;
    match e {
      case Arrive(a) =>
        if Admits(a) {
          Arrival(w, a, actions);
        }
      case Go(j, fault) =>
        if j < |w.jobs| {
          assert JobInv(w, w.jobs[j]);
          match w.jobs[j].pc {
            case AtRead => QuietMove(w, j, Advance(w, j, fault).jobs[j].pc, actions);
            case AtWrite(_) =>
              if fault {
                QuietMove(w, j, Done, actions);
              } else {
                WriteMove(w, j, actions);
              }
            case AtGrant =>
              GrantMove(w, j, fault, actions);
              assert Actions(TurnOf(w, e)) == [GrantFor(w.jobs[j].ask, fault)];
            case Done =>
          }
        }
    }
  }

  // ---- Whole runs ----

  /** No event writes to a row that was written since its handler read it. */
  predicate AllTimely(events: seq<Event>) {
    forall i :: 0 <= i < |events| ==> TimelyAt(events, i)
  }

  predicate TimelyAt(events: seq<Event>, i: nat)
    requires i < |events|
  {
    Timely(Reach(events[..i]), events[i])
  }

  lemma TimelyBefore(events: seq<Event>, n: nat)
    requires AllTimely(events) && n <= |events|
    ensures AllTimely(events[..n])
  {
    forall i | 0 <= i < n ensures TimelyAt(events[..n], i) {
      assert TimelyAt(events, i);
      assert events[..n][..i] == events[..i];
    }
  }

  lemma ScheduleMore(events: seq<Event>, e: Event)
    ensures Actions(Schedule(events + [e])) == Actions(Schedule(events)) + Actions(TurnOf(Reach(events), e))
  {
    assert (events + [e])[..|events|] == events;
    ActionsConcat(Schedule(events), TurnOf(Reach(events), e));
  }

  /** The schedule has kept up with the events. */
  ghost predicate KeptUp(events: seq<Event>) {
    Follows(Reach(events), Actions(Schedule(events)))
  }

  lemma OneMoreEvent(events: seq<Event>, e: Event)
    requires KeptUp(events) && Timely(Reach(events), e)
    ensures KeptUp(events + [e])
  {
    ReachMore(events, e);
    ScheduleMore(events, e);
    Simulates(Reach(events), e, Actions(Schedule(events)));
  }

  lemma KeptUpAtStart()
    ensures KeptUp([])
  {
    assert Undecided([], []) == [];
  }

  lemma LastEvent(events: seq<Event>, n: nat)
    requires n + 1 == |events| && TimelyAt(events, n) && KeptUp(events[..n])
    ensures KeptUp(events)
  {
    OneMoreEvent(events[..n], events[n]);
    assert events[..n] + [events[n]] == events;
  }

  lemma {:induction false} TimelyFollows(events: seq<Event>, n: nat)
    requires AllTimely(events) && n == |events|
    ensures KeptUp(events)
  {
    if n == 0 {
      KeptUpAtStart();
      assert events == [];
    } else {
      TimelyBefore(events, n - 1);
      TimelyFollows(events[..n - 1], n - 1);
      LastEvent(events, n - 1);
    }
  }

  lemma GivenUpMore(jobs: seq<Job>, n: nat, actions: seq<Action>)
    requires 0 < n <= |jobs|
    ensures var job, before := jobs[n - 1], actions + Actions(GivenUp(jobs, n - 1));
            actions + Actions(GivenUp(jobs, n)) ==
            if job.pc.AtGrant? && job.ask.Review? then before + [GrantFor(job.ask, true)] else before
  {
  }

  lemma OneGivenUp(w: World, j: nat, actions: seq<Action>)
    requires Follows(w, actions) && j < |w.jobs| && w.jobs[j].pc.AtGrant?
    ensures w.jobs[j].ask.Review?
    ensures var last := Advance(w, j, true);
            && Follows(last, actions + [GrantFor(w.jobs[j].ask, true)]) && last.base == w.base
            && last.jobs == w.jobs[j := w.jobs[j].(pc := Done)]
  {
    assert JobInv(w, w.jobs[j]);
    NextKeeps(w, Go(j, true));
    GrantMove(w, j, true, actions);
  }

  /** The same tables with the first n grants given up. */
  ghost predicate GaveUp(w: World, actions: seq<Action>, n: nat, last: World)
    requires n <= |w.jobs|
  {
    && Follows(last, actions + Actions(GivenUp(w.jobs, n))) && last.base == w.base
    && |last.jobs| == |w.jobs| && (forall j :: n <= j < |w.jobs| ==> last.jobs[j] == w.jobs[j])
    && (forall j :: 0 <= j < n ==> !last.jobs[j].pc.AtGrant?)
  }

  lemma NextGivenUp(w: World, actions: seq<Action>, n: nat, before: World) returns (last: World)
    requires 0 < n <= |w.jobs| && GaveUp(w, actions, n - 1, before)
    ensures GaveUp(w, actions, n, last)
  {
    GivenUpMore(w.jobs, n, actions);
    last := before;
    if before.jobs[n - 1].pc.AtGrant? {
      OneGivenUp(before, n - 1, actions + Actions(GivenUp(w.jobs, n - 1)));
      last := Advance(before, n - 1, true);
    }
  }

  /** Letting the grants that are still under way fail changes no table. */
  lemma {:induction false} GrantsGivenUp(w: World, actions: seq<Action>, n: nat) returns (last: World)
    requires Follows(w, actions) && n <= |w.jobs|
    ensures GaveUp(w, actions, n, last)
  {
    if n == 0 {
      last := w;
      assert actions + Actions(GivenUp(w.jobs, 0)) == actions;
    } else {
      var before := GrantsGivenUp(w, actions, n - 1);
      last := NextGivenUp(w, actions, n, before);
    }
  }

  lemma NoLag(base: State, jobs: seq<Job>)
    requires forall j :: 0 <= j < |jobs| ==> !jobs[j].pc.AtGrant?
    ensures Behind(base, jobs) == base
  {
    assert Undecided(base.requests, jobs) == base.requests;
  }

  /** Every interleaving of the handlers in which all writes are timely leaves the tables as its
      serial run does. */
  lemma TimelyRunIsSerial(events: seq<Event>)
    requires AllTimely(events)
    ensures Run(Actions(SerialRun(events))) == Reach(events).base
  {
    var w := Reach(events);
    TimelyFollows(events, |events|);
    var last := GrantsGivenUp(w, Actions(Schedule(events)), |w.jobs|);
    NoLag(last.base, last.jobs);
    ActionsConcat(Schedule(events), GivenUp(w.jobs, |w.jobs|));
  }

  // ---- Whose run it is ----

  predicate HasTurn(turns: seq<Turn>, j: nat) {
    exists i :: 0 <= i < |turns| && turns[i].job == j
  }

  /** The write of handler j goes through. */
  predicate Writes(w: World, e: Event, j: nat) {
    e == Go(j, false) && j < |w.jobs| && w.jobs[j].pc.AtWrite?
  }

  predicate Wrote(events: seq<Event>, j: nat) {
    exists i :: 0 <= i < |events| && Writes(Reach(events[..i]), events[i], j)
  }

  function WroteIn(events: seq<Event>): nat -> bool {
    (j: nat) => Wrote(events, j)
  }

  /** A turn of a handler that is done, for what it asked. */
  predicate Genuine(w: World, t: Turn) {
    t.job < |w.jobs| && Bare(t.action) == Bare(w.jobs[t.job].ask)
  }

  predicate OneEach(turns: seq<Turn>) {
    forall i, l :: 0 <= i < l < |turns| ==> turns[i].job != turns[l].job
  }

  ghost predicate Accounts(w: World, turns: seq<Turn>, wrote: nat -> bool) {
    && OneEach(turns)
    && (forall i :: 0 <= i < |turns| ==> Genuine(w, turns[i]) && w.jobs[turns[i].job].pc.Done?)
    && (forall j: nat :: wrote(j) ==> j < |w.jobs|)
    && (forall j: nat :: j < |w.jobs| ==> (wrote(j) <==> HasTurn(turns, j) || w.jobs[j].pc.AtGrant?))
  }

  lemma WroteMore(events: seq<Event>, e: Event, j: nat)
    ensures Wrote(events + [e], j) <==> Wrote(events, j) || Writes(Reach(events), e, j)
  {
    var more := events + [e];
    assert more[..|events|] == events;
    forall i | 0 <= i < |events| ensures more[..i] == events[..i] && more[i] == events[i] {
    }
    if Wrote(events, j) {
      var i :| 0 <= i < |events| && Writes(Reach(events[..i]), events[i], j);
      assert Writes(Reach(more[..i]), more[i], j);
    }
    if Writes(Reach(events), e, j) {
      assert Writes(Reach(more[..|events|]), more[|events|], j);
    }
  }

  lemma HasTurnMore(turns: seq<Turn>, more: seq<Turn>, j: nat)
    ensures HasTurn(turns + more, j) <==> HasTurn(turns, j) || HasTurn(more, j)
  {
    var all := turns + more;
    if HasTurn(turns, j) {
      var i :| 0 <= i < |turns| && turns[i].job == j;
      assert all[i].job == j;
    }
    if HasTurn(more, j) {
      var i :| 0 <= i < |more| && more[i].job == j;
      assert all[|turns| + i].job == j;
    }
  }

  /** How one event moves the handlers and gives turns. */
  lemma EventMoves(w: World, e: Event)
    requires Inv(w)
    ensures var next := Next(w, e);
            && |w.jobs| <= |next.jobs|
            && (forall j :: 0 <= j < |w.jobs| ==> next.jobs[j].ask == w.jobs[j].ask)
            && (forall j :: 0 <= j < |w.jobs| && !(e.Go? && e.j == j) ==> next.jobs[j] == w.jobs[j])
            && (forall j :: |w.jobs| <= j < |next.jobs| ==> next.jobs[j].pc.AtRead?)
            && (forall j: nat :: HasTurn(TurnOf(w, e), j) ==> TurnOf(w, e) == [TurnOf(w, e)[0]] && e.Go? && e.j == j)
  {
  }

  lemma MoverMoves(w: World, j: nat, fault: bool)
    requires Inv(w) && j < |w.jobs|
    ensures var next, turn := Advance(w, j, fault), TurnOf(w, Go(j, fault));
            && j < |next.jobs|
            && (w.jobs[j].pc.Done? ==> next.jobs[j].pc.Done? && turn == [])
            && (turn != [] ==> |turn| == 1 && turn[0].job == j && next.jobs[j].pc.Done? && Genuine(next, turn[0]))
            && (Writes(w, Go(j, fault), j) || w.jobs[j].pc.AtGrant? <==> turn != [] || next.jobs[j].pc.AtGrant?)
  {
    assert JobInv(w, w.jobs[j]);
  }

  lemma StepAccounts(w: World, e: Event, turns: seq<Turn>, wrote: nat -> bool, after: nat -> bool)
    requires Inv(w) && Accounts(w, turns, wrote)
    requires forall j: nat :: after(j) <==> wrote(j) || Writes(w, e, j)
    ensures Accounts(Next(w, e), turns + TurnOf(w, e), after)
  {
    var next, turn := Next(w, e), TurnOf(w, e);
    var all := turns + turn;
    EventMoves(w, e);
    if e.Go? && e.j < |w.jobs| {
      MoverMoves(w, e.j, e.fault);
    }
    forall i | 0 <= i < |all| ensures Genuine(next, all[i]) && next.jobs[all[i].job].pc.Done? {
      if i < |turns| {
        assert Genuine(w, turns[i]) && w.jobs[turns[i].job].pc.Done?;
      }
    }
    forall i, l | 0 <= i < l < |all| ensures all[i].job != all[l].job {
      assert i < |turns| ==> w.jobs[turns[i].job].pc.Done?;
    }
    forall j: nat | j < |next.jobs| ensures after(j) <==> HasTurn(all, j) || next.jobs[j].pc.AtGrant? {
      HasTurnMore(turns, turn, j);
      assert turn != [] ==> HasTurn(turn, turn[0].job);
    }
  }

  lemma {:induction false} ScheduleAccounts(events: seq<Event>)
    ensures Accounts(Reach(events), Schedule(events), WroteIn(events))
  {
    if events == [] {
    } else {
      var n := |events| - 1;
      var before, e := events[..n], events[n];
      ScheduleAccounts(before);
      InvAlways(before);
      ReachMore(before, e);
      assert before + [e] == events;
      forall j: nat ensures Wrote(events, j) <==> Wrote(before, j) || Writes(Reach(before), e, j) {
        WroteMore(before, e, j);
      }
      StepAccounts(Reach(before), e, Schedule(before), WroteIn(before), WroteIn(events));
    }
  }

  /** A turn of an approval among the first n handlers. */
  predicate StillGranting(jobs: seq<Job>, n: nat, t: Turn)
    requires n <= |jobs|
  {
    t.job < n && jobs[t.job].pc.AtGrant? && Bare(t.action) == Bare(jobs[t.job].ask)
  }

  predicate EachHasTurn(jobs: seq<Job>, n: nat, turns: seq<Turn>)
    requires n <= |jobs|
  {
    forall j: nat :: j < n && jobs[j].pc.AtGrant? ==> HasTurn(turns, j)
  }

  lemma TurnsMore(jobs: seq<Job>, n: nat, turns: seq<Turn>)
    requires 0 < n <= |jobs| && (jobs[n - 1].pc.AtGrant? ==> jobs[n - 1].ask.Review?)
    requires OneEach(turns) && EachHasTurn(jobs, n - 1, turns)
    requires forall i :: 0 <= i < |turns| ==> StillGranting(jobs, n - 1, turns[i])
    ensures var job := jobs[n - 1];
            var more := turns + (if job.pc.AtGrant? then [Turn(n - 1, GrantFor(job.ask, true))] else []);
            && OneEach(more) && EachHasTurn(jobs, n, more)
            && forall i :: 0 <= i < |more| ==> StillGranting(jobs, n, more[i])
  {
    var job := jobs[n - 1];
    var last := if job.pc.AtGrant? then [Turn(n - 1, GrantFor(job.ask, true))] else [];
    var more := turns + last;
    forall i | 0 <= i < |more| ensures StillGranting(jobs, n, more[i]) {
      assert i < |turns| ==> StillGranting(jobs, n - 1, turns[i]);
    }
    forall j: nat | j < n && jobs[j].pc.AtGrant? ensures HasTurn(more, j) {
      HasTurnMore(turns, last, j);
      assert j == n - 1 ==> last[0].job == j;
    }
  }

  lemma {:induction false} GivenUpTurns(jobs: seq<Job>, n: nat)
    requires n <= |jobs| && forall j :: 0 <= j < |jobs| && jobs[j].pc.AtGrant? ==> jobs[j].ask.Review?
    ensures OneEach(GivenUp(jobs, n)) && EachHasTurn(jobs, n, GivenUp(jobs, n))
    ensures forall i :: 0 <= i < |GivenUp(jobs, n)| ==> StillGranting(jobs, n, GivenUp(jobs, n)[i])
  {
    if n == 0 {
    } else {
      GivenUpTurns(jobs, n - 1);
      TurnsMore(jobs, n, GivenUp(jobs, n - 1));
    }
  }

  /** The serial run is the handlers' own: every turn is a handler's for what it asked, no handler has
      two, and a handler has one exactly when its write went through.  It holds of every interleaving. */
  lemma SerialRunIsTheirs(events: seq<Event>)
    ensures var turns, w := SerialRun(events), Reach(events);
            && (forall i :: 0 <= i < |turns| ==> Genuine(w, turns[i]))
            && OneEach(turns)
            && (forall j: nat :: HasTurn(turns, j) <==> Wrote(events, j))
  {
    var w := Reach(events);
    var done, rest := Schedule(events), GivenUp(w.jobs, |w.jobs|);
    ScheduleAccounts(events);
    InvAlways(events);
    forall j | 0 <= j < |w.jobs| && w.jobs[j].pc.AtGrant? ensures w.jobs[j].ask.Review? {
      assert JobInv(w, w.jobs[j]);
    }
    GivenUpTurns(w.jobs, |w.jobs|);
    var all := done + rest;
    forall i, l | 0 <= i < l < |all| ensures all[i].job != all[l].job {
      if i < |done| <= l {
        assert w.jobs[done[i].job].pc.Done? && StillGranting(w.jobs, |w.jobs|, rest[l - |done|]);
      }
    }
    forall j: nat ensures HasTurn(done + rest, j) <==> Wrote(events, j) {
      HasTurnMore(done, rest, j);
      assert WroteIn(events)(j) <==> Wrote(events, j);
      if HasTurn(rest, j) {
        var i :| 0 <= i < |rest| && rest[i].job == j;
        assert StillGranting(w.jobs, |w.jobs|, rest[i]);
      }
    }
  }

  // ---- Without timeliness ----

  /** No way to run an approval and a rejection of one request one after the other, whatever fails,
      leaves the request rejected and its user with the role: so the interleaving of two reviews
      that does is no serial run of them. */
  lemma NoSerialOrder(base: State, yes: Action, no: Action)
    requires yes.Review? && yes.approve && no.Review? && !no.approve && yes.request == no.request < |base.requests|
    requires var r := base.requests[yes.request];
             r.status.Pending? && r.user in base.users && base.users[r.user].role != r.role
    ensures var k, u, role := yes.request, base.requests[yes.request].user, base.requests[yes.request].role;
            var one, two := Step(base, yes), Step(base, no);
            forall last :: last in {one, two, Step(one, no), Step(two, yes)} ==>
              && k < |last.requests| && u in last.users
              && !(last.requests[k].status.Rejected? && last.users[u].role == role)
  {
  }
}
