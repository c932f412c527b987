/** The handlers of `internal/handlers/auth.go` taken apart: each reads, and later writes without
    a guard, so other writes can fall in between.  What holds in every interleaving, and exactly
    when the top role moves or a request is decided again. */
module UserRaces {
  import opened Text
  import opened UserRoles

  /** The next statement of a handler.  since is the number of writes there had been when it read. */
  datatype Pc = AtRead | AtWrite(since: nat) | AtGrant | Done

  datatype Job = Job(ask: Action, pc: Pc)

  /** A write that took effect. */
  datatype Write =
    | Added(user: nat)
    | RoleSet(user: nat, role: Role)
    | Removed(user: nat)
    | Filed
    | Decided(request: nat)

  /** The two tables, the handlers in flight, and the history of writes. */
  datatype World = World(base: State, jobs: seq<Job>, log: seq<Write>)

  datatype Event = Arrive(ask: Action) | Go(j: nat, fault: bool)

  const START := World(SEEDED, [], [])

  /** The checks before the first statement. */
  predicate Admits(a: Action) {
    match a
    case Register(caller, form, role, _, _) => caller.role.SuperAdmin? && Complete(form) && Grantable(role)
    case SelfRegister(form, _, _) => Complete(form)
    case ChangeRole(caller, target, role, _) => caller.role.SuperAdmin? && target != caller.user && !role.Other?
    case Delete(caller, target, _) => caller.role.SuperAdmin? && target != caller.user
    case RequestUpgrade(_, role, _) => Grantable(role)
    case Review(caller, _, _, _, _) => caller.role.SuperAdmin?
  }

  /** The reading statement lets the handler go on.  A failed look-up of a phone is passed over, any
      other failed read ends the handler; a request is filed without a read. */
  predicate ReadPasses(base: State, a: Action, fault: bool) {
    match a
    case Register(_, form, _, _, _) => fault || !PhoneTaken(base, TrimSpace(form.phone))
    case SelfRegister(form, _, _) => fault || !PhoneTaken(base, TrimSpace(form.phone))
    case ChangeRole(_, target, _, _) => !fault && target in base.users && !base.users[target].role.SuperAdmin?
    case Delete(_, target, _) => !fault && target in base.users && !base.users[target].role.SuperAdmin?
    case RequestUpgrade(_, _, _) => true
    case Review(_, k, _, _, _) => !fault && k < |base.requests| && base.requests[k].status.Pending?
  }

  function SetRole(base: State, u: nat, role: Role): State {
    if u in base.users then base.(users := base.users[u := base.users[u].(role := role)]) else base
  }

  /** The writing statement, which looks at nothing but its key. */
  function Commit(base: State, a: Action): State {
    match a
    case Register(_, form, role, _, _) => Insert(base, TrimSpace(form.phone), role)
    case SelfRegister(form, _, _) => Insert(base, TrimSpace(form.phone), NormalUser)
    case ChangeRole(_, target, role, _) => SetRole(base, target, role)
    case Delete(_, target, _) => base.(users := base.users - {target})
    case RequestUpgrade(caller, role, _) =>
      base.(requests := base.requests + [UpgradeRequest(caller.user, role, Pending)])
    case Review(_, k, approve, _, _) =>
      if k >= |base.requests| then base
      else base.(requests := base.requests[k := base.requests[k].(status := if approve then Approved else Rejected)])
  }

  /** The rows it changed, if any. */
  function Written(base: State, a: Action): seq<Write> {
    match a
    case Register(_, form, _, _, _) => if PhoneTaken(base, TrimSpace(form.phone)) then [] else [Added(base.next)]
    case SelfRegister(form, _, _) => if PhoneTaken(base, TrimSpace(form.phone)) then [] else [Added(base.next)]
    case ChangeRole(_, target, role, _) => if target in base.users then [RoleSet(target, role)] else []
    case Delete(_, target, _) => if target in base.users then [Removed(target)] else []
    case RequestUpgrade(_, _, _) => [Filed]
    case Review(_, k, _, _, _) => if k < |base.requests| then [Decided(k)] else []
  }

  /** The grant after an approval. */
  function Grant(base: State, k: nat): State {
    if k < |base.requests| then SetRole(base, base.requests[k].user, base.requests[k].role) else base
  }

  function GrantWritten(base: State, k: nat): seq<Write> {
    if k < |base.requests| && base.requests[k].user in base.users
    then [RoleSet(base.requests[k].user, base.requests[k].role)] else []
  }

  function Moved(w: World, j: nat, pc: Pc): seq<Job>
    requires j < |w.jobs|
  {
    w.jobs[j := w.jobs[j].(pc := pc)]
  }

  /** One statement of handler j. */
  function Advance(w: World, j: nat, fault: bool): World
    requires j < |w.jobs|
  {
    var a := w.jobs[j].ask;
    match w.jobs[j].pc
    case AtRead => w.(jobs := Moved(w, j, if ReadPasses(w.base, a, fault) then AtWrite(|w.log|) else Done))
    case AtWrite(_) =>
      if fault then w.(jobs := Moved(w, j, Done))
      else World(Commit(w.base, a), Moved(w, j, if a.Review? && a.approve then AtGrant else Done),
        w.log + Written(w.base, a))
    case AtGrant =>
      if fault || !a.Review? then w.(jobs := Moved(w, j, Done))
      else World(Grant(w.base, a.request), Moved(w, j, Done), w.log + GrantWritten(w.base, a.request))
    case Done => w
  }

  function Next(w: World, e: Event): World {
    match e
    case Arrive(a) => if Admits(a) then w.(jobs := w.jobs + [Job(a, AtRead)]) else w
    case Go(j, fault) => if j < |w.jobs| then Advance(w, j, fault) else w
  }

  function From(w: World, events: seq<Event>): World {
    if events == [] then w else Next(From(w, events[..|events| - 1]), events[|events| - 1])
  }

  function Reach(events: seq<Event>): World { From(START, events) }

  // ---- An undisturbed handler is a serial step ----

  /** A handler from its arrival to its end, with nothing in between. */
  function Alone(w: World, a: Action): World {
    var j := |w.jobs|;
    var w1 := Next(w, Arrive(a));
    var w2 := Next(w1, Go(j, (a.Register? || a.SelfRegister?) && a.phoneCheckFails));
    var w3 := Next(w2, Go(j, a.fails));
    Next(w3, Go(j, a.Review? && a.grantFails))
  }

  lemma AloneIsSerial(w: World, a: Action)
    ensures Alone(w, a).base == Step(w.base, a)
  {
    if Admits(a) {
      var j := |w.jobs|;
      var w1 := Next(w, Arrive(a));
      assert w1.jobs[j] == Job(a, AtRead);
      if a.Delete? && a.target !in w.base.users {
        assert w.base.users - {a.target} == w.base.users;
      }
    }
  }

  // ---- What the history of writes tells ----

  predicate Touches(x: Write, u: nat) {
    (x.Added? || x.RoleSet? || x.Removed?) && x.user == u
  }

  /** The last write to user u since a point of the history made it a super_admin. */
  predicate MadeSuper(log: seq<Write>, since: nat, u: nat) {
    if |log| <= since then false
    else
      var n := |log| - 1;
      if Touches(log[n], u) then log[n] == RoleSet(u, SuperAdmin) else MadeSuper(log[..n], since, u)
  }

  /** Some write since then decided request k. */
  predicate DecidedSince(log: seq<Write>, since: nat, k: nat) {
    exists i :: since <= i < |log| && log[i] == Decided(k)
  }

  lemma MadeSuperMore(log: seq<Write>, x: Write, since: nat, u: nat)
    requires since <= |log|
    ensures MadeSuper(log + [x], since, u) <==> if Touches(x, u) then x == RoleSet(u, SuperAdmin)
      else MadeSuper(log, since, u)
  {
    assert (log + [x])[..|log|] == log;
  }

  lemma DecidedMore(log: seq<Write>, x: Write, since: nat, k: nat)
    requires since <= |log|
    ensures DecidedSince(log + [x], since, k) <==> DecidedSince(log, since, k) || x == Decided(k)
  {
    var more := log + [x];
    if DecidedSince(log, since, k) {
      var i :| since <= i < |log| && log[i] == Decided(k);
      assert more[i] == Decided(k);
    }
    if x == Decided(k) {
      assert more[|log|] == Decided(k);
    }
  }

  /** The tables changed as the writes say. */
  ghost predicate Explains(base: State, x: seq<Write>, next: State) {
    && |x| <= 1
    && (forall u: nat :: IsSuper(next, u) <==>
          if |x| == 1 && Touches(x[0], u) then x[0] == RoleSet(u, SuperAdmin) else IsSuper(base, u))
    && |base.requests| <= |next.requests|
    && (forall k: nat :: k < |base.requests| ==>
          && next.requests[k].user == base.requests[k].user && next.requests[k].role == base.requests[k].role
          && (next.requests[k].status.Pending? <==>
              base.requests[k].status.Pending? && !(|x| == 1 && x[0] == Decided(k))))
  }

  lemma InsertExplained(base: State, phone: string, role: Role)
    requires Sound(base) && !role.Other? && !role.SuperAdmin?
    ensures Sound(Insert(base, phone, role))
    ensures Explains(base, if PhoneTaken(base, phone) then [] else [Added(base.next)], Insert(base, phone, role))
  {
  }

  lemma SetRoleExplained(base: State, u: nat, role: Role)
    requires Sound(base) && !role.Other?
    ensures Sound(SetRole(base, u, role))
    ensures Explains(base, if u in base.users then [RoleSet(u, role)] else [], SetRole(base, u, role))
  {
  }

  lemma DeleteExplained(base: State, a: Action)
    requires Sound(base) && a.Delete?
    ensures Sound(Commit(base, a)) && Explains(base, Written(base, a), Commit(base, a))
  {
  }

  lemma RequestExplained(base: State, a: Action)
    requires Sound(base) && Admits(a) && (a.RequestUpgrade? || a.Review?)
    ensures Sound(Commit(base, a)) && Explains(base, Written(base, a), Commit(base, a))
  {
  }

  lemma CommitExplained(base: State, a: Action)
    requires Sound(base) && Admits(a)
    ensures Sound(Commit(base, a)) && Explains(base, Written(base, a), Commit(base, a))
  {
    match a {
      case Register(_, form, role, _, _) => InsertExplained(base, TrimSpace(form.phone), role);
      case SelfRegister(form, _, _) => InsertExplained(base, TrimSpace(form.phone), NormalUser);
      case ChangeRole(_, target, role, _) => SetRoleExplained(base, target, role);
      case Delete(_, _, _) => DeleteExplained(base, a);
      case _ => RequestExplained(base, a);
    }
  }

  lemma GrantExplained(base: State, k: nat)
    requires Sound(base)
    ensures Sound(Grant(base, k)) && Explains(base, GrantWritten(base, k), Grant(base, k))
  {
    if k < |base.requests| {
      SetRoleExplained(base, base.requests[k].user, base.requests[k].role);
    }
  }

  // ---- What every statement keeps ----

  /** What a handler between its read and its write can rely on. */
  predicate Waiting(base: State, log: seq<Write>, a: Action, since: nat) {
    && since <= |log|
    && (a.ChangeRole? || a.Delete? ==> (IsSuper(base, a.target) <==> MadeSuper(log, since, a.target)))
    && (a.Review? ==>
          && a.request < |base.requests|
          && (base.requests[a.request].status.Pending? <==> !DecidedSince(log, since, a.request)))
  }

  predicate JobInv(w: World, job: Job) {
    && Admits(job.ask)
    && (job.pc.AtWrite? ==> Waiting(w.base, w.log, job.ask, job.pc.since))
    && (job.pc.AtGrant? ==> job.ask.Review? && job.ask.approve && job.ask.request < |w.base.requests|)
  }

  predicate Inv(w: World) {
    Sound(w.base) && forall j :: 0 <= j < |w.jobs| ==> JobInv(w, w.jobs[j])
  }

  lemma WaitingKept(base: State, log: seq<Write>, a: Action, since: nat, x: seq<Write>, next: State)
    requires Waiting(base, log, a, since) && Explains(base, x, next)
    ensures Waiting(next, log + x, a, since)
  {
    if x == [] {
      assert log + x == log;
    } else {
      assert x == [x[0]];
      if a.ChangeRole? || a.Delete? {
        MadeSuperMore(log, x[0], since, a.target);
      }
      if a.Review? {
        DecidedMore(log, x[0], since, a.request);
      }
    }
  }

  /** A write that is explained disturbs no other handler's knowledge. */
  lemma OthersKept(w: World, x: seq<Write>, next: State, jobs: seq<Job>)
    requires Inv(w) && Explains(w.base, x, next) && Sound(next) && |jobs| == |w.jobs|
    requires forall i :: 0 <= i < |jobs| ==> jobs[i] == w.jobs[i] || JobInv(World(next, jobs, w.log + x), jobs[i])
    ensures Inv(World(next, jobs, w.log + x))
  {
    var w' := World(next, jobs, w.log + x);
    forall i | 0 <= i < |jobs| ensures JobInv(w', jobs[i]) {
      if jobs[i] == w.jobs[i] {
        assert JobInv(w, w.jobs[i]);
        if jobs[i].pc.AtWrite? {
          WaitingKept(w.base, w.log, jobs[i].ask, jobs[i].pc.since, x, next);
        }
      }
    }
  }

  lemma Unchanged(base: State)
    ensures Explains(base, [], base)
  {
  }

  lemma AdvanceKeeps(w: World, j: nat, fault: bool)
    requires Inv(w) && j < |w.jobs|
    ensures Inv(Advance(w, j, fault))
  {
    var a := w.jobs[j].ask;
    assert JobInv(w, w.jobs[j]);
    match w.jobs[j].pc {
      case AtRead =>
        Unchanged(w.base);
        assert w.log + [] == w.log;
        OthersKept(w, [], w.base, Advance(w, j, fault).jobs);
      case AtWrite(_) =>
        if fault {
          Unchanged(w.base);
          assert w.log + [] == w.log;
          OthersKept(w, [], w.base, Advance(w, j, fault).jobs);
        } else {
          CommitExplained(w.base, a);
          OthersKept(w, Written(w.base, a), Commit(w.base, a), Advance(w, j, fault).jobs);
        }
      case AtGrant =>
        if fault {
          Unchanged(w.base);
          assert w.log + [] == w.log;
          OthersKept(w, [], w.base, Advance(w, j, fault).jobs);
        } else {
          GrantExplained(w.base, a.request);
          OthersKept(w, GrantWritten(w.base, a.request), Grant(w.base, a.request), Advance(w, j, fault).jobs);
        }
      case Done =>
    }
  }

  lemma NextKeeps(w: World, e: Event)
    requires Inv(w)
    ensures Inv(Next(w, e))
  {
    match e {
      case Arrive(a) =>
        forall i | 0 <= i < |Next(w, e).jobs| ensures JobInv(Next(w, e), Next(w, e).jobs[i]) {
          if i < |w.jobs| {
            assert JobInv(w, w.jobs[i]);
          }
        }
      case Go(j, fault) =>
        if j < |w.jobs| {
          AdvanceKeeps(w, j, fault);
        }
    }
  }

  /** In every interleaving phones stay unique and roles known, and every waiting handler's picture
      is off by exactly the writes since its read. */
  lemma {:induction false} InvAlways(events: seq<Event>)
    ensures Inv(Reach(events))
  {
    if events == [] {
    } else {
      InvAlways(events[..|events| - 1]);
      NextKeeps(Reach(events[..|events| - 1]), events[|events| - 1]);
    }
  }

  // ---- Exactly when a late write does harm ----

  /** The event is a role change or deletion of u, about to be written. */
  predicate WritesTo(w: World, e: Event, u: nat) {
    && e.Go? && !e.fault && e.j < |w.jobs| && w.jobs[e.j].pc.AtWrite?
    && (w.jobs[e.j].ask.ChangeRole? || w.jobs[e.j].ask.Delete?) && w.jobs[e.j].ask.target == u
  }

  /** The event grants an approved request of u. */
  predicate GrantsTo(w: World, e: Event, u: nat) {
    && e.Go? && !e.fault && e.j < |w.jobs| && w.jobs[e.j].pc.AtGrant?
    && w.jobs[e.j].ask.Review? && w.jobs[e.j].ask.request < |w.base.requests|
    && w.base.requests[w.jobs[e.j].ask.request].user == u
  }

  /** Everything a super_admin can suffer, in any interleaving: it loses the role exactly by the grant
      of its own approved request, or by a late write that does not set the top role; and such a
      write meets a super_admin exactly when the last write to the row since its read made it one. */
  lemma TopRoleLost(events: seq<Event>, e: Event, u: nat)
    ensures var w := Reach(events);
            && (IsSuper(w.base, u) ==> (!IsSuper(Next(w, e).base, u) <==>
                  GrantsTo(w, e, u) || (WritesTo(w, e, u) &&
                    !(w.jobs[e.j].ask.ChangeRole? && w.jobs[e.j].ask.role.SuperAdmin?))))
            && (IsSuper(w.base, u) && u !in Next(w, e).base.users ==> WritesTo(w, e, u) && w.jobs[e.j].ask.Delete?)
            && (WritesTo(w, e, u) ==> (IsSuper(w.base, u) <==> MadeSuper(w.log, w.jobs[e.j].pc.since, u)))
  {
    InvAlways(events);
    var w := Reach(events);
    if e.Go? && e.j < |w.jobs| {
      assert JobInv(w, w.jobs[e.j]);
    }
  }

  /** The top role is gained exactly by the write of a role change that a super_admin other than the
      user asked for. */
  lemma TopRoleGained(events: seq<Event>, e: Event, u: nat)
    requires !IsSuper(Reach(events).base, u)
    ensures var w := Reach(events);
            && (IsSuper(Next(w, e).base, u) <==>
                  WritesTo(w, e, u) && u in w.base.users && w.jobs[e.j].ask.ChangeRole? &&
                    w.jobs[e.j].ask.role.SuperAdmin?)
            && (IsSuper(Next(w, e).base, u) ==>
                  w.jobs[e.j].ask.caller.role.SuperAdmin? && w.jobs[e.j].ask.caller.user != u)
  {
    InvAlways(events);
    var w := Reach(events);
    if e.Go? && e.j < |w.jobs| {
      assert JobInv(w, w.jobs[e.j]);
    }
  }

  /** The event writes the decision of request k. */
  predicate Decides(w: World, e: Event, k: nat) {
    && e.Go? && !e.fault && e.j < |w.jobs| && w.jobs[e.j].pc.AtWrite?
    && w.jobs[e.j].ask.Review? && w.jobs[e.j].ask.request == k
  }

  /** A request's row changes exactly by a decision, and a decision meets a decided request exactly
      when another one was written since its read. */
  lemma DecidedAgain(events: seq<Event>, e: Event, k: nat)
    requires k < |Reach(events).base.requests|
    ensures var w := Reach(events);
            && k < |Next(w, e).base.requests|
            && (Next(w, e).base.requests[k] != w.base.requests[k] ==> Decides(w, e, k))
            && (Decides(w, e, k) ==> (!w.base.requests[k].status.Pending? <==>
              DecidedSince(w.log, w.jobs[e.j].pc.since, k)))
  {
    InvAlways(events);
    var w := Reach(events);
    if e.Go? && e.j < |w.jobs| {
      assert JobInv(w, w.jobs[e.j]);
    }
  }

  // ---- Runs without such a write ----

  /** The event is no write to a row that was written since its handler read it. */
  predicate Timely(w: World, e: Event) {
    e.Go? && e.j < |w.jobs| && w.jobs[e.j].pc.AtWrite? ==>
      var a, since := w.jobs[e.j].ask, w.jobs[e.j].pc.since;
      && (a.ChangeRole? || a.Delete? ==> forall i :: since <= i < |w.log| ==> !Touches(w.log[i], a.target))
      && (a.Review? ==> !DecidedSince(w.log, since, a.request))
  }

  lemma {:induction false} UntouchedIsNotSuper(log: seq<Write>, since: nat, u: nat)
    requires forall i :: since <= i < |log| ==> !Touches(log[i], u)
    ensures !MadeSuper(log, since, u)
  {
    if |log| <= since {
    } else {
      UntouchedIsNotSuper(log[..|log| - 1], since, u);
    }
  }

  /** A timely event takes the top role only by the grant of the user's own request, deletes no
      super_admin, and changes no decided request. */
  lemma TimelyDoesNoHarm(events: seq<Event>, e: Event)
    requires Timely(Reach(events), e)
    ensures var w, next := Reach(events), Next(Reach(events), e);
            && (forall u: nat :: IsSuper(w.base, u) && !GrantsTo(w, e, u) ==> IsSuper(next.base, u))
            && (forall u: nat :: IsSuper(w.base, u) ==> u in next.base.users)
            && |w.base.requests| <= |next.base.requests|
            && (forall k: nat :: k < |w.base.requests| && !w.base.requests[k].status.Pending? ==>
              next.base.requests[k] == w.base.requests[k])
  {
    var w := Reach(events);
    forall u: nat ensures IsSuper(w.base, u) ==> !WritesTo(w, e, u) {
      TopRoleLost(events, e, u);
      if WritesTo(w, e, u) {
        UntouchedIsNotSuper(w.log, w.jobs[e.j].pc.since, u);
      }
    }
    forall u: nat ensures IsSuper(w.base, u) && !GrantsTo(w, e, u) ==> IsSuper(Next(w, e).base, u) {
      TopRoleLost(events, e, u);
    }
    forall u: nat ensures IsSuper(w.base, u) ==> u in Next(w, e).base.users {
      TopRoleLost(events, e, u);
    }
    RequestsGrow(w, e);
    forall k: nat | k < |w.base.requests| && !w.base.requests[k].status.Pending?
      ensures Next(w, e).base.requests[k] == w.base.requests[k]
    {
      DecidedAgain(events, e, k);
    }
  }

  lemma RequestsGrow(w: World, e: Event)
    ensures |w.base.requests| <= |Next(w, e).base.requests|
  {
  }

  predicate TimelyRun(past: seq<Event>, future: seq<Event>) {
    forall i :: 0 <= i < |future| ==> Timely(Reach(past + future[..i]), future[i])
  }

  lemma ReachMore(events: seq<Event>, e: Event)
    ensures Reach(events + [e]) == Next(Reach(events), e)
  {
    assert (events + [e])[..|events|] == events;
  }

  /** Over any stretch of any interleaving without untimely writes, a decided request is final. */
  lemma {:induction false} DecidedIsFinal(past: seq<Event>, future: seq<Event>, k: nat)
    requires TimelyRun(past, future) && k < |Reach(past).base.requests| && !Reach(past).base.requests[k].status.Pending?
    ensures k < |Reach(past + future).base.requests| &&
      Reach(past + future).base.requests[k] == Reach(past).base.requests[k]
  {
    if future == [] {
      assert past + future == past;
    } else {
      var n := |future| - 1;
      TimelyPrefix(past, future, n);
      DecidedIsFinal(past, future[..n], k);
      TimelyDoesNoHarm(past + future[..n], future[n]);
      ReachMore(past + future[..n], future[n]);
      assert past + future == past + future[..n] + [future[n]];
    }
  }

  lemma TimelyPrefix(past: seq<Event>, future: seq<Event>, n: nat)
    requires TimelyRun(past, future) && n <= |future|
    ensures TimelyRun(past, future[..n])
  {
    forall i | 0 <= i < n ensures Timely(Reach(past + future[..n][..i]), future[..n][i]) {
      assert future[..n][..i] == future[..i];
    }
  }

  // ---- Races ----

  lemma FromMore(w: World, events: seq<Event>, e: Event)
    ensures From(w, events + [e]) == Next(From(w, events), e)
  {
    assert (events + [e])[..|events|] == events;
  }

  lemma BothArrive(w: World, a: Action, b: Action)
    requires Admits(a) && Admits(b)
    ensures Next(Next(w, Arrive(a)), Arrive(b)) == w.(jobs := w.jobs + [Job(a, AtRead), Job(b, AtRead)])
  {
    assert w.jobs + [Job(a, AtRead)] + [Job(b, AtRead)] == w.jobs + [Job(a, AtRead), Job(b, AtRead)];
  }

  lemma BothPass(w: World, jobs: seq<Job>, a: Action, b: Action)
    requires w.jobs == jobs + [Job(a, AtRead), Job(b, AtRead)]
    requires ReadPasses(w.base, a, false) && ReadPasses(w.base, b, false)
    ensures Next(Next(w, Go(|jobs|, false)), Go(|jobs| + 1, false))
         == w.(jobs := jobs + [Job(a, AtWrite(|w.log|)), Job(b, AtWrite(|w.log|))])
  {
    var j := |jobs|;
    var w1 := Next(w, Go(j, false));
    assert w1 == w.(jobs := w.jobs[j := Job(a, AtWrite(|w.log|))]);
    assert w.jobs[j := Job(a, AtWrite(|w.log|))][j + 1 := Job(b, AtWrite(|w.log|))]
        == jobs + [Job(a, AtWrite(|w.log|)), Job(b, AtWrite(|w.log|))];
  }

  /** Two handlers whose reads have both passed, with nothing written since. */
  lemma BothRead(w: World, a: Action, b: Action) returns (events: seq<Event>)
    requires Admits(a) && Admits(b) && ReadPasses(w.base, a, false) && ReadPasses(w.base, b, false)
    ensures From(w, events) == World(w.base, w.jobs + [Job(a, AtWrite(|w.log|)), Job(b, AtWrite(|w.log|))], w.log)
  {
    var j := |w.jobs|;
    FromMore(w, [], Arrive(a));
    FromMore(w, [] + [Arrive(a)], Arrive(b));
    FromMore(w, [] + [Arrive(a)] + [Arrive(b)], Go(j, false));
    events := [] + [Arrive(a)] + [Arrive(b)] + [Go(j, false)] + [Go(j + 1, false)];
    FromMore(w, [] + [Arrive(a)] + [Arrive(b)] + [Go(j, false)], Go(j + 1, false));
    BothArrive(w, a, b);
    BothPass(w.(jobs := w.jobs + [Job(a, AtRead), Job(b, AtRead)]), w.jobs, a, b);
  }

  /** Two reviews of one pending request that both read before either writes: it is approved and
      granted, and a last write turns the approval into a rejection and leaves the grant. */
  lemma RejectedAndGranted(w: World, k: nat, first: Claims, second: Claims)
    requires first.role.SuperAdmin? && second.role.SuperAdmin?
    requires k < |w.base.requests| && w.base.requests[k].status.Pending? && w.base.requests[k].user in w.base.users
    ensures exists events, e ::
      var r, mid := w.base.requests[k], From(w, events);
      && mid.base == Grant(Commit(w.base, Review(first, k, true, false, false)), k)
      && k < |mid.base.requests| && mid.base.requests[k].status.Approved?
      && mid.log == w.log + [Decided(k), RoleSet(r.user, r.role)]
      && Next(mid, e).base == mid.base.(requests := mid.base.requests[k := r.(status := Rejected)])
  {
    var r, j := w.base.requests[k], |w.jobs|;
    var yes, no := Review(first, k, true, false, false), Review(second, k, false, false, false);
    var read := BothRead(w, yes, no);
    var marked := read + [Go(j, false)];
    var granted := marked + [Go(j, false)];
    FromMore(w, read, Go(j, false));
    assert From(w, marked).jobs[j] == Job(yes, AtGrant) && From(w, marked).jobs[j + 1] == Job(no, AtWrite(|w.log|));
    FromMore(w, marked, Go(j, false));
    var mid := From(w, granted);
    assert mid.jobs[j + 1] == Job(no, AtWrite(|w.log|));
    assert mid.log == w.log + [Decided(k), RoleSet(r.user, r.role)];
    assert mid.base.requests[k] == r.(status := Approved);
    assert r.(status := Approved).(status := Rejected) == r.(status := Rejected);
    assert Next(mid, Go(j + 1, false)).base == mid.base.(requests := mid.base.requests[k := r.(status := Rejected)]);
  }

  /** A deletion that reads a user before its promotion and is written after it: a super_admin is
      deleted. */
  lemma NewSuperDeleted(w: World, u: nat, first: Claims, second: Claims)
    requires first.role.SuperAdmin? && second.role.SuperAdmin? && first.user != u && second.user != u
    requires u in w.base.users && !w.base.users[u].role.SuperAdmin?
    ensures exists events, e ::
      IsSuper(From(w, events).base, u) && u !in From(w, events + [e]).base.users
  {
    var j := |w.jobs|;
    var read := BothRead(w, Delete(first, u, false), ChangeRole(second, u, SuperAdmin, false));
    var raised := read + [Go(j + 1, false)];
    FromMore(w, read, Go(j + 1, false));
    assert From(w, raised).jobs[j] == Job(Delete(first, u, false), AtWrite(|w.log|));
    FromMore(w, raised, Go(j, false));
    assert IsSuper(From(w, raised).base, u);
    assert u !in From(w, raised + [Go(j, false)]).base.users;
  }
}
