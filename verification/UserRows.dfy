/** Which rows of the users and upgrade-request tables a handler adds, changes or removes, and what it
    puts there: for handlers run one after the other, and for the single statements of interleaved ones. */
module UserRows {
  import opened Text
  import opened UserRoles
  import Races = UserRaces

  // ---- Handlers run one after the other ----

  /** A form with a name, a phone and a password, and a phone no user has. */
  predicate NewForm(st: State, form: Form) {
    && TrimSpace(form.name) != "" && TrimSpace(form.phone) != "" && form.password != ""
    && forall u :: u in st.users ==> st.users[u].phone != TrimSpace(form.phone)
  }

  /** One user more, under a fresh id, with the trimmed phone and the role; nothing else changed. */
  predicate OneMore(st: State, next: State, phone: string, role: Role) {
    && st.next !in st.users && next.users == st.users[st.next := User(TrimSpace(phone), role)]
    && next.next == st.next + 1 && next.requests == st.requests
  }

  /** Whoever registers becomes a normal_user, with a new form and no failing statement; otherwise
      nothing changes.  A failed look-up of the phone makes no difference. */
  lemma SelfRegisterAddsOne(actions: seq<Action>, form: Form, phoneCheckFails: bool, fails: bool)
    ensures var st := Run(actions);
            var next := Step(st, SelfRegister(form, phoneCheckFails, fails));
            if NewForm(st, form) && !fails then OneMore(st, next, form.phone, NormalUser) else next == st
  {
    RunIsSound(actions);
  }

  /** A super_admin, and nobody else, registers a data_admin or a visitor with the role asked for. */
  lemma RegisterAddsOne(actions: seq<Action>, caller: Claims, form: Form, role: Role, phoneCheckFails: bool,
                        fails: bool)
    ensures var st := Run(actions);
            var next := Step(st, Register(caller, form, role, phoneCheckFails, fails));
            if caller.role == SuperAdmin && (role == DataAdmin || role == Visitor) && NewForm(st, form) && !fails
            then OneMore(st, next, form.phone, role) else next == st
  {
    RunIsSound(actions);
  }

  /** The action is a role change for u that goes through. */
  predicate SetsRole(st: State, a: Action, u: nat) {
    && a.ChangeRole? && a.target == u && !a.fails && a.caller.role == SuperAdmin && a.caller.user != u
    && a.role in {SuperAdmin, DataAdmin, NormalUser, Visitor} && u in st.users && st.users[u].role != SuperAdmin
  }

  /** The action decides request k. */
  predicate Reviews(st: State, a: Action, k: nat) {
    && a.Review? && a.request == k && !a.fails && a.caller.role == SuperAdmin
    && k < |st.requests| && st.requests[k].status == Pending
  }

  predicate DeletesUser(st: State, a: Action, u: nat) {
    && a.Delete? && a.target == u && !a.fails && a.caller.role == SuperAdmin && a.caller.user != u
    && u in st.users && st.users[u].role != SuperAdmin
  }

  /** How any step of any run changes the row of any user: it goes by a deletion, takes the role of a
      role change or of an approved request, and stays as it is otherwise; the phone never changes. */
  lemma UserRowChanges(actions: seq<Action>, a: Action, u: nat)
    requires u in Run(actions).users
    ensures var st, next := Run(actions), Step(Run(actions), a);
            && (u !in next.users <==> DeletesUser(st, a, u))
            && (u in next.users ==>
                  && next.users[u].phone == st.users[u].phone
                  && next.users[u].role ==
                     if SetsRole(st, a, u) then a.role
                     else if a.Review? && Reviews(st, a, a.request) && a.approve && !a.grantFails &&
                       st.requests[a.request].user == u then st.requests[a.request].role
                     else st.users[u].role)
  {
    RunIsSound(actions);
  }

  /** A user appears by a registration and not otherwise. */
  lemma OnlyRegistrationsAdd(st: State, a: Action, u: nat)
    requires u !in st.users && u in Step(st, a).users
    ensures (a.Register? || a.SelfRegister?) && u == st.next
  {
  }

  /** How any step changes the requests: one more, pending and in the caller's name, by a request for one
      of two roles; a pending one approved or rejected by a super_admin; nothing else. */
  lemma RequestRowsChange(st: State, a: Action)
    ensures var next := Step(st, a);
            var files := a.RequestUpgrade? && !a.fails && (a.role == DataAdmin || a.role == Visitor);
            && |next.requests| == |st.requests| + (if files then 1 else 0)
            && (files ==> next.requests[|st.requests|] == UpgradeRequest(a.caller.user, a.role, Pending))
            && forall k: nat :: k < |st.requests| ==>
                 && next.requests[k].user == st.requests[k].user && next.requests[k].role == st.requests[k].role
                 && next.requests[k].status ==
                    if Reviews(st, a, k) then if a.approve then Approved else Rejected else st.requests[k].status
  {
  }

  // ---- Interleaved statements ----

  /** The event is the writing statement of handler e.j, and it is answered. */
  predicate Writes(w: Races.World, e: Races.Event) {
    e.Go? && !e.fault && e.j < |w.jobs| && w.jobs[e.j].pc.AtWrite?
  }

  /** In every interleaving, the insert of a registration adds one user under a fresh id, with the
      trimmed phone and the role NormalUser for whoever registers alone, and otherwise the data_admin
      or visitor a super_admin asked for; if the phone is taken by then, nothing changes. */
  lemma InsertAddsOne(events: seq<Races.Event>, e: Races.Event)
    requires var w := Races.Reach(events);
             Writes(w, e) && (w.jobs[e.j].ask.SelfRegister? || w.jobs[e.j].ask.Register?)
    ensures var w, base := Races.Reach(events), Races.Next(Races.Reach(events), e).base;
            var ask := w.jobs[e.j].ask;
            && TrimSpace(ask.form.name) != "" && TrimSpace(ask.form.phone) != "" && ask.form.password != ""
            && (ask.Register? ==> ask.caller.role == SuperAdmin && (ask.role == DataAdmin || ask.role == Visitor))
            && (if NewForm(w.base, ask.form)
                then OneMore(w.base, base, ask.form.phone, if ask.Register? then ask.role else NormalUser)
                else base == w.base)
  {
    Races.InvAlways(events);
    var w := Races.Reach(events);
    assert Races.JobInv(w, w.jobs[e.j]);
  }

  /** In every interleaving, how one statement changes the row of any user: gone by the write of a
      deletion, with the role of a written role change or of a granted request, and otherwise as it is. */
  lemma UserRowInterleaved(w: Races.World, e: Races.Event, u: nat)
    requires Races.Inv(w) && u in w.base.users
    ensures var next := Races.Next(w, e).base;
            && (u !in next.users <==> Races.WritesTo(w, e, u) && w.jobs[e.j].ask.Delete?)
            && (u in next.users ==>
                  && next.users[u].phone == w.base.users[u].phone
                  && next.users[u].role ==
                     if Races.WritesTo(w, e, u) then w.jobs[e.j].ask.role
                     else if Races.GrantsTo(w, e, u) then w.base.requests[w.jobs[e.j].ask.request].role
                     else w.base.users[u].role)
  {
    if e.Go? && e.j < |w.jobs| {
      assert Races.JobInv(w, w.jobs[e.j]);
    }
  }

  lemma OnlyInsertsAdd(w: Races.World, e: Races.Event, u: nat)
    requires u !in w.base.users && u in Races.Next(w, e).base.users
    ensures Writes(w, e) && (w.jobs[e.j].ask.Register? || w.jobs[e.j].ask.SelfRegister?) && u == w.base.next
  {
  }

  /** The same of the requests: one filed by the write of a request, one decided by that of a review. */
  lemma RequestRowsInterleaved(w: Races.World, e: Races.Event)
    requires Races.Inv(w)
    ensures var next := Races.Next(w, e).base;
            var files := Writes(w, e) && w.jobs[e.j].ask.RequestUpgrade?;
            && |next.requests| == |w.base.requests| + (if files then 1 else 0)
            && (files ==> (next.requests[|w.base.requests|] ==
                  UpgradeRequest(w.jobs[e.j].ask.caller.user, w.jobs[e.j].ask.role, Pending)))
            && forall k: nat :: k < |w.base.requests| ==>
                 && next.requests[k].user == w.base.requests[k].user
                 && next.requests[k].role == w.base.requests[k].role
                 && next.requests[k].status ==
                    if Races.Decides(w, e, k) then if w.jobs[e.j].ask.approve then Approved else Rejected
                    else w.base.requests[k].status
  {
    if e.Go? && e.j < |w.jobs| {
      assert Races.JobInv(w, w.jobs[e.j]);
    }
  }
}
