/** Users and role-upgrade requests (`internal/handlers/auth.go`), as serial runs of the
    handlers; `UserRaces` takes the handlers apart.  The caller's claims come from its token and
    may be out of date. */
module UserRoles {
  import opened Collections
  import opened Text

  /** A role name, after trimming and lower-casing; Other is any text that is not a role. */
  datatype Role = SuperAdmin | DataAdmin | NormalUser | Visitor | Other(text: string)

  datatype User = User(phone: string, role: Role)

  datatype ReviewStatus = Pending | Approved | Rejected

  datatype UpgradeRequest = UpgradeRequest(user: nat, role: Role, status: ReviewStatus)

  /** Users by id (deleted ones are gone), requests by number, and the next fresh user id. */
  datatype State = State(users: map<nat, User>, requests: seq<UpgradeRequest>, next: nat)

  datatype Claims = Claims(user: nat, role: Role)

  /** What a registration sends; name and phone are trimmed. */
  datatype Form = Form(name: string, phone: string, password: string)

  predicate Complete(form: Form) {
    TrimSpace(form.name) != "" && TrimSpace(form.phone) != "" && form.password != ""
  }

  /** fails: a statement failed and the handler returned the error, without effect.
      phoneCheckFails: the look-up before an insert failed, was logged and passed over.
      grantFails: the role update after an approval failed, was logged and passed over. */
  datatype Action =
    | Register(caller: Claims, form: Form, role: Role, phoneCheckFails: bool, fails: bool)
    | SelfRegister(form: Form, phoneCheckFails: bool, fails: bool)
    | ChangeRole(caller: Claims, target: nat, role: Role, fails: bool)
    | Delete(caller: Claims, target: nat, fails: bool)
    | RequestUpgrade(caller: Claims, role: Role, fails: bool)
    | Review(caller: Claims, request: nat, approve: bool, grantFails: bool, fails: bool)

  /** The seeded administrator has no phone. */
  const SEEDED := State(map[0 := User("", SuperAdmin)], [], 1)

  predicate PhoneTaken(st: State, phone: string) {
    exists u :: u in st.users && st.users[u].phone == phone
  }

  /** The e-mail column is unique and made from the phone, so an insert with a taken phone fails
      even when the check before it was passed over. */
  function Insert(st: State, phone: string, role: Role): State {
    if PhoneTaken(st, phone) then st
    else st.(users := st.users[st.next := User(phone, role)], next := st.next + 1)
  }

  predicate Grantable(role: Role) { role.DataAdmin? || role.Visitor? }

  /** What a handler does when all its statements are answered. */
  function Effect(st: State, a: Action): State {
    match a
    case Register(caller, form, role, phoneCheckFails, _) =>
      var phone := TrimSpace(form.phone);
      if !caller.role.SuperAdmin? || !Complete(form) || !Grantable(role) || (!phoneCheckFails && PhoneTaken(st, phone))
      then st
      else Insert(st, phone, role)
    case SelfRegister(form, phoneCheckFails, _) =>
      var phone := TrimSpace(form.phone);
      if !Complete(form) || (!phoneCheckFails && PhoneTaken(st, phone)) then st
      else Insert(st, phone, NormalUser)
    case ChangeRole(caller, target, role, _) =>
      if !caller.role.SuperAdmin? || target == caller.user || role.Other? || !Ordinary(st, target) then st
      else st.(users := st.users[target := st.users[target].(role := role)])
    case Delete(caller, target, _) =>
      if !caller.role.SuperAdmin? || target == caller.user || !Ordinary(st, target) then st
      else st.(users := st.users - {target})
    case RequestUpgrade(caller, role, _) =>
      if !Grantable(role) then st
      else st.(requests := st.requests + [UpgradeRequest(caller.user, role, Pending)])
    case Review(caller, k, approve, grantFails, _) =>
      if !caller.role.SuperAdmin? || k >= |st.requests| || !st.requests[k].status.Pending? then st
      else
        var r := st.requests[k];
        var noted := st.(requests := st.requests[k := r.(status := if approve then Approved else Rejected)]);
        if approve && !grantFails && r.user in st.users then
          noted.(users := st.users[r.user := st.users[r.user].(role := r.role)])
        else noted
  }

  /** A user that is there and not a super_admin. */
  predicate Ordinary(st: State, u: nat) {
    u in st.users && !st.users[u].role.SuperAdmin?
  }

  function Step(st: State, a: Action): State {
    if a.fails then st else Effect(st, a)
  }

  function Run(actions: seq<Action>): State {
    if actions == [] then SEEDED else Step(Run(actions[..|actions| - 1]), actions[|actions| - 1])
  }

  // ---- The handlers ----

  /** The two tables, and the handlers as they check and then write. */
  class Accounts {
    var users: map<nat, User>
    var requests: seq<UpgradeRequest>
    var next: nat

    function Abstract(): State
      reads this
    {
      State(users, requests, next)
    }

    constructor ()
      ensures Abstract() == SEEDED
    {
      users, requests, next := map[0 := User("", SuperAdmin)], [], 1;
    }

    /** The look-up before an insert: some user has the phone. */
    method PhoneExists(phone: string) returns (found: bool)
      ensures found <==> PhoneTaken(Abstract(), phone)
    {
      var left := users.Keys;
      while left != {}
        invariant left <= users.Keys
        invariant forall u :: u in users && u !in left ==> users[u].phone != phone
        decreases left
      {
        var u :| u in left;
        if users[u].phone == phone {
          return true;
        }
        left := left - {u};
      }
      return false;
    }

    /** The insert, under the unique e-mail made from the phone. */
    method InsertUser(phone: string, role: Role) returns (ok: bool)
      modifies this
      ensures Abstract() == Insert(old(Abstract()), phone, role)
      ensures ok <==> !PhoneTaken(old(Abstract()), phone)
    {
      var taken := PhoneExists(phone);
      if taken {
        return false;
      }
      users, next := users[next := User(phone, role)], next + 1;
      return true;
    }

    method Register(caller: Claims, form: Form, role: Role, phoneCheckFails: bool, fails: bool)
      returns (ok: bool)
      modifies this
      ensures Abstract() == Step(old(Abstract()), Action.Register(caller, form, role, phoneCheckFails, fails))
      ensures ok <==> Abstract() != old(Abstract())
      ensures ok ==> requests == old(requests) && users == old(users)[old(next) := User(TrimSpace(form.phone), role)]
      ensures ok ==> caller.role == SuperAdmin && (role == DataAdmin || role == Visitor)
    {
      if !caller.role.SuperAdmin? {
        return false;
      }
      var phone, name := TrimSpace(form.phone), TrimSpace(form.name);
      if phone == "" || name == "" || form.password == "" {
        return false;
      }
      if !role.DataAdmin? && !role.Visitor? {
        return false;
      }
      var taken := PhoneExists(phone);
      if taken && !phoneCheckFails {
        return false;
      }
      if fails {
        return false;
      }
      ok := InsertUser(phone, role);
    }

    method SelfRegister(form: Form, phoneCheckFails: bool, fails: bool)
      returns (ok: bool)
      modifies this
      ensures Abstract() == Step(old(Abstract()), Action.SelfRegister(form, phoneCheckFails, fails))
      ensures ok <==> Abstract() != old(Abstract())
      ensures ok ==>
        requests == old(requests) && users == old(users)[old(next) := User(TrimSpace(form.phone), NormalUser)]
    {
      var phone, name := TrimSpace(form.phone), TrimSpace(form.name);
      if phone == "" || name == "" || form.password == "" {
        return false;
      }
      var taken := PhoneExists(phone);
      if taken && !phoneCheckFails {
        return false;
      }
      if fails {
        return false;
      }
      ok := InsertUser(phone, NormalUser);
    }

    method ChangeUserRole(caller: Claims, target: nat, role: Role, fails: bool) returns (ok: bool)
      modifies this
      ensures Abstract() == Step(old(Abstract()), ChangeRole(caller, target, role, fails))
      ensures ok ==> target in users && users[target].role == role
    {
      if !caller.role.SuperAdmin? || target == caller.user || role.Other? {
        return false;
      }
      if target !in users || users[target].role.SuperAdmin? {
        return false;
      }
      if fails {
        return false;
      }
      users := users[target := users[target].(role := role)];
      return true;
    }

    method DeleteUser(caller: Claims, target: nat, fails: bool) returns (ok: bool)
      modifies this
      ensures Abstract() == Step(old(Abstract()), Delete(caller, target, fails))
      ensures ok ==> target !in users
    {
      if !caller.role.SuperAdmin? || target == caller.user {
        return false;
      }
      if target !in users || users[target].role.SuperAdmin? {
        return false;
      }
      if fails {
        return false;
      }
      users := users - {target};
      return true;
    }

    method CreateUpgradeRequest(caller: Claims, role: Role, fails: bool) returns (id: Option<nat>)
      modifies this
      ensures Abstract() == Step(old(Abstract()), RequestUpgrade(caller, role, fails))
      ensures id.Some? ==> id.value < |requests| && requests[id.value] == UpgradeRequest(caller.user, role, Pending)
    {
      if !role.DataAdmin? && !role.Visitor? {
        return None;
      }
      if fails {
        return None;
      }
      requests := requests + [UpgradeRequest(caller.user, role, Pending)];
      return Some(|requests| - 1);
    }

    method ReviewUpgradeRequest(caller: Claims, k: nat, approve: bool, grantFails: bool, fails: bool) returns (ok: bool)
      modifies this
      ensures Abstract() == Step(old(Abstract()), Review(caller, k, approve, grantFails, fails))
      ensures ok ==> k < |requests| && !requests[k].status.Pending?
    {
      if !caller.role.SuperAdmin? || k >= |requests| {
        return false;
      }
      var r := requests[k];
      if !r.status.Pending? {
        return false;
      }
      if fails {
        return false;
      }
      requests := requests[k := r.(status := if approve then Approved else Rejected)];
      if approve && !grantFails && r.user in users {
        users := users[r.user := users[r.user].(role := r.role)];
      }
      return true;
    }
  }

  // ---- What every handler keeps ----

  predicate Sound(st: State) {
    && (forall u :: u in st.users ==> u < st.next && !st.users[u].role.Other?)
    && (forall u, v :: u in st.users && v in st.users && st.users[u].phone == st.users[v].phone ==> u == v)
    && (forall k :: 0 <= k < |st.requests| ==> Grantable(st.requests[k].role))
  }

  lemma StepKeepsSound(st: State, a: Action)
    requires Sound(st)
    ensures Sound(Step(st, a))
  {
  }

  /** Phones stay unique and roles stay within the four known ones. */
  lemma {:induction false} RunIsSound(actions: seq<Action>)
    ensures Sound(Run(actions))
  {
    if actions == [] {
    } else {
      RunIsSound(actions[..|actions| - 1]);
      StepKeepsSound(Run(actions[..|actions| - 1]), actions[|actions| - 1]);
    }
  }

  predicate IsSuper(st: State, u: nat) { u in st.users && st.users[u].role.SuperAdmin? }

  /** The step approves a pending request that u filed itself. */
  predicate ApprovesOwnRequest(st: State, a: Action, u: nat) {
    && a.Review? && a.approve && a.request < |st.requests|
    && st.requests[a.request].user == u && st.requests[a.request].status.Pending?
  }

  /** Exactly how the top role moves in one step of any run: gained by ChangeRole at the hands of a
      super_admin other than the user itself, never deleted, lost by the granted approval of a
      request the same user filed. */
  lemma TopRoleMoves(actions: seq<Action>, a: Action, u: nat)
    ensures var st, next := Run(actions), Step(Run(actions), a);
            && (!IsSuper(st, u) ==> (IsSuper(next, u) <==>
                  a.ChangeRole? && a.target == u && u in st.users && a.role.SuperAdmin? && !a.fails &&
                  a.caller.role.SuperAdmin? && a.caller.user != u))
            && (IsSuper(st, u) ==> u in next.users)
            && (IsSuper(st, u) ==> (!IsSuper(next, u) <==>
                  ApprovesOwnRequest(st, a, u) && a.caller.role.SuperAdmin? && !a.grantFails && !a.fails))
  {
    RunIsSound(actions);
  }

  /** The seeded super_admin files a request, has it approved, and is one no more. */
  lemma OwnRequestCostsTheRole()
    ensures var file := RequestUpgrade(Claims(0, SuperAdmin), Visitor, false);
            var approve := Review(Claims(0, SuperAdmin), 0, true, false, false);
            IsSuper(Run([file]), 0) && !IsSuper(Run([file, approve]), 0)
  {
    var file := RequestUpgrade(Claims(0, SuperAdmin), Visitor, false);
    var approve := Review(Claims(0, SuperAdmin), 0, true, false, false);
    assert [] + [file] == [file] && [file] + [approve] == [file, approve];
    RunMore([], file);
    RunMore([file], approve);
    assert Run([file]) == SEEDED.(requests := [UpgradeRequest(0, Visitor, Pending)]);
    TopRoleMoves([file], approve, 0);
  }

  /** Requests keep their user and role, and a reviewed one stays as it is. */
  predicate RequestsKept(st: State, later: State) {
    && |st.requests| <= |later.requests|
    && forall k :: 0 <= k < |st.requests| ==>
         && later.requests[k].user == st.requests[k].user && later.requests[k].role == st.requests[k].role
         && (!st.requests[k].status.Pending? ==> later.requests[k] == st.requests[k])
  }

  lemma StepKeepsRequests(st: State, a: Action)
    ensures RequestsKept(st, Step(st, a))
  {
  }

  lemma KeptTrans(a: State, b: State, c: State)
    requires RequestsKept(a, b) && RequestsKept(b, c)
    ensures RequestsKept(a, c)
  {
  }

  lemma RunKeepsRequests(actions: seq<Action>, a: Action)
    ensures RequestsKept(Run(actions), Run(actions + [a]))
  {
    RunMore(actions, a);
    StepKeepsRequests(Run(actions), a);
  }

  /** A reviewed request is final, and requests are never lost. */
  lemma {:induction false} ReviewedIsFinal(past: seq<Action>, future: seq<Action>)
    ensures RequestsKept(Run(past), Run(past + future))
  {
    if future == [] {
      assert past + future == past;
    } else {
      var n := |future| - 1;
      var mid, a := past + future[..n], future[n];
      ReviewedIsFinal(past, future[..n]);
      RunKeepsRequests(mid, a);
      KeptTrans(Run(past), Run(mid), Run(mid + [a]));
      assert past + future == mid + [a];
    }
  }

  lemma RunMore(actions: seq<Action>, a: Action)
    ensures Run(actions + [a]) == Step(Run(actions), a)
  {
    assert (actions + [a])[..|actions|] == actions;
  }

  /** Step i of the future takes the top role from u, if it has it. */
  predicate Costs(past: seq<Action>, future: seq<Action>, i: nat, u: nat)
    requires i < |future|
  {
    && ApprovesOwnRequest(Run(past + future[..i]), future[i], u)
    && future[i].caller.role.SuperAdmin? && !future[i].grantFails && !future[i].fails
  }

  predicate StillSuper(past: seq<Action>, future: seq<Action>, i: nat, u: nat)
    requires i <= |future|
  {
    IsSuper(Run(past + future[..i]), u)
  }

  lemma StaysForOneStep(past: seq<Action>, future: seq<Action>, i: nat, u: nat)
    requires i < |future| && StillSuper(past, future, i, u)
    ensures StillSuper(past, future, i + 1, u) <==> !Costs(past, future, i, u)
  {
    TopRoleMoves(past + future[..i], future[i], u);
    RunMore(past + future[..i], future[i]);
    assert past + future[..i + 1] == past + future[..i] + [future[i]];
  }

  /** Over any stretch of any run a super_admin has kept the role throughout exactly when none of
      its own requests was approved and granted on the way. */
  lemma {:induction false} SuperAdminStays(past: seq<Action>, future: seq<Action>, n: nat, u: nat)
    requires IsSuper(Run(past), u) && n <= |future|
    ensures AlwaysSuper(past, future, n, u) <==> NeverCosts(past, future, n, u)
  {
    if n == 0 {
      assert past + future[..0] == past;
      assert StillSuper(past, future, 0, u);
    } else {
      SuperAdminStays(past, future, n - 1, u);
      if StillSuper(past, future, n - 1, u) {
        StaysForOneStep(past, future, n - 1, u);
      }
      OneMoreStep(past, future, n, u);
    }
  }

  predicate AlwaysSuper(past: seq<Action>, future: seq<Action>, n: nat, u: nat)
    requires n <= |future|
  {
    forall i: nat :: i <= n ==> StillSuper(past, future, i, u)
  }

  predicate NeverCosts(past: seq<Action>, future: seq<Action>, n: nat, u: nat)
    requires n <= |future|
  {
    forall i: nat :: i < n ==> !Costs(past, future, i, u)
  }

  lemma OneMoreStep(past: seq<Action>, future: seq<Action>, n: nat, u: nat)
    requires 0 < n <= |future|
    ensures AlwaysSuper(past, future, n, u) <==> AlwaysSuper(past, future, n - 1, u) && StillSuper(past, future, n, u)
    ensures AlwaysSuper(past, future, n - 1, u) ==> StillSuper(past, future, n - 1, u)
    ensures NeverCosts(past, future, n, u) <==> NeverCosts(past, future, n - 1, u) && !Costs(past, future, n - 1, u)
  {
  }
}
