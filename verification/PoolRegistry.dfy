/** The connection-pool registry of `internal/mysqlmgr/manager.go`.  Every operation holds the
    manager's lock, so runs are sequences of operations. */
module PoolRegistry {
  import opened Collections

  /** Registered pools by dataset, the handles that are open, and the next handle. */
  datatype Registry = Registry(pools: map<string, nat>, open: set<nat>, next: nat)

  datatype Op =
    | Connect(dataset: string, opens: bool, pings: bool)
    | GetPool(dataset: string)
    | Close(dataset: string)
    | CloseAll

  const EMPTY := Registry(map[], {}, 0)

  /** The next state, and the handle the caller obtains. */
  function Step(r: Registry, op: Op): (Registry, Option<nat>) {
    match op
    case Connect(d, opens, pings) =>
      if d in r.pools then (r, Some(r.pools[d]))
      else if !opens then (r, None)
      else if !pings then (r.(next := r.next + 1), None)
      else (Registry(r.pools[d := r.next], r.open + {r.next}, r.next + 1), Some(r.next))
    case GetPool(d) => (r, if d in r.pools then Some(r.pools[d]) else None)
    case Close(d) =>
      if d in r.pools then (Registry(r.pools - {d}, r.open - {r.pools[d]}, r.next), None) else (r, None)
    case CloseAll => (Registry(map[], r.open - r.pools.Values, r.next), None)
  }

  /** The open pools are exactly the registered ones, one for each dataset. */
  predicate Sound(r: Registry) {
    && r.open == r.pools.Values
    && (forall d :: d in r.pools ==> r.pools[d] < r.next)
    && (forall d, e :: d in r.pools && e in r.pools && r.pools[d] == r.pools[e] ==> d == e)
  }

  class Manager {
    var pools: map<string, nat>
    var open: set<nat>
    var next: nat

    function Abstract(): Registry
      reads this
    {
      Registry(pools, open, next)
    }

    constructor ()
      ensures Abstract() == EMPTY && Sound(EMPTY)
    {
      pools, open, next := map[], {}, 0;
    }

    /** A pool that does not answer the ping is closed again. */
    method Connect(dataset: string, opens: bool, pings: bool) returns (pool: Option<nat>)
      requires Sound(Abstract())
      modifies this
      ensures (Abstract(), pool) == Step(old(Abstract()), Op.Connect(dataset, opens, pings))
    {
      if dataset in pools {
        return Some(pools[dataset]);
      }
      if !opens {
        return None;
      }
      var handle := next;
      next, open := next + 1, open + {handle};
      if !pings {
        open := open - {handle};
        return None;
      }
      pools := pools[dataset := handle];
      return Some(handle);
    }

    method GetPool(dataset: string) returns (pool: Option<nat>)
      ensures (Abstract(), pool) == Step(Abstract(), Op.GetPool(dataset))
    {
      pool := if dataset in pools then Some(pools[dataset]) else None;
    }

    method Close(dataset: string)
      modifies this
      ensures Abstract() == Step(old(Abstract()), Op.Close(dataset)).0
    {
      if dataset in pools {
        open := open - {pools[dataset]};
        pools := pools - {dataset};
      }
    }

    /** Closes and deletes entry after entry, in no particular order. */
    method CloseAll()
      modifies this
      ensures Abstract() == Step(old(Abstract()), Op.CloseAll).0
    {
      while pools != map[]
        invariant next == old(next)
        invariant open - pools.Values == old(open) - old(pools).Values
        decreases |pools|
      {
        var d :| d in pools;
        ghost var before := pools;
        open := open - {pools[d]};
        pools := pools - {d};
        ValuesAfterDrop(before, d);
      }
    }
  }

  // ---- Over every run ----

  function Run(r: Registry, ops: seq<Op>): Registry {
    if ops == [] then r else Step(Run(r, ops[..|ops| - 1]), ops[|ops| - 1]).0
  }

  lemma ValuesAfterDrop(m: map<string, nat>, d: string)
    requires d in m
    ensures m.Values == (m - {d}).Values + {m[d]} && |m - {d}| < |m|
  {
    var rest := m - {d};
    assert rest.Keys == m.Keys - {d};
    assert |rest| == |rest.Keys| && |m| == |m.Keys|;
    forall h ensures h in m.Values <==> h in rest.Values || h == m[d] {
      if h in m.Values && h != m[d] {
        var e :| e in m && m[e] == h;
        assert e in rest && rest[e] == h;
      }
    }
  }

  lemma ValuesAfterClose(m: map<string, nat>, d: string)
    requires d in m && forall e :: e in m && m[e] == m[d] ==> e == d
    ensures (m - {d}).Values == m.Values - {m[d]}
  {
    var rest := m - {d};
    forall h ensures h in rest.Values <==> h in m.Values && h != m[d] {
      if h in m.Values && h != m[d] {
        var e :| e in m && m[e] == h;
        assert e in rest && rest[e] == h;
      }
      if h in rest.Values {
        var e :| e in rest && rest[e] == h;
        assert e in m && m[e] == h;
      }
    }
  }

  lemma ValuesAfterConnect(m: map<string, nat>, d: string, h: nat)
    requires d !in m
    ensures m[d := h].Values == m.Values + {h}
  {
    var more := m[d := h];
    forall x ensures x in more.Values <==> x in m.Values || x == h {
      if x in m.Values {
        var e :| e in m && m[e] == x;
        assert e in more && more[e] == x;
      }
      assert d in more && more[d] == h;
    }
  }

  lemma StepKeepsSound(r: Registry, op: Op)
    requires Sound(r)
    ensures Sound(Step(r, op).0)
  {
    match op {
      case Connect(d, opens, pings) =>
        if d !in r.pools && opens && pings { ValuesAfterConnect(r.pools, d, r.next); }
      case Close(d) => if d in r.pools { ValuesAfterClose(r.pools, d); }
      case _ =>
    }
  }

  lemma {:induction false} RunKeepsSound(r: Registry, ops: seq<Op>)
    requires Sound(r)
    ensures Sound(Run(r, ops))
  {
    if ops == [] {
    } else {
      RunKeepsSound(r, ops[..|ops| - 1]);
      StepKeepsSound(Run(r, ops[..|ops| - 1]), ops[|ops| - 1]);
    }
  }

  predicate Closes(op: Op, d: string) { op.CloseAll? || op == Close(d) }

  /** Until its dataset is closed, a registered pool stays the same. */
  lemma {:induction false} HandleStays(r: Registry, ops: seq<Op>, d: string)
    requires d in r.pools && forall i :: 0 <= i < |ops| ==> !Closes(ops[i], d)
    ensures d in Run(r, ops).pools && Run(r, ops).pools[d] == r.pools[d]
  {
    if ops == [] {
    } else {
      HandleStays(r, ops[..|ops| - 1], d);
    }
  }

  /** All callers that obtain a pool of one dataset between two closes of it, by look-up or by
      connecting, obtain the same handle, and it is open whenever they do. */
  lemma SameHandleBetweenCloses(start: seq<Op>, first: Op, between: seq<Op>, second: Op, d: string)
    requires (first.GetPool? || first.Connect?) && first.dataset == d
    requires (second.GetPool? || second.Connect?) && second.dataset == d
    requires forall i :: 0 <= i < |between| ==> !Closes(between[i], d)
    ensures var (r, h) := Step(Run(EMPTY, start), first);
            var (r', h') := Step(Run(r, between), second);
            && (h.Some? ==> h.value in r.open && h' == h)
            && (h'.Some? ==> h'.value in r'.open)
  {
    RunKeepsSound(EMPTY, start);
    ObtainedIsOpen(Run(EMPTY, start), first);
    var r := Step(Run(EMPTY, start), first).0;
    RunKeepsSound(r, between);
    ObtainedIsOpen(Run(r, between), second);
    if d in r.pools {
      HandleStays(r, between, d);
    }
  }

  /** A connect whose open and ping work always hands out a pool, and every look-up until the dataset is
      closed finds that pool, open. */
  lemma ConnectHandsOut(start: seq<Op>, d: string, between: seq<Op>)
    requires forall i :: 0 <= i < |between| ==> !Closes(between[i], d)
    ensures var (r, h) := Step(Run(EMPTY, start), Connect(d, true, true));
            && h.Some? && Step(Run(r, between), GetPool(d)).1 == h && h.value in Run(r, between).open
  {
    SameHandleBetweenCloses(start, Connect(d, true, true), between, GetPool(d), d);
    RunKeepsSound(EMPTY, start);
    ObtainedIsOpen(Run(EMPTY, start), Connect(d, true, true));
    HandleStays(Step(Run(EMPTY, start), Connect(d, true, true)).0, between, d);
  }

  /** One that fails changes nothing that is registered or open, and hands out a pool if and only if the
      dataset had one. */
  lemma FailedConnect(start: seq<Op>, d: string, opens: bool, pings: bool)
    requires !opens || !pings
    ensures var r := Run(EMPTY, start);
            var (next, h) := Step(r, Connect(d, opens, pings));
            && next.pools == r.pools && next.open == r.open
            && h == (if d in r.pools then Some(r.pools[d]) else None)
  {
  }

  /** After a close the dataset has no pool, and the one it had is closed; with CloseAll nothing is left
      open at all, with Close every other dataset keeps its pool. */
  lemma CloseReleases(start: seq<Op>, op: Op, d: string)
    requires Closes(op, d)
    ensures var r, next := Run(EMPTY, start), Step(Run(EMPTY, start), op).0;
            && Step(next, GetPool(d)).1 == None
            && (d in r.pools ==> r.pools[d] !in next.open)
            && (op.CloseAll? ==> next.open == {})
            && (op == Close(d) ==> forall e :: e in r.pools && e != d ==>
                  e in next.pools && next.pools[e] == r.pools[e] && r.pools[e] in next.open)
  {
    RunKeepsSound(EMPTY, start);
    StepKeepsSound(Run(EMPTY, start), op);
  }

  lemma ObtainedIsOpen(r: Registry, op: Op)
    requires Sound(r) && (op.GetPool? || op.Connect?)
    ensures var (r', h) := Step(r, op);
            Sound(r') && (h.Some? ==> op.dataset in r'.pools && r'.pools[op.dataset] == h.value && h.value in r'.open)
  {
    StepKeepsSound(r, op);
  }
}
