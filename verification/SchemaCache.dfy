/** The schema cache of `internal/schema/cache.go`: interleaved lookups over a Redis entry with
    a time to live, against direct discovery. */
module SchemaCache {
  import opened Collections

  /** `cacheKey`. */
  function CacheKey(workspace: string, source: string): string {
    "schema:" + workspace + ":" + source
  }

  /** w' is w, a colon and the front of s; s is that front, a colon and s'. */
  predicate Shifts(w: string, s: string, w': string, s': string) {
    |w| < |w'| && w'[..|w|] == w && w'[|w|] == ':' && s == w'[|w| + 1..] + ":" + s'
  }

  lemma ShiftCollides(w: string, s: string, w': string, s': string)
    requires Shifts(w, s, w', s')
    ensures w + ":" + s == w' + ":" + s'
  {
    assert w' == w + ":" + w'[|w| + 1..];
  }

  lemma CollisionIsShift(w: string, s: string, w': string, s': string)
    requires w + ":" + s == w' + ":" + s' && |w| <= |w'|
    ensures (w == w' && s == s') || Shifts(w, s, w', s')
  {
    var t, t' := w + ":" + s, w' + ":" + s';
    assert w == t[..|w|] && w' == t'[..|w'|];
    assert s == t[|w| + 1..];
    if |w| < |w'| {
      assert w'[|w|] == t'[|w|] == t[|w|] == ':';
      assert t'[|w| + 1..] == w'[|w| + 1..] + ":" + s';
    } else {
      assert s' == t'[|w'| + 1..];
    }
  }

  /** Exactly when two keys are equal: the pairs are, or one workspace id runs on across a colon
      into what is the front of the other pair's source. */
  lemma KeysEqualWhen(w: string, s: string, w': string, s': string)
    ensures CacheKey(w, s) == CacheKey(w', s') <==>
            (w == w' && s == s') || Shifts(w, s, w', s') || Shifts(w', s', w, s)
  {
    var t, t' := w + ":" + s, w' + ":" + s';
    assert CacheKey(w, s) == "schema:" + t && CacheKey(w', s') == "schema:" + t';
    if CacheKey(w, s) == CacheKey(w', s') {
      assert t == CacheKey(w, s)[7..] && t' == CacheKey(w', s')[7..];
      if |w| <= |w'| {
        CollisionIsShift(w, s, w', s');
      } else {
        CollisionIsShift(w', s', w, s);
      }
    }
    if Shifts(w, s, w', s') {
      ShiftCollides(w, s, w', s');
    }
    if Shifts(w', s', w, s) {
      ShiftCollides(w', s', w, s);
    }
  }

  /** Workspace ids without a colon make keys injective. */
  lemma KeysInjective(w: string, s: string, w': string, s': string)
    requires ':' !in w && ':' !in w'
    ensures CacheKey(w, s) == CacheKey(w', s') <==> w == w' && s == s'
  {
    KeysEqualWhen(w, s, w', s');
  }

  /** With a colon in a workspace id they are not. */
  lemma KeysCollide()
    ensures CacheKey("a", "b:c") == CacheKey("a:b", "c")
  {
    assert "schema:" + "a" + ":" + "b:c" == "schema:a:b:c" == "schema:" + "a:b" + ":" + "c";
  }

  // ---- Lookups as steps ----

  type Schema = string

  /** What direct discovery of a source finds at an instant. */
  type World = (string, string, int) -> Schema

  /** A cached entry; found and stored are its history. */
  datatype Entry = Entry(value: Schema, expires: int, found: int, stored: int)

  datatype Pc =
    | AtDiscover
    | AtStore(value: Schema, found: int)
    | Returned(answer: Schema, seen: int, gap: int, at: int)  // seen: when it was found, gap: until it was stored
    | Failed

  datatype Lookup = Lookup(workspace: string, source: string, pc: Pc)

  datatype State = State(cache: map<string, Entry>, lookups: seq<Lookup>, clock: int)

  /** usable: the entry could be read and decoded.  ok: the database or Redis call succeeded. */
  datatype Action =
    | Get(workspace: string, source: string, usable: bool)
    | Discover(k: nat, ok: bool)
    | Store(k: nat, ok: bool)
    | Tick(units: nat)

  const INIT := State(map[], [], 0)

  function Ttl(configured: int): (ttl: int)
    ensures ttl > 0
  {
    if configured <= 0 then 300 else configured
  }

  /** One step of `CachedSchema` for one of the lookups in flight, or the passing of time. */
  function Step(st: State, a: Action, world: World, configured: int): State {
    match a
    case Tick(units) => st.(clock := st.clock + units)
    case Get(w, s, usable) =>
      var key := CacheKey(w, s);
      var pc :=
        if usable && key in st.cache && st.clock < st.cache[key].expires then
          var e := st.cache[key];
          Returned(e.value, e.found, e.stored - e.found, st.clock)
        else AtDiscover;
      st.(lookups := st.lookups + [Lookup(w, s, pc)])
    case Discover(k, ok) =>
      if k >= |st.lookups| || !st.lookups[k].pc.AtDiscover? then st
      else
        var l := st.lookups[k];
        var pc := if ok then AtStore(world(l.workspace, l.source, st.clock), st.clock) else Failed;
        st.(lookups := st.lookups[k := l.(pc := pc)])
    case Store(k, ok) =>
      if k >= |st.lookups| || !st.lookups[k].pc.AtStore? then st
      else
        var l := st.lookups[k];
        var e := Entry(l.pc.value, st.clock + Ttl(configured), l.pc.found, st.clock);
        State(if ok then st.cache[CacheKey(l.workspace, l.source) := e] else st.cache,
              st.lookups[k := l.(pc := Returned(l.pc.value, l.pc.found, st.clock - l.pc.found, st.clock))],
              st.clock)
  }

  function Run(actions: seq<Action>, world: World, configured: int): State {
    if actions == [] then INIT
    else Step(Run(actions[..|actions| - 1], world, configured), actions[|actions| - 1], world, configured)
  }

  /** How one lookup goes when nothing interrupts it: the outcome of its calls and the time each of
      the last two takes. */
  datatype Course = Course(usable: bool, discovering: nat, found: bool, storing: nat, kept: bool)

  /** The steps of one lookup in a row, up to its answer. */
  function Alone(st: State, w: string, s: string, c: Course, world: World, configured: int): State {
    var k := |st.lookups|;
    var s1 := Step(st, Get(w, s, c.usable), world, configured);
    if !s1.lookups[k].pc.AtDiscover? then s1 else
    var s2 := Step(Step(s1, Tick(c.discovering), world, configured), Discover(k, c.found), world, configured);
    if !c.found then s2 else
    Step(Step(s2, Tick(c.storing), world, configured), Store(k, c.kept), world, configured)
  }

  class Cache {
    var st: State

    constructor ()
      ensures st == INIT
    {
      st := INIT;
    }

    /** `CachedSchema`: look in Redis, else discover and store. */
    method CachedSchema(w: string, s: string, c: Course, world: World, configured: int) returns (answer: Option<Schema>)
      modifies this
      ensures st == Alone(old(st), w, s, c, world, configured)
      ensures |st.lookups| == |old(st).lookups| + 1
      ensures var pc := st.lookups[|old(st).lookups|].pc;
              answer == if pc.Returned? then Some(pc.answer) else None
    {
      var key, k := CacheKey(w, s), |st.lookups|;
      if c.usable && key in st.cache && st.clock < st.cache[key].expires {
        var e := st.cache[key];
        st := st.(lookups := st.lookups + [Lookup(w, s, Returned(e.value, e.found, e.stored - e.found, st.clock))]);
        return Some(e.value);
      }
      st := st.(clock := st.clock + c.discovering);
      if !c.found {
        st := st.(lookups := st.lookups + [Lookup(w, s, Failed)]);
        return None;
      }
      var value, found := world(w, s, st.clock), st.clock;
      st := st.(clock := st.clock + c.storing);
      if c.kept {
        var ttl := if configured <= 0 then 300 else configured;
        st := st.(cache := st.cache[key := Entry(value, st.clock + ttl, found, st.clock)]);
      }
      st := st.(lookups := st.lookups + [Lookup(w, s, Returned(value, found, st.clock - found, st.clock))]);
      return Some(value);
    }
  }

  // ---- What every step keeps ----

  /** An entry holds what its source showed when it was discovered, and lives from its storing. */
  predicate GoodEntry(e: Entry, workspace: string, source: string, world: World, ttl: int, clock: int) {
    e.value == world(workspace, source, e.found) && e.found <= e.stored <= clock && e.expires == e.stored + ttl
  }

  predicate GoodLookup(l: Lookup, world: World, ttl: int, clock: int) {
    match l.pc
    case AtStore(value, found) => value == world(l.workspace, l.source, found) && found <= clock
    case Returned(answer, seen, gap, at) =>
      answer == world(l.workspace, l.source, seen) && seen <= at <= clock && 0 <= gap && at - seen < ttl + gap
    case _ => true
  }

  predicate ColonFree(actions: seq<Action>) {
    forall i :: 0 <= i < |actions| && actions[i].Get? ==> ':' !in actions[i].workspace
  }

  ghost predicate Inv(st: State, world: World, ttl: int) {
    && (forall i :: 0 <= i < |st.lookups| ==>
          ':' !in st.lookups[i].workspace && GoodLookup(st.lookups[i], world, ttl, st.clock))
    && (forall w, s :: ':' !in w && CacheKey(w, s) in st.cache ==>
          GoodEntry(st.cache[CacheKey(w, s)], w, s, world, ttl, st.clock))
  }

  lemma StepKeeps(st: State, a: Action, world: World, configured: int)
    requires Inv(st, world, Ttl(configured)) && (a.Get? ==> ':' !in a.workspace)
    ensures Inv(Step(st, a, world, configured), world, Ttl(configured))
  {
    var next, ttl := Step(st, a, world, configured), Ttl(configured);
    forall w, s | ':' !in w && CacheKey(w, s) in next.cache
      ensures GoodEntry(next.cache[CacheKey(w, s)], w, s, world, ttl, next.clock)
    {
      if a.Store? && a.k < |st.lookups| && st.lookups[a.k].pc.AtStore? {
        KeysInjective(w, s, st.lookups[a.k].workspace, st.lookups[a.k].source);
      }
    }
  }

  lemma {:induction false} InvAlways(actions: seq<Action>, world: World, configured: int)
    requires ColonFree(actions)
    ensures Inv(Run(actions, world, configured), world, Ttl(configured))
  {
    if actions == [] {
    } else {
      InvAlways(actions[..|actions| - 1], world, configured);
      StepKeeps(Run(actions[..|actions| - 1], world, configured), actions[|actions| - 1], world, configured);
    }
  }

  /** In every interleaving, what a lookup returns is what direct discovery of its own workspace
      and source found at an instant less than the time to live, plus the gap between that
      discovery and its storing, ago. */
  lemma AnswersAreRecent(actions: seq<Action>, world: World, configured: int, k: nat)
    requires ColonFree(actions)
    requires k < |Run(actions, world, configured).lookups| && Run(actions, world, configured).lookups[k].pc.Returned?
    ensures var l := Run(actions, world, configured).lookups[k];
            && l.pc.answer == world(l.workspace, l.source, l.pc.seen)
            && 0 <= l.pc.at - l.pc.seen < Ttl(configured) + l.pc.gap
  {
    InvAlways(actions, world, configured);
  }

  // ---- When the cache answers ----

  /** The entry under a key changes only by a store that works for a lookup of that key, and then lives
      for the configured time, or 300 if none is configured. */
  lemma EntryChanges(st: State, a: Action, key: string, world: World, configured: int)
    ensures var next := Step(st, a, world, configured);
            if a.Store? && a.ok && a.k < |st.lookups| && st.lookups[a.k].pc.AtStore? &&
              CacheKey(st.lookups[a.k].workspace, st.lookups[a.k].source) == key
            then
              var l := st.lookups[a.k].pc;
              && key in next.cache && next.cache[key].value == l.value && next.cache[key].found == l.found
              && next.cache[key].expires == st.clock + (if configured <= 0 then 300 else configured)
            else
              (key in next.cache <==> key in st.cache) && (key in st.cache ==> next.cache[key] == st.cache[key])
  {
  }

  /** A lookup is answered from the cache if and only if there is an entry under its key that can be read
      and has not expired; otherwise it goes on to discover. */
  lemma HitExactly(st: State, w: string, s: string, usable: bool, world: World, configured: int)
    ensures var next, key := Step(st, Get(w, s, usable), world, configured), CacheKey(w, s);
            var l := next.lookups[|next.lookups| - 1];
            && next.cache == st.cache && l.workspace == w && l.source == s
            && (l.pc.Returned? <==> usable && key in st.cache && st.clock < st.cache[key].expires)
            && (l.pc.Returned? ==> l.pc.answer == st.cache[key].value && l.pc.at == st.clock)
            && (!l.pc.Returned? ==> l.pc == AtDiscover)
  {
  }

  /** After a lookup that had to discover and could store, a second one of the same pair gets the same
      answer without discovery exactly as long as the time to live has not passed. */
  lemma SecondLookupHits(st: State, w: string, s: string, c: Course, units: nat, world: World, configured: int)
    requires c.found && c.kept
    requires !(c.usable && CacheKey(w, s) in st.cache && st.clock < st.cache[CacheKey(w, s)].expires)
    ensures var first := Alone(st, w, s, c, world, configured);
            var later := Step(Step(first, Tick(units), world, configured), Get(w, s, true), world, configured);
            && |first.lookups| == |st.lookups| + 1 && first.lookups[|st.lookups|].pc.Returned?
            && |later.lookups| == |st.lookups| + 2
            && var pc := later.lookups[|st.lookups| + 1].pc;
               && (pc.Returned? <==> units < if configured <= 0 then 300 else configured)
               && (pc.Returned? ==> pc.answer == first.lookups[|st.lookups|].pc.answer)
  {
    var k := |st.lookups|;
    var s1 := Step(st, Get(w, s, c.usable), world, configured);
    assert s1.lookups[k] == Lookup(w, s, AtDiscover);
    var s2 := Step(Step(s1, Tick(c.discovering), world, configured), Discover(k, true), world, configured);
    assert s2.lookups[k].pc.AtStore?;
    var s3 := Step(s2, Tick(c.storing), world, configured);
    var first := Step(s3, Store(k, true), world, configured);
    EntryChanges(s3, Store(k, true), CacheKey(w, s), world, configured);
    HitExactly(Step(first, Tick(units), world, configured), w, s, true, world, configured);
  }

  /** Without the restriction a source can be answered with another's schema. */
  lemma CollisionAnswersWrongly()
    ensures exists actions, world: World ::
      var st := Run(actions, world, 0);
      |st.lookups| == 2 && st.lookups[1].pc.Returned? && st.lookups[1].pc.at == st.lookups[1].pc.seen
      && st.lookups[1].pc.answer != world(st.lookups[1].workspace, st.lookups[1].source, st.lookups[1].pc.seen)
  {
    var world: World := (w, s, t) => s;
    var a1 := [] + [Get("a", "b:c", true)];
    var a2 := a1 + [Discover(0, true)];
    var a3 := a2 + [Store(0, true)];
    var a4 := a3 + [Get("a:b", "c", true)];
    RunMore([], Get("a", "b:c", true), world);
    RunMore(a1, Discover(0, true), world);
    RunMore(a2, Store(0, true), world);
    RunMore(a3, Get("a:b", "c", true), world);
    KeysCollide();
    assert Run(a1, world, 0).lookups[0] == Lookup("a", "b:c", AtDiscover);
    assert Run(a2, world, 0).lookups[0] == Lookup("a", "b:c", AtStore("b:c", 0));
    assert CacheKey("a:b", "c") in Run(a3, world, 0).cache;
    assert Run(a4, world, 0).lookups[1] == Lookup("a:b", "c", Returned("b:c", 0, 0, 0));
    assert world("a:b", "c", 0) == "c";
  }

  lemma RunMore(actions: seq<Action>, a: Action, world: World)
    ensures Run(actions + [a], world, 0) == Step(Run(actions, world, 0), a, world, 0)
  {
    assert (actions + [a])[..|actions|] == actions;
  }
}
