/** The in-memory event bus of `internal/ssebus/bus.go` as a state machine over subscribe,
    cancel, publish and receive, and the account each subscriber gets of it. */
module SseBus {
  import opened Collections

  const CAPACITY := 32

  datatype Event = Event(kind: string, data: string)

  /** A subscriber's channel.  received and missed are its history: what its reader has taken
      and how many events met a full buffer. */
  datatype Chan = Chan(session: string, open: bool, buffer: seq<Event>, received: seq<Event>, missed: nat)

  /** panicked records a send on, or a second close of, a closed channel. */
  datatype State = State(subs: map<string, seq<nat>>, chans: seq<Chan>, drops: nat, panicked: bool)

  datatype Op =
    | Subscribe(session: string)
    | Cancel(id: nat)
    | Publish(session: string, ev: Event)
    | Receive(id: nat)

  const EMPTY := State(map[], [], 0, false)

  function Listed(subs: map<string, seq<nat>>, session: string): seq<nat> {
    if session in subs then subs[session] else []
  }

  function Without(list: seq<nat>, id: nat): seq<nat> {
    if list == [] then []
    else
      var n := |list| - 1;
      Without(list[..n], id) + (if list[n] == id then [] else [list[n]])
  }

  function Count(list: seq<nat>, id: nat): nat {
    if list == [] then 0
    else
      var n := |list| - 1;
      Count(list[..n], id) + (if list[n] == id then 1 else 0)
  }

  /** A non-blocking send. */
  function Offer(c: Chan, ev: Event): Chan {
    if !c.open then c
    else if |c.buffer| < CAPACITY then c.(buffer := c.buffer + [ev])
    else c.(missed := c.missed + 1)
  }

  function OfferAt(st: State, id: nat, ev: Event): State {
    if id >= |st.chans| then st
    else
      var c := st.chans[id];
      st.(chans := st.chans[id := Offer(c, ev)],
          drops := st.drops + (if c.open && |c.buffer| >= CAPACITY then 1 else 0),
          panicked := st.panicked || !c.open)
  }

  /** Offers an event to the listed channels in order. */
  function OfferAll(st: State, list: seq<nat>, ev: Event): State {
    if list == [] then st
    else
      var n := |list| - 1;
      OfferAt(OfferAll(st, list[..n], ev), list[n], ev)
  }

  /** Closes a channel as often as it was listed. */
  function CloseTimes(st: State, id: nat, times: nat): State
    requires id < |st.chans|
  {
    if times == 0 then st
    else st.(chans := st.chans[id := st.chans[id].(open := false)],
             panicked := st.panicked || !st.chans[id].open || times > 1)
  }

  function Unlist(subs: map<string, seq<nat>>, session: string, id: nat): map<string, seq<nat>> {
    var out := Without(Listed(subs, session), id);
    if out == [] then subs - {session} else subs[session := out]
  }

  function Step(st: State, op: Op): State {
    match op
    case Subscribe(s) =>
      st.(subs := st.subs[s := Listed(st.subs, s) + [|st.chans|]],
          chans := st.chans + [Chan(s, true, [], [], 0)])
    case Cancel(id) =>
      if id >= |st.chans| then st
      else
        var s := st.chans[id].session;
        CloseTimes(st, id, Count(Listed(st.subs, s), id)).(subs := Unlist(st.subs, s, id))
    case Publish(s, ev) => OfferAll(st, Listed(st.subs, s), ev)
    case Receive(id) =>
      if id >= |st.chans| || st.chans[id].buffer == [] then st
      else
        var c := st.chans[id];
        st.(chans := st.chans[id := c.(buffer := c.buffer[1..], received := c.received + [c.buffer[0]])])
  }

  function Run(ops: seq<Op>): State {
    if ops == [] then EMPTY else Step(Run(ops[..|ops| - 1]), ops[|ops| - 1])
  }

  // ---- What every operation keeps ----

  /** The listed channels are exactly the open ones, each once and under its own session; no
      session has an empty list; no buffer exceeds its capacity; nothing has panicked. */
  predicate Sound(st: State) {
    && !st.panicked
    && (forall s :: s in st.subs ==> st.subs[s] != [] && Distinct(st.subs[s]))
    && (forall s, i :: s in st.subs && 0 <= i < |st.subs[s]| ==> OpenUnder(st, st.subs[s][i], s))
    && (forall id :: 0 <= id < |st.chans| && st.chans[id].open ==> id in Listed(st.subs, st.chans[id].session))
    && (forall id :: 0 <= id < |st.chans| ==> |st.chans[id].buffer| <= CAPACITY)
  }

  predicate OpenUnder(st: State, id: nat, session: string) {
    id < |st.chans| && st.chans[id].open && st.chans[id].session == session
  }

  lemma {:induction false} WithoutProps(list: seq<nat>, id: nat)
    ensures forall x :: x in Without(list, id) <==> x in list && x != id
    ensures id !in list ==> Without(list, id) == list
    ensures id !in list ==> Count(list, id) == 0
  {
    if list == [] {
    } else {
      WithoutProps(list[..|list| - 1], id);
      assert list == list[..|list| - 1] + [list[|list| - 1]];
    }
  }

  lemma DistinctSnoc(w: seq<nat>, x: nat)
    requires Distinct(w) && x !in w
    ensures Distinct(w + [x])
  {
  }

  lemma {:induction false} WithoutDistinct(list: seq<nat>, id: nat)
    requires Distinct(list)
    ensures Distinct(Without(list, id))
  {
    if list == [] {
    } else {
      var n := |list| - 1;
      WithoutDistinct(list[..n], id);
      WithoutProps(list[..n], id);
      assert list[n] !in list[..n];
      DistinctSnoc(Without(list[..n], id), list[n]);
    }
  }

  lemma {:induction false} CountDistinct(list: seq<nat>, id: nat)
    requires Distinct(list)
    ensures Count(list, id) == if id in list then 1 else 0
  {
    if list == [] {
    } else {
      var n := |list| - 1;
      CountDistinct(list[..n], id);
      assert list[n] !in list[..n];
      assert list == list[..n] + [list[n]];
    }
  }

  lemma OfferAllMore(st: State, list: seq<nat>, n: nat, ev: Event)
    requires n < |list|
    ensures OfferAll(st, list[..n + 1], ev) == OfferAt(OfferAll(st, list[..n], ev), list[n], ev)
  {
    assert list[..n + 1][..n] == list[..n];
  }

  /** Offering to distinct channels acts on each of them once and on no other. */
  lemma {:induction false} OfferAllPointwise(st: State, list: seq<nat>, ev: Event)
    requires Distinct(list) && forall i :: 0 <= i < |list| ==> list[i] < |st.chans| && st.chans[list[i]].open
    ensures var t := OfferAll(st, list, ev);
            && t.subs == st.subs && t.panicked == st.panicked && |t.chans| == |st.chans|
            && forall id: nat :: id < |st.chans| ==>
                 t.chans[id] == if id in list then Offer(st.chans[id], ev) else st.chans[id]
  {
    if list == [] {
    } else {
      var n := |list| - 1;
      OfferAllPointwise(st, list[..n], ev);
      assert list[n] !in list[..n];
      assert list == list[..n] + [list[n]];
    }
  }

  lemma StepKeepsSound(st: State, op: Op)
    requires Sound(st)
    ensures Sound(Step(st, op))
  {
    match op {
      case Subscribe(s) => SubscribeKeepsSound(st, s);
      case Cancel(id) => if id < |st.chans| { CancelKeepsSound(st, id); }
      case Publish(s, ev) => PublishKeepsSound(st, s, ev);
      case Receive(id) =>
    }
  }

  lemma SubscribeKeepsSound(st: State, s: string)
    requires Sound(st)
    ensures Sound(Step(st, Subscribe(s)))
  {
    var t := Step(st, Subscribe(s));
    forall k, i | k in t.subs && 0 <= i < |t.subs[k]| ensures OpenUnder(t, t.subs[k][i], k) {
      if k in st.subs && i < |st.subs[k]| {
        assert OpenUnder(st, st.subs[k][i], k);
      }
    }
    assert forall i :: 0 <= i < |Listed(st.subs, s)| ==> OpenUnder(st, Listed(st.subs, s)[i], s);
  }

  lemma PublishKeepsSound(st: State, s: string, ev: Event)
    requires Sound(st)
    ensures Sound(Step(st, Publish(s, ev)))
  {
    var list := Listed(st.subs, s);
    assert forall i :: 0 <= i < |list| ==> OpenUnder(st, list[i], s);
    OfferAllPointwise(st, list, ev);
    var t := OfferAll(st, list, ev);
    forall k, i | k in t.subs && 0 <= i < |t.subs[k]| ensures OpenUnder(t, t.subs[k][i], k) {
      assert OpenUnder(st, st.subs[k][i], k);
    }
  }

  /** What cancelling one of a sound bus's subscriptions comes to. */
  lemma CancelShape(st: State, id: nat)
    requires Sound(st) && id < |st.chans|
    ensures var t, s := Step(st, Cancel(id)), st.chans[id].session;
            && t == State(Unlist(st.subs, s, id), st.chans[id := st.chans[id].(open := false)], st.drops, false)
  {
    var s := st.chans[id].session;
    var list := Listed(st.subs, s);
    if s in st.subs {
      CountDistinct(list, id);
      if id in list {
        var i :| 0 <= i < |list| && list[i] == id;
        assert OpenUnder(st, st.subs[s][i], s);
      }
    }
    if !st.chans[id].open {
      assert st.chans[id := st.chans[id].(open := false)] == st.chans;
    }
  }

  lemma UnlistKeepsLists(subs: map<string, seq<nat>>, s: string, id: nat)
    requires forall k :: k in subs ==> subs[k] != [] && Distinct(subs[k])
    ensures forall k :: k in Unlist(subs, s, id) ==> Unlist(subs, s, id)[k] != [] && Distinct(Unlist(subs, s, id)[k])
  {
    WithoutDistinct(Listed(subs, s), id);
  }

  lemma UnlistKeepsOpen(st: State, t: State, id: nat, k: string, i: nat)
    requires Sound(st) && id < |st.chans|
    requires t.subs == Unlist(st.subs, st.chans[id].session, id) &&
      t.chans == st.chans[id := st.chans[id].(open := false)]
    requires k in t.subs && i < |t.subs[k]|
    ensures OpenUnder(t, t.subs[k][i], k)
  {
    var s := st.chans[id].session;
    if k == s {
      WithoutProps(Listed(st.subs, s), id);
      assert t.subs[k][i] in t.subs[k];
      var j :| 0 <= j < |st.subs[s]| && st.subs[s][j] == t.subs[k][i];
      assert OpenUnder(st, st.subs[s][j], s);
    } else {
      assert OpenUnder(st, st.subs[k][i], k);
    }
  }

  lemma UnlistKeepsListed(st: State, t: State, id: nat, c: nat)
    requires Sound(st) && id < |st.chans|
    requires t.subs == Unlist(st.subs, st.chans[id].session, id) &&
      t.chans == st.chans[id := st.chans[id].(open := false)]
    requires c < |t.chans| && t.chans[c].open
    ensures c in Listed(t.subs, t.chans[c].session)
  {
    var s := st.chans[id].session;
    assert c != id && st.chans[c].open && c in Listed(st.subs, st.chans[c].session);
    if st.chans[c].session == s {
      WithoutProps(Listed(st.subs, s), id);
    }
  }

  lemma CancelKeepsSound(st: State, id: nat)
    requires Sound(st) && id < |st.chans|
    ensures Sound(Step(st, Cancel(id)))
  {
    CancelShape(st, id);
    var t := Step(st, Cancel(id));
    UnlistKeepsLists(st.subs, st.chans[id].session, id);
    forall k, i | k in t.subs && 0 <= i < |t.subs[k]| ensures OpenUnder(t, t.subs[k][i], k) {
      UnlistKeepsOpen(st, t, id, k, i);
    }
    forall c | 0 <= c < |t.chans| && t.chans[c].open ensures c in Listed(t.subs, t.chans[c].session) {
      UnlistKeepsListed(st, t, id, c);
    }
  }

  lemma {:induction false} RunIsSound(ops: seq<Op>)
    ensures Sound(Run(ops))
  {
    if ops == [] {
    } else {
      RunIsSound(ops[..|ops| - 1]);
      StepKeepsSound(Run(ops[..|ops| - 1]), ops[|ops| - 1]);
    }
  }

  lemma UnlistTwice(subs: map<string, seq<nat>>, session: string, id: nat)
    ensures var u := Unlist(subs, session, id);
            Unlist(u, session, id) == u && Count(Listed(u, session), id) == 0
  {
    var out := Without(Listed(subs, session), id);
    WithoutProps(Listed(subs, session), id);
    WithoutProps(out, id);
    var u := Unlist(subs, session, id);
    assert Listed(u, session) == out;
    if out != [] {
      assert u[session := out] == u;
    }
  }

  /** A second cancel of the same subscription changes nothing. */
  lemma CancelIsIdempotent(st: State, id: nat)
    ensures Step(Step(st, Cancel(id)), Cancel(id)) == Step(st, Cancel(id))
  {
    if id < |st.chans| {
      UnlistTwice(st.subs, st.chans[id].session, id);
    }
  }

  // ---- The account of one subscriber ----

  /** A subscriber by itself: the events published to its session while it was subscribed, for
      each whether fewer than CAPACITY accepted events were then still waiting, and how many it
      has taken.  No buffers, no lists. */
  datatype Solo = Solo(session: string, live: bool, offered: seq<Event>, room: seq<bool>, taken: nat)

  /** The offered events that found room, in order. */
  function Accepted(offered: seq<Event>, room: seq<bool>): seq<Event>
    requires |offered| == |room|
  {
    if offered == [] then []
    else
      var n := |offered| - 1;
      Accepted(offered[..n], room[..n]) + (if room[n] then [offered[n]] else [])
  }

  function Subscriptions(ops: seq<Op>): nat {
    if ops == [] then 0
    else Subscriptions(ops[..|ops| - 1]) + (if ops[|ops| - 1].Subscribe? then 1 else 0)
  }

  predicate WellKept(v: Solo) {
    |v.offered| == |v.room| && v.taken <= |Accepted(v.offered, v.room)|
  }

  lemma AcceptedMore(v: Solo, ev: Event, fits: bool)
    requires |v.offered| == |v.room|
    ensures Accepted(v.offered + [ev], v.room + [fits]) == Accepted(v.offered, v.room) + (if fits then [ev] else [])
  {
    var n := |v.offered|;
    assert (v.offered + [ev])[..n] == v.offered && (v.room + [fits])[..n] == v.room;
  }

  function SoloStep(v: Solo, op: Op, id: nat): (r: Solo)
    requires WellKept(v)
    ensures WellKept(r)
  {
    match op
    case Publish(s, ev) =>
      if v.live && s == v.session then
        var fits := |Accepted(v.offered, v.room)| - v.taken < CAPACITY;
        AcceptedMore(v, ev, fits);
        v.(offered := v.offered + [ev], room := v.room + [fits])
      else v
    case Receive(i) =>
      if i == id && v.taken < |Accepted(v.offered, v.room)| then v.(taken := v.taken + 1) else v
    case Cancel(i) => if i == id then v.(live := false) else v
    case Subscribe(_) => v
  }

  /** Subscriber number id, told from the operations alone. */
  function View(ops: seq<Op>, id: nat): (r: Option<Solo>)
    ensures r.Some? ==> WellKept(r.value)
  {
    if ops == [] then None
    else
      var before, op := ops[..|ops| - 1], ops[|ops| - 1];
      if op.Subscribe? && Subscriptions(before) == id then Some(Solo(op.session, true, [], [], 0))
      else match View(before, id)
        case None => None
        case Some(v) => Some(SoloStep(v, op, id))
  }

  /** A channel tells the same story as the subscriber's own account. */
  predicate Matches(c: Chan, v: Solo)
    requires WellKept(v)
  {
    var kept := Accepted(v.offered, v.room);
    && c.session == v.session && c.open == v.live
    && c.received == kept[..v.taken]
    && c.buffer == kept[v.taken..]
    && c.missed == |v.offered| - |kept|
  }

  predicate AllMatch(st: State, ops: seq<Op>) {
    && |st.chans| == Subscriptions(ops)
    && forall id: nat :: id < |st.chans| ==> View(ops, id).Some? && Matches(st.chans[id], View(ops, id).value)
  }

  function Missed(chans: seq<Chan>): nat {
    if chans == [] then 0 else Missed(chans[..|chans| - 1]) + chans[|chans| - 1].missed
  }

  lemma {:induction false} MissedUpdate(chans: seq<Chan>, id: nat, c: Chan)
    requires id < |chans|
    ensures Missed(chans[id := c]) == Missed(chans) - chans[id].missed + c.missed
  {
    var n := |chans| - 1;
    if id < n {
      MissedUpdate(chans[..n], id, c);
      assert chans[id := c][..n] == chans[..n][id := c];
    } else {
      assert chans[id := c][..n] == chans[..n];
    }
  }

  lemma {:induction false} OfferAllCountsDrops(st: State, list: seq<nat>, ev: Event)
    ensures var t := OfferAll(st, list, ev);
            |t.chans| == |st.chans| && t.drops - st.drops == Missed(t.chans) - Missed(st.chans)
  {
    if list == [] {
    } else {
      var n := |list| - 1;
      OfferAllCountsDrops(st, list[..n], ev);
      var t := OfferAll(st, list[..n], ev);
      if list[n] < |t.chans| {
        MissedUpdate(t.chans, list[n], Offer(t.chans[list[n]], ev));
      }
    }
  }

  lemma {:induction false} DropsAreMissed(ops: seq<Op>)
    ensures Run(ops).drops == Missed(Run(ops).chans)
  {
    if ops == [] {
    } else {
      var before, op := ops[..|ops| - 1], ops[|ops| - 1];
      DropsAreMissed(before);
      var st := Run(before);
      match op {
        case Subscribe(_) => assert Run(ops).chans[..|st.chans|] == st.chans;
        case Cancel(id) =>
          if id < |st.chans| {
            MissedUpdate(st.chans, id, Run(ops).chans[id]);
            assert st.chans[id := st.chans[id]] == st.chans;
          }
        case Publish(s, ev) => OfferAllCountsDrops(st, Listed(st.subs, s), ev);
        case Receive(id) =>
          if id < |st.chans| { MissedUpdate(st.chans, id, Run(ops).chans[id]); }
      }
    }
  }

  lemma OfferMatches(c: Chan, v: Solo, s: string, ev: Event, id: nat)
    requires WellKept(v) && Matches(c, v) && |c.buffer| <= CAPACITY
    ensures Matches(if c.open && s == c.session then Offer(c, ev) else c, SoloStep(v, Publish(s, ev), id))
  {
    var fits := |Accepted(v.offered, v.room)| - v.taken < CAPACITY;
    AcceptedMore(v, ev, fits);
  }

  /** Over every run, every channel matches its subscriber's account. */
  lemma {:induction false} EveryAccountMatches(ops: seq<Op>)
    ensures AllMatch(Run(ops), ops)
  {
    if ops == [] {
    } else {
      var before, op := ops[..|ops| - 1], ops[|ops| - 1];
      EveryAccountMatches(before);
      RunIsSound(before);
      StepMatches(before, op);
      assert ops == before + [op];
    }
  }

  lemma StepMatches(before: seq<Op>, op: Op)
    requires AllMatch(Run(before), before) && Sound(Run(before))
    ensures AllMatch(Step(Run(before), op), before + [op])
  {
    match op {
      case Publish(s, ev) => PublishMatches(before, s, ev);
      case Cancel(id) => CancelMatches(before, id);
      case Subscribe(s) => SubscribeMatches(before, s);
      case Receive(id) => ReceiveMatches(before, id);
    }
  }

  lemma SubscribeMatches(before: seq<Op>, s: string)
    requires AllMatch(Run(before), before)
    ensures AllMatch(Step(Run(before), Subscribe(s)), before + [Subscribe(s)])
  {
    var st, ops := Run(before), before + [Subscribe(s)];
    assert ops[..|ops| - 1] == before;
    forall k: nat | k < |st.chans| + 1
      ensures View(ops, k).Some? && Matches(Step(st, Subscribe(s)).chans[k], View(ops, k).value)
    {
      assert k < |st.chans| ==> View(before, k).Some?;
    }
  }

  lemma ReceiveMatches(before: seq<Op>, id: nat)
    requires AllMatch(Run(before), before)
    ensures AllMatch(Step(Run(before), Receive(id)), before + [Receive(id)])
  {
    var st, ops := Run(before), before + [Receive(id)];
    assert ops[..|ops| - 1] == before;
    forall k: nat | k < |st.chans|
      ensures View(ops, k).Some? && Matches(Step(st, Receive(id)).chans[k], View(ops, k).value)
    {
      assert View(before, k).Some?;
      TakeMatches(st.chans[k], View(before, k).value);
    }
  }

  lemma TakeMatches(c: Chan, v: Solo)
    requires WellKept(v) && Matches(c, v)
    ensures c.buffer == [] <==> v.taken == |Accepted(v.offered, v.room)|
    ensures c.buffer != [] ==>
      Matches(c.(buffer := c.buffer[1..], received := c.received + [c.buffer[0]]), v.(taken := v.taken + 1))
  {
  }

  lemma CancelMatches(before: seq<Op>, id: nat)
    requires AllMatch(Run(before), before) && Sound(Run(before))
    ensures AllMatch(Step(Run(before), Cancel(id)), before + [Cancel(id)])
  {
    var st, ops := Run(before), before + [Cancel(id)];
    assert ops[..|ops| - 1] == before;
    if id < |st.chans| {
      var list := Listed(st.subs, st.chans[id].session);
      CountDistinct(list, id);
      if id in list {
        assert OpenUnder(st, id, st.chans[id].session);
      }
    }
    forall k: nat | k < |st.chans|
      ensures View(ops, k).Some? && Matches(Step(st, Cancel(id)).chans[k], View(ops, k).value)
    {
      assert View(before, k).Some?;
    }
  }

  lemma PublishMatches(before: seq<Op>, s: string, ev: Event)
    requires AllMatch(Run(before), before) && Sound(Run(before))
    ensures AllMatch(Step(Run(before), Publish(s, ev)), before + [Publish(s, ev)])
  {
    var st, op := Run(before), Publish(s, ev);
    var ops := before + [op];
    assert ops[..|ops| - 1] == before;
    var list := Listed(st.subs, s);
    assert forall i :: 0 <= i < |list| ==> OpenUnder(st, list[i], s);
    OfferAllPointwise(st, list, ev);
    var t := Step(st, op);
    forall id: nat | id < |t.chans| ensures View(ops, id).Some? && Matches(t.chans[id], View(ops, id).value) {
      assert View(before, id).Some?;
      OfferMatches(st.chans[id], View(before, id).value, s, ev, id);
      assert id in list <==> st.chans[id].open && s == st.chans[id].session;
    }
  }

  /** The events the first n subscribers were offered and never got into their buffers. */
  function Omitted(ops: seq<Op>, n: nat): int {
    if n == 0 then 0
    else Omitted(ops, n - 1) + (match View(ops, n - 1)
      case None => 0
      case Some(v) => |v.offered| - |Accepted(v.offered, v.room)|)
  }

  lemma {:induction false} MissedIsOmitted(st: State, ops: seq<Op>, n: nat)
    requires AllMatch(st, ops) && n <= |st.chans|
    ensures Missed(st.chans[..n]) == Omitted(ops, n)
  {
    if n == 0 {
    } else {
      MissedIsOmitted(st, ops, n - 1);
      assert st.chans[..n][..n - 1] == st.chans[..n - 1];
      assert Matches(st.chans[n - 1], View(ops, n - 1).value);
    }
  }

  /** What a subscriber has received, followed by what waits in its buffer. */
  predicate Delivered(c: Chan, v: Solo)
    requires WellKept(v)
  {
    c.received + c.buffer == Accepted(v.offered, v.room) && |c.received| == v.taken && |c.buffer| <= CAPACITY
  }

  lemma MatchIsDelivered(c: Chan, v: Solo)
    requires WellKept(v) && Matches(c, v) && |c.buffer| <= CAPACITY
    ensures Delivered(c, v)
  {
  }

  /** Over every run: what a subscriber has received, followed by what waits in its buffer, are
      the events published to its session while it was subscribed, in order, less those that met
      a full buffer; and the drop counter is the number of events so omitted over all of them. */
  lemma BusDelivers(ops: seq<Op>)
    ensures |Run(ops).chans| == Subscriptions(ops)
    ensures forall id: nat :: id < |Run(ops).chans| ==>
      View(ops, id).Some? && Delivered(Run(ops).chans[id], View(ops, id).value)
    ensures Run(ops).drops == Omitted(ops, Subscriptions(ops))
  {
    var st := Run(ops);
    EveryAccountMatches(ops);
    RunIsSound(ops);
    DropsAreMissed(ops);
    MissedIsOmitted(st, ops, |st.chans|);
    assert st.chans[..|st.chans|] == st.chans;
    forall id: nat | id < |st.chans| ensures View(ops, id).Some? && Delivered(st.chans[id], View(ops, id).value) {
      MatchIsDelivered(st.chans[id], View(ops, id).value);
    }
  }

  /** In every reachable state a publish offers its event once to every open channel of its session: it
      is appended where fewer than 32 are waiting and omitted where 32 are; no other channel changes. */
  lemma PublishReaches(ops: seq<Op>, s: string, ev: Event, id: nat)
    requires id < |Run(ops).chans|
    ensures var c, chans := Run(ops).chans[id], Step(Run(ops), Publish(s, ev)).chans;
            && id < |chans| && |c.buffer| <= 32
            && chans[id] ==
               if !c.open || c.session != s then c
               else if |c.buffer| < 32 then c.(buffer := c.buffer + [ev])
               else c.(missed := c.missed + 1)
  {
    RunIsSound(ops);
    var st, list := Run(ops), Listed(Run(ops).subs, s);
    assert forall i :: 0 <= i < |list| ==> OpenUnder(st, list[i], s);
    OfferAllPointwise(st, list, ev);
    assert id in list <==> st.chans[id].open && s == st.chans[id].session;
  }
}
