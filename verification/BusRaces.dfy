/** Readers of the event bus take no lock, so a receive can fall between two sends of one publish.
    Every such interleaving comes to a serial run, to which all that holds of the bus applies. */
module BusRaces {
  import opened Collections
  import opened SseBus

  /** The publisher sends to the next listed channel, or a reader takes from a channel. */
  datatype Micro = Send | Take(id: nat)

  function Sends(micros: seq<Micro>): nat {
    if micros == [] then 0
    else Sends(micros[..|micros| - 1]) + (if micros[|micros| - 1].Send? then 1 else 0)
  }

  function TakeOne(st: State, id: nat): State { Step(st, Receive(id)) }

  function TakeAll(st: State, ids: seq<nat>): State {
    if ids == [] then st else TakeOne(TakeAll(st, ids[..|ids| - 1]), ids[|ids| - 1])
  }

  /** A publish to the listed channels, send by send, with receives in between. */
  function Interleave(st: State, list: seq<nat>, ev: Event, micros: seq<Micro>): State
    requires Sends(micros) <= |list|
  {
    if micros == [] then st
    else
      var before, m := micros[..|micros| - 1], micros[|micros| - 1];
      var mid := Interleave(st, list, ev, before);
      match m
      case Send => OfferAt(mid, list[Sends(before)], ev)
      case Take(id) => TakeOne(mid, id)
  }

  // ---- Steps on different channels commute ----

  lemma TakesCommute(st: State, i: nat, j: nat)
    requires i != j
    ensures TakeOne(TakeOne(st, i), j) == TakeOne(TakeOne(st, j), i)
  {
    if i < |st.chans| && j < |st.chans| && st.chans[i].buffer != [] && st.chans[j].buffer != [] {
      var a, b := TakeOne(st, i).chans[i], TakeOne(st, j).chans[j];
      assert st.chans[i := a][j := b] == st.chans[j := b][i := a];
    }
  }

  lemma TakeAndOfferCommute(st: State, i: nat, id: nat, ev: Event)
    requires i != id
    ensures TakeOne(OfferAt(st, id, ev), i) == OfferAt(TakeOne(st, i), id, ev)
  {
    if i < |st.chans| && id < |st.chans| && st.chans[i].buffer != [] {
      var a, b := TakeOne(st, i).chans[i], Offer(st.chans[id], ev);
      assert st.chans[i := a][id := b] == st.chans[id := b][i := a];
    }
  }

  lemma {:induction false} TakeFirst(st: State, ids: seq<nat>, i: nat)
    requires forall k :: 0 <= k < |ids| ==> ids[k] != i
    ensures TakeOne(TakeAll(st, ids), i) == TakeAll(TakeOne(st, i), ids)
  {
    if ids == [] {
    } else {
      var n := |ids| - 1;
      TakeFirst(st, ids[..n], i);
      TakesCommute(TakeAll(st, ids[..n]), ids[n], i);
    }
  }

  lemma {:induction false} OfferFirst(st: State, ids: seq<nat>, id: nat, ev: Event)
    requires forall k :: 0 <= k < |ids| ==> ids[k] != id
    ensures OfferAt(TakeAll(st, ids), id, ev) == TakeAll(OfferAt(st, id, ev), ids)
  {
    if ids == [] {
    } else {
      var n := |ids| - 1;
      OfferFirst(st, ids[..n], id, ev);
      TakeAndOfferCommute(TakeAll(st, ids[..n]), ids[n], id, ev);
    }
  }

  lemma {:induction false} TakeBeforeOffers(st: State, list: seq<nat>, i: nat, ev: Event)
    requires forall k :: 0 <= k < |list| ==> list[k] != i
    ensures TakeOne(OfferAll(st, list, ev), i) == OfferAll(TakeOne(st, i), list, ev)
  {
    if list == [] {
    } else {
      var n := |list| - 1;
      TakeBeforeOffers(st, list[..n], i, ev);
      TakeAndOfferCommute(OfferAll(st, list[..n], ev), i, list[n], ev);
    }
  }

  lemma TakeAllMore(st: State, ids: seq<nat>, i: nat)
    ensures TakeAll(st, ids + [i]) == TakeOne(TakeAll(st, ids), i)
  {
    assert (ids + [i])[..|ids|] == ids;
  }

  // ---- Putting an interleaving in order ----

  /** The state is reached by some receives, then the first n sends, then receives from channels
      that have been sent to. */
  predicate Ordered(end: State, st: State, list: seq<nat>, n: nat, ev: Event, early: seq<nat>, late: seq<nat>)
    requires n <= |list|
  {
    && end == TakeAll(OfferAll(TakeAll(st, early), list[..n], ev), late)
    && forall k :: 0 <= k < |late| ==> late[k] in list[..n]
  }

  lemma OrderedSend(mid: State, st: State, list: seq<nat>, n: nat, ev: Event, early: seq<nat>, late: seq<nat>)
    requires Distinct(list) && n < |list| && Ordered(mid, st, list, n, ev, early, late)
    ensures Ordered(OfferAt(mid, list[n], ev), st, list, n + 1, ev, early, late)
  {
    var start := TakeAll(st, early);
    forall k | 0 <= k < |late| ensures late[k] != list[n] && late[k] in list[..n + 1] {
      assert late[k] in list[..n];
      var i :| 0 <= i < n && list[i] == late[k];
      assert list[..n + 1][i] == late[k];
    }
    OfferFirst(OfferAll(start, list[..n], ev), late, list[n], ev);
    OfferAllMore(start, list, n, ev);
  }

  lemma OrderedTakeLate(mid: State, st: State, list: seq<nat>, n: nat, ev: Event, early: seq<nat>, late: seq<nat>,
                        i: nat)
    requires n <= |list| && Ordered(mid, st, list, n, ev, early, late) && i in list[..n]
    ensures Ordered(TakeOne(mid, i), st, list, n, ev, early, late + [i])
  {
    TakeAllMore(OfferAll(TakeAll(st, early), list[..n], ev), late, i);
  }

  lemma OrderedTakeEarly(mid: State, st: State, list: seq<nat>, n: nat, ev: Event, early: seq<nat>, late: seq<nat>,
                        i: nat)
    requires n <= |list| && Ordered(mid, st, list, n, ev, early, late) && i !in list[..n]
    ensures Ordered(TakeOne(mid, i), st, list, n, ev, early + [i], late)
  {
    var start := TakeAll(st, early);
    forall k | 0 <= k < |late| ensures late[k] != i {
      assert late[k] in list[..n];
    }
    forall k | 0 <= k < n ensures list[..n][k] != i {
      assert list[..n][k] in list[..n];
    }
    TakeFirst(OfferAll(start, list[..n], ev), late, i);
    TakeBeforeOffers(start, list[..n], i, ev);
    TakeAllMore(st, early, i);
  }

  /** The receives, in order. */
  function Taken(micros: seq<Micro>): seq<nat> {
    if micros == [] then []
    else Taken(micros[..|micros| - 1]) + (if micros[|micros| - 1].Take? then [micros[|micros| - 1].id] else [])
  }

  /** Those from a channel that the publish has not reached yet. */
  function Early(list: seq<nat>, micros: seq<Micro>): seq<nat>
    requires Sends(micros) <= |list|
  {
    if micros == [] then []
    else
      var before, m := micros[..|micros| - 1], micros[|micros| - 1];
      Early(list, before) + (if m.Take? && m.id !in list[..Sends(before)] then [m.id] else [])
  }

  /** Those from a channel that it has sent to. */
  function Late(list: seq<nat>, micros: seq<Micro>): seq<nat>
    requires Sends(micros) <= |list|
  {
    if micros == [] then []
    else
      var before, m := micros[..|micros| - 1], micros[|micros| - 1];
      Late(list, before) + (if m.Take? && m.id in list[..Sends(before)] then [m.id] else [])
  }

  /** Between them they are all receives. */
  lemma {:induction false} EarlyAndLate(list: seq<nat>, micros: seq<Micro>)
    requires Sends(micros) <= |list|
    ensures multiset(Early(list, micros)) + multiset(Late(list, micros)) == multiset(Taken(micros))
  {
    if micros == [] {
    } else {
      EarlyAndLate(list, micros[..|micros| - 1]);
    }
  }

  /** An interleaving leads where this order leads: the receives from channels that the publish has
      not reached yet, the sends, the other receives. */
  lemma {:induction false} Serialise(st: State, list: seq<nat>, ev: Event, micros: seq<Micro>)
    requires Distinct(list) && Sends(micros) <= |list|
    ensures Ordered(Interleave(st, list, ev, micros), st, list, Sends(micros), ev, Early(list, micros),
      Late(list, micros))
  {
    if micros == [] {
    } else {
      var before, m := micros[..|micros| - 1], micros[|micros| - 1];
      Serialise(st, list, ev, before);
      var mid, n := Interleave(st, list, ev, before), Sends(before);
      var early, late := Early(list, before), Late(list, before);
      assert early + [] == early && late + [] == late;
      match m {
        case Send =>
          OrderedSend(mid, st, list, n, ev, early, late);
        case Take(id) =>
          if id in list[..n] {
            OrderedTakeLate(mid, st, list, n, ev, early, late, id);
          } else {
            OrderedTakeEarly(mid, st, list, n, ev, early, late, id);
          }
      }
    }
  }

  // ---- Back to runs ----

  function Receives(ids: seq<nat>): seq<Op> {
    seq(|ids|, i requires 0 <= i < |ids| => Receive(ids[i]))
  }

  lemma RunMore(ops: seq<Op>, op: Op)
    ensures Run(ops + [op]) == Step(Run(ops), op)
  {
    assert (ops + [op])[..|ops|] == ops;
  }

  lemma {:induction false} TakesAreARun(ops: seq<Op>, ids: seq<nat>)
    ensures TakeAll(Run(ops), ids) == Run(ops + Receives(ids))
  {
    if ids == [] {
      assert ops + Receives(ids) == ops;
    } else {
      var n := |ids| - 1;
      TakesAreARun(ops, ids[..n]);
      RunMore(ops + Receives(ids[..n]), Receive(ids[n]));
      assert ops + Receives(ids) == ops + Receives(ids[..n]) + [Receive(ids[n])];
    }
  }

  lemma {:induction false} TakesKeepLists(st: State, ids: seq<nat>)
    ensures TakeAll(st, ids).subs == st.subs
  {
    if ids == [] {
    } else {
      TakesKeepLists(st, ids[..|ids| - 1]);
    }
  }

  /** After any run, a publish with any receives between its sends leads where a serial run leads:
      the early receives, the publish as one step, the late receives. */
  lemma PublishIsSerial(ops: seq<Op>, session: string, ev: Event, micros: seq<Micro>)
    requires Sends(micros) == |Listed(Run(ops).subs, session)|
    ensures var list := Listed(Run(ops).subs, session);
            Interleave(Run(ops), list, ev, micros) ==
            Run(ops + Receives(Early(list, micros)) + [Publish(session, ev)] + Receives(Late(list, micros)))
  {
    var st := Run(ops);
    var list := Listed(st.subs, session);
    var early, late := Early(list, micros), Late(list, micros);
    RunIsSound(ops);
    Serialise(st, list, ev, micros);
    assert list[..|list|] == list;
    TakesKeepLists(st, early);
    TakesAreARun(ops, early);
    var before := ops + Receives(early);
    RunMore(before, Publish(session, ev));
    TakesAreARun(before + [Publish(session, ev)], late);
  }
}
