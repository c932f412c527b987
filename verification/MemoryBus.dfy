/** `MemoryBus` with Go's slices: the subscriber lists share backing arrays with their
    appends, and cancel filters its list in place. */
module MemoryBus {
  import opened Collections
  import opened SseBus

  /** A slice of channel handles: the first len cells of arr. */
  datatype Slice = Slice(arr: array<nat>, len: nat)

  ghost predicate Holds(slice: Slice, list: seq<nat>)
    reads slice.arr
  {
    slice.len <= slice.arr.Length && slice.arr[..slice.len] == list
  }

  lemma FilterMore(list: seq<nat>, i: nat, id: nat)
    requires i < |list|
    ensures Without(list[..i + 1], id) == Without(list[..i], id) + (if list[i] == id then [] else [list[i]])
    ensures Count(list[..i + 1], id) == Count(list[..i], id) + (if list[i] == id then 1 else 0)
  {
    assert list[..i + 1][..i] == list[..i];
  }

  /** Cancel's loop: the channels that stay are written to the front of the array they are read
      from, and the one that goes is counted as often as it was listed. */
  method FilterInPlace(arr: array<nat>, len: nat, id: nat) returns (k: nat, closes: nat)
    requires len <= arr.Length
    modifies arr
    ensures k <= len
    ensures arr[..k] == Without(old(arr[..len]), id)
    ensures closes == Count(old(arr[..len]), id)
  {
    k, closes := 0, 0;
    ghost var list := arr[..len];
    for i := 0 to len
      invariant k <= i
      invariant arr[..k] == Without(list[..i], id)
      invariant closes == Count(list[..i], id)
      invariant arr[i..len] == list[i..]
    {
      assert arr[i] == arr[i..len][0] == list[i];
      FilterMore(list, i, id);
      assert arr[i + 1..len] == arr[i..len][1..] == list[i + 1..];
      var c := arr[i];
      if c != id {
        arr[k] := c;
        k := k + 1;
        assert arr[..k] == arr[..k - 1] + [c];
      } else {
        closes := closes + 1;
      }
    }
    assert list[..len] == list;
  }

  /** Go's append: in place while the capacity lasts, else into a larger copy. */
  method Append(list: Slice, x: nat) returns (r: Slice)
    requires list.len <= list.arr.Length
    modifies list.arr
    ensures r.len == list.len + 1 <= r.arr.Length
    ensures r.arr[..r.len] == old(list.arr[..list.len]) + [x]
    ensures r.arr == list.arr || fresh(r.arr)
  {
    var arr, len := list.arr, list.len;
    if len == arr.Length {
      arr := new nat[2 * len + 1];
      for i := 0 to len
        invariant arr[..i] == list.arr[..i]
        invariant list.arr[..] == old(list.arr[..])
      {
        arr[i] := list.arr[i];
      }
    }
    arr[len] := x;
    r := Slice(arr, len + 1);
  }

  class MemoryBus {
    var subs: map<string, Slice>
    var chans: seq<Chan>
    var totalDrops: nat
    var panicked: bool

    /** The lists the slices hold. */
    ghost var lists: map<string, seq<nat>>

    /** The backing arrays in use. */
    ghost var arrays: set<array<nat>>

    /** The slices hold lists, and no two sessions share a backing array. */
    ghost predicate Valid()
      reads this, arrays
    {
      && lists.Keys == subs.Keys
      && (forall s :: s in subs ==> subs[s].arr in arrays && Holds(subs[s], lists[s]))
      && (forall s, t :: s in subs && t in subs && s != t ==> subs[s].arr != subs[t].arr)
    }

    /** The same, while the slice of one session is being rewritten. */
    ghost predicate ValidBut(session: string)
      reads this, arrays
    {
      && lists.Keys == subs.Keys
      && (forall s :: s in subs ==> subs[s].arr in arrays && (s != session ==> Holds(subs[s], lists[s])))
      && (forall s, t :: s in subs && t in subs && s != t ==> subs[s].arr != subs[t].arr)
    }

    /** Keeps the new list, or forgets the session when nothing is left. */
    method Store(session: string, out: Slice, ghost list: seq<nat>)
      requires ValidBut(session) && Holds(out, list)
      requires forall s :: s in subs && s != session ==> subs[s].arr != out.arr
      modifies this`subs, this`lists, this`arrays
      ensures Valid() && arrays == old(arrays) + {out.arr}
      ensures lists == if list == [] then old(lists) - {session} else old(lists)[session := list]
    {
      if out.len == 0 {
        subs := subs - {session};
        lists := lists - {session};
      } else {
        subs := subs[session := out];
        lists := lists[session := list];
      }
      arrays := arrays + {out.arr};
    }

    ghost function Abstract(): State
      reads this
    {
      State(lists, chans, totalDrops, panicked)
    }

    constructor ()
      ensures Valid() && Abstract() == EMPTY && arrays == {}
    {
      subs, chans, totalDrops, panicked := map[], [], 0, false;
      lists, arrays := map[], {};
    }

    method Subscribe(session: string) returns (id: nat)
      requires Valid()
      modifies this, arrays
      ensures Valid() && fresh(arrays - old(arrays))
      ensures id == old(|chans|)
      ensures Abstract() == Step(old(Abstract()), SseBus.Subscribe(session))
    {
      id := |chans|;
      var list;
      if session in subs {
        list := subs[session];
      } else {
        var none := new nat[0];
        list := Slice(none, 0);
      }
      ghost var was := Listed(lists, session);
      assert Holds(list, was);
      var out := Append(list, id);
      assert ValidBut(session);
      Store(session, out, was + [id]);
      chans := chans + [Chan(session, true, [], [], 0)];
    }

    /** Takes a channel off the list of its session, and counts how often it stood there. */
    method TakeOff(session: string, id: nat) returns (closes: nat)
      requires Valid()
      modifies this`subs, this`lists, this`arrays, arrays
      ensures Valid() && arrays == old(arrays)
      ensures lists == Unlist(old(lists), session, id)
      ensures closes == Count(Listed(old(lists), session), id)
    {
      if session !in subs {
        return 0;
      }
      var list := subs[session];
      ghost var was := lists[session];
      assert Holds(list, was);
      var k;
      k, closes := FilterInPlace(list.arr, list.len, id);
      assert ValidBut(session);
      Store(session, Slice(list.arr, k), Without(was, id));
    }

    /** The closure `Subscribe` returns, for the channel with this handle. */
    method Cancel(id: nat)
      requires Valid() && id < |chans|
      modifies this, arrays
      ensures Valid() && arrays == old(arrays)
      ensures Abstract() == Step(old(Abstract()), SseBus.Cancel(id))
    {
      var closes := TakeOff(chans[id].session, id);
      if closes > 0 {
        Close(id, closes);
      }
    }

    /** Closes the channel, as often as it was listed. */
    method Close(id: nat, times: nat)
      requires id < |chans| && times > 0
      modifies this`chans, this`panicked
      ensures Abstract() == CloseTimes(old(Abstract()), id, times)
    {
      panicked := panicked || !chans[id].open || times > 1;
      chans := chans[id := chans[id].(open := false)];
    }

    method Publish(session: string, ev: Event)
      requires Valid()
      modifies this`chans, this`totalDrops, this`panicked
      ensures Valid()
      ensures Abstract() == Step(old(Abstract()), SseBus.Publish(session, ev))
    {
      if session in subs {
        var list := subs[session];
        ghost var all := lists[session];
        assert Holds(list, all);
        for i := 0 to list.len
          invariant Abstract() == OfferAll(old(Abstract()), all[..i], ev)
        {
          OfferAllMore(old(Abstract()), all, i, ev);
          Send(list.arr[i], ev);
        }
        assert all[..list.len] == all;
      }
    }

    /** A send that does not wait: a full buffer counts as a drop. */
    method Send(id: nat, ev: Event)
      modifies this`chans, this`totalDrops, this`panicked
      ensures Abstract() == OfferAt(old(Abstract()), id, ev)
    {
      if id < |chans| {
        var c := chans[id];
        if !c.open {
          panicked := true;
          assert chans[id := c] == chans;
        } else if |c.buffer| < CAPACITY {
          chans := chans[id := c.(buffer := c.buffer + [ev])];
        } else {
          chans := chans[id := c.(missed := c.missed + 1)];
          totalDrops := totalDrops + 1;
        }
      }
    }

    /** A reader takes the oldest waiting event, if there is one. */
    method Receive(id: nat) returns (ev: Option<Event>)
      requires Valid() && id < |chans|
      modifies this`chans
      ensures Valid()
      ensures Abstract() == Step(old(Abstract()), SseBus.Receive(id))
      ensures ev == if old(chans[id].buffer) == [] then None else Some(old(chans[id].buffer[0]))
    {
      var c := chans[id];
      if c.buffer == [] {
        return None;
      }
      chans := chans[id := c.(buffer := c.buffer[1..], received := c.received + [c.buffer[0]])];
      return Some(c.buffer[0]);
    }

    method TotalDrops() returns (n: nat)
      requires Valid()
      ensures n == Abstract().drops
    {
      n := totalDrops;
    }
  }
}
