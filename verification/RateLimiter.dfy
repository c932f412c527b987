/** The sliding-window limiter of `internal/ratelimit/limiter.go`: a Redis sorted set with
    pruning and key expiry, against counting over the whole request history. */
module RateLimiter {
  import opened Collections

  /** The sorted set under one key, by score, and the instant the key expires. */
  datatype Zset = Zset(members: set<int>, expiry: Option<int>)

  /** A request: the stamp it is recorded under, and the clock when its commands run. */
  datatype Request = Request(now: int, later: int)

  const EMPTY := Zset({}, None)

  /** There is no Redis client; the pipeline fails without effect; it takes effect and the error
      comes after; it takes effect and is answered. */
  datatype Outcome = NoClient | Lost | Blind | Answered
  {
    predicate Effective() { Blind? || Answered? }
  }

  /** One pipeline: add, prune up to the edge, count, set the expiry. */
  function Serve(z: Zset, r: Request, window: int): Zset {
    var live := if z.expiry.Some? && z.expiry.value <= r.later then {} else z.members;
    var edge := r.later - window;
    Zset((set s | s in live + {r.now} && !(0 <= s <= edge)), Some(r.later + 2 * window))
  }

  class Limiter {
    var zset: Zset

    constructor ()
      ensures zset == EMPTY
    {
      zset := EMPTY;
    }

    /** `Allow`. */
    method Allow(r: Request, limit: int, window: int, outcome: Outcome, failClosed: bool) returns (ok: bool)
      modifies this
      ensures zset == if outcome.Effective() then Serve(old(zset), r, window) else old(zset)
      ensures ok <==> if outcome.Answered? then |zset.members| <= limit else !failClosed
    {
      if outcome.NoClient? {
        return !failClosed;
      }
      var count := 0;
      if outcome.Effective() {
        count := Pipeline(r, window);
      }
      if !outcome.Answered? {
        return !failClosed;
      }
      return count <= limit;
    }

    /** Add, prune up to the edge, count, set the expiry. */
    method Pipeline(r: Request, window: int) returns (count: nat)
      modifies this
      ensures zset == Serve(old(zset), r, window) && count == |zset.members|
    {
      var edge := r.later - window;
      var members := if zset.expiry.Some? && zset.expiry.value <= r.later then {} else zset.members;
      members := members + {r.now};
      members := set s | s in members && !(0 <= s <= edge);
      count := |members|;
      zset := Zset(members, Some(r.later + 2 * window));
    }
  }

  // ---- Histories ----

  /** Requests on one key in the order their pipelines run, by a clock that does not run backwards.
      Requests may overlap: a later one may have taken its stamp first. */
  predicate Served(reqs: seq<Request>) {
    && (forall i :: 0 <= i < |reqs| ==> 0 < reqs[i].now <= reqs[i].later)
    && (forall i, j :: 0 <= i < j < |reqs| ==> reqs[i].later <= reqs[j].later)
  }

  predicate DistinctStamps(reqs: seq<Request>) {
    forall i, j :: 0 <= i < j < |reqs| ==> reqs[i].now != reqs[j].now
  }

  function Run(reqs: seq<Request>, window: int): Zset {
    if reqs == [] then EMPTY else Serve(Run(reqs[..|reqs| - 1], window), reqs[|reqs| - 1], window)
  }

  /** The limiter's verdict on the last request. */
  predicate Admitted(reqs: seq<Request>, window: int, limit: int) {
    |Run(reqs, window).members| <= limit
  }

  /** The stamps after an instant. */
  function Stamps(reqs: seq<Request>, edge: int): set<int> {
    set i | 0 <= i < |reqs| && reqs[i].now > edge :: reqs[i].now
  }

  /** The number of requests stamped after an instant. */
  function CountAfter(reqs: seq<Request>, edge: int): nat {
    if reqs == [] then 0
    else CountAfter(reqs[..|reqs| - 1], edge) + (if reqs[|reqs| - 1].now > edge then 1 else 0)
  }

  function Edge(reqs: seq<Request>, window: int): int
    requires reqs != []
  {
    reqs[|reqs| - 1].later - window
  }

  lemma {:induction false} SetIsStamps(reqs: seq<Request>, window: int)
    requires Served(reqs) && reqs != []
    ensures Run(reqs, window).members == Stamps(reqs, Edge(reqs, window))
    ensures Run(reqs, window).expiry == Some(reqs[|reqs| - 1].later + 2 * window)
  {
    var n := |reqs| - 1;
    var before, r := reqs[..n], reqs[n];
    var edge := Edge(reqs, window);
    if n == 0 {
    } else {
      SetIsStamps(before, window);
      assert before[n - 1] == reqs[n - 1] && reqs[n - 1].later <= r.later;
    }
    var z := Run(before, window);
    forall s ensures s in Run(reqs, window).members <==> s in Stamps(reqs, edge) {
      if s in Run(reqs, window).members {
        KeptIsStamp(reqs, window, s);
      }
      if s in Stamps(reqs, edge) {
        StampIsKept(reqs, window, s);
      }
    }
  }

  /** Pruning and expiry lose nothing: the set always holds exactly the stamps of the whole
      history that lie after the current edge.  Any window will do. */
  lemma SetIsWindow(reqs: seq<Request>, window: int)
    requires Served(reqs) && reqs != []
    ensures forall s :: s in Run(reqs, window).members <==>
      exists i :: 0 <= i < |reqs| && reqs[i].now == s && s > reqs[|reqs| - 1].later - window
    ensures Run(reqs, window).expiry == Some(reqs[|reqs| - 1].later + 2 * window)
  {
    SetIsStamps(reqs, window);
    var edge := reqs[|reqs| - 1].later - window;
    assert Run(reqs, window).members == Stamps(reqs, edge);
  }

  lemma KeptIsStamp(reqs: seq<Request>, window: int, s: int)
    requires Served(reqs) && reqs != []
    requires |reqs| > 1 ==>
      Run(reqs[..|reqs| - 1], window).members == Stamps(reqs[..|reqs| - 1], Edge(reqs[..|reqs| - 1], window))
    requires s in Run(reqs, window).members
    ensures s in Stamps(reqs, Edge(reqs, window))
  {
    var n := |reqs| - 1;
    if s != reqs[n].now {
      var i :| 0 <= i < n && reqs[..n][i].now == s;
      assert reqs[i].now == s;
    }
  }

  lemma StampIsKept(reqs: seq<Request>, window: int, s: int)
    requires Served(reqs) && reqs != []
    requires |reqs| > 1 ==>
      && Run(reqs[..|reqs| - 1], window).members == Stamps(reqs[..|reqs| - 1], Edge(reqs[..|reqs| - 1], window))
      && Run(reqs[..|reqs| - 1], window).expiry == Some(reqs[|reqs| - 2].later + 2 * window)
    requires s in Stamps(reqs, Edge(reqs, window))
    ensures s in Run(reqs, window).members
  {
    var n := |reqs| - 1;
    var i :| 0 <= i <= n && reqs[i].now == s && s > Edge(reqs, window);
    if i < n {
      assert reqs[..n][i].now == s;
      assert reqs[i].later <= reqs[n].later && reqs[n - 1].later <= reqs[n].later;
      assert s in Stamps(reqs[..n], Edge(reqs[..n], window));
    }
  }

  lemma StampsMore(reqs: seq<Request>, edge: int)
    requires reqs != []
    ensures var r := reqs[|reqs| - 1];
            Stamps(reqs, edge) == Stamps(reqs[..|reqs| - 1], edge) + (if r.now > edge then {r.now} else {})
  {
    var n := |reqs| - 1;
    var before, r := reqs[..n], reqs[n];
    forall s ensures s in Stamps(reqs, edge) <==> s in Stamps(before, edge) || (r.now > edge && s == r.now) {
      if s in Stamps(before, edge) {
        var i :| 0 <= i < n && before[i].now == s && before[i].now > edge;
        assert reqs[i].now == s;
      }
      if s in Stamps(reqs, edge) && s != r.now {
        var i :| 0 <= i <= n && reqs[i].now == s && reqs[i].now > edge;
        assert before[i].now == s;
      }
    }
  }

  /** No two requests after the edge share a stamp. */
  predicate DistinctAfter(reqs: seq<Request>, edge: int) {
    forall i, j :: 0 <= i < j < |reqs| && reqs[i].now > edge ==> reqs[i].now != reqs[j].now
  }

  lemma DistinctMore(reqs: seq<Request>, edge: int)
    requires reqs != []
    ensures var r := reqs[|reqs| - 1];
            DistinctAfter(reqs, edge) <==>
            DistinctAfter(reqs[..|reqs| - 1], edge) && (r.now > edge ==> r.now !in Stamps(reqs[..|reqs| - 1], edge))
  {
    var n := |reqs| - 1;
    var before, r := reqs[..n], reqs[n];
    if DistinctAfter(before, edge) && (r.now > edge ==> r.now !in Stamps(before, edge)) {
      forall i, j | 0 <= i < j < |reqs| && reqs[i].now > edge ensures reqs[i].now != reqs[j].now {
        assert before[i].now in Stamps(before, edge);
        assert j < n ==> before[i].now != before[j].now;
      }
    }
    if DistinctAfter(reqs, edge) {
      forall i, j | 0 <= i < j < n && before[i].now > edge ensures before[i].now != before[j].now {
        assert reqs[i].now != reqs[j].now;
      }
    }
  }

  lemma {:induction false} StampsCount(reqs: seq<Request>, edge: int)
    ensures |Stamps(reqs, edge)| <= CountAfter(reqs, edge)
    ensures |Stamps(reqs, edge)| == CountAfter(reqs, edge) <==> DistinctAfter(reqs, edge)
  {
    if reqs == [] {
    } else {
      StampsCount(reqs[..|reqs| - 1], edge);
      StampsMore(reqs, edge);
      DistinctMore(reqs, edge);
    }
  }

  /** Exactly when no stamp is shared within the window, the verdict is, for every limit, that of
      counting the whole history after the edge. */
  lemma VerdictIsWindowCount(reqs: seq<Request>, window: int)
    requires Served(reqs) && reqs != []
    ensures var edge := reqs[|reqs| - 1].later - window;
            DistinctAfter(reqs, edge) <==>
            forall limit :: Admitted(reqs, window, limit) <==> CountAfter(reqs, edge) <= limit
  {
    var edge := Edge(reqs, window);
    SetIsStamps(reqs, window);
    StampsCount(reqs, edge);
    if !DistinctAfter(reqs, edge) {
      assert Admitted(reqs, window, |Stamps(reqs, edge)|);
    }
  }

  /** Requests that share a stamp collapse into one member, and the count then falls short. */
  lemma SharedStampsUndercount()
    ensures var reqs := [Request(5, 5), Request(5, 5)];
            Served(reqs) && Admitted(reqs, 10, 1) && CountAfter(reqs, Edge(reqs, 10)) == 2
  {
    var reqs := [Request(5, 5), Request(5, 5)];
    SetIsStamps(reqs, 10);
    assert Stamps(reqs, -5) == {5};
    assert reqs[..1] == [Request(5, 5)] && reqs[..1][..0] == [];
    assert CountAfter(reqs[..1], -5) == 1;
  }

  // ---- The guarantee ----

  /** The admitted requests stamped in (lo, hi]. */
  function AdmittedIn(reqs: seq<Request>, window: int, limit: int, lo: int, hi: int): nat {
    if reqs == [] then 0
    else
      AdmittedIn(reqs[..|reqs| - 1], window, limit, lo, hi) +
      (if lo < reqs[|reqs| - 1].now <= hi && Admitted(reqs, window, limit) then 1 else 0)
  }

  lemma {:induction false} AdmittedAreRequests(reqs: seq<Request>, window: int, limit: int, lo: int, hi: int)
    ensures AdmittedIn(reqs, window, limit, lo, hi) <= CountAfter(reqs, lo)
  {
    if reqs == [] {
    } else {
      AdmittedAreRequests(reqs[..|reqs| - 1], window, limit, lo, hi);
    }
  }

  lemma {:induction false} CountAfterMono(reqs: seq<Request>, lo: int, hi: int)
    requires lo <= hi
    ensures CountAfter(reqs, hi) <= CountAfter(reqs, lo)
  {
    if reqs == [] {
    } else {
      CountAfterMono(reqs[..|reqs| - 1], lo, hi);
    }
  }

  /** An admitted request has at most limit requests, itself included, in its window. */
  lemma AdmittedMeansFew(reqs: seq<Request>, window: int, limit: int, lo: int)
    requires Served(reqs) && DistinctStamps(reqs) && reqs != []
    requires Admitted(reqs, window, limit) && Edge(reqs, window) <= lo
    ensures CountAfter(reqs, lo) <= limit
  {
    var edge := Edge(reqs, window);
    SetIsStamps(reqs, window);
    StampsCount(reqs, edge);
    CountAfterMono(reqs, edge, lo);
  }

  predicate Prompt(reqs: seq<Request>, gap: nat) {
    forall i :: 0 <= i < |reqs| ==> reqs[i].later <= reqs[i].now + gap
  }

  /** With commands that run at most gap after their stamp, no half-open interval shorter than the
      window by gap ever holds more than limit admitted requests; with gap 0 this is every
      interval of the window's length. */
  lemma {:induction false} NeverMoreThanLimit(reqs: seq<Request>, window: int, limit: int, gap: nat, lo: int)
    requires Served(reqs) && DistinctStamps(reqs) && Prompt(reqs, gap)
    ensures var n := AdmittedIn(reqs, window, limit, lo, lo + window - gap); n == 0 || n <= limit
  {
    if reqs == [] {
    } else {
      var m := |reqs| - 1;
      var hi := lo + window - gap;
      Prefix(reqs, m, gap);
      NeverMoreThanLimit(reqs[..m], window, limit, gap, lo);
      if lo < reqs[m].now <= hi && Admitted(reqs, window, limit) {
        assert Edge(reqs, window) <= lo by { assert reqs[m].later <= reqs[m].now + gap; }
        AdmittedMeansFew(reqs, window, limit, lo);
        AdmittedAreRequests(reqs, window, limit, lo, hi);
      }
    }
  }

  lemma Prefix(reqs: seq<Request>, m: nat, gap: nat)
    requires Served(reqs) && DistinctStamps(reqs) && Prompt(reqs, gap) && m <= |reqs|
    ensures Served(reqs[..m]) && DistinctStamps(reqs[..m]) && Prompt(reqs[..m], gap)
  {
  }

  // ---- Calls that fail ----

  datatype Call = Call(request: Request, outcome: Outcome)

  /** The requests of the calls that took effect, in order. */
  function Effective(calls: seq<Call>): seq<Request> {
    if calls == [] then []
    else
      var n := |calls| - 1;
      Effective(calls[..n]) + (if calls[n].outcome.Effective() then [calls[n].request] else [])
  }

  /** The set after a sequence of calls. */
  function RunCalls(calls: seq<Call>, window: int): Zset {
    if calls == [] then EMPTY
    else
      var n := |calls| - 1;
      var z := RunCalls(calls[..n], window);
      if calls[n].outcome.Effective() then Serve(z, calls[n].request, window) else z
  }

  /** The last call is let through. */
  predicate Passed(calls: seq<Call>, window: int, limit: int, failClosed: bool)
    requires calls != []
  {
    if calls[|calls| - 1].outcome.Answered? then |RunCalls(calls, window).members| <= limit else !failClosed
  }

  /** The calls let through that are stamped in (lo, hi]. */
  function PassedIn(calls: seq<Call>, window: int, limit: int, failClosed: bool, lo: int, hi: int): nat {
    if calls == [] then 0
    else
      var n := |calls| - 1;
      PassedIn(calls[..n], window, limit, failClosed, lo, hi) +
      (if lo < calls[n].request.now <= hi && Passed(calls, window, limit, failClosed) then 1 else 0)
  }

  lemma RunMore(reqs: seq<Request>, r: Request, window: int)
    ensures Run(reqs + [r], window) == Serve(Run(reqs, window), r, window)
  {
    assert (reqs + [r])[..|reqs|] == reqs;
  }

  /** A call without effect leaves no trace: the set is that of the effective calls. */
  lemma {:induction false} FailuresLeaveNoTrace(calls: seq<Call>, window: int)
    ensures RunCalls(calls, window) == Run(Effective(calls), window)
  {
    if calls == [] {
    } else {
      var n := |calls| - 1;
      FailuresLeaveNoTrace(calls[..n], window);
      RunMore(Effective(calls[..n]), calls[n].request, window);
      assert Effective(calls[..n]) + [] == Effective(calls[..n]);
    }
  }

  lemma AdmittedMore(reqs: seq<Request>, r: Request, window: int, limit: int, lo: int, hi: int)
    ensures AdmittedIn(reqs + [r], window, limit, lo, hi) ==
            AdmittedIn(reqs, window, limit, lo, hi) +
            (if lo < r.now <= hi && Admitted(reqs + [r], window, limit) then 1 else 0)
  {
    assert (reqs + [r])[..|reqs|] == reqs;
  }

  /** What a limiter that fails closed lets through was admitted by a count. */
  lemma {:induction false} PassedAreAdmitted(calls: seq<Call>, window: int, limit: int, lo: int, hi: int)
    ensures PassedIn(calls, window, limit, true, lo, hi) <= AdmittedIn(Effective(calls), window, limit, lo, hi)
  {
    if calls == [] {
    } else {
      var n := |calls| - 1;
      PassedAreAdmitted(calls[..n], window, limit, lo, hi);
      FailuresLeaveNoTrace(calls, window);
      var before, c := Effective(calls[..n]), calls[n];
      if c.outcome.Effective() {
        AdmittedMore(before, c.request, window, limit, lo, hi);
      } else {
        assert Effective(calls) == before;
      }
    }
  }

  /** A limiter that fails closed never lets through more than limit calls in such an interval,
      whatever fails. */
  lemma ClosedNeverMoreThanLimit(calls: seq<Call>, window: int, limit: int, gap: nat, lo: int)
    requires Served(Effective(calls)) && DistinctStamps(Effective(calls)) && Prompt(Effective(calls), gap)
    ensures var n := PassedIn(calls, window, limit, true, lo, lo + window - gap); n == 0 || n <= limit
  {
    PassedAreAdmitted(calls, window, limit, lo, lo + window - gap);
    NeverMoreThanLimit(Effective(calls), window, limit, gap, lo);
  }

  /** One that fails open lets everything through while Redis is away. */
  lemma {:induction false} OpenLetsAllThrough(calls: seq<Call>, window: int, limit: int, lo: int, hi: int)
    requires forall i :: 0 <= i < |calls| ==> !calls[i].outcome.Answered? && lo < calls[i].request.now <= hi
    ensures PassedIn(calls, window, limit, false, lo, hi) == |calls|
  {
    if calls == [] {
    } else {
      OpenLetsAllThrough(calls[..|calls| - 1], window, limit, lo, hi);
    }
  }
}
