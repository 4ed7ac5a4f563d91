/**
 The fixed-window rate limiter: the in-memory backend with its cleanup, and the Redis
 backend. Instants and windows are integers in nanoseconds.
 */
module RateLimit {
  import opened Wrappers

  const FIVE_MINUTES := 300_000_000_000

  datatype Visitor = Visitor(count: int, firstSeen: int, lastSeen: int)

  function Visit(v: Option<Visitor>, window: int, now: int): Visitor {
    if v.None? || now - v.value.firstSeen >= window then Visitor(1, now, now)
    else v.value.(lastSeen := now, count := v.value.count + 1)
  }

  /** The first request of a window passes whatever the rate. */
  predicate Allowed(v: Option<Visitor>, rate: int, window: int, now: int) {
    v.None? || now - v.value.firstSeen >= window || v.value.count + 1 <= rate
  }

  predicate Idle(v: Visitor, now: int) { v.lastSeen < now - FIVE_MINUTES }

  class MemoryBackend {
    var visitors: map<string, Visitor>

    constructor ()
      ensures visitors == map[]
    {
      visitors := map[];
    }

    function Seen(key: string): Option<Visitor>
      reads this
    {
      if key in visitors then Some(visitors[key]) else None
    }

    method Allow(key: string, rate: int, window: int, now: int) returns (allowed: bool)
      modifies this
      ensures visitors == old(visitors)[key := Visit(old(Seen(key)), window, now)]
      ensures allowed == Allowed(old(Seen(key)), rate, window, now)
    {
      if key !in visitors || now - visitors[key].firstSeen >= window {
        visitors := visitors[key := Visitor(1, now, now)];
        return true;
      }
      var v := visitors[key];
      v := v.(lastSeen := now);
      v := v.(count := v.count + 1);
      visitors := visitors[key := v];
      allowed := v.count <= rate;
    }

    /** Drops exactly the visitors that have been idle for five minutes. */
    method Cleanup(now: int)
      modifies this
      ensures visitors.Keys == set k | k in old(visitors) && !Idle(old(visitors)[k], now)
      ensures forall k :: k in visitors ==> visitors[k] == old(visitors)[k]
    {
      var threshold := now - FIVE_MINUTES;
      var todo := visitors.Keys;
      while todo != {}
        invariant todo <= old(visitors).Keys && visitors.Keys <= old(visitors).Keys
        invariant forall k :: k in visitors ==> visitors[k] == old(visitors)[k]
        invariant forall k :: k in old(visitors) ==> (k in visitors <==> k in todo || !Idle(old(visitors)[k], now))
        decreases |todo|
      {
        var key :| key in todo;
        if visitors[key].lastSeen < threshold {
          visitors := visitors - {key};
        }
        todo := todo - {key};
      }
    }
  }

  /** The counter of the Redis backend and the instant at which it expires. */
  datatype Counter = Counter(value: int, expireAt: int)

  function Live(c: Option<Counter>, now: int): Option<Counter> {
    if c.Some? && now < c.value.expireAt then c else None
  }

  /** INCR, and an expiry set on the first increment only. */
  function Increment(c: Option<Counter>, window: int, now: int): Counter {
    match Live(c, now)
    case None => Counter(1, now + window)
    case Some(live) => live.(value := live.value + 1)
  }

  // ---- Runs of one key under one rate and window ----

  datatype Event = Request(at: int) | Sweep(at: int)

  function Swept(v: Option<Visitor>, at: int): Option<Visitor> {
    if v.Some? && Idle(v.value, at) then None else v
  }

  /** The visitor after a run of requests and cleanups. */
  function Run(window: int, events: seq<Event>): Option<Visitor> {
    if |events| == 0 then None
    else
      var v := Run(window, events[..|events| - 1]);
      match events[|events| - 1]
      case Request(at) => Some(Visit(v, window, at))
      case Sweep(at) => Swept(v, at)
  }

  /** The instants of the requests of a run. */
  function Requests(events: seq<Event>): seq<int> {
    if |events| == 0 then []
    else
      var before := Requests(events[..|events| - 1]);
      if events[|events| - 1].Request? then before + [events[|events| - 1].at] else before
  }

  predicate Ordered(events: seq<Event>) {
    forall i, j :: 0 <= i < j < |events| ==> events[i].at <= events[j].at
  }

  /** The visitor after requests alone. */
  function Visits(window: int, ts: seq<int>): Option<Visitor> {
    if |ts| == 0 then None else Some(Visit(Visits(window, ts[..|ts| - 1]), window, ts[|ts| - 1]))
  }

  /** Whether the last of the requests is admitted. */
  predicate LastAdmitted(rate: int, window: int, ts: seq<int>)
    requires |ts| > 0
  {
    Allowed(Visits(window, ts[..|ts| - 1]), rate, window, ts[|ts| - 1])
  }

  /** How many requests are admitted at instants from `from` to `to`, both included. */
  function AdmittedBetween(rate: int, window: int, ts: seq<int>, from: int, to: int): nat {
    if |ts| == 0 then 0
    else
      AdmittedBetween(rate, window, ts[..|ts| - 1], from, to)
      + if LastAdmitted(rate, window, ts) && from <= ts[|ts| - 1] <= to then 1 else 0
  }

  predicate Ascending(ts: seq<int>) { forall i, j :: 0 <= i < j < |ts| ==> ts[i] <= ts[j] }

  // ---- The bound on a sliding window ----

  lemma {:induction false} SplitInterval(rate: int, window: int, ts: seq<int>, from: int, middle: int, to: int)
    requires from <= middle <= to + 1
    ensures AdmittedBetween(rate, window, ts, from, to)
         == AdmittedBetween(rate, window, ts, from, middle - 1) + AdmittedBetween(rate, window, ts, middle, to)
  {
    if |ts| > 0 { SplitInterval(rate, window, ts[..|ts| - 1], from, middle, to); }
  }

  lemma {:induction false} NothingOutside(rate: int, window: int, ts: seq<int>, from: int, to: int)
    requires forall i :: 0 <= i < |ts| ==> ts[i] < from || to < ts[i]
    ensures AdmittedBetween(rate, window, ts, from, to) == 0
  {
    if |ts| > 0 { NothingOutside(rate, window, ts[..|ts| - 1], from, to); }
  }

  lemma {:induction false} Widening(rate: int, window: int, ts: seq<int>, from: int, to: int, from': int, to': int)
    requires from' <= from && to <= to'
    ensures AdmittedBetween(rate, window, ts, from, to) <= AdmittedBetween(rate, window, ts, from', to')
  {
    if |ts| > 0 { Widening(rate, window, ts[..|ts| - 1], from, to, from', to'); }
  }

  /** The open window: its start bounds every instant, and it has admitted its count up to the rate. */
  lemma {:induction false} OpenWindow(rate: int, window: int, ts: seq<int>)
    requires rate >= 1 && window >= 1 && Ascending(ts) && |ts| > 0
    ensures
      var v := Visits(window, ts).value;
      && v.count >= 1 && v.firstSeen <= ts[|ts| - 1] == v.lastSeen
      && (forall i :: 0 <= i < |ts| ==> ts[i] < v.firstSeen + window)
      && AdmittedBetween(rate, window, ts, v.firstSeen, ts[|ts| - 1]) == if v.count <= rate then v.count else rate
  {
    var n := |ts| - 1;
    var v := Visits(window, ts).value;
    var ts' := ts[..n];
    if n > 0 {
      OpenWindow(rate, window, ts');
      var u := Visits(window, ts').value;
      if ts[n] - u.firstSeen >= window {
        forall i | 0 <= i < n
          ensures ts'[i] < v.firstSeen
        {
          assert ts'[i] < u.firstSeen + window;
        }
        NothingOutside(rate, window, ts', v.firstSeen, ts[n]);
      } else {
        SplitInterval(rate, window, ts', v.firstSeen, ts'[n - 1] + 1, ts[n]);
        NothingOutside(rate, window, ts', ts'[n - 1] + 1, ts[n]);
      }
    } else {
      NothingOutside(rate, window, ts', v.firstSeen, ts[n]);
    }
  }

  /** Since the start of the open window, at most `rate` requests were admitted. */
  lemma OpenWindowBound(rate: int, window: int, ts: seq<int>, from: int, to: int)
    requires rate >= 1 && window >= 1 && Ascending(ts) && |ts| > 0
    requires from >= Visits(window, ts).value.firstSeen
    ensures AdmittedBetween(rate, window, ts, from, to) <= rate
    ensures Visits(window, ts).value.count <= rate ==> AdmittedBetween(rate, window, ts, from, to) <= Visits(window, ts).value.count
  {
    OpenWindow(rate, window, ts);
    var first, last := Visits(window, ts).value.firstSeen, ts[|ts| - 1];
    if to <= last {
      Widening(rate, window, ts, from, to, first, last);
    } else if from <= last {
      SplitInterval(rate, window, ts, from, last + 1, to);
      NothingOutside(rate, window, ts, last + 1, to);
      Widening(rate, window, ts, from, last, first, last);
    } else {
      NothingOutside(rate, window, ts, from, to);
    }
  }

  /** In the last window length before the open window starts, at most `rate` requests were admitted. */
  lemma {:induction false} PreviousWindowBound(rate: int, window: int, ts: seq<int>, from: int)
    requires rate >= 1 && window >= 1 && Ascending(ts) && |ts| > 0
    requires from >= Visits(window, ts).value.firstSeen - window
    ensures AdmittedBetween(rate, window, ts, from, Visits(window, ts).value.firstSeen - 1) <= rate
  {
    var n := |ts| - 1;
    var ts' := ts[..n];
    if n > 0 {
      var u := Visits(window, ts').value;
      if ts[n] - u.firstSeen >= window {
        OpenWindowBound(rate, window, ts', from, ts[n] - 1);
      } else {
        PreviousWindowBound(rate, window, ts', from);
        OpenWindow(rate, window, ts);
      }
    }
  }

  /** Any interval no longer than the window admits at most twice the rate. */
  lemma {:induction false} AtMostTwiceTheRate(rate: int, window: int, ts: seq<int>, from: int, to: int)
    requires rate >= 1 && window >= 1 && Ascending(ts) && to - from <= window
    ensures AdmittedBetween(rate, window, ts, from, to) <= 2 * rate
  {
    if |ts| > 0 {
      var n := |ts| - 1;
      var ts' := ts[..n];
      AtMostTwiceTheRate(rate, window, ts', from, to);
      if from <= ts[n] <= to {
        OpenWindow(rate, window, ts);
        var first := Visits(window, ts).value.firstSeen;
        if from < first {
          SplitInterval(rate, window, ts, from, first, to);
          PreviousWindowBound(rate, window, ts, from);
          OpenWindowBound(rate, window, ts, first, to);
        } else {
          OpenWindowBound(rate, window, ts, from, to);
        }
      }
    }
  }

  /** The bound is reached: a full window, and a burst at the instant the next one opens. */
  lemma TwiceTheRateIsReached(rate: int, window: int) returns (ts: seq<int>)
    requires rate >= 1 && window >= 1
    ensures Ascending(ts) && AdmittedBetween(rate, window, ts, 0, window) == 2 * rate
  {
    assert [0][..0] == [];
    assert AdmittedBetween(rate, window, [0], 0, window) == 1;
    var early := Burst([0], rate - 1, window, rate, 0, 0);
    var last := early + [window];
    assert last[..|early|] == early;
    ts := Burst(last, rate - 1, window, rate, window, window);
  }

  /** More requests at one instant of the open window, all admitted. */
  lemma {:induction false} Burst(ts: seq<int>, k: nat, window: int, rate: int, first: int, at: int) returns (more: seq<int>)
    requires |ts| > 0 && Ascending(ts) && ts[|ts| - 1] <= at && 0 <= at <= window
    requires Visits(window, ts).value.firstSeen == first && first <= at < first + window
    requires Visits(window, ts).value.count + k <= rate
    ensures Ascending(more) && |more| > 0 && more[|more| - 1] <= at
    ensures Visits(window, more).value.firstSeen == first && Visits(window, more).value.count == Visits(window, ts).value.count + k
    ensures AdmittedBetween(rate, window, more, 0, window) == AdmittedBetween(rate, window, ts, 0, window) + k
    decreases k
  {
    if k == 0 {
      more := ts;
    } else {
      var next := ts + [at];
      assert next[..|ts|] == ts;
      more := Burst(next, k - 1, window, rate, first, at);
    }
  }

  /** A request is rejected only when `rate` requests were admitted within the window length that ends with it. */
  lemma RejectedOnlyAfterRate(rate: int, window: int, ts: seq<int>, at: int)
    requires rate >= 1 && window >= 1 && Ascending(ts + [at])
    requires !LastAdmitted(rate, window, ts + [at])
    ensures AdmittedBetween(rate, window, ts, at - window + 1, at) >= rate
  {
    assert (ts + [at])[..|ts|] == ts;
    assert forall i :: 0 <= i < |ts| ==> (ts + [at])[i] == ts[i];
    assert Ascending(ts);
    OpenWindow(rate, window, ts);
    Widening(rate, window, ts, Visits(window, ts).value.firstSeen, ts[|ts| - 1], at - window + 1, at);
  }

  // ---- Cleanup and the second backend ----

  /** A run with cleanups holds the visitor of the requests alone, or has dropped one whose window is over. */
  predicate SameVisitor(window: int, swept: Option<Visitor>, kept: Option<Visitor>, now: int) {
    swept == kept || (swept.None? && kept.Some? && now - kept.value.firstSeen >= window)
  }

  lemma {:induction false} CleanupKeepsVisitor(window: int, events: seq<Event>, now: int)
    requires window <= FIVE_MINUTES + 1 && Ordered(events)
    requires |events| > 0 ==> events[|events| - 1].at <= now
    ensures SameVisitor(window, Run(window, events), Visits(window, Requests(events)), now)
    ensures SeenInOrder(Visits(window, Requests(events)), now)
  {
    hide Visit, Swept;
    if |events| > 0 {
      var n := |events| - 1;
      CleanupKeepsVisitor(window, events[..n], events[n].at);
      var ts := Requests(events[..n]);
      if events[n].Request? {
        assert (ts + [events[n].at])[..|ts|] == ts;
        VisitKeepsSame(window, Run(window, events[..n]), Visits(window, ts), events[n].at);
      } else {
        SweepKeepsSame(window, Run(window, events[..n]), Visits(window, ts), events[n].at);
      }
    }
  }

  predicate SeenInOrder(v: Option<Visitor>, now: int) {
    v.Some? ==> v.value.firstSeen <= v.value.lastSeen <= now
  }

  lemma VisitKeepsSame(window: int, swept: Option<Visitor>, kept: Option<Visitor>, at: int)
    requires SameVisitor(window, swept, kept, at) && SeenInOrder(kept, at)
    ensures Visit(swept, window, at) == Visit(kept, window, at) && SeenInOrder(Some(Visit(kept, window, at)), at)
  {}

  lemma SweepKeepsSame(window: int, swept: Option<Visitor>, kept: Option<Visitor>, at: int)
    requires window <= FIVE_MINUTES + 1 && SameVisitor(window, swept, kept, at) && SeenInOrder(kept, at)
    ensures SameVisitor(window, Swept(swept, at), kept, at)
  {}

  /** Cleanup never changes an answer while the window is no longer than it takes a visitor to become idle. */
  lemma CleanupChangesNoAnswer(rate: int, window: int, events: seq<Event>, at: int)
    requires window <= 300_000_000_001 && Ordered(events + [Request(at)])
    ensures Allowed(Run(window, events), rate, window, at) == Allowed(Visits(window, Requests(events)), rate, window, at)
  {
    var all := events + [Request(at)];
    assert forall i :: 0 <= i < |events| ==> events[i] == all[i] && all[i].at <= all[|events|].at;
    assert Ordered(events) by {
      forall i, j | 0 <= i < j < |events| ensures events[i].at <= events[j].at { assert all[i].at <= all[j].at; }
    }
    CleanupKeepsVisitor(window, events, at);
    VisitKeepsSame(window, Run(window, events), Visits(window, Requests(events)), at);
  }

  /** With any longer window some cleanup lets a request through that would have been rejected. */
  lemma LongWindowIsCutShort(window: int)
    requires window > 300_000_000_001
    ensures
      var late := 300_000_000_001;
      var events := [Request(0), Sweep(late)];
      && Ordered(events + [Request(late)])
      && Allowed(Run(window, events), 1, window, late)
      && !Allowed(Visits(window, Requests(events)), 1, window, late)
  {
    var events := [Request(0), Sweep(FIVE_MINUTES + 1)];
    assert events[..1] == [Request(0)];
    assert [Request(0)][..0] == [];
    assert Run(window, [Request(0)]) == Some(Visitor(1, 0, 0));
    assert Requests([Request(0)]) == [0];
    assert Visits(window, [0]) == Some(Visitor(1, 0, 0));
  }

  /** The Redis counter after requests. */
  function Counted(window: int, ts: seq<int>): Option<Counter> {
    if |ts| == 0 then None else Some(Increment(Counted(window, ts[..|ts| - 1]), window, ts[|ts| - 1]))
  }

  /** Both backends admit the same requests. */
  lemma {:induction false} BackendsAgree(rate: int, window: int, ts: seq<int>)
    requires rate >= 1 && |ts| > 0
    ensures Counted(window, ts).value.value == Visits(window, ts).value.count
    ensures Counted(window, ts).value.expireAt == Visits(window, ts).value.firstSeen + window
    ensures Counted(window, ts).value.value <= rate <==> LastAdmitted(rate, window, ts)
  {
    if |ts| > 1 { BackendsAgree(rate, window, ts[..|ts| - 1]); }
  }
}
