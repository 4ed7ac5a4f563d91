/** Choosing releases: the channel-fallback pool, its stable sort by version, the latest release and the feed. */
module Releases {
  import opened Wrappers
  import opened Semver

  datatype Status = Draft | Published | Yanked

  datatype Release = Release(id: string, product: string, version: string, channel: string, status: Status, uploaded: set<string>)

  datatype FeedError = StoreFailed | NoneAvailable | InvalidChannel

  const WINDOW := 1000
  const MAX_FEED_LIST := 5000
  const DEFAULT_LIMIT := 20

  /** The version with its "v", or nothing if it is no version. */
  function Normalize(v: string): string {
    if v == "" then "" else
    var w := if v[0] != 'v' then "v" + v else v;
    if IsValid(w) then w else ""
  }

  /** The order of the sort: higher versions first, and what is no version last. */
  predicate Before(v: string, w: string) {
    var vi, wi := Normalize(v), Normalize(w);
    if vi == "" then false else if wi == "" then true else Compare(vi, wi) > 0
  }

  predicate Readable(v: string) { Normalize(v) != "" }

  function Read(v: string): Version
    requires Readable(v)
  {
    Parse(Normalize(v)).value
  }

  /** One version goes before another exactly when it has the higher precedence or the other is no version. */
  lemma BeforeMeaning(v: string, w: string)
    ensures Before(v, w) <==> Readable(v) && (Readable(w) ==> WellFormed(Read(v)) && WellFormed(Read(w)) && Below(Read(w), Read(v)))
  {
    hide Below, CompareVersions, WellFormed;
    if Readable(v) && Readable(w) {
      ParsedIsWellFormed(Normalize(v));
      ParsedIsWellFormed(Normalize(w));
      CompareIsPrecedence(Read(v), Read(w));
    }
  }

  /** The comparator is a strict weak order on all strings. */
  lemma BeforeIsStrictWeakOrder(u: string, v: string, w: string)
    ensures !Before(u, u)
    ensures Before(u, v) ==> !Before(v, u)
    ensures Before(u, v) && Before(v, w) ==> Before(u, w)
    ensures Before(u, w) ==> Before(u, v) || Before(v, w)
  {
    hide CompareVersions, Parse;
    if Readable(u) { HigherIsWeakOrder(Read(u), Read(u), Read(u)); }
    if Readable(u) && Readable(v) {
      HigherIsWeakOrder(Read(u), Read(v), Read(u));
      if Readable(w) { HigherIsWeakOrder(Read(u), Read(v), Read(w)); }
    }
  }

  predicate Higher(v: Version, w: Version) { CompareVersions(v, w) > 0 }

  lemma HigherIsWeakOrder(u: Version, v: Version, w: Version)
    ensures !Higher(u, u)
    ensures Higher(u, v) ==> !Higher(v, u)
    ensures Higher(u, v) && Higher(v, w) ==> Higher(u, w)
    ensures Higher(u, w) ==> Higher(u, v) || Higher(v, w)
  {
    hide CompareVersions;
    VersionsAreOrdered(u, u, u);
    VersionsAreOrdered(u, v, w);
    VersionsAreOrdered(v, w, u);
    VersionsAreOrdered(w, v, u);
    VersionsAreOrdered(v, u, w);
    VersionsAreOrdered(w, u, v);
    TiesAgree(u, v, w);
  }

  /** Versions that differ in build metadata only compare alike with every other. */
  lemma TiesAgree(u: Version, v: Version, w: Version)
    ensures CompareVersions(u, v) == 0 ==> CompareVersions(u, w) == CompareVersions(v, w)
    ensures CompareVersions(v, w) == 0 ==> CompareVersions(u, v) == CompareVersions(u, w)
  {
    hide CompareInt, ComparePrerelease;
    VersionsAreOrdered(u, v, w);
    VersionsAreOrdered(v, w, u);
  }

  predicate Ties(v: string, w: string) { !Before(v, w) && !Before(w, v) }

  // ---- The stable sort ----

  /** `r` in front of the first release of `s` that does not go before it. */
  function Insert(r: Release, s: seq<Release>): seq<Release> {
    if s == [] then [r] else if Before(s[0].version, r.version) then [s[0]] + Insert(r, s[1..]) else [r] + s
  }

  function SortDesc(s: seq<Release>): (t: seq<Release>)
    ensures |t| == |s| && multiset(t) == multiset(s)
  {
    if s == [] then [] else
      InsertKeeps(s[0], SortDesc(s[1..]));
      assert s == [s[0]] + s[1..];
      Insert(s[0], SortDesc(s[1..]))
  }

  lemma {:induction false} InsertKeeps(r: Release, s: seq<Release>)
    ensures |Insert(r, s)| == |s| + 1 && multiset(Insert(r, s)) == multiset([r] + s)
  {
    if s != [] {
      InsertKeeps(r, s[1..]);
      assert s == [s[0]] + s[1..];
    }
  }

  predicate Sorted(s: seq<Release>) {
    forall i, j :: 0 <= i < j < |s| ==> !Before(s[j].version, s[i].version)
  }

  /** The releases that tie with `v`, in order. */
  function Tied(s: seq<Release>, v: string): seq<Release> {
    if s == [] then [] else (if Ties(s[0].version, v) then [s[0]] else []) + Tied(s[1..], v)
  }

  /** Sorted, and tied releases are the same ones in the order they came in. */
  ghost predicate IsStableSort(s: seq<Release>, t: seq<Release>) {
    Sorted(t) && forall v :: Tied(t, v) == Tied(s, v)
  }

  lemma {:induction false} InsertSorted(r: Release, s: seq<Release>)
    requires Sorted(s)
    ensures Sorted(Insert(r, s))
  {
    hide Before;
    InsertKeeps(r, s);
    if s != [] {
      if Before(s[0].version, r.version) {
        InsertSorted(r, s[1..]);
        InsertKeeps(r, s[1..]);
        var t := Insert(r, s[1..]);
        forall j | 0 <= j < |t|
          ensures !Before(t[j].version, s[0].version)
        {
          assert t[j] in multiset([r] + s[1..]);
          BeforeIsStrictWeakOrder(s[0].version, r.version, s[0].version);
          assert t[j] == r || t[j] in s[1..];
        }
      } else {
        forall j | 0 <= j < |s|
          ensures !Before(s[j].version, r.version)
        {
          BeforeIsStrictWeakOrder(s[j].version, s[0].version, r.version);
        }
      }
    }
  }

  lemma {:induction false} InsertTied(r: Release, s: seq<Release>, v: string)
    ensures Tied(Insert(r, s), v) == Tied([r] + s, v)
  {
    hide Before;
    assert ([r] + s)[1..] == s;
    if s != [] && Before(s[0].version, r.version) {
      InsertTied(r, s[1..], v);
      assert ([r] + s[1..])[1..] == s[1..];
      assert ([s[0]] + Insert(r, s[1..]))[1..] == Insert(r, s[1..]);
      BeforeIsStrictWeakOrder(s[0].version, v, r.version);
    }
  }

  lemma {:induction false} SortIsStable(s: seq<Release>)
    ensures IsStableSort(s, SortDesc(s))
  {
    if s != [] {
      var t := SortDesc(s[1..]);
      SortIsStable(s[1..]);
      InsertSorted(s[0], t);
      forall v
        ensures Tied(SortDesc(s), v) == Tied(s, v)
      {
        InsertTied(s[0], t, v);
        assert ([s[0]] + t)[1..] == t;
      }
    }
  }

  lemma {:induction false} TiedMember(s: seq<Release>, r: Release, v: string)
    ensures r in Tied(s, v) <==> r in s && Ties(r.version, v)
  {
    hide Before, Ties;
    if s != [] {
      TiedMember(s[1..], r, v);
      assert s == [s[0]] + s[1..];
    }
  }

  /** A list has only one stable sort: the sorting algorithm does not matter. */
  lemma StableSortIsUnique(s: seq<Release>, t: seq<Release>)
    requires IsStableSort(s, t)
    ensures t == SortDesc(s)
  {
    SortIsStable(s);
    SortedWithTheSameTies(t, SortDesc(s));
  }

  lemma {:induction false} SortedWithTheSameTies(t: seq<Release>, u: seq<Release>)
    requires Sorted(t) && Sorted(u) && forall v :: Tied(t, v) == Tied(u, v)
    ensures t == u
    decreases |t|
  {
    hide Before;
    if t == [] || u == [] {
      if t != [] { HeadTies(t, u); }
      if u != [] { HeadTies(u, t); }
    } else {
      HeadTies(t, u);
      HeadTies(u, t);
      assert !Before(t[0].version, u[0].version) by {
        var i :| 0 <= i < |u| && u[i] == t[0];
        BeforeIsStrictWeakOrder(u[0].version, u[0].version, u[0].version);
      }
      assert !Before(u[0].version, t[0].version) by {
        var i :| 0 <= i < |t| && t[i] == u[0];
        BeforeIsStrictWeakOrder(t[0].version, t[0].version, t[0].version);
      }
      BeforeIsStrictWeakOrder(t[0].version, t[0].version, t[0].version);
      assert Tied(t, t[0].version)[0] == t[0] && Tied(u, t[0].version)[0] == u[0];
      assert t[0] == u[0];
      forall v
        ensures Tied(t[1..], v) == Tied(u[1..], v)
      {
        assert Tied(t, v) == Tied(u, v);
        if Ties(t[0].version, v) {
          assert Tied(t[1..], v) == Tied(t, v)[1..];
          assert Tied(u[1..], v) == Tied(u, v)[1..];
        } else {
          assert Tied(t[1..], v) == Tied(t, v) && Tied(u[1..], v) == Tied(u, v);
        }
      }
      SortedWithTheSameTies(t[1..], u[1..]);
      assert t == [t[0]] + t[1..] && u == [u[0]] + u[1..];
    }
  }

  lemma HeadTies(t: seq<Release>, u: seq<Release>)
    requires t != [] && forall v :: Tied(t, v) == Tied(u, v)
    ensures t[0] in u
  {
    hide Before;
    BeforeIsStrictWeakOrder(t[0].version, t[0].version, t[0].version);
    TiedMember(t, t[0], t[0].version);
    TiedMember(u, t[0], t[0].version);
  }

  // ---- The pool ----

  /** The releases table, rows by publication time and then id, latest first; reading some channels may fail. */
  datatype Store = Store(rows: seq<Release>, failing: set<string>)

  predicate ValidChannel(c: string) { c == "stable" || c == "beta" || c == "alpha" || c == "dev" }

  /** A channel and the steadier ones its users also see. */
  function Chain(c: string): seq<string> {
    if c == "dev" then ["dev", "alpha", "beta", "stable"]
    else if c == "alpha" then ["alpha", "beta", "stable"]
    else if c == "beta" then ["beta", "stable"]
    else ["stable"]
  }

  predicate Offered(r: Release, product: string, channel: string, platform: string) {
    r.product == product && r.channel == channel && r.status.Published? && (platform != "" ==> platform in r.uploaded)
  }

  function Select(rows: seq<Release>, product: string, channel: string, platform: string): seq<Release> {
    if rows == [] then []
    else (if Offered(rows[0], product, channel, platform) then [rows[0]] else []) + Select(rows[1..], product, channel, platform)
  }

  function First(s: seq<Release>, n: nat): seq<Release> { if n < |s| then s[..n] else s }

  function ListPublished(store: Store, product: string, channel: string, platform: string, limit: int): seq<Release> {
    var n := if limit <= 0 then 20 else if limit > MAX_FEED_LIST then MAX_FEED_LIST else limit;
    First(Select(store.rows, product, channel, platform), n)
  }

  /** What the channels of a chain offer, channel after channel; nothing if one of them cannot be read. */
  function Pool(store: Store, product: string, chain: seq<string>, platform: string): Option<seq<Release>> {
    if chain == [] then Some([])
    else if chain[0] in store.failing then None
    else
      var rest := Pool(store, product, chain[1..], platform);
      if rest.None? then None else Some(ListPublished(store, product, chain[0], platform, WINDOW) + rest.value)
  }

  function Latest(store: Store, product: string, channel: string, platform: string): Result<Release, FeedError> {
    var pool := Pool(store, product, Chain(channel), platform);
    if pool.None? then Err(StoreFailed)
    else if pool.value == [] then Err(NoneAvailable)
    else Ok(SortDesc(pool.value)[0])
  }

  function Limit(limit: int): nat { if limit <= 0 || limit > 100 then DEFAULT_LIMIT else limit }

  function Feed(store: Store, product: string, channel: string, platform: string, limit: int): Result<seq<Release>, FeedError> {
    if !ValidChannel(channel) then Err(InvalidChannel)
    else
      var pool := Pool(store, product, Chain(channel), platform);
      if pool.None? then Err(StoreFailed) else Ok(First(SortDesc(pool.value), Limit(limit)))
  }

  method GatherPool(store: Store, product: string, chain: seq<string>, platform: string) returns (pool: Option<seq<Release>>)
    ensures pool == Pool(store, product, chain, platform)
  {
    var gathered: seq<Release> := [];
    ghost var whole := Pool(store, product, chain, platform);
    assert chain[0..] == chain && (whole.Some? ==> gathered + whole.value == whole.value);
    for i := 0 to |chain|
      invariant Pool(store, product, chain, platform)
             == match Pool(store, product, chain[i..], platform)
                case None => None
                case Some(rest) => Some(gathered + rest)
    {
      assert chain[i..][1..] == chain[i + 1..];
      if chain[i] in store.failing { return None; }
      var batch := ListPublished(store, product, chain[i], platform, WINDOW);
      ghost var rest := Pool(store, product, chain[i + 1..], platform);
      assert rest.Some? ==> gathered + (batch + rest.value) == gathered + batch + rest.value;
      gathered := gathered + batch;
    }
    assert gathered + [] == gathered;
    pool := Some(gathered);
  }

  method FindLatestPublished(store: Store, product: string, channel: string, platform: string)
      returns (r: Result<Release, FeedError>)
    ensures r == Latest(store, product, channel, platform)
  {
    var pool := GatherPool(store, product, Chain(channel), platform);
    if pool.None? { return Err(StoreFailed); }
    if |pool.value| == 0 { return Err(NoneAvailable); }
    var sorted := SortDesc(pool.value);
    r := Ok(sorted[0]);
  }

  method ListForFeed(store: Store, product: string, channel: string, platform: string, limit: int)
      returns (r: Result<seq<Release>, FeedError>)
    ensures r == Feed(store, product, channel, platform, limit)
  {
    if !ValidChannel(channel) { return Err(InvalidChannel); }
    var n := if limit <= 0 || limit > 100 then DEFAULT_LIMIT else limit;
    var pool := GatherPool(store, product, Chain(channel), platform);
    if pool.None? { return Err(StoreFailed); }
    if |pool.value| == 0 { return Ok([]); }
    var sorted := SortDesc(pool.value);
    if |sorted| > n { sorted := sorted[..n]; }
    r := Ok(sorted);
  }

  // ---- What is chosen ----

  lemma {:induction false} SelectMember(rows: seq<Release>, product: string, channel: string, platform: string, r: Release)
    ensures r in Select(rows, product, channel, platform) <==> r in rows && Offered(r, product, channel, platform)
  {
    if rows != [] {
      SelectMember(rows[1..], product, channel, platform, r);
      assert rows == [rows[0]] + rows[1..];
    }
  }

  /** Every channel of the chain fits the window. */
  predicate Fits(store: Store, product: string, chain: seq<string>, platform: string) {
    forall c :: c in chain ==> |Select(store.rows, product, c, platform)| <= WINDOW
  }

  predicate OnOffer(store: Store, product: string, chain: seq<string>, platform: string, r: Release) {
    r in store.rows && r.channel in chain && Offered(r, product, r.channel, platform)
  }

  /** The pool holds releases on offer only; all of them when the channels fit the window, and some if there are any. */
  lemma {:induction false} PoolMembers(store: Store, product: string, chain: seq<string>, platform: string, r: Release)
    requires Pool(store, product, chain, platform).Some?
    ensures r in Pool(store, product, chain, platform).value ==> OnOffer(store, product, chain, platform, r)
    ensures OnOffer(store, product, chain, platform, r) ==>
              Pool(store, product, chain, platform).value != []
              && (Fits(store, product, chain, platform) ==> r in Pool(store, product, chain, platform).value)
  {
    if chain != [] {
      PoolMembers(store, product, chain[1..], platform, r);
      assert chain == [chain[0]] + chain[1..];
      var all := Select(store.rows, product, chain[0], platform);
      SelectMember(store.rows, product, chain[0], platform, r);
      var batch := ListPublished(store, product, chain[0], platform, WINDOW);
      assert r in batch ==> r in all;
      assert all != [] ==> batch != [];
      if Fits(store, product, chain, platform) {
        assert chain[0] in chain;
        assert batch == all;
        assert Fits(store, product, chain[1..], platform);
      }
    }
  }

  /** No release of the pool exceeds the latest one; with channels that fit the window, no release on offer does. */
  lemma LatestIsHighest(store: Store, product: string, channel: string, platform: string, q: Release)
    requires Latest(store, product, channel, platform).Ok?
    ensures
      var r := Latest(store, product, channel, platform).value;
      && OnOffer(store, product, Chain(channel), platform, r)
      && (q in Pool(store, product, Chain(channel), platform).value ==> !Before(q.version, r.version))
      && (Fits(store, product, Chain(channel), platform) && OnOffer(store, product, Chain(channel), platform, q) ==>
            !Before(q.version, r.version))
  {
    hide Chain, Before, OnOffer;
    var pool := Pool(store, product, Chain(channel), platform).value;
    var sorted := SortDesc(pool);
    SortIsStable(pool);
    assert sorted[0] in multiset(pool);
    PoolMembers(store, product, Chain(channel), platform, sorted[0]);
    PoolMembers(store, product, Chain(channel), platform, q);
    if q in pool {
      assert q in multiset(sorted);
      var i :| 0 <= i < |sorted| && sorted[i] == q;
      BeforeIsStrictWeakOrder(q.version, q.version, q.version);
    }
  }

  /** As soon as one release on offer carries a version, the latest one does, and none on offer has higher precedence. */
  lemma LatestHasHighestPrecedence(store: Store, product: string, channel: string, platform: string, q: Release)
    requires Latest(store, product, channel, platform).Ok? && Fits(store, product, Chain(channel), platform)
    requires OnOffer(store, product, Chain(channel), platform, q) && Readable(q.version)
    ensures
      var r := Latest(store, product, channel, platform).value;
      && Readable(r.version) && WellFormed(Read(r.version)) && WellFormed(Read(q.version))
      && !Below(Read(r.version), Read(q.version))
  {
    hide Below, WellFormed, Latest, Fits, OnOffer, Chain;
    LatestIsHighest(store, product, channel, platform, q);
    BeforeMeaning(q.version, Latest(store, product, channel, platform).value.version);
    ParsedIsWellFormed(Normalize(q.version));
    if Readable(Latest(store, product, channel, platform).value.version) {
      ParsedIsWellFormed(Normalize(Latest(store, product, channel, platform).value.version));
    }
  }

  /** There is no latest release exactly when nothing is on offer. */
  lemma NoneAvailableExactly(store: Store, product: string, channel: string, platform: string)
    requires forall c :: c in Chain(channel) ==> c !in store.failing
    ensures Latest(store, product, channel, platform) == Err(NoneAvailable)
        <==> forall r :: r in store.rows ==> !OnOffer(store, product, Chain(channel), platform, r)
  {
    hide Chain;
    PoolIsRead(store, product, Chain(channel), platform);
    var pool := Pool(store, product, Chain(channel), platform).value;
    if pool != [] { PoolMembers(store, product, Chain(channel), platform, pool[0]); }
    forall r | r in store.rows && OnOffer(store, product, Chain(channel), platform, r)
      ensures pool != []
    {
      PoolMembers(store, product, Chain(channel), platform, r);
    }
  }

  lemma {:induction false} PoolIsRead(store: Store, product: string, chain: seq<string>, platform: string)
    ensures Pool(store, product, chain, platform).Some? <==> forall c :: c in chain ==> c !in store.failing
  {
    if chain != [] {
      PoolIsRead(store, product, chain[1..], platform);
      assert chain == [chain[0]] + chain[1..];
    }
  }

  /** Download and feed agree: the latest release is the first of the feed, whatever the limit. */
  lemma LatestHeadsTheFeed(store: Store, product: string, channel: string, platform: string, limit: int)
    requires ValidChannel(channel)
    ensures
      match Feed(store, product, channel, platform, limit)
      case Err(e) => Latest(store, product, channel, platform) == Err(e)
      case Ok(feed) => Latest(store, product, channel, platform) == if feed == [] then Err(NoneAvailable) else Ok(feed[0])
  {}

  /** A shorter feed is the beginning of a longer one. */
  lemma ShorterFeedIsPrefix(store: Store, product: string, channel: string, platform: string, small: int, large: int)
    requires 1 <= small <= large <= 100
    requires Feed(store, product, channel, platform, large).Ok?
    ensures Feed(store, product, channel, platform, small).Ok?
    ensures Feed(store, product, channel, platform, small).value <= Feed(store, product, channel, platform, large).value
    ensures |Feed(store, product, channel, platform, small).value| == 
            if |Feed(store, product, channel, platform, large).value| < small then |Feed(store, product, channel, platform, large).value| else small
  {}

  function Rank(c: string): nat { if c == "dev" then 3 else if c == "alpha" then 2 else if c == "beta" then 1 else 0 }

  lemma {:induction false} WiderPool(store: Store, product: string, chain: seq<string>, platform: string, k: nat, r: Release)
    requires k <= |chain| && Pool(store, product, chain, platform).Some?
    requires Pool(store, product, chain[k..], platform).Some? && r in Pool(store, product, chain[k..], platform).value
    ensures r in Pool(store, product, chain, platform).value
    decreases k
  {
    if k > 0 {
      assert chain[1..][k - 1..] == chain[k..];
      WiderPool(store, product, chain[1..], platform, k - 1, r);
    } else {
      assert chain[k..] == chain;
    }
  }

  /**
   Moving from stable through beta and alpha to dev loses the latest release exactly when the
   store fails one of the channels then read, and never lowers its version.
   */
  lemma WiderChannelIsNoLower(store: Store, product: string, narrow: string, wide: string, platform: string)
    requires ValidChannel(narrow) && ValidChannel(wide) && Rank(narrow) <= Rank(wide)
    requires Latest(store, product, narrow, platform).Ok?
    ensures Latest(store, product, wide, platform).Ok? <==> forall c :: c in Chain(wide) ==> c !in store.failing
    ensures Latest(store, product, wide, platform).Ok? ==>
              !Before(Latest(store, product, narrow, platform).value.version, Latest(store, product, wide, platform).value.version)
  {
    var r := Latest(store, product, narrow, platform).value;
    hide Before;
    var k := Rank(wide) - Rank(narrow);
    assert Chain(wide)[k..] == Chain(narrow);
    var pool := Pool(store, product, Chain(narrow), platform).value;
    assert r in multiset(SortDesc(pool));
    PoolIsRead(store, product, Chain(wide), platform);
    if Pool(store, product, Chain(wide), platform).Some? {
      WiderPool(store, product, Chain(wide), platform, k, r);
      LatestIsHighest(store, product, wide, platform, r);
    }
  }

  lemma {:induction false} SelectOfBoth(a: seq<Release>, b: seq<Release>, product: string, channel: string, platform: string)
    ensures Select(a + b, product, channel, platform) == Select(a, product, channel, platform) + Select(b, product, channel, platform)
  {
    hide Offered;
    if a == [] {
      assert a + b == b;
    } else {
      SelectOfBoth(a[1..], b, product, channel, platform);
      assert (a + b)[0] == a[0] && (a + b)[1..] == a[1..] + b;
    }
  }

  /** A release that its own channel's window leaves out is in no pool. */
  lemma {:induction false} LeftOutOfPool(store: Store, product: string, chain: seq<string>, platform: string, r: Release)
    requires Pool(store, product, chain, platform).Some?
    requires r !in ListPublished(store, product, r.channel, platform, WINDOW)
    ensures r !in Pool(store, product, chain, platform).value
  {
    if chain != [] {
      LeftOutOfPool(store, product, chain[1..], platform, r);
      SelectMember(store.rows, product, chain[0], platform, r);
    }
  }

  /**
   Behind a full window of its channel a release is never the latest, on whatever channel one
   asks: one on offer there that goes before all others exceeds the release that is chosen.
   */
  lemma FullWindowHidesTheRest(
      store: Store, recent: seq<Release>, rest: seq<Release>, r: Release, product: string, channel: string, platform: string)
    requires store.rows == recent + rest && forall c :: c in Chain(channel) ==> c !in store.failing
    requires r.channel in Chain(channel) && |Select(recent, product, r.channel, platform)| == 1000
    requires r in rest && r !in recent && Offered(r, product, r.channel, platform)
    requires forall q :: OnOffer(store, product, Chain(channel), platform, q) && q != r ==> Before(r.version, q.version)
    ensures OnOffer(store, product, Chain(channel), platform, r)
    ensures Latest(store, product, channel, platform).Ok?
    ensures Before(r.version, Latest(store, product, channel, platform).value.version)
  {
    hide Before, SortDesc, Chain, Offered;
    var chain := Chain(channel);
    SelectOfBoth(recent, rest, product, r.channel, platform);
    var batch := ListPublished(store, product, r.channel, platform, WINDOW);
    assert batch == Select(recent, product, r.channel, platform);
    SelectMember(recent, product, r.channel, platform, r);
    PoolIsRead(store, product, chain, platform);
    LeftOutOfPool(store, product, chain, platform, r);
    PoolMembers(store, product, chain, platform, r);
    var pool := Pool(store, product, chain, platform).value;
    var latest := SortDesc(pool)[0];
    assert latest in multiset(SortDesc(pool));
    PoolMembers(store, product, chain, platform, latest);
  }
}
