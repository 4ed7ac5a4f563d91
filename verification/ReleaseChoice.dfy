/** Which releases a client may be shown, and that the latest one and the feed show these and no others. */
module ReleaseChoice {
  import opened Wrappers
  import opened Semver
  import opened Releases

  /** Users of one channel see it and the steadier ones; an unknown channel sees what stable sees. */
  predicate Sees(asked: string, channel: string) {
    match channel
    case "stable" => true
    case "beta" => asked == "beta" || asked == "alpha" || asked == "dev"
    case "alpha" => asked == "alpha" || asked == "dev"
    case "dev" => asked == "dev"
    case _ => false
  }

  /** Published, of this product, on a channel that is seen, and uploaded for the platform if one is given. */
  predicate MayBeShown(r: Release, product: string, asked: string, platform: string) {
    r.status == Published && r.product == product && Sees(asked, r.channel) && (platform == "" || platform in r.uploaded)
  }

  lemma SeenChannels(asked: string)
    ensures forall c :: c in Chain(asked) <==> Sees(asked, c)
  {}

  lemma ShownIsOnOffer(store: Store, product: string, asked: string, platform: string, r: Release)
    ensures OnOffer(store, product, Chain(asked), platform, r) <==> r in store.rows && MayBeShown(r, product, asked, platform)
  {
    SeenChannels(asked);
  }

  /** The latest release may be shown. */
  lemma LatestMayBeShown(store: Store, product: string, asked: string, platform: string)
    requires Latest(store, product, asked, platform).Ok?
    ensures
      var r := Latest(store, product, asked, platform).value;
      r in store.rows && MayBeShown(r, product, asked, platform)
  {
    hide Latest, Chain, MayBeShown, OnOffer;
    var r := Latest(store, product, asked, platform).value;
    LatestIsHighest(store, product, asked, platform, r);
    ShownIsOnOffer(store, product, asked, platform, r);
  }

  /**
   The store fails exactly if a channel that is seen cannot be read; otherwise none is available
   exactly if no row may be shown.
   */
  lemma LatestExactly(store: Store, product: string, asked: string, platform: string)
    ensures
      var failed := exists c :: c in store.failing && Sees(asked, c);
      && (Latest(store, product, asked, platform) == Err(StoreFailed) <==> failed)
      && (Latest(store, product, asked, platform) == Err(NoneAvailable) <==>
            !failed && forall r :: r in store.rows ==> !MayBeShown(r, product, asked, platform))
      && (Latest(store, product, asked, platform).Ok? <==>
            !failed && exists r :: r in store.rows && MayBeShown(r, product, asked, platform))
  {
    hide MayBeShown, OnOffer, Sees;
    SeenChannels(asked);
    PoolIsRead(store, product, Chain(asked), platform);
    if forall c :: c in Chain(asked) ==> c !in store.failing {
      NoneAvailableExactly(store, product, asked, platform);
      forall r
        ensures OnOffer(store, product, Chain(asked), platform, r) <==> r in store.rows && MayBeShown(r, product, asked, platform)
      {
        ShownIsOnOffer(store, product, asked, platform, r);
      }
    }
  }

  /** How many rows of one channel may be shown. */
  function CountOn(rows: seq<Release>, product: string, channel: string, platform: string): nat {
    if rows == [] then 0
    else
      var r := rows[|rows| - 1];
      CountOn(rows[..|rows| - 1], product, channel, platform)
      + if r.status == Published && r.product == product && r.channel == channel && (platform == "" || platform in r.uploaded) then 1 else 0
  }

  lemma {:induction false} CountOnSelects(rows: seq<Release>, product: string, channel: string, platform: string)
    ensures |Select(rows, product, channel, platform)| == CountOn(rows, product, channel, platform)
  {
    if rows != [] {
      var n := |rows| - 1;
      CountOnSelects(rows[..n], product, channel, platform);
      SelectOfBoth(rows[..n], [rows[n]], product, channel, platform);
      assert rows == rows[..n] + [rows[n]] && [rows[n]][1..] == [];
    }
  }

  /** No channel has more than a thousand rows to show. */
  predicate FewEnough(store: Store, product: string, asked: string, platform: string) {
    forall c :: c in {"stable", "beta", "alpha", "dev"} && Sees(asked, c) ==> CountOn(store.rows, product, c, platform) <= 1000
  }

  lemma FewEnoughFit(store: Store, product: string, asked: string, platform: string)
    requires FewEnough(store, product, asked, platform)
    ensures Fits(store, product, Chain(asked), platform)
  {
    SeenChannels(asked);
    forall c | c in Chain(asked)
      ensures |Select(store.rows, product, c, platform)| <= WINDOW
    {
      CountOnSelects(store.rows, product, c, platform);
      assert Sees(asked, c);
    }
  }

  /** No row that may be shown goes before the latest release, as long as no channel has more than a thousand. */
  lemma LatestIsNotExceeded(store: Store, product: string, asked: string, platform: string, q: Release)
    requires q in store.rows && MayBeShown(q, product, asked, platform) && FewEnough(store, product, asked, platform)
    requires forall c :: c in store.failing ==> !Sees(asked, c)
    ensures Latest(store, product, asked, platform).Ok?
    ensures !Before(q.version, Latest(store, product, asked, platform).value.version)
  {
    hide MayBeShown, OnOffer, Latest, FewEnough, Fits, Before;
    LatestExactly(store, product, asked, platform);
    FewEnoughFit(store, product, asked, platform);
    ShownIsOnOffer(store, product, asked, platform, q);
    LatestIsHighest(store, product, asked, platform, q);
  }

  // ---- The feed ----

  /** Only the four channels have a feed, and it fails exactly if a channel that is seen cannot be read. */
  lemma FeedAnswersExactly(store: Store, product: string, asked: string, platform: string, limit: int)
    ensures
      var f := Feed(store, product, asked, platform, limit);
      && (f == Err(InvalidChannel) <==> asked !in {"stable", "beta", "alpha", "dev"})
      && (f == Err(StoreFailed) <==> asked in {"stable", "beta", "alpha", "dev"} && exists c :: c in store.failing && Sees(asked, c))
      && f != Err(NoneAvailable)
  {
    SeenChannels(asked);
    PoolIsRead(store, product, Chain(asked), platform);
  }

  lemma PooledMayBeShown(store: Store, product: string, asked: string, platform: string, i: nat)
    requires Pool(store, product, Chain(asked), platform).Some?
    requires i < |SortDesc(Pool(store, product, Chain(asked), platform).value)|
    ensures
      var r := SortDesc(Pool(store, product, Chain(asked), platform).value)[i];
      r in store.rows && MayBeShown(r, product, asked, platform)
  {
    hide MayBeShown, OnOffer, Chain, SortDesc;
    var sorted := SortDesc(Pool(store, product, Chain(asked), platform).value);
    assert sorted[i] in multiset(sorted);
    PoolMembers(store, product, Chain(asked), platform, sorted[i]);
    ShownIsOnOffer(store, product, asked, platform, sorted[i]);
  }

  /**
   The feed shows rows that may be shown, higher versions first, and at most as many as asked for,
   twenty when that is not between 1 and 100. If no channel has more than a thousand, it
   shows all of them or as many as asked for, and what it leaves out goes before nothing in it.
   */
  lemma FeedShowsTheHighest(store: Store, product: string, asked: string, platform: string, limit: int, q: Release)
    requires Feed(store, product, asked, platform, limit).Ok?
    ensures
      var feed := Feed(store, product, asked, platform, limit).value;
      var most := if 1 <= limit <= 100 then limit else 20;
      && |feed| <= most && Sorted(feed)
      && (forall i :: 0 <= i < |feed| ==> feed[i] in store.rows && MayBeShown(feed[i], product, asked, platform))
      && (q in store.rows && MayBeShown(q, product, asked, platform) && FewEnough(store, product, asked, platform) && q !in feed ==>
            |feed| == most && forall i :: 0 <= i < |feed| ==> !Before(q.version, feed[i].version))
  {
    hide MayBeShown, OnOffer, Chain, FewEnough, Fits, Before, SortDesc, Pool;
    var pool := Pool(store, product, Chain(asked), platform).value;
    var sorted := SortDesc(pool);
    var feed := Feed(store, product, asked, platform, limit).value;
    SortIsStable(pool);
    assert forall i :: 0 <= i < |feed| ==> feed[i] == sorted[i];
    forall i | 0 <= i < |feed|
      ensures feed[i] in store.rows && MayBeShown(feed[i], product, asked, platform)
    {
      PooledMayBeShown(store, product, asked, platform, i);
    }
    if q in store.rows && MayBeShown(q, product, asked, platform) && FewEnough(store, product, asked, platform) && q !in feed {
      FewEnoughFit(store, product, asked, platform);
      ShownIsOnOffer(store, product, asked, platform, q);
      PoolMembers(store, product, Chain(asked), platform, q);
      assert q in multiset(pool) && q in multiset(sorted);
      var j :| 0 <= j < |sorted| && sorted[j] == q;
      assert forall i :: 0 <= i < |feed| ==> sorted[i] != q;
    }
  }
}
