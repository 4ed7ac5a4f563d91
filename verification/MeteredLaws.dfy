/** What one turn and one pass of the metered sync do: which rows are listed, pushed, drained and counted. */
module MeteredLaws {
  import opened Wrappers
  import opened Metered

  // ---- The meter of a feature ----

  predicate MeterAt(meters: seq<(string, string)>, feature: string, i: int) {
    0 <= i < |meters| && meters[i].0 == feature && meters[i].1 != ""
  }

  /** The meter is the first that is set for the feature. */
  lemma {:induction false} MeterIsTheFirst(meters: seq<(string, string)>, feature: string, i: nat)
    requires MeterAt(meters, feature, i) && forall j :: 0 <= j < i ==> !MeterAt(meters, feature, j)
    ensures EventName(meters, feature) == meters[i].1
  {
    if i > 0 {
      assert !MeterAt(meters, feature, 0);
      assert meters[1..][i - 1] == meters[i];
      forall j | 0 <= j < i - 1
        ensures !MeterAt(meters[1..], feature, j)
      {
        assert !MeterAt(meters, feature, j + 1);
      }
      MeterIsTheFirst(meters[1..], feature, i - 1);
    }
  }

  lemma {:induction false} NoMeterExactly(meters: seq<(string, string)>, feature: string)
    ensures EventName(meters, feature) == "" <==> forall i :: 0 <= i < |meters| ==> !MeterAt(meters, feature, i)
  {
    if |meters| > 0 {
      NoMeterExactly(meters[1..], feature);
      if MeterAt(meters, feature, 0) { assert EventName(meters, feature) == meters[0].1; }
      if i :| 0 <= i < |meters| && MeterAt(meters, feature, i) {
        if i > 0 { assert MeterAt(meters[1..], feature, i - 1); }
      }
      if i :| 0 <= i < |meters| - 1 && MeterAt(meters[1..], feature, i) {
        assert MeterAt(meters, feature, i + 1);
      }
    }
  }

  // ---- One turn ----

  /** The row has an identifier, its licence a customer, and its feature a meter. */
  predicate Pushable(row: Row, luck: Luck) {
    && row.identifier != "" && luck.lookup.Some? && luck.lookup.value.customer != ""
    && exists i :: 0 <= i < |luck.lookup.value.meters| && MeterAt(luck.lookup.value.meters, row.feature, i)
  }

  /** There is nothing to push under: the name under which the row is drained. */
  function DrainName(row: Row, luck: Luck): Option<string> {
    if row.identifier == "" then Some("legacy_no_identifier")
    else match luck.lookup
      case None => None
      case Some(config) =>
        if config.customer == "" then Some("no_stripe_customer")
        else if Pushable(row, luck) then None
        else Some("no_event_name")
  }

  /**
   The turn of a row with attempts left: it is dispatched exactly if it is pushable; it ends up synced
   exactly if it can be marked and is drained, or pushed and answered with success; failing that
   the attempt is counted if it can be; and nothing else of the row changes.
   */
  lemma TurnExactly(row: Row, luck: Luck, max: nat)
    requires row.attempts < max && !row.synced
    ensures
      var after := RowAfter(row, luck, max);
      && (Dispatches(row, luck, max) <==> Pushable(row, luck))
      && (after.synced <==> luck.marked && (DrainName(row, luck).Some? || (Pushable(row, luck) && luck.answer.Ok?)))
      && (after.synced ==>
            after == row.(synced := true,
                          externalId := if DrainName(row, luck).Some? then DrainName(row, luck).value
                                        else if luck.answer.value != "" then luck.answer.value else row.identifier))
      && (!after.synced ==> after == if luck.recorded then row.(attempts := row.attempts + 1) else row)
  {
    if luck.lookup.Some? { NoMeterExactly(luck.lookup.value.meters, row.feature); }
  }

  /** The provider drops an event exactly if it has accepted one of the same identifier less than a day before. */
  lemma ProviderDropsExactly(ledger: seq<Entry>, e: Entry)
    ensures Post(ledger, e) == if exists k :: 0 <= k < |ledger| && ledger[k].identifier == e.identifier && e.at < ledger[k].at + 24 * 60 * 60
                               then ledger else ledger + [e]
  {
    if exists k :: 0 <= k < |ledger| && ledger[k].identifier == e.identifier && e.at < ledger[k].at + 24 * 60 * 60 {
      assert Remembered(ledger, e.identifier, e.at);
    }
  }

  // ---- One pass ----

  function UnsyncedRows(rows: seq<Row>, n: nat): set<int>
    requires n <= |rows|
  {
    set i | 0 <= i < n && !rows[i].synced
  }

  lemma OneMore(s: set<int>, n: int)
    requires n !in s
    ensures |s + {n}| == |s| + 1
  {}

  lemma {:induction false} UnsyncedAreCounted(rows: seq<Row>, n: nat)
    requires n <= |rows|
    ensures UnsyncedBefore(rows, n) == |UnsyncedRows(rows, n)|
  {
    if n > 0 {
      UnsyncedAreCounted(rows, n - 1);
      var before := UnsyncedRows(rows, n - 1);
      OneMore(before, n - 1);
      if rows[n - 1].synced { assert UnsyncedRows(rows, n) == before; } else { assert UnsyncedRows(rows, n) == before + {n - 1}; }
    }
  }

  /** A pass lists the oldest unsynced rows, as many as the limit, a hundred if that is not positive. */
  lemma ListedExactly(rows: seq<Row>, limit: int, i: nat)
    requires i < |rows|
    ensures Listed(rows, Limit(limit), i) <==> !rows[i].synced && |UnsyncedRows(rows, i)| < if limit > 0 then limit else 100
  {
    UnsyncedAreCounted(rows, i);
  }

  /** The row has left the queue by being pushed. */
  predicate WasPushed(before: seq<Row>, after: seq<Row>, luck: nat -> Fate, i: nat)
    requires i < |before| == |after|
  {
    !before[i].synced && after[i].synced && Pushable(before[i], luck(i))
  }

  function PushedRows(before: seq<Row>, after: seq<Row>, luck: nat -> Fate, n: nat): set<int>
    requires n <= |before| == |after|
  {
    set i: nat | 0 <= i < n && WasPushed(before, after, luck, i)
  }

  lemma OneMorePushed(before: seq<Row>, after: seq<Row>, luck: nat -> Fate, n: nat)
    requires 0 < n <= |before| == |after|
    ensures |PushedRows(before, after, luck, n)| == |PushedRows(before, after, luck, n - 1)|
            + if WasPushed(before, after, luck, n - 1) then 1 else 0
  {
    hide WasPushed;
    var less := PushedRows(before, after, luck, n - 1);
    OneMore(less, n - 1);
    if WasPushed(before, after, luck, n - 1) {
      assert PushedRows(before, after, luck, n) == less + {n - 1};
    } else {
      assert PushedRows(before, after, luck, n) == less;
    }
  }

  /** A pass answers the number of rows that it has pushed and marked. */
  lemma {:induction false} PassCountsThePushed(rows: seq<Row>, limit: int, luck: nat -> Fate, max: nat, n: nat)
    requires n <= |rows|
    ensures Pushed(rows, limit, luck, max, n) == |PushedRows(rows, RowsAfter(rows, limit, luck, max), luck, n)|
  {
    hide Listed, Pushable, RowsAfter, MarkedAs, Dispatches, PushedRows;
    if n == 0 {
      NothingPushed(rows, RowsAfter(rows, limit, luck, max), luck);
    } else {
      PassCountsThePushed(rows, limit, luck, max, n - 1);
      var after := RowsAfter(rows, limit, luck, max);
      PushedExactly(rows, limit, luck, max, n - 1);
      OneMorePushed(rows, after, luck, n);
    }
  }

  lemma NothingPushed(before: seq<Row>, after: seq<Row>, luck: nat -> Fate)
    requires |before| == |after|
    ensures PushedRows(before, after, luck, 0) == {}
  {}

  lemma PushedExactly(rows: seq<Row>, limit: int, luck: nat -> Fate, max: nat, i: nat)
    requires i < |rows|
    ensures Listed(rows, Limit(limit), i) && Dispatches(rows[i], luck(i), max) && MarkedAs(rows[i], luck(i), max).Some?
        <==> !rows[i].synced && RowsAfter(rows, limit, luck, max)[i].synced && Pushable(rows[i], luck(i))
  {
    hide UnsyncedBefore, EventName;
    RowsAfterAt(rows, limit, luck, max, i);
    if luck(i).lookup.Some? { NoMeterExactly(luck(i).lookup.value.meters, rows[i].feature); }
  }

  /**
   A row becomes billed by a pass exactly if it is listed with attempts left, pushable and accepted;
   answered with success and marked, it has then left the queue.
   */
  lemma PassBillsExactly(b: Books, limit: int, luck: nat -> Fate, max: nat, now: int, i: nat)
    requires Consistent(b) && i < |b.rows| && b.rows[i].identifier != ""
    ensures
      var after := Pass(b, limit, luck, max, now);
      var pushed := Listed(b.rows, Limit(limit), i) && b.rows[i].attempts < max && Pushable(b.rows[i], luck(i));
      && (Known(after.ledger, b.rows[i].identifier) <==> Known(b.ledger, b.rows[i].identifier) || (pushed && luck(i).accepted))
      && (pushed && luck(i).answer.Ok? && luck(i).marked ==> after.rows[i].synced && Known(after.ledger, b.rows[i].identifier))
  {
    hide Consistent, LedgerAfter, Known, Pushable, Limit, UnsyncedBefore;
    KnownBy(b, limit, luck, max, now, |b.rows|, i);
    RowsAfterAt(b.rows, limit, luck, max, i);
    if Listed(b.rows, Limit(limit), i) && b.rows[i].attempts < max {
      TurnExactly(b.rows[i], luck(i), max);
    }
  }
}
