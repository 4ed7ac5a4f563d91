/**
 Metered billing: the queue of usage rows that sync passes push to the payment provider, and
 the provider's ledger, which drops a repeated identifier for 24 hours. Instants are integers
 in seconds.
 */
module Metered {
  import opened Wrappers

  const DEDUP_WINDOW := 86400
  const DEFAULT_LIMIT := 100

  datatype Row = Row(license: string, feature: string, quantity: int, identifier: string, attempts: nat, synced: bool, externalId: string)

  /** What a licence looks up to: its customer, and the meter of each feature of its plan. */
  datatype Config = Config(customer: string, meters: seq<(string, string)>)

  /**
   What befalls one push: the licence lookup, whether the provider accepts the event, what it
   answers, and whether the row is marked synced or its failure recorded.
   */
  datatype Luck = Luck(lookup: Option<Config>, accepted: bool, answer: Result<string, string>, marked: bool, recorded: bool)

  /** The provider answers with success only what it has accepted; an accepted event may still be answered with an error. */
  type Fate = l: Luck | l.answer.Ok? ==> l.accepted witness Luck(None, false, Err(""), false, false)

  datatype Entry = Entry(identifier: string, quantity: int, at: int)

  datatype Books = Books(rows: seq<Row>, ledger: seq<Entry>)

  // ---- One push ----

  function EventName(meters: seq<(string, string)>, feature: string): string {
    if |meters| == 0 then ""
    else if meters[0].0 == feature && meters[0].1 != "" then meters[0].1
    else EventName(meters[1..], feature)
  }

  /** Why a row is drained without being pushed, if it is. */
  function Sentinel(row: Row, luck: Luck): Option<string> {
    if row.identifier == "" then Some("legacy_no_identifier")
    else if luck.lookup.None? then None
    else if luck.lookup.value.customer == "" then Some("no_stripe_customer")
    else if EventName(luck.lookup.value.meters, row.feature) == "" then Some("no_event_name")
    else None
  }

  predicate Dispatches(row: Row, luck: Luck, max: nat) {
    row.attempts < max && Sentinel(row, luck).None? && luck.lookup.Some?
  }

  predicate Accepts(row: Row, luck: Luck, max: nat) { Dispatches(row, luck, max) && luck.accepted }

  /** The name under which a row is marked synced, if the push comes that far. */
  function MarkedAs(row: Row, luck: Luck, max: nat): Option<string> {
    if row.attempts >= max || !luck.marked then None
    else if Sentinel(row, luck).Some? then Sentinel(row, luck)
    else if luck.lookup.None? || luck.answer.Err? then None
    else Some(if luck.answer.value == "" then row.identifier else luck.answer.value)
  }

  function RowAfter(row: Row, luck: Luck, max: nat): Row {
    if row.attempts >= max then row
    else if MarkedAs(row, luck, max).Some? then row.(synced := true, externalId := MarkedAs(row, luck, max).value)
    else if luck.recorded then row.(attempts := row.attempts + 1)
    else row
  }

  // ---- The provider ----

  predicate Remembered(ledger: seq<Entry>, identifier: string, now: int) {
    exists k :: 0 <= k < |ledger| && ledger[k].identifier == identifier && now - ledger[k].at < DEDUP_WINDOW
  }

  function Post(ledger: seq<Entry>, e: Entry): seq<Entry> {
    if Remembered(ledger, e.identifier, e.at) then ledger else ledger + [e]
  }

  // ---- One pass ----

  /** The number of rows before `i` that are not synced. */
  function UnsyncedBefore(rows: seq<Row>, i: nat): nat
    requires i <= |rows|
  {
    if i == 0 then 0 else UnsyncedBefore(rows, i - 1) + if rows[i - 1].synced then 0 else 1
  }

  predicate Listed(rows: seq<Row>, limit: int, i: nat)
    requires i < |rows|
  {
    !rows[i].synced && UnsyncedBefore(rows, i) < limit
  }

  function Limit(limit: int): int { if limit <= 0 then DEFAULT_LIMIT else limit }

  function RowsAfter(rows: seq<Row>, limit: int, luck: nat -> Fate, max: nat): (after: seq<Row>)
    ensures |after| == |rows|
  {
    seq(|rows|, i requires 0 <= i < |rows| => if Listed(rows, Limit(limit), i) then RowAfter(rows[i], luck(i), max) else rows[i])
  }

  /** The ledger once the first `n` rows have had their turn. */
  function LedgerAfter(b: Books, limit: int, luck: nat -> Fate, max: nat, now: int, n: nat): seq<Entry>
    requires n <= |b.rows|
  {
    if n == 0 then b.ledger
    else
      var ledger := LedgerAfter(b, limit, luck, max, now, n - 1);
      var row := b.rows[n - 1];
      if Listed(b.rows, Limit(limit), n - 1) && Accepts(row, luck(n - 1), max)
      then Post(ledger, Entry(row.identifier, row.quantity, now)) else ledger
  }

  function Pass(b: Books, limit: int, luck: nat -> Fate, max: nat, now: int): Books {
    Books(RowsAfter(b.rows, limit, luck, max), LedgerAfter(b, limit, luck, max, now, |b.rows|))
  }

  /** How many of the first `n` rows are pushed and marked in a pass. */
  function Pushed(rows: seq<Row>, limit: int, luck: nat -> Fate, max: nat, n: nat): nat
    requires n <= |rows|
  {
    if n == 0 then 0
    else
      Pushed(rows, limit, luck, max, n - 1)
      + if Listed(rows, Limit(limit), n - 1) && Dispatches(rows[n - 1], luck(n - 1), max) && MarkedAs(rows[n - 1], luck(n - 1), max).Some?
        then 1 else 0
  }

  class MeteredBillingSyncer {
    const maxAttempts: nat
    var rows: seq<Row>
    var ledger: seq<Entry>

    constructor (maxAttempts: nat)
      ensures this.maxAttempts == maxAttempts && State() == Books([], [])
    {
      this.maxAttempts := maxAttempts;
      rows := [];
      ledger := [];
    }

    function State(): Books
      reads this
    {
      Books(rows, ledger)
    }

    method InsertMeteredEvent(license: string, feature: string, quantity: int, id: string)
      modifies this`rows
      ensures rows == old(rows) + [Row(license, feature, quantity, id, 0, false, "")]
    {
      rows := rows + [Row(license, feature, quantity, id, 0, false, "")];
    }

    method MeterFor(meters: seq<(string, string)>, feature: string) returns (eventName: string)
      ensures eventName == EventName(meters, feature)
    {
      eventName := "";
      for i := 0 to |meters|
        invariant eventName == "" && EventName(meters, feature) == EventName(meters[i..], feature)
      {
        assert meters[i..][1..] == meters[i + 1..];
        if meters[i].0 == feature && meters[i].1 != "" {
          return meters[i].1;
        }
      }
    }

    method MarkMeteredSynced(i: nat, externalId: string, marked: bool)
      requires i < |rows|
      modifies this`rows
      ensures rows == old(rows)[i := if marked then old(rows)[i].(synced := true, externalId := externalId) else old(rows)[i]]
    {
      if marked { rows := rows[i := rows[i].(synced := true, externalId := externalId)]; }
    }

    /** Pushes one row; `failed` stands for every error. */
    method SyncOne(i: nat, luck: Fate, now: int) returns (sent: bool, failed: bool)
      requires i < |rows| && rows[i].attempts < maxAttempts
      modifies this
      ensures failed <==> MarkedAs(old(rows)[i], luck, maxAttempts).None?
      ensures sent <==> !failed && Dispatches(old(rows)[i], luck, maxAttempts)
      ensures failed ==> rows == old(rows)
      ensures !failed ==> rows == old(rows)[i := RowAfter(old(rows)[i], luck, maxAttempts)]
      ensures ledger == if Accepts(old(rows)[i], luck, maxAttempts)
                        then Post(old(ledger), Entry(old(rows)[i].identifier, old(rows)[i].quantity, now)) else old(ledger)
    {
      var row := rows[i];
      if row.identifier == "" {
        MarkMeteredSynced(i, "legacy_no_identifier", luck.marked);
        return false, !luck.marked;
      }
      if luck.lookup.None? { return false, true; }
      if luck.lookup.value.customer == "" {
        MarkMeteredSynced(i, "no_stripe_customer", luck.marked);
        return false, !luck.marked;
      }
      var eventName := MeterFor(luck.lookup.value.meters, row.feature);
      if eventName == "" {
        MarkMeteredSynced(i, "no_event_name", luck.marked);
        return false, !luck.marked;
      }
      if luck.accepted {
        ledger := Post(ledger, Entry(row.identifier, row.quantity, now));
      }
      if luck.answer.Err? { return false, true; }
      var externalId := luck.answer.value;
      if externalId == "" { externalId := row.identifier; }
      MarkMeteredSynced(i, externalId, luck.marked);
      return luck.marked, !luck.marked;
    }

    method ListUnsyncedMetered(limit: int) returns (listed: seq<nat>)
      requires limit > 0
      ensures forall k :: 0 <= k < |listed| ==> listed[k] < |rows|
      ensures forall j, k :: 0 <= j < k < |listed| ==> listed[j] < listed[k]
      ensures forall i :: 0 <= i < |rows| ==> (i in listed <==> Listed(rows, limit, i))
    {
      listed := [];
      for i := 0 to |rows|
        invariant |listed| == if UnsyncedBefore(rows, i) < limit then UnsyncedBefore(rows, i) else limit
        invariant forall k :: 0 <= k < |listed| ==> listed[k] < i
        invariant forall j, k :: 0 <= j < k < |listed| ==> listed[j] < listed[k]
        invariant forall j :: 0 <= j < i ==> (j in listed <==> Listed(rows, limit, j))
      {
        if |listed| < limit && !rows[i].synced {
          listed := listed + [i];
        }
      }
    }

    /** The turn of one listed row: pushed unless its attempts are used up, and a failure recorded. */
    method TakeTurn(i: nat, luck: Fate, now: int) returns (pushed: bool)
      requires i < |rows|
      modifies this
      ensures rows == old(rows)[i := RowAfter(old(rows)[i], luck, maxAttempts)]
      ensures ledger == if Accepts(old(rows)[i], luck, maxAttempts)
                        then Post(old(ledger), Entry(old(rows)[i].identifier, old(rows)[i].quantity, now)) else old(ledger)
      ensures pushed <==> Dispatches(old(rows)[i], luck, maxAttempts) && MarkedAs(old(rows)[i], luck, maxAttempts).Some?
    {
      hide Post, EventName, Sentinel;
      if rows[i].attempts >= maxAttempts { return false; }
      var sent, failed := SyncOne(i, luck, now);
      if failed {
        if luck.recorded { rows := rows[i := rows[i].(attempts := rows[i].attempts + 1)]; }
        return false;
      }
      pushed := sent;
    }

    /** A pass; one that cannot list the queue does nothing. */
    method RunOnce(limit: int, luck: nat -> Fate, now: int, listFails: bool) returns (pushed: nat)
      modifies this
      ensures State() == if listFails then old(State()) else Pass(old(State()), limit, luck, maxAttempts, now)
      ensures pushed == if listFails then 0 else Pushed(old(rows), limit, luck, maxAttempts, |old(rows)|)
    {
      hide Post, Accepts, Dispatches, MarkedAs, RowAfter, RowsAfter, LedgerAfter, Pushed, Listed;
      var n := if limit <= 0 then DEFAULT_LIMIT else limit;
      if listFails { return 0; }
      var listed := ListUnsyncedMetered(n);
      pushed := 0;
      ghost var b := State();
      ghost var turn: nat := 0;
      NoTurnYet(b, limit, luck, maxAttempts, now);
      for k := 0 to |listed|
        invariant turn == if k == 0 then 0 else listed[k - 1] + 1
        invariant HadTurns(b, limit, luck, maxAttempts, now, turn, State(), pushed)
      {
        var i := listed[k];
        UnlistedHaveNoTurn(b, limit, luck, maxAttempts, now, turn, i, State(), pushed, listed, k);
        assert i in listed;
        ghost var before, count := State(), pushed;
        var sent := TakeTurn(i, luck(i), now);
        if sent { pushed := pushed + 1; }
        OneMoreTurn(b, limit, luck, maxAttempts, now, i, before, count, State(), pushed);
        turn := i + 1;
      }
      UnlistedHaveNoTurn(b, limit, luck, maxAttempts, now, turn, |b.rows|, State(), pushed, listed, |listed|);
      AllHadTurns(b, limit, luck, maxAttempts, now, State(), pushed);
    }
  }

  /** The rows before `turn` have had their turn in a pass, and the others not. */
  ghost predicate HadTurns(b: Books, limit: int, luck: nat -> Fate, max: nat, now: int, turn: nat, s: Books, pushed: nat) {
    && turn <= |b.rows| == |s.rows|
    && (forall i :: 0 <= i < |s.rows| ==> s.rows[i] == if i < turn then RowsAfter(b.rows, limit, luck, max)[i] else b.rows[i])
    && s.ledger == LedgerAfter(b, limit, luck, max, now, turn)
    && pushed == Pushed(b.rows, limit, luck, max, turn)
  }

  lemma NoTurnYet(b: Books, limit: int, luck: nat -> Fate, max: nat, now: int)
    ensures HadTurns(b, limit, luck, max, now, 0, b, 0)
  {}

  lemma AllHadTurns(b: Books, limit: int, luck: nat -> Fate, max: nat, now: int, s: Books, pushed: nat)
    requires HadTurns(b, limit, luck, max, now, |b.rows|, s, pushed)
    ensures s == Pass(b, limit, luck, max, now) && pushed == Pushed(b.rows, limit, luck, max, |b.rows|)
  {}

  lemma OneMoreTurn(
      b: Books, limit: int, luck: nat -> Fate, max: nat, now: int, i: nat, before: Books, count: nat, s: Books, pushed: nat)
    requires i < |b.rows| && Listed(b.rows, Limit(limit), i)
    requires HadTurns(b, limit, luck, max, now, i, before, count)
    requires s.rows == before.rows[i := RowAfter(b.rows[i], luck(i), max)]
    requires s.ledger == if Accepts(b.rows[i], luck(i), max)
                         then Post(before.ledger, Entry(b.rows[i].identifier, b.rows[i].quantity, now)) else before.ledger
    requires pushed == count + if Dispatches(b.rows[i], luck(i), max) && MarkedAs(b.rows[i], luck(i), max).Some? then 1 else 0
    ensures HadTurns(b, limit, luck, max, now, i + 1, s, pushed)
  {}

  /** Rows between two that are listed have no turn. */
  lemma UnlistedHaveNoTurn(
      b: Books, limit: int, luck: nat -> Fate, max: nat, now: int, turn: nat, i: nat, s: Books, pushed: nat, listed: seq<nat>, k: nat)
    requires HadTurns(b, limit, luck, max, now, turn, s, pushed)
    requires turn <= i <= |b.rows| && k <= |listed|
    requires turn == if k == 0 then 0 else listed[k - 1] + 1
    requires i == if k < |listed| then listed[k] else |b.rows|
    requires forall j, l :: 0 <= j < l < |listed| ==> listed[j] < listed[l]
    requires forall j :: 0 <= j < |b.rows| ==> (j in listed <==> Listed(b.rows, Limit(limit), j))
    ensures HadTurns(b, limit, luck, max, now, i, s, pushed)
  {
    hide LedgerAfter, Pushed, Listed;
    assert forall l :: 0 <= l < k ==> listed[l] <= listed[k - 1];
    assert forall l :: k <= l < |listed| ==> listed[k] <= listed[l];
    forall j: nat | turn <= j < i
      ensures !Listed(b.rows, Limit(limit), j)
    {
      assert forall l :: 0 <= l < |listed| ==> listed[l] != j;
    }
    NoTurns(b, limit, luck, max, now, turn, i);
  }

  lemma {:induction false} NoTurns(b: Books, limit: int, luck: nat -> Fate, max: nat, now: int, lo: nat, hi: nat)
    requires lo <= hi <= |b.rows| && forall j :: lo <= j < hi ==> !Listed(b.rows, Limit(limit), j)
    ensures LedgerAfter(b, limit, luck, max, now, hi) == LedgerAfter(b, limit, luck, max, now, lo)
    ensures Pushed(b.rows, limit, luck, max, hi) == Pushed(b.rows, limit, luck, max, lo)
    decreases hi - lo
  {
    if lo < hi { NoTurns(b, limit, luck, max, now, lo, hi - 1); }
  }

  // ---- What is billed ----

  function Billed(ledger: seq<Entry>): int {
    if |ledger| == 0 then 0 else Billed(ledger[..|ledger| - 1]) + ledger[|ledger| - 1].quantity
  }

  /** The provider has an event under this identifier. */
  predicate Known(ledger: seq<Entry>, identifier: string) {
    exists k :: 0 <= k < |ledger| && ledger[k].identifier == identifier
  }

  /** The quantities of the rows the provider has accepted, each row counted once. */
  function Accepted(rows: seq<Row>, ledger: seq<Entry>): int {
    if |rows| == 0 then 0
    else
      var row := rows[|rows| - 1];
      Accepted(rows[..|rows| - 1], ledger) + if row.identifier != "" && Known(ledger, row.identifier) then row.quantity else 0
  }

  predicate Distinct(ledger: seq<Entry>) {
    forall j, k :: 0 <= j < k < |ledger| ==> ledger[j].identifier != ledger[k].identifier
  }

  predicate EntryOf(e: Entry, row: Row) { row.identifier != "" && e.identifier == row.identifier && e.quantity == row.quantity }

  predicate HasRow(rows: seq<Row>, e: Entry) { exists i :: 0 <= i < |rows| && EntryOf(e, rows[i]) }

  predicate UniqueIdentifiers(rows: seq<Row>) {
    forall i, j :: 0 <= i < j < |rows| && rows[i].identifier != "" ==> rows[i].identifier != rows[j].identifier
  }

  /** Identifiers are unique, quantities positive, and every entry of the ledger is of a row. */
  predicate Consistent(b: Books) {
    && UniqueIdentifiers(b.rows)
    && (forall i :: 0 <= i < |b.rows| ==> b.rows[i].quantity > 0)
    && (forall k :: 0 <= k < |b.ledger| ==> HasRow(b.rows, b.ledger[k]))
  }

  lemma KnownAfter(ledger: seq<Entry>, e: Entry, identifier: string)
    ensures Known(ledger + [e], identifier) <==> Known(ledger, identifier) || identifier == e.identifier
  {
    var longer := ledger + [e];
    assert longer[|ledger|] == e;
    assert forall k :: 0 <= k < |ledger| ==> longer[k] == ledger[k];
  }

  lemma {:induction false} AcceptedUnchanged(rows: seq<Row>, ledger: seq<Entry>, e: Entry)
    requires forall i :: 0 <= i < |rows| && rows[i].identifier == e.identifier ==> rows[i].identifier == "" || Known(ledger, e.identifier)
    ensures Accepted(rows, ledger + [e]) == Accepted(rows, ledger)
  {
    if |rows| > 0 {
      AcceptedUnchanged(rows[..|rows| - 1], ledger, e);
      KnownAfter(ledger, e, rows[|rows| - 1].identifier);
    }
  }

  /** An entry of a row not yet accepted adds that row's quantity. */
  lemma {:induction false} AcceptedGrows(rows: seq<Row>, ledger: seq<Entry>, e: Entry)
    requires UniqueIdentifiers(rows) && HasRow(rows, e) && !Known(ledger, e.identifier)
    ensures Accepted(rows, ledger + [e]) == Accepted(rows, ledger) + e.quantity
  {
    var n := |rows| - 1;
    KnownAfter(ledger, e, rows[n].identifier);
    if EntryOf(e, rows[n]) {
      assert forall i :: 0 <= i < n ==> rows[..n][i] == rows[i];
      AcceptedUnchanged(rows[..n], ledger, e);
    } else {
      var i :| 0 <= i < |rows| && EntryOf(e, rows[i]);
      assert rows[..n][i] == rows[i];
      AcceptedGrows(rows[..n], ledger, e);
    }
  }

  lemma {:induction false} NothingAccepted(rows: seq<Row>)
    ensures Accepted(rows, []) == 0
  {
    if |rows| > 0 { NothingAccepted(rows[..|rows| - 1]); }
  }

  lemma PositiveEntry(rows: seq<Row>, e: Entry)
    requires HasRow(rows, e) && forall i :: 0 <= i < |rows| ==> rows[i].quantity > 0
    ensures e.quantity > 0
  {}

  /** The bill is at least the sum over the accepted rows, and exactly that if and only if no row is in the ledger twice. */
  lemma {:induction false} BillMeaning(rows: seq<Row>, ledger: seq<Entry>)
    requires Consistent(Books(rows, ledger))
    ensures Billed(ledger) >= Accepted(rows, ledger)
    ensures Billed(ledger) == Accepted(rows, ledger) <==> Distinct(ledger)
    decreases |ledger|
  {
    if |ledger| == 0 {
      NothingAccepted(rows);
    } else {
      var n := |ledger| - 1;
      var e := ledger[n];
      hide Accepted, HasRow, UniqueIdentifiers;
      assert forall k :: 0 <= k < n ==> ledger[..n][k] == ledger[k];
      assert Consistent(Books(rows, ledger[..n]));
      BillMeaning(rows, ledger[..n]);
      assert ledger == ledger[..n] + [e];
      PositiveEntry(rows, e);
      if Known(ledger[..n], e.identifier) {
        AcceptedUnchanged(rows, ledger[..n], e);
        var k :| 0 <= k < n && ledger[..n][k].identifier == e.identifier;
        assert ledger[k].identifier == ledger[n].identifier;
      } else {
        AcceptedGrows(rows, ledger[..n], e);
        assert Distinct(ledger) <==> Distinct(ledger[..n]) by {
          forall k | 0 <= k < n
            ensures ledger[k].identifier != e.identifier
          {
            assert ledger[..n][k] == ledger[k];
          }
        }
      }
    }
  }

  // ---- Runs ----

  datatype Step =
    | Enqueue(license: string, feature: string, quantity: int, id: string)
    | Sync(limit: int, luck: nat -> Fate, now: int)

  function Take(b: Books, step: Step, max: nat): Books {
    match step
    case Enqueue(license, feature, quantity, id) => b.(rows := b.rows + [Row(license, feature, quantity, id, 0, false, "")])
    case Sync(limit, luck, now) => Pass(b, limit, luck, max, now)
  }

  function After(steps: seq<Step>, max: nat): Books {
    if |steps| == 0 then Books([], []) else Take(After(steps[..|steps| - 1], max), steps[|steps| - 1], max)
  }

  /** Rows are queued with a positive quantity, and with an identifier of their own or, as older rows, none. */
  ghost predicate WellQueued(steps: seq<Step>, max: nat) {
    forall n :: 0 <= n < |steps| && steps[n].Enqueue? ==>
      && steps[n].quantity > 0
      && (steps[n].id != "" ==>
            forall i :: 0 <= i < |After(steps[..n], max).rows| ==> After(steps[..n], max).rows[i].identifier != steps[n].id)
  }

  lemma PrefixWellQueued(steps: seq<Step>, max: nat)
    requires WellQueued(steps, max) && |steps| > 0
    ensures WellQueued(steps[..|steps| - 1], max)
  {
    var shorter := steps[..|steps| - 1];
    forall n | 0 <= n < |shorter|
      ensures shorter[n] == steps[n] && shorter[..n] == steps[..n]
    {}
  }

  lemma {:induction false} LedgerIsOfRows(b: Books, limit: int, luck: nat -> Fate, max: nat, now: int, n: nat)
    requires Consistent(b) && n <= |b.rows|
    ensures forall k :: 0 <= k < |LedgerAfter(b, limit, luck, max, now, n)| ==> HasRow(b.rows, LedgerAfter(b, limit, luck, max, now, n)[k])
  {
    hide Accepts, Listed;
    if n > 0 {
      LedgerIsOfRows(b, limit, luck, max, now, n - 1);
      var row := b.rows[n - 1];
      if Accepts(row, luck(n - 1), max) {
        AcceptedHasIdentifier(row, luck(n - 1), max);
        assert EntryOf(Entry(row.identifier, row.quantity, now), row);
      }
    }
  }

  lemma AcceptedHasIdentifier(row: Row, luck: Luck, max: nat)
    requires Accepts(row, luck, max)
    ensures row.identifier != "" && row.attempts < max
  {}

  /** A pass changes no identifier and no quantity. */
  lemma SameEntries(before: seq<Row>, after: seq<Row>, e: Entry)
    requires |before| == |after|
    requires forall i :: 0 <= i < |before| ==> after[i].identifier == before[i].identifier && after[i].quantity == before[i].quantity
    ensures HasRow(before, e) <==> HasRow(after, e)
  {}

  lemma RowsAfterAt(rows: seq<Row>, limit: int, luck: nat -> Fate, max: nat, i: nat)
    requires i < |rows|
    ensures RowsAfter(rows, limit, luck, max)[i] == if Listed(rows, Limit(limit), i) then RowAfter(rows[i], luck(i), max) else rows[i]
  {}

  lemma PassIsConsistent(b: Books, limit: int, luck: nat -> Fate, max: nat, now: int)
    requires Consistent(b)
    ensures Consistent(Pass(b, limit, luck, max, now))
  {
    hide LedgerAfter, MarkedAs, Listed;
    LedgerIsOfRows(b, limit, luck, max, now, |b.rows|);
    var after := RowsAfter(b.rows, limit, luck, max);
    forall i | 0 <= i < |after|
      ensures after[i].identifier == b.rows[i].identifier && after[i].quantity == b.rows[i].quantity
    {
      RowsAfterAt(b.rows, limit, luck, max, i);
    }
    forall k | 0 <= k < |Pass(b, limit, luck, max, now).ledger|
      ensures HasRow(after, Pass(b, limit, luck, max, now).ledger[k])
    {
      SameEntries(b.rows, after, Pass(b, limit, luck, max, now).ledger[k]);
    }
  }

  lemma QueueIsConsistent(b: Books, row: Row)
    requires Consistent(b) && row.quantity > 0
    requires row.identifier != "" ==> forall i :: 0 <= i < |b.rows| ==> b.rows[i].identifier != row.identifier
    ensures Consistent(b.(rows := b.rows + [row]))
  {
    var rows := b.rows + [row];
    forall k | 0 <= k < |b.ledger|
      ensures HasRow(rows, b.ledger[k])
    {
      var i :| 0 <= i < |b.rows| && EntryOf(b.ledger[k], b.rows[i]);
      assert EntryOf(b.ledger[k], rows[i]);
    }
  }

  lemma {:induction false} RunIsConsistent(steps: seq<Step>, max: nat)
    requires WellQueued(steps, max)
    ensures Consistent(After(steps, max))
  {
    hide Pass;
    if |steps| > 0 {
      PrefixWellQueued(steps, max);
      RunIsConsistent(steps[..|steps| - 1], max);
      var b := After(steps[..|steps| - 1], max);
      match steps[|steps| - 1]
      case Enqueue(license, feature, quantity, id) => QueueIsConsistent(b, Row(license, feature, quantity, id, 0, false, ""));
      case Sync(limit, luck, now) => PassIsConsistent(b, limit, luck, max, now);
    }
  }

  /** Whatever a pass gets accepted of the first `n` rows, the provider either did not know or still remembers. */
  ghost predicate PromptUpTo(b: Books, step: Step, max: nat, n: nat)
    requires step.Sync? && n <= |b.rows|
  {
    forall i :: 0 <= i < n && Listed(b.rows, Limit(step.limit), i) && Accepts(b.rows[i], step.luck(i), max) ==>
      (Known(b.ledger, b.rows[i].identifier) ==> Remembered(b.ledger, b.rows[i].identifier, step.now))
  }

  ghost predicate Prompt(b: Books, step: Step, max: nat) { step.Sync? ==> PromptUpTo(b, step, max, |b.rows|) }

  lemma PostKeepsDistinct(ledger: seq<Entry>, e: Entry)
    ensures Distinct(Post(ledger, e)) <==> Distinct(ledger) && (Known(ledger, e.identifier) ==> Remembered(ledger, e.identifier, e.at))
  {
    if !Remembered(ledger, e.identifier, e.at) {
      var longer := ledger + [e];
      assert forall k :: 0 <= k < |ledger| ==> longer[k] == ledger[k];
      if Known(ledger, e.identifier) {
        var k :| 0 <= k < |ledger| && ledger[k].identifier == e.identifier;
        assert longer[k].identifier == longer[|ledger|].identifier;
      }
    }
  }

  /** Posting under one identifier changes nothing for the others. */
  lemma PostIsLocal(ledger: seq<Entry>, e: Entry, identifier: string, now: int)
    requires identifier != e.identifier
    ensures Known(Post(ledger, e), identifier) <==> Known(ledger, identifier)
    ensures Remembered(Post(ledger, e), identifier, now) <==> Remembered(ledger, identifier, now)
  {
    var longer := ledger + [e];
    assert forall k :: 0 <= k < |ledger| ==> longer[k] == ledger[k];
  }

  /** During a pass, the rows still to come are known and remembered as at its start. */
  lemma {:induction false} LaterRowsAreAsBefore(b: Books, limit: int, luck: nat -> Fate, max: nat, now: int, n: nat, i: nat)
    requires Consistent(b) && n <= i < |b.rows| && b.rows[i].identifier != ""
    ensures Known(LedgerAfter(b, limit, luck, max, now, n), b.rows[i].identifier) <==> Known(b.ledger, b.rows[i].identifier)
    ensures Remembered(LedgerAfter(b, limit, luck, max, now, n), b.rows[i].identifier, now) <==> Remembered(b.ledger, b.rows[i].identifier, now)
    decreases n
  {
    hide Accepts, Listed, Known, Remembered;
    if n > 0 {
      LaterRowsAreAsBefore(b, limit, luck, max, now, n - 1, i);
      var row := b.rows[n - 1];
      assert row.identifier != b.rows[i].identifier;
      PostIsLocal(LedgerAfter(b, limit, luck, max, now, n - 1), Entry(row.identifier, row.quantity, now), b.rows[i].identifier, now);
    }
  }

  lemma {:induction false} PassStaysDistinctExactly(b: Books, step: Step, max: nat, n: nat)
    requires Consistent(b) && step.Sync? && n <= |b.rows|
    ensures Distinct(LedgerAfter(b, step.limit, step.luck, max, step.now, n)) <==> Distinct(b.ledger) && PromptUpTo(b, step, max, n)
    decreases n
  {
    hide Accepts, Listed, Known, Remembered, Post, Distinct;
    if n > 0 {
      PassStaysDistinctExactly(b, step, max, n - 1);
      var row := b.rows[n - 1];
      if Listed(b.rows, Limit(step.limit), n - 1) && Accepts(row, step.luck(n - 1), max) {
        AcceptedHasIdentifier(row, step.luck(n - 1), max);
        LaterRowsAreAsBefore(b, step.limit, step.luck, max, step.now, n - 1, n - 1);
        PostKeepsDistinct(LedgerAfter(b, step.limit, step.luck, max, step.now, n - 1), Entry(row.identifier, row.quantity, step.now));
      }
    }
  }

  lemma StepStaysDistinctExactly(b: Books, step: Step, max: nat)
    requires Consistent(b)
    ensures Distinct(Take(b, step, max).ledger) <==> Distinct(b.ledger) && Prompt(b, step, max)
  {
    hide Consistent, LedgerAfter, Distinct, PromptUpTo;
    if step.Sync? { PassStaysDistinctExactly(b, step, max, |b.rows|); }
  }

  lemma {:induction false} RunStaysDistinctExactly(steps: seq<Step>, max: nat)
    requires WellQueued(steps, max)
    ensures Distinct(After(steps, max).ledger) <==> forall n :: 0 <= n < |steps| ==> Prompt(After(steps[..n], max), steps[n], max)
  {
    hide Consistent, WellQueued, Take, Distinct, Prompt;
    if |steps| == 0 {
      EmptyIsDistinct();
    } else {
      var m := |steps| - 1;
      var shorter := steps[..m];
      assert forall n :: 0 <= n < m ==> shorter[n] == steps[n] && shorter[..n] == steps[..n];
      PrefixWellQueued(steps, max);
      RunStaysDistinctExactly(shorter, max);
      RunIsConsistent(shorter, max);
      StepStaysDistinctExactly(After(shorter, max), steps[m], max);
    }
  }

  lemma EmptyIsDistinct()
    ensures Distinct([])
  {}

  /**
   Over any run of queueing and sync passes, whatever fails in them: the bill is the sum of
   the quantities of the distinct accepted rows, if and only if no pass gets a row accepted
   again that the provider accepted once and no longer remembers; otherwise it is more.
   */
  lemma BillIsTheSumExactly(steps: seq<Step>, max: nat)
    requires WellQueued(steps, max)
    ensures
      var b := After(steps, max);
      && Billed(b.ledger) >= Accepted(b.rows, b.ledger)
      && (Billed(b.ledger) == Accepted(b.rows, b.ledger) <==>
            forall n :: 0 <= n < |steps| ==> Prompt(After(steps[..n], max), steps[n], max))
  {
    RunIsConsistent(steps, max);
    RunStaysDistinctExactly(steps, max);
    BillMeaning(After(steps, max).rows, After(steps, max).ledger);
  }

  // ---- Attempts ----

  predicate Dispatched(b: Books, step: Step, max: nat, i: nat) {
    step.Sync? && i < |b.rows| && Listed(b.rows, Limit(step.limit), i) && Dispatches(b.rows[i], step.luck(i), max)
  }

  /** How often a run dispatches row `i`. */
  function Dispatchings(steps: seq<Step>, max: nat, i: nat): nat {
    if |steps| == 0 then 0
    else
      var m := |steps| - 1;
      Dispatchings(steps[..m], max, i) + if Dispatched(After(steps[..m], max), steps[m], max, i) then 1 else 0
  }

  ghost predicate FailuresRecorded(steps: seq<Step>) {
    forall n, i: nat :: 0 <= n < |steps| && steps[n].Sync? ==> steps[n].luck(i).recorded
  }

  /** What the attempts of a row say: how often it was dispatched at most, and whether it can have been accepted. */
  ghost predicate AttemptsTell(steps: seq<Step>, max: nat, i: nat) {
    var b := After(steps, max);
    if i < |b.rows| then
      && b.rows[i].attempts <= max && (b.rows[i].synced ==> b.rows[i].attempts < max)
      && Dispatchings(steps, max, i) <= b.rows[i].attempts + (if b.rows[i].synced then 1 else 0)
      && (b.rows[i].identifier != "" && Known(b.ledger, b.rows[i].identifier) && !b.rows[i].synced ==> b.rows[i].attempts > 0)
    else Dispatchings(steps, max, i) == 0
  }

  /** A pass that gets no row of an identifier accepted does not make it known. */
  lemma {:induction false} KnownBy(b: Books, limit: int, luck: nat -> Fate, max: nat, now: int, n: nat, i: nat)
    requires Consistent(b) && n <= |b.rows| && i < |b.rows| && b.rows[i].identifier != ""
    ensures Known(LedgerAfter(b, limit, luck, max, now, n), b.rows[i].identifier)
        <==> Known(b.ledger, b.rows[i].identifier) || (i < n && Listed(b.rows, Limit(limit), i) && Accepts(b.rows[i], luck(i), max))
    decreases n
  {
    hide Accepts, Listed;
    if n > 0 {
      KnownBy(b, limit, luck, max, now, n - 1, i);
      var row := b.rows[n - 1];
      var ledger := LedgerAfter(b, limit, luck, max, now, n - 1);
      var e := Entry(row.identifier, row.quantity, now);
      if n - 1 == i {
        if Remembered(ledger, e.identifier, now) { assert Known(ledger, e.identifier); }
        KnownAfter(ledger, e, row.identifier);
      } else {
        assert row.identifier != b.rows[i].identifier;
        PostIsLocal(ledger, e, b.rows[i].identifier, now);
      }
    }
  }

  lemma SyncKeepsAttemptsTelling(steps: seq<Step>, max: nat, i: nat)
    requires |steps| > 0 && steps[|steps| - 1].Sync? && FailuresRecorded(steps)
    requires Consistent(After(steps[..|steps| - 1], max)) && AttemptsTell(steps[..|steps| - 1], max, i)
    ensures AttemptsTell(steps, max, i)
  {
    hide Consistent, EventName, Listed, LedgerAfter;
    var b := After(steps[..|steps| - 1], max);
    var step := steps[|steps| - 1];
    if i < |b.rows| {
      assert step.luck(i).recorded;
      if b.rows[i].identifier != "" { KnownBy(b, step.limit, step.luck, max, step.now, |b.rows|, i); }
      NotListedWhenSynced(b.rows, Limit(step.limit), i);
    }
  }

  lemma NotListedWhenSynced(rows: seq<Row>, limit: int, i: nat)
    requires i < |rows|
    ensures Listed(rows, limit, i) ==> !rows[i].synced
  {}

  lemma {:induction false} RunKeepsAttemptsTelling(steps: seq<Step>, max: nat, i: nat)
    requires WellQueued(steps, max) && FailuresRecorded(steps) && max > 0
    ensures AttemptsTell(steps, max, i)
  {
    hide Consistent;
    if |steps| > 0 {
      var m := |steps| - 1;
      PrefixWellQueued(steps, max);
      assert forall n :: 0 <= n < m ==> steps[..m][n] == steps[n];
      RunKeepsAttemptsTelling(steps[..m], max, i);
      RunIsConsistent(steps[..m], max);
      if steps[m].Sync? {
        SyncKeepsAttemptsTelling(steps, max, i);
      } else {
        var b := After(steps[..m], max);
        if i == |b.rows| && steps[m].id != "" { NewRowIsUnknown(b, steps[m].id); }
      }
    }
  }

  lemma NewRowIsUnknown(b: Books, id: string)
    requires Consistent(b) && forall i :: 0 <= i < |b.rows| ==> b.rows[i].identifier != id
    ensures !Known(b.ledger, id)
  {}

  /** While failures are recorded, no row is dispatched more often than the maximum. */
  lemma DispatchesAreBounded(steps: seq<Step>, max: nat, i: nat)
    requires WellQueued(steps, max) && FailuresRecorded(steps) && max > 0
    ensures Dispatchings(steps, max, i) <= max
  {
    RunKeepsAttemptsTelling(steps, max, i);
  }

  /** A row whose attempts are used up is never dispatched or changed again, nor is a synced one. */
  lemma SettledRowsRest(b: Books, step: Step, max: nat, i: nat)
    requires i < |b.rows| && (b.rows[i].attempts >= max || b.rows[i].synced)
    ensures !Dispatched(b, step, max, i) && Take(b, step, max).rows[i] == b.rows[i]
  {}

  /** Draining a row without a push bills nothing: it is billed if and only if it was accepted before. */
  lemma DrainedRowIsBilledExactly(b: Books, limit: int, luck: nat -> Fate, max: nat, now: int, i: nat)
    requires Consistent(b) && i < |b.rows| && b.rows[i].identifier != "" && Sentinel(b.rows[i], luck(i)).Some?
    ensures Known(Pass(b, limit, luck, max, now).ledger, b.rows[i].identifier) <==> Known(b.ledger, b.rows[i].identifier)
  {
    KnownBy(b, limit, luck, max, now, |b.rows|, i);
  }

  /** While failures are recorded, a row never attempted has not been accepted; drained, it stays unbilled. */
  lemma DrainedUntriedIsUnbilled(steps: seq<Step>, max: nat, i: nat)
    requires WellQueued(steps, max) && FailuresRecorded(steps) && max > 0
    requires i < |After(steps, max).rows| && After(steps, max).rows[i].identifier != ""
    requires After(steps, max).rows[i].attempts == 0 && !After(steps, max).rows[i].synced
    ensures !Known(After(steps, max).ledger, After(steps, max).rows[i].identifier)
  {
    RunKeepsAttemptsTelling(steps, max, i);
  }

  // ---- Where it fails ----

  lemma OneRowPass(b: Books, luck: nat -> Fate, max: nat, now: int)
    requires |b.rows| == 1 && !b.rows[0].synced
    ensures Pass(b, 1, luck, max, now).rows == [RowAfter(b.rows[0], luck(0), max)]
    ensures Pass(b, 1, luck, max, now).ledger
         == if Accepts(b.rows[0], luck(0), max) then Post(b.ledger, Entry(b.rows[0].identifier, b.rows[0].quantity, now)) else b.ledger
  {
    RowsAfterAt(b.rows, 1, luck, max, 0);
    assert LedgerAfter(b, 1, luck, max, now, 0) == b.ledger;
  }

  /** An accepted event answered with an error, and the meter unset before the retry: the row is drained, and billed. */
  lemma DrainedRowMayBeBilled(luck: nat -> Fate, later: nat -> Fate, max: nat)
    requires max > 1
    requires luck(0) == Luck(Some(Config("cus", [("f", "meter")])), true, Err("timeout"), true, true)
    requires later(0) == Luck(Some(Config("cus", [])), false, Err(""), true, true)
    ensures
      var b := After([Enqueue("l", "f", 5, "id"), Sync(1, luck, 0), Sync(1, later, 60)], max);
      b == Books([Row("l", "f", 5, "id", 1, true, "no_event_name")], [Entry("id", 5, 0)])
  {
    var steps := [Enqueue("l", "f", 5, "id"), Sync(1, luck, 0), Sync(1, later, 60)];
    assert steps[..2] == [Enqueue("l", "f", 5, "id"), Sync(1, luck, 0)];
    FirstAttempt(luck, max);
    OneRowPass(After(steps[..2], max), later, max, 60);
    assert EventName([], "f") == "";
  }

  /** An accepted event answered with an error, and retried only after the provider has forgotten it: the row is billed twice. */
  lemma LateRetryIsBilledTwice(luck: nat -> Fate, later: nat -> Fate, max: nat)
    requires max > 1
    requires luck(0) == Luck(Some(Config("cus", [("f", "meter")])), true, Err("timeout"), true, true)
    requires later(0) == Luck(Some(Config("cus", [("f", "meter")])), true, Ok("id"), true, true)
    ensures
      var steps := [Enqueue("l", "f", 5, "id"), Sync(1, luck, 0), Sync(1, later, DEDUP_WINDOW)];
      var b := After(steps, max);
      && WellQueued(steps, max)
      && b == Books([Row("l", "f", 5, "id", 1, true, "id")], [Entry("id", 5, 0), Entry("id", 5, DEDUP_WINDOW)])
      && Billed(b.ledger) == 10 && Accepted(b.rows, b.ledger) == 5
  {
    var steps := [Enqueue("l", "f", 5, "id"), Sync(1, luck, 0), Sync(1, later, DEDUP_WINDOW)];
    var b2 := Books([Row("l", "f", 5, "id", 1, false, "")], [Entry("id", 5, 0)]);
    FirstAttempt(luck, max);
    assert steps[..2] == [Enqueue("l", "f", 5, "id"), Sync(1, luck, 0)] && steps[..0] == [];
    OneRowPass(b2, later, max, DEDUP_WINDOW);
    assert EventName([("f", "meter")], "f") == "meter";
    var row := b2.rows[0];
    assert RowAfter(row, later(0), max) == row.(synced := true, externalId := "id") && Accepts(row, later(0), max);
    var b3 := After(steps, max);
    assert b3 == Pass(b2, 1, later, max, DEDUP_WINDOW);
    assert b3.ledger == [Entry("id", 5, 0), Entry("id", 5, DEDUP_WINDOW)];
    assert b3.ledger[..1] == [Entry("id", 5, 0)] && b3.ledger[..1][..0] == [];
    assert Billed(b3.ledger[..1]) == 5;
    assert b3.ledger[0].identifier == "id";
    assert b3.rows[..0] == [] && Accepted(b3.rows[..0], b3.ledger) == 0;
  }

  /** One row queued, pushed, accepted and answered with an error. */
  lemma FirstAttempt(luck: nat -> Fate, max: nat)
    requires max > 1
    requires luck(0) == Luck(Some(Config("cus", [("f", "meter")])), true, Err("timeout"), true, true)
    ensures After([Enqueue("l", "f", 5, "id"), Sync(1, luck, 0)], max)
         == Books([Row("l", "f", 5, "id", 1, false, "")], [Entry("id", 5, 0)])
  {
    var steps := [Enqueue("l", "f", 5, "id"), Sync(1, luck, 0)];
    assert steps[..1] == [Enqueue("l", "f", 5, "id")] && steps[..1][..0] == [];
    var b1 := Books([Row("l", "f", 5, "id", 0, false, "")], []);
    assert After(steps[..1], max) == b1;
    OneRowPass(b1, luck, max, 0);
    assert EventName([("f", "meter")], "f") == "meter";
  }

  /** Every row that a pass would list has used up its attempts. */
  predicate Clogged(rows: seq<Row>, limit: int, max: nat) {
    forall i :: 0 <= i < |rows| && Listed(rows, Limit(limit), i) ==> rows[i].attempts >= max
  }

  /**
   A pass can change something if and only if it lists a row with attempts left: once the
   oldest unsynced rows, as many as the limit, have used theirs up, no later row is ever pushed.
   */
  lemma CloggedQueueRestsExactly(b: Books, limit: int, max: nat, now: int)
    ensures Clogged(b.rows, limit, max) <==> forall luck: nat -> Fate :: Pass(b, limit, luck, max, now) == b
  {
    hide Listed, MarkedAs;
    if Clogged(b.rows, limit, max) {
      forall luck: nat -> Fate
        ensures Pass(b, limit, luck, max, now) == b
      {
        forall i | 0 <= i < |b.rows|
          ensures RowsAfter(b.rows, limit, luck, max)[i] == b.rows[i]
        {
          RowsAfterAt(b.rows, limit, luck, max, i);
        }
        assert RowsAfter(b.rows, limit, luck, max) == b.rows;
        CloggedLedger(b, limit, luck, max, now, |b.rows|);
      }
    } else {
      var i :| 0 <= i < |b.rows| && Listed(b.rows, Limit(limit), i) && b.rows[i].attempts < max;
      var luck: nat -> Fate := k => Luck(None, false, Err(""), false, true);
      assert MarkedAs(b.rows[i], luck(i), max).None? by { UnmarkedFate(b.rows[i], luck(i), max); }
      assert Pass(b, limit, luck, max, now).rows[i].attempts == b.rows[i].attempts + 1;
    }
  }

  lemma UnmarkedFate(row: Row, luck: Luck, max: nat)
    requires !luck.marked
    ensures MarkedAs(row, luck, max).None?
  {}

  lemma {:induction false} CloggedLedger(b: Books, limit: int, luck: nat -> Fate, max: nat, now: int, n: nat)
    requires Clogged(b.rows, limit, max) && n <= |b.rows|
    ensures LedgerAfter(b, limit, luck, max, now, n) == b.ledger
  {
    hide Listed;
    if n > 0 { CloggedLedger(b, limit, luck, max, now, n - 1); }
  }

  /** The run of one row whose licence is never found, synced `n` times. */
  function Futile(luck: nat -> Fate, n: nat): seq<Step> {
    if n == 0 then [Enqueue("l", "f", 5, "a")] else Futile(luck, n - 1) + [Sync(1, luck, 0)]
  }

  lemma {:induction false} FutileAttempts(luck: nat -> Fate, n: nat, max: nat)
    requires luck(0) == Luck(None, false, Err(""), false, true) && n <= max
    ensures After(Futile(luck, n), max) == Books([Row("l", "f", 5, "a", n, false, "")], [])
  {
    var steps := Futile(luck, n);
    if n == 0 {
      assert steps[..0] == [];
    } else {
      FutileAttempts(luck, n - 1, max);
      assert steps[..|steps| - 1] == Futile(luck, n - 1);
      OneRowPass(After(Futile(luck, n - 1), max), luck, max, 0);
    }
  }

  /** For every maximum: a run after which a fresh row waits behind one that has used up its attempts, and is pushed by no pass. */
  lemma CloggedQueueIsReached(luck: nat -> Fate, max: nat, later: nat -> Fate, now: int)
    requires luck(0) == Luck(None, false, Err(""), false, true) && max > 0
    ensures
      var b := After(Futile(luck, max) + [Enqueue("l", "f", 7, "b")], max);
      && b == Books([Row("l", "f", 5, "a", max, false, ""), Row("l", "f", 7, "b", 0, false, "")], [])
      && Pass(b, 1, later, max, now) == b
  {
    var steps := Futile(luck, max) + [Enqueue("l", "f", 7, "b")];
    assert steps[..|steps| - 1] == Futile(luck, max);
    FutileAttempts(luck, max, max);
    var b := After(steps, max);
    assert b.rows == [Row("l", "f", 5, "a", max, false, ""), Row("l", "f", 7, "b", 0, false, "")];
    assert UnsyncedBefore(b.rows, 0) == 0 && UnsyncedBefore(b.rows, 1) == 1;
    assert Clogged(b.rows, 1, max);
    CloggedQueueRestsExactly(b, 1, max, now);
  }
}
