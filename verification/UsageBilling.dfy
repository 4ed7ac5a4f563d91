/** From a recorded use to the bill: one licence and metered feature within one period. */
module UsageBilling {
  import opened Decimal
  import U = Usage
  import M = Metered

  /** A use, with the identifier its billing row would get and whether that row can be written; or a sync pass. */
  datatype Event =
    | Use(quantity: I64, id: string, queued: bool)
    | Sync(limit: int, luck: nat -> M.Fate, now: int)

  /** The terms of the quota, and the licence and feature it is for. */
  datatype Terms = Terms(license: string, feature: string, limit: I64, threshold: real, max: nat)

  function Uses(events: seq<Event>): seq<I64> {
    if |events| == 0 then []
    else
      Uses(events[..|events| - 1]) + if events[|events| - 1].Use? then [events[|events| - 1].quantity] else []
  }

  function Counted(terms: Terms, events: seq<Event>): U.Tally { U.UseAll(Uses(events), terms.limit, terms.threshold) }

  /** The use is accepted when it comes after `before`. */
  predicate IsAccepted(terms: Terms, before: seq<Event>, e: Event)
    requires e.Use?
  {
    U.Increment(Counted(terms, before).used, U.Quantity(e.quantity), terms.limit).Accepted?
  }

  /** What the billing queue sees: an accepted use is queued if its row can be written. */
  function Steps(terms: Terms, events: seq<Event>): seq<M.Step> {
    if |events| == 0 then []
    else
      var before, e := events[..|events| - 1], events[|events| - 1];
      Steps(terms, before) +
      match e
      case Use(quantity, id, queued) =>
        if IsAccepted(terms, before, e) && queued then [M.Enqueue(terms.license, terms.feature, U.Quantity(quantity), id)] else []
      case Sync(limit, luck, now) => [M.Sync(limit, luck, now)]
  }

  function BooksAfter(terms: Terms, events: seq<Event>): M.Books { M.After(Steps(terms, events), terms.max) }

  /** The quantities of accepted uses whose billing row could not be written. */
  function Lost(terms: Terms, events: seq<Event>): int {
    if |events| == 0 then 0
    else
      var before, e := events[..|events| - 1], events[|events| - 1];
      Lost(terms, before) + if e.Use? && IsAccepted(terms, before, e) && !e.queued then U.Quantity(e.quantity) as int else 0
  }

  function Total(rows: seq<M.Row>): int {
    if |rows| == 0 then 0 else Total(rows[..|rows| - 1]) + rows[|rows| - 1].quantity
  }

  /** The quantities of the rows that the provider has not accepted. */
  function Pending(rows: seq<M.Row>, ledger: seq<M.Entry>): int {
    if |rows| == 0 then 0
    else
      var row := rows[|rows| - 1];
      Pending(rows[..|rows| - 1], ledger) + if row.identifier != "" && M.Known(ledger, row.identifier) then 0 else row.quantity
  }

  lemma {:induction false} AcceptedOrPending(rows: seq<M.Row>, ledger: seq<M.Entry>)
    ensures M.Accepted(rows, ledger) + Pending(rows, ledger) == Total(rows)
  {
    hide M.Known;
    if |rows| > 0 { AcceptedOrPending(rows[..|rows| - 1], ledger); }
  }

  lemma {:induction false} SameTotal(a: seq<M.Row>, b: seq<M.Row>)
    requires |a| == |b| && forall i :: 0 <= i < |a| ==> a[i].quantity == b[i].quantity
    ensures Total(a) == Total(b)
  {
    if |a| > 0 { SameTotal(a[..|a| - 1], b[..|b| - 1]); }
  }

  lemma PassKeepsTotal(b: M.Books, limit: int, luck: nat -> M.Fate, max: nat, now: int)
    ensures Total(M.Pass(b, limit, luck, max, now).rows) == Total(b.rows)
  {
    hide M.LedgerAfter, M.Listed, M.MarkedAs;
    forall i | 0 <= i < |b.rows|
      ensures M.RowsAfter(b.rows, limit, luck, max)[i].quantity == b.rows[i].quantity
    {
      M.RowsAfterAt(b.rows, limit, luck, max, i);
    }
    SameTotal(M.Pass(b, limit, luck, max, now).rows, b.rows);
  }

  lemma AfterOneMore(steps: seq<M.Step>, step: M.Step, max: nat)
    ensures M.After(steps + [step], max) == M.Take(M.After(steps, max), step, max)
  {
    hide M.Take;
    assert (steps + [step])[..|steps|] == steps;
  }

  lemma UseOneMore(terms: Terms, before: seq<Event>, e: Event)
    requires e.Use?
    ensures Counted(terms, before + [e]).used
         == Counted(terms, before).used + if IsAccepted(terms, before, e) then U.Quantity(e.quantity) as int else 0
  {
    hide U.Warns;
    assert (before + [e])[..|before|] == before;
    assert (Uses(before) + [e.quantity])[..|Uses(before)|] == Uses(before);
  }

  /** Every accepted quantity is in the queue, or its row could not be written. */
  lemma {:induction false} UsedIsQueuedOrLost(terms: Terms, events: seq<Event>)
    ensures Counted(terms, events).used == Total(BooksAfter(terms, events).rows) + Lost(terms, events)
  {
    hide M.Pass, IsAccepted, Counted;
    if |events| == 0 {
      NothingUsed(terms);
    } else {
      var before, e := events[..|events| - 1], events[|events| - 1];
      UsedIsQueuedOrLost(terms, before);
      assert events == before + [e];
      var b := BooksAfter(terms, before);
      match e
      case Use(quantity, id, queued) =>
        UseOneMore(terms, before, e);
        if IsAccepted(terms, before, e) && queued {
          var row := M.Row(terms.license, terms.feature, U.Quantity(quantity), id, 0, false, "");
          AfterOneMore(Steps(terms, before), M.Enqueue(terms.license, terms.feature, U.Quantity(quantity), id), terms.max);
          assert (b.rows + [row])[..|b.rows|] == b.rows;
        } else {
          assert Steps(terms, events) == Steps(terms, before);
        }
      case Sync(limit, luck, now) =>
        AfterOneMore(Steps(terms, before), M.Sync(limit, luck, now), terms.max);
        PassKeepsTotal(b, limit, luck, terms.max, now);
        SyncUsesNothing(terms, before, e);
    }
  }

  lemma NothingUsed(terms: Terms)
    ensures Counted(terms, []).used == 0
  {}

  lemma SyncUsesNothing(terms: Terms, before: seq<Event>, e: Event)
    requires e.Sync?
    ensures Counted(terms, before + [e]) == Counted(terms, before)
  {
    assert (before + [e])[..|before|] == before;
    assert Uses(before + [e]) == Uses(before);
  }

  /**
   Conservation from use to bill: what is used is what is billed, what is still to be
   accepted, and what was lost on the way to the queue, if and only if no pass gets a row
   accepted again that the provider has forgotten; otherwise more is billed.
   */
  lemma UsedIsBilledPendingOrLost(terms: Terms, events: seq<Event>)
    requires M.WellQueued(Steps(terms, events), terms.max)
    ensures
      var steps, b := Steps(terms, events), BooksAfter(terms, events);
      var sum := M.Billed(b.ledger) + Pending(b.rows, b.ledger) + Lost(terms, events);
      && sum >= Counted(terms, events).used
      && (sum == Counted(terms, events).used <==>
            forall n :: 0 <= n < |steps| ==> M.Prompt(M.After(steps[..n], terms.max), steps[n], terms.max))
  {
    hide Counted, Lost, Pending, Total, M.Prompt, M.WellQueued, M.Billed, M.Accepted;
    UsedIsQueuedOrLost(terms, events);
    var b := BooksAfter(terms, events);
    AcceptedOrPending(b.rows, b.ledger);
    M.BillIsTheSumExactly(Steps(terms, events), terms.max);
  }

  /** With every row written and accepted, and promptly retried, the bill is the accepted usage. */
  lemma SettledBillIsTheUsage(terms: Terms, events: seq<Event>)
    requires M.WellQueued(Steps(terms, events), terms.max)
    requires
      var steps := Steps(terms, events);
      forall n :: 0 <= n < |steps| ==> M.Prompt(M.After(steps[..n], terms.max), steps[n], terms.max)
    ensures
      var b := BooksAfter(terms, events);
      && M.Billed(b.ledger) <= Counted(terms, events).used
      && (M.Billed(b.ledger) == Counted(terms, events).used
          <==> Lost(terms, events) == 0 && forall i :: 0 <= i < |b.rows| ==> b.rows[i].identifier != "" && M.Known(b.ledger, b.rows[i].identifier))
  {
    hide M.Prompt, M.WellQueued, M.Known, Counted, M.Billed;
    UsedIsBilledPendingOrLost(terms, events);
    LostIsNoGain(terms, events);
    var b := BooksAfter(terms, events);
    M.RunIsConsistent(Steps(terms, events), terms.max);
    NothingPendingExactly(b.rows, b.ledger);
  }

  lemma {:induction false} LostIsNoGain(terms: Terms, events: seq<Event>)
    ensures Lost(terms, events) >= 0
  {
    hide IsAccepted;
    if |events| > 0 { LostIsNoGain(terms, events[..|events| - 1]); }
  }

  lemma {:induction false} NothingPendingExactly(rows: seq<M.Row>, ledger: seq<M.Entry>)
    requires forall i :: 0 <= i < |rows| ==> rows[i].quantity > 0
    ensures Pending(rows, ledger) >= 0
    ensures Pending(rows, ledger) == 0 <==> forall i :: 0 <= i < |rows| ==> rows[i].identifier != "" && M.Known(ledger, rows[i].identifier)
  {
    hide M.Known;
    if |rows| > 0 {
      var n := |rows| - 1;
      NothingPendingExactly(rows[..n], ledger);
      assert forall i :: 0 <= i < n ==> rows[..n][i] == rows[i];
    }
  }
}
