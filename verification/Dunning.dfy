/**
 Past-due licences: the Stripe events and administration that move a licence, the hourly
 expiry checks, and the ladder of dunning mails. Instants are integers in nanoseconds.
 */
module Dunning {
  import opened Wrappers

  const SECOND := 1_000_000_000
  const DAY := 86_400_000_000_000

  datatype Status = Active | Trialing | PastDue | Canceled | Suspended | Revoked | Expired

  datatype License = License(
    status: Status, validUntil: Option<int>, pastDueAt: Option<int>, canceledAt: Option<int>, suspendedAt: Option<int>,
    graceDays: int, updatedAt: int)

  /** What a notification is recorded under: the steps of the ladder are known by their days, episodes by their second. */
  datatype Tag = Ladder(days: int, episode: int) | Recovered(episode: int) | RecoveredOnce

  datatype Event =
    | InvoicePaid(periodEnd: int)
    | Updated(status: string, periodEnd: int)
    | Deleted
    | PaymentFailed
    | Paused
    | Resumed
    | Refunded(full: bool)
    | Suspend
    | Reinstate
    | Revoke
    | CancelNow
    | MoveValidity(until: Option<int>)

  /** A licence, the notifications on record for it, and the mails sent to its owner, oldest first. */
  datatype Account = Account(lic: License, recorded: set<Tag>, mails: seq<Tag>)

  function Unix(t: int): int { t / SECOND }

  /** Whole days, rounded toward zero. */
  function DaysPastDue(anchor: int, now: int): int {
    if anchor <= now then (now - anchor) / DAY else -((anchor - now) / DAY)
  }

  /** Whether an event writes the licence at all. */
  predicate Writes(l: License, e: Event) {
    match e
    case PaymentFailed => l.status.Active?
    case Refunded(full) => full
    case Reinstate => l.status.Suspended? || l.status.Expired? || l.status.Canceled?
    case _ => true
  }

  function OnEvent(l: License, e: Event, now: int): License {
    if Writes(l, e) then Changed(l, e, now).(updatedAt := now) else l
  }

  function Changed(l: License, e: Event, now: int): License {
    match e
    case InvoicePaid(periodEnd) => l.(status := Active, validUntil := Some(periodEnd), pastDueAt := None)
    case Updated(status, periodEnd) =>
      (if status == "active" then l.(status := Active, pastDueAt := None)
       else if status == "past_due" then
         l.(status := PastDue, pastDueAt := if l.pastDueAt.None? then Some(now) else l.pastDueAt)
       else if status == "trialing" then l.(status := Trialing)
       else if status == "canceled" || status == "unpaid" then
         l.(status := Canceled, canceledAt := Some(now), pastDueAt := None)
       else l).(validUntil := Some(periodEnd))
    case Deleted => l.(status := Canceled, canceledAt := Some(now), pastDueAt := None)
    case PaymentFailed => l.(status := PastDue, pastDueAt := Some(now))
    case Paused => l.(status := Suspended, suspendedAt := Some(now))
    case Resumed => l.(status := Active, suspendedAt := None)
    case Refunded(_) => l.(status := Revoked)
    case Suspend => l.(status := Suspended, suspendedAt := Some(now))
    case Reinstate => l.(status := Active, suspendedAt := None, canceledAt := None)
    case Revoke => l.(status := Revoked)
    case CancelNow => l.(status := Canceled, canceledAt := Some(now), validUntil := Some(now))
    case MoveValidity(until) => l.(validUntil := until)
  }

  /** A mail goes out, and onto the record, unless its tag is on record. */
  function Notify(a: Account, tag: Tag): Account {
    if tag in a.recorded then a else a.(recorded := a.recorded + {tag}, mails := a.mails + [tag])
  }

  function RecoveryTag(l: License): Tag {
    if l.pastDueAt.Some? && Unix(l.pastDueAt.value) > 0 then Recovered(Unix(l.pastDueAt.value)) else RecoveredOnce
  }

  /** The owner is told when an event turns a past-due licence active. */
  function HandleEvent(a: Account, e: Event, now: int): Account {
    var after := a.(lic := OnEvent(a.lic, e, now));
    if (e.InvoicePaid? || e.Updated?) && a.lic.status.PastDue? && after.lic.status.Active?
    then Notify(after, RecoveryTag(a.lic)) else after
  }

  // ---- The hourly checks ----

  function GraceExpired(l: License, now: int): License {
    if (l.status.Active? || l.status.PastDue?) && l.validUntil.Some? && l.validUntil.value < now
       && now > l.validUntil.value + l.graceDays * DAY
    then l.(status := Expired, updatedAt := now) else l
  }

  function TrialExpired(l: License, now: int): License {
    if l.status.Trialing? && l.validUntil.Some? && l.validUntil.value < now then l.(status := Expired, updatedAt := now) else l
  }

  /** A licence without an anchor is judged by its last change. */
  function StaleExpired(l: License, now: int): License {
    if l.status.PastDue? && (if l.pastDueAt.Some? then l.pastDueAt.value else l.updatedAt) < now - 30 * DAY
    then l.(status := Expired, updatedAt := now) else l
  }

  /** The highest step of the ladder that is reached. */
  function Reached(days: int): Option<int> {
    if days >= 14 then Some(14) else if days >= 7 then Some(7) else if days >= 1 then Some(1) else None
  }

  function Remind(a: Account, now: int): Account {
    if !a.lic.status.PastDue? || a.lic.pastDueAt.None? then a
    else
      var step := Reached(DaysPastDue(a.lic.pastDueAt.value, now));
      if step.None? then a else Notify(a, Ladder(step.value, Unix(a.lic.pastDueAt.value)))
  }

  function Check(a: Account, now: int): Account {
    Remind(a.(lic := StaleExpired(TrialExpired(GraceExpired(a.lic, now), now), now)), now)
  }

  // ---- The handlers and the checker ----

  const LADDER: seq<int> := [14, 7, 1]

  class Billing {
    var accounts: map<string, Account>

    constructor (accounts: map<string, Account>)
      ensures this.accounts == accounts
    {
      this.accounts := accounts;
    }

    /** The account has become `a`, and no other account has changed. */
    twostate predicate Becomes(id: string, a: Account)
      reads this
    {
      accounts == old(accounts)[id := a]
    }

    /** A written licence carries the instant of the change. */
    method SetLicense(id: string, l: License, now: int)
      requires id in accounts
      modifies this
      ensures Becomes(id, old(accounts)[id].(lic := l.(updatedAt := now)))
    {
      accounts := accounts[id := accounts[id].(lic := l.(updatedAt := now))];
    }

    method NotifyPaymentRecovered(id: string, episode: int)
      requires id in accounts
      modifies this
      ensures Becomes(id, Notify(old(accounts)[id], if episode > 0 then Recovered(episode) else RecoveredOnce))
    {
      var tag := RecoveredOnce;
      if episode > 0 { tag := Recovered(episode); }
      var a := accounts[id];
      if tag in a.recorded { return; }
      a := a.(mails := a.mails + [tag]);
      a := a.(recorded := a.recorded + {tag});
      accounts := accounts[id := a];
    }

    method OnInvoicePaid(id: string, periodEnd: int, now: int)
      modifies this
      ensures id !in old(accounts) ==> accounts == old(accounts)
      ensures id in old(accounts) ==> Becomes(id, HandleEvent(old(accounts)[id], InvoicePaid(periodEnd), now))
    {
      if id !in accounts { return; }
      var lic := accounts[id].lic;
      var wasPastDue := lic.status.PastDue?;
      var episode := 0;
      if lic.pastDueAt.Some? { episode := Unix(lic.pastDueAt.value); }
      lic := lic.(validUntil := Some(periodEnd));
      lic := lic.(status := Active);
      lic := lic.(pastDueAt := None);
      SetLicense(id, lic, now);
      if wasPastDue { NotifyPaymentRecovered(id, episode); }
    }

    method OnSubscriptionUpdated(id: string, status: string, periodEnd: int, now: int)
      modifies this
      ensures id !in old(accounts) ==> accounts == old(accounts)
      ensures id in old(accounts) ==> Becomes(id, HandleEvent(old(accounts)[id], Updated(status, periodEnd), now))
    {
      if id !in accounts { return; }
      var lic := accounts[id].lic;
      var wasPastDue := lic.status.PastDue?;
      var episode := 0;
      if lic.pastDueAt.Some? { episode := Unix(lic.pastDueAt.value); }
      if status == "active" {
        lic := lic.(status := Active);
        lic := lic.(pastDueAt := None);
      } else if status == "past_due" {
        lic := lic.(status := PastDue);
        if lic.pastDueAt.None? { lic := lic.(pastDueAt := Some(now)); }
      } else if status == "trialing" {
        lic := lic.(status := Trialing);
      } else if status == "canceled" || status == "unpaid" {
        lic := lic.(status := Canceled);
        lic := lic.(canceledAt := Some(now));
        lic := lic.(pastDueAt := None);
      }
      lic := lic.(validUntil := Some(periodEnd));
      SetLicense(id, lic, now);
      if wasPastDue && lic.status.Active? { NotifyPaymentRecovered(id, episode); }
    }

    method OnSubscriptionDeleted(id: string, now: int)
      modifies this
      ensures id !in old(accounts) ==> accounts == old(accounts)
      ensures id in old(accounts) ==> Becomes(id, HandleEvent(old(accounts)[id], Deleted, now))
    {
      if id !in accounts { return; }
      SetLicense(id, accounts[id].lic.(status := Canceled, canceledAt := Some(now), pastDueAt := None), now);
    }

    method OnPaymentFailed(id: string, now: int)
      modifies this
      ensures id !in old(accounts) ==> accounts == old(accounts)
      ensures id in old(accounts) ==> Becomes(id, HandleEvent(old(accounts)[id], PaymentFailed, now))
    {
      if id !in accounts { return; }
      if accounts[id].lic.status.Active? {
        SetLicense(id, accounts[id].lic.(status := PastDue, pastDueAt := Some(now)), now);
      }
    }

    method OnSubscriptionPaused(id: string, now: int)
      modifies this
      ensures id !in old(accounts) ==> accounts == old(accounts)
      ensures id in old(accounts) ==> Becomes(id, HandleEvent(old(accounts)[id], Paused, now))
    {
      if id !in accounts { return; }
      SetLicense(id, accounts[id].lic.(status := Suspended, suspendedAt := Some(now)), now);
    }

    method OnSubscriptionResumed(id: string, now: int)
      modifies this
      ensures id !in old(accounts) ==> accounts == old(accounts)
      ensures id in old(accounts) ==> Becomes(id, HandleEvent(old(accounts)[id], Resumed, now))
    {
      if id !in accounts { return; }
      SetLicense(id, accounts[id].lic.(status := Active, suspendedAt := None), now);
    }

    method OnChargeRefunded(id: string, refunded: bool, now: int)
      modifies this
      ensures id !in old(accounts) ==> accounts == old(accounts)
      ensures id in old(accounts) ==> Becomes(id, HandleEvent(old(accounts)[id], Refunded(refunded), now))
    {
      if id !in accounts { return; }
      if refunded { SetLicense(id, accounts[id].lic.(status := Revoked), now); }
    }

    /** Every licence whose grace has ended is expired; nothing else changes. */
    method ExpireGracePeriodLicenses(now: int)
      modifies this
      ensures accounts == map id | id in old(accounts) :: old(accounts)[id].(lic := GraceExpired(old(accounts)[id].lic, now))
    {
      var todo := accounts.Keys;
      while todo != {}
        invariant todo <= accounts.Keys && accounts.Keys == old(accounts).Keys
        invariant forall id :: id in accounts ==>
          accounts[id] == (if id in todo then old(accounts)[id] else old(accounts)[id].(lic := GraceExpired(old(accounts)[id].lic, now)))
        decreases |todo|
      {
        var id :| id in todo;
        var lic := accounts[id].lic;
        if (lic.status.Active? || lic.status.PastDue?) && lic.validUntil.Some? && lic.validUntil.value < now {
          var graceEnd := lic.validUntil.value + lic.graceDays * DAY;
          if now > graceEnd { SetLicense(id, lic.(status := Expired), now); }
        }
        todo := todo - {id};
      }
    }

    method ExpireTrials(now: int)
      modifies this
      ensures accounts == map id | id in old(accounts) :: old(accounts)[id].(lic := TrialExpired(old(accounts)[id].lic, now))
    {
      var todo := accounts.Keys;
      while todo != {}
        invariant todo <= accounts.Keys && accounts.Keys == old(accounts).Keys
        invariant forall id :: id in accounts ==>
          accounts[id] == (if id in todo then old(accounts)[id] else old(accounts)[id].(lic := TrialExpired(old(accounts)[id].lic, now)))
        decreases |todo|
      {
        var id :| id in todo;
        var lic := accounts[id].lic;
        if lic.status.Trialing? && lic.validUntil.Some? && lic.validUntil.value < now {
          SetLicense(id, lic.(status := Expired), now);
        }
        todo := todo - {id};
      }
    }

    method MarkPastDueAsExpired(now: int)
      modifies this
      ensures accounts == map id | id in old(accounts) :: old(accounts)[id].(lic := StaleExpired(old(accounts)[id].lic, now))
    {
      var threshold := now - 30 * DAY;
      var todo := accounts.Keys;
      while todo != {}
        invariant todo <= accounts.Keys && accounts.Keys == old(accounts).Keys
        invariant forall id :: id in accounts ==>
          accounts[id] == (if id in todo then old(accounts)[id] else old(accounts)[id].(lic := StaleExpired(old(accounts)[id].lic, now)))
        decreases |todo|
      {
        var id :| id in todo;
        var lic := accounts[id].lic;
        var since := if lic.pastDueAt.Some? then lic.pastDueAt.value else lic.updatedAt;
        if lic.status.PastDue? && since < threshold {
          SetLicense(id, lic.(status := Expired), now);
        }
        todo := todo - {id};
      }
    }

    /** One licence walks the ladder, highest step first; the first step reached decides. */
    method ClimbLadder(id: string, now: int)
      requires id in accounts && accounts[id].lic.status.PastDue? && accounts[id].lic.pastDueAt.Some?
      modifies this
      ensures Becomes(id, Remind(old(accounts)[id], now))
    {
      var a := accounts[id];
      assert accounts == accounts[id := a];
      var daysPastDue := DaysPastDue(a.lic.pastDueAt.value, now);
      var episode := Unix(a.lic.pastDueAt.value);
      for i := 0 to |LADDER|
        invariant accounts == old(accounts)
        invariant forall j :: 0 <= j < i ==> daysPastDue < LADDER[j]
      {
        if daysPastDue >= LADDER[i] {
          assert i > 0 ==> daysPastDue < LADDER[0];
          assert i > 1 ==> daysPastDue < LADDER[1];
          assert Reached(daysPastDue) == Some(LADDER[i]);
          var tag := Ladder(LADDER[i], episode);
          if tag !in a.recorded {
            a := a.(mails := a.mails + [tag]);
            a := a.(recorded := a.recorded + {tag});
            accounts := accounts[id := a];
          }
          return;
        }
      }
      assert daysPastDue < LADDER[0] && daysPastDue < LADDER[1] && daysPastDue < LADDER[2];
    }

    method SendPaymentFailureReminders(now: int)
      modifies this
      ensures accounts == map id | id in old(accounts) :: Remind(old(accounts)[id], now)
    {
      var todo := accounts.Keys;
      while todo != {}
        invariant todo <= accounts.Keys && accounts.Keys == old(accounts).Keys
        invariant forall id :: id in accounts ==>
          accounts[id] == (if id in todo then old(accounts)[id] else Remind(old(accounts)[id], now))
        decreases |todo|
      {
        var id :| id in todo;
        var lic := accounts[id].lic;
        if lic.status.PastDue? && lic.pastDueAt.Some? {
          ClimbLadder(id, now);
        }
        todo := todo - {id};
      }
    }

    method RunAll(now: int)
      modifies this
      ensures accounts == map id | id in old(accounts) :: Check(old(accounts)[id], now)
    {
      ExpireGracePeriodLicenses(now);
      ExpireTrials(now);
      MarkPastDueAsExpired(now);
      SendPaymentFailureReminders(now);
    }
  }

  // ---- Runs of one licence ----

  datatype Step = Event(e: Event, at: int) | Pass(at: int)

  function Take(a: Account, step: Step): Account {
    match step
    case Event(e, at) => HandleEvent(a, e, at)
    case Pass(at) => Check(a, at)
  }

  function After(a: Account, steps: seq<Step>): Account {
    if |steps| == 0 then a else Take(After(a, steps[..|steps| - 1]), steps[|steps| - 1])
  }

  predicate Ordered(steps: seq<Step>) { forall i, j :: 0 <= i < j < |steps| ==> steps[i].at <= steps[j].at }

  /** A licence that has never been past due. */
  predicate Untroubled(a: Account) {
    !a.lic.status.PastDue? && a.lic.pastDueAt.None? && a.recorded == {} && a.mails == []
  }

  predicate Distinct(mails: seq<Tag>) { forall i, j :: 0 <= i < j < |mails| ==> mails[i] != mails[j] }

  /** Within one episode the ladder is climbed. */
  predicate Climbing(mails: seq<Tag>) {
    forall i, j :: 0 <= i < j < |mails| && mails[i].Ladder? && mails[j].Ladder? && mails[i].episode == mails[j].episode ==>
      mails[i].days < mails[j].days
  }

  /** A past-due licence has an anchor. */
  predicate Anchored(l: License, now: int) {
    (l.status.PastDue? ==> l.pastDueAt.Some?) && (l.pastDueAt.Some? ==> l.pastDueAt.value <= now)
  }

  predicate Rung(days: int) { days == 1 || days == 7 || days == 14 }

  /** Mails of the ladder were due when they were sent. */
  predicate MailsWereDue(a: Account, now: int) {
    forall m :: m in a.mails && m.Ladder? ==>
      && Rung(m.days) && m.episode * SECOND + m.days * DAY <= now
      && (a.lic.pastDueAt.Some? && m.episode == Unix(a.lic.pastDueAt.value) ==> a.lic.pastDueAt.value + m.days * DAY <= now)
  }

  ghost predicate Sound(a: Account, now: int) {
    && Anchored(a.lic, now) && MailsWereDue(a, now) && Distinct(a.mails) && Climbing(a.mails)
    && (forall m :: m in a.recorded <==> m in a.mails)
  }

  lemma TimePasses(a: Account, now: int, later: int)
    requires Sound(a, now) && now <= later
    ensures Sound(a, later)
  {}

  lemma NotifyKeepsSound(a: Account, tag: Tag, now: int)
    requires Sound(a, now)
    requires tag.Ladder? ==>
      && Rung(tag.days) && tag.episode * SECOND + tag.days * DAY <= now
      && (a.lic.pastDueAt.Some? && tag.episode == Unix(a.lic.pastDueAt.value) ==> a.lic.pastDueAt.value + tag.days * DAY <= now)
      && (forall m :: m in a.mails && m.Ladder? && m.episode == tag.episode ==> m.days <= tag.days)
    ensures Sound(Notify(a, tag), now)
  {
    if tag !in a.recorded {
      var mails := a.mails + [tag];
      assert forall m :: m in mails <==> m in a.mails || m == tag;
      assert forall i :: 0 <= i < |a.mails| ==> mails[i] == a.mails[i] && mails[i] in a.mails;
    }
  }

  /** A new anchor is more than a day after every episode that has had a mail. */
  lemma EventKeepsSound(a: Account, e: Event, now: int)
    requires Sound(a, now)
    ensures Sound(HandleEvent(a, e, now), now)
  {
    var after := a.(lic := OnEvent(a.lic, e, now));
    EpisodesAreEarlier(a, now);
    if HandleEvent(a, e, now) != after {
      NotifyKeepsSound(after, RecoveryTag(a.lic), now);
    }
  }

  lemma EpisodesAreEarlier(a: Account, now: int)
    requires MailsWereDue(a, now)
    ensures forall m :: m in a.mails && m.Ladder? ==> m.episode < Unix(now)
  {}

  lemma ReachedMeaning(anchor: int, now: int, days: int)
    requires anchor <= now
    ensures DaysPastDue(anchor, now) >= days <==> anchor + days * DAY <= now
  {
    var d := DaysPastDue(anchor, now);
    assert now - anchor == d * DAY + (now - anchor) % DAY;
    if d >= days {
      assert d * DAY >= days * DAY;
    } else {
      assert (d + 1) * DAY <= days * DAY;
    }
  }

  lemma RemindKeepsSound(a: Account, now: int)
    requires Sound(a, now)
    ensures Sound(Remind(a, now), now)
  {
    hide DaysPastDue;
    if a.lic.status.PastDue? && a.lic.pastDueAt.Some? && a.lic.pastDueAt.value <= now {
      var anchor := a.lic.pastDueAt.value;
      var step := Reached(DaysPastDue(anchor, now));
      if step.Some? {
        ReachedMeaning(anchor, now, step.value);
        assert Unix(anchor) * SECOND <= anchor;
        forall m | m in a.mails && m.Ladder? && m.episode == Unix(anchor)
          ensures m.days <= step.value
        {
          ReachedMeaning(anchor, now, m.days);
        }
        NotifyKeepsSound(a, Ladder(step.value, Unix(anchor)), now);
      }
    }
  }

  lemma CheckKeepsSound(a: Account, now: int)
    requires Sound(a, now)
    ensures Sound(Check(a, now), now)
  {
    RemindKeepsSound(a.(lic := StaleExpired(TrialExpired(GraceExpired(a.lic, now), now), now)), now);
  }

  lemma {:induction false} RunKeepsSound(a: Account, steps: seq<Step>, n: nat, now: int)
    requires Untroubled(a) && Ordered(steps) && n <= |steps|
    requires n > 0 ==> steps[n - 1].at <= now
    ensures Sound(After(a, steps[..n]), now)
  {
    hide Sound, Take;
    if n == 0 {
      NothingSent(a, now);
    } else {
      var step := steps[n - 1];
      assert steps[..n][..n - 1] == steps[..n - 1];
      RunKeepsSound(a, steps, n - 1, step.at);
      StepKeepsSound(After(a, steps[..n - 1]), step);
      TimePasses(After(a, steps[..n]), step.at, now);
    }
  }

  lemma NothingSent(a: Account, now: int)
    requires Untroubled(a)
    ensures Sound(a, now)
  {}

  lemma StepKeepsSound(a: Account, step: Step)
    requires Sound(a, step.at)
    ensures Sound(Take(a, step), step.at)
  {
    match step
    case Event(e, at) => EventKeepsSound(a, e, at);
    case Pass(at) => CheckKeepsSound(a, at);
  }

  /**
   In every run of events and checks: a past-due licence has an anchor, no mail goes out
   twice, and the mails of one episode climb the ladder.
   */
  lemma LadderIsClimbedOnce(a: Account, steps: seq<Step>)
    requires Untroubled(a) && Ordered(steps)
    ensures
      var after := After(a, steps);
      && (after.lic.status.PastDue? ==> after.lic.pastDueAt.Some?)
      && Distinct(after.mails) && Climbing(after.mails)
  {
    hide Distinct, Climbing;
    assert steps[..|steps|] == steps;
    RunKeepsSound(a, steps, |steps|, if |steps| > 0 then steps[|steps| - 1].at else 0);
  }

  /** After a check that leaves the licence past due, the highest step reached has been mailed, for the running episode. */
  lemma HighestStepIsMailed(a: Account, steps: seq<Step>, at: int)
    requires Untroubled(a) && Ordered(steps + [Pass(at)])
    ensures
      var after := After(a, steps + [Pass(at)]);
      after.lic.status.PastDue? && after.lic.pastDueAt.Some? && Reached(DaysPastDue(after.lic.pastDueAt.value, at)).Some? ==>
        Ladder(Reached(DaysPastDue(after.lic.pastDueAt.value, at)).value, Unix(after.lic.pastDueAt.value)) in after.mails
  {
    hide Distinct, Climbing, Reached, DaysPastDue, MailsWereDue;
    var all := steps + [Pass(at)];
    assert all[..|steps|] == steps && all[..|all|] == all;
    RunKeepsSound(a, all, |all|, at);
    assert After(a, all) == Check(After(a, steps), at);
  }

  /** The anchor stays put while the licence stays past due. */
  lemma {:induction false} AnchorStaysPut(a: Account, steps: seq<Step>, i: nat, j: nat)
    requires Untroubled(a) && Ordered(steps) && i <= j <= |steps|
    requires forall k :: i <= k <= j ==> After(a, steps[..k]).lic.status.PastDue?
    ensures After(a, steps[..j]).lic.pastDueAt == After(a, steps[..i]).lic.pastDueAt
    decreases j
  {
    if i < j {
      AnchorStaysPut(a, steps, i, j - 1);
      assert steps[..j][..j - 1] == steps[..j - 1];
      RunKeepsSound(a, steps, j - 1, if j > 1 then steps[j - 2].at else 0);
      StepKeepsAnchor(After(a, steps[..j - 1]), steps[j - 1]);
    }
  }

  lemma StepKeepsAnchor(a: Account, step: Step)
    requires a.lic.status.PastDue? && a.lic.pastDueAt.Some? && Take(a, step).lic.status.PastDue?
    ensures Take(a, step).lic.pastDueAt == a.lic.pastDueAt
  {}

  // ---- Fresh ladders ----

  /** A licence that becomes past due starts a new episode exactly when a payment failed or no anchor was left from an earlier one. */
  lemma EntryStampsExactly(a: Account, step: Step)
    requires !a.lic.status.PastDue? && Take(a, step).lic.status.PastDue? && a.lic.pastDueAt != Some(step.at)
    ensures step.Event? && Take(a, step).lic.pastDueAt.Some?
    ensures Take(a, step).lic.pastDueAt == Some(step.at) <==> step.e.PaymentFailed? || a.lic.pastDueAt.None?
    ensures Take(a, step).lic.pastDueAt != Some(step.at) ==> Take(a, step).lic.pastDueAt == a.lic.pastDueAt
  {}

  /** A new episode starts with no mail of its ladder sent. */
  lemma NewEpisodeStartsAfresh(a: Account, steps: seq<Step>, step: Step, days: int)
    requires Untroubled(a) && Ordered(steps + [step])
    requires !After(a, steps).lic.status.PastDue? && After(a, steps).lic.pastDueAt != Some(step.at)
    requires After(a, steps + [step]).lic.status.PastDue? && After(a, steps + [step]).lic.pastDueAt == Some(step.at)
    ensures Ladder(days, Unix(step.at)) !in After(a, steps + [step]).mails
  {
    hide Distinct, Climbing;
    var all := steps + [step];
    assert all[..|steps|] == steps && all[..|all|] == all;
    assert |steps| > 0 ==> all[|steps| - 1].at <= all[|steps|].at;
    RunKeepsSound(a, all, |steps|, step.at);
    EpisodesAreEarlier(After(a, steps), step.at);
    assert After(a, all) == Take(After(a, steps), step);
  }

  /** Once the last step has been mailed for an anchor, checks send nothing while that anchor remains. */
  lemma NoMailAfterTheLastStep(a: Account, now: int)
    requires Anchored(a.lic, now) && a.lic.pastDueAt.Some?
    requires a.lic.pastDueAt.value + 14 * DAY <= now && Ladder(14, Unix(a.lic.pastDueAt.value)) in a.recorded
    ensures Check(a, now).mails == a.mails
  {}

  function PausedSteps(t: int): seq<Step> {
    [Event(PaymentFailed, t), Pass(t + 14 * DAY), Event(Paused, t + 15 * DAY), Event(Resumed, t + 16 * DAY),
     Event(Updated("past_due", t + 60 * DAY), t + 20 * DAY), Pass(t + 28 * DAY), Pass(t + 31 * DAY)]
  }

  /** The accounts before and after each of these steps. */
  function PausedStates(l: License, t: int): seq<Account> {
    var tag := Ladder(14, Unix(t));
    var late := l.(status := PastDue, pastDueAt := Some(t), updatedAt := t);
    var paused := late.(status := Suspended, suspendedAt := Some(t + 15 * DAY), updatedAt := t + 15 * DAY);
    var resumed := late.(status := Active, updatedAt := t + 16 * DAY);
    var again := late.(validUntil := Some(t + 60 * DAY), updatedAt := t + 20 * DAY);
    [Account(l, {}, []), Account(late, {}, []), Account(late, {tag}, [tag]), Account(paused, {tag}, [tag]), Account(resumed, {tag}, [tag]),
     Account(again, {tag}, [tag]), Account(again, {tag}, [tag]), Account(again.(status := Expired, updatedAt := t + 31 * DAY), {tag}, [tag])]
  }

  lemma PausedStep(l: License, t: int, i: nat)
    requires l == License(Active, None, None, None, None, 7, l.updatedAt) && i < 7
    ensures Take(PausedStates(l, t)[i], PausedSteps(t)[i]) == PausedStates(l, t)[i + 1]
  {
    hide DaysPastDue, Unix;
    ReachedMeaning(t, t + 14 * DAY, 14);
    ReachedMeaning(t, t + 28 * DAY, 14);
  }

  /**
   A subscription paused in its past-due time and resumed keeps the old anchor: when it is
   past due again, its ladder is not climbed anew, and a day over thirty after the old anchor it expires.
   */
  lemma PausedEpisodeIsResumed(l: License, t: int)
    requires l == License(Active, None, None, None, None, 7, l.updatedAt)
    ensures
      var steps := PausedSteps(t);
      && After(Account(l, {}, []), steps[..5]).lic.status.PastDue?
      && After(Account(l, {}, []), steps).mails == [Ladder(14, Unix(t))]
      && After(Account(l, {}, []), steps).lic.status.Expired?
  {
    hide Take, Unix;
    var steps, a := PausedSteps(t), Account(l, {}, []);
    Prefixes(a, steps);
    for n := 0 to 7
      invariant After(a, steps[..n]) == PausedStates(l, t)[n]
      invariant n >= 5 ==> After(a, steps[..5]) == PausedStates(l, t)[5]
    {
      PausedStep(l, t, n);
      assert After(a, steps[..n + 1]) == Take(After(a, steps[..n]), steps[n]);
    }
  }

  lemma Prefixes(a: Account, steps: seq<Step>)
    ensures forall n :: 0 < n <= |steps| ==> After(a, steps[..n]) == Take(After(a, steps[..n - 1]), steps[n - 1])
    ensures After(a, steps[..0]) == a && steps[..|steps|] == steps
  {
    forall n | 0 < n <= |steps|
      ensures After(a, steps[..n]) == Take(After(a, steps[..n - 1]), steps[n - 1])
    {
      assert steps[..n][..n - 1] == steps[..n - 1];
    }
  }
}
