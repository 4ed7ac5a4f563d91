/** When a licence is in force: what events and checks do to it, over single steps and whole runs. */
module DunningLaws {
  import opened Wrappers
  import opened Dunning

  predicate InForce(l: License) { l.status == Active || l.status == Trialing || l.status == PastDue }

  // ---- The checks ----

  /** The validity of a paid licence and its days of grace are over. */
  predicate GraceIsOver(l: License, now: int) {
    (l.status == Active || l.status == PastDue) && l.validUntil.Some?
    && now > l.validUntil.value + if l.graceDays > 0 then l.graceDays * DAY else 0
  }

  predicate TrialIsOver(l: License, now: int) { l.status == Trialing && l.validUntil.Some? && now > l.validUntil.value }

  /** Past due for more than thirty days, since the anchor or, without one, since the last change. */
  predicate LongPastDue(l: License, now: int) {
    l.status == PastDue && now > 30 * DAY + match l.pastDueAt case Some(anchor) => anchor case None => l.updatedAt
  }

  /** A pass expires a licence exactly for one of the three reasons, and changes no other licence at all. */
  lemma CheckExpiresExactly(a: Account, now: int)
    ensures
      var after := Check(a, now).lic;
      if GraceIsOver(a.lic, now) || TrialIsOver(a.lic, now) || LongPastDue(a.lic, now)
      then after == a.lic.(status := Expired, updatedAt := now) else after == a.lic
  {}

  /** After a pass nothing is in force whose validity, grace and thirty days of being past due are over. */
  lemma NothingOutlivesACheck(a: Account, now: int)
    ensures var after := Check(a, now).lic; InForce(after) ==> !GraceIsOver(after, now) && !TrialIsOver(after, now) && !LongPastDue(after, now)
  {
    CheckExpiresExactly(a, now);
  }

  // ---- Into force and out of it ----

  /** The events that bring a licence back into force; a revoked one is not reinstated. */
  predicate BringsBack(l: License, step: Step) {
    step.Event? &&
    match step.e
    case InvoicePaid(_) => true
    case Updated(status, _) => status == "active" || status == "trialing" || status == "past_due"
    case Resumed => true
    case Reinstate => l.status != Revoked
    case _ => false
  }

  /** The events that take a licence out of force, and what it then is; and the passes that expire it. */
  function TakesOut(l: License, step: Step): Option<Status> {
    match step
    case Pass(at) => if GraceIsOver(l, at) || TrialIsOver(l, at) || LongPastDue(l, at) then Some(Expired) else None
    case Event(e, _) =>
      match e
      case Updated(status, _) => if status == "canceled" || status == "unpaid" then Some(Canceled) else None
      case Deleted | CancelNow => Some(Canceled)
      case Paused | Suspend => Some(Suspended)
      case Refunded(full) => if full then Some(Revoked) else None
      case Revoke => Some(Revoked)
      case _ => None
  }

  /** A licence out of force comes back exactly by an event that brings it back. */
  lemma ComesBackExactly(a: Account, step: Step)
    requires !InForce(a.lic)
    ensures InForce(Take(a, step).lic) <==> BringsBack(a.lic, step)
  {
    if step.Pass? { CheckExpiresExactly(a, step.at); }
  }

  /** A licence in force leaves it exactly by a step that takes it out, for the state that the step names. */
  lemma GoesOutExactly(a: Account, step: Step)
    requires InForce(a.lic)
    ensures InForce(Take(a, step).lic) <==> TakesOut(a.lic, step).None?
    ensures TakesOut(a.lic, step).Some? ==> Take(a, step).lic.status == TakesOut(a.lic, step).value
  {
    if step.Pass? { CheckExpiresExactly(a, step.at); }
  }

  /**
   Which state a licence in force is in: active after a payment, an active subscription, resumption
   or reinstatement; past due only by a failed payment while active or a past-due subscription;
   on trial by a subscription on trial; and otherwise as before.
   */
  lemma StateInForceExactly(a: Account, step: Step)
    requires InForce(Take(a, step).lic)
    ensures
      var paid := BringsBack(a.lic, step) && (step.e.Updated? ==> step.e.status == "active")
        && (step.e.Reinstate? ==> !InForce(a.lic));
      var lapsed := step.Event? && ((step.e.PaymentFailed? && a.lic.status == Active) || (step.e.Updated? && step.e.status == "past_due"));
      var trial := step.Event? && step.e.Updated? && step.e.status == "trialing";
      Take(a, step).lic.status == if paid then Active else if lapsed then PastDue else if trial then Trialing else a.lic.status
  {
    if step.Pass? { CheckExpiresExactly(a, step.at); }
  }

  /** When a licence was suspended or cancelled is stamped by the events that do so, and cleared by those that undo it. */
  lemma DatesAreStamped(a: Account, step: Step)
    ensures
      var after := Take(a, step).lic;
      var out := TakesOut(a.lic, step);
      && (step.Event? && out == Some(Suspended) ==> after.suspendedAt == Some(step.at))
      && (step.Event? && out == Some(Canceled) ==> after.canceledAt == Some(step.at))
      && (step.Event? && (step.e.Resumed? || (step.e.Reinstate? && BringsBack(a.lic, step) && !InForce(a.lic))) ==> after.suspendedAt == None)
      && (after.suspendedAt != a.lic.suspendedAt ==> after.suspendedAt == None || out == Some(Suspended))
      && (after.canceledAt != a.lic.canceledAt ==> after.canceledAt == None || out == Some(Canceled))
      && (after != a.lic ==> after.updatedAt == step.at)
  {
    if step.Pass? { CheckExpiresExactly(a, step.at); }
  }

  /** Between its first and last step a run brings nothing back. */
  predicate NothingBringsBack(a: Account, steps: seq<Step>) {
    forall k :: 0 <= k < |steps| ==> !BringsBack(After(a, steps[..k]).lic, steps[k])
  }

  lemma {:induction false} OutOfForceStaysOut(a: Account, steps: seq<Step>, n: nat)
    requires !InForce(a.lic) && NothingBringsBack(a, steps) && n <= |steps|
    ensures !InForce(After(a, steps[..n]).lic)
  {
    hide Take, BringsBack, InForce;
    if n > 0 {
      OutOfForceStaysOut(a, steps, n - 1);
      assert steps[..n][..n - 1] == steps[..n - 1];
      assert After(a, steps[..n]) == Take(After(a, steps[..n - 1]), steps[n - 1]);
      ComesBackExactly(After(a, steps[..n - 1]), steps[n - 1]);
    } else {
      assert steps[..0] == [];
    }
  }

  /**
   A full refund, a cancellation and a deletion end a licence: whatever it was before, it is
   revoked or cancelled then and in force at no later moment of a run that brings nothing back.
   A partial refund changes nothing.
   */
  lemma EndedStaysEnded(a: Account, e: Event, at: int, later: seq<Step>, n: nat)
    requires e == Refunded(true) || e == Revoke || e == Deleted || e == CancelNow
    requires n <= |later| && NothingBringsBack(Take(a, Event(e, at)), later)
    ensures
      var ended := Take(a, Event(e, at));
      && ended.lic.status == (if e == Deleted || e == CancelNow then Canceled else Revoked)
      && (e == Deleted || e == CancelNow ==> ended.lic.canceledAt == Some(at))
      && (e == Deleted ==> ended.lic.pastDueAt == None)
      && (e == CancelNow ==> ended.lic.validUntil == Some(at))
      && !InForce(After(ended, later[..n]).lic)
    ensures Take(a, Event(Refunded(false), at)) == a
  {
    hide After;
    OutOfForceStaysOut(Take(a, Event(e, at)), later, n);
  }

  /** A revoked licence is no longer revoked as soon as an invoice is paid: the refund does not outlast the subscription. */
  lemma PaymentUndoesARefund(a: Account, at: int, periodEnd: int, later: int)
    ensures
      var paid := After(a, [Event(Refunded(true), at), Event(InvoicePaid(periodEnd), later)]);
      paid.lic.status == Active && paid.lic.validUntil == Some(periodEnd)
  {
    var steps := [Event(Refunded(true), at), Event(InvoicePaid(periodEnd), later)];
    assert steps[..1] == [steps[0]] && steps[..1][..0] == [];
    assert After(a, steps) == Take(After(a, steps[..1]), steps[1]);
  }

  // ---- The validity ----

  /** The validity that a step sets, if it sets one. */
  function SetsValidity(step: Step): Option<Option<int>> {
    match step
    case Event(InvoicePaid(periodEnd), _) => Some(Some(periodEnd))
    case Event(Updated(_, periodEnd), _) => Some(Some(periodEnd))
    case Event(CancelNow, at) => Some(Some(at))
    case Event(MoveValidity(until), _) => Some(until)
    case _ => None
  }

  lemma StepSetsValidity(a: Account, step: Step)
    ensures Take(a, step).lic.validUntil == match SetsValidity(step) case Some(v) => v case None => a.lic.validUntil
  {
    if step.Pass? { CheckExpiresExactly(a, step.at); }
  }

  /** At any moment the validity is what the last step that set one has set, and the first one's if none has. */
  lemma {:induction false} ValidityIsTheLastSet(a: Account, steps: seq<Step>, k: int)
    requires -1 <= k < |steps| && (k >= 0 ==> SetsValidity(steps[k]).Some?)
    requires forall i :: k < i < |steps| ==> SetsValidity(steps[i]).None?
    ensures After(a, steps).lic.validUntil == if k >= 0 then SetsValidity(steps[k]).value else a.lic.validUntil
    decreases |steps|
  {
    hide Take, SetsValidity;
    if |steps| > 0 {
      var n := |steps| - 1;
      StepSetsValidity(After(a, steps[..n]), steps[n]);
      if k < n { ValidityIsTheLastSet(a, steps[..n], k); }
    }
  }

  // ---- Mails ----

  /** A step of the ladder that is due is mailed by the next pass, for the running episode: at one, seven and fourteen days. */
  lemma DueStepIsMailed(a: Account, steps: seq<Step>, at: int, days: int)
    requires Untroubled(a) && Ordered(steps + [Pass(at)]) && days in {1, 7, 14}
    requires
      var l := After(a, steps + [Pass(at)]).lic;
      && l.status == PastDue && l.pastDueAt.Some? && l.pastDueAt.value + days * DAY <= at
      && (days == 1 ==> at < l.pastDueAt.value + 7 * DAY) && (days == 7 ==> at < l.pastDueAt.value + 14 * DAY)
    ensures
      var after := After(a, steps + [Pass(at)]);
      Ladder(days, Unix(after.lic.pastDueAt.value)) in after.mails
  {
    hide After, DaysPastDue, Unix, Untroubled;
    HighestStepIsMailed(a, steps, at);
    var anchor := After(a, steps + [Pass(at)]).lic.pastDueAt.value;
    ReachedMeaning(anchor, at, 1);
    ReachedMeaning(anchor, at, 7);
    ReachedMeaning(anchor, at, 14);
  }

  /**
   An event mails exactly when it makes a past-due licence active by a paid invoice or an active
   subscription, and that episode's recovery has not been told yet; the mail names the episode.
   */
  lemma RecoveryIsToldExactly(a: Account, e: Event, at: int)
    ensures
      var after := HandleEvent(a, e, at);
      var tag := if a.lic.pastDueAt.Some? && a.lic.pastDueAt.value >= 1_000_000_000
                 then Recovered(a.lic.pastDueAt.value / 1_000_000_000) else RecoveredOnce;
      var told := a.lic.status == PastDue && (e.InvoicePaid? || (e.Updated? && e.status == "active")) && tag !in a.recorded;
      && after.mails == (if told then a.mails + [tag] else a.mails)
      && after.recorded == (if told then a.recorded + {tag} else a.recorded)
  {}
}
