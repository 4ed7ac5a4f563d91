/**
 Usage against a quota: recording a use, the counter behind it, the quota warning, and the
 queue of metered billing. Counters are 64-bit; ratios are taken over the reals.
 */
module Usage {
  import opened Wrappers
  import opened Decimal

  datatype Entitlement = Entitlement(feature: string, valueType: string, value: string, quotaPeriod: string, meter: string)

  /** The licence a key leads to, with the entitlements of its plan. */
  datatype License = License(id: string, entitlements: seq<Entitlement>)

  datatype Counter = Counter(license: string, feature: string, period: string, periodKey: string)

  datatype UsageError = LicenseNotFound | NoQuota | QuotaExceeded(used: int, limit: int) | Internal

  datatype Recorded = Recorded(used: int, limit: int, remaining: int)

  /** The sum as a 64-bit addition gives it. */
  function Wrapped(x: int): I64 { (x + 0x8000_0000_0000_0000) % 0x1_0000_0000_0000_0000 - 0x8000_0000_0000_0000 }

  /** The quota's text as a number: 0 if it is none, the nearest bound if it is too large. */
  function ParseLimit(value: string): I64 {
    if value == "" then 0
    else
      var signed := value[0] == '-' || value[0] == '+';
      var magnitude := ParseDigits(if signed then value[1..] else value);
      if magnitude.None? then 0
      else
        var n: int := if value[0] == '-' then -(magnitude.value as int) else magnitude.value as int;
        if n > I64_MAX then I64_MAX else if n < I64_MIN then I64_MIN else n
  }

  function Quantity(quantity: I64): (q: I64)
    ensures q > 0
  {
    if quantity <= 0 then 1 else quantity
  }

  function Quota(entitlements: seq<Entitlement>, feature: string): Option<Entitlement> {
    if |entitlements| == 0 then None
    else if entitlements[0].feature == feature && entitlements[0].valueType == "quota" then Some(entitlements[0])
    else Quota(entitlements[1..], feature)
  }

  datatype Verdict = Accepted(used: I64) | Rejected(used: I64) | Failed

  /** The counter's transaction: check and increment at once; the database refuses what exceeds 64 bits. */
  function Increment(used: I64, quantity: I64, limit: I64): Verdict
    requires quantity > 0
  {
    if limit > 0 && Wrapped(used + quantity) > limit then Rejected(used)
    else if used + quantity > I64_MAX then Failed
    else Accepted(used + quantity)
  }

  /** This use takes the counter over the threshold. */
  predicate Warns(used: I64, quantity: I64, limit: I64, threshold: real) {
    && limit > 0 && threshold > 0.0
    && used as real / limit as real >= threshold
    && (used - quantity) as real / limit as real < threshold
  }

  function Answer(verdict: Verdict, limit: I64): Result<Recorded, UsageError> {
    match verdict
    case Accepted(used) => Ok(Recorded(used, limit, if limit == 0 then -1 else Wrapped(limit - used)))
    case Rejected(used) => Err(QuotaExceeded(used, limit))
    case Failed => Err(Internal)
  }

  class UsageService {
    const warningThreshold: real
    var counters: map<Counter, I64>
    var warnings: seq<Counter>
    /** What is queued for metered billing, as counter and quantity. */
    var metered: seq<(Counter, I64)>

    constructor (warningThreshold: real)
      ensures this.warningThreshold == warningThreshold && counters == map[] && warnings == [] && metered == []
    {
      this.warningThreshold := warningThreshold;
      counters := map[];
      warnings := [];
      metered := [];
    }

    function Used(c: Counter): I64
      reads this`counters
    {
      if c in counters then counters[c] else 0
    }

    method FindQuota(entitlements: seq<Entitlement>, feature: string) returns (quota: Option<Entitlement>)
      ensures quota == Quota(entitlements, feature)
    {
      quota := None;
      for i := 0 to |entitlements|
        invariant quota == None && Quota(entitlements, feature) == Quota(entitlements[i..], feature)
      {
        assert entitlements[i..][1..] == entitlements[i + 1..];
        if entitlements[i].feature == feature && entitlements[i].valueType == "quota" {
          return Some(entitlements[i]);
        }
      }
    }

    /** Only this counter can change, and only by an accepted quantity. */
    method IncrementUsageCounterWithLimit(c: Counter, quantity: I64, limit: I64) returns (verdict: Verdict)
      requires quantity > 0
      modifies this`counters
      ensures verdict == Increment(old(Used(c)), quantity, limit)
      ensures Used(c) == if verdict.Accepted? then verdict.used else old(Used(c))
      ensures forall d :: d != c ==> Used(d) == old(Used(d))
    {
      var current := Used(c);
      if limit > 0 && Wrapped(current + quantity) > limit {
        counters := counters[c := current];
        return Rejected(current);
      }
      if current + quantity > I64_MAX { return Failed; }
      counters := counters[c := current + quantity];
      verdict := Accepted(current + quantity);
    }

    /** Whether this use is the one that reaches the threshold. */
    method CrossesThreshold(newUsed: I64, quantity: I64, limit: I64) returns (warn: bool)
      ensures warn <==> Warns(newUsed, quantity, limit, warningThreshold)
    {
      if limit <= 0 || warningThreshold <= 0.0 { return false; }
      var prevUsed: int := newUsed;
      prevUsed := prevUsed - quantity;
      var ratio := newUsed as real / limit as real;
      var prevRatio := prevUsed as real / limit as real;
      warn := ratio >= warningThreshold && prevRatio < warningThreshold;
    }

    /** `queued` tells whether the billing row, if one is due, can be written. */
    method RecordUsage(lic: Option<License>, feature: string, quantity: I64, periodKey: string, queued: bool)
        returns (r: Result<Recorded, UsageError>)
      modifies this
      ensures lic.None? ==> r == Err(LicenseNotFound)
      ensures lic.Some? && Quota(lic.value.entitlements, feature).None? ==> r == Err(NoQuota)
      ensures r.Err? ==> (forall d :: Used(d) == old(Used(d))) && warnings == old(warnings) && metered == old(metered)
      ensures lic.Some? && Quota(lic.value.entitlements, feature).Some? ==>
        var quota := Quota(lic.value.entitlements, feature).value;
        var c := Counter(lic.value.id, feature, if quota.quotaPeriod == "" then "monthly" else quota.quotaPeriod, periodKey);
        var q := Quantity(quantity);
        var limit := ParseLimit(quota.value);
        var verdict := Increment(old(Used(c)), q, limit);
        && r == Answer(verdict, limit)
        && Used(c) == (if verdict.Accepted? then verdict.used else old(Used(c)))
        && (forall d :: d != c ==> Used(d) == old(Used(d)))
        && warnings == old(warnings) + (if verdict.Accepted? && Warns(verdict.used, q, limit, warningThreshold) then [c] else [])
        && metered == old(metered) + (if verdict.Accepted? && quota.meter != "" && queued then [(c, q)] else [])
    {
      hide Quota, ParseLimit, Increment, Wrapped, Warns;
      var q := quantity;
      if q <= 0 { q := 1; }
      if lic.None? { return Err(LicenseNotFound); }
      var found := FindQuota(lic.value.entitlements, feature);
      if found.None? { return Err(NoQuota); }
      var quota := found.value;
      var limit := ParseLimit(quota.value);
      var period := quota.quotaPeriod;
      if period == "" { period := "monthly"; }
      var c := Counter(lic.value.id, feature, period, periodKey);
      var verdict := IncrementUsageCounterWithLimit(c, q, limit);
      if verdict.Failed? { return Err(Internal); }
      if verdict.Rejected? { return Err(QuotaExceeded(verdict.used, limit)); }
      if quota.meter != "" && queued { metered := metered + [(c, q)]; }
      var newUsed := verdict.used;
      var left: int := limit;
      left := left - newUsed;
      var remaining := Wrapped(left);
      if limit == 0 { remaining := -1; }
      var warn := CrossesThreshold(newUsed, q, limit);
      if warn { warnings := warnings + [c]; }
      r := Ok(Recorded(newUsed, limit, remaining));
    }
  }

  // ---- One counter over a period ----

  /** A counter and the number of its warnings; the increments of concurrent uses come one after the other. */
  datatype Tally = Tally(used: I64, warnings: nat)

  function Use(t: Tally, quantity: I64, limit: I64, threshold: real): Tally {
    match Increment(t.used, Quantity(quantity), limit)
    case Accepted(used) => Tally(used, t.warnings + if Warns(used, Quantity(quantity), limit, threshold) then 1 else 0)
    case _ => t
  }

  function UseAll(quantities: seq<I64>, limit: I64, threshold: real): Tally {
    if |quantities| == 0 then Tally(0, 0)
    else Use(UseAll(quantities[..|quantities| - 1], limit, threshold), quantities[|quantities| - 1], limit, threshold)
  }

  /** The sum of the quantities that are accepted. */
  function AcceptedSum(quantities: seq<I64>, limit: I64, threshold: real): int {
    if |quantities| == 0 then 0
    else
      var n := |quantities| - 1;
      AcceptedSum(quantities[..n], limit, threshold)
      + if Increment(UseAll(quantities[..n], limit, threshold).used, Quantity(quantities[n]), limit).Accepted?
        then Quantity(quantities[n]) as int else 0
  }

  predicate Reached(used: int, limit: I64, threshold: real)
    requires limit > 0
  {
    used as real / limit as real >= threshold
  }

  lemma MoreIsHigher(a: int, b: int, limit: I64)
    requires limit > 0 && a <= b
    ensures a as real / limit as real <= b as real / limit as real
  {}

  /** A use is accepted exactly if the quota has room for it, unless the sum is beyond 64 bits. */
  lemma AcceptedExactly(used: I64, quantity: I64, limit: I64)
    requires 0 <= used && 0 < quantity && 0 < limit && used <= limit
    ensures Increment(used, quantity, limit).Accepted? <==> used + quantity <= limit
    ensures Increment(used, quantity, limit).Failed? <==> used + quantity > I64_MAX
  {
    var sum := used + quantity;
    if sum <= I64_MAX {
      assert Wrapped(sum) == sum;
    } else {
      assert (sum + 0x8000_0000_0000_0000) % 0x1_0000_0000_0000_0000 == sum - 0x8000_0000_0000_0000;
      assert Wrapped(sum) < 0;
    }
  }

  /**
   In any sequence of uses from zero under one quota: the counter is the sum of what was
   accepted and within the quota, and exactly one warning has been given if the threshold is
   reached, and none if it is not.
   */
  lemma {:induction false} WarnedExactlyOnce(quantities: seq<I64>, limit: I64, threshold: real)
    requires limit > 0 && threshold > 0.0
    ensures
      var t := UseAll(quantities, limit, threshold);
      && t.used == AcceptedSum(quantities, limit, threshold) && 0 <= t.used <= limit
      && t.warnings == if Reached(t.used, limit, threshold) then 1 else 0
    decreases |quantities|
  {
    if |quantities| > 0 {
      var n := |quantities| - 1;
      WarnedExactlyOnce(quantities[..n], limit, threshold);
      var before := UseAll(quantities[..n], limit, threshold);
      var q := Quantity(quantities[n]);
      AcceptedExactly(before.used, q, limit);
      MoreIsHigher(before.used, before.used + q, limit);
    }
  }

  /** Without a quota limit, or with one that does not read as a number, everything is accepted and nothing warned of. */
  lemma {:induction false} UnlimitedNeverWarns(quantities: seq<I64>, limit: I64, threshold: real)
    requires limit <= 0
    ensures UseAll(quantities, limit, threshold).warnings == 0
    ensures UseAll(quantities, limit, threshold).used == AcceptedSum(quantities, limit, threshold)
    decreases |quantities|
  {
    if |quantities| > 0 { UnlimitedNeverWarns(quantities[..|quantities| - 1], limit, threshold); }
  }

  // ---- The quota that applies, and its limit ----

  /** The quota is the first entitlement of the feature that is one, if there is any. */
  lemma {:induction false} QuotaIsTheFirst(entitlements: seq<Entitlement>, feature: string, i: nat)
    requires i < |entitlements| && entitlements[i].feature == feature && entitlements[i].valueType == "quota"
    requires forall j :: 0 <= j < i ==> entitlements[j].feature != feature || entitlements[j].valueType != "quota"
    ensures Quota(entitlements, feature) == Some(entitlements[i])
  {
    if i > 0 {
      assert entitlements[1..][i - 1] == entitlements[i];
      QuotaIsTheFirst(entitlements[1..], feature, i - 1);
    }
  }

  lemma {:induction false} NoQuotaExactly(entitlements: seq<Entitlement>, feature: string)
    ensures Quota(entitlements, feature).None?
        <==> forall i :: 0 <= i < |entitlements| ==> entitlements[i].feature != feature || entitlements[i].valueType != "quota"
  {
    if |entitlements| > 0 {
      NoQuotaExactly(entitlements[1..], feature);
      assert forall i :: 1 <= i < |entitlements| ==> entitlements[i] == entitlements[1..][i - 1];
      if exists i :: 0 <= i < |entitlements| && entitlements[i].feature == feature && entitlements[i].valueType == "quota" {
        var i :| 0 <= i < |entitlements| && entitlements[i].feature == feature && entitlements[i].valueType == "quota";
        if i > 0 { assert entitlements[1..][i - 1] == entitlements[i]; }
      }
    }
  }

  /** The decimal text of a number reads as that number, or as the nearest that 64 bits hold. */
  lemma LimitReadsDecimals(n: int)
    ensures ParseLimit(Print(n)) == if n > 0x7fff_ffff_ffff_ffff then 0x7fff_ffff_ffff_ffff
                                    else if n < -0x8000_0000_0000_0000 then -0x8000_0000_0000_0000 else n
    ensures n >= 0 ==> ParseLimit("+" + Print(n)) == ParseLimit(Print(n))
  {
    hide ParseDigits, Digits;
    if n < 0 {
      ParseDigitsUndoesDigits(-n);
      assert Print(n)[1..] == Digits(-n);
    } else {
      ParseDigitsUndoesDigits(n);
      assert ("+" + Print(n))[1..] == Digits(n);
    }
  }

  lemma {:induction false} OnlyDigitsParse(s: string, i: nat)
    requires i < |s| && !('0' <= s[i] <= '9')
    ensures ParseDigits(s).None?
  {
    if i < |s| - 1 { OnlyDigitsParse(s[..|s| - 1], i); }
  }

  /** A text with anything else than digits after an optional sign reads as no limit. */
  lemma OtherTextIsNoLimit(s: string, i: nat)
    requires s in {"", "+", "-"} || (i < |s| && !('0' <= s[i] <= '9') && (i == 0 ==> s[0] != '+' && s[0] != '-'))
    ensures ParseLimit(s) == 0
  {
    hide ParseDigits;
    if s in {"+", "-"} {
      assert s[1..] == "" && ParseDigits("").None? by { EmptyIsNoNumber(); }
    } else if s != "" && (s[0] == '-' || s[0] == '+') {
      OnlyDigitsParse(s[1..], i - 1);
    } else if s != "" {
      OnlyDigitsParse(s, i);
    }
  }

  lemma EmptyIsNoNumber()
    ensures ParseDigits("").None?
  {}

  // ---- What a use is answered ----

  /**
   A use is counted, and answered with the new counter, the limit and what is left, exactly if
   the quota has room for it and 64 bits hold the sum; without a positive limit there always is
   room. A quantity that is not positive counts as one.
   */
  lemma UseIsAnswered(used: I64, quantity: I64, limit: I64)
    requires 0 <= used && (limit > 0 ==> used <= limit)
    ensures
      var q := if quantity <= 0 then 1 else quantity as int;
      var r := Answer(Increment(used, Quantity(quantity), limit), limit);
      && (r.Ok? <==> (limit > 0 ==> used + q <= limit) && used + q <= 0x7fff_ffff_ffff_ffff)
      && (r.Ok? ==> r.value.used == used + q && r.value.limit == limit)
      && (r.Ok? && limit > 0 ==> r.value.remaining == limit - used - q)
      && (r.Ok? && limit == 0 ==> r.value.remaining == -1)
      && (r == Err(Internal) <==> used + q > 0x7fff_ffff_ffff_ffff)
      && (r.Err? && r.error != Internal ==> r.error == QuotaExceeded(used, limit))
  {
    hide Wrapped;
    var q := Quantity(quantity);
    if limit > 0 {
      AcceptedExactly(used, q, limit);
      if used + q <= limit { SmallIsNotWrapped(limit - (used + q)); }
    }
  }

  lemma SmallIsNotWrapped(x: int)
    requires 0 <= x <= 0x7fff_ffff_ffff_ffff
    ensures Wrapped(x) == x
  {}

  /** The sum of all uses. */
  function Total(quantities: seq<I64>): nat {
    if |quantities| == 0 then 0
    else
      var q := quantities[|quantities| - 1];
      Total(quantities[..|quantities| - 1]) + if q <= 0 then 1 else q
  }

  /** Without a positive limit the counter is the sum of all uses, as long as 64 bits hold it. */
  lemma {:induction false} UnlimitedCountsEverything(quantities: seq<I64>, limit: I64, threshold: real)
    requires limit <= 0 && Total(quantities) <= 0x7fff_ffff_ffff_ffff
    ensures UseAll(quantities, limit, threshold).used == Total(quantities)
    decreases |quantities|
  {
    if |quantities| > 0 { UnlimitedCountsEverything(quantities[..|quantities| - 1], limit, threshold); }
  }
}
