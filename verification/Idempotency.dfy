/**
 Idempotency keys: the stored slot, the middleware around a handler, and runs of concurrent
 requests that share a key and an endpoint. SHA-256 is a parameter.
 */
module Idempotency {
  import opened Wrappers

  const MAX_BODY := 262144
  const MAX_STORED := 65536
  const LIFETIME := 86400

  type Slot = (string, string)

  datatype Row = Row(bodyHash: string, status: int, body: string, complete: bool, expiresAt: int)

  datatype Claim = Fresh | Existing(row: Row) | Mismatch

  // ---- The slot ----

  function Inserted(row: Option<Row>, bodyHash: string, now: int): Option<Row> {
    if row.None? then Some(Row(bodyHash, 0, "", false, now + LIFETIME)) else row
  }

  /** What a request is told whose insert met a row. */
  function ReadBack(row: Option<Row>, bodyHash: string): Claim {
    if row.None? then Fresh else if row.value.bodyHash != bodyHash then Mismatch else Existing(row.value)
  }

  function Stored(body: string): string { if |body| > MAX_STORED then body[..MAX_STORED] else body }

  function Completed(row: Option<Row>, status: int, body: string): Option<Row> {
    if row.None? then None else Some(row.value.(status := status, body := Stored(body), complete := true))
  }

  function Abandoned(row: Option<Row>): Option<Row> {
    if row.Some? && row.value.complete then row else None
  }

  /** Responses that are kept: any status but none and the server errors. */
  predicate Kept(status: int) { status != 0 && status < 500 }

  function Finished(row: Option<Row>, status: int, body: string): Option<Row> {
    if Kept(status) then Completed(row, status, body) else Abandoned(row)
  }

  class IdempotencyStore {
    var rows: map<Slot, Row>

    constructor ()
      ensures rows == map[]
    {
      rows := map[];
    }

    function At(slot: Slot): Option<Row>
      reads this
    {
      if slot in rows then Some(rows[slot]) else None
    }

    /** The slot is now `row`, and no other has changed. */
    twostate predicate Becomes(slot: Slot, row: Option<Row>)
      reads this
    {
      At(slot) == row && rows - {slot} == old(rows) - {slot}
    }

    method Insert(slot: Slot, bodyHash: string, now: int) returns (claimed: bool)
      modifies this
      ensures claimed <==> old(At(slot)).None?
      ensures Becomes(slot, Inserted(old(At(slot)), bodyHash, now))
    {
      if slot in rows { return false; }
      rows := rows[slot := Row(bodyHash, 0, "", false, now + LIFETIME)];
      claimed := true;
    }

    method IdempotencyClaim(slot: Slot, bodyHash: string, now: int) returns (claim: Claim)
      modifies this
      ensures Becomes(slot, Inserted(old(At(slot)), bodyHash, now))
      ensures claim == ReadBack(old(At(slot)), bodyHash)
    {
      var claimed := Insert(slot, bodyHash, now);
      if claimed { return Fresh; }
      if slot !in rows { return Fresh; }
      if rows[slot].bodyHash != bodyHash { return Mismatch; }
      claim := Existing(rows[slot]);
    }

    method IdempotencyComplete(slot: Slot, status: int, body: string)
      modifies this
      ensures Becomes(slot, Completed(old(At(slot)), status, body))
    {
      var kept := body;
      if |kept| > 65536 { kept := kept[..65536]; }
      if slot in rows {
        rows := rows[slot := rows[slot].(status := status, body := kept, complete := true)];
      }
    }

    method IdempotencyAbandon(slot: Slot)
      modifies this
      ensures Becomes(slot, Abandoned(old(At(slot))))
    {
      if slot in rows && !rows[slot].complete {
        rows := rows - {slot};
      }
    }

    method PruneExpired(now: int)
      modifies this
      ensures rows == map s | s in old(rows) && old(rows)[s].expiresAt >= now :: old(rows)[s]
    {
      rows := map s | s in rows && rows[s].expiresAt >= now :: rows[s];
    }
  }

  // ---- The captured response ----

  datatype Call = WriteHeader(code: int) | Write(data: string)

  datatype Captured = Captured(status: int, body: string)

  function Capture(c: Captured, call: Call): Captured {
    match call
    case WriteHeader(code) => if c.status == 0 then c.(status := code) else c
    case Write(data) => Captured(if c.status == 0 then 200 else c.status, c.body + data)
  }

  function CaptureAll(calls: seq<Call>): Captured {
    if |calls| == 0 then Captured(0, "") else Capture(CaptureAll(calls[..|calls| - 1]), calls[|calls| - 1])
  }

  class CaptureWriter {
    var status: int
    var buf: string

    constructor ()
      ensures State() == Captured(0, "")
    {
      status := 0;
      buf := "";
    }

    function State(): Captured
      reads this
    {
      Captured(status, buf)
    }

    method Header(code: int)
      modifies this
      ensures State() == Capture(old(State()), WriteHeader(code))
    {
      if status == 0 { status := code; }
    }

    method Append(data: string)
      modifies this
      ensures State() == Capture(old(State()), Write(data))
    {
      if status == 0 { status := 200; }
      buf := buf + data;
    }
  }

  /** The status a call asks for; 0 asks for none. */
  function Asked(call: Call): int { if call.Write? then 200 else call.code }

  /** The data of the writes, in order. */
  function Written(calls: seq<Call>): string {
    if |calls| == 0 then ""
    else if calls[0].Write? then calls[0].data + Written(calls[1..])
    else Written(calls[1..])
  }

  lemma {:induction false} WrittenLast(calls: seq<Call>, call: Call)
    ensures Written(calls + [call]) == Written(calls) + if call.Write? then call.data else ""
  {
    if |calls| == 0 {
      assert calls + [call] == [call] && [call][1..] == [];
    } else {
      WrittenLast(calls[1..], call);
      assert (calls + [call])[1..] == calls[1..] + [call];
    }
  }

  /** The capture holds everything written and the first status asked for. */
  lemma {:induction false} CaptureMeaning(calls: seq<Call>)
    ensures CaptureAll(calls).body == Written(calls)
    ensures CaptureAll(calls).status == 0 <==> forall c :: c in calls ==> Asked(c) == 0
    ensures forall k :: 0 <= k < |calls| && Asked(calls[k]) != 0 && (forall c :: c in calls[..k] ==> Asked(c) == 0) ==>
              CaptureAll(calls).status == Asked(calls[k])
  {
    if |calls| > 0 {
      var n := |calls| - 1;
      CaptureMeaning(calls[..n]);
      WrittenLast(calls[..n], calls[n]);
      assert calls == calls[..n] + [calls[n]];
      assert forall c :: c in calls <==> c in calls[..n] || c == calls[n];
      forall k | 0 <= k < |calls| && Asked(calls[k]) != 0 && forall c :: c in calls[..k] ==> Asked(c) == 0
        ensures CaptureAll(calls).status == Asked(calls[k])
      {
        if k < n { assert calls[..n][k] == calls[k] && calls[..n][..k] == calls[..k]; }
      }
    }
  }

  // ---- The middleware, one request at a time ----

  /** A request; a body that cannot be read is absent. */
  datatype Request = Request(verb: string, key: string, endpoint: string, body: Option<string>)

  /** What the handler would do: the calls it makes, and whether it panics after them. */
  datatype Handler = Handler(calls: seq<Call>, panics: bool)

  /** Which statements of the store fail: those of the claim, or the one that completes or abandons. */
  datatype Faults = Faults(claim: bool, finish: bool)

  datatype Reply =
    | PassedThrough | Refused(code: int) | Replayed(status: int, body: string)
    | Handled(response: Captured) | Panicked(response: Captured)

  predicate ValidKey(key: string) { 1 <= |key| <= 256 && '\0' !in key && '\n' !in key && '\r' !in key }

  /** The answer that needs no slot, if any. */
  function Screened(req: Request): Option<Reply> {
    if req.verb != "POST" || req.key == "" then Some(PassedThrough)
    else if !ValidKey(req.key) then Some(Refused(400))
    else if req.body.None? then Some(Refused(400))
    else if |req.body.value| > MAX_BODY then Some(Refused(413))
    else None
  }

  /** What a request is answered that finds its slot taken. */
  function Turned(row: Row): Reply { if row.complete then Replayed(row.status, row.body) else Refused(409) }

  function Produced(handler: Handler): Reply {
    if handler.panics then Panicked(CaptureAll(handler.calls)) else Handled(CaptureAll(handler.calls))
  }

  function Answer(req: Request, row: Option<Row>, hash: string -> string, handler: Handler, faults: Faults): Reply {
    if Screened(req).Some? then Screened(req).value
    else if faults.claim then Refused(500)
    else match ReadBack(row, hash(req.body.value))
      case Fresh => Produced(handler)
      case Mismatch => Refused(422)
      case Existing(r) => Turned(r)
  }

  function After(req: Request, row: Option<Row>, hash: string -> string, handler: Handler, now: int, faults: Faults): Option<Row> {
    if Screened(req).Some? || faults.claim || row.Some? then row
    else
      var claimed := Inserted(None, hash(req.body.value), now);
      var response := CaptureAll(handler.calls);
      if faults.finish then claimed else Finished(claimed, response.status, response.body)
  }

  /** One request served with no other in between. The slot is finished with also when the handler panics. */
  method Serve(
      store: IdempotencyStore, hash: string -> string, req: Request, handler: Handler, now: int, faults: Faults)
      returns (reply: Reply)
    modifies store
    ensures reply == Answer(req, old(store.At((req.key, req.endpoint))), hash, handler, faults)
    ensures store.Becomes((req.key, req.endpoint), After(req, old(store.At((req.key, req.endpoint))), hash, handler, now, faults))
  {
    if req.verb != "POST" { return PassedThrough; }
    if req.key == "" { return PassedThrough; }
    if !ValidKey(req.key) { return Refused(400); }
    if req.body.None? { return Refused(400); }
    if |req.body.value| > MAX_BODY { return Refused(413); }
    if faults.claim { return Refused(500); }
    var slot := (req.key, req.endpoint);
    var claim := store.IdempotencyClaim(slot, hash(req.body.value), now);
    match claim
    case Mismatch => return Refused(422);
    case Existing(row) =>
      if row.complete { return Replayed(row.status, row.body); }
      return Refused(409);
    case Fresh =>
      var writer := new CaptureWriter();
      ghost var claimed := store.rows;
      var calls := handler.calls;
      for i := 0 to |calls|
        invariant writer.State() == CaptureAll(calls[..i])
        invariant store.rows == claimed
      {
        assert calls[..i + 1][..i] == calls[..i];
        match calls[i]
        case WriteHeader(code) => writer.Header(code);
        case Write(data) => writer.Append(data);
      }
      assert calls[..|calls|] == calls;
      if !faults.finish {
        if writer.status == 0 || writer.status >= 500 {
          store.IdempotencyAbandon(slot);
        } else {
          store.IdempotencyComplete(slot, writer.status, writer.buf);
        }
      }
      reply := if handler.panics then Panicked(writer.State()) else Handled(writer.State());
  }

  const CALM := Faults(false, false)

  /** The requests that are kept from running twice: a POST with a proper key and a readable body of at most 256 KiB. */
  predicate Guarded(req: Request) {
    && req.verb == "POST" && 1 <= |req.key| <= 256
    && (forall i :: 0 <= i < |req.key| ==> req.key[i] != 0 as char && req.key[i] != 10 as char && req.key[i] != 13 as char)
    && req.body.Some? && |req.body.value| <= 262144
  }

  /**
   What each request is answered: passed through exactly if it is no POST or has no key; refused
   exactly for a bad key, an unreadable or too large body, a failing store, another body under
   the same key, or a request still running; replayed exactly from a finished row with the
   hash of its body; and otherwise answered by the handler.
   */
  lemma AnswersExactly(req: Request, row: Option<Row>, hash: string -> string, handler: Handler, faults: Faults)
    ensures
      var a := Answer(req, row, hash, handler, faults);
      var claimed := Guarded(req) && !faults.claim;
      && (a == PassedThrough <==> req.verb != "POST" || req.key == "")
      && (a == Refused(400) <==> req.verb == "POST" && req.key != "" && (!ValidKey(req.key) || req.body.None?))
      && (a == Refused(413) <==> req.verb == "POST" && ValidKey(req.key) && req.body.Some? && |req.body.value| > 262144)
      && (a == Refused(500) <==> Guarded(req) && faults.claim)
      && (a == Refused(422) <==> claimed && row.Some? && row.value.bodyHash != hash(req.body.value))
      && (a == Refused(409) <==> claimed && row.Some? && row.value.bodyHash == hash(req.body.value) && !row.value.complete)
      && (a.Replayed? <==> claimed && row.Some? && row.value.bodyHash == hash(req.body.value) && row.value.complete)
      && (a.Replayed? ==> a == Replayed(row.value.status, row.value.body))
      && (a.Handled? || a.Panicked? <==> claimed && row.None?)
      && (ValidKey(req.key) <==>
            1 <= |req.key| <= 256 && forall i :: 0 <= i < |req.key| ==> req.key[i] as int !in {0, 10, 13})
  {
    hide CaptureAll;
  }

  /** A request that is not guarded, or finds its slot taken, leaves the slot as it was; the handler then does not run. */
  lemma SlotChangesExactly(req: Request, row: Option<Row>, hash: string -> string, handler: Handler, now: int, faults: Faults)
    ensures
      var after := After(req, row, hash, handler, now, faults);
      && (!Guarded(req) || faults.claim || row.Some? ==> after == row)
      && (Guarded(req) && !faults.claim && row.None? ==>
            && (faults.finish ==> after == Some(Row(hash(req.body.value), 0, "", false, now + 86400)))
            && (!faults.finish && after.Some? ==>
                  var body := Written(handler.calls);
                  && after.value.bodyHash == hash(req.body.value) && after.value.complete && after.value.expiresAt == now + 86400
                  && after.value.body == if |body| > 65536 then body[..65536] else body))
  {
    hide CaptureAll;
    CaptureMeaning(handler.calls);
  }

  /**
   A retry is answered with what the first request captured, exactly when that response is
   kept and fits the store; a response that is not kept leaves the retry to run.
   */
  lemma RetryIsReplayedExactly(req: Request, hash: string -> string, handler: Handler, again: Handler, now: int)
    requires Guarded(req)
    ensures
      var row := After(req, None, hash, handler, now, CALM);
      var first := CaptureAll(handler.calls);
      && Answer(req, None, hash, handler, CALM) == Produced(handler)
      && (Answer(req, row, hash, again, CALM) == Replayed(first.status, first.body) <==> Kept(first.status) && |first.body| <= MAX_STORED)
      && (!Kept(first.status) ==> Answer(req, row, hash, again, CALM) == Produced(again))
      && (row.Some? ==> row.value.expiresAt == now + 24 * 60 * 60)
  {}

  /** What a slot holds after one calm request, and what it answers next. */
  lemma AfterCalm(req: Request, hash: string -> string, handler: Handler, again: Handler, now: int)
    requires Guarded(req)
    ensures
      var row := After(req, None, hash, handler, now, CALM);
      var first := CaptureAll(handler.calls);
      && (row.None? <==> !Kept(first.status))
      && (row.None? ==> Answer(req, row, hash, again, CALM) == Produced(again))
      && (row.Some? ==> Answer(req, row, hash, again, CALM) == Replayed(first.status, Stored(first.body)))
  {
    hide CaptureAll;
  }

  /** The status a handler asks for first: `k` is the call that asks. */
  predicate AsksFirst(calls: seq<Call>, k: int) {
    0 <= k < |calls| && Asked(calls[k]) != 0 && forall c :: c in calls[..k] ==> Asked(c) == 0
  }

  /**
   Panicking or not, the slot is released if and only if the handler has asked for no status,
   or first for one of 500 or more. Otherwise what it has written by then is kept, and a retry
   is answered with that.
   */
  lemma SlotIsReleasedExactly(req: Request, hash: string -> string, handler: Handler, again: Handler, now: int)
    requires Guarded(req)
    ensures
      var row := After(req, None, hash, handler, now, CALM);
      && (row.None? <==> (
            || (forall c :: c in handler.calls ==> Asked(c) == 0)
            || exists k :: AsksFirst(handler.calls, k) && Asked(handler.calls[k]) >= 500))
      && (row.None? ==> Answer(req, row, hash, again, CALM) == Produced(again))
      && (forall k :: AsksFirst(handler.calls, k) && Asked(handler.calls[k]) < 500 ==>
            Answer(req, row, hash, again, CALM) == Replayed(Asked(handler.calls[k]), Stored(Written(handler.calls))))
  {
    hide After, Answer, CaptureAll, Guarded;
    AfterCalm(req, hash, handler, again, now);
    CaptureMeaning(handler.calls);
    if !forall c :: c in handler.calls ==> Asked(c) == 0 {
      var k := SomeAsksFirst(handler.calls);
      assert CaptureAll(handler.calls).status == Asked(handler.calls[k]);
      forall l | AsksFirst(handler.calls, l)
        ensures CaptureAll(handler.calls).status == Asked(handler.calls[l])
      {}
    }
  }

  lemma {:induction false} SomeAsksFirst(calls: seq<Call>) returns (k: int)
    requires exists c :: c in calls && Asked(c) != 0
    ensures AsksFirst(calls, k)
  {
    if Asked(calls[0]) != 0 {
      k := 0;
    } else {
      assert calls == [calls[0]] + calls[1..];
      var later := SomeAsksFirst(calls[1..]);
      k := later + 1;
      assert calls[..k] == [calls[0]] + calls[1..][..later];
    }
  }

  /** A handler that sets a status and panics half-way: a retry is answered with the half that was written. */
  lemma PartialResponseIsReplayed(req: Request, hash: string -> string, again: Handler, now: int)
    requires Guarded(req)
    ensures
      var crash := Handler([WriteHeader(201), Write("{")], true);
      && Answer(req, None, hash, crash, CALM) == Panicked(Captured(201, "{"))
      && Answer(req, After(req, None, hash, crash, now, CALM), hash, again, CALM) == Replayed(201, "{")
  {
    var calls := [WriteHeader(201), Write("{")];
    assert calls[..1] == [WriteHeader(201)] && calls[..1][..0] == [];
    assert CaptureAll(calls[..1]) == Captured(201, "");
    assert CaptureAll(calls) == Captured(201, "{");
  }

  // ---- Concurrent requests for one slot ----

  datatype Phase =
    | Arriving
    | Conflicting                          // the insert met a row, which is not yet read back
    | Running
    | Executed(status: int, body: string)
    | Answered(reply: Reply)

  datatype State = State(row: Option<Row>, phases: seq<Phase>)

  datatype Step =
    | Insert(r: nat, now: int)
    | Select(r: nat)
    | Break(r: nat)                        // the store fails a request that has not claimed
    | Finish(r: nat, status: int, body: string, saved: bool)
    | Expire                               // the row is pruned

  function InsertStep(hashes: seq<string>, s: State, r: nat, now: int): State
    requires r < |s.phases| == |hashes|
  {
    State(Inserted(s.row, hashes[r], now), s.phases[r := if s.row.None? then Running else Conflicting])
  }

  function SelectStep(hashes: seq<string>, s: State, r: nat): State
    requires r < |s.phases| == |hashes|
  {
    s.(phases := s.phases[r := match ReadBack(s.row, hashes[r])
                               case Fresh => Running
                               case Mismatch => Answered(Refused(422))
                               case Existing(row) => Answered(Turned(row))])
  }

  ghost predicate Next(hashes: seq<string>, s: State, step: Step, s': State) {
    && |s.phases| == |hashes|
    && (step.Expire? || step.r < |s.phases|)
    && match step
       case Insert(r, now) => s.phases[r].Arriving? && s' == InsertStep(hashes, s, r, now)
       case Select(r) => s.phases[r].Conflicting? && s' == SelectStep(hashes, s, r)
       case Break(r) =>
         (s.phases[r].Arriving? || s.phases[r].Conflicting?) && s' == s.(phases := s.phases[r := Answered(Refused(500))])
       case Finish(r, status, body, saved) =>
         && s.phases[r].Running?
         && s' == State(if saved then Finished(s.row, status, body) else s.row, s.phases[r := Executed(status, body)])
       case Expire => s' == s.(row := None)
  }

  /** The steps within the lifetime of a row, but for a claim on the ground that the row has vanished. */
  predicate Orderly(s: State, step: Step) { !step.Expire? && (step.Select? ==> s.row.Some?) }

  ghost predicate Run(hashes: seq<string>, states: seq<State>, steps: seq<Step>) {
    && |states| == |steps| + 1
    && states[0] == State(None, seq(|hashes|, i => Arriving))
    && forall i :: 0 <= i < |steps| ==> Next(hashes, states[i], steps[i], states[i + 1])
  }

  predicate Settled(p: Phase) { p.Executed? && Kept(p.status) }

  /** At most one handler is in flight. */
  predicate Exclusive(s: State) {
    forall i, j :: 0 <= i < |s.phases| && 0 <= j < |s.phases| && s.phases[i].Running? && s.phases[j].Running? ==> i == j
  }

  /** At most one execution has ended with a response that is kept. */
  predicate OneSettled(s: State) {
    forall i, j :: 0 <= i < |s.phases| && 0 <= j < |s.phases| && Settled(s.phases[i]) && Settled(s.phases[j]) ==> i == j
  }

  /** A replay for request `j` is of the execution of request `i`. */
  predicate ReplayOf(hashes: seq<string>, s: State, i: int, j: int)
    requires |s.phases| == |hashes| && 0 <= i < |hashes| && 0 <= j < |hashes|
  {
    && Settled(s.phases[i]) && hashes[i] == hashes[j]
    && s.phases[j] == Answered(Replayed(s.phases[i].status, Stored(s.phases[i].body)))
  }

  predicate IsReplay(p: Phase) { p.Answered? && p.reply.Replayed? }

  predicate ReplaysAreReal(hashes: seq<string>, s: State)
    requires |s.phases| == |hashes|
  {
    forall j :: 0 <= j < |s.phases| && IsReplay(s.phases[j]) ==> exists i :: 0 <= i < |s.phases| && ReplayOf(hashes, s, i, j)
  }

  /** The row answers for the handler in flight, or for the settled execution. */
  predicate RowIsHeld(hashes: seq<string>, s: State)
    requires |s.phases| == |hashes|
  {
    && (forall i :: 0 <= i < |s.phases| && s.phases[i].Running? ==>
          s.row.Some? && !s.row.value.complete && s.row.value.bodyHash == hashes[i])
    && (forall i :: 0 <= i < |s.phases| && Settled(s.phases[i]) ==>
          && s.row.Some? && s.row.value.bodyHash == hashes[i]
          && (s.row.value.complete ==> s.row.value.status == s.phases[i].status && s.row.value.body == Stored(s.phases[i].body))
          && forall j :: 0 <= j < |s.phases| ==> !s.phases[j].Running?)
    && (s.row.Some? && s.row.value.complete ==> exists i :: 0 <= i < |s.phases| && Settled(s.phases[i]))
  }

  predicate Safe(hashes: seq<string>, s: State) {
    |s.phases| == |hashes| && Exclusive(s) && OneSettled(s) && RowIsHeld(hashes, s) && ReplaysAreReal(hashes, s)
  }

  /** A step that changes request `r` only, to something that is no replay, keeps the replays of the others real. */
  lemma OtherReplaysStay(hashes: seq<string>, s: State, r: nat, s': State)
    requires |s.phases| == |hashes| && r < |hashes| && ReplaysAreReal(hashes, s)
    requires |s'.phases| == |hashes| && s'.phases == s.phases[r := s'.phases[r]] && !IsReplay(s.phases[r]) && !Settled(s.phases[r])
    ensures forall j :: 0 <= j < |hashes| && j != r && IsReplay(s'.phases[j]) ==> exists i :: 0 <= i < |hashes| && ReplayOf(hashes, s', i, j)
  {
    forall j | 0 <= j < |hashes| && j != r && IsReplay(s'.phases[j])
      ensures exists i :: 0 <= i < |hashes| && ReplayOf(hashes, s', i, j)
    {
      var i :| 0 <= i < |hashes| && ReplayOf(hashes, s, i, j);
      assert ReplayOf(hashes, s', i, j);
    }
  }

  lemma StepKeepsReplays(hashes: seq<string>, s: State, step: Step, s': State)
    requires Safe(hashes, s) && Next(hashes, s, step, s') && Orderly(s, step)
    ensures ReplaysAreReal(hashes, s')
  {
    hide Exclusive, OneSettled;
    var r := step.r;
    OtherReplaysStay(hashes, s, r, s');
    if step.Select? && IsReplay(s'.phases[r]) {
      var i :| 0 <= i < |s.phases| && Settled(s.phases[i]);
      assert ReplayOf(hashes, s', i, r);
    }
  }

  lemma StepKeepsTheRowHeld(hashes: seq<string>, s: State, step: Step, s': State)
    requires Safe(hashes, s) && Next(hashes, s, step, s') && Orderly(s, step)
    ensures Exclusive(s') && OneSettled(s') && RowIsHeld(hashes, s')
  {
    hide ReplaysAreReal, Exclusive, OneSettled, RowIsHeld;
    var r := step.r;
    if step.Finish? {
      assert s.phases[r].Running?;
      FinishKeepsTheRowHeld(hashes, s, step, s');
    } else {
      OtherStepKeepsTheRowHeld(hashes, s, step, s');
    }
  }

  lemma OtherStepKeepsTheRowHeld(hashes: seq<string>, s: State, step: Step, s': State)
    requires |s.phases| == |hashes| && Exclusive(s) && OneSettled(s) && RowIsHeld(hashes, s)
    requires Next(hashes, s, step, s') && Orderly(s, step) && !step.Finish?
    ensures Exclusive(s') && OneSettled(s') && RowIsHeld(hashes, s')
  {
    hide Stored;
    var r := step.r;
    assert s'.phases == s.phases[r := s'.phases[r]] && !Settled(s.phases[r]) && !Settled(s'.phases[r]);
    assert s'.phases[r].Running? ==> s.row.None? && s'.row.Some?;
    if s'.row.Some? && s'.row.value.complete {
      var i :| 0 <= i < |s.phases| && Settled(s.phases[i]);
      assert Settled(s'.phases[i]);
    }
  }

  lemma FinishKeepsTheRowHeld(hashes: seq<string>, s: State, step: Step, s': State)
    requires |s.phases| == |hashes| && Exclusive(s) && RowIsHeld(hashes, s)
    requires Next(hashes, s, step, s') && step.Finish?
    ensures Exclusive(s') && OneSettled(s') && RowIsHeld(hashes, s')
  {
    hide Stored;
    var r := step.r;
    assert forall i :: 0 <= i < |hashes| ==> !s'.phases[i].Running?;
    assert forall i :: 0 <= i < |hashes| && i != r ==> !Settled(s'.phases[i]);
    assert Kept(step.status) ==> Settled(s'.phases[r]);
  }

  lemma StepKeepsSafe(hashes: seq<string>, s: State, step: Step, s': State)
    requires Safe(hashes, s) && Next(hashes, s, step, s') && Orderly(s, step)
    ensures Safe(hashes, s')
  {
    hide RowIsHeld, ReplaysAreReal, Exclusive, OneSettled;
    StepKeepsReplays(hashes, s, step, s');
    StepKeepsTheRowHeld(hashes, s, step, s');
  }

  lemma {:induction false} RunIsSafe(hashes: seq<string>, states: seq<State>, steps: seq<Step>, n: nat)
    requires Run(hashes, states, steps) && n < |states|
    requires forall i :: 0 <= i < n ==> Orderly(states[i], steps[i])
    ensures Safe(hashes, states[n])
  {
    hide Safe, Next;
    if n > 0 {
      RunIsSafe(hashes, states, steps, n - 1);
      assert Next(hashes, states[n - 1], steps[n - 1], states[n]);
      StepKeepsSafe(hashes, states[n - 1], steps[n - 1], states[n]);
    } else {
      NothingYetIsSafe(hashes);
    }
  }

  lemma NothingYetIsSafe(hashes: seq<string>)
    ensures Safe(hashes, State(None, seq(|hashes|, i => Arriving)))
  {}

  /**
   In an orderly run at most one handler is in flight at a time, at most one execution ends
   with a kept response, and every replay is of that execution, for a body of the same hash:
   its status, and its body exactly when it fits the store.
   */
  lemma RepliesComeFromOneExecution(hashes: seq<string>, states: seq<State>, steps: seq<Step>, n: nat, j: nat)
    requires Run(hashes, states, steps) && n < |states| && j < |hashes|
    requires forall i :: 0 <= i < n ==> Orderly(states[i], steps[i])
    ensures |states[n].phases| == |hashes| && Exclusive(states[n]) && OneSettled(states[n])
    ensures IsReplay(states[n].phases[j]) ==>
              exists i :: 0 <= i < |hashes| && Settled(states[n].phases[i]) && hashes[i] == hashes[j]
                && states[n].phases[j].reply.status == states[n].phases[i].status
                && (states[n].phases[j].reply.body == states[n].phases[i].body <==> |states[n].phases[i].body| <= MAX_STORED)
  {
    RunIsSafe(hashes, states, steps, n);
    if IsReplay(states[n].phases[j]) {
      var i :| 0 <= i < |hashes| && ReplayOf(hashes, states[n], i, j);
      assert Settled(states[n].phases[i]);
    }
  }

  // ---- Where it fails ----

  /** Two handlers come to be in flight exactly by a claim, of a slot with no row, beside a handler in flight. */
  lemma ExclusionEndsExactly(hashes: seq<string>, s: State, step: Step, s': State)
    requires |s.phases| == |hashes| && Next(hashes, s, step, s') && Exclusive(s)
    ensures !Exclusive(s') <==>
      (step.Insert? || step.Select?) && s.row.None? && exists i :: 0 <= i < |s.phases| && s.phases[i].Running?
  {
    if (step.Insert? || step.Select?) && s.row.None? && exists i :: 0 <= i < |s.phases| && s.phases[i].Running? {
      var i :| 0 <= i < |s.phases| && s.phases[i].Running?;
      assert s'.phases[i].Running? && s'.phases[step.r].Running? && i != step.r;
    }
  }

  /** A second execution comes to be kept exactly by a handler that ends with a response to be kept after another has. */
  lemma OneSettledEndsExactly(hashes: seq<string>, s: State, step: Step, s': State)
    requires |s.phases| == |hashes| && Next(hashes, s, step, s') && OneSettled(s)
    ensures !OneSettled(s') <==> step.Finish? && Kept(step.status) && exists i :: 0 <= i < |s.phases| && Settled(s.phases[i])
  {
    if step.Finish? && Kept(step.status) && exists i :: 0 <= i < |s.phases| && Settled(s.phases[i]) {
      var i :| 0 <= i < |s.phases| && Settled(s.phases[i]);
      assert Settled(s'.phases[i]) && Settled(s'.phases[step.r]) && i != step.r;
    }
  }

  /** After a claim on a vanished row, the next request to arrive is let in beside the first. */
  lemma VanishedRowLetsTheNextIn(hashes: seq<string>, s: State, r: nat, s': State, next: nat, now: int)
    requires |s.phases| == |hashes| && Next(hashes, s, Select(r), s') && !Orderly(s, Select(r))
    requires next < |hashes| && s'.phases[next].Arriving?
    ensures Next(hashes, s', Insert(next, now), InsertStep(hashes, s', next, now))
    ensures !Exclusive(InsertStep(hashes, s', next, now))
  {
    var t := InsertStep(hashes, s', next, now);
    assert t.phases[r].Running? && t.phases[next].Running?;
  }

  /** From every claim on a vanished row, with a request still to arrive or to read back, the run can go on to two kept executions. */
  lemma VanishedRowAdmitsTwoExecutions(hashes: seq<string>, s: State, r: nat, s': State, next: nat, now: int)
    returns (states: seq<State>, steps: seq<Step>)
    requires |s.phases| == |hashes| && Next(hashes, s, Select(r), s') && !Orderly(s, Select(r))
    requires next < |hashes| && (s'.phases[next].Arriving? || s'.phases[next].Conflicting?)
    ensures GoesOn(hashes, s', states, steps) && |steps| == 3 && !OneSettled(states[3])
  {
    var enter := if s'.phases[next].Arriving? then Insert(next, now) else Select(next);
    var t1 := if enter.Insert? then InsertStep(hashes, s', next, now) else SelectStep(hashes, s', next);
    var t2 := State(Finished(t1.row, 200, ""), t1.phases[r := Executed(200, "")]);
    var t3 := State(Finished(t2.row, 200, ""), t2.phases[next := Executed(200, "")]);
    states, steps := [s', t1, t2, t3], [enter, Finish(r, 200, "", true), Finish(next, 200, "", true)];
    assert Next(hashes, s', enter, t1) && Next(hashes, t1, steps[1], t2) && Next(hashes, t2, steps[2], t3);
    assert Settled(t3.phases[r]) && Settled(t3.phases[next]);
  }

  /** Steps from `s` on within the lifetime of a row. */
  ghost predicate GoesOn(hashes: seq<string>, s: State, states: seq<State>, steps: seq<Step>) {
    && |states| == |steps| + 1 && states[0] == s
    && forall i :: 0 <= i < |steps| ==> !steps[i].Expire? && Next(hashes, states[i], steps[i], states[i + 1])
  }

  /** Apart from request `r` everything is over, and nothing is kept. */
  predicate OnlyIsLeft(s: State, r: nat) {
    forall i :: 0 <= i < |s.phases| && i != r ==> !Settled(s.phases[i]) && (s.phases[i].Executed? || s.phases[i].Answered?)
  }

  lemma {:induction false} OnlyOneIsLeft(hashes: seq<string>, s: State, r: nat, states: seq<State>, steps: seq<Step>, n: nat)
    requires GoesOn(hashes, s, states, steps) && n < |states| && OnlyIsLeft(s, r)
    ensures OnlyIsLeft(states[n], r)
  {
    if n > 0 {
      OnlyOneIsLeft(hashes, s, r, states, steps, n - 1);
      assert Next(hashes, states[n - 1], steps[n - 1], states[n]);
    }
  }

  /**
   After orderly steps a request claims the slot because its row has vanished: from there on
   no two executions can be kept if and only if no other request is still to arrive or to
   read the row back.
   */
  lemma VanishedRowIsHarmlessExactly(hashes: seq<string>, s: State, r: nat, s': State)
    requires Safe(hashes, s) && Next(hashes, s, Select(r), s') && !Orderly(s, Select(r))
    ensures (forall states: seq<State>, steps: seq<Step> :: GoesOn(hashes, s', states, steps) ==> OneSettled(states[|steps|]))
            <==> (forall q :: 0 <= q < |hashes| && q != r ==> !s.phases[q].Arriving? && !s.phases[q].Conflicting?)
  {
    if q: nat :| q < |hashes| && q != r && (s.phases[q].Arriving? || s.phases[q].Conflicting?) {
      var states, steps := VanishedRowAdmitsTwoExecutions(hashes, s, r, s', q, 0);
    } else {
      assert OnlyIsLeft(s', r);
      hide Next, Safe;
      forall states: seq<State>, steps: seq<Step> | GoesOn(hashes, s', states, steps)
        ensures OneSettled(states[|steps|])
      {
        OnlyOneIsLeft(hashes, s', r, states, steps, |steps|);
      }
    }
  }

  function BadRow(h: string): Row { Row(h, 0, "", false, LIFETIME) }

  function BadStates(h: string): seq<State> {
    var done := Some(Row(h, 200, "", true, LIFETIME));
    [State(None, [Arriving, Arriving, Arriving]),
     State(Some(BadRow(h)), [Running, Arriving, Arriving]),
     State(Some(BadRow(h)), [Running, Conflicting, Arriving]),
     State(None, [Executed(500, ""), Conflicting, Arriving]),
     State(None, [Executed(500, ""), Running, Arriving]),
     State(Some(BadRow(h)), [Executed(500, ""), Running, Running]),
     State(done, [Executed(500, ""), Executed(200, ""), Running]),
     State(done, [Executed(500, ""), Executed(200, ""), Executed(200, "")])]
  }

  const BAD_STEPS: seq<Step> :=
    [Insert(0, 0), Insert(1, 0), Finish(0, 500, "", true), Select(1), Insert(2, 0), Finish(1, 200, "", true), Finish(2, 200, "", true)]

  lemma BadStep(h: string, i: nat)
    requires i < 7
    ensures Next([h, h, h], BadStates(h)[i], BAD_STEPS[i], BadStates(h)[i + 1])
  {}

  /** Within the lifetime of a row: after a server error, two of three requests run to a kept response. */
  lemma TwoExecutionsAfterAnError(h: string)
    ensures exists states: seq<State>, steps: seq<Step> ::
      && Run([h, h, h], states, steps) && (forall i :: 0 <= i < |steps| ==> !steps[i].Expire?)
      && !OneSettled(states[|steps|])
  {
    hide Next;
    var states := BadStates(h);
    assert seq(3, i => Arriving) == [Arriving, Arriving, Arriving];
    forall i | 0 <= i < 7
      ensures Next([h, h, h], states[i], BAD_STEPS[i], states[i + 1])
    {
      BadStep(h, i);
    }
    assert Run([h, h, h], states, BAD_STEPS);
    assert Settled(states[7].phases[1]) && Settled(states[7].phases[2]);
  }
}
