/** Pending executions, the operations on them, and the service as a machine of
    steps. Clock readings and new ids are inputs of a step. */
module Approval {
  import opened Text

  datatype Classification = Metadata | Read | Write | Destructive | Admin | AdminSafe | AdminDestructive

  /** `payload` is the JSON text of the call. */
  datatype Plan = Plan(connectionId: string, actorId: string, toolId: string, classification: Classification, payload: string)

  datatype Status = Pending | Approved | Rejected | Consumed

  type Id = nat

  datatype Execution = Execution(id: Id, status: Status, plan: Plan, createdAt: int, expiresAt: Option<int>, reason: Option<string>)

  type Entries = seq<Execution>

  // ---------------------------------------------------------------------
  // The store
  // ---------------------------------------------------------------------

  predicate Unexpired(e: Execution, now: int) {
    e.expiresAt.Some? ==> e.expiresAt.value > now
  }

  /** `approval_matches_plan`: everything but the classification. */
  predicate Authorizes(approved: Plan, plan: Plan) {
    approved.(classification := plan.classification) == plan
  }

  predicate IsOpen(e: Execution, now: int) {
    e.status == Pending && Unexpired(e, now)
  }

  predicate Usable(e: Execution, plan: Plan, now: int) {
    e.status == Approved && Unexpired(e, now) && Authorizes(e.plan, plan)
  }

  predicate Finished(e: Execution) {
    e.status == Rejected || e.status == Consumed
  }

  /** The first entry with the id, or the number of entries. */
  function IdIndex(es: Entries, id: Id): (i: nat)
    ensures i <= |es| && (i < |es| ==> es[i].id == id)
  {
    if es == [] || es[0].id == id then 0 else 1 + IdIndex(es[1..], id)
  }

  /** `get_pending`. */
  function OpenIndex(es: Entries, id: Id, now: int): (i: nat)
    ensures i <= |es| && (i < |es| ==> es[i].id == id && IsOpen(es[i], now))
  {
    if es == [] || (es[0].id == id && IsOpen(es[0], now)) then 0 else 1 + OpenIndex(es[1..], id, now)
  }

  /** The usable entry that was created first; the one stored first among equals. */
  function OldestIndex(es: Entries, plan: Plan, now: int): (i: nat)
    ensures i <= |es| && (i < |es| ==> Usable(es[i], plan, now))
  {
    if es == [] then 0 else
      var i := OldestIndex(es[1..], plan, now);
      if Usable(es[0], plan, now) && (i == |es| - 1 || es[0].createdAt <= es[1 + i].createdAt) then 0 else 1 + i
  }

  /** `list_pending`. */
  function OpenEntries(es: Entries, now: int): Entries {
    if es == [] then [] else (if IsOpen(es[0], now) then [es[0]] else []) + OpenEntries(es[1..], now)
  }

  predicate Purges(e: Execution, nowMs: int) {
    Finished(e) || !Unexpired(e, nowMs)
  }

  /** `purge_terminal_and_expired`. */
  function Purged(es: Entries, nowMs: int): (kept: Entries)
    ensures |kept| <= |es|
  {
    if es == [] then [] else (if Purges(es[0], nowMs) then [] else [es[0]]) + Purged(es[1..], nowMs)
  }

  const MAX_REJECTION_REASON_CHARS: nat := 500

  /** `normalize_rejection_reason`. */
  function NormalizeReason(reason: Option<string>): Option<string> {
    if reason.None? || Trim(reason.value) == "" then None else
      var t := Trim(reason.value);
      Some(TrimEnd(if |t| <= MAX_REJECTION_REASON_CHARS then t else t[..MAX_REJECTION_REASON_CHARS]))
  }

  /** A kept reason starts what was typed, is never blank, never long, and is not
      changed by normalizing it again. A short one is kept whole, and of a long one
      the first 500 characters but for whitespace at their end. */
  lemma {:induction false} NormalizedReason(reason: Option<string>)
    ensures var r := NormalizeReason(reason);
            && (r.None? <==> reason.None? || Trim(reason.value) == "")
            && (r.Some? ==> r.value != "" && |r.value| <= MAX_REJECTION_REASON_CHARS && Trimmed(r.value) && r.value <= Trim(reason.value))
            && NormalizeReason(r) == r
            && (r.Some? ==>
                  var t := Trim(reason.value);
                  && (|t| <= MAX_REJECTION_REASON_CHARS ==> r.value == t)
                  && (|t| > MAX_REJECTION_REASON_CHARS ==> AllWhitespace(t[|r.value|..MAX_REJECTION_REASON_CHARS])))
  {
    var r := NormalizeReason(reason);
    if r.Some? {
      var t := Trim(reason.value);
      TrimTrimmed(reason.value);
      var cut := if |t| <= MAX_REJECTION_REASON_CHARS then t else t[..MAX_REJECTION_REASON_CHARS];
      var b := TrimEndSplit(cut);
      assert cut[0] == t[0];
      assert r.value == cut[..|r.value|];
      assert b == cut[|r.value|..];
      if |t| <= MAX_REJECTION_REASON_CHARS { TrimEndOfTrimmed(t); }
      TrimOfTrimmed(r.value);
      TrimEndOfTrimmed(r.value);
    }
  }

  lemma {:induction false} TrimEndOfTrimmed(s: string)
    requires Trimmed(s)
    ensures TrimEnd(s) == s
  {
  }

  // ---------------------------------------------------------------------
  // The service, step by step
  // ---------------------------------------------------------------------

  datatype Op =
    | SetTtl(ttlMs: int)
    | Request(plan: Plan, id: Id, now: int, created: int)
    | List(now: int)
    | Get(id: Id)
    | Approve(id: Id, now: int)
    | Reject(id: Id, reason: Option<string>, now: int)
    | Consume(plan: Plan, now: int)
    | Purge(nowMs: int)

  /** `None` is the error that no such execution is pending. */
  datatype Outcome =
    | Done
    | Requested(execution: Execution)
    | Listed(executions: Entries)
    | Got(found: Option<Execution>)
    | Decided(execution': Option<Execution>, replay: Option<Plan>)
    | Used(used: Option<Execution>)
    | Removed(count: nat)

  datatype Service = Service(entries: Entries, ttlMs: int)

  /** The entry a decision finds pending, changed in the place its id leads to. */
  function Decide(es: Entries, id: Id, now: int, status: Status, reason: Option<string>): (Entries,
          Option<Execution>, Option<Plan>) {
    var i := OpenIndex(es, id, now);
    if i == |es| then (es, None, None) else
      var j := IdIndex(es, id);
      if j == |es| then (es, None, None) else
        var e := es[j].(status := status, reason := if status == Rejected then reason else es[j].reason);
        (es[j := e], Some(e), Some(es[i].plan))
  }

  function Use(es: Entries, plan: Plan, now: int): (Entries, Option<Execution>) {
    var i := OldestIndex(es, plan, now);
    if i == |es| then (es, None) else
      var e := es[i].(status := Consumed);
      (es[i := e], Some(e))
  }

  function NewExecution(s: Service, plan: Plan, id: Id, now: int, created: int): Execution {
    Execution(id, Pending, plan, created, Some(now + s.ttlMs), None)
  }

  function Step(s: Service, op: Op): (Service, Outcome) {
    match op
    case SetTtl(ttlMs) => (s.(ttlMs := ttlMs), Done)
    case Request(plan, id, now, created) =>
      var e := NewExecution(s, plan, id, now, created);
      (s.(entries := s.entries + [e]), Requested(e))
    case List(now) => (s, Listed(OpenEntries(s.entries, now)))
    case Get(id) => (s, Got(if IdIndex(s.entries, id) < |s.entries| then Some(s.entries[IdIndex(s.entries, id)]) else None))
    case Approve(id, now) =>
      var (es, e, plan) := Decide(s.entries, id, now, Approved, None);
      (s.(entries := es), Decided(e, plan))
    case Reject(id, reason, now) =>
      var (es, e, _) := Decide(s.entries, id, now, Rejected, NormalizeReason(reason));
      (s.(entries := es), Decided(e, None))
    case Consume(plan, now) =>
      var (es, e) := Use(s.entries, plan, now);
      (s.(entries := es), Used(e))
    case Purge(nowMs) =>
      (s.(entries := Purged(s.entries, nowMs)), Removed(|s.entries| - |Purged(s.entries, nowMs)|))
  }

  // ---------------------------------------------------------------------
  // Whole runs
  // ---------------------------------------------------------------------

  /** The clock after an operation: an operation reads it at or after `clock`. A
      purge is given its time by the caller. */
  function Clock(op: Op, clock: int): int {
    match op
    case Request(_, _, _, created) => created
    case List(now) => now
    case Approve(_, now) => now
    case Reject(_, _, now) => now
    case Consume(_, now) => now
    case _ => clock
  }

  /** The clock does not go back and a request gets an id never used before. In a
      `punctual` run no purge looks ahead of the clock. */
  ghost predicate Timed(op: Op, clock: int, ids: set<Id>, punctual: bool) {
    && Clock(op, clock) >= clock
    && (op.Request? ==> clock <= op.now <= op.created && op.id !in ids)
    && (punctual && op.Purge? ==> op.nowMs <= clock)
  }

  function IdsAfter(op: Op, ids: set<Id>): set<Id> {
    if op.Request? then ids + {op.id} else ids
  }

  ghost predicate TimedRun(ops: seq<Op>, clock: int, ids: set<Id>, punctual: bool) {
    ops == []
    || (Timed(ops[0], clock, ids, punctual) && TimedRun(ops[1..], Clock(ops[0], clock), IdsAfter(ops[0], ids), punctual))
  }

  function Outcomes(s: Service, ops: seq<Op>): (outs: seq<Outcome>)
    ensures |outs| == |ops|
    decreases |ops|
  {
    if ops == [] then [] else
      var (t, out) := Step(s, ops[0]);
      [out] + Outcomes(t, ops[1..])
  }

  predicate UniqueIds(es: Entries) {
    forall i, j | 0 <= i < j < |es| :: es[i].id != es[j].id
  }

  /** With unique ids the entry found pending is the entry its id leads to. */
  lemma {:induction false} OpenIsFirst(es: Entries, id: Id, now: int)
    requires UniqueIds(es)
    ensures OpenIndex(es, id, now) < |es| ==> IdIndex(es, id) == OpenIndex(es, id, now)
  {
    if es != [] && es[0].id != id {
      OpenIsFirst(es[1..], id, now);
    }
  }

  lemma {:induction false} NothingOpen(id: Id, now: int)
    ensures OpenIndex([], id, now) == 0
  {
  }

  lemma {:induction false} NothingUsable(plan: Plan, now: int)
    ensures OldestIndex([], plan, now) == 0
  {
  }
}
