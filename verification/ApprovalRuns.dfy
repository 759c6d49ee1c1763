/** What holds over every run of the approval service: the service answers as a
    log of requests, approvals, rejections and uses would. */
module ApprovalRuns {
  import opened Text
  import opened Approval
  import opened ApprovalPurge

  // ---------------------------------------------------------------------
  // Status edges
  // ---------------------------------------------------------------------

  predicate Edge(from: Status, to: Status) {
    || from == to
    || (from == Pending && (to == Approved || to == Rejected))
    || (from == Approved && to == Consumed)
  }

  /** `e` later: the same request, perhaps one step further. */
  predicate Evolves(e: Execution, later: Execution) {
    && Edge(e.status, later.status)
    && later == e.(status := later.status, reason := later.reason)
    && (later.reason != e.reason ==> later.status == Rejected && e.status == Pending)
  }

  /** Every stored execution was stored before and moved along an edge, or is the
      new request. Its plan, times and id never change. */
  lemma {:induction false} StepEvolves(s: Service, op: Op, i: nat)
    requires UniqueIds(s.entries) && i < |Step(s, op).0.entries|
    ensures var e := Step(s, op).0.entries[i];
            || (op.Request? && e == NewExecution(s, op.plan, op.id, op.now, op.created))
            || exists k | 0 <= k < |s.entries| :: Evolves(s.entries[k], e)
  {
    hide OldestIndex, OpenIndex, IdIndex, OpenEntries, NormalizeReason, UniqueIds;
    var es, e := s.entries, Step(s, op).0.entries[i];
    match op {
      case Approve(id, now) =>
        OpenIsFirst(es, id, now);
        assert Evolves(es[i], e);
      case Reject(id, _, now) =>
        OpenIsFirst(es, id, now);
        assert Evolves(es[i], e);
      case Purge(nowMs) =>
        PurgedKeeps(es, nowMs);
        assert e in Purged(es, nowMs);
        var k :| 0 <= k < |es| && es[k] == e;
        assert Evolves(es[k], e);
      case Request(_, _, _, _) =>
        if i < |es| { assert Evolves(es[i], e); }
      case _ =>
        assert Evolves(es[i], e);
    }
  }

  // ---------------------------------------------------------------------
  // The log
  // ---------------------------------------------------------------------

  /** What has been asked and answered: the requests as they were made, and what
      became of them. */
  datatype Log = Log(requests: map<Id, Execution>, approved: set<Id>, rejected: map<Id, Option<string>>, consumed: set<Id>)

  function StatusOf(log: Log, id: Id): Status {
    if id in log.consumed then Consumed
    else if id in log.approved then Approved
    else if id in log.rejected then Rejected
    else Pending
  }

  /** The execution as the log knows it. */
  function Current(log: Log, id: Id): Execution
    requires id in log.requests
  {
    log.requests[id].(status := StatusOf(log, id), reason := if id in log.rejected then log.rejected[id] else None)
  }

  /** The log after an answer. */
  function Recorded(log: Log, out: Outcome): Log {
    match out
    case Requested(e) => log.(requests := log.requests[e.id := e])
    case Decided(Some(e), _) =>
      if e.status == Approved then log.(approved := log.approved + {e.id})
      else log.(rejected := log.rejected[e.id := e.reason])
    case Used(Some(e)) => log.(consumed := log.consumed + {e.id})
    case _ => log
  }

  ghost predicate LogValid(log: Log, clock: int) {
    && log.consumed <= log.approved <= log.requests.Keys
    && log.rejected.Keys <= log.requests.Keys && log.approved !! log.rejected.Keys
    && forall id | id in log.requests ::
         log.requests[id].id == id && log.requests[id].status == Pending && log.requests[id].reason == None
         && log.requests[id].createdAt <= clock
  }

  /** The request still waits for a decision at `now`. */
  predicate Waits(log: Log, id: Id, now: int) {
    id in log.requests && IsOpen(Current(log, id), now)
  }

  /** The approval of `id` may still be used for `plan` at `now`. */
  predicate Grants(log: Log, id: Id, plan: Plan, now: int) {
    id in log.requests && Usable(Current(log, id), plan, now)
  }

  /** The answers the log admits.
      A use takes the approval of a request with the same actor, connection, tool
      and payload that was not used before and has not expired. A decision finds a
      waiting request. A list holds waiting requests, oldest first.
      In a punctual run nothing that waits or may be used is missed: a use takes
      the oldest such approval and finds none only if there is none, a decision on
      a waiting request succeeds, and a list holds all of them. */
  ghost predicate Admits(log: Log, op: Op, out: Outcome, punctual: bool) {
    match op
    case Request(plan, id, now, created) =>
      out.Requested? && out.execution.id == id && id !in log.requests && out.execution.plan == plan && out.execution.status == Pending
    case List(now) =>
      && out.Listed?
      && (forall e | e in out.executions :: Waits(log, e.id, now) && e == Current(log, e.id))
      && (punctual ==> forall id | Waits(log, id, now) :: Current(log, id) in out.executions)
      && InOrder(out.executions)
    case Approve(id, now) =>
      && out.Decided? && (out.execution'.Some? ==> Waits(log, id, now)) && (punctual && Waits(log, id, now) ==> out.execution'.Some?)
      && (out.execution'.Some? ==>
            out.execution'.value.id == id && out.execution' == Some(log.requests[id].(status := Approved)) && out.replay == Some(log.requests[id].plan))
    case Reject(id, reason, now) =>
      && out.Decided? && (out.execution'.Some? ==> Waits(log, id, now)) && (punctual && Waits(log, id, now) ==> out.execution'.Some?)
      && (out.execution'.Some? ==>
            out.execution'.value.id == id && out.execution' == Some(log.requests[id].(status := Rejected, reason := NormalizeReason(reason))))
    case Consume(plan, now) =>
      && out.Used?
      && (punctual && out.used.None? ==> forall id :: !Grants(log, id, plan, now))
      && (out.used.Some? ==>
            var e := out.used.value;
            && Grants(log, e.id, plan, now) && e == log.requests[e.id].(status := Consumed)
            && (punctual ==> forall id | Grants(log, id, plan, now) :: e.createdAt <= log.requests[id].createdAt))
    case _ => true
  }

  /** Distinct executions, in the order of their creation. */
  ghost predicate InOrder(es: Entries) {
    forall i, j | 0 <= i < j < |es| :: es[i].id != es[j].id && es[i].createdAt <= es[j].createdAt
  }

  ghost predicate AdmitsRun(log: Log, ops: seq<Op>, outs: seq<Outcome>, punctual: bool)
    decreases |ops|
  {
    |ops| == |outs| && (ops != [] ==>
      && Admits(log, ops[0], outs[0], punctual)
      && AdmitsRun(Recorded(log, outs[0]), ops[1..], outs[1..], punctual))
  }

  // ---------------------------------------------------------------------
  // Store and log
  // ---------------------------------------------------------------------

  /** The store holds what the log knows, in the order of creation; in a punctual run
      what it no longer holds is finished or expired. */
  ghost predicate Agrees(es: Entries, log: Log, clock: int, punctual: bool) {
    && LogValid(log, clock) && UniqueIds(es) && InOrder(es)
    && (forall i | 0 <= i < |es| :: es[i].id in log.requests && es[i] == Current(log, es[i].id))
    && (punctual ==> forall id | id in log.requests && IsLive(Current(log, id), clock) :: Current(log, id) in es)
  }

  lemma {:induction false} AgreesLater(es: Entries, log: Log, clock: int, later: int, punctual: bool)
    requires Agrees(es, log, clock, punctual) && clock <= later
    ensures Agrees(es, log, later, punctual)
  {
    hide Current;
  }

  /** The list is the open part of the store, in its order. */
  lemma {:induction false} OpenEntriesAre(es: Entries, now: int)
    ensures forall e :: e in OpenEntries(es, now) <==> e in es && IsOpen(e, now)
  {
    hide IsOpen;
    if es != [] {
      OpenEntriesAre(es[1..], now);
      assert forall e :: e in es <==> e == es[0] || e in es[1..];
      var head, rest := if IsOpen(es[0], now) then [es[0]] else [], OpenEntries(es[1..], now);
      assert forall e :: e in head + rest <==> e in head || e in rest;
    }
  }

  lemma {:induction false} InOrderNone()
    ensures InOrder([])
  {
  }

  lemma {:induction false} InOrderCons(e: Execution, es: Entries)
    requires InOrder(es) && forall x | x in es :: e.id != x.id && e.createdAt <= x.createdAt
    ensures InOrder([e] + es)
  {
    forall i, j | 0 <= i < j < |[e] + es|
      ensures ([e] + es)[i].id != ([e] + es)[j].id && ([e] + es)[i].createdAt <= ([e] + es)[j].createdAt
    {
      assert es[j - 1] in es;
    }
  }

  lemma {:induction false} OpenEntriesInOrder(es: Entries, now: int)
    requires InOrder(es)
    ensures InOrder(OpenEntries(es, now))
  {
    hide IsOpen, InOrder;
    if es == [] {
      InOrderNone();
    } else {
      HeadFirst(es);
      OpenEntriesInOrder(es[1..], now);
      OpenEntriesAre(es[1..], now);
      var rest := OpenEntries(es[1..], now);
      InOrderCons(es[0], rest);
      assert [] + rest == rest;
    }
  }

  lemma {:induction false} HeadFirst(es: Entries)
    requires InOrder(es) && es != []
    ensures InOrder(es[1..]) && forall x | x in es[1..] :: es[0].id != x.id && es[0].createdAt <= x.createdAt
  {
    forall x | x in es[1..] ensures es[0].id != x.id && es[0].createdAt <= x.createdAt {
      var k :| 0 <= k < |es[1..]| && es[1..][k] == x;
      assert es[k + 1] == x;
    }
    forall i, j | 0 <= i < j < |es[1..]|
      ensures es[1..][i].id != es[1..][j].id && es[1..][i].createdAt <= es[1..][j].createdAt
    {
      assert es[1..][i] == es[i + 1] && es[1..][j] == es[j + 1];
    }
  }

  lemma {:induction false} OpenIndexFinds(es: Entries, id: Id, now: int)
    ensures (OpenIndex(es, id, now) < |es|) <==> exists e | e in es :: e.id == id && IsOpen(e, now)
  {
    hide IsOpen;
    if OpenIndex(es, id, now) < |es| {
      assert es[OpenIndex(es, id, now)] in es;
    } else if es != [] {
      OpenIndexFinds(es[1..], id, now);
      assert forall e :: e in es <==> e == es[0] || e in es[1..];
    }
  }

  /** The approval used is the oldest usable one, the one stored first among equals;
      there is none only if no entry is usable. */
  lemma {:induction false} OldestIsOldest(es: Entries, plan: Plan, now: int)
    ensures var i := OldestIndex(es, plan, now);
            && (forall e | e in es && Usable(e, plan, now) :: i < |es| && es[i].createdAt <= e.createdAt)
            && (forall k | 0 <= k < i && i < |es| && Usable(es[k], plan, now) :: es[i].createdAt < es[k].createdAt)
  {
    hide Usable;
    if es != [] {
      OldestIsOldest(es[1..], plan, now);
      assert forall e :: e in es <==> e == es[0] || e in es[1..];
    }
  }

  /** Deciding or using one entry moves one id of the log. */
  ghost predicate Moves(log: Log, log': Log, id: Id) {
    && log'.requests == log.requests
    && forall other | other in log.requests && other != id :: Current(log', other) == Current(log, other)
  }

  lemma {:induction false} AgreesMoved(es: Entries, log: Log, clock: int, i: nat, log': Log, punctual: bool)
    requires Agrees(es, log, clock, punctual) && i < |es| && LogValid(log', clock) && Moves(log, log', es[i].id)
    ensures Agrees(es[i := Current(log', es[i].id)], log', clock, punctual)
  {
    hide StatusOf, IsLive;
    var e, es' := Current(log', es[i].id), es[i := Current(log', es[i].id)];
    assert e.id == es[i].id && e.createdAt == es[i].createdAt by {
      assert es[i] == Current(log, es[i].id);
    }
    forall id | punctual && id in log'.requests && IsLive(Current(log', id), clock) ensures Current(log', id) in es' {
      if id == es[i].id {
        assert es'[i] == e;
      } else {
        var k :| 0 <= k < |es| && es[k] == Current(log, id);
        assert es'[k] == es[k];
      }
    }
  }

  lemma {:induction false} DecideAdmits(es: Entries, log: Log, id: Id, now: int, status: Status,
          reason: Option<string>, punctual: bool)
    requires Agrees(es, log, now, punctual) && (status == Approved || status == Rejected)
    ensures var (es', e, plan) := Decide(es, id, now, status, reason);
            && (e.Some? ==> Waits(log, id, now)) && (punctual && Waits(log, id, now) ==> e.Some?)
            && (e.Some? ==> e.value.id == id && e == Some(log.requests[id].(status := status, reason := if status == Rejected then reason else None))
                            && plan == Some(log.requests[id].plan))
            && Agrees(es', Recorded(log, Decided(e, plan)), now, punctual)
  {
    hide OpenIndex, IdIndex, UniqueIds, Moves;
    OpenIsFirst(es, id, now);
    OpenIndexFinds(es, id, now);
    WaitsInStore(es, log, id, now, punctual);
    var i := OpenIndex(es, id, now);
    if i < |es| {
      assert es[i] in es && es[i] == Current(log, id);
      var log' := if status == Approved then log.(approved := log.approved + {id}) else log.(rejected := log.rejected[id := reason]);
      DecidedMoves(log, id, now, status, reason);
      AgreesMoved(es, log, now, i, log', punctual);
    }
  }

  lemma {:induction false} DecidedMoves(log: Log, id: Id, now: int, status: Status, reason: Option<string>)
    requires LogValid(log, now) && Waits(log, id, now) && (status == Approved || status == Rejected)
    ensures var log' := if status == Approved then log.(approved := log.approved + {id}) else log.(rejected := log.rejected[id := reason]);
            && LogValid(log', now) && Moves(log, log', id)
            && Current(log', id) == log.requests[id].(status := status, reason := if status == Rejected then reason else None)
  {
  }

  lemma {:induction false} WaitsInStore(es: Entries, log: Log, id: Id, now: int, punctual: bool)
    requires Agrees(es, log, now, punctual)
    ensures (exists e | e in es :: e.id == id && IsOpen(e, now)) ==> Waits(log, id, now)
    ensures punctual && Waits(log, id, now) ==> Current(log, id) in es && Current(log, id).id == id
  {
    hide StatusOf;
    if e :| e in es && e.id == id && IsOpen(e, now) {
      var k :| 0 <= k < |es| && es[k] == e;
      assert es[k] == Current(log, id);
    }
  }

  lemma {:induction false} GrantsInStore(es: Entries, log: Log, id: Id, plan: Plan, now: int, punctual: bool)
    requires Agrees(es, log, now, punctual) && punctual && Grants(log, id, plan, now)
    ensures Current(log, id) in es && Current(log, id).createdAt == log.requests[id].createdAt
  {
    hide StatusOf;
  }

  lemma {:induction false} UseAdmits(es: Entries, log: Log, plan: Plan, now: int, punctual: bool)
    requires Agrees(es, log, now, punctual)
    ensures var (es', e) := Use(es, plan, now);
            && Admits(log, Consume(plan, now), Used(e), punctual)
            && Agrees(es', Recorded(log, Used(e)), now, punctual)
  {
    hide OldestIndex, UniqueIds, Moves, Authorizes, Agrees, Grants;
    var i := OldestIndex(es, plan, now);
    OldestIsOldest(es, plan, now);
    forall id | punctual && Grants(log, id, plan, now)
      ensures id in log.requests && i < |es| && es[i].createdAt <= log.requests[id].createdAt
    {
      GrantsInStore(es, log, id, plan, now, punctual);
      GrantsUsable(log, id, plan, now);
      assert Usable(Current(log, id), plan, now);
    }
    if i < |es| {
      UsedMoves(es, log, i, plan, now, punctual);
      AgreesMoved(es, log, now, i, log.(consumed := log.consumed + {es[i].id}), punctual);
    }
  }

  lemma {:induction false} GrantsUsable(log: Log, id: Id, plan: Plan, now: int)
    requires Grants(log, id, plan, now)
    ensures id in log.requests && Usable(Current(log, id), plan, now)
  {
  }

  lemma {:induction false} UsedMoves(es: Entries, log: Log, i: nat, plan: Plan, now: int, punctual: bool)
    requires Agrees(es, log, now, punctual) && i < |es| && Usable(es[i], plan, now)
    ensures var id, log' := es[i].id, log.(consumed := log.consumed + {es[i].id});
            && Grants(log, id, plan, now) && LogValid(log', now) && Moves(log, log', id)
            && Current(log', id) == es[i].(status := Consumed) == log.requests[id].(status := Consumed)
  {
    assert es[i] == Current(log, es[i].id);
  }

  lemma {:induction false} ListAdmits(es: Entries, log: Log, now: int, punctual: bool)
    requires Agrees(es, log, now, punctual)
    ensures Admits(log, List(now), Listed(OpenEntries(es, now)), punctual)
  {
    hide OpenEntries, StatusOf;
    OpenEntriesAre(es, now);
    OpenEntriesInOrder(es, now);
    forall e | e in OpenEntries(es, now) ensures Waits(log, e.id, now) && e == Current(log, e.id) {
      var k :| 0 <= k < |es| && es[k] == e;
    }
    forall id | punctual && Waits(log, id, now) ensures Current(log, id) in OpenEntries(es, now) {
      WaitsInStore(es, log, id, now, punctual);
    }
  }

  lemma {:induction false} RequestAgrees(es: Entries, log: Log, e: Execution, clock: int, punctual: bool)
    requires Agrees(es, log, clock, punctual) && e.id !in log.requests && e.status == Pending && e.reason == None && clock <= e.createdAt
    ensures Agrees(es + [e], log.(requests := log.requests[e.id := e]), e.createdAt, punctual)
  {
    hide StatusOf;
    var log' := log.(requests := log.requests[e.id := e]);
    AgreesLater(es, log, clock, e.createdAt, punctual);
    assert StatusOf(log', e.id) == Pending by { NewStatus(log, e, clock); }
    assert forall id :: StatusOf(log', id) == StatusOf(log, id) by { SameStatus(log, log'); }
    assert forall x :: x in es + [e] <==> x in es || x == e;
    forall i | 0 <= i < |es| ensures es[i].createdAt <= e.createdAt {
      assert es[i] == Current(log, es[i].id);
    }
  }

  lemma {:induction false} SameStatus(log: Log, log': Log)
    requires log' == log.(requests := log'.requests)
    ensures forall id :: StatusOf(log', id) == StatusOf(log, id)
  {
  }

  lemma {:induction false} NewStatus(log: Log, e: Execution, clock: int)
    requires LogValid(log, clock) && e.id !in log.requests
    ensures StatusOf(log.(requests := log.requests[e.id := e]), e.id) == Pending && e.id !in log.rejected
  {
  }

  lemma {:induction false} PurgeAgrees(es: Entries, log: Log, nowMs: int, clock: int, punctual: bool)
    requires Agrees(es, log, clock, punctual) && (punctual ==> nowMs <= clock)
    ensures Agrees(Purged(es, nowMs), log, clock, punctual)
  {
    hide Purged, Current;
    PurgedKeeps(es, nowMs);
    PurgedInOrder(es, nowMs);
    var kept := Purged(es, nowMs);
    forall i | 0 <= i < |kept| ensures kept[i].id in log.requests && kept[i] == Current(log, kept[i].id) {
      assert kept[i] in kept;
      var k :| 0 <= k < |es| && es[k] == kept[i];
    }
  }

  lemma {:induction false} PurgedInOrder(es: Entries, nowMs: int)
    requires InOrder(es)
    ensures InOrder(Purged(es, nowMs))
  {
    hide Purges, InOrder;
    if es == [] {
      InOrderNone();
    } else {
      HeadFirst(es);
      PurgedInOrder(es[1..], nowMs);
      PurgedKeeps(es[1..], nowMs);
      var rest := Purged(es[1..], nowMs);
      InOrderCons(es[0], rest);
      assert [] + rest == rest;
    }
  }

  // ---------------------------------------------------------------------
  // Runs
  // ---------------------------------------------------------------------

  lemma {:induction false} StepAdmits(s: Service, op: Op, log: Log, clock: int, punctual: bool)
    requires Agrees(s.entries, log, clock, punctual) && Timed(op, clock, log.requests.Keys, punctual)
    ensures var (t, out) := Step(s, op);
            && Admits(log, op, out, punctual)
            && Agrees(t.entries, Recorded(log, out), Clock(op, clock), punctual)
            && Recorded(log, out).requests.Keys == IdsAfter(op, log.requests.Keys)
  {
    hide Agrees, OpenEntries, Purged, Decide, Use, NormalizeReason, IdIndex, Current, IsOpen, Grants;
    AgreesLater(s.entries, log, clock, Clock(op, clock), punctual);
    match op {
      case Request(plan, id, now, created) => RequestAgrees(s.entries, log, NewExecution(s, plan, id, now, created), clock, punctual);
      case List(now) => ListAdmits(s.entries, log, now, punctual);
      case Approve(id, now) => DecideAdmits(s.entries, log, id, now, Approved, None, punctual); NoReason(s.entries, log, now, id, punctual);
      case Reject(id, reason, now) => DecideAdmits(s.entries, log, id, now, Rejected, NormalizeReason(reason), punctual);
      case Consume(plan, now) => UseAdmits(s.entries, log, plan, now, punctual);
      case Purge(nowMs) => PurgeAgrees(s.entries, log, nowMs, clock, punctual);
      case _ =>
    }
  }

  lemma {:induction false} NoReason(es: Entries, log: Log, clock: int, id: Id, punctual: bool)
    requires Agrees(es, log, clock, punctual)
    ensures id in log.requests ==> log.requests[id].reason == None
  {
  }

  /** Every run answers as the log admits: uses map one-to-one to earlier approvals
      of matching requests, before their expiry and oldest first. */
  lemma {:induction false} RunsAreAdmitted(s: Service, ops: seq<Op>, log: Log, clock: int, punctual: bool)
    requires Agrees(s.entries, log, clock, punctual) && TimedRun(ops, clock, log.requests.Keys, punctual)
    ensures AdmitsRun(log, ops, Outcomes(s, ops), punctual)
    decreases |ops|
  {
    hide Agrees, Admits, Step, Recorded, Timed;
    if ops != [] {
      var (t, out) := Step(s, ops[0]);
      StepAdmits(s, ops[0], log, clock, punctual);
      RunsAreAdmitted(t, ops[1..], Recorded(log, out), Clock(ops[0], clock), punctual);
      var rest := Outcomes(t, ops[1..]);
      assert ([out] + rest)[1..] == rest;
    }
  }

  const NOTHING := Log(map[], {}, map[], {})

  /** In particular every run of a new service. */
  lemma {:induction false} NewServiceIsAdmitted(ttlMs: int, ops: seq<Op>, clock: int, punctual: bool)
    requires TimedRun(ops, clock, {}, punctual)
    ensures AdmitsRun(NOTHING, ops, Outcomes(Service([], ttlMs), ops), punctual)
  {
    assert NOTHING.requests.Keys == {};
    RunsAreAdmitted(Service([], ttlMs), ops, NOTHING, clock, punctual);
  }

  // ---------------------------------------------------------------------
  // One use for one approval
  // ---------------------------------------------------------------------

  /** The log after all the answers. */
  function LogAfter(log: Log, outs: seq<Outcome>): Log
    decreases |outs|
  {
    if outs == [] then log else LogAfter(Recorded(log, outs[0]), outs[1..])
  }

  /** Each answer is admitted by the log of all answers before it. */
  lemma {:induction false} AdmitsAt(log: Log, ops: seq<Op>, outs: seq<Outcome>, j: nat, punctual: bool)
    requires AdmitsRun(log, ops, outs, punctual) && j < |outs|
    ensures Admits(LogAfter(log, outs[..j]), ops[j], outs[j], punctual)
    decreases j
  {
    hide Recorded, Admits;
    if j > 0 {
      AdmitsAt(Recorded(log, outs[0]), ops[1..], outs[1..], j - 1, punctual);
      assert outs[..j][1..] == outs[1..][..j - 1];
    }
  }

  /** Nothing recorded is ever taken back. */
  lemma {:induction false} LogGrows(log: Log, ops: seq<Op>, outs: seq<Outcome>, j: nat, punctual: bool)
    requires AdmitsRun(log, ops, outs, punctual) && j <= |outs|
    requires forall k | 0 <= k < |outs| :: outs[k].Requested? ==> ops[k].Request?
    ensures var after := LogAfter(log, outs[..j]);
            && log.consumed <= after.consumed && log.approved <= after.approved
            && forall id | id in log.requests :: id in after.requests && after.requests[id] == log.requests[id]
    decreases j
  {
    hide Current, Waits, Grants;
    if j > 0 {
      var log' := Recorded(log, outs[0]);
      LogGrows(log', ops[1..], outs[1..], j - 1, punctual);
      assert outs[..j][1..] == outs[1..][..j - 1];
    }
  }

  predicate IsApprovalOf(out: Outcome, id: Id) {
    out.Decided? && out.execution'.Some? && out.execution'.value.id == id && out.execution'.value.status == Approved
  }

  lemma {:induction false} WasApproved(log: Log, outs: seq<Outcome>, id: Id) returns (i: nat)
    requires id in LogAfter(log, outs).approved && id !in log.approved
    ensures i < |outs| && IsApprovalOf(outs[i], id)
    decreases |outs|
  {
    if id in Recorded(log, outs[0]).approved {
      i := 0;
    } else {
      var k := WasApproved(Recorded(log, outs[0]), outs[1..], id);
      i := k + 1;
    }
  }

  lemma {:induction false} WasRequested(log: Log, outs: seq<Outcome>, id: Id) returns (i: nat)
    requires id in LogAfter(log, outs).requests && id !in log.requests
    ensures i < |outs| && outs[i].Requested? && outs[i].execution.id == id
    decreases |outs|
  {
    if id in Recorded(log, outs[0]).requests {
      i := 0;
    } else {
      var k := WasRequested(Recorded(log, outs[0]), outs[1..], id);
      i := k + 1;
    }
  }

  /** Answers have the shape of their questions. */
  lemma {:induction false} OutcomeShapes(s: Service, ops: seq<Op>, k: nat)
    requires k < |ops|
    ensures var outs := Outcomes(s, ops);
            && |outs| == |ops|
            && (outs[k].Requested? <==> ops[k].Request?) && (outs[k].Used? <==> ops[k].Consume?)
            && (outs[k].Decided? <==> ops[k].Approve? || ops[k].Reject?)
    decreases |ops|
  {
    hide Decide, Use, NewExecution, OpenEntries, Purged, IdIndex, NormalizeReason;
    var (t, out) := Step(s, ops[0]);
    if |ops| > 1 {
      OutcomeShapes(t, ops[1..], if k > 0 then k - 1 else 0);
    }
  }

  /** Every use of an approval comes after one approval of it, which comes after the
      request it was asked by; the request has the actor, connection, tool and
      payload of the call, and is not expired when used. */
  lemma {:induction false} UseFollowsApproval(ttlMs: int, ops: seq<Op>, clock: int, punctual: bool, j: nat)
    returns (k: nat, i: nat)
    requires TimedRun(ops, clock, {}, punctual) && j < |ops|
    requires var out := Outcomes(Service([], ttlMs), ops)[j];
             out.Used? && out.used.Some?
    ensures var outs := Outcomes(Service([], ttlMs), ops);
            var e := outs[j].used.value;
            && k < i < j && outs[k].Requested? && ops[j].Consume?
            && IsApprovalOf(outs[i], e.id)
            && e == outs[k].execution.(status := Consumed) && Unexpired(e, ops[j].now)
            && e.plan.actorId == ops[j].plan.actorId && e.plan.connectionId == ops[j].plan.connectionId
            && e.plan.toolId == ops[j].plan.toolId && e.plan.payload == ops[j].plan.payload
  {
    hide Step, Recorded, LogAfter, TimedRun;
    var outs := Outcomes(Service([], ttlMs), ops);
    forall n | 0 <= n < |outs|
      ensures (outs[n].Requested? <==> ops[n].Request?) && (outs[n].Used? <==> ops[n].Consume?)
      ensures outs[n].Decided? <==> ops[n].Approve? || ops[n].Reject?
    {
      OutcomeShapes(Service([], ttlMs), ops, n);
    }
    NewServiceIsAdmitted(ttlMs, ops, clock, punctual);
    var id := outs[j].used.value.id;
    AdmitsAt(NOTHING, ops, outs, j, punctual);
    i := WasApproved(NOTHING, outs[..j], id);
    AdmitsAt(NOTHING, ops, outs, i, punctual);
    k := WasRequested(NOTHING, outs[..i], id);
    RequestStays(ops, outs, k, j, punctual);
  }

  /** A request is on record from its answer on. */
  lemma {:induction false} RequestStays(ops: seq<Op>, outs: seq<Outcome>, k: nat, j: nat, punctual: bool)
    requires AdmitsRun(NOTHING, ops, outs, punctual) && k < j <= |outs| && outs[k].Requested?
    requires forall n | 0 <= n < |outs| :: outs[n].Requested? ==> ops[n].Request?
    ensures var e := outs[k].execution;
            e.id in LogAfter(NOTHING, outs[..j]).requests && LogAfter(NOTHING, outs[..j]).requests[e.id] == e
  {
    hide Admits;
    var log := LogAfter(NOTHING, outs[..k + 1]);
    LogSnoc(NOTHING, outs, k);
    AdmitsRest(NOTHING, ops, outs, k + 1, punctual);
    LogGrows(log, ops[k + 1..], outs[k + 1..], j - (k + 1), punctual);
    LogSplit(NOTHING, outs, k + 1, j);
  }

  lemma {:induction false} LogSnoc(log: Log, outs: seq<Outcome>, k: nat)
    requires k < |outs|
    ensures LogAfter(log, outs[..k + 1]) == Recorded(LogAfter(log, outs[..k]), outs[k])
    decreases k
  {
    hide Recorded;
    if k > 0 {
      LogSnoc(Recorded(log, outs[0]), outs[1..], k - 1);
      assert outs[..k + 1][1..] == outs[1..][..k];
      assert outs[..k][1..] == outs[1..][..k - 1];
    } else {
      assert outs[..1][1..] == [];
    }
  }

  lemma {:induction false} LogSplit(log: Log, outs: seq<Outcome>, i: nat, j: nat)
    requires i <= j <= |outs|
    ensures LogAfter(LogAfter(log, outs[..i]), outs[i..][..j - i]) == LogAfter(log, outs[..j])
    decreases i
  {
    hide Recorded;
    if i > 0 {
      LogSplit(Recorded(log, outs[0]), outs[1..], i - 1, j - 1);
      assert outs[..i][1..] == outs[1..][..i - 1];
      assert outs[..j][1..] == outs[1..][..j - 1];
      assert outs[1..][i - 1..] == outs[i..];
    }
  }

  lemma {:induction false} AdmitsRest(log: Log, ops: seq<Op>, outs: seq<Outcome>, j: nat, punctual: bool)
    requires AdmitsRun(log, ops, outs, punctual) && j <= |outs|
    ensures AdmitsRun(LogAfter(log, outs[..j]), ops[j..], outs[j..], punctual)
    decreases j
  {
    hide Recorded, Admits;
    if j > 0 {
      AdmitsRest(Recorded(log, outs[0]), ops[1..], outs[1..], j - 1, punctual);
      assert outs[..j][1..] == outs[1..][..j - 1];
      assert outs[1..][j - 1..] == outs[j..] && ops[1..][j - 1..] == ops[j..];
    } else {
      assert ops[0..] == ops && outs[0..] == outs;
    }
  }

  /** No approval is used twice. */
  lemma {:induction false} UsedOnce(ttlMs: int, ops: seq<Op>, clock: int, punctual: bool, i: nat, j: nat)
    requires TimedRun(ops, clock, {}, punctual) && i < j < |ops|
    requires var outs := Outcomes(Service([], ttlMs), ops);
             outs[i].Used? && outs[i].used.Some? && outs[j].Used? && outs[j].used.Some?
    ensures var outs := Outcomes(Service([], ttlMs), ops);
            outs[i].used.value.id != outs[j].used.value.id
  {
    hide Step, Recorded, LogAfter, Authorizes, TimedRun;
    var outs := Outcomes(Service([], ttlMs), ops);
    forall n | 0 <= n < |outs|
      ensures (outs[n].Requested? <==> ops[n].Request?) && (outs[n].Used? <==> ops[n].Consume?)
    {
      OutcomeShapes(Service([], ttlMs), ops, n);
    }
    NewServiceIsAdmitted(ttlMs, ops, clock, punctual);
    UseStays(ops, outs, i, j, punctual);
    AdmitsAt(NOTHING, ops, outs, j, punctual);
  }

  lemma {:induction false} UseStays(ops: seq<Op>, outs: seq<Outcome>, i: nat, j: nat, punctual: bool)
    requires AdmitsRun(NOTHING, ops, outs, punctual) && i < j <= |outs| && outs[i].Used? && outs[i].used.Some?
    requires forall n | 0 <= n < |outs| :: outs[n].Requested? ==> ops[n].Request?
    ensures outs[i].used.value.id in LogAfter(NOTHING, outs[..j]).consumed
  {
    hide Admits;
    LogSnoc(NOTHING, outs, i);
    AdmitsRest(NOTHING, ops, outs, i + 1, punctual);
    LogGrows(LogAfter(NOTHING, outs[..i + 1]), ops[i + 1..], outs[i + 1..], j - (i + 1), punctual);
    LogSplit(NOTHING, outs, i + 1, j);
  }
}
