/** Every answer of the approval service, told from the calls and answers before it
    alone. */
module ApprovalHistory {
  import opened Text
  import opened Approval
  import opened ApprovalRuns

  // ---------------------------------------------------------------------
  // History
  // ---------------------------------------------------------------------

  /** The time to live after these calls: the last one set. */
  function TtlAfter(ttlMs: int, ops: seq<Op>): int {
    if ops == [] then ttlMs
    else if ops[|ops| - 1].SetTtl? then ops[|ops| - 1].ttlMs
    else TtlAfter(ttlMs, ops[..|ops| - 1])
  }

  /** Call `k` asked for the execution `id`. */
  predicate Asks(ops: seq<Op>, k: nat, id: Id) {
    k < |ops| && ops[k].Request? && ops[k].id == id
  }

  /** When the request of call `k` expires. */
  function Expiry(ttlMs: int, ops: seq<Op>, k: nat): int
    requires k < |ops| && ops[k].Request?
  {
    ops[k].now + TtlAfter(ttlMs, ops[..k])
  }

  predicate IsRejectionOf(out: Outcome, id: Id) {
    out.Decided? && out.execution'.Some? && out.execution'.value.id == id && out.execution'.value.status != Approved
  }

  predicate IsUseOf(out: Outcome, id: Id) {
    out.Used? && out.used.Some? && out.used.value.id == id
  }

  predicate WasApprovedBefore(outs: seq<Outcome>, id: Id) {
    exists i | 0 <= i < |outs| :: IsApprovalOf(outs[i], id)
  }

  predicate WasRejectedBefore(outs: seq<Outcome>, id: Id) {
    exists i | 0 <= i < |outs| :: IsRejectionOf(outs[i], id)
  }

  predicate WasUsedBefore(outs: seq<Outcome>, id: Id) {
    exists i | 0 <= i < |outs| :: IsUseOf(outs[i], id)
  }

  /** The same actor asks for the same call of the same tool on the same connection. */
  predicate SameCall(a: Plan, b: Plan) {
    a.actorId == b.actorId && a.connectionId == b.connectionId && a.toolId == b.toolId && a.payload == b.payload
  }

  // ---------------------------------------------------------------------
  // Requests
  // ---------------------------------------------------------------------

  function StateAfter(s: Service, ops: seq<Op>): Service
    decreases |ops|
  {
    if ops == [] then s else Step(StateAfter(s, ops[..|ops| - 1]), ops[|ops| - 1]).0
  }

  lemma {:induction false} StateCons(s: Service, ops: seq<Op>, k: nat)
    requires 0 < k <= |ops|
    ensures StateAfter(s, ops[..k]) == StateAfter(Step(s, ops[0]).0, ops[1..][..k - 1])
    decreases k
  {
    hide Step;
    var a, b := ops[..k], ops[1..][..k - 1];
    if k == 1 {
      assert a[..0] == [] && b == [];
    } else {
      StateCons(s, ops, k - 1);
      assert a[..k - 1] == ops[..k - 1] && b[..k - 2] == ops[1..][..k - 2];
      assert a[k - 1] == b[k - 2];
    }
  }

  lemma {:induction false} OutcomeAt(s: Service, ops: seq<Op>, k: nat)
    requires k < |ops|
    ensures Outcomes(s, ops)[k] == Step(StateAfter(s, ops[..k]), ops[k]).1
    decreases |ops|
  {
    hide Step;
    if k == 0 {
      assert ops[..0] == [];
    } else {
      OutcomeAt(Step(s, ops[0]).0, ops[1..], k - 1);
      StateCons(s, ops, k);
    }
  }

  lemma {:induction false} TtlOfState(s: Service, ops: seq<Op>)
    ensures StateAfter(s, ops).ttlMs == TtlAfter(s.ttlMs, ops)
    decreases |ops|
  {
    hide Decide, Use, NewExecution, OpenEntries, Purged, IdIndex, NormalizeReason;
    if ops != [] { TtlOfState(s, ops[..|ops| - 1]); }
  }

  /** A request is stored as it was made, pending, to expire after the time to live
      that is in force. */
  lemma {:induction false} RequestAnswer(ttlMs: int, ops: seq<Op>, k: nat)
    requires k < |ops| && ops[k].Request?
    ensures Outcomes(Service([], ttlMs), ops)[k]
         == Requested(Execution(ops[k].id, Pending, ops[k].plan, ops[k].created, Some(Expiry(ttlMs, ops, k)), None))
  {
    hide Decide, Use, OpenEntries, Purged, IdIndex, NormalizeReason, StateAfter, Outcomes;
    OutcomeAt(Service([], ttlMs), ops, k);
    TtlOfState(Service([], ttlMs), ops[..k]);
  }

  // ---------------------------------------------------------------------
  // The log is the history
  // ---------------------------------------------------------------------

  lemma {:induction false} LogIsHistory(outs: seq<Outcome>, id: Id)
    ensures var log := LogAfter(NOTHING, outs);
            && (id in log.approved <==> WasApprovedBefore(outs, id))
            && (id in log.rejected <==> WasRejectedBefore(outs, id))
            && (id in log.consumed <==> WasUsedBefore(outs, id))
    decreases |outs|
  {
    hide LogAfter;
    if outs == [] {
      NoLog();
    } else {
      var n := |outs| - 1;
      LogIsHistory(outs[..n], id);
      LogSnoc(NOTHING, outs, n);
      assert outs[..n + 1] == outs;
      SnocHistory(outs, id);
    }
  }

  lemma {:induction false} NoLog()
    ensures LogAfter(NOTHING, []) == NOTHING
  {
  }

  lemma {:induction false} SnocHistory(outs: seq<Outcome>, id: Id)
    requires outs != []
    ensures var n := |outs| - 1;
            && (WasApprovedBefore(outs, id) <==> WasApprovedBefore(outs[..n], id) || IsApprovalOf(outs[n], id))
            && (WasRejectedBefore(outs, id) <==> WasRejectedBefore(outs[..n], id) || IsRejectionOf(outs[n], id))
            && (WasUsedBefore(outs, id) <==> WasUsedBefore(outs[..n], id) || IsUseOf(outs[n], id))
  {
    hide IsApprovalOf, IsRejectionOf, IsUseOf;
    var n := |outs| - 1;
    assert outs == outs[..n] + [outs[n]];
    if WasApprovedBefore(outs[..n], id) { var i :| 0 <= i < n && IsApprovalOf(outs[..n][i], id); assert IsApprovalOf(outs[i], id); }
    if WasRejectedBefore(outs[..n], id) { var i :| 0 <= i < n && IsRejectionOf(outs[..n][i], id); assert IsRejectionOf(outs[i], id); }
    if WasUsedBefore(outs[..n], id) { var i :| 0 <= i < n && IsUseOf(outs[..n][i], id); assert IsUseOf(outs[i], id); }
  }

  /** The run, its answers, and how answers fit their calls. */
  ghost predicate IsRun(ttlMs: int, ops: seq<Op>, outs: seq<Outcome>, clock: int, punctual: bool) {
    TimedRun(ops, clock, {}, punctual) && outs == Outcomes(Service([], ttlMs), ops)
  }

  lemma {:induction false} RunShapes(ttlMs: int, ops: seq<Op>, outs: seq<Outcome>, clock: int, punctual: bool)
    requires IsRun(ttlMs, ops, outs, clock, punctual)
    ensures |outs| == |ops| && AdmitsRun(NOTHING, ops, outs, punctual)
    ensures forall n | 0 <= n < |outs| :: outs[n].Requested? <==> ops[n].Request?
  {
    hide Outcomes, TimedRun, AdmitsRun;
    NewServiceIsAdmitted(ttlMs, ops, clock, punctual);
    forall n | 0 <= n < |outs| ensures outs[n].Requested? <==> ops[n].Request? { OutcomeShapes(Service([], ttlMs), ops, n); }
  }

  /** What is on record of an id after the calls before `j`: the request that asked
      for it, as it was made. */
  lemma {:induction false} OnRecord(ttlMs: int, ops: seq<Op>, outs: seq<Outcome>, clock: int, punctual: bool, j: nat,
          k: nat)
    requires IsRun(ttlMs, ops, outs, clock, punctual) && k < j <= |ops| && ops[k].Request?
    ensures |outs| == |ops|
    ensures var log := LogAfter(NOTHING, outs[..j]);
            && ops[k].id in log.requests
            && log.requests[ops[k].id]
               == Execution(ops[k].id, Pending, ops[k].plan, ops[k].created, Some(Expiry(ttlMs, ops, k)), None)
  {
    hide Outcomes, TimedRun, AdmitsRun, LogAfter, Expiry;
    RunShapes(ttlMs, ops, outs, clock, punctual);
    RequestStays(ops, outs, k, j, punctual);
    RequestAnswer(ttlMs, ops, k);
  }

  /** And nothing is on record that was not asked for. */
  lemma {:induction false} WasAsked(ttlMs: int, ops: seq<Op>, outs: seq<Outcome>, clock: int, punctual: bool, j: nat,
          id: Id) returns (k: nat)
    requires IsRun(ttlMs, ops, outs, clock, punctual) && j <= |outs| && id in LogAfter(NOTHING, outs[..j]).requests
    ensures |outs| == |ops| && k < j && Asks(ops, k, id)
  {
    hide Outcomes, TimedRun, AdmitsRun, LogAfter;
    RunShapes(ttlMs, ops, outs, clock, punctual);
    k := WasRequested(NOTHING, outs[..j], id);
    RequestAnswer(ttlMs, ops, k);
    assert outs[..j][k] == outs[k];
  }

  // ---------------------------------------------------------------------
  // Decisions
  // ---------------------------------------------------------------------

  /** Call `k` asked for `id`; it is not decided yet and not expired at `now`. */
  predicate Undecided(ttlMs: int, ops: seq<Op>, outs: seq<Outcome>, k: nat, id: Id, now: int) {
    Asks(ops, k, id) && !WasApprovedBefore(outs, id) && !WasRejectedBefore(outs, id) && now < Expiry(ttlMs, ops, k)
  }

  /** Call `k` asked for `id`, in the same words as `plan`; it is approved, not used
      yet, and not expired at `now`. */
  predicate Available(ttlMs: int, ops: seq<Op>, outs: seq<Outcome>, k: nat, id: Id, plan: Plan, now: int) {
    && Asks(ops, k, id) && WasApprovedBefore(outs, id) && !WasUsedBefore(outs, id) && now < Expiry(ttlMs, ops, k)
    && SameCall(ops[k].plan, plan)
  }

  /** The store after the calls before `j`, and the log of their answers. */
  lemma {:induction false} StoreAgrees(s: Service, ops: seq<Op>, log: Log, clock: int, punctual: bool, j: nat)
    returns (now: int)
    requires Agrees(s.entries, log, clock, punctual) && TimedRun(ops, clock, log.requests.Keys, punctual) && j <= |ops|
    ensures Agrees(StateAfter(s, ops[..j]).entries, LogAfter(log, Outcomes(s, ops)[..j]), now, punctual)
    decreases j
  {
    hide Agrees, Admits, Step, Recorded, Timed, StateAfter;
    if j == 0 {
      now := clock;
      assert ops[..0] == [] && Outcomes(s, ops)[..0] == [];
      NoSteps(s);
    } else {
      var (t, out) := Step(s, ops[0]);
      StepAdmits(s, ops[0], log, clock, punctual);
      now := StoreAgrees(t, ops[1..], Recorded(log, out), Clock(ops[0], clock), punctual, j - 1);
      StateCons(s, ops, j);
      assert Outcomes(s, ops)[..j][1..] == Outcomes(t, ops[1..])[..j - 1];
    }
  }

  lemma {:induction false} NoSteps(s: Service)
    ensures StateAfter(s, []) == s
  {
  }

  lemma {:induction false} LogIsValid(ttlMs: int, ops: seq<Op>, outs: seq<Outcome>, clock: int, punctual: bool,
          j: nat)
    requires IsRun(ttlMs, ops, outs, clock, punctual) && j <= |outs|
    ensures var log := LogAfter(NOTHING, outs[..j]);
            && log.consumed <= log.approved <= log.requests.Keys && log.rejected.Keys <= log.requests.Keys
            && log.approved !! log.rejected.Keys
  {
    hide Outcomes, TimedRun, LogAfter, StateAfter;
    NothingAgrees(clock, punctual);
    var now := StoreAgrees(Service([], ttlMs), ops, NOTHING, clock, punctual, j);
  }

  lemma {:induction false} NothingAgrees(clock: int, punctual: bool)
    ensures Agrees([], NOTHING, clock, punctual) && NOTHING.requests.Keys == {}
  {
  }

  lemma {:induction false} WaitsIff(ttlMs: int, ops: seq<Op>, outs: seq<Outcome>, clock: int, punctual: bool, j: nat,
          id: Id, now: int)
    requires IsRun(ttlMs, ops, outs, clock, punctual) && j <= |ops| == |outs|
    ensures Waits(LogAfter(NOTHING, outs[..j]), id, now)
            <==> exists k | 0 <= k < j :: Undecided(ttlMs, ops, outs[..j], k, id, now)
  {
    hide IsRun, LogAfter, WasApprovedBefore, WasRejectedBefore, WasUsedBefore, Expiry;
    var log := LogAfter(NOTHING, outs[..j]);
    LogIsHistory(outs[..j], id);
    LogIsValid(ttlMs, ops, outs, clock, punctual, j);
    if Waits(log, id, now) {
      var k := WasAsked(ttlMs, ops, outs, clock, punctual, j, id);
      OnRecord(ttlMs, ops, outs, clock, punctual, j, k);
      assert Undecided(ttlMs, ops, outs[..j], k, id, now);
    }
    if k :| 0 <= k < j && Undecided(ttlMs, ops, outs[..j], k, id, now) {
      OnRecord(ttlMs, ops, outs, clock, punctual, j, k);
    }
  }

  lemma {:induction false} AuthorizesIff(a: Plan, b: Plan)
    ensures Authorizes(a, b) <==> SameCall(a, b)
  {
  }

  lemma {:induction false} GrantsIff(ttlMs: int, ops: seq<Op>, outs: seq<Outcome>, clock: int, punctual: bool, j: nat,
          id: Id, plan: Plan, now: int)
    requires IsRun(ttlMs, ops, outs, clock, punctual) && j <= |ops| == |outs|
    ensures Grants(LogAfter(NOTHING, outs[..j]), id, plan, now)
            <==> exists k | 0 <= k < j :: Available(ttlMs, ops, outs[..j], k, id, plan, now)
  {
    hide IsRun, LogAfter, WasApprovedBefore, WasRejectedBefore, WasUsedBefore, Expiry, SameCall, Authorizes;
    var log := LogAfter(NOTHING, outs[..j]);
    LogIsHistory(outs[..j], id);
    LogIsValid(ttlMs, ops, outs, clock, punctual, j);
    if Grants(log, id, plan, now) {
      var k := WasAsked(ttlMs, ops, outs, clock, punctual, j, id);
      OnRecord(ttlMs, ops, outs, clock, punctual, j, k);
      AuthorizesIff(ops[k].plan, plan);
      assert Available(ttlMs, ops, outs[..j], k, id, plan, now);
    }
    if k :| 0 <= k < j && Available(ttlMs, ops, outs[..j], k, id, plan, now) {
      OnRecord(ttlMs, ops, outs, clock, punctual, j, k);
      AuthorizesIff(ops[k].plan, plan);
    }
  }

  /** The execution that call `k` asked for, with another status. */
  function AskedFor(ttlMs: int, ops: seq<Op>, k: nat, status: Status, reason: Option<string>): Execution
    requires k < |ops| && ops[k].Request?
  {
    Execution(ops[k].id, status, ops[k].plan, ops[k].created, Some(Expiry(ttlMs, ops, k)), reason)
  }

  /** An approval or a rejection succeeds only if the execution was asked for, is not
      decided yet and not expired; it returns what was asked for, and an approval the
      call to replay. If no purge looks ahead of the clock it succeeds whenever it may. */
  lemma {:induction false} DecisionAnswer(ttlMs: int, ops: seq<Op>, outs: seq<Outcome>, clock: int, punctual: bool,
          j: nat)
    requires IsRun(ttlMs, ops, outs, clock, punctual) && j < |ops| == |outs| && (ops[j].Approve? || ops[j].Reject?)
    ensures var id, now := ops[j].id, ops[j].now;
            && outs[j].Decided?
            && (outs[j].execution'.Some? ==> exists k | 0 <= k < j :: Undecided(ttlMs, ops, outs[..j], k, id, now))
            && (punctual && (exists k | 0 <= k < j :: Undecided(ttlMs, ops, outs[..j], k, id, now)) ==> outs[j].execution'.Some?)
            && (outs[j].execution'.Some? ==> forall k | 0 <= k < j && Asks(ops, k, id) ::
                  && outs[j].execution' == Some(if ops[j].Approve? then AskedFor(ttlMs, ops, k, Approved, None)
                                                else AskedFor(ttlMs, ops, k, Rejected, NormalizeReason(ops[j].reason)))
                  && (ops[j].Approve? ==> outs[j].replay == Some(ops[k].plan)))
  {
    hide IsRun, LogAfter, WasApprovedBefore, WasRejectedBefore, WasUsedBefore, Expiry, AdmitsRun, NormalizeReason,
         Undecided, Waits;
    RunShapes(ttlMs, ops, outs, clock, punctual);
    AdmitsAt(NOTHING, ops, outs, j, punctual);
    WaitsIff(ttlMs, ops, outs, clock, punctual, j, ops[j].id, ops[j].now);
    forall k | 0 <= k < j && Asks(ops, k, ops[j].id)
      ensures ops[k].id in LogAfter(NOTHING, outs[..j]).requests
      ensures LogAfter(NOTHING, outs[..j]).requests[ops[k].id] == AskedFor(ttlMs, ops, k, Pending, None)
    {
      OnRecord(ttlMs, ops, outs, clock, punctual, j, k);
    }
  }

  /** A use takes an approved, unused, unexpired request by the same actor for the same
      call of the same tool on the same connection, whatever either is classified as.
      If no purge looks ahead of the clock it takes one whenever there is one, and
      none that is younger than another. */
  lemma {:induction false} UseAnswer(ttlMs: int, ops: seq<Op>, outs: seq<Outcome>, clock: int, punctual: bool, j: nat)
    requires IsRun(ttlMs, ops, outs, clock, punctual) && j < |ops| == |outs| && ops[j].Consume?
    ensures var plan, now := ops[j].plan, ops[j].now;
            && outs[j].Used?
            && (outs[j].used.Some? ==> exists k | 0 <= k < j ::
                  && Available(ttlMs, ops, outs[..j], k, outs[j].used.value.id, plan, now)
                  && outs[j].used.value == AskedFor(ttlMs, ops, k, Consumed, None))
            && (punctual ==> forall k | 0 <= k < j && ops[k].Request? && Available(ttlMs, ops, outs[..j], k, ops[k].id, plan, now) ::
                  outs[j].used.Some? && outs[j].used.value.createdAt <= ops[k].created)
  {
    hide IsRun, LogAfter, WasApprovedBefore, WasRejectedBefore, WasUsedBefore, Expiry, AdmitsRun, Available, Grants;
    var plan, now, log := ops[j].plan, ops[j].now, LogAfter(NOTHING, outs[..j]);
    RunShapes(ttlMs, ops, outs, clock, punctual);
    AdmitsAt(NOTHING, ops, outs, j, punctual);
    if outs[j].used.Some? {
      var id := outs[j].used.value.id;
      GrantsIff(ttlMs, ops, outs, clock, punctual, j, id, plan, now);
      var k :| 0 <= k < j && Available(ttlMs, ops, outs[..j], k, id, plan, now);
      AvailableAsks(ttlMs, ops, outs[..j], k, id, plan, now);
      OnRecord(ttlMs, ops, outs, clock, punctual, j, k);
      assert outs[j].used.value == AskedFor(ttlMs, ops, k, Consumed, None);
    }
    forall k | 0 <= k < j && punctual && ops[k].Request? && Available(ttlMs, ops, outs[..j], k, ops[k].id, plan, now)
      ensures outs[j].used.Some? && outs[j].used.value.createdAt <= ops[k].created
    {
      GrantsIff(ttlMs, ops, outs, clock, punctual, j, ops[k].id, plan, now);
      OnRecord(ttlMs, ops, outs, clock, punctual, j, k);
      assert Grants(log, ops[k].id, plan, now);
    }
  }

  lemma {:induction false} AvailableAsks(ttlMs: int, ops: seq<Op>, outs: seq<Outcome>, k: nat, id: Id, plan: Plan,
          now: int)
    requires Available(ttlMs, ops, outs, k, id, plan, now)
    ensures Asks(ops, k, id)
  {
  }

  /** A list holds undecided, unexpired requests, oldest first; and all of them if no
      purge looks ahead of the clock. */
  lemma {:induction false} ListAnswer(ttlMs: int, ops: seq<Op>, outs: seq<Outcome>, clock: int, punctual: bool,
          j: nat)
    requires IsRun(ttlMs, ops, outs, clock, punctual) && j < |ops| == |outs| && ops[j].List?
    ensures outs[j].Listed? && InOrder(outs[j].executions)
    ensures forall e | e in outs[j].executions ::
              exists k | 0 <= k < j :: Undecided(ttlMs, ops, outs[..j], k, e.id, ops[j].now) && e == AskedFor(ttlMs, ops, k, Pending, None)
    ensures punctual ==> forall k | 0 <= k < j && ops[k].Request? && Undecided(ttlMs, ops, outs[..j], k, ops[k].id, ops[j].now) ::
              AskedFor(ttlMs, ops, k, Pending, None) in outs[j].executions
  {
    hide IsRun, LogAfter, WasApprovedBefore, WasRejectedBefore, WasUsedBefore, Expiry, AdmitsRun, InOrder, Current,
         IsOpen;
    var now, log := ops[j].now, LogAfter(NOTHING, outs[..j]);
    RunShapes(ttlMs, ops, outs, clock, punctual);
    AdmitsAt(NOTHING, ops, outs, j, punctual);
    forall e | e in outs[j].executions
      ensures exists k | 0 <= k < j :: Undecided(ttlMs, ops, outs[..j], k, e.id, now) && e == AskedFor(ttlMs, ops, k, Pending, None)
    {
      assert Waits(log, e.id, now) && e == Current(log, e.id);
      WaitsIff(ttlMs, ops, outs, clock, punctual, j, e.id, now);
      var k :| 0 <= k < j && Undecided(ttlMs, ops, outs[..j], k, e.id, now);
      WaitingIs(ttlMs, ops, outs, clock, punctual, j, k, e.id, now);
    }
    forall k | 0 <= k < j && punctual && ops[k].Request? && Undecided(ttlMs, ops, outs[..j], k, ops[k].id, now)
      ensures AskedFor(ttlMs, ops, k, Pending, None) in outs[j].executions
    {
      WaitsIff(ttlMs, ops, outs, clock, punctual, j, ops[k].id, now);
      WaitingIs(ttlMs, ops, outs, clock, punctual, j, k, ops[k].id, now);
      assert Waits(log, ops[k].id, now);
    }
  }

  lemma {:induction false} WaitingIs(ttlMs: int, ops: seq<Op>, outs: seq<Outcome>, clock: int, punctual: bool, j: nat,
          k: nat, id: Id, now: int)
    requires IsRun(ttlMs, ops, outs, clock, punctual) && k < j <= |ops| == |outs|
    requires Undecided(ttlMs, ops, outs[..j], k, id, now) && Waits(LogAfter(NOTHING, outs[..j]), id, now)
    ensures Asks(ops, k, id) && Current(LogAfter(NOTHING, outs[..j]), id) == AskedFor(ttlMs, ops, k, Pending, None)
  {
    hide IsRun, LogAfter, WasApprovedBefore, WasRejectedBefore, WasUsedBefore, Expiry;
    OnRecord(ttlMs, ops, outs, clock, punctual, j, k);
    LogIsHistory(outs[..j], id);
  }

  // ---------------------------------------------------------------------
  // Looking up by id
  // ---------------------------------------------------------------------

  function StatusNow(outs: seq<Outcome>, id: Id): Status {
    if WasUsedBefore(outs, id) then Consumed
    else if WasApprovedBefore(outs, id) then Approved
    else if WasRejectedBefore(outs, id) then Rejected
    else Pending
  }

  lemma {:induction false} FoundById(es: Entries, id: Id)
    ensures IdIndex(es, id) < |es| <==> exists e | e in es :: e.id == id
  {
    if es != [] {
      FoundById(es[1..], id);
      assert forall e :: e in es <==> e == es[0] || e in es[1..];
    }
  }

  /** A look-up finds the execution as it was asked for, with the status the answers
      so far gave it. */
  lemma {:induction false} GetAnswer(ttlMs: int, ops: seq<Op>, outs: seq<Outcome>, clock: int, punctual: bool, j: nat)
    requires IsRun(ttlMs, ops, outs, clock, punctual) && j < |ops| == |outs| && ops[j].Get?
    ensures outs[j].Got?
    ensures outs[j].found.Some? ==> exists k | 0 <= k < j ::
              Asks(ops, k, ops[j].id)
              && outs[j].found.value == AskedFor(ttlMs, ops, k, StatusNow(outs[..j], ops[j].id), outs[j].found.value.reason)
    ensures outs[j].found.Some? && outs[j].found.value.reason.Some? ==> WasRejectedBefore(outs[..j], ops[j].id)
  {
    hide Outcomes, TimedRun, LogAfter, StateAfter, WasApprovedBefore, WasRejectedBefore, WasUsedBefore, Expiry,
         IdIndex, UniqueIds, InOrder;
    var s, id, log := Service([], ttlMs), ops[j].id, LogAfter(NOTHING, outs[..j]);
    OutcomeAt(s, ops, j);
    NothingAgrees(clock, punctual);
    var now := StoreAgrees(s, ops, NOTHING, clock, punctual, j);
    var es := StateAfter(s, ops[..j]).entries;
    var i := IdIndex(es, id);
    if i < |es| {
      assert es[i] == Current(log, id);
      LogIsHistory(outs[..j], id);
      var k := WasAsked(ttlMs, ops, outs, clock, punctual, j, id);
      OnRecord(ttlMs, ops, outs, clock, punctual, j, k);
      assert es[i] == AskedFor(ttlMs, ops, k, StatusNow(outs[..j], id), es[i].reason);
    }
  }

  /** And without a purge everything asked for is found. */
  lemma {:induction false} GetFinds(ttlMs: int, ops: seq<Op>, j: nat, k: nat)
    requires k < j < |ops| && ops[k].Request? && ops[j] == Op.Get(ops[k].id)
    requires forall n | 0 <= n < j :: !ops[n].Purge?
    ensures var out := Outcomes(Service([], ttlMs), ops)[j];
            out.Got? && out.found.Some?
  {
    hide Outcomes, StateAfter, IdIndex;
    var s := Service([], ttlMs);
    OutcomeAt(s, ops, j);
    StaysStored(s, ops[..j], k);
    FoundById(StateAfter(s, ops[..j]).entries, ops[k].id);
  }

  ghost predicate Stored(es: Entries, id: Id) {
    exists e | e in es :: e.id == id
  }

  lemma {:induction false} StaysStored(s: Service, ops: seq<Op>, k: nat)
    requires k < |ops| && ops[k].Request? && forall n | 0 <= n < |ops| :: !ops[n].Purge?
    ensures Stored(StateAfter(s, ops).entries, ops[k].id)
    decreases |ops|
  {
    hide Stored, Step;
    var n := |ops| - 1;
    var before := StateAfter(s, ops[..n]);
    if k < n { StaysStored(s, ops[..n], k); }
    StepStores(before, ops[n], ops[k].id);
  }

  lemma {:induction false} StepStores(s: Service, op: Op, id: Id)
    requires !op.Purge? && (Stored(s.entries, id) || (op.Request? && op.id == id))
    ensures Stored(Step(s, op).0.entries, id)
  {
    hide OldestIndex, OpenIndex, IdIndex, OpenEntries, Purged, NormalizeReason;
    var es' := Step(s, op).0.entries;
    if Stored(s.entries, id) {
      var i :| 0 <= i < |s.entries| && s.entries[i].id == id;
      assert es'[i] in es' && es'[i].id == id;
    } else {
      assert es'[|s.entries|] in es';
    }
  }
}
