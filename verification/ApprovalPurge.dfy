/** Purging finished and expired executions changes no decision. */
module ApprovalPurge {
  import opened Text
  import opened Approval

  /** What can still be decided or used at `now`. */
  predicate IsLive(e: Execution, now: int) {
    !Finished(e) && Unexpired(e, now)
  }

  ghost function Live(es: Entries, now: int): Entries {
    if es == [] then [] else (if IsLive(es[0], now) then [es[0]] else []) + Live(es[1..], now)
  }

  /** Live entries are what is left of them later. */
  lemma {:induction false} LiveLater(es: Entries, now: int, later: int)
    requires now <= later
    ensures Live(Live(es, now), later) == Live(es, later)
  {
    if es != [] {
      LiveLater(es[1..], now, later);
      var rest := Live(es[1..], now);
      assert ([es[0]] + rest)[1..] == rest;
      assert [] + rest == rest;
    }
  }

  lemma {:induction false} LiveConcat(a: Entries, b: Entries, now: int)
    ensures Live(a + b, now) == Live(a, now) + Live(b, now)
  {
    hide IsLive;
    if a == [] {
      assert a + b == b;
    } else {
      assert (a + b)[1..] == a[1..] + b;
      LiveConcat(a[1..], b, now);
      ConcatAssoc(if IsLive(a[0], now) then [a[0]] else [], Live(a[1..], now), Live(b, now));
    }
  }

  /** A purge leaves what is live at the later of its time and `now`; so one that
      does not look ahead removes nothing that is live. */
  lemma {:induction false} LivePurged(es: Entries, nowMs: int, now: int)
    ensures Live(Purged(es, nowMs), now) == Live(es, if nowMs <= now then now else nowMs)
  {
    if es != [] {
      LivePurged(es[1..], nowMs, now);
      var rest := Purged(es[1..], nowMs);
      assert ([es[0]] + rest)[1..] == rest;
      assert [] + rest == rest;
    }
  }

  lemma {:induction false} LiveOpenEntries(es: Entries, now: int)
    ensures OpenEntries(Live(es, now), now) == OpenEntries(es, now)
  {
    if es != [] {
      LiveOpenEntries(es[1..], now);
      var rest := Live(es[1..], now);
      assert ([es[0]] + rest)[1..] == rest;
      assert [] + rest == rest && [] + OpenEntries(es[1..], now) == OpenEntries(es[1..], now);
    }
  }

  function Without<T>(s: seq<T>, i: nat): seq<T>
    requires i < |s|
  {
    s[..i] + s[i + 1..]
  }

  /** The entry of `es` at `i` is the one of `Live(es, now)` at `j`: changing it in
      the one list changes or removes it in the other. */
  ghost predicate Tracks(es: Entries, now: int, i: nat, j: nat)
    requires i < |es|
  {
    && j < |Live(es, now)| && Live(es, now)[j] == es[i]
    && forall e: Execution ::
         Live(es[i := e], now) == if IsLive(e, now) then Live(es, now)[j := e] else Without(Live(es, now), j)
  }

  lemma {:induction false} TracksFirst(es: Entries, now: int)
    requires es != [] && IsLive(es[0], now)
    ensures Tracks(es, now, 0, 0)
  {
    var rest := Live(es[1..], now);
    forall e: Execution ensures Live(es[0 := e], now) == if IsLive(e, now) then Live(es, now)[0 := e] else Without(Live(es, now), 0) {
      assert es[0 := e][1..] == es[1..];
      assert Live(es, now) == [es[0]] + rest;
      assert [] + rest == rest;
    }
  }

  lemma {:induction false} Behind<T>(head: seq<T>, rest: seq<T>, j: nat, e: T)
    requires j < |rest|
    ensures head + rest[j := e] == (head + rest)[|head| + j := e]
    ensures head + Without(rest, j) == Without(head + rest, |head| + j)
  {
    var all := head + rest;
    assert all[..|head| + j] == head + rest[..j] && all[|head| + j + 1..] == rest[j + 1..];
    ConcatAssoc(head, rest[..j], rest[j + 1..]);
  }

  lemma {:induction false} TracksNext(es: Entries, now: int, i: nat, j: nat)
    requires es != [] && i < |es| - 1 && Tracks(es[1..], now, i, j)
    ensures Tracks(es, now, i + 1, if IsLive(es[0], now) then j + 1 else j)
  {
    hide Live, IsLive, Without;
    var head, rest := if IsLive(es[0], now) then [es[0]] else [], Live(es[1..], now);
    LiveCons(es, now);
    assert Live(es, now) == head + rest;
    forall e: Execution
      ensures Live(es[i + 1 := e], now) ==
              if IsLive(e, now) then Live(es, now)[|head| + j := e] else Without(Live(es, now), |head| + j)
    {
      assert es[i + 1 := e][1..] == es[1..][i := e];
      LiveCons(es[i + 1 := e], now);
      assert head + Live(es[1..][i := e], now) == Live(es[i + 1 := e], now);
      Behind(head, rest, j, e);
    }
  }

  lemma {:induction false} LiveCons(es: Entries, now: int)
    ensures es == [] ==> Live(es, now) == []
    ensures es != [] ==> Live(es, now) == if IsLive(es[0], now) then [es[0]] + Live(es[1..], now) else Live(es[1..], now)
  {
    if es != [] { assert [] + Live(es[1..], now) == Live(es[1..], now); }
  }

  lemma {:induction false} OpenCons(e: Execution, rest: Entries, id: Id, now: int)
    ensures OpenIndex([e] + rest, id, now) == if e.id == id && IsOpen(e, now) then 0 else 1 + OpenIndex(rest, id, now)
  {
    assert ([e] + rest)[1..] == rest;
  }

  lemma {:induction false} OldestCons(e: Execution, rest: Entries, plan: Plan, now: int)
    ensures var i := OldestIndex(rest, plan, now);
            OldestIndex([e] + rest, plan, now) ==
              if Usable(e, plan, now) && (i == |rest| || e.createdAt <= rest[i].createdAt) then 0 else 1 + i
  {
    assert ([e] + rest)[1..] == rest;
  }

  /** The pending entry a decision finds is found among the live entries. */
  lemma {:induction false} LiveOpenIndex(es: Entries, id: Id, now: int)
    ensures var i, j := OpenIndex(es, id, now), OpenIndex(Live(es, now), id, now);
            && (i == |es| <==> j == |Live(es, now)|)
            && (i < |es| ==> Tracks(es, now, i, j))
  {
    hide Tracks, Live, OpenIndex;
    LiveCons(es, now);
    if es == [] {
      NothingOpen(id, now);
    } else {
      var rest := Live(es[1..], now);
      assert es == [es[0]] + es[1..];
      OpenCons(es[0], es[1..], id, now);
      OpenCons(es[0], rest, id, now);
      if es[0].id == id && IsOpen(es[0], now) {
        TracksFirst(es, now);
      } else {
        LiveOpenIndex(es[1..], id, now);
        if OpenIndex(es, id, now) < |es| {
          TracksNext(es, now, OpenIndex(es[1..], id, now), OpenIndex(rest, id, now));
        }
      }
    }
  }

  /** So is the approval a call uses. */
  lemma {:induction false} LiveOldestIndex(es: Entries, plan: Plan, now: int)
    ensures var i, j := OldestIndex(es, plan, now), OldestIndex(Live(es, now), plan, now);
            && (i == |es| <==> j == |Live(es, now)|)
            && (i < |es| ==> Tracks(es, now, i, j))
  {
    hide Tracks, Live, OldestIndex, Authorizes;
    LiveCons(es, now);
    if es == [] {
      NothingUsable(plan, now);
    } else {
      var rest := Live(es[1..], now);
      assert es == [es[0]] + es[1..];
      OldestCons(es[0], es[1..], plan, now);
      OldestCons(es[0], rest, plan, now);
      LiveOldestIndex(es[1..], plan, now);
      var i, j := OldestIndex(es[1..], plan, now), OldestIndex(rest, plan, now);
      if i < |es| - 1 {
        TracksNext(es, now, i, j);
        TracksSame(es[1..], now, i, j);
      }
      if Usable(es[0], plan, now) {
        TracksFirst(es, now);
      }
    }
  }

  lemma {:induction false} TracksSame(es: Entries, now: int, i: nat, j: nat)
    requires i < |es| && Tracks(es, now, i, j)
    ensures j < |Live(es, now)| && Live(es, now)[j] == es[i]
  {
  }

  lemma {:induction false} TracksChange(es: Entries, now: int, i: nat, j: nat, e: Execution)
    requires i < |es| && Tracks(es, now, i, j)
    ensures j < |Live(es, now)| && Live(es, now)[j] == es[i]
    ensures Live(es[i := e], now) == if IsLive(e, now) then Live(es, now)[j := e] else Without(Live(es, now), j)
  {
  }

  // ---------------------------------------------------------------------
  // Steps
  // ---------------------------------------------------------------------

  /** What a decision shows its caller; a purge and a look-up by id are no decisions. */
  function Decision(out: Outcome): Option<Outcome> {
    if out.Listed? || out.Decided? || out.Used? then Some(out) else None
  }

  ghost predicate SameLive(a: Service, b: Service, now: int) {
    a.ttlMs == b.ttlMs && Live(a.entries, now) == Live(b.entries, now)
  }

  ghost predicate KnownIds(es: Entries, ids: set<Id>) {
    UniqueIds(es) && forall i | 0 <= i < |es| :: es[i].id in ids
  }

  lemma {:induction false} DecideLive(a: Entries, b: Entries, id: Id, now: int, status: Status,
          reason: Option<string>)
    requires UniqueIds(a) && UniqueIds(b) && Live(a, now) == Live(b, now)
    ensures var (a', ea, pa) := Decide(a, id, now, status, reason);
            var (b', eb, pb) := Decide(b, id, now, status, reason);
            ea == eb && pa == pb && Live(a', now) == Live(b', now)
  {
    hide Live, OpenIndex, IdIndex, Tracks, UniqueIds;
    LiveOpenIndex(a, id, now);
    LiveOpenIndex(b, id, now);
    OpenIsFirst(a, id, now);
    OpenIsFirst(b, id, now);
    var i, k, j := OpenIndex(a, id, now), OpenIndex(b, id, now), OpenIndex(Live(a, now), id, now);
    if i < |a| {
      TracksSame(a, now, i, j);
      TracksSame(b, now, k, j);
      var e := a[i].(status := status, reason := if status == Rejected then reason else a[i].reason);
      TracksChange(a, now, i, j, e);
      TracksChange(b, now, k, j, e);
    }
  }

  lemma {:induction false} UseLive(a: Entries, b: Entries, plan: Plan, now: int)
    requires Live(a, now) == Live(b, now)
    ensures var (a', ea) := Use(a, plan, now);
            var (b', eb) := Use(b, plan, now);
            ea == eb && Live(a', now) == Live(b', now)
  {
    hide Live, OldestIndex, Tracks;
    LiveOldestIndex(a, plan, now);
    LiveOldestIndex(b, plan, now);
    var i, k, j := OldestIndex(a, plan, now), OldestIndex(b, plan, now), OldestIndex(Live(a, now), plan, now);
    if i < |a| {
      TracksChange(a, now, i, j, a[i].(status := Consumed));
      TracksChange(b, now, k, j, b[k].(status := Consumed));
    }
  }

  /** The same operation decides the same on services that differ in dead entries,
      and leaves them so. */
  lemma {:induction false} StepSameLive(a: Service, b: Service, op: Op, clock: int, ids: set<Id>)
    requires SameLive(a, b, clock) && UniqueIds(a.entries) && UniqueIds(b.entries) && Timed(op, clock, ids, false)
    ensures var now := Clock(op, clock);
            && Decision(Step(a, op).1) == Decision(Step(b, op).1)
            && SameLive(Step(a, op).0, Step(b, op).0, now)
  {
    hide Live, OldestIndex, OpenIndex, IdIndex, OpenEntries, Purged, Decide, Use, UniqueIds, NormalizeReason;
    var now := Clock(op, clock);
    LiveLater(a.entries, clock, now);
    LiveLater(b.entries, clock, now);
    match op {
      case SetTtl(_) =>
      case Request(plan, id, t, created) =>
        LiveConcat(a.entries, [NewExecution(a, plan, id, t, created)], now);
        LiveConcat(b.entries, [NewExecution(b, plan, id, t, created)], now);
      case List(_) =>
        LiveOpenEntries(a.entries, now);
        LiveOpenEntries(b.entries, now);
      case Get(_) =>
      case Approve(id, _) => DecideLive(a.entries, b.entries, id, now, Approved, None);
      case Reject(id, reason, _) => DecideLive(a.entries, b.entries, id, now, Rejected, NormalizeReason(reason));
      case Consume(plan, _) => UseLive(a.entries, b.entries, plan, now);
      case Purge(nowMs) =>
        LivePurged(a.entries, nowMs, now);
        LivePurged(b.entries, nowMs, now);
        var later := if nowMs <= now then now else nowMs;
        LiveLater(a.entries, now, later);
        LiveLater(b.entries, now, later);
    }
  }

  /** Ids stay unique. */
  lemma {:induction false} StepKeepsIds(s: Service, op: Op, ids: set<Id>)
    requires KnownIds(s.entries, ids) && (op.Request? ==> op.id !in ids)
    ensures KnownIds(Step(s, op).0.entries, IdsAfter(op, ids))
  {
    hide OldestIndex, OpenIndex, IdIndex, OpenEntries, NormalizeReason;
    if op.Purge? {
      PurgedIds(s.entries, op.nowMs, ids);
    }
  }

  lemma {:induction false} PurgedIds(es: Entries, nowMs: int, ids: set<Id>)
    requires KnownIds(es, ids)
    ensures KnownIds(Purged(es, nowMs), ids)
  {
    hide Purges, KnownIds;
    if es == [] {
    } else {
      FirstId(es, ids);
      PurgedIds(es[1..], nowMs, ids);
      var rest := Purged(es[1..], nowMs);
      PurgedKeeps(es[1..], nowMs);
      forall k | 0 <= k < |rest| ensures rest[k].id != es[0].id {
        assert rest[k] in rest;
      }
      AddedId(es[0], rest, ids);
      assert [] + rest == rest;
    }
  }

  lemma {:induction false} FirstId(es: Entries, ids: set<Id>)
    requires KnownIds(es, ids) && es != []
    ensures es[0].id in ids && KnownIds(es[1..], ids) && forall e | e in es[1..] :: e.id != es[0].id
  {
  }

  lemma {:induction false} AddedId(e: Execution, rest: Entries, ids: set<Id>)
    requires KnownIds(rest, ids) && e.id in ids && forall k | 0 <= k < |rest| :: rest[k].id != e.id
    ensures KnownIds([e] + rest, ids)
  {
  }

  lemma {:induction false} PurgesIff(e: Execution, nowMs: int)
    ensures Purges(e, nowMs)
        <==> !(e.status == Pending || e.status == Approved) || (e.expiresAt.Some? && e.expiresAt.value <= nowMs)
  {
  }

  /** A purge keeps exactly what is not finished and not expired. */
  lemma {:induction false} PurgedKeeps(es: Entries, nowMs: int)
    ensures forall e :: e in Purged(es, nowMs) <==> e in es && !Purges(e, nowMs)
    ensures forall e :: e in Purged(es, nowMs) <==>
              && e in es && (e.status == Pending || e.status == Approved)
              && (e.expiresAt.Some? ==> nowMs < e.expiresAt.value)
  {
    hide Purges;
    forall e: Execution
      ensures Purges(e, nowMs)
          <==> !(e.status == Pending || e.status == Approved) || (e.expiresAt.Some? && e.expiresAt.value <= nowMs)
    {
      PurgesIff(e, nowMs);
    }
    if es != [] {
      PurgedKeeps(es[1..], nowMs);
      assert forall e :: e in es <==> e == es[0] || e in es[1..];
      var head, rest := if Purges(es[0], nowMs) then [] else [es[0]], Purged(es[1..], nowMs);
      assert forall e :: e in head + rest <==> e in head || e in rest;
    }
  }

  // ---------------------------------------------------------------------
  // Runs
  // ---------------------------------------------------------------------

  /** The decisions of a run. */
  function Decisions(s: Service, ops: seq<Op>): seq<Outcome>
    decreases |ops|
  {
    if ops == [] then [] else
      var (t, out) := Step(s, ops[0]);
      (if Decision(out).Some? then [out] else []) + Decisions(t, ops[1..])
  }

  /** The run without the purges marked for erasure. */
  function Erased(ops: seq<Op>, marked: seq<bool>): seq<Op>
    requires |ops| == |marked|
    decreases |ops|
  {
    if ops == [] then [] else
      (if marked[0] && ops[0].Purge? then [] else [ops[0]]) + Erased(ops[1..], marked[1..])
  }

  /** The purges marked for erasure do not look ahead of the clock; others may. */
  ghost predicate MarkedPunctual(ops: seq<Op>, marked: seq<bool>, clock: int)
    requires |ops| == |marked|
    decreases |ops|
  {
    ops == []
    || ((marked[0] && ops[0].Purge? ==> ops[0].nowMs <= clock) && MarkedPunctual(ops[1..], marked[1..], Clock(ops[0], clock)))
  }

  lemma {:induction false} ErasedSame(a: Service, b: Service, ops: seq<Op>, marked: seq<bool>, clock: int,
          ids: set<Id>)
    requires |ops| == |marked| && TimedRun(ops, clock, ids, false) && MarkedPunctual(ops, marked, clock)
    requires KnownIds(a.entries, ids) && KnownIds(b.entries, ids) && SameLive(a, b, clock)
    ensures Decisions(a, ops) == Decisions(b, Erased(ops, marked))
    decreases |ops|
  {
    hide Live, Step;
    if ops != [] {
      var op, rest := ops[0], Erased(ops[1..], marked[1..]);
      StepKeepsIds(a, op, ids);
      StepKeepsIds(b, op, ids);
      StepSameLive(a, b, op, clock, ids);
      if marked[0] && op.Purge? {
        PurgeStep(a, op, clock);
        ErasedSame(Step(a, op).0, b, ops[1..], marked[1..], Clock(op, clock), IdsAfter(op, ids));
        assert [] + rest == rest && [] + Decisions(Step(a, op).0, ops[1..]) == Decisions(Step(a, op).0, ops[1..]);
      } else {
        ErasedSame(Step(a, op).0, Step(b, op).0, ops[1..], marked[1..], Clock(op, clock), IdsAfter(op, ids));
        assert ([op] + rest)[1..] == rest;
      }
    }
  }

  lemma {:induction false} PurgeStep(s: Service, op: Op, clock: int)
    requires op.Purge? && op.nowMs <= clock
    ensures SameLive(Step(s, op).0, s, clock) && Decision(Step(s, op).1).None?
  {
    hide Live;
    LivePurged(s.entries, op.nowMs, clock);
  }

  /** Erasing any purges that do not look ahead of the clock from a run, whatever
      other purges it holds, leaves every listing, approval, rejection and use as it
      was, errors included. */
  lemma {:induction false} PurgesAreInvisible(s: Service, ops: seq<Op>, marked: seq<bool>, clock: int, ids: set<Id>)
    requires |ops| == |marked| && TimedRun(ops, clock, ids, false) && MarkedPunctual(ops, marked, clock)
    requires KnownIds(s.entries, ids)
    ensures Decisions(s, Erased(ops, marked)) == Decisions(s, ops)
  {
    ErasedSame(s, s, ops, marked, clock, ids);
  }
}
