/** The in-memory store and the service over it, as objects that change in place. */
module ApprovalStore {
  import opened Text
  import opened Approval

  lemma {:induction false} OpenIndexFrom(es: Entries, id: Id, now: int, k: nat)
    requires k < |es| && !(es[k].id == id && IsOpen(es[k], now))
    ensures OpenIndex(es[k..], id, now) == 1 + OpenIndex(es[k + 1..], id, now)
  {
    assert es[k..][1..] == es[k + 1..];
  }

  lemma {:induction false} OpenEntriesSnoc(es: Entries, now: int, k: nat)
    requires k < |es|
    ensures OpenEntries(es[..k + 1], now) == OpenEntries(es[..k], now) + (if IsOpen(es[k], now) then [es[k]] else [])
    decreases k
  {
    hide IsOpen;
    if k == 0 {
      assert es[..1][1..] == [] && es[..0] == [];
    } else {
      OpenEntriesSnoc(es[1..], now, k - 1);
      assert es[..k + 1][1..] == es[1..][..k] && es[..k][1..] == es[1..][..k - 1];
      ConcatAssoc(if IsOpen(es[0], now) then [es[0]] else [], OpenEntries(es[1..][..k - 1], now), if IsOpen(es[k], now) then [es[k]] else []);
    }
  }

  lemma {:induction false} PurgedSnoc(es: Entries, nowMs: int, k: nat)
    requires k < |es|
    ensures Purged(es[..k + 1], nowMs) == Purged(es[..k], nowMs) + (if Purges(es[k], nowMs) then [] else [es[k]])
    decreases k
  {
    hide Purges;
    if k == 0 {
      assert es[..1][1..] == [] && es[..0] == [];
    } else {
      PurgedSnoc(es[1..], nowMs, k - 1);
      assert es[..k + 1][1..] == es[1..][..k] && es[..k][1..] == es[1..][..k - 1];
      ConcatAssoc(if Purges(es[0], nowMs) then [] else [es[0]], Purged(es[1..][..k - 1], nowMs), if Purges(es[k], nowMs) then [] else [es[k]]);
    }
  }

  /** Looking at one entry more: the oldest so far stays unless the new one is older. */
  lemma {:induction false} OldestSnoc(es: Entries, plan: Plan, now: int, k: nat)
    requires k < |es|
    ensures var i := OldestIndex(es[..k], plan, now);
            OldestIndex(es[..k + 1], plan, now) ==
              if Usable(es[k], plan, now) && (i == k || es[k].createdAt < es[i].createdAt) then k
              else if i == k then k + 1 else i
    decreases k
  {
    hide Usable;
    if k == 0 {
      assert es[..1][1..] == [] && es[..0] == [];
    } else {
      OldestSnoc(es[1..], plan, now, k - 1);
      assert es[..k + 1][1..] == es[1..][..k] && es[..k][1..] == es[1..][..k - 1];
    }
  }

  class PendingStore {
    var entries: Entries

    constructor ()
      ensures entries == []
    {
      entries := [];
    }

    method CreatePending(plan: Plan, expiresAt: Option<int>, id: Id, created: int) returns (pending: Execution)
      modifies this
      ensures pending == Execution(id, Pending, plan, created, expiresAt, None)
      ensures entries == old(entries) + [pending]
    {
      pending := Execution(id, Pending, plan, created, expiresAt, None);
      entries := entries + [pending];
    }

    method GetPending(id: Id, now: int) returns (found: Option<Execution>)
      ensures var i := OpenIndex(entries, id, now);
              found == if i < |entries| then Some(entries[i]) else None
    {
      hide IsOpen, OpenIndex;
      var k := 0;
      assert entries[0..] == entries;
      while k < |entries|
        invariant k <= |entries|
        invariant OpenIndex(entries, id, now) == k + OpenIndex(entries[k..], id, now)
      {
        if entries[k].id == id && IsOpen(entries[k], now) {
          OpenHere(entries[k..], id, now);
          return Some(entries[k]);
        }
        OpenIndexFrom(entries, id, now, k);
        k := k + 1;
      }
      return None;
    }

    method FindId(id: Id) returns (k: nat)
      ensures k == IdIndex(entries, id)
    {
      k := 0;
      while k < |entries| && entries[k].id != id
        invariant k <= |entries|
        invariant IdIndex(entries, id) == k + IdIndex(entries[k..], id)
      {
        assert entries[k..][1..] == entries[k + 1..];
        k := k + 1;
      }
    }

    method GetExecution(id: Id) returns (found: Option<Execution>)
      ensures var i := IdIndex(entries, id);
              found == if i < |entries| then Some(entries[i]) else None
    {
      var k := FindId(id);
      found := if k < |entries| then Some(entries[k]) else None;
    }

    method UpdateStatus(id: Id, status: Status) returns (updated: Option<Execution>)
      modifies this
      ensures var i := IdIndex(old(entries), id);
              if i == |old(entries)| then updated == None && entries == old(entries)
              else
                var e := old(entries)[i].(status := status);
                updated == Some(e) && entries == old(entries)[i := e]
    {
      var k := FindId(id);
      if k == |entries| {
        return None;
      }
      entries := entries[k := entries[k].(status := status)];
      return Some(entries[k]);
    }

    method RecordRejection(id: Id, reason: Option<string>) returns (updated: Option<Execution>)
      modifies this
      ensures var i := IdIndex(old(entries), id);
              if i == |old(entries)| then updated == None && entries == old(entries)
              else
                var e := old(entries)[i].(status := Rejected, reason := reason);
                updated == Some(e) && entries == old(entries)[i := e]
    {
      var k := FindId(id);
      if k == |entries| {
        return None;
      }
      entries := entries[k := entries[k].(status := Rejected, reason := reason)];
      return Some(entries[k]);
    }

    method ListPending(now: int) returns (open: Entries)
      ensures open == OpenEntries(entries, now)
    {
      hide IsOpen;
      open := [];
      var k := 0;
      while k < |entries|
        invariant k <= |entries|
        invariant open == OpenEntries(entries[..k], now)
      {
        OpenEntriesSnoc(entries, now, k);
        if IsOpen(entries[k], now) {
          open := open + [entries[k]];
        }
        k := k + 1;
      }
      assert entries[..k] == entries;
    }

    method ConsumeApproved(plan: Plan, now: int) returns (used: Option<Execution>)
      modifies this
      ensures (entries, used) == Use(old(entries), plan, now)
    {
      hide Usable, OldestIndex;
      var best: Option<nat> := None;
      var k := 0;
      NothingUsable(plan, now);
      assert entries[..0] == [];
      while k < |entries|
        invariant k <= |entries| && entries == old(entries)
        invariant OldestIndex(entries[..k], plan, now) == if best.Some? then best.value else k
        invariant best.Some? ==> best.value < k
      {
        OldestSnoc(entries, plan, now, k);
        if Usable(entries[k], plan, now) && (best.None? || entries[k].createdAt < entries[best.value].createdAt) {
          best := Some(k);
        }
        k := k + 1;
      }
      assert entries[..k] == entries;
      if best.None? {
        return None;
      }
      entries := entries[best.value := entries[best.value].(status := Consumed)];
      return Some(entries[best.value]);
    }

    method PurgeTerminalAndExpired(nowMs: int) returns (removed: nat)
      modifies this
      ensures entries == Purged(old(entries), nowMs) && removed == |old(entries)| - |entries|
    {
      hide Purges;
      var before := |entries|;
      var kept: Entries := [];
      var k := 0;
      while k < |entries|
        invariant k <= |entries| && entries == old(entries)
        invariant kept == Purged(entries[..k], nowMs)
      {
        PurgedSnoc(entries, nowMs, k);
        if !Purges(entries[k], nowMs) {
          kept := kept + [entries[k]];
        }
        k := k + 1;
      }
      assert entries[..k] == entries;
      entries := kept;
      removed := before - |entries|;
    }
  }

  lemma {:induction false} OpenHere(es: Entries, id: Id, now: int)
    requires es != [] && es[0].id == id && IsOpen(es[0], now)
    ensures OpenIndex(es, id, now) == 0
  {
  }

  /** Each method is one step of the machine, `Step`. */
  class ApprovalService {
    const store: PendingStore
    var ttlMs: int

    ghost function View(): Service
      reads this, store
    {
      Service(store.entries, ttlMs)
    }

    constructor (ttlMs: int)
      ensures fresh(store) && View() == Service([], ttlMs)
    {
      this.ttlMs := ttlMs;
      store := new PendingStore();
    }

    method SetTtlMs(ttlMs: int)
      modifies this
      ensures View() == Step(old(View()), SetTtl(ttlMs)).0
    {
      this.ttlMs := ttlMs;
    }

    method RequestExecution(plan: Plan, id: Id, now: int, created: int) returns (pending: Execution)
      modifies store
      ensures (View(), Requested(pending)) == Step(old(View()), Request(plan, id, now, created))
    {
      pending := store.CreatePending(plan, Some(now + ttlMs), id, created);
    }

    method ListPending(now: int) returns (open: Entries)
      ensures (View(), Listed(open)) == Step(View(), List(now))
    {
      open := store.ListPending(now);
    }

    method GetExecution(id: Id) returns (found: Option<Execution>)
      ensures (View(), Got(found)) == Step(View(), Get(id))
    {
      found := store.GetExecution(id);
    }

    method Approve(id: Id, now: int) returns (approved: Option<Execution>, replay: Option<Plan>)
      modifies store
      ensures (View(), Decided(approved, replay)) == Step(old(View()), Op.Approve(id, now))
    {
      hide OpenIndex, IdIndex;
      var pending := store.GetPending(id, now);
      if pending.None? {
        return None, None;
      }
      approved := store.UpdateStatus(id, Approved);
      if approved.None? {
        return None, None;
      }
      replay := Some(pending.value.plan);
    }

    method Reject(id: Id, reason: Option<string>, now: int) returns (rejected: Option<Execution>)
      modifies store
      ensures (View(), Decided(rejected, None)) == Step(old(View()), Op.Reject(id, reason, now))
    {
      hide OpenIndex, IdIndex, NormalizeReason;
      var pending := store.GetPending(id, now);
      if pending.None? {
        return None;
      }
      rejected := store.RecordRejection(id, NormalizeReason(reason));
    }

    method ConsumeApproved(plan: Plan, now: int) returns (used: Option<Execution>)
      modifies store
      ensures (View(), Used(used)) == Step(old(View()), Consume(plan, now))
    {
      hide OldestIndex;
      used := store.ConsumeApproved(plan, now);
    }

    method PurgeTerminalAndExpired(nowMs: int) returns (removed: nat)
      modifies store
      ensures (View(), Removed(removed)) == Step(old(View()), Purge(nowMs))
    {
      removed := store.PurgeTerminalAndExpired(nowMs);
    }
  }
}
