/** Which records a sweep goes after, in every interleaving: leases against the clock. */
module Leases {
  import opened Lifecycle

  /** A sweep has still to destroy `id`, or is about to. */
  predicate IsTarget(pc: Pc, id: Id) {
    match pc
    case Sweeping(ids) => id in ids
    case Loading(x, andThen) => InSweep(x, andThen, id)
    case Removing(rec, andThen) => InSweep(rec.id, andThen, id)
    case Cleaning(rec, andThen) => InSweep(rec.id, andThen, id)
    case Deleting(x, andThen) => InSweep(x, andThen, id)
    case Retiring(x, rest) => x == id || id in rest
    case _ => false
  }

  predicate InSweep(x: Id, andThen: Then, id: Id) { andThen.Sweep? && (x == id || id in andThen.rest) }

  /** Where a target is the moment before: one already, or in a listing that has run out of
      its lease. */
  predicate Comes(s: State, pc: Pc, id: Id) { IsTarget(pc, id) || (pc.Listing? && ReadExpired(s, pc, id)) }

  /** `c` has been in one call since step `start`, which began a sweep. */
  ghost predicate SweepSince(run: seq<State>, acts: seq<Action>, c: Call, start: nat, n: nat)
    requires |run| == |acts| + 1 && n < |run|
  {
    start < n && acts[start].StartReap? && acts[start].c == c
    && forall j :: start < j <= n ==> PcOf(run[j], c) != Idle
  }

  /** Records are filed under their own ids. */
  predicate OwnIds(s: State) { forall id :: id in s.store ==> s.store[id].id == id }

  lemma AlwaysOwnIds(run: seq<State>, acts: seq<Action>, n: nat)
    requires IsRun(run, acts) && n < |run|
    ensures OwnIds(run[n])
  {
    Always(run, acts, n);
    LedgerOwnIds(run[n]);
  }

  lemma LedgerOwnIds(s: State)
    requires Ledger(s)
    ensures OwnIds(s)
  {
  }

  lemma ListingStep(s: State, a: Action, c: Call)
    requires Enabled(s, a) && PcOf(Apply(s, a), c).Listing?
    ensures if PcOf(s, c).Listing? then PcOf(Apply(s, a), c).ttl == PcOf(s, c).ttl
            else a == StartReap(c, PcOf(Apply(s, a), c).ttl) && PcOf(Apply(s, a), c).recs == []
    ensures forall rec :: rec in PcOf(Apply(s, a), c).recs ==>
              || (PcOf(s, c).Listing? && rec in PcOf(s, c).recs)
              || (a.ListOne? && a.c == c && a.id in s.store && rec == s.store[a.id])
  {
  }

  lemma {:induction false} ListingSince(run: seq<State>, acts: seq<Action>, c: Call, n: nat) returns (start: nat)
    requires IsRun(run, acts) && n < |run| && PcOf(run[n], c).Listing?
    ensures SweepSince(run, acts, c, start, n) && acts[start].ttl == PcOf(run[n], c).ttl
  {
    assert n > 0;
    LastStep(run, acts, n);
    ListingStep(run[n - 1], acts[n - 1], c);
    if PcOf(run[n - 1], c).Listing? {
      start := ListingSince(run, acts, c, n - 1);
    } else {
      start := n - 1;
    }
  }

  /** A listed record was in the store after its sweep had begun. */
  lemma {:induction false} ListedWasStored(run: seq<State>, acts: seq<Action>, c: Call, n: nat, rec: Record)
      returns (start: nat, i: nat)
    requires IsRun(run, acts) && n < |run| && PcOf(run[n], c).Listing? && rec in PcOf(run[n], c).recs
    ensures SweepSince(run, acts, c, start, n) && acts[start].ttl == PcOf(run[n], c).ttl
    ensures start < i < n && rec.id in run[i].store && run[i].store[rec.id] == rec
  {
    assert n > 0;
    LastStep(run, acts, n);
    ListingStep(run[n - 1], acts[n - 1], c);
    if rec in PcOf(run[n - 1], c).recs {
      start, i := ListedWasStored(run, acts, c, n - 1, rec);
    } else {
      AlwaysOwnIds(run, acts, n - 1);
      start := ListingSince(run, acts, c, n - 1);
      i := n - 1;
    }
  }

  /** A step of a sweep adds no target, but for the end of its listing. */
  lemma TargetsShrink(s: State, a: Action, c: Call, id: Id)
    requires OwnIds(s) && Enabled(s, a) && IsTarget(PcOf(Apply(s, a), c), id)
    ensures Comes(s, PcOf(s, c), id) && s.now <= Apply(s, a).now
  {
  }

  lemma TargetStep(run: seq<State>, acts: seq<Action>, c: Call, n: nat, id: Id)
    requires IsRun(run, acts) && 0 < n < |run| && IsTarget(PcOf(run[n], c), id)
    ensures Comes(run[n - 1], PcOf(run[n - 1], c), id) && run[n - 1].now <= run[n].now
  {
    LastStep(run, acts, n);
    AlwaysOwnIds(run, acts, n - 1);
    TargetsShrink(run[n - 1], acts[n - 1], c, id);
  }

  /** Every record a sweep goes after was, at some moment since the sweep began, in the store
      with a lease that ran out, grace included, before the sweep's listing ended. */
  lemma {:induction false} SweptWasExpired(run: seq<State>, acts: seq<Action>, c: Call, n: nat, id: Id)
      returns (start: nat, i: nat)
    requires IsRun(run, acts) && n < |run| && IsTarget(PcOf(run[n], c), id)
    ensures SweepSince(run, acts, c, start, n)
    ensures start < i < n && id in run[i].store && run[i].store[id].lease + acts[start].ttl < run[n].now
  {
    assert n > 0;
    TargetStep(run, acts, c, n, id);
    if !IsTarget(PcOf(run[n - 1], c), id) {
      start, i := ExpiredWasStored(run, acts, c, n - 1, id);
    } else {
      start, i := SweptWasExpired(run, acts, c, n - 1, id);
    }
  }

  lemma ExpiredWasStored(run: seq<State>, acts: seq<Action>, c: Call, n: nat, id: Id) returns (start: nat, i: nat)
    requires IsRun(run, acts) && n < |run| && PcOf(run[n], c).Listing? && ReadExpired(run[n], PcOf(run[n], c), id)
    ensures SweepSince(run, acts, c, start, n)
    ensures start < i < n && id in run[i].store && run[i].store[id].lease + acts[start].ttl < run[n].now
  {
    var pc := PcOf(run[n], c);
    var k :| 0 <= k < |pc.recs| && pc.recs[k].id == id && pc.recs[k].lease + pc.ttl < run[n].now;
    start, i := ListedWasStored(run, acts, c, n, pc.recs[k]);
  }

  /** The step is a renewal's save of the record `id`. */
  predicate SavesLease(s: State, a: Action, id: Id) {
    a.Renew? && a.done && PcOf(s, a.c).Renewing? && PcOf(s, a.c).rec.id == id
  }

  /** The record `id` exists, or existed, and its lease is not below this one. */
  predicate Floor(s: State, id: Id, lease: int) {
    id in s.saved && (id in s.store ==> s.store[id].lease >= lease)
  }

  /** A create saves a new id, a renewal one that was saved before. */
  predicate Orderly(s: State, pc: Pc) {
    (pc.Saving? ==> pc.id !in s.saved) && (pc.Renewing? ==> pc.rec.id in s.saved)
  }

  lemma AlwaysOrderly(run: seq<State>, acts: seq<Action>, n: nat, c: Call)
    requires IsRun(run, acts) && n < |run|
    ensures Orderly(run[n], PcOf(run[n], c))
  {
    Always(run, acts, n);
    assert PcOk(run[n], PcOf(run[n], c));
  }

  lemma StepFloor(s: State, a: Action, id: Id, lease: int)
    requires Enabled(s, a) && (IsOutside(a) || Orderly(s, PcOf(s, a.c)))
    requires SavesLease(s, a, id) ==> a.lease >= lease
    requires SavesLease(s, a, id) || Floor(s, id, lease)
    ensures Floor(Apply(s, a), id, lease)
  {
  }

  lemma FloorStep(run: seq<State>, acts: seq<Action>, n: nat, id: Id, lease: int)
    requires IsRun(run, acts) && 0 < n < |run|
    requires SavesLease(run[n - 1], acts[n - 1], id) ==> acts[n - 1].lease >= lease
    requires SavesLease(run[n - 1], acts[n - 1], id) || Floor(run[n - 1], id, lease)
    ensures Floor(run[n], id, lease)
  {
    if !IsOutside(acts[n - 1]) { AlwaysOrderly(run, acts, n - 1, acts[n - 1].c); }
    LastStep(run, acts, n);
    StepFloor(run[n - 1], acts[n - 1], id, lease);
  }

  /** From a renewal's save on, the record's lease is at least what it saved, as long as no
      other renewal saves less. */
  lemma {:induction false} LeaseHolds(run: seq<State>, acts: seq<Action>, k: nat, n: nat, id: Id)
    requires IsRun(run, acts) && k < n < |run| && SavesLease(run[k], acts[k], id)
    requires forall j :: k < j < n && SavesLease(run[j], acts[j], id) ==> acts[j].lease >= acts[k].lease
    ensures Floor(run[n], id, acts[k].lease)
  {
    if k == n - 1 {
      FloorStep(run, acts, n, id, acts[k].lease);
    } else {
      LeaseHolds(run, acts, k, n - 1, id);
      FloorStep(run, acts, n, id, acts[k].lease);
    }
  }

  /** A renewal protects its record: no sweep that begins after the renewal's save goes after
      the record until the saved lease has run out, unless another renewal saved less. */
  lemma RenewProtects(run: seq<State>, acts: seq<Action>, k: nat, n: nat, c: Call, id: Id)
    requires IsRun(run, acts) && k < n < |run| && SavesLease(run[k], acts[k], id)
    requires forall j :: k < j < n && SavesLease(run[j], acts[j], id) ==> acts[j].lease >= acts[k].lease
    requires PcOf(run[k + 1], c).Idle? && run[n].now <= acts[k].lease
    ensures !IsTarget(PcOf(run[n], c), id)
  {
    if IsTarget(PcOf(run[n], c), id) {
      var start, i := SweptWasExpired(run, acts, c, n, id);
      LeaseHolds(run, acts, k, i, id);
    }
  }
}
