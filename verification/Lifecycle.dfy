/** `create`, `destroy`, `renew` and `reap` as interleaved steps of many calls, any of which
    may fail at every step or die between two of them. */
module Lifecycle {
  import opened Text

  type Call = nat

  /** Sandbox ids are fresh values; so are VMs, whatever tags they are given. */
  type Id = nat
  type Tag = string
  type Vm = nat

  datatype Record = Record(id: Id, tag: Tag, keyed: bool, cleanupFailed: bool, lease: int)

  /** What a destroy does next: return, or go on with a sweep. */
  datatype Then = Stop | Sweep(rest: seq<Id>)

  /** Where a call stands: the step named is the next one to run. */
  datatype Pc =
    | Idle
    | Provisioning(id: Id, keyed: bool)
    | Registering(id: Id, keyed: bool, tag: Tag, vm: Vm)
    | RollingBack(id: Id, keyed: bool, tag: Tag)
    | Saving(id: Id, keyed: bool, tag: Tag, vm: Vm)
    | Proving(id: Id)
    | Loading(id: Id, andThen: Then)
    | Removing(rec: Record, andThen: Then)
    | Cleaning(rec: Record, andThen: Then)
    | Deleting(id: Id, andThen: Then)
    | Listing(ttl: nat, since: set<Id>, recs: seq<Record>)
    | Sweeping(ids: seq<Id>)
    | Retiring(id: Id, rest: seq<Id>)
    | Fetching(id: Id)
    | Renewing(rec: Record)

  datatype Birth = Birth(tag: Tag, vm: Vm)

  /** `now` is the clock, `vms` the backend, `keys` the key directories. `saved` remembers the VM of every
      create that passed its save, `retired` the records that reap's NotFound arm deleted. */
  datatype State = State(
    now: int,
    calls: map<Call, Pc>,
    vms: map<Tag, Vm>,
    nextVm: Vm,
    store: map<Id, Record>,
    keys: set<Id>,
    used: set<Id>,
    saved: map<Id, Birth>,
    retired: set<Id>
  )

  function PcOf(s: State, c: Call): Pc { if c in s.calls then s.calls[c] else Idle }

  datatype Answer = Ok | NotFound | Error

  /** One atomic step. `done` says that a save or removal took effect, which a step that
      reports an error may still have done. */
  datatype Action =
    | StartCreate(c: Call, id: Id, keyed: bool)
    | Provision(c: Call, tag: Tag)
    | ProvisionFails(c: Call, leak: Option<Tag>, done: bool)
    | Register(c: Call, ok: bool)
    | RollBack(c: Call, vmGone: bool, done: bool)
    | Save(c: Call, ok: bool, done: bool, lease: int)
    | Prove(c: Call)
    | StartDestroy(c: Call, id: Id)
    | Load(c: Call, ok: bool)
    | Remove(c: Call, answer: Answer, done: bool)
    | CleanUp(c: Call, ok: bool, done: bool)
    | Delete(c: Call, ok: bool, done: bool)
    | StartReap(c: Call, ttl: nat)
    | ListOne(c: Call, id: Id)
    | EndList(c: Call, expired: seq<Id>)
    | Next(c: Call)
    | Retire(c: Call, done: bool)
    | StartRenew(c: Call, id: Id)
    | Fetch(c: Call, ok: bool)
    | Renew(c: Call, done: bool, lease: int)
    | Crash(c: Call)
    | VmAppears(tag: Tag)
    | VmVanishes(tag: Tag)
    | Tick(seconds: nat)

  predicate Enabled(s: State, a: Action) {
    match a
    case StartCreate(c, id, _) => PcOf(s, c).Idle? && id !in s.used
    case Provision(c, tag) => PcOf(s, c).Provisioning? && tag !in s.vms
    case ProvisionFails(c, leak, _) => PcOf(s, c).Provisioning? && (leak.Some? ==> leak.value !in s.vms)
    case Register(c, _) => PcOf(s, c).Registering?
    case RollBack(c, _, _) => PcOf(s, c).RollingBack?
    case Save(c, ok, done, _) => PcOf(s, c).Saving? && (ok ==> done)
    case Prove(c) => PcOf(s, c).Proving?
    case StartDestroy(c, _) => PcOf(s, c).Idle?
    case Load(c, _) => PcOf(s, c).Loading?
    case Remove(c, answer, done) => PcOf(s, c).Removing? && (answer != Error ==> done)
    case CleanUp(c, ok, done) => PcOf(s, c).Cleaning? && (ok ==> done)
    case Delete(c, ok, done) => PcOf(s, c).Deleting? && (ok ==> done)
    case StartReap(c, _) => PcOf(s, c).Idle?
    case ListOne(c, id) => PcOf(s, c).Listing? && id in s.store
    case EndList(c, expired) =>
      && PcOf(s, c).Listing? && ReadAllThatStayed(s, PcOf(s, c))
      && forall id :: id in expired ==> ReadExpired(s, PcOf(s, c), id)
    case Next(c) => PcOf(s, c).Sweeping?
    case Retire(c, _) => PcOf(s, c).Retiring?
    case StartRenew(c, _) => PcOf(s, c).Idle?
    case Fetch(c, _) => PcOf(s, c).Fetching?
    case Renew(c, _, _) => PcOf(s, c).Renewing?
    case Crash(_) => true
    case VmAppears(tag) => tag !in s.vms
    case VmVanishes(_) => true
    case Tick(_) => true
  }

  /** The sweep's filter: the record, as it was listed, has a lease that is more than `ttl`
      past. The clock may have been read before this step, so the filter may take less. */
  predicate ReadExpired(s: State, pc: Pc, id: Id)
    requires pc.Listing?
  {
    exists i :: 0 <= i < |pc.recs| && pc.recs[i].id == id && pc.recs[i].lease + pc.ttl < s.now
  }

  /** A directory listing reports at least the records that are there from start to end. */
  predicate ReadAllThatStayed(s: State, pc: Pc)
    requires pc.Listing?
  {
    forall id :: id in pc.since && id in s.store ==> HasRead(pc.recs, id)
  }

  predicate HasRead(recs: seq<Record>, id: Id) { exists i :: 0 <= i < |recs| && recs[i].id == id }

  /** A step of nobody's call. */
  predicate IsOutside(a: Action) { a.VmAppears? || a.VmVanishes? || a.Tick? }

  /** The backend makes a VM under a tag that was free. */
  function Boot(s: State, tag: Tag): State { s.(vms := s.vms[tag := s.nextVm], nextVm := s.nextVm + 1) }

  function Drop<K, V>(m: map<K, V>, k: K, done: bool): map<K, V> { if done then m - {k} else m }

  function Without(keys: set<Id>, id: Id, done: bool): set<Id> { if done then keys - {id} else keys }

  function Resume(andThen: Then): Pc { if andThen.Stop? then Idle else Sweeping(andThen.rest) }

  /** Reap turns a NotFound into a delete of the record; a plain destroy reports it. */
  function OnNotFound(id: Id, andThen: Then): Pc { if andThen.Stop? then Idle else Retiring(id, andThen.rest) }

  function Apply(s: State, a: Action): State
    requires Enabled(s, a)
  {
    match a
    case VmAppears(tag) => Boot(s, tag)
    case VmVanishes(tag) => s.(vms := s.vms - {tag})
    case Tick(seconds) => s.(now := s.now + seconds)
    case _ =>
      var (t, pc') := Step(s, a, PcOf(s, a.c));
      t.(calls := s.calls[a.c := pc'])
  }

  /** The step's effect on everything shared, and where it leaves the call. */
  function Step(s: State, a: Action, pc: Pc): (State, Pc)
    requires Enabled(s, a) && !IsOutside(a) && pc == PcOf(s, a.c)
  {
    match a
    case StartCreate(_, id, keyed) =>
      (s.(used := s.used + {id}, keys := if keyed then s.keys + {id} else s.keys), Provisioning(id, keyed))
    case Provision(_, tag) =>
      (Boot(s, tag), if pc.keyed then Registering(pc.id, true, tag, s.nextVm) else Saving(pc.id, false, tag, s.nextVm))
    case ProvisionFails(_, leak, done) =>
      ((if leak.Some? then Boot(s, leak.value) else s).(keys := Without(s.keys, pc.id, done)), Idle)
    case Register(_, ok) =>
      (s, if ok then Saving(pc.id, pc.keyed, pc.tag, pc.vm) else RollingBack(pc.id, pc.keyed, pc.tag))
    case RollBack(_, vmGone, done) =>
      (s.(vms := Drop(s.vms, pc.tag, vmGone), keys := Without(s.keys, pc.id, done)), Idle)
    case Save(_, ok, done, lease) =>
      (if done then s.(store := s.store[pc.id := Record(pc.id, pc.tag, pc.keyed, false, lease)],
                       saved := s.saved[pc.id := Birth(pc.tag, pc.vm)])
       else s,
       if ok then Proving(pc.id) else Idle)
    case Prove(_) => (s, Idle)
    case StartDestroy(_, id) => (s, Loading(id, Stop))
    case Load(_, ok) =>
      (s, if !ok then Resume(pc.andThen)
          else if pc.id in s.store then Removing(s.store[pc.id], pc.andThen)
          else OnNotFound(pc.id, pc.andThen))
    case Remove(_, answer, done) =>
      (s.(vms := Drop(s.vms, pc.rec.tag, done)),
       match answer
       case Ok => Cleaning(pc.rec, pc.andThen)
       case NotFound => OnNotFound(pc.rec.id, pc.andThen)
       case Error => Resume(pc.andThen))
    case CleanUp(_, ok, done) =>
      if pc.rec.keyed then
        (s.(keys := Without(s.keys, pc.rec.id, done)),
         if ok then Deleting(pc.rec.id, pc.andThen) else Resume(pc.andThen))
      else (s, Deleting(pc.rec.id, pc.andThen))
    case Delete(_, ok, done) => (s.(store := Drop(s.store, pc.id, done)), Resume(pc.andThen))
    case StartReap(_, ttl) => (s, Listing(ttl, s.store.Keys, []))
    case ListOne(_, id) => (s, Listing(pc.ttl, pc.since, pc.recs + [s.store[id]]))
    case EndList(_, expired) => (s, Sweeping(expired))
    case Next(_) => (s, if pc.ids == [] then Idle else Loading(pc.ids[0], Sweep(pc.ids[1..])))
    case Retire(_, done) =>
      (s.(store := Drop(s.store, pc.id, done),
          retired := if done && pc.id in s.store then s.retired + {pc.id} else s.retired),
       Sweeping(pc.rest))
    case StartRenew(_, id) => (s, Fetching(id))
    case Fetch(_, ok) =>
      (s, if ok && pc.id in s.store && !s.store[pc.id].cleanupFailed then Renewing(s.store[pc.id]) else Idle)
    case Renew(_, done, lease) =>
      (if done then s.(store := s.store[pc.rec.id := pc.rec.(lease := lease)]) else s, Idle)
    case Crash(_) => (s, Idle)
  }

  predicate Init(s: State) {
    && s.calls == map[] && s.store == map[] && s.saved == map[] && s.keys <= s.used
    && forall tag :: tag in s.vms ==> s.vms[tag] < s.nextVm
  }

  ghost predicate IsRun(run: seq<State>, acts: seq<Action>) {
    && |run| == |acts| + 1
    && Init(run[0])
    && forall i :: 0 <= i < |acts| ==> IsStep(run, acts, i)
  }

  predicate IsStep(run: seq<State>, acts: seq<Action>, i: nat)
    requires |run| == |acts| + 1 && i < |acts|
  {
    Enabled(run[i], acts[i]) && run[i + 1] == Apply(run[i], acts[i])
  }

  lemma LastStep(run: seq<State>, acts: seq<Action>, n: nat)
    requires IsRun(run, acts) && 0 < n < |run|
    ensures Enabled(run[n - 1], acts[n - 1]) && run[n] == Apply(run[n - 1], acts[n - 1])
  {
    assert IsStep(run, acts, n - 1);
  }

  lemma Extend(run: seq<State>, acts: seq<Action>, a: Action)
    requires IsRun(run, acts) && Enabled(run[|acts|], a)
    ensures IsRun(run + [Apply(run[|acts|], a)], acts + [a])
  {
    var run', acts' := run + [Apply(run[|acts|], a)], acts + [a];
    forall i: nat | i < |acts'| ensures IsStep(run', acts', i) {
      if i < |acts| {
        assert IsStep(run, acts, i);
      }
    }
  }

  // ---- the invariant ----

  /** The VM made by the create of `id` is no longer at the backend. */
  predicate Gone(s: State, id: Id)
    requires id in s.saved
  {
    s.saved[id].tag in s.vms ==> s.vms[s.saved[id].tag] != s.saved[id].vm
  }

  /** A record in the store, or in the hands of a call, names its own VM. */
  predicate Names(s: State, rec: Record, id: Id) {
    rec.id == id && id in s.saved && s.saved[id].tag == rec.tag && (!rec.keyed ==> id !in s.keys)
  }

  predicate SavedGone(s: State, id: Id) { id in s.saved && Gone(s, id) }

  predicate AllSaved(s: State, ids: seq<Id>) { forall id :: id in ids ==> id in s.saved }

  predicate ThenOk(s: State, andThen: Then) { andThen.Sweep? ==> AllSaved(s, andThen.rest) }

  predicate PcOk(s: State, pc: Pc) {
    match pc
    case Provisioning(id, keyed) => Unsaved(s, id, keyed)
    case Registering(id, keyed, _, vm) => Unsaved(s, id, keyed) && vm < s.nextVm
    case RollingBack(id, keyed, _) => Unsaved(s, id, keyed)
    case Saving(id, keyed, _, vm) => Unsaved(s, id, keyed) && vm < s.nextVm
    case Loading(id, andThen) => ThenOk(s, andThen) && (andThen.Sweep? ==> id in s.saved)
    case Removing(rec, andThen) => ThenOk(s, andThen) && Names(s, rec, rec.id)
    case Cleaning(rec, andThen) => ThenOk(s, andThen) && Names(s, rec, rec.id) && Gone(s, rec.id)
    case Deleting(id, andThen) => ThenOk(s, andThen) && SavedGone(s, id) && id !in s.keys
    case Retiring(id, rest) => AllSaved(s, rest) && SavedGone(s, id)
    case Listing(_, _, recs) => forall rec :: rec in recs ==> rec.id in s.saved
    case Sweeping(ids) => AllSaved(s, ids)
    case Renewing(rec) => Names(s, rec, rec.id)
    case _ => true
  }

  predicate Unsaved(s: State, id: Id, keyed: bool) {
    id in s.used && id !in s.saved && id !in s.store && (!keyed ==> id !in s.keys)
  }

  /** The id a create has not saved yet. */
  function Pending(pc: Pc): Option<Id> {
    if pc.Provisioning? || pc.Registering? || pc.RollingBack? || pc.Saving? then Some(pc.id) else None
  }

  ghost predicate Ledger(s: State) {
    && s.keys <= s.used
    && (forall tag :: tag in s.vms ==> s.vms[tag] < s.nextVm)
    && (forall id :: id in s.saved ==> id in s.used && s.saved[id].vm < s.nextVm)
    && (forall id :: id in s.store ==> Names(s, s.store[id], id))
  }

  /** A record goes only after its VM, and, except by reap's NotFound arm, after its key
      directory. */
  ghost predicate Tracked(s: State) {
    forall id :: id in s.saved && id !in s.store ==> Gone(s, id) && (id in s.keys ==> id in s.retired)
  }

  ghost predicate Inv(s: State) {
    && Ledger(s)
    && Tracked(s)
    && (forall c :: PcOk(s, PcOf(s, c)))
    && (forall c, d :: Pending(PcOf(s, c)).Some? && Pending(PcOf(s, c)) == Pending(PcOf(s, d)) ==> c == d)
  }

  /** What every step does to what the other calls rely on. */
  ghost predicate Grows(s: State, t: State, mine: Option<Id>) {
    && s.nextVm <= t.nextVm && s.used <= t.used && s.retired <= t.retired
    && (forall id :: id in s.saved ==> id in t.saved && t.saved[id] == s.saved[id])
    && (forall id :: id in s.saved && Gone(s, id) ==> Gone(t, id))
    && (forall id :: id in s.used && id !in s.keys ==> id !in t.keys)
    && (forall id :: id !in s.saved && id in t.saved ==> mine == Some(id))
    && (forall id :: id !in s.store && id in t.store && id !in s.saved ==> mine == Some(id))
  }

  lemma PcOkGrows(s: State, t: State, mine: Option<Id>, pc: Pc)
    requires Ledger(s) && PcOk(s, pc) && Grows(s, t, mine)
    requires mine.Some? ==> Pending(pc) != mine
    ensures PcOk(t, pc)
  {
  }

  lemma Framed(s: State, t: State, c: Call)
    requires Inv(s) && Ledger(t) && Tracked(t)
    requires t.calls == s.calls[c := PcOf(t, c)] && Grows(s, t, Pending(PcOf(s, c)))
    requires PcOk(t, PcOf(t, c))
    requires Pending(PcOf(t, c)).Some? ==>
               Pending(PcOf(t, c)) == Pending(PcOf(s, c)) || Pending(PcOf(t, c)).value !in s.used
    ensures Inv(t)
  {
    forall d ensures PcOk(t, PcOf(t, d)) {
      if d != c {
        assert PcOf(t, d) == PcOf(s, d);
        PcOkGrows(s, t, Pending(PcOf(s, c)), PcOf(s, d));
      }
    }
    forall d, e | Pending(PcOf(t, d)).Some? && Pending(PcOf(t, d)) == Pending(PcOf(t, e)) ensures d == e {
      assert d != c ==> PcOf(t, d) == PcOf(s, d) && PcOk(s, PcOf(s, d));
      assert e != c ==> PcOf(t, e) == PcOf(s, e) && PcOk(s, PcOf(s, e));
    }
  }

  /** A step that moves only the call. */
  lemma Moved(s: State, t: State, c: Call)
    requires Inv(s) && t == s.(calls := s.calls[c := PcOf(t, c)]) && PcOk(s, PcOf(t, c))
    requires Pending(PcOf(t, c)).Some? ==> Pending(PcOf(t, c)) == Pending(PcOf(s, c))
    ensures Inv(t)
  {
    PcOkSameShared(s, t, PcOf(t, c));
    Framed(s, t, c);
  }

  lemma PcOkSameShared(s: State, t: State, pc: Pc)
    requires t == s.(calls := t.calls) && PcOk(s, pc)
    ensures PcOk(t, pc)
  {
  }

  predicate IsShared(a: Action) {
    || a.StartCreate? || a.Provision? || a.ProvisionFails? || a.RollBack? || a.Save?
    || a.Remove? || a.CleanUp? || a.Delete? || a.Retire? || a.Renew?
  }

  lemma StartKeeps(s: State, a: Action)
    requires Inv(s) && Enabled(s, a) && a.StartCreate?
    ensures Inv(Apply(s, a))
  {
    assert PcOk(s, PcOf(s, a.c));
    Framed(s, Apply(s, a), a.c);
  }

  lemma ProvisionKeeps(s: State, a: Action)
    requires Inv(s) && Enabled(s, a) && a.Provision?
    ensures Inv(Apply(s, a))
  {
    assert PcOk(s, PcOf(s, a.c));
    Framed(s, Apply(s, a), a.c);
  }

  lemma ProvisionFailsKeeps(s: State, a: Action)
    requires Inv(s) && Enabled(s, a) && a.ProvisionFails? && a.leak.None?
    ensures Inv(Apply(s, a))
  {
    assert PcOk(s, PcOf(s, a.c));
    Framed(s, Apply(s, a), a.c);
  }

  lemma ProvisionLeaksKeeps(s: State, a: Action)
    requires Inv(s) && Enabled(s, a) && a.ProvisionFails? && a.leak.Some?
    ensures Inv(Apply(s, a))
  {
    assert PcOk(s, PcOf(s, a.c));
    Framed(s, Apply(s, a), a.c);
  }

  lemma RollBackKeeps(s: State, a: Action)
    requires Inv(s) && Enabled(s, a) && a.RollBack?
    ensures Inv(Apply(s, a))
  {
    assert PcOk(s, PcOf(s, a.c));
    Framed(s, Apply(s, a), a.c);
  }

  lemma SaveKeeps(s: State, a: Action)
    requires Inv(s) && Enabled(s, a) && a.Save?
    ensures Inv(Apply(s, a))
  {
    assert PcOk(s, PcOf(s, a.c));
    Framed(s, Apply(s, a), a.c);
  }

  lemma RemoveKeeps(s: State, a: Action)
    requires Inv(s) && Enabled(s, a) && a.Remove?
    ensures Inv(Apply(s, a))
  {
    assert PcOk(s, PcOf(s, a.c));
    Framed(s, Apply(s, a), a.c);
  }

  lemma CleanUpKeeps(s: State, a: Action)
    requires Inv(s) && Enabled(s, a) && a.CleanUp?
    ensures Inv(Apply(s, a))
  {
    assert PcOk(s, PcOf(s, a.c));
    Framed(s, Apply(s, a), a.c);
  }

  lemma DeleteKeeps(s: State, a: Action)
    requires Inv(s) && Enabled(s, a) && a.Delete?
    ensures Inv(Apply(s, a))
  {
    assert PcOk(s, PcOf(s, a.c));
    Framed(s, Apply(s, a), a.c);
  }

  lemma RetireKeeps(s: State, a: Action)
    requires Inv(s) && Enabled(s, a) && a.Retire?
    ensures Inv(Apply(s, a))
  {
    assert PcOk(s, PcOf(s, a.c));
    Framed(s, Apply(s, a), a.c);
  }

  lemma RenewKeeps(s: State, a: Action)
    requires Inv(s) && Enabled(s, a) && a.Renew?
    ensures Inv(Apply(s, a))
  {
    assert PcOk(s, PcOf(s, a.c));
    Framed(s, Apply(s, a), a.c);
  }

  lemma MoveKeeps(s: State, a: Action)
    requires Inv(s) && Enabled(s, a) && !IsShared(a) && !IsOutside(a)
    ensures Inv(Apply(s, a))
  {
    assert PcOk(s, PcOf(s, a.c));
    Moved(s, Apply(s, a), a.c);
  }

  lemma OutsideKeeps(s: State, a: Action)
    requires Inv(s) && Enabled(s, a) && IsOutside(a)
    ensures Inv(Apply(s, a))
  {
    var t := Apply(s, a);
    assert Grows(s, t, None);
    assert forall c :: PcOf(t, c) == PcOf(s, c);
    forall c ensures PcOk(t, PcOf(t, c)) {
      PcOkGrows(s, t, None, PcOf(s, c));
    }
  }

  lemma StepKeeps(s: State, a: Action)
    requires Inv(s) && Enabled(s, a)
    ensures Inv(Apply(s, a))
  {
    if a.StartCreate? { StartKeeps(s, a); }
    else if a.Provision? { ProvisionKeeps(s, a); }
    else if a.ProvisionFails? {
      if a.leak.None? { ProvisionFailsKeeps(s, a); } else { ProvisionLeaksKeeps(s, a); }
    }
    else if a.RollBack? { RollBackKeeps(s, a); }
    else if a.Save? { SaveKeeps(s, a); }
    else if a.Remove? { RemoveKeeps(s, a); }
    else if a.CleanUp? { CleanUpKeeps(s, a); }
    else if a.Delete? { DeleteKeeps(s, a); }
    else if a.Retire? { RetireKeeps(s, a); }
    else if a.Renew? { RenewKeeps(s, a); }
    else if IsOutside(a) { OutsideKeeps(s, a); }
    else { MoveKeeps(s, a); }
  }

  lemma {:induction false} Always(run: seq<State>, acts: seq<Action>, n: nat)
    requires IsRun(run, acts) && n < |run|
    ensures Inv(run[n])
  {
    if n > 0 {
      Always(run, acts, n - 1);
      LastStep(run, acts, n);
      StepKeeps(run[n - 1], acts[n - 1]);
    }
  }

  /** What nobody can take back. */
  ghost predicate Lasting(s: State, t: State) {
    && s.now <= t.now && s.used <= t.used
    && (forall id :: id in s.saved ==> id in t.saved && t.saved[id] == s.saved[id])
    && (forall id :: id in s.saved && Gone(s, id) ==> Gone(t, id))
    && (forall id :: id in s.used && id !in s.keys ==> id !in t.keys)
  }

  lemma StepLasts(s: State, a: Action)
    requires Inv(s) && Enabled(s, a)
    ensures Lasting(s, Apply(s, a))
  {
    if IsOutside(a) {
    } else if a.StartCreate? || a.Provision? || a.ProvisionFails? || a.RollBack? || a.Save? {
      CreateLasts(s, a);
    } else {
      RestLasts(s, a);
    }
  }

  lemma CreateLasts(s: State, a: Action)
    requires Inv(s) && Enabled(s, a)
    requires a.StartCreate? || a.Provision? || a.ProvisionFails? || a.RollBack? || a.Save?
    ensures Lasting(s, Apply(s, a))
  {
    assert PcOk(s, PcOf(s, a.c));
  }

  lemma RestLasts(s: State, a: Action)
    requires Inv(s) && Enabled(s, a) && !IsOutside(a)
    requires !(a.StartCreate? || a.Provision? || a.ProvisionFails? || a.RollBack? || a.Save?)
    ensures Lasting(s, Apply(s, a))
  {
  }

  lemma {:induction false} Lasts(run: seq<State>, acts: seq<Action>, i: nat, n: nat)
    requires IsRun(run, acts) && i <= n < |run|
    ensures Lasting(run[i], run[n])
  {
    if i < n {
      Lasts(run, acts, i, n - 1);
      Always(run, acts, n - 1);
      LastStep(run, acts, n);
      StepLasts(run[n - 1], acts[n - 1]);
    }
  }

  /** A VM whose create has passed its save stays named by a record of the store until the
      backend no longer has it; and once gone it stays gone. */
  lemma TrackedUntilGone(run: seq<State>, acts: seq<Action>, i: nat, n: nat, id: Id)
    requires IsRun(run, acts) && i <= n < |run| && id in run[i].saved
    ensures id in run[n].saved && run[n].saved[id] == run[i].saved[id]
    ensures (id in run[n].store && run[n].store[id].tag == run[i].saved[id].tag) || Gone(run[n], id)
    ensures Gone(run[i], id) ==> Gone(run[n], id)
  {
    Always(run, acts, n);
    Lasts(run, acts, i, n);
  }

  /** A key directory outlives its record only if reap's NotFound arm deleted the record. */
  lemma KeyDirectoryGoesFirst(run: seq<State>, acts: seq<Action>, n: nat, id: Id)
    requires IsRun(run, acts) && n < |run|
    requires id in run[n].saved && id !in run[n].store && id !in run[n].retired
    ensures id !in run[n].keys
  {
    Always(run, acts, n);
  }

  lemma Push(run: seq<State>, acts: seq<Action>, a: Action) returns (run': seq<State>, acts': seq<Action>)
    requires IsRun(run, acts) && Enabled(run[|acts|], a)
    ensures IsRun(run', acts') && run <= run' && run'[|acts'|] == Apply(run[|acts|], a)
  {
    Extend(run, acts, a);
    run', acts' := run + [Apply(run[|acts|], a)], acts + [a];
  }

  /** A create gets as far as its save. */
  lemma CreateReaches(run: seq<State>, acts: seq<Action>, c: Call, id: Id, tag: Tag)
      returns (run': seq<State>, acts': seq<Action>)
    requires IsRun(run, acts) && PcOf(run[|acts|], c).Idle?
    requires id !in run[|acts|].used && tag !in run[|acts|].vms
    ensures IsRun(run', acts') && run <= run'
    ensures var t := run'[|acts'|];
            t.now == run[|acts|].now && id in t.keys
            && PcOf(t, c).Saving? && PcOf(t, c).id == id && PcOf(t, c).keyed && PcOf(t, c).tag == tag
  {
    run', acts' := Push(run, acts, StartCreate(c, id, true));
    run', acts' := Push(run', acts', Provision(c, tag));
    run', acts' := Push(run', acts', Register(c, true));
  }

  /** A sandbox is created with a key, its lease runs out, and its VM vanishes. */
  lemma CreateAndVanish(run: seq<State>, acts: seq<Action>, c: Call, id: Id, tag: Tag)
      returns (run': seq<State>, acts': seq<Action>)
    requires IsRun(run, acts) && PcOf(run[|acts|], c).Idle?
    requires id !in run[|acts|].used && tag !in run[|acts|].vms
    ensures IsRun(run', acts') && run <= run' && PcOf(run'[|acts'|], c).Idle?
    ensures var t := run'[|acts'|];
            && id in t.store && t.store[id] == Record(id, tag, true, false, t.now - 1)
            && id in t.keys && id in t.saved
  {
    run', acts' := CreateReaches(run, acts, c, id, tag);
    run', acts' := Push(run', acts', Save(c, true, true, run[|acts|].now));
    run', acts' := Push(run', acts', Prove(c));
    run', acts' := Push(run', acts', Tick(1));
    run', acts' := Push(run', acts', VmVanishes(tag));
  }

  lemma HasReadMore(recs: seq<Record>, rec: Record)
    ensures HasRead(recs + [rec], rec.id) && forall id :: HasRead(recs, id) ==> HasRead(recs + [rec], id)
  {
    var all := recs + [rec];
    assert all[|recs|] == rec;
    assert forall i :: 0 <= i < |recs| ==> all[i] == recs[i];
  }

  function Unread(s: State, recs: seq<Record>): set<Id> { set id | id in s.store && !HasRead(recs, id) }

  /** A listing reads every record that is there. */
  lemma ReadAll(run: seq<State>, acts: seq<Action>, c: Call) returns (run': seq<State>, acts': seq<Action>)
    requires IsRun(run, acts) && PcOf(run[|acts|], c).Listing?
    requires var s := run[|acts|];
             forall rec :: rec in PcOf(s, c).recs ==> rec.id in s.store && s.store[rec.id] == rec
    ensures IsRun(run', acts') && run <= run'
    ensures var s, t, pc := run[|acts|], run'[|acts'|], PcOf(run'[|acts'|], c);
            && t == s.(calls := s.calls[c := pc]) && pc.Listing? && pc.ttl == PcOf(s, c).ttl
            && Unread(s, pc.recs) == {}
            && forall rec :: rec in pc.recs ==> rec.id in s.store && s.store[rec.id] == rec
    decreases |Unread(run[|acts|], PcOf(run[|acts|], c).recs)|
  {
    var s, pc := run[|acts|], PcOf(run[|acts|], c);
    run', acts' := run, acts;
    if Unread(s, pc.recs) == {} {
      assert s.calls[c := pc] == s.calls;
    } else {
      var id :| id in Unread(s, pc.recs);
      Always(run, acts, |acts|);
      HasReadMore(pc.recs, s.store[id]);
      run', acts' := Push(run, acts, ListOne(c, id));
      assert Unread(s, pc.recs + [s.store[id]]) <= Unread(s, pc.recs) - {id};
      Fewer(Unread(s, pc.recs + [s.store[id]]), Unread(s, pc.recs) - {id});
      assert Unread(run'[|acts'|], pc.recs + [s.store[id]]) == Unread(s, pc.recs + [s.store[id]]);
      run', acts' := ReadAll(run', acts', c);
    }
  }

  lemma Fewer(a: set<Id>, b: set<Id>)
    requires a <= b
    ensures |a| <= |b|
  {
    if a != b {
      var x :| x in b && x !in a;
      Fewer(a, b - {x});
    }
  }

  /** A sweep takes an expired record up to its destroy. */
  lemma SweepReaches(run: seq<State>, acts: seq<Action>, c: Call, id: Id)
      returns (run': seq<State>, acts': seq<Action>)
    requires IsRun(run, acts) && PcOf(run[|acts|], c).Idle?
    requires var s := run[|acts|];
             id in s.store && s.store[id].id == id && s.store[id].lease < s.now
    ensures IsRun(run', acts') && run <= run'
    ensures var s := run[|acts|];
            run'[|acts'|] == s.(calls := s.calls[c := Loading(id, Sweep([]))])
  {
    var s := run[|acts|];
    run', acts' := Push(run, acts, StartReap(c, 0));
    run', acts' := ReadAll(run', acts', c);
    ListedExpired(run'[|acts'|], c, id);
    run', acts' := Push(run', acts', EndList(c, [id]));
    run', acts' := Push(run', acts', Next(c));
    assert [id][1..] == [];
    assert run'[|acts'|].calls == s.calls[c := Loading(id, Sweep([]))];
  }

  lemma ListedExpired(s: State, c: Call, id: Id)
    requires PcOf(s, c).Listing? && PcOf(s, c).ttl == 0 && Unread(s, PcOf(s, c).recs) == {}
    requires forall rec :: rec in PcOf(s, c).recs ==> rec.id in s.store && s.store[rec.id] == rec
    requires id in s.store && s.store[id].lease < s.now
    ensures Enabled(s, EndList(c, [id]))
  {
    var recs := PcOf(s, c).recs;
    forall x | x in s.store ensures HasRead(recs, x) { assert x !in Unread(s, recs); }
    var i :| 0 <= i < |recs| && recs[i].id == id;
    assert recs[i] in recs;
  }

  /** It can be left behind: from every state of every run, a sandbox whose VM vanishes, and
      whose lease runs out, loses its record to a sweep and keeps its key directory. */
  lemma KeyDirectoryLeftBehind(run: seq<State>, acts: seq<Action>, c: Call, id: Id, tag: Tag)
      returns (run': seq<State>, acts': seq<Action>)
    requires IsRun(run, acts) && PcOf(run[|acts|], c).Idle?
    requires id !in run[|acts|].used && tag !in run[|acts|].vms
    ensures IsRun(run', acts') && run <= run'
    ensures var t := run'[|acts'|];
            id in t.saved && id !in t.store && id in t.keys && id in t.retired
  {
    run', acts' := CreateAndVanish(run, acts, c, id, tag);
    run', acts' := SweepReaches(run', acts', c, id);
    run', acts' := Push(run', acts', Load(c, true));
    run', acts' := Push(run', acts', Remove(c, NotFound, true));
    run', acts' := Push(run', acts', Retire(c, true));
  }

  // ---- the code, running against everybody else ----

  /** Where a destroy that did not go on leaves its call. */
  function Left(answer: Answer, id: Id, andThen: Then): Pc {
    if answer == NotFound then OnNotFound(id, andThen) else Resume(andThen)
  }

  /** Step `j` is the load that begins a destroy of `id`. */
  predicate TriesAt(run: seq<State>, acts: seq<Action>, c: Call, id: Id, j: nat)
    requires |run| == |acts| + 1 && j < |acts|
  {
    acts[j].Load? && acts[j].c == c && PcOf(run[j], c).Loading? && PcOf(run[j], c).id == id
  }

  /** Step `j` ends a listing, which has read exactly these expired records. */
  ghost predicate ListsAt(run: seq<State>, acts: seq<Action>, c: Call, expired: seq<Id>, j: nat)
    requires |run| == |acts| + 1 && j < |acts|
  {
    && acts[j] == EndList(c, expired) && PcOf(run[j], c).Listing?
    && forall id :: id in expired <==> ReadExpired(run[j], PcOf(run[j], c), id)
  }

  predicate Moves(a: Action, c: Call) { !IsOutside(a) && a.c == c }

  /** The backend, the key directories and the store as one call sees them: other calls and
      the outside step between any two of its own steps. */
  class Cloud {
    var s: State
    ghost var run: seq<State>
    ghost var acts: seq<Action>

    ghost predicate Valid() reads this {
      IsRun(run, acts) && run[|acts|] == s
    }

    constructor (s: State)
      requires Init(s)
      ensures Valid() && this.s == s && run == [s] && acts == []
    {
      this.s, run, acts := s, [s], [];
    }

    /** More steps of the same run. */
    twostate predicate Later() reads this {
      old(run) <= run && old(acts) <= acts
    }

    /** What the steps since the `i`-th state cannot have taken back. */
    lemma Since(i: nat)
      requires Valid() && i <= |acts|
      ensures Lasting(run[i], s)
    {
      Lasts(run, acts, i, |acts|);
    }

    lemma Standing(me: Call)
      requires Valid()
      ensures PcOk(s, PcOf(s, me)) && Ledger(s)
    {
      Always(run, acts, |acts|);
    }

    method Do(me: Call, a: Action)
      requires Valid() && Enabled(s, a) && Moves(a, me)
      modifies this
      ensures Valid() && Later() && s == Apply(old(s), a) && acts == old(acts) + [a]
    {
      Extend(run, acts, a);
      s := Apply(s, a);
      run, acts := run + [s], acts + [a];
    }

    /** Once a call stood in front of its delete, VM and key directory stay away. */
    lemma AfterDeleting(i: nat, c: Call)
      requires Valid() && i <= |acts| && PcOf(run[i], c).Deleting?
      ensures SavedGone(s, PcOf(run[i], c).id) && PcOf(run[i], c).id !in s.keys
    {
      Always(run, acts, i);
      Lasts(run, acts, i, |acts|);
      assert PcOk(run[i], PcOf(run[i], c));
    }

    lemma AfterRetiring(i: nat, c: Call)
      requires Valid() && i <= |acts| && PcOf(run[i], c).Retiring?
      ensures SavedGone(s, PcOf(run[i], c).id)
    {
      Always(run, acts, i);
      Lasts(run, acts, i, |acts|);
      assert PcOk(run[i], PcOf(run[i], c));
    }

    /** Any number of steps by anyone but `me`. */
    method Others(me: Call)
      requires Valid()
      modifies this
      ensures Valid() && Later() && PcOf(s, me) == old(PcOf(s, me))
    {
      var steps :| 0 <= steps;
      for i := 0 to steps
        invariant Valid() && Later() && PcOf(s, me) == old(PcOf(s, me))
      {
        var a: Action := *;
        if Enabled(s, a) && !Moves(a, me) {
          OneOther(me, a);
        }
      }
    }

    method OneOther(me: Call, a: Action)
      requires Valid() && Enabled(s, a) && !Moves(a, me)
      modifies this
      ensures Valid() && Later() && PcOf(s, me) == old(PcOf(s, me))
    {
      Extend(run, acts, a);
      s := Apply(s, a);
      run, acts := run + [s], acts + [a];
    }

    /** The backend's part of `create`, with its rollbacks. */
    method Launch(me: Call, env: CreateEnv) returns (ok: bool, ghost k: nat)
      requires Valid() && PcOf(s, me).Provisioning?
      modifies this
      ensures Valid() && Later() && old(|acts|) <= k < |acts|
      ensures ok <==> Launches(env, old(PcOf(s, me)).keyed, run[k])
      ensures if ok then AtSave(PcOf(s, me), old(PcOf(s, me)).id, old(PcOf(s, me)).keyed, env.tag)
              else PcOf(s, me).Idle? && Undone(s, old(PcOf(s, me)).id, env, run[k])
    {
      Others(me);
      k := |acts|;
      ghost var before := s;
      if !env.provisions || env.tag in s.vms {
        Do(me, ProvisionFails(me, if env.leaks && env.tag !in s.vms then Some(env.tag) else None, env.cleans));
        return false, k;
      }
      Do(me, Provision(me, env.tag));
      assert run[k] == before;
      ok := true;
      if PcOf(s, me).Registering? {
        ghost var run1 := run;
        ok := RegisterKey(me, env);
        assert run[k] == run1[k];
      }
    }

    /** A VM whose key cannot be registered is destroyed again. */
    method RegisterKey(me: Call, env: CreateEnv) returns (ok: bool)
      requires Valid() && PcOf(s, me).Registering?
      modifies this
      ensures Valid() && Later() && ok == env.registers
      ensures if ok then AtSave(PcOf(s, me), old(PcOf(s, me)).id, old(PcOf(s, me)).keyed, old(PcOf(s, me)).tag)
              else PcOf(s, me).Idle? && (env.cleans ==> old(PcOf(s, me)).id !in s.keys)
                   && (env.rollsBack ==> old(PcOf(s, me)).tag !in s.vms)
    {
      Others(me);
      ok := env.registers;
      Do(me, Register(me, ok));
      if !ok {
        Others(me);
        Do(me, RollBack(me, env.rollsBack, env.cleans));
      }
    }

    /** `create`. It gets as far as its save if the tag is free and backend and key
        registration answer well, and then stores the lease asked for. Once its save has taken
        effect the VM is on record, whether or not the readiness proof succeeds, until it is
        gone. `k` is the moment of provisioning, `m` that of the save. */
    method Create(me: Call, id: Id, keyed: bool, lease: int, env: CreateEnv)
        returns (stored: bool, ok: bool, ghost k: nat, ghost m: nat)
      requires Valid() && PcOf(s, me).Idle? && id !in s.used
      modifies this
      ensures Valid() && Later() && PcOf(s, me).Idle? && old(|acts|) <= k < |acts|
      ensures stored <==> Launches(env, keyed, run[k]) && env.saves
      ensures ok <==> stored && env.ready
      ensures !Launches(env, keyed, run[k]) ==> Undone(s, id, env, run[k])
      ensures stored ==> k < m < |acts| && Stores(run, m, Record(id, env.tag, keyed, false, lease))
      ensures stored ==> id in s.saved && (Gone(s, id) || (id in s.store && s.store[id].tag == s.saved[id].tag))
    {
      Do(me, StartCreate(me, id, keyed));
      var launched;
      launched, k := Launch(me, env);
      stored, ok, m := false, false, |acts|;
      if launched {
        ghost var run1 := run;
        stored := SaveRecord(me, lease, env);
        ghost var mark, run2 := |acts|, run;
        m := mark - 1;
        if stored {
          Others(me);
          ok := env.ready;
          Do(me, Prove(me));
          TrackedUntilGone(run, acts, mark, |acts|, id);
          assert run[mark] == run2[mark];
        }
        assert run[k] == run1[k];
      }
    }

    method SaveRecord(me: Call, lease: int, env: CreateEnv) returns (saved: bool)
      requires Valid() && PcOf(s, me).Saving?
      modifies this
      ensures Valid() && Later() && saved == env.saves && |acts| > old(|acts|)
      ensures var pc := old(PcOf(s, me));
              if saved then PcOf(s, me) == Proving(pc.id) && pc.id in s.saved
                            && pc.id in s.store && s.store[pc.id] == Record(pc.id, pc.tag, pc.keyed, false, lease)
              else PcOf(s, me).Idle?
    {
      Others(me);
      saved := env.saves;
      Do(me, Save(me, saved, saved || env.saved, lease));
    }

    /** `destroy` from its load on, alone or inside a sweep. Ok means that the VM and the key
        directory are gone. */
    method Destroy(me: Call, env: DestroyEnv) returns (answer: Answer, ghost j: nat)
      requires Valid() && PcOf(s, me).Loading?
      modifies this
      ensures Valid() && Later()
      ensures old(|acts|) <= j < |acts| && TriesAt(run, acts, me, old(PcOf(s, me)).id, j)
      ensures answer == AnswerOf(run[j], old(PcOf(s, me)).id, env)
      ensures answer == Ok ==> SavedGone(s, old(PcOf(s, me)).id) && old(PcOf(s, me)).id !in s.keys
      ensures PcOf(s, me) == Left(answer, old(PcOf(s, me)).id, old(PcOf(s, me)).andThen)
    {
      answer, j := LoadRecord(me, env);
      ghost var run1, acts1 := run, acts;
      if answer == Ok {
        answer := RemoveVm(me, env);
        if answer == Ok {
          answer := CleanAndDelete(me, env);
        }
      }
      assert run[j] == run1[j] && acts[j] == acts1[j];
    }

    method LoadRecord(me: Call, env: DestroyEnv) returns (answer: Answer, ghost j: nat)
      requires Valid() && PcOf(s, me).Loading?
      modifies this
      ensures Valid() && Later()
      ensures old(|acts|) <= j < |acts| && TriesAt(run, acts, me, old(PcOf(s, me)).id, j)
      ensures var (id, andThen) := (old(PcOf(s, me)).id, old(PcOf(s, me)).andThen);
              && answer == (if !env.loads then Error else if id in run[j].store then Ok else NotFound)
              && if answer == Ok then PcOf(s, me) == Removing(run[j].store[id], andThen) && run[j].store[id].id == id
                 else PcOf(s, me) == Left(answer, id, andThen)
    {
      Others(me);
      Standing(me);
      j := |acts|;
      Do(me, Load(me, env.loads));
      answer := if PcOf(s, me).Removing? then Ok else if env.loads then NotFound else Error;
    }

    method RemoveVm(me: Call, env: DestroyEnv) returns (answer: Answer)
      requires Valid() && PcOf(s, me).Removing?
      modifies this
      ensures Valid() && Later() && answer == env.remove
      ensures var (rec, andThen) := (old(PcOf(s, me)).rec, old(PcOf(s, me)).andThen);
              PcOf(s, me) == if answer == Ok then Cleaning(rec, andThen) else Left(answer, rec.id, andThen)
    {
      Others(me);
      answer := env.remove;
      Do(me, Remove(me, answer, env.removed || answer != Error));
    }

    method CleanAndDelete(me: Call, env: DestroyEnv) returns (answer: Answer)
      requires Valid() && PcOf(s, me).Cleaning?
      modifies this
      ensures Valid() && Later() && PcOf(s, me) == Resume(old(PcOf(s, me)).andThen)
      ensures answer == if (old(PcOf(s, me)).rec.keyed ==> env.cleans) && env.deletes then Ok else Error
      ensures answer == Ok ==> SavedGone(s, old(PcOf(s, me)).rec.id) && old(PcOf(s, me)).rec.id !in s.keys
    {
      Others(me);
      Do(me, CleanUp(me, env.cleans, env.cleans || env.cleaned));
      if !PcOf(s, me).Deleting? {
        return Error;
      }
      DeleteRecord(me, env);
      answer := if env.deletes then Ok else Error;
    }

    method DeleteRecord(me: Call, env: DestroyEnv)
      requires Valid() && PcOf(s, me).Deleting?
      modifies this
      ensures Valid() && Later() && PcOf(s, me) == Resume(old(PcOf(s, me)).andThen)
      ensures env.deletes ==> SavedGone(s, old(PcOf(s, me)).id) && old(PcOf(s, me)).id !in s.keys
    {
      Others(me);
      ghost var mark := |acts|;
      Do(me, Delete(me, env.deletes, env.deletes || env.deleted));
      AfterDeleting(mark, me);
    }

    /** `renew`: the load, at moment `j`, and the save are two steps. */
    method Renew(me: Call, id: Id, lease: int, loads: bool, saves: bool, saved: bool)
        returns (ok: bool, ghost j: nat)
      requires Valid() && PcOf(s, me).Idle?
      modifies this
      ensures Valid() && Later() && PcOf(s, me).Idle? && old(|acts|) <= j < |acts|
      ensures ok <==> loads && saves && id in run[j].store && !run[j].store[id].cleanupFailed
      ensures ok ==> id in s.store && s.store[id] == run[j].store[id].(lease := lease)
    {
      Do(me, StartRenew(me, id));
      Others(me);
      Standing(me);
      j := |acts|;
      Do(me, Fetch(me, loads));
      ghost var run1 := run;
      ok := false;
      if PcOf(s, me).Renewing? {
        Others(me);
        ok := saves;
        Do(me, Action.Renew(me, saves || saved, lease));
      }
      assert run[j] == run1[j];
    }

    /** The listing of `reap`, record by record, and its filter. */
    method List(me: Call, ttl: nat) returns (expired: seq<Id>, ghost mark: nat)
      requires Valid() && PcOf(s, me).Idle?
      modifies this
      ensures Valid() && Later() && PcOf(s, me) == Sweeping(expired)
      ensures old(|acts|) <= mark < |acts| && ListsAt(run, acts, me, expired, mark)
      ensures PcOf(run[mark], me).since == old(s.store.Keys) && PcOf(run[mark], me).ttl == ttl
    {
      Do(me, StartReap(me, ttl));
      Others(me);
      ghost var since := PcOf(s, me).since;
      var id;
      var more;
      id, more := NextUnread(me);
      while more
        invariant Valid() && Later() && PcOf(s, me).Listing? && PcOf(s, me).ttl == ttl && PcOf(s, me).since == since
        invariant if more then id in s.store && !HasRead(PcOf(s, me).recs, id) && id in since
                  else ReadAllThatStayed(s, PcOf(s, me))
        decreases since - ReadIds(PcOf(s, me).recs), more
      {
        ReadOne(me, id);
        Others(me);
        id, more := NextUnread(me);
      }
      expired := Filter(PcOf(s, me), s.now);
      mark := |acts|;
      Do(me, EndList(me, expired));
    }

    /** The listing reports one more entry. */
    method ReadOne(me: Call, id: Id)
      requires Valid() && PcOf(s, me).Listing? && id in s.store
      requires id in PcOf(s, me).since && !HasRead(PcOf(s, me).recs, id)
      modifies this
      ensures Valid() && Later() && PcOf(s, me).Listing?
      ensures PcOf(s, me).ttl == old(PcOf(s, me)).ttl && PcOf(s, me).since == old(PcOf(s, me)).since
      ensures var since := PcOf(s, me).since;
              since - ReadIds(PcOf(s, me).recs) < since - ReadIds(old(PcOf(s, me)).recs)
    {
      Standing(me);
      ghost var recs, since := PcOf(s, me).recs, PcOf(s, me).since;
      Do(me, ListOne(me, id));
      ReadsOneMore(recs, PcOf(s, me).recs[|recs|], id, since);
    }

    /** Some entry that the listing still has to report. */
    method NextUnread(me: Call) returns (id: Id, more: bool)
      requires PcOf(s, me).Listing?
      ensures if more then id in s.store && !HasRead(PcOf(s, me).recs, id) && id in PcOf(s, me).since
              else ReadAllThatStayed(s, PcOf(s, me))
    {
      var pc := PcOf(s, me);
      more := exists x :: x in pc.since && x in s.store && !HasRead(pc.recs, x);
      id := 0;
      if more {
        id :| id in pc.since && id in s.store && !HasRead(pc.recs, id);
      }
    }

    method Filter(pc: Pc, now: int) returns (expired: seq<Id>)
      requires pc.Listing?
      ensures forall id :: id in expired <==>
                exists i :: 0 <= i < |pc.recs| && pc.recs[i].id == id && pc.recs[i].lease + pc.ttl < now
    {
      expired := [];
      for j := 0 to |pc.recs|
        invariant forall id :: id in expired <==>
                    exists i :: 0 <= i < j && pc.recs[i].id == id && pc.recs[i].lease + pc.ttl < now
      {
        if pc.recs[j].lease + pc.ttl < now {
          expired := expired + [pc.recs[j].id];
        }
      }
    }

    /** Reap's NotFound arm. */
    method RetireRecord(me: Call, env: DestroyEnv) returns (deleted: bool)
      requires Valid() && PcOf(s, me).Retiring?
      modifies this
      ensures Valid() && Later() && PcOf(s, me) == Sweeping(old(PcOf(s, me)).rest) && deleted == env.deletes
      ensures SavedGone(s, old(PcOf(s, me)).id)
    {
      Others(me);
      ghost var mark := |acts|;
      deleted := env.deletes;
      Do(me, Retire(me, deleted || env.deleted));
      AfterRetiring(mark, me);
    }

    /** One record of the sweep, tried in step `j`; `gone` reports it as destroyed. */
    method SweepOne(me: Call, env: DestroyEnv) returns (gone: bool, ghost j: nat)
      requires Valid() && PcOf(s, me).Sweeping? && PcOf(s, me).ids != []
      modifies this
      ensures Valid() && Later() && PcOf(s, me) == Sweeping(old(PcOf(s, me)).ids[1..])
      ensures gone ==> SavedGone(s, old(PcOf(s, me)).ids[0])
      ensures old(|acts|) <= j < |acts| && TriesAt(run, acts, me, old(PcOf(s, me)).ids[0], j)
      ensures gone <==> Reported(run[j], old(PcOf(s, me)).ids[0], env)
    {
      Do(me, Next(me));
      var answer;
      answer, j := Destroy(me, env);
      ghost var run1, acts1 := run, acts;
      gone := answer == Ok;
      if answer == NotFound {
        gone := RetireRecord(me, env);
      }
      assert run[j] == run1[j] && acts[j] == acts1[j];
    }

    /** `reap`: the listing reports every record that stays while it lasts; every record that it
        read with an expired lease is tried, whatever becomes of the others; and reported as
        destroyed are exactly those whose destroy, or whose deletion after a NotFound, went
        well. They are gone. */
    method Reap(me: Call, ttl: nat, envs: nat -> DestroyEnv)
        returns (expired: seq<Id>, destroyed: seq<Id>, ghost mark: nat, ghost tries: seq<nat>)
      requires Valid() && PcOf(s, me).Idle?
      modifies this
      ensures Valid() && Later() && PcOf(s, me).Idle?
      ensures old(|acts|) <= mark && |tries| == |expired| && Swept(run, acts, me, expired, mark, tries)
      ensures PcOf(run[mark], me).since == old(s.store.Keys) && PcOf(run[mark], me).ttl == ttl
      ensures destroyed == Report(run, expired, tries, envs)
      ensures forall id :: id in destroyed ==> SavedGone(s, id)
    {
      expired, mark := List(me, ttl);
      destroyed, tries := [], [];
      ghost var listed := run;
      for i := 0 to |expired|
        invariant Valid() && Later() && listed <= run && PcOf(s, me) == Sweeping(expired[i..])
        invariant |tries| == i && Swept(run, acts, me, expired, mark, tries)
        invariant destroyed == Report(run, expired, tries, envs)
        invariant forall id :: id in destroyed ==> SavedGone(s, id)
      {
        destroyed, tries := SweepNext(me, destroyed, expired, mark, tries, envs(i), envs);
      }
      ghost var run1, acts1 := run, acts;
      Do(me, Next(me));
      Since(|acts1|);
      StillSwept(run1, acts1, me, expired, mark, tries, run, acts);
      StillReported(run1, acts1, me, expired, mark, tries, run, envs);
      assert run[mark] == listed[mark];
    }

    /** One turn of the sweep's loop. */
    method SweepNext(me: Call, destroyed: seq<Id>, ghost expired: seq<Id>, ghost mark: nat, ghost tries: seq<nat>,
                     env: DestroyEnv, ghost envs: nat -> DestroyEnv)
        returns (destroyed': seq<Id>, ghost tries': seq<nat>)
      requires Valid() && |tries| < |expired| && PcOf(s, me) == Sweeping(expired[|tries|..])
      requires Swept(run, acts, me, expired, mark, tries)
      requires destroyed == Report(run, expired, tries, envs) && env == envs(|tries|)
      requires forall id :: id in destroyed ==> SavedGone(s, id)
      modifies this
      ensures Valid() && Later() && PcOf(s, me) == Sweeping(expired[|tries| + 1..])
      ensures |tries'| == |tries| + 1 && Swept(run, acts, me, expired, mark, tries')
      ensures destroyed' == Report(run, expired, tries', envs)
      ensures forall id :: id in destroyed' ==> SavedGone(s, id)
    {
      ghost var run1, acts1, j := run, acts, 0;
      var id, gone := PcOf(s, me).ids[0], false;
      gone, j := SweepOne(me, env);
      Since(|acts1|);
      StillReported(run1, acts1, me, expired, mark, tries, run, envs);
      OneMoreTried(run1, acts1, me, expired, mark, tries, run, acts, j);
      tries' := tries + [j];
      assert tries'[..|tries|] == tries;
      destroyed' := if gone then destroyed + [id] else destroyed;
    }
  }

  /** What the outside world answers to one create. `leaks`, `rollsBack`, `cleans` and `saved`
      are effects of steps that report an error. */
  datatype CreateEnv = CreateEnv(
    tag: Tag,
    provisions: bool,
    leaks: bool,
    registers: bool,
    rollsBack: bool,
    cleans: bool,
    saves: bool,
    saved: bool,
    ready: bool
  )

  /** A create in this state gets as far as its save. */
  predicate Launches(env: CreateEnv, keyed: bool, s: State) {
    env.provisions && env.tag !in s.vms && (keyed ==> env.registers)
  }

  /** A create that failed before its save has removed its key directory, and the VM whose key
      it could not register, unless that failed too. */
  predicate Undone(s: State, id: Id, env: CreateEnv, at: State) {
    && (env.cleans ==> id !in s.keys)
    && (env.provisions && env.tag !in at.vms && env.rollsBack ==> env.tag !in s.vms)
  }

  predicate AtSave(pc: Pc, id: Id, keyed: bool, tag: Tag) {
    pc.Saving? && pc.id == id && pc.keyed == keyed && pc.tag == tag
  }

  /** Step `m` leaves this record in the store. */
  predicate Stores(run: seq<State>, m: nat, rec: Record) {
    m + 1 < |run| && rec.id in run[m + 1].store && run[m + 1].store[rec.id] == rec
  }

  /** The answers to one destroy, and what its failing steps do all the same. */
  datatype DestroyEnv = DestroyEnv(
    loads: bool,
    remove: Answer,
    removed: bool,
    cleans: bool,
    cleaned: bool,
    deletes: bool,
    deleted: bool
  )

  /** What a destroy that loads in this state reports: the first thing that goes wrong. */
  function AnswerOf(s: State, id: Id, env: DestroyEnv): Answer {
    if !env.loads then Error
    else if id !in s.store then NotFound
    else if env.remove != Ok then env.remove
    else if (s.store[id].keyed && !env.cleans) || !env.deletes then Error
    else Ok
  }

  predicate Reported(s: State, id: Id, env: DestroyEnv) {
    AnswerOf(s, id, env) == Ok || (AnswerOf(s, id, env) == NotFound && env.deletes)
  }

  /** The records that the sweep reports, by what each destroy found when it loaded. */
  function Report(run: seq<State>, ids: seq<Id>, tries: seq<nat>, envs: nat -> DestroyEnv): seq<Id>
    requires |tries| <= |ids| && forall k :: 0 <= k < |tries| ==> tries[k] < |run|
  {
    if tries == [] then []
    else
      var n := |tries| - 1;
      Report(run, ids, tries[..n], envs) + if Reported(run[tries[n]], ids[n], envs(n)) then [ids[n]] else []
  }

  lemma {:induction false} StillReported(run1: seq<State>, acts1: seq<Action>, c: Call, ids: seq<Id>, mark: nat,
                                         tries: seq<nat>, run: seq<State>, envs: nat -> DestroyEnv)
    requires |run1| == |acts1| + 1 && run1 <= run && |tries| <= |ids|
    requires Swept(run1, acts1, c, ids, mark, tries)
    ensures forall k :: 0 <= k < |tries| ==> tries[k] < |run1|
    ensures Report(run, ids, tries, envs) == Report(run1, ids, tries, envs)
  {
    if tries != [] {
      var n := |tries| - 1;
      assert Swept(run1, acts1, c, ids, mark, tries[..n]);
      StillReported(run1, acts1, c, ids, mark, tries[..n], run, envs);
      assert run[tries[n]] == run1[tries[n]];
    }
  }

  function ReadIds(recs: seq<Record>): set<Id> { set i | 0 <= i < |recs| :: recs[i].id }

  lemma ReadsOneMore(recs: seq<Record>, rec: Record, id: Id, since: set<Id>)
    requires rec.id == id && id in since && !HasRead(recs, id)
    ensures since - ReadIds(recs + [rec]) < since - ReadIds(recs)
  {
    var all := recs + [rec];
    assert all[|recs|] == rec;
    forall x | x in ReadIds(recs) ensures x in ReadIds(all) {
      var i :| 0 <= i < |recs| && recs[i].id == x;
      assert all[i] == recs[i];
    }
    assert id in ReadIds(all) && id !in ReadIds(recs);
  }

  /** Step `mark` ended a listing, and so far the first of its expired records were tried,
      each in the step named. */
  ghost predicate Swept(run: seq<State>, acts: seq<Action>, c: Call, ids: seq<Id>, mark: nat, tries: seq<nat>)
    requires |run| == |acts| + 1 && |tries| <= |ids|
  {
    && mark < |acts| && ListsAt(run, acts, c, ids, mark)
    && forall k :: 0 <= k < |tries| ==> mark < tries[k] < |acts| && TriesAt(run, acts, c, ids[k], tries[k])
  }

  lemma StillSwept(run1: seq<State>, acts1: seq<Action>, c: Call, ids: seq<Id>, mark: nat, tries: seq<nat>,
                   run: seq<State>, acts: seq<Action>)
    requires |run1| == |acts1| + 1 && |run| == |acts| + 1 && run1 <= run && acts1 <= acts
    requires |tries| <= |ids| && Swept(run1, acts1, c, ids, mark, tries)
    ensures Swept(run, acts, c, ids, mark, tries)
  {
    assert run[mark] == run1[mark] && acts[mark] == acts1[mark];
    forall k | 0 <= k < |tries| ensures tries[k] < |acts| && TriesAt(run, acts, c, ids[k], tries[k]) {
      assert TriesAt(run1, acts1, c, ids[k], tries[k]);
    }
  }

  lemma OneMoreTried(run1: seq<State>, acts1: seq<Action>, c: Call, ids: seq<Id>, mark: nat, tries: seq<nat>,
                     run: seq<State>, acts: seq<Action>, j: nat)
    requires |run1| == |acts1| + 1 && |run| == |acts| + 1 && run1 <= run && acts1 <= acts
    requires |tries| < |ids| && Swept(run1, acts1, c, ids, mark, tries)
    requires |acts1| <= j < |acts| && TriesAt(run, acts, c, ids[|tries|], j)
    ensures Swept(run, acts, c, ids, mark, tries + [j])
  {
    StillSwept(run1, acts1, c, ids, mark, tries, run, acts);
    var all := tries + [j];
    forall k | 0 <= k < |all| ensures mark < all[k] < |acts| && TriesAt(run, acts, c, ids[k], all[k]) {
      if k < |tries| {
        assert TriesAt(run, acts, c, ids[k], tries[k]);
      }
    }
  }
}
