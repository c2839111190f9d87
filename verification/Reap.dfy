/** `reap`, `destroy` and `renew` run one after the other on a backend with account keys:
    which records a sweep takes, and which keys are left. Instants are integers. */
module Reap {
  import opened Text

  /** Ids matter only by equality and by the order that reports are sorted in. */
  type Id = nat
  type Key = string

  datatype Lease = NoLease | Unparseable | Until(t: int)

  datatype Record = Record(
    tag: Option<string>,
    pubkey: Option<Key>,
    keyName: Option<string>,
    keyed: bool,
    cleanupFailed: bool,
    lease: Lease
  )

  datatype Answer = Ok | NotFound | Error

  /** How the outside world answers one destroy: the record read, the key revocation, the VM
      removal, the key directory and the record file. `accountKeys` is the kind of backend:
      without account keys nothing is revoked. `keyGone` and `vmGone` are a revocation and a
      removal that took effect although they reported an error. */
  datatype Attempt = Attempt(
    accountKeys: bool,
    loads: bool,
    revokes: bool,
    keyGone: bool,
    vm: Answer,
    vmGone: bool,
    cleans: bool,
    deletes: bool
  )

  // ---- lease.rs and the sweep's filters ----

  predicate IsExpired(r: Record, now: int) { r.lease.Until? && r.lease.t < now }

  predicate IsPastGraceWindow(r: Record, now: int, ttl: nat) {
    if ttl == 0 then true else r.lease.Until? ==> r.lease.t + ttl < now
  }

  predicate Selected(r: Record, now: int, ttl: nat) { IsExpired(r, now) && IsPastGraceWindow(r, now, ttl) }

  /** A record is swept only on a deadline that was read and is more than `ttl` past. */
  lemma SelectedIff(r: Record, now: int, ttl: nat)
    ensures Selected(r, now, ttl) <==> r.lease.Until? && r.lease.t + ttl < now
  {
  }

  // ---- one destroy ----

  /** The destroy of this record's VM starts with the revocation of its account key. */
  predicate KeyFirst(r: Record, at: Attempt) { at.accountKeys && r.tag.Some? && r.pubkey.Some? }

  /** The account key that a destroy revokes, before it touches the VM. */
  function Revoked(r: Record, at: Attempt): Option<Key> {
    if at.loads && KeyFirst(r, at) && (at.revokes || at.keyGone) then r.pubkey else None
  }

  /** A backend with account keys takes a missing VM for destroyed once the key is revoked. */
  function VmAnswer(r: Record, at: Attempt): Answer {
    if r.tag.None? then Ok
    else if !KeyFirst(r, at) then at.vm
    else if !at.revokes then Error
    else if at.vm == NotFound then Ok
    else at.vm
  }

  /** The VM is gone after the attempt: reported so, or in spite of an error. */
  predicate VmRemoved(r: Record, at: Attempt) {
    at.loads && r.tag.Some? && (KeyFirst(r, at) ==> at.revokes) && (at.vm != Error || at.vmGone)
  }

  /** The backend has no such VM, and the destroy says so. */
  predicate VmMissing(r: Record, at: Attempt) { r.tag.Some? && !KeyFirst(r, at) && at.vm == NotFound }

  /** The key directory goes after the VM, and before the record. */
  predicate DirRemoved(r: Record, at: Attempt) { at.loads && VmAnswer(r, at) == Ok && r.keyed && at.cleans }

  function Destroyed(r: Record, at: Attempt): Answer {
    if !at.loads then Error
    else if VmAnswer(r, at) != Ok then VmAnswer(r, at)
    else if (r.keyed && !at.cleans) || !at.deletes then Error
    else Ok
  }

  /** The sweep ends with the record deleted: destroyed, or found without a VM and retired. */
  predicate Removed(r: Record, at: Attempt) {
    Destroyed(r, at) == Ok || (Destroyed(r, at) == NotFound && at.deletes)
  }

  /** Every step answers Ok or NotFound. */
  predicate Smooth(at: Attempt) { at.loads && at.revokes && at.vm != Error && at.cleans && at.deletes }

  lemma SmoothRemoves(r: Record, at: Attempt)
    requires Smooth(at)
    ensures Removed(r, at)
  {
  }

  /** What it takes for a record to go: it was read, its VM was removed or missing, behind a
      revoked key where there is one, its key directory went unless the VM was missing, and
      its file was deleted. */
  lemma RemovedIff(r: Record, at: Attempt)
    ensures Removed(r, at) <==>
            && at.loads && at.deletes
            && (r.tag.Some? ==> at.vm != Error)
            && (r.tag.Some? && r.pubkey.Some? && at.accountKeys ==> at.revokes)
            && (r.keyed ==> at.cleans || (r.tag.Some? && at.vm == NotFound && !(r.pubkey.Some? && at.accountKeys)))
  {
  }

  // ---- a whole sweep, record by record ----

  function StoreAfter(store: map<Id, Record>, now: int, ttl: nat, tries: Id -> Attempt): map<Id, Record> {
    map id | id in store && !(Selected(store[id], now, ttl) && Removed(store[id], tries(id))) :: store[id]
  }

  /** The sweep revokes this key. */
  ghost predicate Hit(store: map<Id, Record>, now: int, ttl: nat, tries: Id -> Attempt, k: Key) {
    exists id :: id in store && Selected(store[id], now, ttl) && Revoked(store[id], tries(id)) == Some(k)
  }

  ghost function AccountSwept(account: map<Key, string>, store: map<Id, Record>, now: int, ttl: nat,
                              tries: Id -> Attempt): map<Key, string>
  {
    map k | k in account && !Hit(store, now, ttl, tries, k) :: account[k]
  }

  /** The VMs that the sweep leaves. */
  ghost function VmsAfter(vms: set<string>, store: map<Id, Record>, now: int, ttl: nat, tries: Id -> Attempt):
    set<string>
  {
    set v | v in vms && forall id :: id in store && Selected(store[id], now, ttl) && VmRemoved(store[id], tries(id)) ==>
                          store[id].tag != Some(v)
  }

  /** The key directories that it leaves, by record. */
  function DirsAfter(dirs: set<Id>, store: map<Id, Record>, now: int, ttl: nat, tries: Id -> Attempt): set<Id> {
    set d | d in dirs && !(d in store && Selected(store[d], now, ttl) && DirRemoved(store[d], tries(d)))
  }

  /** A record that goes has lost its VM. Its key directory outlives it exactly when the
      backend did not have the VM. */
  lemma RemovedLeaves(store: map<Id, Record>, now: int, ttl: nat, tries: Id -> Attempt, id: Id,
                      vms: set<string>, dirs: set<Id>)
    requires id in store && id !in StoreAfter(store, now, ttl, tries)
    ensures store[id].tag.Some? ==> store[id].tag.value !in VmsAfter(vms, store, now, ttl, tries)
    ensures store[id].keyed ==>
              (id in DirsAfter(dirs, store, now, ttl, tries) <==> id in dirs && VmMissing(store[id], tries(id)))
  {
  }

  /** The backend answers Ok only for a VM that it has, and NotFound only for one that it has
      not. */
  predicate Truthful(r: Record, vms: set<string>, at: Attempt) {
    r.tag.Some? ==> (at.vm == Ok ==> r.tag.value in vms) && (at.vm == NotFound ==> r.tag.value !in vms)
  }

  /** Whatever a truthful backend and the file system answer, the key directory goes with the
      record. */
  ghost predicate DirGoesToo(store: map<Id, Record>, now: int, ttl: nat, id: Id, vms: set<string>, dirs: set<Id>)
    requires id in store
  {
    forall tries: Id -> Attempt :: Truthful(store[id], vms, tries(id)) && id !in StoreAfter(store, now, ttl, tries) ==>
      id !in DirsAfter(dirs, store, now, ttl, tries)
  }

  /** A key directory goes with its record if and only if the sweep will not select the
      record, or the record names no VM, or names one that is there. */
  lemma DirGoesTooIff(store: map<Id, Record>, now: int, ttl: nat, id: Id, vms: set<string>, dirs: set<Id>)
    requires id in store && store[id].keyed && id in dirs
    ensures DirGoesToo(store, now, ttl, id, vms, dirs) <==>
            !Selected(store[id], now, ttl) || store[id].tag.None? || store[id].tag.value in vms
  {
    if Selected(store[id], now, ttl) && store[id].tag.Some? && store[id].tag.value !in vms {
      var tries := (_: Id) => Attempt(false, true, true, false, NotFound, false, true, true);
      RemovedLeaves(store, now, ttl, tries, id, vms, dirs);
      assert Truthful(store[id], vms, tries(id)) && id !in StoreAfter(store, now, ttl, tries);
    } else {
      forall tries: Id -> Attempt | Truthful(store[id], vms, tries(id)) && id !in StoreAfter(store, now, ttl, tries)
        ensures id !in DirsAfter(dirs, store, now, ttl, tries)
      {
        RemovedLeaves(store, now, ttl, tries, id, vms, dirs);
      }
    }
  }

  // ---- a sweep that has got as far as `swept` ----

  function Survivors(store: map<Id, Record>, swept: set<Id>, tries: Id -> Attempt): map<Id, Record> {
    map id | id in store && !(id in swept && Removed(store[id], tries(id))) :: store[id]
  }

  function KeysSpared(account: map<Key, string>, store: map<Id, Record>, swept: set<Id>, tries: Id -> Attempt):
    map<Key, string>
    requires swept <= store.Keys
  {
    map k | k in account && forall id :: id in swept ==> Revoked(store[id], tries(id)) != Some(k) :: account[k]
  }

  lemma SpareOneMore(account: map<Key, string>, store: map<Id, Record>, swept: set<Id>, tries: Id -> Attempt, id: Id)
    requires swept <= store.Keys && id in store && id !in swept
    ensures var before := Survivors(store, swept, tries);
            && id in before && before[id] == store[id]
            && Survivors(store, swept + {id}, tries)
               == if Removed(store[id], tries(id)) then before - {id} else before
    ensures var before, hit := KeysSpared(account, store, swept, tries), Revoked(store[id], tries(id));
            KeysSpared(account, store, swept + {id}, tries) == if hit.Some? then before - {hit.value} else before
  {
  }

  ghost function VmsSpared(vms: set<string>, store: map<Id, Record>, swept: seq<Id>, tries: Id -> Attempt): set<string>
    requires forall id :: id in swept ==> id in store
  {
    set v | v in vms && forall id :: id in swept && VmRemoved(store[id], tries(id)) ==> store[id].tag != Some(v)
  }

  ghost function DirsSpared(dirs: set<Id>, store: map<Id, Record>, swept: seq<Id>, tries: Id -> Attempt): set<Id>
    requires forall id :: id in swept ==> id in store
  {
    set d | d in dirs && !(d in swept && DirRemoved(store[d], tries(d)))
  }

  lemma OneMoreSpared(vms: set<string>, dirs: set<Id>, store: map<Id, Record>, ids: seq<Id>, i: nat,
                      tries: Id -> Attempt)
    requires i < |ids| && forall id :: id in ids ==> id in store
    ensures forall id :: id in ids[..i] || id in ids[..i + 1] ==> id in store
    ensures var r, at := store[ids[i]], tries(ids[i]);
            && VmsSpared(vms, store, ids[..i + 1], tries)
               == (if VmRemoved(r, at) then VmsSpared(vms, store, ids[..i], tries) - {r.tag.value}
                   else VmsSpared(vms, store, ids[..i], tries))
            && DirsSpared(dirs, store, ids[..i + 1], tries)
               == (if DirRemoved(r, at) then DirsSpared(dirs, store, ids[..i], tries) - {ids[i]}
                   else DirsSpared(dirs, store, ids[..i], tries))
  {
    assert ids[..i + 1] == ids[..i] + [ids[i]];
  }

  /** What has been reported by then. */
  ghost predicate IsProgress(destroyed: seq<Id>, store: map<Id, Record>, swept: set<Id>, tries: Id -> Attempt)
    requires swept <= store.Keys
  {
    Ascending(destroyed) && forall id :: id in destroyed <==> id in swept && Removed(store[id], tries(id))
  }

  lemma ProgressOneMore(destroyed: seq<Id>, store: map<Id, Record>, swept: set<Id>, tries: Id -> Attempt, id: Id)
    requires swept <= store.Keys && IsProgress(destroyed, store, swept, tries)
    requires id in store && forall d :: d in swept ==> d < id
    ensures IsProgress(if Removed(store[id], tries(id)) then destroyed + [id] else destroyed,
                       store, swept + {id}, tries)
  {
    AscendingPush(destroyed, id);
  }

  lemma SweepComplete(account: map<Key, string>, store: map<Id, Record>, now: int, ttl: nat, tries: Id -> Attempt,
                      destroyed: seq<Id>, swept: set<Id>)
    requires swept == set id | id in store && Selected(store[id], now, ttl)
    requires IsProgress(destroyed, store, swept, tries)
    ensures Survivors(store, swept, tries) == StoreAfter(store, now, ttl, tries)
    ensures KeysSpared(account, store, swept, tries) == AccountSwept(account, store, now, ttl, tries)
    ensures IsRemoval(destroyed, store, now, ttl, tries)
  {
  }

  lemma SparedComplete(vms: set<string>, dirs: set<Id>, store: map<Id, Record>, now: int, ttl: nat,
                       tries: Id -> Attempt, ids: seq<Id>)
    requires IsSelection(ids, store, now, ttl)
    ensures VmsSpared(vms, store, ids, tries) == VmsAfter(vms, store, now, ttl, tries)
    ensures DirsSpared(dirs, store, ids, tries) == DirsAfter(dirs, store, now, ttl, tries)
  {
  }

  const TAG := "lsbx:"

  function StripTag(s: string): string { if TAG <= s then s[|TAG|..] else s }

  /** `parse_label_tag`. */
  function ParseLabelTag(comment: string): Option<string> {
    if TAG <= comment then Some(comment[|TAG|..]) else None
  }

  /** Some record's key goes by this label. */
  predicate KnownLabel(store: map<Id, Record>, name: string) {
    exists id :: id in store && store[id].keyName.Some? && StripTag(store[id].keyName.value) == name
  }

  predicate Orphan(comment: string, store: map<Id, Record>) {
    ParseLabelTag(comment).Some? && !KnownLabel(store, ParseLabelTag(comment).value)
  }

  function Reconciled(account: map<Key, string>, store: map<Id, Record>): map<Key, string> {
    map k | k in account && !Orphan(account[k], store) :: account[k]
  }

  ghost function AccountAfter(account: map<Key, string>, store: map<Id, Record>, now: int, ttl: nat,
                              tries: Id -> Attempt): map<Key, string>
  {
    Reconciled(AccountSwept(account, store, now, ttl, tries), StoreAfter(store, now, ttl, tries))
  }

  // ---- reports ----

  predicate Ascending(ids: seq<Id>) { forall i, j :: 0 <= i < j < |ids| ==> ids[i] < ids[j] }

  /** The dry-run report: exactly the selected ids, in order. */
  ghost predicate IsSelection(ids: seq<Id>, store: map<Id, Record>, now: int, ttl: nat) {
    Ascending(ids) && forall id :: id in ids <==> id in store && Selected(store[id], now, ttl)
  }

  ghost predicate IsRemoval(ids: seq<Id>, store: map<Id, Record>, now: int, ttl: nat, tries: Id -> Attempt) {
    Ascending(ids)
    && forall id :: id in ids <==> id in store && id !in StoreAfter(store, now, ttl, tries)
  }

  lemma AscendingPush(ids: seq<Id>, id: Id)
    requires Ascending(ids) && forall d :: d in ids ==> d < id
    ensures Ascending(ids + [id])
  {
    assert forall i :: 0 <= i < |ids| ==> ids[i] in ids;
  }

  function Elements(ids: seq<Id>): (s: set<Id>)
    ensures forall id :: id in s <==> id in ids
  {
    set id | id in ids
  }

  lemma NextInOrder(ids: seq<Id>, i: nat)
    requires Ascending(ids) && i < |ids|
    ensures ids[i] in ids && forall d :: d in Elements(ids[..i]) ==> d < ids[i]
    ensures Elements(ids[..i + 1]) == Elements(ids[..i]) + {ids[i]}
  {
    assert ids[..i + 1] == ids[..i] + [ids[i]];
  }

  predicate Subsequence(xs: seq<Id>, ys: seq<Id>)
    decreases |ys|
  {
    xs == [] || (ys != [] && if xs[0] == ys[0] then Subsequence(xs[1..], ys[1..]) else Subsequence(xs, ys[1..]))
  }

  lemma {:induction false} AscendingSubsequence(xs: seq<Id>, ys: seq<Id>)
    requires Ascending(xs) && Ascending(ys) && forall x :: x in xs ==> x in ys
    ensures Subsequence(xs, ys)
    decreases |ys|
  {
    if xs != [] {
      assert xs[0] in ys;
      forall x | x in xs[1..] ensures x in ys[1..] {
        var i :| 0 <= i < |xs| - 1 && xs[1..][i] == x;
        assert xs[i + 1] == x && xs[0] < x && x in ys;
        assert ys[0] <= xs[0];
      }
      if xs[0] == ys[0] {
        AscendingSubsequence(xs[1..], ys[1..]);
      } else {
        assert xs[0] in ys[1..];
        forall x | x in xs ensures x in ys[1..] {
          if x != xs[0] { assert x in xs[1..]; }
        }
        AscendingSubsequence(xs, ys[1..]);
      }
    }
  }

  /** The order of the directory listing does not matter. */
  lemma {:induction false} SelectionUnique(xs: seq<Id>, ys: seq<Id>)
    requires Ascending(xs) && Ascending(ys) && forall x :: x in xs <==> x in ys
    ensures xs == ys
    decreases |xs|
  {
    assert ys == [] || ys[0] in ys;
    if xs != [] {
      assert xs[0] in ys && ys[0] in xs;
      assert xs[0] == ys[0];
      forall x ensures x in xs[1..] <==> x in ys[1..] {
        assert x in xs[1..] ==> x in xs && x != xs[0] && x in ys;
        assert x in ys[1..] ==> x in ys && x != ys[0] && x in xs;
      }
      SelectionUnique(xs[1..], ys[1..]);
    }
  }

  /** A sweep reports a subsequence of what a dry run on the same state reports, and all of
      it when every step of every destroy goes well. */
  lemma ReportWithinDryRun(destroyed: seq<Id>, would: seq<Id>, store: map<Id, Record>, now: int, ttl: nat,
                           tries: Id -> Attempt)
    requires IsRemoval(destroyed, store, now, ttl, tries) && IsSelection(would, store, now, ttl)
    ensures Subsequence(destroyed, would)
    ensures (forall id :: id in would ==> Smooth(tries(id))) ==> destroyed == would
  {
    AscendingSubsequence(destroyed, would);
    if forall id :: id in would ==> Smooth(tries(id)) {
      forall id ensures id in destroyed <==> id in would {
        if id in would { SmoothRemoves(store[id], tries(id)); }
      }
      SelectionUnique(destroyed, would);
    }
  }

  /** After such a sweep a second one at the same time has nothing to do. */
  lemma SecondSweepIdle(store: map<Id, Record>, now: int, ttl: nat, tries: Id -> Attempt, again: Id -> Attempt,
                        destroyed: seq<Id>)
    requires forall id :: id in store && Selected(store[id], now, ttl) ==> Smooth(tries(id))
    requires IsRemoval(destroyed, StoreAfter(store, now, ttl, tries), now, ttl, again)
    ensures destroyed == []
    ensures StoreAfter(StoreAfter(store, now, ttl, tries), now, ttl, again) == StoreAfter(store, now, ttl, tries)
  {
    var rest := StoreAfter(store, now, ttl, tries);
    assert destroyed == [] || destroyed[0] in destroyed;
    forall id | id in rest ensures !Selected(rest[id], now, ttl) {
      if Selected(store[id], now, ttl) { SmoothRemoves(store[id], tries(id)); }
    }
  }

  // ---- renew against later sweeps ----

  datatype Sweep = Sweep(now: int, ttl: nat, tries: Id -> Attempt)

  function AfterSweeps(store: map<Id, Record>, sweeps: seq<Sweep>): map<Id, Record> {
    if sweeps == [] then store
    else
      var last := sweeps[|sweeps| - 1];
      StoreAfter(AfterSweeps(store, sweeps[..|sweeps| - 1]), last.now, last.ttl, last.tries)
  }

  function Renewed(r: Record, now: int, d: nat): Record { r.(lease := Until(now + d)) }

  /** A record renewed at `t` for `d` outlives every series of sweeps that start no later
      than `t + d`, plus whatever grace each allows, and is not changed by them. */
  lemma {:induction false} RenewProtects(store: map<Id, Record>, id: Id, t: int, d: nat, sweeps: seq<Sweep>)
    requires id in store && store[id].lease == Until(t + d)
    requires forall w :: w in sweeps ==> w.now <= t + d + w.ttl
    ensures id in AfterSweeps(store, sweeps) && AfterSweeps(store, sweeps)[id] == store[id]
  {
    if sweeps != [] {
      RenewProtects(store, id, t, d, sweeps[..|sweeps| - 1]);
      var last := sweeps[|sweeps| - 1];
      assert last in sweeps;
      SelectedIff(store[id], last.now, last.ttl);
    }
  }

  /** Without a readable lease a record is never swept. */
  lemma {:induction false} NoLeaseNoSweep(store: map<Id, Record>, id: Id, sweeps: seq<Sweep>)
    requires id in store && !store[id].lease.Until?
    ensures id in AfterSweeps(store, sweeps) && AfterSweeps(store, sweeps)[id] == store[id]
  {
    if sweeps != [] {
      NoLeaseNoSweep(store, id, sweeps[..|sweeps| - 1]);
    }
  }

  // ---- account keys ----

  /** The account holds the key that create made for this record. */
  predicate OwnsKey(r: Record, account: map<Key, string>) {
    && r.pubkey.Some? && r.keyName.Some?
    && r.pubkey.value in account
    && account[r.pubkey.value] == if TAG <= r.keyName.value then r.keyName.value else TAG + r.keyName.value
  }

  /** The keys left are exactly those that no destroy revoked and that are untagged or
      belong to a surviving record. */
  lemma KeysLeft(account: map<Key, string>, store: map<Id, Record>, now: int, ttl: nat, tries: Id -> Attempt, k: Key)
    requires k in account
    ensures k in AccountAfter(account, store, now, ttl, tries) <==>
            && !Hit(store, now, ttl, tries, k)
            && (ParseLabelTag(account[k]).None?
                || KnownLabel(StoreAfter(store, now, ttl, tries), ParseLabelTag(account[k]).value))
  {
  }

  /** One sweep: a surviving record keeps its key exactly when the sweep did not select it or
      did not get as far as the revocation. */
  lemma SurvivorsKey(account: map<Key, string>, store: map<Id, Record>, now: int, ttl: nat,
                     tries: Id -> Attempt, id: Id)
    requires id in StoreAfter(store, now, ttl, tries) && OwnsKey(store[id], account) && OwnPubkey(store, id)
    ensures store[id].pubkey.value in AccountAfter(account, store, now, ttl, tries) <==>
            !Selected(store[id], now, ttl) || Revoked(store[id], tries(id)).None?
  {
    var k := store[id].pubkey.value;
    var name := StripTag(store[id].keyName.value);
    assert (TAG + name)[|TAG|..] == name;
    assert ParseLabelTag(account[k]) == Some(name);
    assert StoreAfter(store, now, ttl, tries)[id] == store[id];
    assert KnownLabel(StoreAfter(store, now, ttl, tries), name);
    KeysLeft(account, store, now, ttl, tries, k);
    if Selected(store[id], now, ttl) && Revoked(store[id], tries(id)).Some? {
      assert Revoked(store[id], tries(id)) == Some(k);
      assert Hit(store, now, ttl, tries, k);
    }
  }

  ghost predicate OwnPubkey(store: map<Id, Record>, id: Id)
    requires id in store
  {
    forall other :: other in store && other != id ==> store[other].pubkey != store[id].pubkey
  }

  /** Whatever backend, key directory and record store answer, the record keeps its key if it
      survives the sweep. */
  ghost predicate KeyIsSafe(account: map<Key, string>, store: map<Id, Record>, now: int, ttl: nat, id: Id)
    requires id in store && store[id].pubkey.Some?
  {
    forall tries: Id -> Attempt :: id in StoreAfter(store, now, ttl, tries) ==>
      store[id].pubkey.value in AccountAfter(account, store, now, ttl, tries)
  }

  /** A record's key is safe in a sweep if and only if the sweep will not select the record,
      or the record names no VM. */
  lemma SurvivorKeepsKeyIff(account: map<Key, string>, store: map<Id, Record>, now: int, ttl: nat, id: Id)
    requires id in store && OwnsKey(store[id], account) && OwnPubkey(store, id)
    ensures KeyIsSafe(account, store, now, ttl, id) <==> !Selected(store[id], now, ttl) || store[id].tag.None?
  {
    forall tries: Id -> Attempt | id in StoreAfter(store, now, ttl, tries)
      ensures !Selected(store[id], now, ttl) || store[id].tag.None? ==>
                store[id].pubkey.value in AccountAfter(account, store, now, ttl, tries)
    {
      SurvivorsKey(account, store, now, ttl, tries, id);
    }
    if Selected(store[id], now, ttl) && store[id].tag.Some? {
      var tries := (_: Id) => Attempt(true, true, true, false, Error, false, true, true);
      SurvivorLosesKey(account, store, now, ttl, tries, id);
    }
  }

  /** The failing cases: on a backend with account keys the key is revoked, whatever the
      revocation reported, and then anything keeps the record. */
  lemma SurvivorLosesKey(account: map<Key, string>, store: map<Id, Record>, now: int, ttl: nat,
                         tries: Id -> Attempt, id: Id)
    requires id in store && OwnsKey(store[id], account) && OwnPubkey(store, id)
    requires Selected(store[id], now, ttl) && store[id].tag.Some?
    requires tries(id).accountKeys && tries(id).loads && (tries(id).revokes || tries(id).keyGone)
    requires !Removed(store[id], tries(id))
    ensures id in StoreAfter(store, now, ttl, tries)
    ensures store[id].pubkey.value !in AccountAfter(account, store, now, ttl, tries)
  {
    SurvivorsKey(account, store, now, ttl, tries, id);
  }

  /** A tagged key is an orphan exactly when no record goes by its label, bare or tagged. */
  lemma OrphanIff(store: map<Id, Record>, name: string)
    requires !(TAG <= name)
    ensures Orphan(TAG + name, store) <==>
            forall id :: id in store && store[id].keyName.Some? ==>
              store[id].keyName.value != name && store[id].keyName.value != TAG + name
  {
    assert (TAG + name)[|TAG|..] == name;
    forall id | id in store && store[id].keyName.Some?
      ensures StripTag(store[id].keyName.value) == name <==>
              store[id].keyName.value == name || store[id].keyName.value == TAG + name
    {
      var known := store[id].keyName.value;
      if TAG <= known {
        assert known == TAG + known[|TAG|..];
      }
    }
  }

  /** After an Ok reap no key is left whose label no surviving record goes by. */
  lemma OrphansRevoked(account: map<Key, string>, store: map<Id, Record>, now: int, ttl: nat, tries: Id -> Attempt,
                       k: Key, name: string)
    requires k in account && account[k] == TAG + name && !(TAG <= name)
    requires var left := StoreAfter(store, now, ttl, tries);
             forall id :: id in left && left[id].keyName.Some? ==>
               left[id].keyName.value != name && left[id].keyName.value != TAG + name
    ensures k !in AccountAfter(account, store, now, ttl, tries)
  {
    OrphanIff(StoreAfter(store, now, ttl, tries), name);
  }

  /** An untagged key goes only if it is itself the public key of a swept record. */
  lemma UntaggedKeysStay(account: map<Key, string>, store: map<Id, Record>, now: int, ttl: nat,
                         tries: Id -> Attempt, k: Key)
    requires k in account && ParseLabelTag(account[k]).None?
    ensures k in AccountAfter(account, store, now, ttl, tries) <==> !Hit(store, now, ttl, tries, k)
    ensures (forall id :: id in store ==> store[id].pubkey != Some(k)) ==>
              k in AccountAfter(account, store, now, ttl, tries)
  {
    KeysLeft(account, store, now, ttl, tries, k);
  }

  // ---- the code ----

  datatype Report = Report(destroyed: seq<Id>, wouldDestroy: seq<Id>, keysReconciled: nat)

  lemma CountDropped(before: map<Key, string>, k: Key)
    requires k in before
    ensures |before - {k}| == |before| - 1
  {
    assert (before - {k}).Keys == before.Keys - {k};
    SizeOfKeys(before);
    SizeOfKeys(before - {k});
  }

  lemma SizeOfKeys(m: map<Key, string>)
    ensures |m| == |m.Keys|
  {
  }

  class Fleet {
    var store: map<Id, Record>
    var vms: set<string>
    var account: map<Key, string>
    /** Records whose key directory is still there. */
    var keyDirs: set<Id>

    constructor (store: map<Id, Record>, vms: set<string>, account: map<Key, string>, keyDirs: set<Id>)
      ensures this.store == store && this.vms == vms && this.account == account && this.keyDirs == keyDirs
    {
      this.store, this.vms, this.account, this.keyDirs := store, vms, account, keyDirs;
    }

    /** `destroy_with_key` or `destroy` of the VM: where there are account keys, key first and
        VM second. */
    method DestroyVm(r: Record, at: Attempt) returns (answer: Answer)
      requires r.tag.Some? && at.loads
      modifies this`vms, this`account
      ensures account == if Revoked(r, at).Some? then old(account) - {Revoked(r, at).value} else old(account)
      ensures answer == VmAnswer(r, at)
      ensures vms == if VmRemoved(r, at) then old(vms) - {r.tag.value} else old(vms)
      ensures answer != Error ==> r.tag.value !in vms
    {
      var keyFirst := at.accountKeys && r.pubkey.Some?;
      if keyFirst {
        if at.revokes || at.keyGone {
          account := account - {r.pubkey.value};
        }
        if !at.revokes {
          return Error;
        }
      }
      if at.vm != Error || at.vmGone {
        vms := vms - {r.tag.value};
      }
      answer := if keyFirst && at.vm == NotFound then Ok else at.vm;
    }

    /** `destroy`: VM, then key directory, then record; the first failure stops it. */
    method Destroy(id: Id, at: Attempt) returns (answer: Answer)
      modifies this
      ensures answer == if id in old(store) then Destroyed(old(store)[id], at)
                        else if at.loads then NotFound else Error
      ensures store == if answer == Ok then old(store) - {id} else old(store)
      ensures id !in old(store) ==> account == old(account) && vms == old(vms) && keyDirs == old(keyDirs)
      ensures id in old(store) ==>
                && account == (if Revoked(old(store)[id], at).Some?
                               then old(account) - {Revoked(old(store)[id], at).value} else old(account))
                && vms == (if VmRemoved(old(store)[id], at) then old(vms) - {old(store)[id].tag.value} else old(vms))
                && keyDirs == (if DirRemoved(old(store)[id], at) then old(keyDirs) - {id} else old(keyDirs))
    {
      if !at.loads {
        return Error;
      }
      if id !in store {
        return NotFound;
      }
      var record := store[id];
      answer := Ok;
      if record.tag.Some? {
        answer := DestroyVm(record, at);
        if answer != Ok {
          return answer;
        }
      }
      if record.keyed {
        if !at.cleans {
          return Error;
        }
        keyDirs := keyDirs - {id};
      }
      if !at.deletes {
        return Error;
      }
      store := store - {id};
    }

    /** `renew` at time `now`. */
    method Renew(id: Id, now: int, d: nat) returns (ok: bool)
      modifies this`store
      ensures ok <==> id in old(store) && !old(store)[id].cleanupFailed
      ensures store == if ok then old(store)[id := Renewed(old(store)[id], now, d)] else old(store)
      ensures ok ==> store[id].lease == Until(now + d)
    {
      if id !in store || store[id].cleanupFailed {
        return false;
      }
      store := store[id := store[id].(lease := Until(now + d))];
      ok := true;
    }

    /** List, filter, sort. */
    method Expired(now: int, ttl: nat) returns (ids: seq<Id>)
      ensures IsSelection(ids, store, now, ttl)
    {
      ids := [];
      var left := store.Keys;
      while left != {}
        invariant left <= store.Keys
        invariant Ascending(ids)
        invariant forall id :: id in ids <==> id in store && id !in left && Selected(store[id], now, ttl)
        decreases left
      {
        var id :| id in left;
        left := left - {id};
        if Selected(store[id], now, ttl) {
          ids := InsertSorted(ids, id);
        }
      }
    }

    /** One record of the sweep: a record whose VM is already gone is retired. */
    method SweepOne(id: Id, at: Attempt) returns (gone: bool)
      requires id in store
      modifies this
      ensures gone <==> Removed(old(store)[id], at)
      ensures store == if gone then old(store) - {id} else old(store)
      ensures account == if Revoked(old(store)[id], at).Some?
                         then old(account) - {Revoked(old(store)[id], at).value} else old(account)
      ensures vms == if VmRemoved(old(store)[id], at) then old(vms) - {old(store)[id].tag.value} else old(vms)
      ensures keyDirs == if DirRemoved(old(store)[id], at) then old(keyDirs) - {id} else old(keyDirs)
    {
      var answer := Destroy(id, at);
      gone := answer == Ok;
      if answer == NotFound && at.deletes {
        store := store - {id};
        gone := true;
      }
    }

    /** The sweep loop of `reap`. */
    method SweepAll(ids: seq<Id>, now: int, ttl: nat, tries: Id -> Attempt) returns (destroyed: seq<Id>)
      requires IsSelection(ids, store, now, ttl)
      modifies this
      ensures store == StoreAfter(old(store), now, ttl, tries)
      ensures account == AccountSwept(old(account), old(store), now, ttl, tries)
      ensures IsRemoval(destroyed, old(store), now, ttl, tries)
      ensures vms == VmsAfter(old(vms), old(store), now, ttl, tries)
      ensures keyDirs == DirsAfter(old(keyDirs), old(store), now, ttl, tries)
    {
      destroyed := [];
      ghost var store0, account0, swept: set<Id> := store, account, {};
      ghost var vms0, dirs0 := vms, keyDirs;
      for i := 0 to |ids|
        invariant swept == Elements(ids[..i])
        invariant IsProgress(destroyed, store0, swept, tries)
        invariant swept <= store0.Keys && store == Survivors(store0, swept, tries)
        invariant account == KeysSpared(account0, store0, swept, tries)
        invariant vms == VmsSpared(vms0, store0, ids[..i], tries)
        invariant keyDirs == DirsSpared(dirs0, store0, ids[..i], tries)
      {
        var id := ids[i];
        NextInOrder(ids, i);
        SpareOneMore(account0, store0, swept, tries, id);
        OneMoreSpared(vms0, dirs0, store0, ids, i, tries);
        ProgressOneMore(destroyed, store0, swept, tries, id);
        var gone := SweepOne(id, tries(id));
        swept := swept + {id};
        if gone {
          destroyed := destroyed + [id];
        }
      }
      assert ids[..|ids|] == ids;
      SweepComplete(account0, store0, now, ttl, tries, destroyed, swept);
      SparedComplete(vms0, dirs0, store0, now, ttl, tries, ids);
    }

    /** `reconcile_orphaned_keys`, in listing order; the first failed revocation ends it, and
        may have taken effect all the same. */
    method ReconcileKeys(revokes: Key -> bool) returns (count: Option<nat>)
      modifies this`account
      ensures count.Some? ==> account == Reconciled(old(account), store) && count.value == |old(account)| - |account|
      ensures count.None? ==> exists k :: k in old(account) && Orphan(old(account)[k], store) && !revokes(k)
      ensures OrphansGone(old(account), account)
    {
      ghost var before := account;
      var left, n := account.Keys, 0;
      while left != {}
        invariant left <= account.Keys <= before.Keys
        invariant forall k :: k in account ==> account[k] == before[k]
        invariant forall k :: k in before ==> (k in account <==> k in left || !Orphan(before[k], store))
        invariant n == |before| - |account|
        decreases left
      {
        var k :| k in left;
        left := left - {k};
        if Orphan(account[k], store) {
          if !revokes(k) {
            var gone: bool := *;
            account := if gone then account - {k} else account;
            return None;
          }
          CountDropped(account, k);
          account := account - {k};
          n := n + 1;
        }
      }
      assert account == Reconciled(before, store);
      count := Some(n);
    }

    /** `reap`. `None` is the error of a failed key listing or revocation: the sweep has run
        all the same, and of the keys it left only orphans can have gone. */
    method Reap(now: int, ttl: nat, dryRun: bool, tries: Id -> Attempt, keysListed: bool, revokes: Key -> bool)
        returns (r: Option<Report>)
      modifies this
      ensures dryRun ==>
                && store == old(store) && account == old(account) && vms == old(vms) && keyDirs == old(keyDirs)
                && r.Some? && r.value.destroyed == [] && r.value.keysReconciled == 0
                && IsSelection(r.value.wouldDestroy, store, now, ttl)
      ensures !dryRun ==>
                && store == StoreAfter(old(store), now, ttl, tries)
                && vms == VmsAfter(old(vms), old(store), now, ttl, tries)
                && keyDirs == DirsAfter(old(keyDirs), old(store), now, ttl, tries)
                && OrphansGone(AccountSwept(old(account), old(store), now, ttl, tries), account)
      ensures !dryRun && r.Some? ==>
                && IsRemoval(r.value.destroyed, old(store), now, ttl, tries)
                && account == AccountAfter(old(account), old(store), now, ttl, tries)
                && r.value.keysReconciled == |AccountSwept(old(account), old(store), now, ttl, tries)| - |account|
      ensures !dryRun && r.None? && !keysListed ==>
                account == AccountSwept(old(account), old(store), now, ttl, tries)
      ensures !dryRun && r.None? && keysListed ==>
                exists k :: k in old(account) && Orphan(old(account)[k], store) && !revokes(k)
    {
      var expired := Expired(now, ttl);
      if dryRun {
        return Some(Report([], expired, 0));
      }
      var destroyed := SweepAll(expired, now, ttl, tries);
      if !keysListed {
        return None;
      }
      var count := ReconcileKeys(revokes);
      r := if count.Some? then Some(Report(destroyed, [], count.value)) else None;
    }

    /** `left` is these keys without some orphans. */
    predicate OrphansGone(keys: map<Key, string>, left: map<Key, string>) reads this {
      && (forall k :: k in left ==> k in keys && left[k] == keys[k])
      && (forall k :: k in keys && !Orphan(keys[k], store) ==> k in left)
    }
  }

  method InsertSorted(ids: seq<Id>, id: Id) returns (out: seq<Id>)
    requires Ascending(ids) && id !in ids
    ensures Ascending(out) && forall x :: x in out <==> x == id || x in ids
  {
    var i := 0;
    while i < |ids| && ids[i] < id
      invariant 0 <= i <= |ids| && forall j :: 0 <= j < i ==> ids[j] < id
    {
      i := i + 1;
    }
    assert i < |ids| ==> ids[i] in ids;
    InsertedAscending(ids, i, id);
    out := ids[..i] + [id] + ids[i..];
  }

  lemma InsertedAscending(ids: seq<Id>, i: nat, id: Id)
    requires Ascending(ids) && i <= |ids|
    requires (forall j :: 0 <= j < i ==> ids[j] < id) && (i < |ids| ==> id < ids[i])
    ensures Ascending(ids[..i] + [id] + ids[i..])
    ensures forall x :: x in ids[..i] + [id] + ids[i..] <==> x == id || x in ids
  {
    var out := ids[..i] + [id] + ids[i..];
    assert forall k :: 0 <= k < |out| ==> out[k] == if k < i then ids[k] else if k == i then id else ids[k - 1];
    assert ids == ids[..i] + ids[i..];
  }
}
