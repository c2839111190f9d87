/** Account keys while creates, destroys, renewals and reconciliations interleave: when can
    a stored sandbox have lost its key? One key per sandbox, labelled by its id. */
module AccountKeys {
  type Call = nat
  type Id = nat

  /** Where a call stands. A reconciliation reads the labels of the stored records, lists the
      account's keys, and revokes those whose label it did not read; `since` is what was
      stored when it began. */
  datatype Pc =
    | Idle
    | Saving(id: Id)
    | Revoking(id: Id)
    | Removing(id: Id)
    | Renewing(id: Id)
    | Labels(since: set<Id>, known: set<Id>)
    | Listing(since: set<Id>, known: set<Id>)
    | Orphans(since: set<Id>, known: set<Id>, left: set<Id>)

  /** `used` holds the ids whose key was ever registered, `saved` those whose record was ever
      stored, `tried` those whose key a destroy revoked. */
  datatype State = State(
    calls: map<Call, Pc>,
    account: set<Id>,
    store: set<Id>,
    used: set<Id>,
    saved: set<Id>,
    tried: set<Id>
  )

  function PcOf(s: State, c: Call): Pc { if c in s.calls then s.calls[c] else Idle }

  /** One atomic step; `done` says that it took effect, which it may have although `ok` is
      false. A listing of the directory reports at least the records that stay. */
  datatype Action =
    | Register(c: Call, id: Id)
    | Save(c: Call, done: bool)
    | Load(c: Call, id: Id)
    | Revoke(c: Call, ok: bool, done: bool)
    | Delete(c: Call, done: bool)
    | RenewLoad(c: Call, id: Id)
    | RenewSave(c: Call, done: bool)
    | StartLabels(c: Call)
    | Read(c: Call, id: Id)
    | EndLabels(c: Call)
    | ListKeys(c: Call)
    | Orphan(c: Call, id: Id, ok: bool, done: bool)
    | Stop(c: Call)

  predicate Enabled(s: State, a: Action) {
    match a
    case Register(c, id) => PcOf(s, c).Idle? && id !in s.used
    case Save(c, _) => PcOf(s, c).Saving?
    case Load(c, id) => PcOf(s, c).Idle? && id in s.store
    case Revoke(c, ok, done) => PcOf(s, c).Revoking? && (ok ==> done)
    case Delete(c, _) => PcOf(s, c).Removing?
    case RenewLoad(c, id) => PcOf(s, c).Idle? && id in s.store
    case RenewSave(c, _) => PcOf(s, c).Renewing?
    case StartLabels(c) => PcOf(s, c).Idle?
    case Read(c, id) => PcOf(s, c).Labels? && id in s.store
    case EndLabels(c) => PcOf(s, c).Labels? && PcOf(s, c).since * s.store <= PcOf(s, c).known
    case ListKeys(c) => PcOf(s, c).Listing?
    case Orphan(c, id, ok, done) =>
      PcOf(s, c).Orphans? && id in PcOf(s, c).left && id !in PcOf(s, c).known && (ok ==> done)
    case Stop(_) => true
  }

  function With(ids: set<Id>, id: Id, done: bool): set<Id> { if done then ids + {id} else ids }

  function Without(ids: set<Id>, id: Id, done: bool): set<Id> { if done then ids - {id} else ids }

  function Apply(s: State, a: Action): State
    requires Enabled(s, a)
  {
    var pc := PcOf(s, a.c);
    match a
    case Register(c, id) =>
      s.(calls := s.calls[c := Saving(id)], account := s.account + {id}, used := s.used + {id})
    case Save(c, done) =>
      s.(calls := s.calls[c := Idle], store := With(s.store, pc.id, done), saved := With(s.saved, pc.id, done))
    case Load(c, id) => s.(calls := s.calls[c := Revoking(id)])
    case Revoke(c, ok, done) =>
      s.(calls := s.calls[c := if ok then Removing(pc.id) else Idle],
         account := Without(s.account, pc.id, done), tried := With(s.tried, pc.id, done))
    case Delete(c, done) => s.(calls := s.calls[c := Idle], store := Without(s.store, pc.id, done))
    case RenewLoad(c, id) => s.(calls := s.calls[c := Renewing(id)])
    case RenewSave(c, done) => s.(calls := s.calls[c := Idle], store := With(s.store, pc.id, done))
    case StartLabels(c) => s.(calls := s.calls[c := Labels(s.store, {})])
    case Read(c, id) => s.(calls := s.calls[c := Labels(pc.since, pc.known + {id})])
    case EndLabels(c) => s.(calls := s.calls[c := Listing(pc.since, pc.known)])
    case ListKeys(c) => s.(calls := s.calls[c := Orphans(pc.since, pc.known, s.account)])
    case Orphan(c, id, ok, done) =>
      s.(calls := s.calls[c := if ok then pc.(left := pc.left - {id}) else Idle],
         account := Without(s.account, id, done))
    case Stop(c) => s.(calls := s.calls[c := Idle])
  }

  predicate Init(s: State) {
    s.calls == map[] && s.store == s.used == s.saved == s.tried == {}
  }

  ghost predicate IsRun(run: seq<State>, acts: seq<Action>) {
    && |run| == |acts| + 1
    && Init(run[0])
    && forall i :: 0 <= i < |acts| ==> IsStep(run, acts, i)
  }

  predicate IsStep(run: seq<State>, acts: seq<Action>, i: nat)
    requires |run| == |acts| + 1 && i < |acts|
  {
    Enabled(run[i], acts[i]) && run[i + 1] == Apply(run[i], acts[i])
  }

  lemma LastStep(run: seq<State>, acts: seq<Action>, n: nat)
    requires IsRun(run, acts) && 0 < n < |run|
    ensures Enabled(run[n - 1], acts[n - 1]) && run[n] == Apply(run[n - 1], acts[n - 1])
  {
    assert IsStep(run, acts, n - 1);
  }

  // ---- what a reconciliation knows ----

  predicate Reconciles(pc: Pc) { pc.Labels? || pc.Listing? || pc.Orphans? }

  predicate PcOk(s: State, pc: Pc) {
    && (pc.Saving? ==> pc.id in s.used)
    && (pc.Removing? ==> pc.id in s.tried)
    && (pc.Renewing? || pc.Revoking? ==> pc.id in s.saved)
    && (Reconciles(pc) ==> pc.since <= s.saved)
    && (pc.Listing? || pc.Orphans? ==> pc.since <= pc.known + s.tried)
  }

  /** A record goes only after its key was revoked, so a reconciliation has read the label of
      every record that was stored when it began, or that record's key was revoked. */
  ghost predicate Inv(s: State) {
    && s.store <= s.saved <= s.store + s.tried
    && s.saved <= s.used && s.tried <= s.used
    && forall c: Call :: PcOk(s, PcOf(s, c))
  }

  lemma StepKeeps(s: State, a: Action)
    requires Inv(s) && Enabled(s, a)
    ensures Inv(Apply(s, a)) && s.tried <= Apply(s, a).tried
  {
    var t := Apply(s, a);
    assert PcOk(s, PcOf(s, a.c));
    forall c: Call ensures PcOk(t, PcOf(t, c)) {
      assert PcOk(s, PcOf(s, c));
    }
  }

  lemma {:induction false} Always(run: seq<State>, acts: seq<Action>, n: nat)
    requires IsRun(run, acts) && n < |run|
    ensures Inv(run[n])
  {
    if n > 0 {
      Always(run, acts, n - 1);
      LastStep(run, acts, n);
      StepKeeps(run[n - 1], acts[n - 1]);
    }
  }

  /** `c` has been in one reconciliation since step `start` began it. */
  ghost predicate ReconcilesSince(run: seq<State>, acts: seq<Action>, c: Call, start: nat, n: nat)
    requires |run| == |acts| + 1 && n < |run|
  {
    start < n && acts[start] == StartLabels(c) && forall j :: start < j <= n ==> Reconciles(PcOf(run[j], c))
  }

  lemma {:induction false} Began(run: seq<State>, acts: seq<Action>, c: Call, n: nat) returns (start: nat)
    requires IsRun(run, acts) && n < |run| && Reconciles(PcOf(run[n], c))
    ensures ReconcilesSince(run, acts, c, start, n) && PcOf(run[n], c).since == run[start].store
  {
    assert n > 0;
    LastStep(run, acts, n);
    if Reconciles(PcOf(run[n - 1], c)) {
      start := Began(run, acts, c, n - 1);
    } else {
      start := n - 1;
    }
  }

  // ---- why a key is gone ----

  /** A key that no destroy revoked is gone only if some reconciliation revoked it that had
      begun before its sandbox was stored. */
  lemma {:induction false} LostKey(run: seq<State>, acts: seq<Action>, n: nat, id: Id)
      returns (c: Call, start: nat, e: nat)
    requires IsRun(run, acts) && n < |run|
    requires id in run[n].used && id !in run[n].account && id !in run[n].tried
    ensures start < e < n && acts[e].Orphan? && acts[e].c == c && acts[e].id == id
    ensures ReconcilesSince(run, acts, c, start, e) && id !in run[start].store
  {
    assert n > 0;
    LastStep(run, acts, n);
    Always(run, acts, n - 1);
    StepKeeps(run[n - 1], acts[n - 1]);
    if id in run[n - 1].used && id !in run[n - 1].account {
      c, start, e := LostKey(run, acts, n - 1, id);
    } else {
      OnlyOrphans(run[n - 1], acts[n - 1], id);
      c, e := acts[n - 1].c, n - 1;
      start := Began(run, acts, c, e);
    }
  }

  lemma OnlyOrphans(s: State, a: Action, id: Id)
    requires Inv(s) && Enabled(s, a)
    requires id in Apply(s, a).used && id !in Apply(s, a).account && id !in Apply(s, a).tried
    requires id !in s.used || id in s.account
    ensures a.Orphan? && a.id == id && id !in PcOf(s, a.c).since
  {
    assert PcOk(s, PcOf(s, a.c));
  }

  // ---- which reconciliations endanger a key ----

  /** A reconciliation that will not know the label of `id`, though it may still list its
      key, or has listed it. */
  predicate AtRisk(pc: Pc, id: Id) {
    match pc
    case Labels(since, known) => id !in since && id !in known
    case Listing(_, known) => id !in known
    case Orphans(_, known, left) => id in left && id !in known
    case _ => false
  }

  /** The sandbox is stored with its key, and no call endangers that key. */
  ghost predicate Safe(s: State, id: Id) {
    id in s.store && id in s.account && id !in s.tried && forall c: Call :: !AtRisk(PcOf(s, c), id)
  }

  /** Only a destroy's revocation ends safety. */
  lemma StepKeepsSafe(s: State, a: Action, id: Id)
    requires Inv(s) && Enabled(s, a) && Safe(s, id) && id !in Apply(s, a).tried
    ensures Safe(Apply(s, a), id)
  {
    var t := Apply(s, a);
    assert PcOk(s, PcOf(s, a.c));
    forall c: Call ensures !AtRisk(PcOf(t, c), id) {
      assert !AtRisk(PcOf(s, c), id);
    }
  }

  lemma {:induction false} TriedStays(run: seq<State>, acts: seq<Action>, k: nat, n: nat)
    requires IsRun(run, acts) && k <= n < |run|
    ensures run[k].tried <= run[n].tried
  {
    if k < n {
      TriedStays(run, acts, k, n - 1);
      LastStep(run, acts, n);
      Always(run, acts, n - 1);
      StepKeeps(run[n - 1], acts[n - 1]);
    }
  }

  /** A stored sandbox that is safe at one moment keeps its key in every continuation, until
      a destroy revokes it. */
  lemma {:induction false} StoredKeepsKey(run: seq<State>, acts: seq<Action>, k: nat, n: nat, id: Id)
    requires IsRun(run, acts) && k <= n < |run| && Safe(run[k], id) && id !in run[n].tried
    ensures Safe(run[n], id)
  {
    if k < n {
      TriedStays(run, acts, n - 1, n);
      StoredKeepsKey(run, acts, k, n - 1, id);
      LastStep(run, acts, n);
      Always(run, acts, n - 1);
      StepKeepsSafe(run[n - 1], acts[n - 1], id);
    }
  }

  // ---- the race ----

  lemma Push(run: seq<State>, acts: seq<Action>, a: Action) returns (run': seq<State>, acts': seq<Action>)
    requires IsRun(run, acts) && Enabled(run[|acts|], a)
    ensures IsRun(run', acts') && run <= run' && run'[|acts'|] == Apply(run[|acts|], a)
  {
    run', acts' := run + [Apply(run[|acts|], a)], acts + [a];
    forall i: nat | i < |acts'| ensures IsStep(run', acts', i) {
      if i < |acts| {
        assert IsStep(run, acts, i);
      }
    }
  }

  /** The reading of labels reports every stored record, but perhaps for `skip`. */
  lemma ReadAll(run: seq<State>, acts: seq<Action>, c: Call, skip: set<Id>)
      returns (run': seq<State>, acts': seq<Action>)
    requires IsRun(run, acts) && PcOf(run[|acts|], c).Labels?
    ensures IsRun(run', acts') && run <= run'
    ensures var s, pc := run[|acts|], PcOf(run[|acts|], c);
            run'[|acts'|] == s.(calls := s.calls[c := Labels(pc.since, pc.known + (s.store - skip))])
    decreases |run[|acts|].store - skip - PcOf(run[|acts|], c).known|
  {
    var s, pc := run[|acts|], PcOf(run[|acts|], c);
    run', acts' := run, acts;
    if s.store - skip <= pc.known {
      assert pc.known + (s.store - skip) == pc.known;
      assert s.calls[c := Labels(pc.since, pc.known)] == s.calls;
    } else {
      var id :| id in s.store - skip && id !in pc.known;
      run', acts' := Push(run, acts, Read(c, id));
      assert s.store - skip - (pc.known + {id}) == (s.store - skip - pc.known) - {id};
      assert pc.known + {id} + (s.store - skip) == pc.known + (s.store - skip);
      run', acts' := ReadAll(run', acts', c, skip);
    }
  }

  /** Some continuation loses the key without a destroy. */
  ghost predicate CanLose(run: seq<State>, acts: seq<Action>, id: Id)
    requires |run| == |acts| + 1
  {
    exists run': seq<State>, acts': seq<Action> ::
      && IsRun(run', acts') && run <= run'
      && id !in run'[|acts'|].account && id !in run'[|acts'|].tried
  }

  /** An endangering call carries its danger out. */
  lemma RiskComesTrue(run: seq<State>, acts: seq<Action>, c: Call, id: Id)
      returns (run': seq<State>, acts': seq<Action>)
    requires IsRun(run, acts) && AtRisk(PcOf(run[|acts|], c), id)
    requires id in run[|acts|].account && id !in run[|acts|].tried
    ensures IsRun(run', acts') && run <= run'
    ensures var s, t := run[|acts|], run'[|acts'|];
            id !in t.account && id !in t.tried && t.store == s.store
  {
    run', acts' := run, acts;
    if PcOf(run'[|acts'|], c).Labels? {
      run', acts' := ReadAll(run', acts', c, {id});
      run', acts' := Push(run', acts', EndLabels(c));
    }
    if PcOf(run'[|acts'|], c).Listing? {
      run', acts' := Push(run', acts', ListKeys(c));
    }
    run', acts' := Push(run', acts', Orphan(c, id, true, true));
  }

  /** The key of a stored sandbox that no destroy has tried can be lost if and only if some
      reconciliation is under way that began before the sandbox was stored, or has ended its
      reading without it, and has not read its label: it may still list the key, or has
      listed it and not come to it yet. */
  lemma KeyCanBeLostIff(run: seq<State>, acts: seq<Action>, id: Id)
    requires IsRun(run, acts)
    requires var s := run[|acts|]; id in s.store && id in s.account && id !in s.tried
    ensures CanLose(run, acts, id) <==> exists c: Call :: AtRisk(PcOf(run[|acts|], c), id)
  {
    var n := |acts|;
    if exists c: Call :: AtRisk(PcOf(run[n], c), id) {
      var c: Call :| AtRisk(PcOf(run[n], c), id);
      var run', acts' := RiskComesTrue(run, acts, c, id);
    } else if CanLose(run, acts, id) {
      var run': seq<State>, acts': seq<Action> :|
        && IsRun(run', acts') && run <= run'
        && id !in run'[|acts'|].account && id !in run'[|acts'|].tried;
      assert run'[n] == run[n];
      StoredKeepsKey(run', acts', n, |acts'|, id);
    }
  }

  /** From every state of every run a reconciliation can take the key of a sandbox that is
      being created: it reads the labels between the registration of the key and the save of
      the record. */
  lemma RaceLosesKey(run: seq<State>, acts: seq<Action>, c: Call, d: Call, id: Id)
      returns (run': seq<State>, acts': seq<Action>)
    requires IsRun(run, acts) && c != d && id !in run[|acts|].used
    requires PcOf(run[|acts|], c).Idle? && PcOf(run[|acts|], d).Idle?
    ensures IsRun(run', acts') && run <= run'
    ensures var t := run'[|acts'|];
            id in t.store && id !in t.account && id !in t.tried
  {
    Always(run, acts, |acts|);
    run', acts' := Push(run, acts, Register(c, id));
    run', acts' := Push(run', acts', StartLabels(d));
    run', acts' := Push(run', acts', Save(c, true));
    run', acts' := RiskComesTrue(run', acts', d, id);
  }
}
