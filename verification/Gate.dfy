/** `POST /sandboxes`: a mutex around counting and creating keeps the number of stored
    sandboxes at the cap, whatever handlers, deletes, sweeps and renewals do meanwhile. */
module Gate {
  import opened Text

  type Handler = nat
  type Renewer = nat
  type Id = nat

  datatype Pc = Idle | Waiting | Listing | Creating | Proving

  /** `seen` and `must` belong to the listing of the gate's holder: the entries it has read,
      and those stored since it began, which a directory listing has to report. `loaded`
      holds the records that renewals have read but not saved; `revived` counts the saves
      among them that brought back a deleted record. */
  datatype State = State(
    max: nat,
    gate: Option<Handler>,
    handlers: map<Handler, Pc>,
    store: set<Id>,
    used: set<Id>,
    seen: set<Id>,
    must: set<Id>,
    loaded: map<Renewer, Id>,
    revived: nat
  )

  function PcOf(s: State, h: Handler): Pc { if h in s.handlers then s.handlers[h] else Idle }

  /** One atomic step. `Delete` is any removal, by a handler, a sweep or an operator;
      `stored` is false for a create that fails before its save. */
  datatype Action =
    | Arrive(h: Handler)
    | Acquire(h: Handler)
    | See(h: Handler, id: Id)
    | Check(h: Handler, ok: bool)
    | Save(h: Handler, id: Id, stored: bool)
    | Finish(h: Handler)
    | Abort(h: Handler)
    | Delete(id: Id)
    | RenewLoad(r: Renewer, id: Id)
    | RenewSave(r: Renewer)

  predicate Enabled(s: State, a: Action) {
    match a
    case Arrive(h) => PcOf(s, h).Idle?
    case Acquire(h) => PcOf(s, h).Waiting? && s.gate.None?
    case See(h, id) => PcOf(s, h).Listing? && id in s.store
    case Check(h, _) => PcOf(s, h).Listing? && s.must <= s.seen
    case Save(h, id, _) => PcOf(s, h).Creating? && id !in s.used
    case Finish(h) => PcOf(s, h).Proving?
    case Abort(_) => true
    case Delete(_) => true
    case RenewLoad(r, id) => r !in s.loaded && id in s.store
    case RenewSave(r) => r in s.loaded
  }

  /** Dropping the handler's guard. */
  function Leave(s: State, h: Handler): State {
    s.(handlers := s.handlers[h := Idle], gate := if s.gate == Some(h) then None else s.gate)
  }

  function Apply(s: State, a: Action): State
    requires Enabled(s, a)
  {
    match a
    case Arrive(h) => if s.max == 0 then s else s.(handlers := s.handlers[h := Waiting])
    case Acquire(h) => s.(gate := Some(h), handlers := s.handlers[h := Listing], seen := {}, must := s.store)
    case See(_, id) => s.(seen := s.seen + {id})
    case Check(h, ok) =>
      if !ok || |s.seen| >= s.max then Leave(s, h) else s.(handlers := s.handlers[h := Creating])
    case Save(h, id, stored) =>
      s.(handlers := s.handlers[h := Proving], used := s.used + {id},
         store := if stored then s.store + {id} else s.store)
    case Finish(h) => Leave(s, h)
    case Abort(h) => Leave(s, h)
    case Delete(id) => s.(store := s.store - {id}, must := s.must - {id})
    case RenewLoad(r, id) => s.(loaded := s.loaded[r := id])
    case RenewSave(r) =>
      s.(loaded := s.loaded - {r}, store := s.store + {s.loaded[r]},
         revived := if s.loaded[r] in s.store then s.revived else s.revived + 1)
  }

  predicate Init(s: State) {
    s.gate.None? && s.handlers == map[] && s.loaded == map[] && s.revived == 0
    && s.store <= s.used && |s.store| <= s.max
  }

  ghost predicate IsRun(run: seq<State>, acts: seq<Action>) {
    && |run| == |acts| + 1
    && Init(run[0])
    && forall i :: 0 <= i < |acts| ==> Enabled(run[i], acts[i]) && run[i + 1] == Apply(run[i], acts[i])
  }

  predicate Inside(pc: Pc) { pc.Listing? || pc.Creating? || pc.Proving? }

  /** How full the store may be, by where the gate's holder stands. */
  predicate Room(s: State, pc: Pc) {
    && |s.store| <= s.max + s.revived
    && (pc.Listing? ==> s.must <= s.store && |s.store - s.must| <= s.revived)
    && (pc.Creating? ==> |s.store| < s.max + s.revived)
  }

  ghost predicate Inv(s: State) {
    && s.store <= s.used
    && (forall r: Renewer :: r in s.loaded ==> s.loaded[r] in s.used)
    && (forall h: Handler :: Inside(PcOf(s, h)) <==> s.gate == Some(h))
    && Room(s, if s.gate.Some? then PcOf(s, s.gate.value) else Idle)
  }

  lemma CountSubset<T>(a: set<T>, b: set<T>)
    requires a <= b
    ensures |a| <= |b| && |b| == |a| + |b - a|
  {
    assert b == a + (b - a);
  }

  /** A listing that reported fewer than `max` leaves room for one more record. */
  lemma CheckLeavesRoom(s: State)
    requires s.must <= s.seen && |s.seen| < s.max
    requires s.must <= s.store && |s.store - s.must| <= s.revived
    ensures |s.store| < s.max + s.revived
  {
    CountSubset(s.must, s.seen);
    CountSubset(s.must, s.store);
  }

  lemma DeleteKeepsRoom(s: State, id: Id, pc: Pc)
    requires Room(s, pc)
    ensures Room(s.(store := s.store - {id}, must := s.must - {id}), pc)
  {
    CountSubset(s.store - {id}, s.store);
    CountSubset((s.store - {id}) - (s.must - {id}), s.store - s.must);
  }

  lemma RevivalKeepsRoom(s: State, id: Id, pc: Pc)
    requires Room(s, pc) && id !in s.store
    ensures Room(s.(store := s.store + {id}, revived := s.revived + 1), pc)
  {
    if pc.Listing? {
      assert (s.store + {id}) - s.must == (s.store - s.must) + {id};
    }
  }

  lemma HandlerKeeps(s: State, a: Action)
    requires Inv(s) && Enabled(s, a)
    requires a.Arrive? || a.Acquire? || a.See? || a.Finish? || a.Abort?
    ensures Inv(Apply(s, a))
  {
    if a.Acquire? {
      assert s.store - s.store == {};
    }
  }

  lemma AdmissionKeeps(s: State, a: Action)
    requires Inv(s) && Enabled(s, a) && (a.Check? || a.Save?)
    ensures Inv(Apply(s, a))
  {
    assert s.gate == Some(a.h);
    if a.Check? && Apply(s, a).gate.Some? {
      CheckLeavesRoom(s);
    }
  }

  lemma StoreKeeps(s: State, a: Action)
    requires Inv(s) && Enabled(s, a) && (a.Delete? || a.RenewLoad? || a.RenewSave?)
    ensures Inv(Apply(s, a))
  {
    var t := Apply(s, a);
    var pc := if s.gate.Some? then PcOf(s, s.gate.value) else Idle;
    assert forall h: Handler :: PcOf(t, h) == PcOf(s, h);
    if a.Delete? {
      DeleteKeepsRoom(s, a.id, pc);
    } else if a.RenewSave? {
      if s.loaded[a.r] in s.store {
        assert t.store == s.store;
      } else {
        RevivalKeepsRoom(s, s.loaded[a.r], pc);
      }
    }
  }

  lemma StepKeeps(s: State, a: Action)
    requires Inv(s) && Enabled(s, a)
    ensures Inv(Apply(s, a))
  {
    if a.Check? || a.Save? { AdmissionKeeps(s, a); }
    else if a.Delete? || a.RenewLoad? || a.RenewSave? { StoreKeeps(s, a); }
    else { HandlerKeeps(s, a); }
  }

  lemma {:induction false} Always(run: seq<State>, acts: seq<Action>, n: nat)
    requires IsRun(run, acts) && n < |run|
    ensures Inv(run[n]) && run[n].max == run[0].max
  {
    if n > 0 {
      Always(run, acts, n - 1);
      assert run[n - 1 + 1] == Apply(run[n - 1], acts[n - 1]);
      StepKeeps(run[n - 1], acts[n - 1]);
    }
  }

  /** In every run the store exceeds the cap by at most the number of deleted records that
      renewals brought back. */
  lemma CapPlusRevivals(run: seq<State>, acts: seq<Action>, n: nat)
    requires IsRun(run, acts) && n < |run|
    ensures |run[n].store| <= run[0].max + run[n].revived
  {
    Always(run, acts, n);
  }

  /** No renewal saves a record that was deleted since its load: so it is when load and save
      are one step. */
  ghost predicate RenewalsAtomic(run: seq<State>, acts: seq<Action>)
    requires |run| == |acts| + 1
  {
    forall i :: 0 <= i < |acts| && acts[i].RenewSave? && acts[i].r in run[i].loaded ==>
      run[i].loaded[acts[i].r] in run[i].store
  }

  lemma {:induction false} NothingRevived(run: seq<State>, acts: seq<Action>, n: nat)
    requires IsRun(run, acts) && n < |run| && RenewalsAtomic(run, acts)
    ensures run[n].revived == 0
  {
    if n > 0 {
      NothingRevived(run, acts, n - 1);
      assert run[n - 1 + 1] == Apply(run[n - 1], acts[n - 1]);
    }
  }

  /** With atomic renewals the cap holds in every state. */
  lemma CapHolds(run: seq<State>, acts: seq<Action>, n: nat)
    requires IsRun(run, acts) && n < |run| && RenewalsAtomic(run, acts)
    ensures |run[n].store| <= run[0].max
  {
    NothingRevived(run, acts, n);
    CapPlusRevivals(run, acts, n);
  }

  lemma Push(run: seq<State>, acts: seq<Action>, a: Action) returns (run': seq<State>, acts': seq<Action>)
    requires IsRun(run, acts) && Enabled(run[|acts|], a)
    ensures IsRun(run', acts') && run <= run' && run'[|acts'|] == Apply(run[|acts|], a)
  {
    run', acts' := run + [Apply(run[|acts|], a)], acts + [a];
  }

  /** The listing reads everything that is there. */
  lemma ReadAll(run: seq<State>, acts: seq<Action>, h: Handler) returns (run': seq<State>, acts': seq<Action>)
    requires IsRun(run, acts) && PcOf(run[|acts|], h).Listing? && run[|acts|].seen <= run[|acts|].store
    ensures IsRun(run', acts') && run <= run' && run'[|acts'|] == run[|acts|].(seen := run[|acts|].store)
    decreases |run[|acts|].store - run[|acts|].seen|
  {
    var s := run[|acts|];
    run', acts' := run, acts;
    if s.seen != s.store {
      var id :| id in s.store && id !in s.seen;
      run', acts' := Push(run, acts, See(h, id));
      assert s.store - (s.seen + {id}) == (s.store - s.seen) - {id};
      run', acts' := ReadAll(run', acts', h);
    }
  }

  /** A free slot admits a create. */
  lemma Admit(run: seq<State>, acts: seq<Action>, h: Handler, b: Id) returns (run': seq<State>, acts': seq<Action>)
    requires IsRun(run, acts)
    requires var s := run[|acts|];
             |s.store| < s.max && b !in s.used && s.gate.None? && PcOf(s, h).Idle?
    ensures IsRun(run', acts') && run <= run'
    ensures run'[|acts'|].store == run[|acts|].store + {b} && run'[|acts'|].loaded == run[|acts|].loaded
  {
    run', acts' := Push(run, acts, Arrive(h));
    run', acts' := Push(run', acts', Acquire(h));
    run', acts' := ReadAll(run', acts', h);
    run', acts' := Push(run', acts', Check(h, true));
    run', acts' := Push(run', acts', Save(h, b, true));
  }

  /** With split renewals it can be exceeded at any cap: the store is full, a renewal has
      read record `a`, `a` is deleted, a create is admitted in its place, and then the
      renewal saves. */
  lemma SplitRenewalOverfills(run: seq<State>, acts: seq<Action>, r: Renewer, a: Id, h: Handler, b: Id)
      returns (run': seq<State>, acts': seq<Action>)
    requires IsRun(run, acts)
    requires var s := run[|acts|];
             && |s.store| == s.max && a in s.store && b !in s.used && r !in s.loaded
             && s.gate.None? && PcOf(s, h).Idle?
    ensures IsRun(run', acts') && run <= run'
    ensures |run'[|acts'|].store| == run[|acts|].max + 1
  {
    var s := run[|acts|];
    Always(run, acts, |acts|);
    run', acts' := Push(run, acts, RenewLoad(r, a));
    run', acts' := Push(run', acts', Delete(a));
    run', acts' := Admit(run', acts', h, b);
    run', acts' := Push(run', acts', RenewSave(r));
    assert run'[|acts'|].store == s.store + {b};
  }

  // ---- the code, running against everybody else ----

  predicate Moves(a: Action, h: Handler) {
    (a.Arrive? || a.Acquire? || a.See? || a.Check? || a.Save? || a.Finish? || a.Abort?) && a.h == h
  }

  lemma ListingUndisturbed(s: State, a: Action, me: Handler)
    requires Inv(s) && Enabled(s, a) && !Moves(a, me)
    ensures var t := Apply(s, a);
            PcOf(t, me) == PcOf(s, me) && t.max == s.max
            && (PcOf(s, me).Listing? ==> t.seen == s.seen && t.must <= s.must)
  {
    assert PcOf(s, me).Listing? ==> s.gate == Some(me);
  }

  datatype Response = NoCap | StillWaiting | ListFailed | LimitReached(count: nat) | CreateFailed | Created(id: Id)

  lemma {:induction false} FreshId(used: set<Id>) returns (id: Id)
    ensures id !in used && forall u :: u in used ==> u < id
  {
    id := 0;
    if used != {} {
      var u :| u in used;
      var v := FreshId(used - {u});
      id := if u < v then v else u + 1;
      assert forall w :: w in used ==> w == u || w in used - {u};
    }
  }

  class Gateway {
    var s: State
    ghost var run: seq<State>
    ghost var acts: seq<Action>

    ghost predicate Valid() reads this {
      IsRun(run, acts) && run[|acts|] == s
    }

    constructor (s: State)
      requires Init(s)
      ensures Valid() && this.s == s && run == [s] && acts == []
    {
      this.s, run, acts := s, [s], [];
    }

    twostate predicate Later() reads this {
      old(run) <= run && old(acts) <= acts && s.max == old(s.max)
    }

    lemma Standing()
      requires Valid()
      ensures Inv(s)
    {
      Always(run, acts, |acts|);
    }

    method Do(h: Handler, a: Action)
      requires Valid() && Enabled(s, a) && Moves(a, h)
      modifies this
      ensures Valid() && Later() && s == Apply(old(s), a) && acts == old(acts) + [a]
    {
      s := Apply(s, a);
      run, acts := run + [s], acts + [a];
    }

    /** Any number of steps by anyone but `me`: while `me` lists, they can only take entries
        away from what it has to see. */
    method Others(me: Handler)
      requires Valid()
      modifies this
      ensures Valid() && Later() && PcOf(s, me) == old(PcOf(s, me))
      ensures PcOf(s, me).Listing? ==> s.seen == old(s.seen) && s.must <= old(s.must)
    {
      var steps :| 0 <= steps;
      for i := 0 to steps
        invariant Valid() && Later() && PcOf(s, me) == old(PcOf(s, me))
        invariant PcOf(s, me).Listing? ==> s.seen == old(s.seen) && s.must <= old(s.must)
      {
        var a: Action := *;
        if Enabled(s, a) && !Moves(a, me) {
          OneOther(me, a);
        }
      }
    }

    method OneOther(me: Handler, a: Action)
      requires Valid() && Enabled(s, a) && !Moves(a, me)
      modifies this
      ensures Valid() && Later() && PcOf(s, me) == old(PcOf(s, me))
      ensures PcOf(s, me).Listing? ==> s.seen == old(s.seen) && s.must <= old(s.must)
    {
      Standing();
      ListingUndisturbed(s, a, me);
      s := Apply(s, a);
      run, acts := run + [s], acts + [a];
    }

    /** `ops.list()`: every entry that stays is read. */
    method List(me: Handler)
      requires Valid() && PcOf(s, me).Listing?
      modifies this
      ensures Valid() && Later() && PcOf(s, me).Listing? && s.must <= s.seen
    {
      Others(me);
      while !(s.must <= s.seen)
        invariant Valid() && Later() && PcOf(s, me).Listing?
        decreases |s.must - s.seen|
      {
        Standing();
        assert s.gate == Some(me);
        var id :| id in s.must && id !in s.seen;
        ghost var before := s.must - s.seen;
        Do(me, See(me, id));
        assert s.must - s.seen == before - {id};
        ghost var middle := s.must - s.seen;
        Others(me);
        CountSubset(s.must - s.seen, middle);
      }
    }

    /** The wait for the mutex, watched for at most `rounds` looks; `ks` are the moments at
        which it was seen taken. */
    method AwaitGate(me: Handler, rounds: nat) returns (entered: bool, ghost ks: seq<nat>)
      requires Valid() && PcOf(s, me).Waiting?
      modifies this
      ensures Valid() && Later()
      ensures if entered then PcOf(s, me).Listing? else PcOf(s, me).Waiting?
      ensures !entered ==> |ks| == rounds + 1 && AllTaken(run, old(|acts|), ks)
    {
      var left := rounds;
      ks := [];
      while s.gate.Some? && left > 0
        invariant Valid() && Later() && PcOf(s, me).Waiting?
        invariant |ks| + left == rounds && AllTaken(run, old(|acts|), ks)
        decreases left
      {
        ks := ks + [|acts|];
        ghost var before := run;
        Others(me);
        StillTaken(before, run, old(|acts|), ks);
        left := left - 1;
      }
      entered := s.gate.None?;
      if entered {
        Do(me, Acquire(me));
      } else {
        ks := ks + [|acts|];
      }
    }

    /** List and count: refused exactly when the listing failed or reached the cap. */
    method Count(me: Handler, listed: bool) returns (refusal: Option<Response>, ghost count: nat)
      requires Valid() && PcOf(s, me).Listing?
      modifies this
      ensures Valid() && Later()
      ensures if refusal.Some? then PcOf(s, me).Idle? else PcOf(s, me).Creating?
      ensures refusal == if !listed then Some(ListFailed)
                         else if count >= s.max then Some(LimitReached(count)) else None
    {
      List(me);
      var seen := |s.seen|;
      count := seen;
      Do(me, Check(me, listed));
      refusal := if PcOf(s, me).Creating? then None else Some(if listed then LimitReached(seen) else ListFailed);
    }

    /** `create_sandbox`, watched for at most `rounds` looks at a taken gate. However it
        ends, its guard is released. A zero cap is refused at once; a free gate is entered; a
        listing that reached the cap, and nothing else but its failure, is a refusal; and then
        the create decides. */
    method CreateSandbox(me: Handler, rounds: nat, env: Env)
        returns (r: Response, ghost count: nat, ghost ks: seq<nat>, ghost m: nat)
      requires Valid() && PcOf(s, me).Idle?
      modifies this
      ensures Valid() && Later() && s.gate != Some(me)
      ensures if r.StillWaiting? then PcOf(s, me).Waiting? else PcOf(s, me).Idle?
      ensures r.NoCap? <==> s.max == 0
      ensures r.StillWaiting? ==> |ks| == rounds + 1 && AllTaken(run, old(|acts|), ks)
      ensures !r.NoCap? && !r.StillWaiting? ==> Decided(r, s.max, count, env)
      ensures r.Created? || r.CreateFailed? ==> old(|acts|) <= m < |acts| && SavesAt(acts, me, m, r, env)
    {
      count, ks, m := 0, [], 0;
      Do(me, Arrive(me));
      if s.max == 0 {
        r := NoCap;
      } else {
        var entered;
        ghost var arrived := run;
        entered, ks := AwaitGate(me, rounds);
        if !entered {
          r := StillWaiting;
        } else {
          var refusal;
          refusal, count := Count(me, env.listed);
          if refusal.Some? {
            r := refusal.value;
          } else {
            r, m := CreateInside(me, env);
          }
        }
      }
      Standing();
    }

    /** `ops.create` while holding the gate: it may fail before or after its save. */
    method CreateInside(me: Handler, env: Env) returns (r: Response, ghost m: nat)
      requires Valid() && PcOf(s, me).Creating?
      modifies this
      ensures Valid() && Later() && PcOf(s, me).Idle?
      ensures if env.stored && env.ready then r.Created? else r.CreateFailed?
      ensures old(|acts|) <= m < |acts| && SavesAt(acts, me, m, r, env)
    {
      Others(me);
      ghost var free := FreshId(s.used);
      var id :| id !in s.used;
      m := |acts|;
      Do(me, Save(me, id, env.stored));
      ghost var saved := acts;
      Others(me);
      Do(me, Finish(me));
      assert acts[m] == saved[m];
      r := if env.stored && env.ready then Created(id) else CreateFailed;
    }
  }

  /** How listing and create answer inside the gate. */
  datatype Env = Env(listed: bool, stored: bool, ready: bool)

  /** The response that these answers and the listing's count call for. */
  predicate Decided(r: Response, max: nat, count: nat, env: Env) {
    if !env.listed then r.ListFailed?
    else if count >= max then r == LimitReached(count)
    else if env.stored && env.ready then r.Created?
    else r.CreateFailed?
  }

  /** Step `m` is this handler's save, with the id that it reports. */
  predicate SavesAt(acts: seq<Action>, h: Handler, m: nat, r: Response, env: Env)
    requires m < |acts|
  {
    acts[m].Save? && acts[m].h == h && acts[m].stored == env.stored && (r.Created? ==> acts[m].id == r.id)
  }

  /** At each of these moments the gate was taken. */
  predicate AllTaken(run: seq<State>, from: nat, ks: seq<nat>) {
    forall i :: 0 <= i < |ks| ==> from <= ks[i] < |run| && run[ks[i]].gate.Some?
  }

  lemma StillTaken(before: seq<State>, run: seq<State>, from: nat, ks: seq<nat>)
    requires before <= run && AllTaken(before, from, ks)
    ensures AllTaken(run, from, ks)
  {
    assert forall i :: 0 <= i < |ks| ==> run[ks[i]] == before[ks[i]];
  }
}
