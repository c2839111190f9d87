/** `LockSentinel`: open, flock, compare the held file with the path, then hold or give
    up; any number of processes, and an outside party that may change the path at will. */
module Lock {
  import opened Text

  type Pid = nat

  /** A file by identity: an open descriptor keeps its file apart from every later one. */
  type Inode = nat

  datatype Pc =
    | Idle
    | Opened(ino: Inode, blocking: bool)
    | Locked(ino: Inode, blocking: bool)
    | Holding(ino: Inode)

  /** `flock` maps each locked file to the process whose descriptor holds it. */
  datatype State = State(path: Option<Inode>, next: Inode, procs: map<Pid, Pc>, flock: map<Inode, Pid>)

  function PcOf(s: State, p: Pid): Pc { if p in s.procs then s.procs[p] else Idle }

  predicate HasLock(pc: Pc, ino: Inode) {
    (pc.Locked? && pc.ino == ino) || (pc.Holding? && pc.ino == ino)
  }

  /** One atomic step. `Fail` is an I/O error or the death of a process during an attempt;
      `Outside` unlinks the path, or puts a new or an older file there. */
  datatype Action =
    | Open(p: Pid, blocking: bool)
    | Flock(p: Pid)
    | WouldBlock(p: Pid)
    | Check(p: Pid)
    | Fail(p: Pid)
    | Drop(p: Pid)
    | Outside(path: Option<Inode>)

  predicate Enabled(s: State, a: Action) {
    match a
    case Open(p, _) => PcOf(s, p).Idle?
    case Flock(p) => PcOf(s, p).Opened? && PcOf(s, p).ino !in s.flock
    case WouldBlock(p) => PcOf(s, p).Opened? && !PcOf(s, p).blocking && PcOf(s, p).ino in s.flock
    case Check(p) => PcOf(s, p).Locked?
    case Fail(p) => PcOf(s, p).Opened? || PcOf(s, p).Locked?
    case Drop(p) => PcOf(s, p).Holding?
    case Outside(path) => path.Some? ==> path.value <= s.next
  }

  /** Closing the descriptor of `p` releases the lock it holds. */
  function Close(s: State, p: Pid): State {
    var pc := PcOf(s, p);
    s.(procs := s.procs[p := Idle],
       flock := if pc.Locked? || pc.Holding? then s.flock - {pc.ino} else s.flock)
  }

  function Apply(s: State, a: Action): State
    requires Enabled(s, a)
  {
    match a
    case Open(p, blocking) =>
      if s.path.Some? then s.(procs := s.procs[p := Opened(s.path.value, blocking)])
      else s.(path := Some(s.next), next := s.next + 1, procs := s.procs[p := Opened(s.next, blocking)])
    case Flock(p) =>
      var pc := PcOf(s, p);
      s.(procs := s.procs[p := Locked(pc.ino, pc.blocking)], flock := s.flock[pc.ino := p])
    case WouldBlock(p) => Close(s, p)
    case Check(p) =>
      if s.path == Some(PcOf(s, p).ino) then s.(procs := s.procs[p := Holding(PcOf(s, p).ino)])
      else Close(s, p)
    case Fail(p) => Close(s, p)
    case Drop(p) => Close(s, p)
    case Outside(path) =>
      s.(path := path, next := if path == Some(s.next) then s.next + 1 else s.next)
  }

  predicate Init(s: State) { s.procs == map[] && s.flock == map[] && (s.path.Some? ==> s.path.value < s.next) }

  /** `run` is an execution: `acts[i]` leads from `run[i]` to `run[i + 1]`. */
  ghost predicate IsRun(run: seq<State>, acts: seq<Action>) {
    && |run| == |acts| + 1
    && Init(run[0])
    && forall i :: 0 <= i < |acts| ==> Enabled(run[i], acts[i]) && run[i + 1] == Apply(run[i], acts[i])
  }

  /** Locks and attempts agree: a file is locked by `p` exactly while `p` is between its
      flock and its release, so a failed or retried attempt keeps nothing. */
  ghost predicate LocksMatch(s: State) {
    forall ino, p :: (ino in s.flock && s.flock[ino] == p) <==> HasLock(PcOf(s, p), ino)
  }

  lemma {:induction false} LocksAlwaysMatch(run: seq<State>, acts: seq<Action>, n: nat)
    requires IsRun(run, acts) && n < |run|
    ensures LocksMatch(run[n])
  {
    if n > 0 {
      LocksAlwaysMatch(run, acts, n - 1);
      assert run[n - 1 + 1] == Apply(run[n - 1], acts[n - 1]);
      StepKeepsLocks(run[n - 1], acts[n - 1]);
    }
  }

  lemma StepKeepsLocks(s: State, a: Action)
    requires LocksMatch(s) && Enabled(s, a)
    ensures LocksMatch(Apply(s, a))
  {
    var t := Apply(s, a);
    forall ino, p ensures (ino in t.flock && t.flock[ino] == p) <==> HasLock(PcOf(t, p), ino) {
      assert (ino in s.flock && s.flock[ino] == p) <==> HasLock(PcOf(s, p), ino);
      if !a.Outside? && !PcOf(s, a.p).Idle? {
        var held := PcOf(s, a.p).ino;
        assert (held in s.flock && s.flock[held] == a.p) <==> HasLock(PcOf(s, a.p), held);
      }
    }
  }

  /** `p` has held its guard on `ino` in every state from `i` to `n`. */
  ghost predicate HeldSince(run: seq<State>, p: Pid, ino: Inode, i: nat, n: nat)
    requires n < |run|
  {
    i <= n && forall j :: i <= j <= n ==> PcOf(run[j], p) == Holding(ino)
  }

  /** A live guard's file was the path's file at its check. */
  lemma {:induction false} Acquisition(run: seq<State>, acts: seq<Action>, p: Pid, n: nat) returns (i: nat)
    requires IsRun(run, acts) && n < |run| && PcOf(run[n], p).Holding?
    ensures HeldSince(run, p, PcOf(run[n], p).ino, i, n)
    ensures run[i].path == Some(PcOf(run[n], p).ino)
  {
    assert n > 0;
    var s, a := run[n - 1], acts[n - 1];
    assert run[n - 1 + 1] == Apply(s, a);
    if PcOf(s, p) == PcOf(run[n], p) {
      i := Acquisition(run, acts, p, n - 1);
    } else {
      i := n;
    }
  }

  /** Two guards are live together only if the path was changed while one of them was
      already held. */
  lemma TwoGuardsNeedPathChange(run: seq<State>, acts: seq<Action>, p: Pid, q: Pid, n: nat)
      returns (holder: Pid, ino: Inode, k: nat)
    requires IsRun(run, acts) && n < |run| && p != q
    requires PcOf(run[n], p).Holding? && PcOf(run[n], q).Holding?
    ensures holder == p || holder == q
    ensures k < n && HeldSince(run, holder, ino, k, n)
    ensures run[k].path.Some? && run[k].path != run[k + 1].path
  {
    LocksAlwaysMatch(run, acts, n);
    var s := run[n];
    assert HasLock(PcOf(s, p), PcOf(s, p).ino) ==> s.flock[PcOf(s, p).ino] == p;
    assert HasLock(PcOf(s, q), PcOf(s, q).ino) ==> s.flock[PcOf(s, q).ino] == q;
    assert PcOf(run[n], p).ino != PcOf(run[n], q).ino;
    var i := Acquisition(run, acts, p, n);
    var j := Acquisition(run, acts, q, n);
    var first, last := i, j;
    holder, ino := p, PcOf(run[n], p).ino;
    if j < i {
      first, last, holder, ino := j, i, q, PcOf(run[n], q).ino;
    }
    k := first;
    while run[k + 1].path == run[k].path
      invariant first <= k < last && run[k].path == run[first].path
      decreases last - k
    {
      k := k + 1;
    }
  }

  lemma {:induction false} PathStays(run: seq<State>, acts: seq<Action>, i: nat, j: nat)
    requires IsRun(run, acts) && i <= j < |run| && run[i].path.Some?
    requires forall a :: a in acts ==> !a.Outside?
    ensures run[j].path == run[i].path
  {
    if i < j {
      PathStays(run, acts, i, j - 1);
      assert acts[j - 1] in acts;
      assert run[j - 1 + 1] == Apply(run[j - 1], acts[j - 1]);
    }
  }

  /** With nobody outside touching the path, at most one guard is ever live. */
  lemma MutualExclusion(run: seq<State>, acts: seq<Action>, p: Pid, q: Pid, n: nat)
    requires IsRun(run, acts) && n < |run|
    requires forall a :: a in acts ==> !a.Outside?
    requires PcOf(run[n], p).Holding? && PcOf(run[n], q).Holding?
    ensures p == q
  {
    if p != q {
      var holder, ino, k := TwoGuardsNeedPathChange(run, acts, p, q, n);
      PathStays(run, acts, k, k + 1);
    }
  }

  // ---- the code, running against everybody else ----

  datatype Outcome = Guard | Contention | IoError | StillWaiting

  /** Which of one attempt's system calls succeed, apart from contention. */
  datatype Io = Io(opens: bool, flocks: bool, stats: bool)

  predicate Works(io: Io) { io.opens && io.flocks && io.stats }

  /** In state `k` the attempt of `p` cannot succeed: its file is locked, or its locked file
      is not the path's. */
  ghost predicate Obstructed(run: seq<State>, p: Pid, k: nat)
    requires k < |run|
  {
    var pc := PcOf(run[k], p);
    (pc.Opened? && pc.ino in run[k].flock) || (pc.Locked? && run[k].path != Some(pc.ino))
  }

  ghost predicate AllObstructed(run: seq<State>, p: Pid, from: nat, ks: seq<nat>) {
    forall i :: 0 <= i < |ks| ==> from <= ks[i] < |run| && Obstructed(run, p, ks[i])
  }

  lemma StillObstructed(before: seq<State>, run: seq<State>, p: Pid, from: nat, ks: seq<nat>)
    requires before <= run && AllObstructed(before, p, from, ks)
    ensures AllObstructed(run, p, from, ks)
  {
    forall i | 0 <= i < |ks| ensures ks[i] < |run| && Obstructed(run, p, ks[i]) {
      assert Obstructed(before, p, ks[i]);
    }
  }

  predicate Moves(a: Action, p: Pid) { !a.Outside? && a.p == p }

  /** The file system as one process sees it: other processes and the outside party step
      between any two of its system calls. */
  class Host {
    var s: State
    ghost var run: seq<State>
    ghost var acts: seq<Action>

    ghost predicate Valid() reads this {
      IsRun(run, acts) && run[|acts|] == s
    }

    constructor (s: State)
      requires Init(s)
      ensures Valid() && this.s == s && run == [s] && acts == []
    {
      this.s, run, acts := s, [s], [];
    }

    /** One more step than `prefix`, or several, and no state before them lost. */
    twostate predicate Extends() reads this {
      old(run) <= run && old(acts) <= acts
    }

    method Do(a: Action)
      requires Valid() && Enabled(s, a)
      modifies this
      ensures Valid() && Extends() && s == Apply(old(s), a)
      ensures run == old(run) + [s] && acts == old(acts) + [a]
    {
      s := Apply(s, a);
      run, acts := run + [s], acts + [a];
    }

    /** Any number of steps by anyone but `me`. */
    method Others(me: Pid)
      requires Valid()
      modifies this
      ensures Valid() && Extends() && PcOf(s, me) == old(PcOf(s, me))
    {
      var steps :| 0 <= steps;
      for i := 0 to steps
        invariant Valid() && Extends() && PcOf(s, me) == old(PcOf(s, me))
      {
        var a: Action := *;
        if Enabled(s, a) && !Moves(a, me) {
          Do(a);
        }
      }
    }

    lemma LocksOf(me: Pid)
      requires Valid()
      ensures forall ino :: (ino in s.flock && s.flock[ino] == me) <==> HasLock(PcOf(s, me), ino)
      ensures PcOf(s, me).Holding? ==> HasLock(PcOf(s, me), PcOf(s, me).ino)
    {
      LocksAlwaysMatch(run, acts, |acts|);
    }

    /** What holding a guard means at the moment it is handed out. */
    ghost predicate Owns(me: Pid) reads this {
      && PcOf(s, me).Holding?
      && s.path == Some(PcOf(s, me).ino)
      && PcOf(s, me).ino in s.flock && s.flock[PcOf(s, me).ino] == me
    }

    ghost predicate NoLock(me: Pid) reads this { forall ino :: ino in s.flock ==> s.flock[ino] != me }

    method OpenFile(me: Pid, blocking: bool, io: Io) returns (ok: bool)
      requires Valid() && PcOf(s, me).Idle?
      modifies this
      ensures Valid() && Extends() && ok == io.opens
      ensures if ok then PcOf(s, me).Opened? && PcOf(s, me).blocking == blocking else PcOf(s, me).Idle?
    {
      Others(me);
      ok := io.opens;
      if ok {
        Do(Open(me, blocking));
      }
    }

    /** The comparison of the locked file with the path: hold, or close and report. `k` is the
        moment of the comparison. */
    method Compare(me: Pid, io: Io) returns (r: Outcome, ghost k: nat)
      requires Valid() && PcOf(s, me).Locked?
      modifies this
      ensures Valid() && Extends() && r in {Guard, Contention, IoError}
      ensures if r.Guard? then Owns(me) else PcOf(s, me).Idle?
      ensures r.IoError? <==> !io.stats
      ensures r.Contention? ==> old(|run|) <= k + 1 < |run| && Obstructed(run, me, k)
    {
      Others(me);
      k := |acts|;
      if !io.stats {
        Do(Fail(me));
        return IoError, k;
      }
      Do(Check(me));
      LocksOf(me);
      r := if PcOf(s, me).Holding? then Guard else Contention;
    }

    /** A flock on a file that is not locked; it may still fail. */
    method FlockFree(me: Pid, io: Io) returns (r: Outcome, ghost k: nat)
      requires Valid() && PcOf(s, me).Opened? && PcOf(s, me).ino !in s.flock
      modifies this
      ensures Valid() && Extends() && !r.StillWaiting?
      ensures if r.Guard? then Owns(me) else PcOf(s, me).Idle?
      ensures r.IoError? <==> !io.flocks || !io.stats
      ensures r.Contention? ==> old(|run|) <= k + 1 < |run| && Obstructed(run, me, k)
    {
      if !io.flocks {
        k := |acts|;
        Do(Fail(me));
        r := IoError;
      } else {
        Do(Flock(me));
        r, k := Compare(me, io);
      }
    }

    /** A blocking flock, watched while it waits for at most `rounds` rounds; `ks` are the
        moments at which the file was seen locked. */
    method WaitForFlock(me: Pid, rounds: nat) returns (left: nat, ghost ks: seq<nat>)
      requires Valid() && PcOf(s, me).Opened?
      modifies this
      ensures Valid() && Extends() && PcOf(s, me) == old(PcOf(s, me)) && left <= rounds
      ensures left == 0 || PcOf(s, me).ino !in s.flock
      ensures |ks| + left == rounds && AllObstructed(run, me, old(|acts|), ks)
    {
      left, ks := rounds, [];
      Others(me);
      while PcOf(s, me).ino in s.flock && left > 0
        invariant Valid() && Extends() && PcOf(s, me) == old(PcOf(s, me)) && left <= rounds
        invariant |ks| + left == rounds && AllObstructed(run, me, old(|acts|), ks)
        decreases left
      {
        left, ks := left - 1, ks + [|acts|];
        ghost var before := run;
        Others(me);
        StillObstructed(before, run, me, old(|acts|), ks);
      }
    }

    /** One attempt of `acquire`, of the rounds left; every round that it takes is spent on an
        obstacle. `Contention` is a retry. */
    method Attempt(me: Pid, rounds: nat, io: Io) returns (r: Outcome, left: nat, ghost ks: seq<nat>)
      requires Valid() && PcOf(s, me).Idle? && rounds > 0
      modifies this
      ensures Valid() && Extends() && left < rounds
      ensures if r.Guard? then Owns(me) else if r.StillWaiting? then PcOf(s, me).Opened? else PcOf(s, me).Idle?
      ensures r.IoError? ==> !Works(io)
      ensures AllObstructed(run, me, old(|acts|), ks)
      ensures r.Contention? || r.StillWaiting? ==> |ks| + left == rounds
      ensures r.StillWaiting? ==> left == 0
    {
      left, ks, r := rounds - 1, [], IoError;
      var isOpen := OpenFile(me, true, io);
      if isOpen {
        left, ks := WaitForFlock(me, left);
        ghost var before, k := run, |acts|;
        if PcOf(s, me).ino in s.flock {
          r := StillWaiting;
        } else {
          r, k := FlockFree(me, io);
        }
        StillObstructed(before, run, me, old(|acts|), ks);
        if r.Contention? || r.StillWaiting? {
          ks := ks + [k];
        }
      }
    }

    /** `LockSentinel::acquire`, watched for at most `rounds` retries and waits. A guard is
        returned only for the file that is at the path at that moment; an error comes from a
        failed system call; and when it is still waiting, every round met an obstacle. Every
        outcome but the last has closed its descriptor or holds the guard. */
    method Acquire(me: Pid, rounds: nat, io: nat -> Io) returns (r: Outcome, ghost ks: seq<nat>)
      requires Valid() && PcOf(s, me).Idle?
      modifies this
      ensures Valid() && Extends() && !r.Contention?
      ensures r.Guard? ==> Owns(me)
      ensures r.IoError? ==> PcOf(s, me).Idle? && exists i :: 0 <= i < rounds && !Works(io(i))
      ensures !r.Guard? ==> NoLock(me)
      ensures r.StillWaiting? ==> |ks| == rounds && AllObstructed(run, me, old(|acts|), ks)
    {
      var left, n := rounds, 0;
      r, ks := Contention, [];
      while left > 0 && r.Contention?
        invariant Valid() && Extends()
        invariant if r.Guard? then Owns(me) else if r.StillWaiting? then PcOf(s, me).Opened? else PcOf(s, me).Idle?
        invariant 0 <= n && 0 <= left && n + left <= rounds
        invariant r.IoError? ==> exists i :: 0 <= i < rounds && !Works(io(i))
        invariant AllObstructed(run, me, old(|acts|), ks)
        invariant r.Contention? || r.StillWaiting? ==> |ks| + left == rounds
        invariant r.StillWaiting? ==> left == 0
        decreases left
      {
        ghost var before, more := run, [];
        r, left, more := Attempt(me, left, io(n));
        StillObstructed(before, run, me, old(|acts|), ks);
        ks, n := ks + more, n + 1;
      }
      LocksOf(me);
      if r.Contention? {
        r := StillWaiting;
      }
    }

    /** `LockSentinel::try_acquire`: it never waits. Contention means an obstacle at some moment
        of this call, an error a failed system call, and no failure keeps a lock. So a free
        file at an unchanged path is acquired. */
    method TryAcquire(me: Pid, io: Io) returns (r: Outcome, ghost k: nat)
      requires Valid() && PcOf(s, me).Idle?
      modifies this
      ensures Valid() && Extends() && !r.StillWaiting?
      ensures if r.Guard? then Owns(me) else PcOf(s, me).Idle? && NoLock(me)
      ensures r.Contention? ==> old(|acts|) <= k < |acts| && Obstructed(run, me, k)
      ensures r.IoError? ==> !Works(io)
    {
      r, k := IoError, |acts|;
      var isOpen := OpenFile(me, false, io);
      if isOpen {
        r, k := FlockOrFail(me, io);
      }
      LocksOf(me);
    }

    method FlockOrFail(me: Pid, io: Io) returns (r: Outcome, ghost k: nat)
      requires Valid() && PcOf(s, me).Opened? && !PcOf(s, me).blocking
      modifies this
      ensures Valid() && Extends() && !r.StillWaiting?
      ensures if r.Guard? then Owns(me) else PcOf(s, me).Idle?
      ensures r.IoError? ==> !Works(io)
      ensures r.Contention? ==> old(|acts|) <= k < |acts| && Obstructed(run, me, k)
    {
      Others(me);
      k := |acts|;
      if PcOf(s, me).ino in s.flock {
        Do(WouldBlock(me));
        r := Contention;
      } else {
        r, k := FlockFree(me, io);
      }
    }

    /** Dropping the guard closes the descriptor, which releases the lock; the path stays. */
    method DropGuard(me: Pid)
      requires Valid() && PcOf(s, me).Holding?
      modifies this
      ensures Valid() && Extends() && PcOf(s, me).Idle? && s.path == old(s.path)
      ensures s.flock == old(s.flock) - {old(PcOf(s, me).ino)}
    {
      Do(Drop(me));
    }
  }
}
