/** The monitor-only broker loop (`run_broker`): jobs in memory against jobs on disk. */
module Broker {
  import opened Text
  import opened Tail
  import Sentinel

  /** What `exec` of the log read gives: an error, or an exit code with output. */
  datatype Fetched = ExecError(msg: string) | Exited(code: int, stdout: string, stderr: string)

  predicate Readable(f: Fetched) { f.Exited? && f.code == 0 }

  datatype QueuedJob = QueuedJob(jobId: nat, repository: string, labels: seq<string>, name: Option<string>)

  datatype Polled = Queued(jobs: seq<QueuedJob>) | Retryable | Fatal

  /** Everything but the time stamp. */
  function Untimed(r: CiJobRecord): CiJobRecord { r.(updatedAt := "") }

  predicate Live(r: CiJobRecord) { !Terminal(r.phase) }

  /** Every record on disk is filed under its own id. */
  predicate Filed(disk: map<string, CiJobRecord>) { forall id :: id in disk ==> disk[id].jobId == id }

  /** The live records in memory have distinct ids and are, as a map, the live records on
      disk. */
  ghost predicate Agree(jobs: seq<CiJobRecord>, disk: map<string, CiJobRecord>) {
    && Filed(disk)
    && (forall i :: 0 <= i < |jobs| && Live(jobs[i]) ==> jobs[i].jobId in disk && disk[jobs[i].jobId] == jobs[i])
    && (forall i, j :: 0 <= i < j < |jobs| && Live(jobs[i]) && Live(jobs[j]) ==> jobs[i].jobId != jobs[j].jobId)
    && (forall id :: id in disk && Live(disk[id]) ==> Has(jobs, id))
  }

  /** Some live job has this id: the dispatch guard. */
  predicate Has(jobs: seq<CiJobRecord>, id: string) {
    exists i :: 0 <= i < |jobs| && Live(jobs[i]) && jobs[i].jobId == id
  }

  lemma AgreeOnUpdate(jobs: seq<CiJobRecord>, disk: map<string, CiJobRecord>, i: nat, r: CiJobRecord)
    requires Agree(jobs, disk) && i < |jobs| && Live(jobs[i]) && r.jobId == jobs[i].jobId
    ensures Agree(jobs[i := r], disk[r.jobId := r])
  {
    var jobs', disk' := jobs[i := r], disk[r.jobId := r];
    forall id | id in disk' && Live(disk'[id]) ensures Has(jobs', id) {
      if id == r.jobId {
        assert jobs'[i] == r;
      } else {
        assert Has(jobs, id);
        var k :| 0 <= k < |jobs| && Live(jobs[k]) && jobs[k].jobId == id;
        assert jobs'[k] == jobs[k];
      }
    }
  }

  lemma AgreeOnPush(jobs: seq<CiJobRecord>, disk: map<string, CiJobRecord>, r: CiJobRecord)
    requires Agree(jobs, disk) && !Has(jobs, r.jobId)
    ensures Agree(jobs + [r], disk[r.jobId := r])
  {
    var jobs', disk' := jobs + [r], disk[r.jobId := r];
    forall id | id in disk' && Live(disk'[id]) ensures Has(jobs', id) {
      if id == r.jobId {
        assert jobs'[|jobs|] == r;
      } else {
        assert Has(jobs, id);
        var k :| 0 <= k < |jobs| && Live(jobs[k]) && jobs[k].jobId == id;
        assert jobs'[k] == jobs[k];
      }
    }
  }

  function Ids(jobs: seq<CiJobRecord>): (ids: seq<string>)
    ensures |ids| == |jobs| && forall i :: 0 <= i < |jobs| ==> ids[i] == jobs[i].jobId
  {
    seq(|jobs|, i requires 0 <= i < |jobs| => jobs[i].jobId)
  }

  predicate Distinct(ids: seq<string>) { forall i, j :: 0 <= i < j < |ids| ==> ids[i] != ids[j] }

  lemma HasId(jobs: seq<CiJobRecord>, id: string)
    requires Has(jobs, id)
    ensures id in Ids(jobs)
  {
    var i :| 0 <= i < |jobs| && Live(jobs[i]) && jobs[i].jobId == id;
    assert Ids(jobs)[i] == id;
  }

  /** What the dispatches of one tick add: live records, no two for one job, none for a
      job that was live before. */
  predicate AllFresh(jobs: seq<CiJobRecord>, added: seq<CiJobRecord>) {
    && Distinct(Ids(added))
    && forall i :: 0 <= i < |added| ==> Live(added[i]) && !Has(jobs, added[i].jobId)
  }

  /** A record made for this job: it names its sandbox, and nothing is known of a runner. */
  predicate Asked(job: QueuedJob, created: Option<string>, r: CiJobRecord) {
    && r.jobId == Sentinel.Decimal(job.jobId) && r.phase == Dispatched
    && created.Some? && r.sandboxId == created
    && r.dispatchedJobName == job.name && r.repository == job.repository
    && (job.labels != [] ==> r.queueLabel == job.labels[0]) && (job.labels == [] ==> r.queueLabel == "")
    && r.runnerName.None? && r.actualJobName.None? && r.actualJobId.None? && !r.diverged
    && r.lastError.None? && r.leaseExpiresAt.Some? && r.createdAt == r.updatedAt
  }

  predicate AskedByOne(queued: seq<QueuedJob>, created: nat -> Option<string>, r: CiJobRecord) {
    exists q: nat :: q < |queued| && Asked(queued[q], created(q), r)
  }

  lemma HasOnPush(jobs: seq<CiJobRecord>, r: CiJobRecord)
    requires Live(r)
    ensures Has(jobs + [r], r.jobId) && forall id :: Has(jobs, id) ==> Has(jobs + [r], id)
  {
    var jobs' := jobs + [r];
    assert jobs'[|jobs|] == r;
    assert forall i :: 0 <= i < |jobs| ==> jobs'[i] == jobs[i];
  }

  lemma FreshOnPush(jobs: seq<CiJobRecord>, added: seq<CiJobRecord>, r: CiJobRecord)
    requires AllFresh(jobs, added) && Live(r) && !Has(jobs + added, r.jobId)
    ensures AllFresh(jobs, added + [r])
  {
    var both := jobs + added;
    assert forall i :: 0 <= i < |jobs| ==> both[i] == jobs[i];
    assert forall i :: 0 <= i < |added| ==> both[|jobs| + i] == added[i];
  }

  /** The record as its log text has it, if that could be read. */
  function Read(before: CiJobRecord, fetched: Fetched): CiJobRecord {
    if before.sandboxId.Some? && Readable(fetched) then Pass(before, Lines(fetched.stdout)) else before
  }

  /** What a tail decides: everything but the divergence fields and the time stamp. */
  function Settled(r: CiJobRecord): CiJobRecord { Untimed(r).(diverged := false, actualJobId := None) }

  predicate Advanced(before: CiJobRecord, fetched: Fetched, r: CiJobRecord) {
    Settled(r) == Settled(Read(before, fetched))
  }

  /** GitHub's answer compared with the job that the record was dispatched for: the runner has
      diverged if it names another job. */
  predicate Compared(jobId: string, actual: Option<nat>, r: CiJobRecord) {
    && (r.diverged <==> actual.Some? && ParseU64(jobId).Some? && actual.value != ParseU64(jobId).value)
    && r.actualJobId == (if actual.Some? then Some(Sentinel.Decimal(actual.value)) else None)
  }

  /** The divergence fields after a step: compared anew if the log was read, names a runner,
      and GitHub answered; else as they were. */
  predicate Checked(before: CiJobRecord, fetched: Fetched, answer: Option<Option<nat>>, r: CiJobRecord) {
    if before.sandboxId.Some? && Readable(fetched) && answer.Some?
       && Pass(before, Lines(fetched.stdout)).runnerName.Some?
    then Compared(before.jobId, answer.value, r)
    else r.diverged == before.diverged && r.actualJobId == before.actualJobId
  }

  /** The id of a dispatched job is read back as the number it was made from. */
  lemma DispatchedIdParses(n: nat)
    requires n < 0x1_0000_0000_0000_0000
    ensures ParseU64(Sentinel.Decimal(n)) == Some(n)
  {
    Sentinel.DigitsSolid(Sentinel.Decimal(n));
  }

  const RESUME_FAILED := "resume-tail failed during startup recovery"

  /** A resumed record is what its log makes of it; only a failed read, or a failed save,
      also puts the note into its error. */
  predicate Resumed(before: CiJobRecord, fetched: Fetched, r: CiJobRecord, allSaved: bool) {
    && Advanced(before, fetched, if r.lastError == Some(RESUME_FAILED)
                                 then r.(lastError := Read(before, fetched).lastError) else r)
    && (!(before.sandboxId.Some? && Readable(fetched)) ==> r.lastError == Some(RESUME_FAILED))
    && (before.sandboxId.Some? && Readable(fetched) && allSaved ==> Advanced(before, fetched, r))
  }

  /** The record came from a live one on disk. */
  predicate ResumedFrom(disk: map<string, CiJobRecord>, logs: string -> Fetched, r: CiJobRecord, allSaved: bool) {
    r.jobId in disk && Live(disk[r.jobId]) && Resumed(disk[r.jobId], logs(r.jobId), r, allSaved)
  }

  lemma AgreeOnStep(jobs: seq<CiJobRecord>, disk: map<string, CiJobRecord>, i: nat, r: CiJobRecord,
                    disk': map<string, CiJobRecord>)
    requires Agree(jobs, disk) && i < |jobs| && Live(jobs[i]) && r.jobId == jobs[i].jobId
    requires disk' == disk[r.jobId := r] || (r == jobs[i] && disk' == disk)
    ensures Agree(jobs[i := r], disk')
  {
    AgreeOnUpdate(jobs, disk, i, r);
    if r == jobs[i] {
      assert disk[r.jobId := r] == disk;
    }
  }

  /** A restart finds on disk exactly the live jobs that were in memory. */
  lemma RestartFindsTheSame(jobs: seq<CiJobRecord>, disk: map<string, CiJobRecord>, listed: seq<CiJobRecord>)
    requires Agree(jobs, disk) && Agree(listed, disk)
    ensures forall r :: Live(r) ==> (r in jobs <==> r in listed)
  {
    forall r | Live(r) ensures r in jobs ==> r in listed {
      if r in jobs { LiveInBoth(jobs, disk, listed, r); }
    }
    forall r | Live(r) ensures r in listed ==> r in jobs {
      if r in listed { LiveInBoth(listed, disk, jobs, r); }
    }
  }

  lemma LiveInBoth(jobs: seq<CiJobRecord>, disk: map<string, CiJobRecord>, other: seq<CiJobRecord>, r: CiJobRecord)
    requires Agree(jobs, disk) && Agree(other, disk) && Live(r) && r in jobs
    ensures r in other
  {
    assert Has(other, r.jobId);
    var k :| 0 <= k < |other| && Live(other[k]) && other[k].jobId == r.jobId;
    assert other[k] == disk[r.jobId] == r;
  }

  /** `str::parse::<u64>`. */
  function ParseU64(s: string): Option<nat> {
    var digits := if s != "" && s[0] == '+' then s[1..] else s;
    if digits == "" || !Sentinel.Digits(digits) || Sentinel.Value(digits) >= 0x1_0000_0000_0000_0000 then None
    else Some(Sentinel.Value(digits))
  }

  class Reconciler {
    var disk: map<string, CiJobRecord>
    /** No save has failed so far. */
    var allSaved: bool

    constructor (disk: map<string, CiJobRecord>)
      ensures this.disk == disk && allSaved
    {
      this.disk, allSaved := disk, true;
    }

    method Save(r: CiJobRecord) returns (ok: bool)
      modifies this
      ensures if ok then disk == old(disk)[r.jobId := r] && allSaved == old(allSaved)
              else disk == old(disk) && !allSaved
    {
      ok := *;
      SaveAs(r, ok);
    }

    /** A save that succeeds or fails as told. */
    method SaveAs(r: CiJobRecord, ok: bool)
      modifies this
      ensures if ok then disk == old(disk)[r.jobId := r] && allSaved == old(allSaved)
              else disk == old(disk) && !allSaved
    {
      if ok {
        disk := disk[r.jobId := r];
      } else {
        allSaved := false;
      }
    }

    /** `r` is on disk wherever `before` was, unless a save failed. */
    twostate predicate Synced(before: CiJobRecord, r: CiJobRecord) reads this {
      allSaved ==>
        old(allSaved) && (disk == old(disk)[r.jobId := r] || (r == before && disk == old(disk)))
    }

    /** `tail_and_update`: one pass over the log text; a failed read changes nothing, and a
        failed save leaves the record advanced in memory only. */
    method TailAndUpdate(record: CiJobRecord, fetched: Fetched, now: string) returns (r: CiJobRecord, ok: bool)
      modifies this
      ensures Synced(record, r) && r.jobId == record.jobId
      ensures if record.sandboxId.Some? && fetched.Exited? && fetched.code == 0
              then r == Pass(record, Lines(fetched.stdout)).(updatedAt := if r == record then record.updatedAt else now)
              else !ok && r == record && disk == old(disk) && allSaved == old(allSaved)
      ensures record.sandboxId.Some? && Readable(fetched) && !ok ==> !allSaved
    {
      r, ok := record, false;
      if record.sandboxId.None? || !Readable(fetched) {
        return;
      }
      var changed;
      r, changed := ApplyLog(record, Lines(fetched.stdout));
      ok := true;
      if changed {
        r := r.(updatedAt := now);
        ok := Save(r);
      }
    }

    /** `check_divergence`: only these two fields are ever touched, and the flag means that
        GitHub names a different job for this runner. */
    method CheckDivergence(record: CiJobRecord, answer: Option<Option<nat>>, now: string)
        returns (r: CiJobRecord, ok: bool)
      modifies this
      ensures Synced(record, r) && (disk == old(disk) || disk == old(disk)[r.jobId := r])
      ensures Untimed(r) == Untimed(record.(diverged := r.diverged, actualJobId := r.actualJobId))
      ensures record.runnerName.None? || answer.None? ==> r == record && disk == old(disk)
      ensures record.runnerName.Some? && answer.Some? ==> Compared(record.jobId, answer.value, r)
      ensures r == record || r.updatedAt == now
    {
      r, ok := record, true;
      if record.runnerName.None? {
        return;
      }
      if answer.None? {
        return record, false;
      }
      var actual, dispatched := answer.value, ParseU64(record.jobId);
      var diverged := actual.Some? && dispatched.Some? && actual.value != dispatched.value;
      var actualId := if actual.Some? then Some(Sentinel.Decimal(actual.value)) else None;
      if record.diverged != diverged || record.actualJobId != actualId {
        r := record.(diverged := diverged, actualJobId := actualId, updatedAt := now);
        ok := Save(r);
      }
    }

    /** `CiJobStore::list_in_flight`, in directory order. */
    method ListInFlight() returns (jobs: seq<CiJobRecord>)
      requires Filed(disk)
      ensures Agree(jobs, disk) && Distinct(Ids(jobs))
      ensures forall i :: 0 <= i < |jobs| ==> jobs[i].phase != Completed && jobs[i].phase != Failed
      ensures forall id :: id in disk && disk[id].phase != Completed && disk[id].phase != Failed ==> Has(jobs, id)
    {
      jobs := [];
      var left := disk.Keys;
      while left != {}
        invariant left <= disk.Keys
        invariant forall i :: 0 <= i < |jobs| ==>
                    Live(jobs[i]) && jobs[i].jobId in disk && disk[jobs[i].jobId] == jobs[i] && jobs[i].jobId !in left
        invariant forall i, j :: 0 <= i < j < |jobs| ==> jobs[i].jobId != jobs[j].jobId
        invariant forall id :: id in disk && Live(disk[id]) && id !in left ==> Has(jobs, id)
        decreases left
      {
        var id :| id in left;
        left := left - {id};
        ghost var before := jobs;
        if Live(disk[id]) {
          jobs := jobs + [disk[id]];
          assert jobs[|before|].jobId == id;
        }
        forall x | x in disk && Live(disk[x]) && x !in left ensures Has(jobs, x) {
          if x != id {
            assert Has(before, x);
            var k :| 0 <= k < |before| && Live(before[k]) && before[k].jobId == x;
            assert jobs[k] == before[k];
          }
        }
      }
    }

    /** `reconcile_on_startup` for one record: a failed tail leaves a note. */
    method Resume(record: CiJobRecord, fetched: Fetched, now: string) returns (r: CiJobRecord)
      modifies this
      ensures Synced(record, r) && r.jobId == record.jobId
      ensures Resumed(record, fetched, r, allSaved)
    {
      var ok;
      r, ok := TailAndUpdate(record, fetched, now);
      if !ok {
        r := r.(lastError := Some(RESUME_FAILED), updatedAt := now);
        var _ := Save(r);
      }
    }

    /** `reconcile_on_startup`: every job that was live on disk is resumed once, by its own
        log, and no other. */
    method ReconcileOnStartup(logs: string -> Fetched) returns (jobs: seq<CiJobRecord>)
      requires Filed(disk)
      modifies this
      ensures allSaved ==> old(allSaved) && Agree(jobs, disk)
      ensures forall i :: 0 <= i < |jobs| ==> ResumedFrom(old(disk), logs, jobs[i], allSaved)
      ensures forall id :: id in old(disk) && Live(old(disk)[id]) ==> id in Ids(jobs)
      ensures Distinct(Ids(jobs))
    {
      jobs := ListInFlight();
      ghost var listed, disk0 := jobs, disk;
      for i := 0 to |jobs|
        invariant Ids(jobs) == Ids(listed)
        invariant forall k :: i <= k < |jobs| ==> jobs[k] == listed[k]
        invariant forall k :: 0 <= k < i ==> ResumedFrom(disk0, logs, jobs[k], allSaved)
        invariant allSaved ==> old(allSaved) && Agree(jobs, disk)
      {
        ghost var before := disk;
        var now: string := *;
        var r := Resume(jobs[i], logs(jobs[i].jobId), now);
        if allSaved {
          AgreeOnStep(jobs, before, i, r, disk);
        }
        jobs := jobs[i := r];
      }
      forall id | id in disk0 && Live(disk0[id]) ensures id in Ids(jobs) {
        HasId(listed, id);
      }
    }

    /** `dispatch`: a sandbox is created, and its record is on disk before it is returned. */
    method Dispatch(job: QueuedJob, created: Option<string>, now: string, lease: string)
        returns (r: Option<CiJobRecord>)
      modifies this
      ensures r.Some? ==>
                && Asked(job, created, r.value)
                && disk == old(disk)[r.value.jobId := r.value]
                && allSaved == old(allSaved)
      ensures r.None? ==> disk == old(disk) && (created.None? || !allSaved) && (allSaved ==> old(allSaved))
    {
      if created.None? {
        return None;
      }
      var record := CiJobRecord(Sentinel.Decimal(job.jobId), if job.labels == [] then "" else job.labels[0],
                                None, None, Dispatched, created, None, job.name, None, None, false,
                                job.repository, now, now, Some(lease), None);
      var ok := Save(record);
      r := if ok then Some(record) else None;
    }

    /** One entry of the queue: skipped when its job is already live. */
    method DispatchOne(jobs: seq<CiJobRecord>, job: QueuedJob, created: Option<string>)
        returns (out: seq<CiJobRecord>, r: Option<CiJobRecord>)
      requires allSaved ==> Agree(jobs, disk)
      modifies this
      ensures allSaved ==> old(allSaved) && Agree(out, disk)
      ensures r.Some? ==> out == jobs + [r.value] && Live(r.value) && Asked(job, created, r.value)
                          && !Has(jobs, r.value.jobId)
      ensures r.None? ==> out == jobs && disk == old(disk)
      ensures allSaved && created.Some? ==> Has(out, Sentinel.Decimal(job.jobId))
      ensures forall id :: Has(jobs, id) ==> Has(out, id)
    {
      out, r := jobs, None;
      if !Has(jobs, Sentinel.Decimal(job.jobId)) {
        ghost var before := disk;
        var now: string, lease: string := *, *;
        r := Dispatch(job, created, now, lease);
        if r.Some? {
          if allSaved { AgreeOnPush(jobs, before, r.value); }
          HasOnPush(jobs, r.value);
          out := jobs + [r.value];
        }
      }
    }

    /** One tick's dispatches: a job listed several times, or already live, is dispatched at
        most once; a job is live afterwards unless its sandbox or its save failed. */
    method DispatchAll(jobs: seq<CiJobRecord>, queued: seq<QueuedJob>, created: nat -> Option<string>)
        returns (out: seq<CiJobRecord>, added: seq<CiJobRecord>)
      requires allSaved ==> Agree(jobs, disk)
      modifies this
      ensures allSaved ==> old(allSaved) && Agree(out, disk)
      ensures out == jobs + added && Dispatches(jobs, added, queued, created, allSaved)
    {
      out, added := jobs, [];
      for q := 0 to |queued|
        invariant allSaved ==> old(allSaved) && Agree(out, disk)
        invariant out == jobs + added && AllFresh(jobs, added)
        invariant forall r :: r in added ==> AskedByOne(queued, created, r)
        invariant allSaved ==> forall p: nat :: p < q && created(p).Some? ==>
                                 Has(out, Sentinel.Decimal(queued[p].jobId))
      {
        var r;
        ghost var live := out;
        out, r := DispatchOne(out, queued[q], created(q));
        if r.Some? {
          FreshOnPush(jobs, added, r.value);
          assert live + [r.value] == jobs + (added + [r.value]);
          added := added + [r.value];
        }
      }
    }

    /** One job's tail and divergence check; when the tail fails the check is skipped. */
    method StepJob(record: CiJobRecord, fetched: Fetched, answer: Option<Option<nat>>, now: string)
        returns (r: CiJobRecord)
      modifies this
      ensures Synced(record, r) && r.jobId == record.jobId
      ensures Advanced(record, fetched, r) && (allSaved ==> Checked(record, fetched, answer, r))
    {
      var ok;
      r, ok := TailAndUpdate(record, fetched, now);
      if ok {
        r, ok := CheckDivergence(r, answer, now);
      }
    }

    /** One tick's tails and divergence checks: terminal records are left alone, every live
        one is read once, and a failure for one job skips that job only. */
    method TailAll(jobs: seq<CiJobRecord>, logs: nat -> Fetched, answers: nat -> Option<Option<nat>>)
        returns (out: seq<CiJobRecord>)
      requires allSaved ==> Agree(jobs, disk)
      modifies this
      ensures allSaved ==> old(allSaved) && Agree(out, disk)
      ensures |out| == |jobs|
      ensures forall i: nat :: i < |jobs| ==> Stepped(jobs[i], logs(i), answers(i), out[i], allSaved)
    {
      out := jobs;
      for i := 0 to |jobs|
        invariant |out| == |jobs|
        invariant forall k :: i <= k < |jobs| ==> out[k] == jobs[k]
        invariant forall k: nat :: k < i ==> Stepped(jobs[k], logs(k), answers(k), out[k], allSaved)
        invariant allSaved ==> old(allSaved) && Agree(out, disk)
      {
        if Live(out[i]) {
          ghost var before := disk;
          var now: string := *;
          var r := StepJob(out[i], logs(i), answers(i), now);
          if allSaved {
            AgreeOnStep(out, before, i, r, disk);
          }
          out := out[i := r];
        }
      }
    }

    /** One tick that found these jobs queued: dispatch, then one step for every live job, the
        new ones included. */
    method Tick(jobs: seq<CiJobRecord>, queued: seq<QueuedJob>, world: World) returns (out: seq<CiJobRecord>)
      requires allSaved ==> Agree(jobs, disk)
      modifies this
      ensures allSaved ==> old(allSaved) && Agree(out, disk)
      ensures Ticked(jobs, out, queued, world, allSaved)
    {
      var all, added := DispatchAll(jobs, queued, world.created);
      ghost var saved := allSaved;
      assert Dispatches(jobs, added, queued, world.created, saved);
      out := TailAll(all, world.logs, world.answers);
      assert TickAdds(jobs, out, queued, world, allSaved, added);
    }

    /** `run_broker`: startup, and then one tick for every poll until one fails for good. As
        long as every save has succeeded, memory and disk agree at every loop head and at the
        end. `heads` are the jobs in memory at the loop heads. */
    method RunBroker(resumed: string -> Fetched, polls: seq<Polled>, worlds: nat -> World)
        returns (jobs: seq<CiJobRecord>, ghost heads: seq<seq<CiJobRecord>>)
      requires Filed(disk)
      modifies this
      ensures allSaved ==> Agree(jobs, disk)
      ensures RanFrom(old(disk), resumed, polls, worlds, heads, allSaved) && jobs == heads[|heads| - 1]
      ensures |heads| == |polls| + 1 || polls[|heads| - 1].Fatal?
    {
      jobs := ReconcileOnStartup(resumed);
      heads := [jobs];
      ghost var disk0 := old(disk);
      for step := 0 to |polls|
        invariant allSaved ==> Agree(jobs, disk)
        invariant |heads| == step + 1 && jobs == heads[step]
        invariant RanFrom(disk0, resumed, polls, worlds, heads, allSaved)
      {
        ghost var before, saved := heads, allSaved;
        match polls[step] {
          case Retryable =>
          case Fatal => return;
          case Queued(queued) => jobs := Tick(jobs, queued, worlds(step));
        }
        heads := heads + [jobs];
        OneMoreHead(disk0, resumed, polls, worlds, before, heads, saved, allSaved);
      }
    }
  }

  /** What the outside world answers in one tick: the sandboxes created for the queue, and
      the log and GitHub's answer for every job in memory. */
  datatype World = World(
    created: nat -> Option<string>,
    logs: nat -> Fetched,
    answers: nat -> Option<Option<nat>>
  )

  /** One tick's dispatches: a job listed several times, or already live, is dispatched at
      most once; a job is live afterwards unless its sandbox or its save failed. */
  ghost predicate Dispatches(jobs: seq<CiJobRecord>, added: seq<CiJobRecord>, queued: seq<QueuedJob>,
                             created: nat -> Option<string>, allSaved: bool)
  {
    && AllFresh(jobs, added)
    && (forall r :: r in added ==> AskedByOne(queued, created, r))
    && (allSaved ==> forall q: nat :: q < |queued| && created(q).Some? ==>
                       Has(jobs + added, Sentinel.Decimal(queued[q].jobId)))
  }

  /** One job's step: terminal records are left alone. */
  predicate Stepped(before: CiJobRecord, fetched: Fetched, answer: Option<Option<nat>>, r: CiJobRecord,
                    allSaved: bool)
  {
    if Live(before) then Advanced(before, fetched, r) && (allSaved ==> Checked(before, fetched, answer, r))
    else r == before
  }

  ghost predicate Ticked(jobs: seq<CiJobRecord>, out: seq<CiJobRecord>, queued: seq<QueuedJob>, world: World,
                         allSaved: bool)
  {
    exists added :: TickAdds(jobs, out, queued, world, allSaved, added)
  }

  ghost predicate TickAdds(jobs: seq<CiJobRecord>, out: seq<CiJobRecord>, queued: seq<QueuedJob>, world: World,
                           allSaved: bool, added: seq<CiJobRecord>)
  {
    && Dispatches(jobs, added, queued, world.created, allSaved)
    && |out| == |jobs + added|
    && forall i: nat :: i < |out| ==> Stepped((jobs + added)[i], world.logs(i), world.answers(i), out[i], allSaved)
  }

  /** `heads` are the jobs in memory at the loop heads of a run. */
  ghost predicate RanFrom(disk: map<string, CiJobRecord>, resumed: string -> Fetched, polls: seq<Polled>,
                          worlds: nat -> World, heads: seq<seq<CiJobRecord>>, allSaved: bool)
  {
    && 0 < |heads| <= |polls| + 1
    && (forall i :: 0 <= i < |heads[0]| ==> ResumedFrom(disk, resumed, heads[0][i], allSaved))
    && (forall id :: id in disk && Live(disk[id]) ==> id in Ids(heads[0]))
    && forall n: nat :: n + 1 < |heads| ==> HeadFollows(polls, worlds, heads, allSaved, n)
  }

  ghost predicate HeadFollows(polls: seq<Polled>, worlds: nat -> World, heads: seq<seq<CiJobRecord>>, allSaved: bool,
                              n: nat)
    requires n + 1 < |heads| <= |polls| + 1
  {
    match polls[n]
    case Retryable => heads[n + 1] == heads[n]
    case Fatal => false
    case Queued(queued) => Ticked(heads[n], heads[n + 1], queued, worlds(n), allSaved)
  }

  lemma TickedStill(jobs: seq<CiJobRecord>, out: seq<CiJobRecord>, queued: seq<QueuedJob>, world: World,
                    before: bool, after: bool)
    requires Ticked(jobs, out, queued, world, before) && (after ==> before)
    ensures Ticked(jobs, out, queued, world, after)
  {
    var added :| TickAdds(jobs, out, queued, world, before, added);
    assert TickAdds(jobs, out, queued, world, after, added);
  }

  lemma OneMoreHead(disk: map<string, CiJobRecord>, resumed: string -> Fetched, polls: seq<Polled>,
                    worlds: nat -> World, before: seq<seq<CiJobRecord>>, heads: seq<seq<CiJobRecord>>,
                    saved: bool, allSaved: bool)
    requires RanFrom(disk, resumed, polls, worlds, before, saved) && (allSaved ==> saved)
    requires |before| <= |polls| && |heads| == |before| + 1 && before == heads[..|before|]
    requires HeadFollows(polls, worlds, heads, allSaved, |before| - 1)
    ensures RanFrom(disk, resumed, polls, worlds, heads, allSaved)
  {
    assert heads[0] == before[0];
    forall n: nat | n + 1 < |heads| ensures HeadFollows(polls, worlds, heads, allSaved, n) {
      if n + 1 < |before| {
        assert HeadFollows(polls, worlds, before, saved, n);
        assert heads[n] == before[n] && heads[n + 1] == before[n + 1];
        if polls[n].Queued? {
          TickedStill(heads[n], heads[n + 1], polls[n].jobs, worlds(n), saved, allSaved);
        }
      }
    }
  }
}
