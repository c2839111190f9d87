/** The broker that runs jobs to their end (`run_runner_broker`): which VMs a restart can find. */
module RunnerBroker {
  import opened Text
  import opened Tail
  import opened Broker
  import opened Runner
  import Sentinel

  /** A restart lists a record that names this VM. */
  predicate Named(disk: map<string, CiJobRecord>, v: string) {
    exists id :: id in disk && Live(disk[id]) && disk[id].sandboxId == Some(v)
  }

  /** The same, by a record that is not among these jobs. */
  predicate NamedBeside(disk: map<string, CiJobRecord>, v: string, jobs: seq<CiJobRecord>) {
    exists id :: id in disk && Live(disk[id]) && disk[id].sandboxId == Some(v) && id !in Ids(jobs)
  }

  predicate Uses(jobs: seq<CiJobRecord>, v: string) {
    exists k :: 0 <= k < |jobs| && jobs[k].sandboxId == Some(v)
  }

  /** Every VM but the strays is named by a record on disk, or belongs to a job still to run. */
  ghost predicate Covered(disk: map<string, CiJobRecord>, vms: set<string>, strays: set<string>,
                          jobs: seq<CiJobRecord>)
  {
    forall v :: v in vms && v !in strays ==> NamedBeside(disk, v, jobs) || Uses(jobs, v)
  }

  /** Nobody names them to begin with. */
  function Strays(disk: map<string, CiJobRecord>, vms: set<string>): set<string> {
    set v | v in vms && !Named(disk, v)
  }

  /** A resumed job loses its place among the live records, though its VM is still there, if
      and only if its log holds a completion line: a crash before the job is run again then
      leaves a VM that no restart lists. */
  lemma ResumeHidesIff(r: CiJobRecord, lines: seq<string>)
    requires Live(r)
    ensures !Live(Pass(r, lines)) <==> exists i :: 0 <= i < |lines| && Verdict(lines[i]).Some?
  {
    VerdictTerminal(lines);
    LiveNotTerminal(r.phase, lines);
    LastSomeIff(Verdict, lines);
  }

  lemma ResumeKeepsSandbox(before: CiJobRecord, fetched: Fetched, r: CiJobRecord, saved: bool)
    requires Resumed(before, fetched, r, saved)
    ensures r.sandboxId == before.sandboxId
  {
  }

  /** After startup every live job on disk is about to run. */
  lemma StartupCovers(disk0: map<string, CiJobRecord>, disk: map<string, CiJobRecord>, vms: set<string>,
                      logs: string -> Fetched, jobs: seq<CiJobRecord>, saved: bool)
    requires forall i :: 0 <= i < |jobs| ==> ResumedFrom(disk0, logs, jobs[i], saved)
    requires forall id :: id in disk0 && Live(disk0[id]) ==> id in Ids(jobs)
    ensures Covered(disk, vms, Strays(disk0, vms), jobs)
  {
    forall v | v in vms && v !in Strays(disk0, vms) ensures Uses(jobs, v) {
      var id :| id in disk0 && Live(disk0[id]) && disk0[id].sandboxId == Some(v);
      var k :| 0 <= k < |jobs| && Ids(jobs)[k] == id;
      ResumeKeepsSandbox(disk0[id], logs(id), jobs[k], saved);
    }
  }

  /** Running the first of the jobs: its VM is gone or its own record names it. */
  lemma RunCovers(disk: map<string, CiJobRecord>, disk': map<string, CiJobRecord>, vms: set<string>,
                  vms': set<string>, strays: set<string>, jobs: seq<CiJobRecord>)
    requires jobs != [] && Distinct(Ids(jobs)) && Covered(disk, vms, strays, jobs) && vms' <= vms
    requires disk' - {jobs[0].jobId} == disk - {jobs[0].jobId}
    requires jobs[0].sandboxId.Some? && jobs[0].sandboxId.value in vms' ==>
               && jobs[0].jobId in disk' && Live(disk'[jobs[0].jobId])
               && disk'[jobs[0].jobId].sandboxId == jobs[0].sandboxId
    ensures Covered(disk', vms', strays, jobs[1..])
  {
    var rest, own := jobs[1..], jobs[0].jobId;
    assert forall k :: 0 <= k < |rest| ==> Ids(rest)[k] == Ids(jobs)[k + 1];
    forall v | v in vms' && v !in strays ensures NamedBeside(disk', v, rest) || Uses(rest, v) {
      if NamedBeside(disk, v, jobs) {
        var id :| id in disk && Live(disk[id]) && disk[id].sandboxId == Some(v) && id !in Ids(jobs);
        assert Ids(jobs)[0] == own;
        assert id in disk - {own};
        assert id in disk' && disk'[id] == disk[id] && id !in Ids(rest);
      } else {
        var k :| 0 <= k < |jobs| && jobs[k].sandboxId == Some(v);
        if k > 0 {
          assert rest[k - 1] == jobs[k];
        } else {
          assert own !in Ids(rest);
        }
      }
    }
  }

  /** A dispatch puts one more job in front. */
  lemma DispatchCovers(disk: map<string, CiJobRecord>, vms: set<string>, strays: set<string>, r: CiJobRecord)
    requires Covered(disk, vms, strays, []) && r.jobId !in disk && r.sandboxId.Some?
    ensures Covered(disk[r.jobId := r], vms + {r.sandboxId.value}, strays, [r])
  {
    forall v | v in vms + {r.sandboxId.value} && v !in strays
      ensures NamedBeside(disk[r.jobId := r], v, [r]) || Uses([r], v)
    {
      if r.sandboxId == Some(v) {
        assert [r][0] == r;
      } else {
        assert NamedBeside(disk, v, []);
        var id :| id in disk && Live(disk[id]) && disk[id].sandboxId == Some(v);
        assert disk[r.jobId := r][id] == disk[id] && id !in Ids([r]);
      }
    }
  }

  /** These jobs were run to their end since `ran0`, each once, in this order. */
  predicate RunInOrder(ran0: seq<Ran>, ran: seq<Ran>, jobs: seq<CiJobRecord>, config: Config) {
    && ran0 <= ran
    && var more := ran[|ran0|..];
       |more| == |jobs| && forall k :: 0 <= k < |jobs| ==> more[k].job == jobs[k] && more[k].config == config
  }

  /** One job of the list, whatever the cleanup is answered. */
  method RunFirst(host: Runner, config: Config, jobs: seq<CiJobRecord>, ghost strays: set<string>)
    requires jobs != [] && Distinct(Ids(jobs))
    requires host.reconciler.allSaved ==> Covered(host.reconciler.disk, host.vms, strays, jobs)
    modifies host, host.reconciler
    ensures host.reconciler.allSaved ==>
              old(host.reconciler.allSaved) && Covered(host.reconciler.disk, host.vms, strays, jobs[1..])
    ensures host.reconciler.disk - {jobs[0].jobId} == old(host.reconciler.disk) - {jobs[0].jobId}
    ensures RunInOrder(old(host.ran), host.ran, jobs[..1], config)
  {
    ghost var disk, vms := host.reconciler.disk, host.vms;
    var at: Answers := *;
    var record, primary, end, ok, seen, w :=
      host.RunJob(jobs[0], config.waitTimeout, config.jobTimeout, config.lease, at);
    if host.reconciler.allSaved {
      RunCovers(disk, host.reconciler.disk, vms, host.vms, strays, jobs);
    }
  }

  /** What startup hands to the job runs: every job that was live on disk, once, as its log
      has it. */
  ghost predicate Startup(disk: map<string, CiJobRecord>, logs: string -> Fetched, jobs: seq<CiJobRecord>,
                          allSaved: bool)
  {
    && Distinct(Ids(jobs))
    && (forall id :: id in disk && Live(disk[id]) ==> id in Ids(jobs))
    && forall i :: 0 <= i < |jobs| ==> ResumedFrom(disk, logs, jobs[i], allSaved)
  }

  lemma StartupStill(disk: map<string, CiJobRecord>, logs: string -> Fetched, jobs: seq<CiJobRecord>,
                     before: bool, after: bool)
    requires Startup(disk, logs, jobs, before) && (after ==> before)
    ensures Startup(disk, logs, jobs, after)
  {
    forall i | 0 <= i < |jobs| ensures ResumedFrom(disk, logs, jobs[i], after) {
      assert ResumedFrom(disk, logs, jobs[i], before);
    }
  }

  /** Every job that was live on disk is run to its end before new work is claimed. */
  method ResumeAll(host: Runner, config: Config, logs: string -> Fetched) returns (ghost resumed: seq<CiJobRecord>)
    requires Filed(host.reconciler.disk)
    modifies host, host.reconciler
    ensures host.reconciler.allSaved ==>
              && old(host.reconciler.allSaved)
              && Covered(host.reconciler.disk, host.vms, old(Strays(host.reconciler.disk, host.vms)), [])
    ensures Startup(old(host.reconciler.disk), logs, resumed, host.reconciler.allSaved)
    ensures RunInOrder(old(host.ran), host.ran, resumed, config)
  {
    ghost var disk, vms, strays := host.reconciler.disk, host.vms, Strays(host.reconciler.disk, host.vms);
    var jobs := host.reconciler.ReconcileOnStartup(logs);
    ghost var saved := host.reconciler.allSaved;
    StartupCovers(disk, host.reconciler.disk, vms, logs, jobs, saved);
    RunAll(host, config, jobs, strays);
    resumed := jobs;
    StartupStill(disk, logs, resumed, saved, host.reconciler.allSaved);
  }

  method RunAll(host: Runner, config: Config, all: seq<CiJobRecord>, ghost strays: set<string>)
    requires Distinct(Ids(all))
    requires host.reconciler.allSaved ==> Covered(host.reconciler.disk, host.vms, strays, all)
    modifies host, host.reconciler
    ensures host.reconciler.allSaved ==>
              old(host.reconciler.allSaved) && Covered(host.reconciler.disk, host.vms, strays, [])
    ensures RunInOrder(old(host.ran), host.ran, all, config)
  {
    var jobs := all;
    ghost var done := 0;
    while jobs != []
      invariant Distinct(Ids(jobs)) && done <= |all| && jobs == all[done..]
      invariant host.reconciler.allSaved ==>
                  old(host.reconciler.allSaved) && Covered(host.reconciler.disk, host.vms, strays, jobs)
      invariant RunInOrder(old(host.ran), host.ran, all[..done], config)
      decreases |jobs|
    {
      ghost var ran := host.ran;
      RunFirst(host, config, jobs, strays);
      RunOneMore(old(host.ran), ran, host.ran, all, done, config);
      assert forall k :: 0 <= k < |jobs| - 1 ==> Ids(jobs[1..])[k] == Ids(jobs)[k + 1];
      jobs := jobs[1..];
      done := done + 1;
    }
    assert all[..done] == all;
  }

  lemma RunOneMore(ran0: seq<Ran>, before: seq<Ran>, ran: seq<Ran>, jobs: seq<CiJobRecord>, done: nat, config: Config)
    requires done < |jobs| && RunInOrder(ran0, before, jobs[..done], config)
    requires RunInOrder(before, ran, jobs[done..][..1], config)
    ensures RunInOrder(ran0, ran, jobs[..done + 1], config)
  {
    assert ran[|ran0|..] == before[|ran0|..] + ran[|before|..];
    assert jobs[..done + 1] == jobs[..done] + jobs[done..][..1];
  }

  /** A queued job that nothing on disk stands for, and whose sandbox comes up. */
  predicate Claimable(disk: map<string, CiJobRecord>, job: QueuedJob, created: Option<string>) {
    Sentinel.Decimal(job.jobId) !in disk && created.Some?
  }

  /** What a restart and the outside can see at a loop head: the disk, and the jobs run. */
  datatype Head = Head(disk: map<string, CiJobRecord>, ran: seq<Ran>)

  /** One tick's claim: the first claimable job is run to its end, as it was dispatched, and no
      other record changes; without a claimable job nothing happens. A failed save may make the
      tick pass over a job. */
  ghost predicate Claims(before: Head, after: Head, queued: seq<QueuedJob>, created: nat -> Option<string>,
                         config: Config, allSaved: bool, claimed: Option<nat>)
  {
    match claimed
    case None =>
      after == before
      && (allSaved ==> forall q: nat :: q < |queued| ==> !Claimable(before.disk, queued[q], created(q)))
    case Some(c) =>
      && c < |queued| && Claimable(before.disk, queued[c], created(c))
      && before.ran <= after.ran && |after.ran| == |before.ran| + 1
      && Asked(queued[c], created(c), after.ran[|before.ran|].job) && after.ran[|before.ran|].config == config
      && after.disk - {after.ran[|before.ran|].job.jobId} == before.disk - {after.ran[|before.ran|].job.jobId}
      && (allSaved ==> forall q: nat :: q < c ==> !Claimable(before.disk, queued[q], created(q)))
  }

  /** One tick: the first claimable job is dispatched and run to its end, and no other. */
  method ClaimOne(host: Runner, config: Config, queued: seq<QueuedJob>, created: nat -> Option<string>,
                  ghost strays: set<string>) returns (claimed: Option<nat>)
    requires host.reconciler.allSaved ==> Covered(host.reconciler.disk, host.vms, strays, [])
    modifies host, host.reconciler
    ensures host.reconciler.allSaved ==>
              old(host.reconciler.allSaved) && Covered(host.reconciler.disk, host.vms, strays, [])
    ensures Claims(old(Head(host.reconciler.disk, host.ran)), Head(host.reconciler.disk, host.ran), queued, created,
                   config, host.reconciler.allSaved, claimed)
  {
    claimed := None;
    for q := 0 to |queued|
      invariant host.reconciler.disk == old(host.reconciler.disk) && host.ran == old(host.ran)
      invariant host.reconciler.allSaved ==>
                  && old(host.reconciler.allSaved) && Covered(host.reconciler.disk, host.vms, strays, [])
                  && forall p: nat :: p < q ==> !Claimable(host.reconciler.disk, queued[p], created(p))
    {
      if Sentinel.Decimal(queued[q].jobId) !in host.reconciler.disk {
        ghost var disk, vms := host.reconciler.disk, host.vms;
        var now: string, lease: string := *, *;
        if created(q).Some? {
          host.vms := host.vms + {created(q).value};
        }
        var record := host.reconciler.Dispatch(queued[q], created(q), now, lease);
        if record.Some? {
          if host.reconciler.allSaved {
            DispatchCovers(disk, vms, strays, record.value);
          }
          assert Ids([record.value]) == [record.value.jobId];
          RunFirst(host, config, [record.value], strays);
          assert [record.value][1..] == [] && [record.value][..1][0] == record.value;
          assert host.ran[|old(host.ran)|..][0].job == record.value && host.ran[|old(host.ran)|..][0].config == config;
          return Some(q);
        }
      }
    }
  }

  /** How one loop head follows another. */
  ghost predicate TickFrom(polled: Polled, before: Head, after: Head, created: nat -> Option<string>,
                           config: Config, allSaved: bool)
  {
    match polled
    case Retryable => after == before
    case Fatal => false
    case Queued(queued) => exists claimed :: Claims(before, after, queued, created, config, allSaved, claimed)
  }

  ghost predicate TicksFrom(polls: seq<Polled>, created: nat -> nat -> Option<string>, heads: seq<Head>,
                            config: Config, allSaved: bool)
  {
    && 0 < |heads| <= |polls| + 1
    && forall n: nat :: n + 1 < |heads| ==> TickFrom(polls[n], heads[n], heads[n + 1], created(n), config, allSaved)
  }

  lemma OneMoreTick(polls: seq<Polled>, created: nat -> nat -> Option<string>, before: seq<Head>, head: Head,
                    config: Config, saved: bool, allSaved: bool)
    requires TicksFrom(polls, created, before, config, saved) && (allSaved ==> saved) && |before| <= |polls|
    requires TickFrom(polls[|before| - 1], before[|before| - 1], head, created(|before| - 1), config, allSaved)
    ensures TicksFrom(polls, created, before + [head], config, allSaved)
  {
    var heads := before + [head];
    forall n: nat | n + 1 < |heads| ensures TickFrom(polls[n], heads[n], heads[n + 1], created(n), config, allSaved) {
      if n + 1 < |before| {
        assert TickFrom(polls[n], before[n], before[n + 1], created(n), config, saved);
        if polls[n].Queued? {
          var claimed :| Claims(before[n], before[n + 1], polls[n].jobs, created(n), config, saved, claimed);
          assert Claims(heads[n], heads[n + 1], polls[n].jobs, created(n), config, allSaved, claimed);
        }
      }
    }
  }

  /** `run_runner_broker`: every job found live at startup is run, and then one claim follows
      every poll until one fails for good. As long as every save succeeds, at every loop head
      and at the end a restart lists a record for every VM that has come up since, and for
      every VM that it would have listed at the start. */
  method RunRunnerBroker(host: Runner, config: Config, logs: string -> Fetched, polls: seq<Polled>,
                         created: nat -> nat -> Option<string>)
      returns (ghost resumed: seq<CiJobRecord>, ghost heads: seq<Head>)
    requires Filed(host.reconciler.disk)
    modifies host, host.reconciler
    ensures host.reconciler.allSaved ==>
              forall v :: v in host.vms && v !in old(Strays(host.reconciler.disk, host.vms)) ==>
                Named(host.reconciler.disk, v)
    ensures Startup(old(host.reconciler.disk), logs, resumed, host.reconciler.allSaved)
    ensures TicksFrom(polls, created, heads, config, host.reconciler.allSaved)
    ensures RunInOrder(old(host.ran), heads[0].ran, resumed, config)
    ensures heads[|heads| - 1] == Head(host.reconciler.disk, host.ran)
    ensures |heads| == |polls| + 1 || polls[|heads| - 1].Fatal?
  {
    ghost var disk, strays := host.reconciler.disk, Strays(host.reconciler.disk, host.vms);
    resumed := ResumeAll(host, config, logs);
    ghost var started := host.reconciler.allSaved;
    heads := [Head(host.reconciler.disk, host.ran)];
    for step := 0 to |polls|
      invariant host.reconciler.allSaved ==> started && Covered(host.reconciler.disk, host.vms, strays, [])
      invariant |heads| == step + 1 && heads[step] == Head(host.reconciler.disk, host.ran)
      invariant RunInOrder(old(host.ran), heads[0].ran, resumed, config)
      invariant TicksFrom(polls, created, heads, config, host.reconciler.allSaved)
    {
      ghost var saved, head := host.reconciler.allSaved, heads[step];
      match polls[step] {
        case Retryable =>
        case Fatal => break;
        case Queued(queued) =>
          var claimed := ClaimOne(host, config, queued, created(step), strays);
          assert Claims(head, Head(host.reconciler.disk, host.ran), queued, created(step), config,
                        host.reconciler.allSaved, claimed);
      }
      OneMoreTick(polls, created, heads, Head(host.reconciler.disk, host.ran), config, saved,
                  host.reconciler.allSaved);
      heads := heads + [Head(host.reconciler.disk, host.ran)];
    }
    StartupStill(disk, logs, resumed, started, host.reconciler.allSaved);
  }
}
