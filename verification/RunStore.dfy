/**
 The server's side of the run protocol as it is written: one object that owns
 the run rows, with the claim loops of a poll, the queue timeout, the result
 and progress posts, the operator's cancel and the retry of a failed backup.
 Each method is tied to the row updates that the transition system uses.
 */
module RunStore {
  import opened Wrappers
  import AgentTask
  import opened RunRows
  import opened Protocol
  import opened ProtocolTheorems

  /** The rows a poll selects for an agent; a retry waits out its delay. */
  predicate Claimable(run: Run, kind: Kind, agent: AgentId, jobAgent: map<JobId, AgentId>, now: Time) {
    && run.kind == kind && run.status == Queued
    && match kind
       case Backup => run.job in jobAgent && jobAgent[run.job] == agent && Due(run, now)
       case Check => run.job in jobAgent && jobAgent[run.job] == agent
       case Restore => run.agent == Some(agent)
  }

  /** Another backup of the same job that is queued or running. */
  predicate Rival(rows: Rows, id: RunId, q: RunId)
    requires id in rows && q in rows
  {
    q != id && rows[q].job == rows[id].job && rows[q].kind == Backup && Active(rows[q].status)
  }

  ghost predicate NoDuplicates(ids: seq<RunId>) {
    forall i, j :: 0 <= i < j < |ids| ==> ids[i] != ids[j]
  }

  lemma NoDuplicatesAppend(ids: seq<RunId>, more: seq<RunId>)
    requires NoDuplicates(ids) && NoDuplicates(more) && forall id :: id in more ==> id !in ids
    ensures NoDuplicates(ids + more)
  {
    forall i, j | 0 <= i < j < |ids + more| ensures (ids + more)[i] != (ids + more)[j] {
      if i < |ids| <= j {
        assert (ids + more)[j] in more;
      }
    }
  }

  // --- A retry, uninterrupted ------------------------------------------------------------

  /** A failed backup with attempts left and no other backup on its way. */
  ghost predicate MayRetry(rows: Rows, jobs: map<JobId, Job>, id: RunId) {
    && id in rows && rows[id].job in jobs
    && rows[id].kind == Backup && rows[id].status == Failed
    && rows[id].attempt <= jobs[rows[id].job].retryMax
    && forall q :: q in rows ==> !Rival(rows, id, q)
  }

  ghost function WithRetry(rows: Rows, jobs: map<JobId, Job>, id: RunId, next: RunId, now: Time): Rows {
    if !MayRetry(rows, jobs, id) then rows
    else
      var run := rows[id];
      rows[next := RetryRun(run.job, run.trigger, run.attempt + 1, id, now + jobs[run.job].retryDelay * 1000, now)]
  }

  /** A retry is handed out from the end of its delay on, and its time in the queue counts from then. */
  lemma RetryWaits(rows: Rows, jobs: map<JobId, Job>, id: RunId, next: RunId, now: Time, at: Time, staleBefore: Time)
    requires MayRetry(rows, jobs, id) && next !in rows
    ensures var retry, from := WithRetry(rows, jobs, id, next, now)[next], now + jobs[rows[id].job].retryDelay * 1000;
            && (Due(retry, at) <==> from <= at)
            && (Stale(retry, staleBefore) <==> from < staleBefore)
  {
  }

  /** The statements of `scheduleRetry` in the run protocol, as far as they get. */
  ghost function RetrySteps(s: System, i: nat, next: RunId): seq<Action>
    requires i < |s.finals|
  {
    var r := s.finals[i].run;
    if PhaseRead(s, r).Notifying? then [FinalRead(i)]
    else if OtherBackupActive(s, r, s.rows[r].job) then [FinalRead(i), FinalActive(i)]
    else [FinalRead(i), FinalActive(i), FinalInsert(i, next)]
  }

  lemma {:induction false} ThreeSteps(s: System, a: Action, b: Action, c: Action)
    requires Enabled(s, a) && Enabled(Apply(s, a), b) && Enabled(Apply(Apply(s, a), b), c)
    ensures Executes(s, [a, b, c]) && After(s, [a, b, c]) == Apply(Apply(Apply(s, a), b), c)
  {
    TwoSteps(Apply(s, a), b, c);
    assert [a, b, c][1..] == [b, c];
  }

  lemma RivalIsActive(s: System, i: nat)
    requires i < |s.finals| && s.finals[i].run in s.rows
    ensures var r := s.finals[i].run; OtherBackupActive(s, r, s.rows[r].job) <==> exists q :: q in s.rows && Rival(s.rows, r, q)
  {
    var r := s.finals[i].run;
    if q :| q in s.rows && q != r && s.rows[q].job == s.rows[r].job && s.rows[q].kind == Backup && Active(s.rows[q].status) {
      assert Rival(s.rows, r, q);
    }
    if q :| q in s.rows && Rival(s.rows, r, q) {
      assert OtherBackupActive(s, r, s.rows[r].job);
    }
  }

  /** The first two statements of a retry that is still possible. */
  lemma ReadThenActive(s: System, i: nat)
    requires Begins(s, i) && PhaseRead(s, s.finals[i].run).Retriable?
    ensures var r, s1 := s.finals[i].run, Apply(s, FinalRead(i));
            && s1 == SetPhase(s, i, PhaseRead(s, r)) && Enabled(s1, FinalActive(i))
            && var p := s1.finals[i].phase;
               Apply(s1, FinalActive(i)) ==
               SetPhase(s1, i, if OtherBackupActive(s, r, s.rows[r].job) then Notifying
                               else Clear(p.job, p.trigger, p.attempt, p.delay))
  {
    var r, s1 := s.finals[i].run, Apply(s, FinalRead(i));
    assert OtherBackupActive(s1, r, s.rows[r].job) <==> OtherBackupActive(s, r, s.rows[r].job);
  }

  lemma {:induction false} ThenNotify(s: System, i: nat)
    requires Begins(s, i) && PhaseRead(s, s.finals[i].run).Retriable?
    requires OtherBackupActive(s, s.finals[i].run, s.rows[s.finals[i].run].job)
    ensures Executes(s, [FinalRead(i), FinalActive(i)]) && After(s, [FinalRead(i), FinalActive(i)]).rows == s.rows
  {
    ReadThenActive(s, i);
    TwoSteps(s, FinalRead(i), FinalActive(i));
  }

  lemma InsertedRow(s: System, i: nat, next: RunId, s2: System)
    requires Begins(s, i) && PhaseRead(s, s.finals[i].run).Retriable? && next !in s.drawn
    requires var p := PhaseRead(s, s.finals[i].run);
             s2 == SetPhase(s, i, Clear(p.job, p.trigger, p.attempt, p.delay))
    ensures var run, r := s.rows[s.finals[i].run], s.finals[i].run;
            && Enabled(s2, FinalInsert(i, next))
            && Apply(s2, FinalInsert(i, next)).rows ==
               s.rows[next := RetryRun(run.job, run.trigger, run.attempt + 1, r,
                                       s.now + s.jobs[run.job].retryDelay * 1000, s.now)]
  {
  }

  lemma {:induction false} ThenInsert(s: System, i: nat, next: RunId)
    requires Begins(s, i) && PhaseRead(s, s.finals[i].run).Retriable? && next !in s.drawn
    requires !OtherBackupActive(s, s.finals[i].run, s.rows[s.finals[i].run].job)
    ensures var acts := [FinalRead(i), FinalActive(i), FinalInsert(i, next)];
            && Executes(s, acts)
            && var run, r := s.rows[s.finals[i].run], s.finals[i].run;
               After(s, acts).rows == s.rows[next := RetryRun(run.job, run.trigger, run.attempt + 1, r,
                                                              s.now + s.jobs[run.job].retryDelay * 1000, s.now)]
  {
    ReadThenActive(s, i);
    var s2 := Apply(Apply(s, FinalRead(i)), FinalActive(i));
    InsertedRow(s, i, next, s2);
    ThreeSteps(s, FinalRead(i), FinalActive(i), FinalInsert(i, next));
  }

  lemma MayRetryIff(s: System, i: nat)
    requires i < |s.finals|
    ensures var r := s.finals[i].run;
            MayRetry(s.rows, s.jobs, r) <==> PhaseRead(s, r).Retriable? && !OtherBackupActive(s, r, s.rows[r].job)
  {
    if s.finals[i].run in s.rows {
      RivalIsActive(s, i);
    }
  }

  /** Without steps of others in between, the three statements do what `ScheduleRetry` does. */
  lemma {:induction false} RetryIsSchedule(s: System, i: nat, next: RunId)
    requires Begins(s, i) && next !in s.drawn
    ensures Executes(s, RetrySteps(s, i, next))
    ensures After(s, RetrySteps(s, i, next)).rows == WithRetry(s.rows, s.jobs, s.finals[i].run, next, s.now)
  {
    var r := s.finals[i].run;
    MayRetryIff(s, i);
    if PhaseRead(s, r).Notifying? {
      OneStep(s, FinalRead(i));
    } else if OtherBackupActive(s, r, s.rows[r].job) {
      ThenNotify(s, i);
    } else {
      ThenInsert(s, i, next);
    }
  }

  class Store {
    var rows: Rows

    constructor ()
      ensures rows == map[]
    {
      rows := map[];
    }

    /** The three claim loops of a poll: every selected run is claimed once and handed over. */
    method ClaimTasks(kind: Kind, agent: AgentId, jobAgent: map<JobId, AgentId>, now: Time) returns (tasks: seq<RunId>)
      modifies this
      ensures rows.Keys == old(rows).Keys && NoDuplicates(tasks)
      // Exactly the queued runs for this agent, a retry only once its delay is over.
      ensures forall id :: id in tasks <==>
                && id in old(rows) && old(rows)[id].kind == kind && old(rows)[id].status == Queued
                && (if kind == Restore then old(rows)[id].agent == Some(agent)
                    else old(rows)[id].job in jobAgent && jobAgent[old(rows)[id].job] == agent)
                && (kind == Backup && old(rows)[id].notBefore.Some? ==> old(rows)[id].notBefore.value <= now)
      ensures forall id :: id in tasks ==> rows[id] == old(rows)[id].(status := Running, agent := Some(agent))
      ensures forall id :: id in rows ==>
                rows[id] == if id in tasks then Claim(old(rows), id, agent)[id] else old(rows)[id]
    {
      var selected := set id | id in rows && Claimable(rows[id], kind, agent, jobAgent, now);
      ghost var all := selected;
      tasks := [];
      while selected != {}
        invariant selected <= all
        invariant NoDuplicates(tasks) && forall id :: id in tasks <==> id in all - selected
        invariant rows.Keys == old(rows).Keys
        invariant forall id :: id in rows ==>
                    rows[id] == if id in tasks then old(rows)[id].(status := Running, agent := Some(agent)) else old(rows)[id]
        decreases |selected|
      {
        var id :| id in selected;
        if rows[id].status == Queued {
          rows := rows[id := rows[id].(status := Running, agent := Some(agent))];
          tasks := tasks + [id];
        }
        selected := selected - {id};
      }
      forall id | id in old(rows) ensures id in tasks <==> Claimable(old(rows)[id], kind, agent, jobAgent, now) {}
    }

    /** The 30-second sweep. The returned runs are finalized, each once. */
    method FailStaleQueuedRuns(now: Time, timeoutSeconds: int) returns (stale: seq<RunId>)
      modifies this
      ensures timeoutSeconds <= 0 ==> stale == [] && rows == old(rows)
      ensures rows.Keys == old(rows).Keys && NoDuplicates(stale)
      // Exactly the backups and checks that have waited longer, a retry counted from the end of its delay.
      ensures timeoutSeconds > 0 ==>
                forall id :: id in stale <==>
                  && id in old(rows) && old(rows)[id].kind != Restore && old(rows)[id].status == Queued
                  && var due := if old(rows)[id].notBefore.Some? then old(rows)[id].notBefore.value else old(rows)[id].created;
                     now - due > timeoutSeconds * 1000
      ensures forall id :: id in rows ==>
                rows[id] == if id in stale then old(rows)[id].(status := Failed, finishedAt := Some(now)) else old(rows)[id]
      ensures timeoutSeconds > 0 ==>
                forall id :: id in rows ==> rows[id] == Expire(old(rows), id, now - timeoutSeconds * 1000, now)[id]
    {
      stale := [];
      if timeoutSeconds <= 0 {
        return;
      }
      var staleBefore := now - timeoutSeconds * 1000;
      var kinds := [Backup, Check];
      var k := 0;
      while k < |kinds|
        invariant 0 <= k <= |kinds| && rows.Keys == old(rows).Keys && NoDuplicates(stale)
        invariant forall id :: id in stale <==>
                    id in old(rows) && Stale(old(rows)[id], staleBefore) && old(rows)[id].kind in kinds[..k]
        invariant forall id :: id in rows ==>
                    rows[id] == if id in stale then Expire(old(rows), id, staleBefore, now)[id] else old(rows)[id]
      {
        var expired := FailStaleOfKind(kinds[k], staleBefore, now);
        assert kinds[..k + 1] == kinds[..k] + [kinds[k]];
        NoDuplicatesAppend(stale, expired);
        stale := stale + expired;
        k := k + 1;
      }
      assert kinds[..k] == kinds;
    }

    /** One UPDATE ... RETURNING of the sweep. */
    method FailStaleOfKind(kind: Kind, staleBefore: Time, now: Time) returns (ids: seq<RunId>)
      requires kind != Restore
      modifies this
      ensures rows.Keys == old(rows).Keys && NoDuplicates(ids)
      ensures forall id :: id in ids <==> id in old(rows) && old(rows)[id].kind == kind && Stale(old(rows)[id], staleBefore)
      ensures forall id :: id in rows ==>
                rows[id] == if id in ids then Expire(old(rows), id, staleBefore, now)[id] else old(rows)[id]
    {
      var hit := set id | id in rows && rows[id].kind == kind && Stale(rows[id], staleBefore);
      rows := map id | id in rows :: if id in hit then rows[id].(status := Failed, finishedAt := Some(now)) else rows[id];
      ids := SetToSeq(hit);
    }

    /** A result post: not found for another agent's run, otherwise recorded unless a cancel came first. */
    method SubmitResult(id: RunId, agent: AgentId, st: AgentTask.Status, stats: Option<int>, now: Time)
      returns (found: bool, finalize: bool)
      modifies this
      ensures rows == Report(old(rows), id, agent, st, stats, now)
      ensures found == FoundBy(old(rows), id, agent)
      ensures finalize <==> found && old(rows)[id].kind == Backup && st != AgentTask.Cancelled
      // What is recorded is what was reported, for a run that is still running.
      ensures found && old(rows)[id].status == Running ==>
                && id in rows && rows[id].finishedAt.Some?
                && (st == AgentTask.Success ==> rows[id].status == Success)
                && (st == AgentTask.Failed ==> rows[id].status == Failed)
                && (st == AgentTask.Cancelled ==> rows[id].status == Cancelled && rows[id].stats == old(rows)[id].stats)
                && (st != AgentTask.Cancelled ==>
                      rows[id].finishedAt == Some(now) &&
                      rows[id].stats == if old(rows)[id].kind == Check then old(rows)[id].stats else stats)
      ensures !found || (old(rows)[id].status != Running && st != AgentTask.Cancelled) ==> rows == old(rows)
      // A cancelled result only confirms: the finish time of a cancel that came first stays.
      ensures found && st == AgentTask.Cancelled ==>
                rows == if old(rows)[id].status != Running && old(rows)[id].status != Cancelled then old(rows)
                        else old(rows)[id := old(rows)[id].(status := Cancelled, finishedAt :=
                               if old(rows)[id].finishedAt.Some? then old(rows)[id].finishedAt else Some(now))]
      ensures rows.Keys == old(rows).Keys && forall q :: q in rows && q != id ==> rows[q] == old(rows)[q]
    {
      found := id in rows && rows[id].agent == Some(agent);
      finalize := false;
      if !found {
        return;
      }
      var run := rows[id];
      if st == AgentTask.Cancelled {
        if run.status == Running || run.status == Cancelled {
          var finished := if run.finishedAt.Some? then run.finishedAt else Some(now);
          rows := rows[id := run.(status := Cancelled, finishedAt := finished)];
        }
        return;
      }
      if run.status == Running {
        var figures := if run.kind == Check then run.stats else stats;
        rows := rows[id := run.(status := Reported(st), finishedAt := Some(now), stats := figures)];
      }
      finalize := run.kind == Backup;
    }

    method BackupProgress(id: RunId, agent: AgentId, stats: int)
      modifies this
      ensures rows == Progress(old(rows), id, agent, stats)
      ensures rows == if id in old(rows) && old(rows)[id].agent == Some(agent) && old(rows)[id].status == Running
                      then old(rows)[id := old(rows)[id].(stats := Some(stats))] else old(rows)
    {
      if id in rows && rows[id].agent == Some(agent) && rows[id].status == Running {
        rows := rows[id := rows[id].(stats := Some(stats))];
      }
    }

    /** An operator's cancel that nothing interrupts: a finished run is refused, any other ends as cancelled. */
    method CancelRun(id: RunId, now: Time) returns (accepted: bool)
      modifies this
      ensures accepted <==> id in old(rows) && (old(rows)[id].status == Queued || old(rows)[id].status == Running)
      ensures rows == if accepted then CancelWrite(old(rows), id, now) else old(rows)
      ensures accepted ==> rows == old(rows)[id := old(rows)[id].(status := Cancelled, finishedAt := Some(now))]
    {
      accepted := id in rows && (rows[id].status == Queued || rows[id].status == Running);
      if accepted {
        rows := rows[id := rows[id].(status := Cancelled, finishedAt := Some(now))];
      }
    }

    /** A retry is queued exactly for a failed backup with attempts left and no other backup on its way. */
    method ScheduleRetry(id: RunId, jobs: map<JobId, Job>, next: RunId, now: Time) returns (retry: Option<RunId>)
      requires next !in rows
      modifies this
      ensures retry == if MayRetry(old(rows), jobs, id) then Some(next) else None
      ensures retry.Some? <==>
                && id in old(rows) && old(rows)[id].job in jobs && old(rows)[id].kind == Backup && old(rows)[id].status == Failed
                && old(rows)[id].attempt <= jobs[old(rows)[id].job].retryMax
                && forall q :: q in old(rows) && q != id && old(rows)[q].job == old(rows)[id].job && old(rows)[q].kind == Backup ==>
                                 old(rows)[q].status != Queued && old(rows)[q].status != Running
      ensures rows == WithRetry(old(rows), jobs, id, next, now)
      ensures retry.Some? ==>
                var run := old(rows)[id];
                && next in rows && rows[next].status == Queued && rows[next].kind == Backup && rows[next].agent == None
                && rows[next].job == run.job && rows[next].trigger == run.trigger && rows[next].retryOf == Some(id)
                && rows[next].attempt == run.attempt + 1 && rows[next].created == now
                && rows[next].notBefore == Some(now + jobs[run.job].retryDelay * 1000)
    {
      retry := None;
      if id !in rows || rows[id].job !in jobs {
        return;
      }
      var run := rows[id];
      if run.kind != Backup || run.status != Failed || run.attempt > jobs[run.job].retryMax {
        return;
      }
      var active := set q | q in rows && Rival(rows, id, q);
      if active != {} {
        var q :| q in active;
        assert q in rows && Rival(rows, id, q);
        return;
      }
      assert forall q :: q in rows ==> q !in active;
      rows := rows[next := RetryRun(run.job, run.trigger, run.attempt + 1, id, now + jobs[run.job].retryDelay * 1000, now)];
      retry := Some(next);
    }
  }

  method SetToSeq(ids: set<RunId>) returns (s: seq<RunId>)
    ensures NoDuplicates(s) && forall id :: id in s <==> id in ids
  {
    s := [];
    var rest := ids;
    while rest != {}
      invariant rest <= ids && NoDuplicates(s) && forall id :: id in s <==> id in ids - rest
      decreases |rest|
    {
      var id :| id in rest;
      NoDuplicatesAppend(s, [id]);
      s := s + [id];
      rest := rest - {id};
    }
  }
}
