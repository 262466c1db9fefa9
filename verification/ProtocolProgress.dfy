/**
 What becomes of runs in the run protocol: which outcome a row shows, that a
 run can be carried through to its result, that a failure is retried, that a
 cancel reaches the agent, and why a finalization ends in a notify call.
 */
module ProtocolProgress {
  import opened Wrappers
  import AgentQueue
  import AgentTask
  import opened RunRows
  import opened Protocol
  import opened ProtocolInvariant
  import opened ProtocolTheorems
  import opened RetryTheorems
  import opened RunStore

  // --- Which outcome a row shows ---------------------------------------------------------------

  /** A processed result of the agent that ran it says `st` about the run, and the row shows its figures. */
  predicate Told(s: System, k: nat, r: RunId, st: AgentTask.Status)
    requires r in s.rows
  {
    && k < |s.posts| && s.posts[k].run == r && s.posts[k].delivered && s.posts[k].result.status == st
    && s.rows[r].agent == Some(s.posts[k].agent)
    && (s.rows[r].kind != Check ==> s.rows[r].stats == s.posts[k].stats)
  }

  ghost predicate ShowsItsResult(s: System, r: RunId)
    requires r in s.rows
  {
    && (s.rows[r].status == Success ==> exists k :: Told(s, k, r, AgentTask.Success))
    && (s.rows[r].status == Failed ==> r in s.swept || exists k :: Told(s, k, r, AgentTask.Failed))
  }

  ghost predicate ResultsShown(s: System) {
    forall r :: r in s.rows ==> ShowsItsResult(s, r)
  }

  /** Every result is what executing a task of the run's kind posts in the world the agent saw. */
  ghost predicate Executed(s: System) {
    forall k :: 0 <= k < |s.posts| ==> WasExecuted(s, s.posts[k])
  }

  predicate WasExecuted(s: System, p: Post) {
    p.run in s.drawn && (p.run in s.rows ==> AgentTask.TaskResults(TaskOf(s.rows[p.run].kind), p.world) == [p.result])
  }

  /** Results stay, and at most become processed. */
  predicate PostsKept(posts: seq<Post>, posts': seq<Post>) {
    && |posts| <= |posts'|
    && forall k :: 0 <= k < |posts| ==> posts'[k] == posts[k] || posts'[k] == posts[k].(delivered := true)
  }

  lemma PostsStay(s: System, act: Action)
    requires Enabled(s, act)
    ensures PostsKept(s.posts, Apply(s, act).posts) && s.swept <= Apply(s, act).swept
  {
    if act.RunEnds? {
      assert Apply(s, act).posts == s.posts + Outgoing(act.agent, s.agents[act.agent].worker.task.run, act.ended, act.world, act.figures);
    } else {
      SamePosts(s, act);
    }
  }

  lemma ToldStays(s: System, act: Action, k: nat, r: RunId, st: AgentTask.Status)
    requires Enabled(s, act) && r in s.rows && r in Apply(s, act).rows && r in s.drawn && Terminal(s.rows[r].status)
    requires Told(s, k, r, st)
    ensures Told(Apply(s, act), k, r, st)
  {
    PostsStay(s, act);
    RowStep(s, act, r);
  }

  /** A row that shows the same outcome as before still has its result. */
  lemma SameOutcome(s: System, act: Action, r: RunId)
    requires Enabled(s, act) && r in s.rows && r in Apply(s, act).rows && r in s.drawn && ShowsItsResult(s, r)
    requires Apply(s, act).rows[r].status == s.rows[r].status
    ensures ShowsItsResult(Apply(s, act), r)
  {
    var s' := Apply(s, act);
    PostsStay(s, act);
    if s.rows[r].status == Success {
      var k :| Told(s, k, r, AgentTask.Success);
      ToldStays(s, act, k, r, AgentTask.Success);
    } else if s.rows[r].status == Failed && r !in s.swept {
      var k :| Told(s, k, r, AgentTask.Failed);
      ToldStays(s, act, k, r, AgentTask.Failed);
    }
  }

  lemma DeliverTells(s: System, k: nat, r: RunId)
    requires k < |s.posts| && r in s.rows && DoDeliver(s, k).rows[r].status != s.rows[r].status
    ensures ShowsItsResult(DoDeliver(s, k), r)
  {
    var s' := DoDeliver(s, k);
    if s'.rows[r].status == Success {
      assert Told(s', k, r, AgentTask.Success);
    } else if s'.rows[r].status == Failed {
      assert Told(s', k, r, AgentTask.Failed);
    }
  }

  /** Only a result and the queue timeout give a run the outcome success or failure. */
  lemma NewOutcome(s: System, act: Action, r: RunId)
    requires Enabled(s, act) && r in Apply(s, act).rows && (r in s.rows ==> r in s.drawn)
    requires r in s.rows ==> Apply(s, act).rows[r].status != s.rows[r].status
    ensures ShowsItsResult(Apply(s, act), r)
  {
    var status := Apply(s, act).rows[r].status;
    if act.Deliver? {
      DeliverTells(s, act.index, r);
    } else if act.SweepRun? {
      SweepTells(s, act.run, act.staleBefore, r);
    } else if status == Success || status == Failed {
      NewIsActive(s, act, r);
    }
  }

  lemma SweepTells(s: System, q: RunId, staleBefore: Time, r: RunId)
    requires r in DoSweep(s, q, staleBefore).rows && r in s.rows
    requires DoSweep(s, q, staleBefore).rows[r].status != s.rows[r].status
    ensures ShowsItsResult(DoSweep(s, q, staleBefore), r)
  {
  }

  lemma NewIsActive(s: System, act: Action, r: RunId)
    requires Enabled(s, act) && !act.Deliver? && !act.SweepRun? && r in Apply(s, act).rows
    requires r in s.rows ==> Apply(s, act).rows[r].status != s.rows[r].status
    ensures Apply(s, act).rows[r].status != Success && Apply(s, act).rows[r].status != Failed
  {
    if act.ClaimRun? || act.ProgressArrives? || act.CancelLands? {
      UpdatedIsActive(s, act, r);
    } else if act.Insert? || act.FinalInsert? || act.DeleteJob? {
      InsertedIsActive(s, act, r);
    } else {
      SameRows(s, act);
    }
  }

  lemma UpdatedIsActive(s: System, act: Action, r: RunId)
    requires Enabled(s, act) && (act.ClaimRun? || act.ProgressArrives? || act.CancelLands?) && r in Apply(s, act).rows
    requires r in s.rows ==> Apply(s, act).rows[r].status != s.rows[r].status
    ensures Apply(s, act).rows[r].status != Success && Apply(s, act).rows[r].status != Failed
  {
    match act
    case ClaimRun(a, q, live) => assert DoClaim(s, a, q, live).rows == Claim(s.rows, q, a);
    case ProgressArrives(_, _, _) =>
    case CancelLands(_) =>
  }

  lemma InsertedIsActive(s: System, act: Action, r: RunId)
    requires Enabled(s, act) && (act.Insert? || act.FinalInsert? || act.DeleteJob?) && r in Apply(s, act).rows
    requires r in s.rows ==> Apply(s, act).rows[r].status != s.rows[r].status
    ensures Apply(s, act).rows[r].status != Success && Apply(s, act).rows[r].status != Failed
  {
  }

  lemma ResultsShownStep(s: System, act: Action)
    requires Inv(s) && ResultsShown(s) && Enabled(s, act)
    ensures ResultsShown(Apply(s, act))
  {
    var s' := Apply(s, act);
    forall r | r in s'.rows ensures ShowsItsResult(s', r) {
      if r in s.rows && s'.rows[r].status == s.rows[r].status {
        SameOutcome(s, act, r);
      } else {
        NewOutcome(s, act, r);
      }
    }
  }

  lemma ExecutedEnd(s: System, a: AgentId, kind: Kind, world: AgentTask.World, figures: Option<int>)
    requires Inv(s) && Executed(s) && CanEnd(s, a, kind, world)
    ensures Executed(DoEnd(s, a, kind, world, figures))
  {
    var r := s.agents[a].worker.task.run;
    var p := OneResult(a, r, kind, world, figures);
    assert AgentOk(s.agents[a], a, s.handouts, s.posts);
    assert ShareOk(s.agents[a], a, r, s.handouts, s.posts);
    assert Handout(a, r) in s.handouts;
    var s' := DoEnd(s, a, kind, world, figures);
    forall k | 0 <= k < |s'.posts| ensures WasExecuted(s', s'.posts[k]) {
      assert k < |s.posts| ==> WasExecuted(s, s.posts[k]);
    }
  }

  lemma ExecutedStep(s: System, act: Action)
    requires Inv(s) && Executed(s) && Enabled(s, act)
    ensures Executed(Apply(s, act))
  {
    if act.RunEnds? {
      ExecutedEnd(s, act.agent, act.ended, act.world, act.figures);
    } else {
      SamePosts(s, act);
      forall k | 0 <= k < |s.posts| ensures WasExecuted(Apply(s, act), Apply(s, act).posts[k]) {
        assert WasExecuted(s, s.posts[k]);
        KindStays(s, act, s.posts[k].run);
      }
    }
  }

  lemma KindStays(s: System, act: Action, r: RunId)
    requires Enabled(s, act) && r in s.drawn
    ensures r in Apply(s, act).drawn
    ensures r in Apply(s, act).rows ==> r in s.rows && Apply(s, act).rows[r].kind == s.rows[r].kind
  {
    DrawnGrows(s, act);
    if r in Apply(s, act).rows {
      RowStep(s, act, r);
    }
  }

  lemma SamePosts(s: System, act: Action)
    requires Enabled(s, act) && !act.RunEnds?
    ensures PostsKept(s.posts, Apply(s, act).posts) && |Apply(s, act).posts| == |s.posts|
    ensures s.swept <= Apply(s, act).swept
  {
    if act.Deliver? {
      assert Apply(s, act) == DoDeliver(s, act.index);
    } else {
      UntouchedPosts(s, act);
    }
  }

  lemma UntouchedPosts(s: System, act: Action)
    requires Enabled(s, act) && !act.RunEnds? && !act.Deliver?
    ensures Apply(s, act).posts == s.posts && s.swept <= Apply(s, act).swept
  {
  }

  lemma {:induction false} ResultsRun(s: System, acts: seq<Action>)
    requires Inv(s) && ResultsShown(s) && Executed(s) && Executes(s, acts)
    ensures ResultsShown(After(s, acts)) && Executed(After(s, acts))
    decreases |acts|
  {
    if acts != [] {
      InvStep(s, acts[0]);
      ResultsShownStep(s, acts[0]);
      ExecutedStep(s, acts[0]);
      ResultsRun(Apply(s, acts[0]), acts[1..]);
    }
  }

  /**
   What a row shows is what was reported: in every reachable state a run shows
   success only if a processed result of the agent that ran it says so, and
   failure only if one says so or the queue timeout failed it. The figures are
   the reported ones.
   */
  lemma RecordedOutcome(s: System)
    requires Reachable(s)
    ensures ResultsShown(s) && Executed(s)
  {
    var init, acts :| Initial(init) && Executes(init, acts) && After(init, acts) == s;
    InvInitial(init);
    ResultsRun(init, acts);
  }

  /**
   From restic's exit code to the row: a backup shows success only if its
   scripts and init passed, restic exited with 0 or 3 and no cancel was seen up
   to the last look at the context; a restore or check only for a clean exit.
   */
  lemma SuccessIsReal(s: System, r: RunId) returns (k: nat)
    requires Reachable(s) && r in s.rows && s.rows[r].status == Success
    ensures Told(s, k, r, AgentTask.Success)
    ensures var w := s.posts[k].world;
            if s.rows[r].kind == Backup
            then AgentTask.BackupStagesPass(w) && !AgentTask.CancelledAt(w, AgentTask.AFTER_RETENTION)
            else AgentTask.Clean(w.restic) && !AgentTask.CancelledAt(w, AgentTask.AFTER_RESTIC)
  {
    RecordedOutcome(s);
    assert ShowsItsResult(s, r);
    k :| Told(s, k, r, AgentTask.Success);
    assert WasExecuted(s, s.posts[k]);
    AgentTask.BackupOutcome(s.posts[k].world);
    if s.rows[r].kind != Backup {
      AgentTask.OtherOutcomes(TaskOf(s.rows[r].kind), s.posts[k].world);
    }
  }

  /** A failed backup that did not wait too long failed in one of its stages. */
  lemma FailureIsReal(s: System, r: RunId) returns (k: nat)
    requires Reachable(s) && r in s.rows && s.rows[r].status == Failed && s.rows[r].kind == Backup && r !in s.swept
    ensures Told(s, k, r, AgentTask.Failed) && !AgentTask.BackupStagesPass(s.posts[k].world)
  {
    RecordedOutcome(s);
    assert ShowsItsResult(s, r);
    k :| Told(s, k, r, AgentTask.Failed);
    assert WasExecuted(s, s.posts[k]);
    AgentTask.BackupOutcome(s.posts[k].world);
  }

  // --- Failures are retried -----------------------------------------------------------------------

  /** The run is a backup with attempts left, and no other backup of its job is on its way. */
  ghost predicate HasAttempts(s: System, r: RunId) {
    && r in s.rows && s.rows[r].job in s.jobs && s.rows[r].kind == Backup
    && s.rows[r].attempt <= s.jobs[s.rows[r].job].retryMax
    && forall q :: q in s.rows && q != r && s.rows[q].job == s.rows[r].job && s.rows[q].kind == Backup ==>
                     s.rows[q].status != Queued && s.rows[q].status != Running
  }

  /** The row waits in the queue as the next attempt of `r`. */
  predicate Repeats(s: System, q: RunId, r: RunId) {
    && r in s.rows && s.rows[r].job in s.jobs
    && q in s.rows && s.rows[q].status == Queued && s.rows[q].kind == Backup && s.rows[q].retryOf == Some(r)
    && s.rows[q].job == s.rows[r].job && s.rows[q].trigger == s.rows[r].trigger
    && s.rows[q].attempt == s.rows[r].attempt + 1
    && s.rows[q].notBefore == Some(s.now + s.jobs[s.rows[r].job].retryDelay * 1000)
  }

  /** An update of the run alone leaves its attempts. */
  lemma AttemptsStay(s: System, s': System, r: RunId)
    requires HasAttempts(s, r) && s'.jobs == s.jobs && s'.rows.Keys == s.rows.Keys && SameIdentity(s.rows[r], s'.rows[r])
    requires forall q :: q in s.rows && q != r ==> s'.rows[q] == s.rows[q]
    ensures HasAttempts(s', r)
  {
    forall q | q in s'.rows && q != r && s'.rows[q].job == s'.rows[r].job && s'.rows[q].kind == Backup
      ensures s'.rows[q].status != Queued && s'.rows[q].status != Running
    {
      assert s'.rows[q] == s.rows[q];
    }
  }

  /** A finalization that has just begun queues the retry, if nothing comes in between. */
  lemma BegunRetries(s: System, i: nat, id: RunId) returns (acts: seq<Action>)
    requires Begins(s, i) && id !in s.drawn && id !in s.rows
    requires HasAttempts(s, s.finals[i].run) && s.rows[s.finals[i].run].status == Failed
    ensures Executes(s, acts)
    ensures var s', r := After(s, acts), s.finals[i].run;
            && r in s'.rows && s'.rows[r] == s.rows[r] && s'.jobs == s.jobs && s'.now == s.now && Repeats(s', id, r)
  {
    var r := s.finals[i].run;
    acts := RetrySteps(s, i, id);
    RetryIsSchedule(s, i, id);
    assert MayRetry(s.rows, s.jobs, r);
    RetryKeepsJobs(s, i, id);
  }

  lemma {:induction false} RetryKeepsJobs(s: System, i: nat, id: RunId)
    requires Begins(s, i) && id !in s.drawn && Executes(s, RetrySteps(s, i, id))
    ensures var s' := After(s, RetrySteps(s, i, id)); s'.jobs == s.jobs && s'.now == s.now
  {
    FinalizationsKeepJobs(s, RetrySteps(s, i, id));
  }

  lemma {:induction false} FinalizationsKeepJobs(s: System, acts: seq<Action>)
    requires Executes(s, acts) && forall n :: 0 <= n < |acts| ==> FinalizationStep(acts[n])
    ensures After(s, acts).jobs == s.jobs && After(s, acts).now == s.now
    decreases |acts|
  {
    if acts != [] {
      FinalizationKeepsJobs(s, acts[0]);
      FinalizationsKeepJobs(Apply(s, acts[0]), acts[1..]);
    }
  }

  lemma FinalizationKeepsJobs(s: System, act: Action)
    requires Enabled(s, act) && FinalizationStep(act)
    ensures Apply(s, act).jobs == s.jobs && Apply(s, act).now == s.now
  {
  }

  /**
   A reported failure is retried: the result of a running backup that failed
   with attempts left, and no other backup of the job on its way, leads to a
   queued next attempt that waits for the job's delay.
   */
  lemma FailureIsRetried(s: System, k: nat, id: RunId) returns (acts: seq<Action>)
    requires Reachable(s) && id !in s.drawn && k < |s.posts| && !s.posts[k].delivered
    requires s.posts[k].result.status == AgentTask.Failed && HasAttempts(s, s.posts[k].run)
    requires s.rows[s.posts[k].run].status == Running
    ensures Executes(s, acts)
    ensures var s', r := After(s, acts), s.posts[k].run;
            && r in s'.rows && s'.rows[r].status == Failed && s'.jobs == s.jobs && s'.now == s.now && Repeats(s', id, r)
  {
    InvReachable(s);
    var r, s1 := s.posts[k].run, DoDeliver(s, k);
    DeliverFails(s, k);
    OneStep(s, Deliver(k));
    var rest := BegunRetries(s1, |s.finals|, id);
    Concat(s, [Deliver(k)], rest);
    acts := [Deliver(k)] + rest;
  }

  lemma DeliverFails(s: System, k: nat)
    requires Inv(s) && k < |s.posts| && s.posts[k].result.status == AgentTask.Failed && HasAttempts(s, s.posts[k].run)
    requires s.rows[s.posts[k].run].status == Running
    ensures var s1, r := DoDeliver(s, k), s.posts[k].run;
            && HasAttempts(s1, r) && s1.rows[r].status == Failed
            && |s1.finals| == |s.finals| + 1 && s1.finals[|s.finals|] == Final(r, FromPost(k), Begun)
            && s1.jobs == s.jobs && s1.now == s.now && s1.drawn == s.drawn && s1.rows.Keys == s.rows.Keys
  {
    var r := s.posts[k].run;
    var agent := s.rows[r].agent.value;
    assert RowOk(s.rows[r], s.jobs, s.ceiling);
    assert Handout(agent, r) in s.handouts;
    SameHandout(s, agent, s.posts[k].agent, r);
    AttemptsStay(s, DoDeliver(s, k), r);
  }

  /** So is a failure of the queue timeout. */
  lemma TimeoutIsRetried(s: System, r: RunId, staleBefore: Time, id: RunId) returns (acts: seq<Action>)
    requires Reachable(s) && id !in s.drawn && Enabled(s, SweepRun(r, staleBefore)) && HasAttempts(s, r)
    ensures Executes(s, acts)
    ensures var s' := After(s, acts);
            && r in s'.rows && s'.rows[r].status == Failed && s'.jobs == s.jobs && s'.now == s.now && Repeats(s', id, r)
  {
    InvReachable(s);
    var s1 := DoSweep(s, r, staleBefore);
    SweepFails(s, r, staleBefore);
    OneStep(s, SweepRun(r, staleBefore));
    var rest := BegunRetries(s1, |s.finals|, id);
    Concat(s, [SweepRun(r, staleBefore)], rest);
    acts := [SweepRun(r, staleBefore)] + rest;
  }

  lemma SweepFails(s: System, r: RunId, staleBefore: Time)
    requires r in s.rows && Stale(s.rows[r], staleBefore) && HasAttempts(s, r)
    ensures var s1 := DoSweep(s, r, staleBefore);
            && HasAttempts(s1, r) && s1.rows[r].status == Failed
            && |s1.finals| == |s.finals| + 1 && s1.finals[|s.finals|] == Final(r, FromSweep, Begun)
            && s1.jobs == s.jobs && s1.now == s.now && s1.drawn == s.drawn && s1.rows.Keys == s.rows.Keys
  {
    AttemptsStay(s, DoSweep(s, r, staleBefore), r);
  }

  // --- Why a finalization ends in a notify call ------------------------------------------------------

  /** The finalization has not turned to the notify call. */
  predicate Silent(phase: Phase) {
    !phase.Notifying? && !(phase.Done? && phase.outcome.Notified?)
  }

  /**
   A step after which a finalization goes on to the notify call: it finds no
   failed backup with attempts left, or another backup on its way, or that the
   job or the run is gone, or it is one of a check, which is never retried.
   */
  ghost predicate Reason(s: System, act: Action, i: nat) {
    if i < |s.finals| then
      var r := s.finals[i].run;
      || (act == FinalRead(i) &&
          !(r in s.rows && s.rows[r].job in s.jobs && s.rows[r].kind == Backup && s.rows[r].status == Failed &&
            s.rows[r].attempt <= s.jobs[s.rows[r].job].retryMax))
      || (act == FinalActive(i) && s.finals[i].phase.Retriable? &&
          exists q :: q in s.rows && q != r && s.rows[q].job == s.finals[i].phase.job && s.rows[q].kind == Backup &&
                      (s.rows[q].status == Queued || s.rows[q].status == Running))
      || (act.FinalInsert? && act.index == i && s.finals[i].phase.Clear? &&
          (s.finals[i].phase.job !in s.jobs || r !in s.rows))
    else
      act.Deliver? && act.index < |s.posts| && s.posts[act.index].run in s.rows && s.rows[s.posts[act.index].run].kind == Check
  }

  lemma ReasonStep(s: System, act: Action, i: nat)
    requires Enabled(s, act) && i < |s.finals| && Silent(s.finals[i].phase)
    ensures i < |Apply(s, act).finals| && (Silent(Apply(s, act).finals[i].phase) || Reason(s, act, i))
  {
    if FinalizationStep(act) {
      if act.index == i {
        OwnStepReason(s, act, i);
      } else {
        OtherFinalStays(s, act, i);
      }
    } else {
      FinalsOnlyGrow(s, act);
    }
  }

  lemma OtherFinalStays(s: System, act: Action, i: nat)
    requires Enabled(s, act) && FinalizationStep(act) && i < |s.finals| && act.index != i
    ensures |Apply(s, act).finals| == |s.finals| && Apply(s, act).finals[i] == s.finals[i]
  {
  }

  lemma OwnStepReason(s: System, act: Action, i: nat)
    requires Enabled(s, act) && FinalizationStep(act) && act.index == i && i < |s.finals| && Silent(s.finals[i].phase)
    ensures i < |Apply(s, act).finals| && (Silent(Apply(s, act).finals[i].phase) || Reason(s, act, i))
  {
    match act
    case FinalRead(_) => assert Apply(s, act).finals[i].phase == PhaseRead(s, s.finals[i].run);
    case FinalActive(_) =>
      if OtherBackupActive(s, s.finals[i].run, s.finals[i].phase.job) {
        assert Reason(s, act, i);
      } else {
        assert Apply(s, act).finals[i].phase.Clear?;
      }
    case FinalInsert(_, id) => assert Apply(s, act) == DoInsertRetry(s, i, id);
    case FinalNotify(_) =>
    case FinalAbandon(_) => assert Apply(s, act).finals[i].phase.Abandoned?;
  }

  lemma NewFinalReason(s: System, act: Action, i: nat)
    requires Enabled(s, act) && |s.finals| <= i < |Apply(s, act).finals|
    ensures Silent(Apply(s, act).finals[i].phase) || Reason(s, act, i)
  {
    if act.Deliver? {
      assert Apply(s, act).finals[i] == Followup(s, act.index)[i - |s.finals|];
    } else if FinalizationStep(act) {
      FinalizationKeepsRuns(s, act);
    } else if act.SweepRun? {
      assert Apply(s, act).finals[i].phase == Begun;
    } else {
      NoNewFinal(s, act);
    }
  }

  lemma NoNewFinal(s: System, act: Action)
    requires Enabled(s, act) && !FinalizationStep(act) && !act.Deliver? && !act.SweepRun?
    ensures Apply(s, act).finals == s.finals
  {
  }

  /** Where a schedule is after its first `n` steps. */
  lemma {:induction false} Prefix(s: System, acts: seq<Action>, n: nat)
    requires Executes(s, acts) && n <= |acts|
    ensures Executes(s, acts[..n])
    ensures n < |acts| ==> Enabled(After(s, acts[..n]), acts[n])
    ensures n == |acts| && n > 0 ==>
              Executes(s, acts[..n - 1]) && Enabled(After(s, acts[..n - 1]), acts[n - 1]) &&
              After(s, acts) == Apply(After(s, acts[..n - 1]), acts[n - 1])
    decreases n
  {
    if n > 0 {
      Prefix(Apply(s, acts[0]), acts[1..], n - 1);
      assert acts[..n][1..] == acts[1..][..n - 1];
      if n == 1 {
        assert acts[..0] == [] && acts[..1][1..] == [];
      } else {
        assert acts[..n - 1][1..] == acts[1..][..n - 2];
      }
    }
  }

  /** The `n`-th step of the schedule is why finalization `i` goes on to the notify call. */
  ghost predicate Explains(s: System, acts: seq<Action>, n: nat, i: nat)
    requires Executes(s, acts)
  {
    n < |acts| && Executes(s, acts[..n]) && Reason(After(s, acts[..n]), acts[n], i)
  }

  /**
   No failure is announced that could have been retried: over every schedule, a
   finalization that ended in the notify call, or is about to, has a step that
   explains it.
   */
  lemma {:induction false} NotifiedForAReason(init: System, acts: seq<Action>, i: nat)
    requires Initial(init) && Executes(init, acts) && i < |After(init, acts).finals|
    ensures Silent(After(init, acts).finals[i].phase) || exists n: nat :: Explains(init, acts, n, i)
    decreases |acts|
  {
    if acts != [] {
      var m := |acts| - 1;
      Prefix(init, acts, |acts|);
      var s := After(init, acts[..m]);
      LastStepExplains(init, acts, i);
      if i < |s.finals| && !Silent(s.finals[i].phase) {
        NotifiedForAReason(init, acts[..m], i);
        var n: nat :| Explains(init, acts[..m], n, i);
        ExplainsLonger(init, acts, m, n, i);
      }
    }
  }

  lemma {:induction false} ExplainsLonger(init: System, acts: seq<Action>, m: nat, n: nat, i: nat)
    requires Executes(init, acts) && m <= |acts| && Executes(init, acts[..m]) && Explains(init, acts[..m], n, i)
    ensures Explains(init, acts, n, i)
  {
    assert acts[..m][..n] == acts[..n];
  }

  lemma {:induction false} LastStepExplains(init: System, acts: seq<Action>, i: nat)
    requires acts != [] && Executes(init, acts) && i < |After(init, acts).finals|
    ensures var m := |acts| - 1;
            && Executes(init, acts[..m])
            && var s := After(init, acts[..m]);
               i >= |s.finals| || Silent(s.finals[i].phase) ==>
                 Silent(After(init, acts).finals[i].phase) || Explains(init, acts, m, i)
  {
    var m := |acts| - 1;
    Prefix(init, acts, |acts|);
    var s := After(init, acts[..m]);
    if i >= |s.finals| {
      NewFinalReason(s, acts[m], i);
    } else if Silent(s.finals[i].phase) {
      ReasonStep(s, acts[m], i);
    }
  }

  /** A backup of the job that is already on its way makes a retry redundant. */
  lemma RetryIsRedundant(s: System, i: nat, q: RunId)
    requires FoundRetriable(s, i) && q in s.rows && q != s.finals[i].run
    requires s.rows[q].job == s.finals[i].phase.job && s.rows[q].kind == Backup
    requires s.rows[q].status == Queued || s.rows[q].status == Running
    ensures Enabled(s, FinalActive(i)) && i < |Apply(s, FinalActive(i)).finals|
    ensures Apply(s, FinalActive(i)).finals[i].phase.Notifying?
  {
    assert OtherBackupActive(s, s.finals[i].run, s.finals[i].phase.job);
  }

  /** The notify call is delivered exactly for a run that shows success or failure then. */
  lemma NotifyDelivers(s: System, i: nat)
    requires MayNotify(s, i)
    ensures var r := s.finals[i].run;
            && Enabled(s, FinalNotify(i)) && i < |Apply(s, FinalNotify(i)).finals|
            && Apply(s, FinalNotify(i)).finals[i].phase ==
               Done(Notified(r in s.rows && (s.rows[r].status == Success || s.rows[r].status == Failed)))
  {
  }

  // --- A run from the queue to its outcome ------------------------------------------------------------

  /** Moves an agent can make one after the other without the run protocol taking part. */
  predicate OwnMoves(agent: AgentQueue.Agent, moves: seq<AgentQueue.Action>)
    decreases |moves|
  {
    moves == [] || (OwnMove(agent, moves[0]) && OwnMoves(AgentQueue.Step(agent, moves[0]), moves[1..]))
  }

  function Moved(agent: AgentQueue.Agent, moves: seq<AgentQueue.Action>): AgentQueue.Agent
    requires OwnMoves(agent, moves)
    decreases |moves|
  {
    if moves == [] then agent else Moved(AgentQueue.Step(agent, moves[0]), moves[1..])
  }

  lemma {:induction false} AgentRuns(s: System, a: AgentId, moves: seq<AgentQueue.Action>) returns (acts: seq<Action>)
    requires a in s.agents && OwnMoves(s.agents[a], moves)
    ensures Executes(s, acts) && After(s, acts) == s.(agents := s.agents[a := Moved(s.agents[a], moves)])
    decreases |moves|
  {
    acts := [];
    if moves == [] {
      assert s.agents[a := s.agents[a]] == s.agents;
    } else {
      var s1 := MoveAgent(s, a, moves[0]);
      var rest := AgentRuns(s1, a, moves[1..]);
      Prepend(s, AgentMoves(a, moves[0]), rest);
      acts := [AgentMoves(a, moves[0])] + rest;
      assert s.agents[a := s1.agents[a]][a := Moved(s.agents[a], moves)] == s.agents[a := Moved(s.agents[a], moves)];
    }
  }

  /** An agent with nothing to do. */
  function Idle(): AgentQueue.Agent {
    AgentQueue.New()
  }

  function Awaits(reply: seq<AgentQueue.TaskId>): AgentQueue.Agent {
    Idle().(loop := AgentQueue.Awaiting(reply))
  }

  function Works(t: AgentQueue.TaskId): AgentQueue.Agent {
    AgentQueue.Agent(AgentQueue.Sleeping, {t}, 1, multiset{}, [], AgentQueue.Running(t, false))
  }

  lemma {:induction false} OneMove(agent: AgentQueue.Agent, move: AgentQueue.Action, rest: seq<AgentQueue.Action>)
    requires OwnMove(agent, move) && OwnMoves(AgentQueue.Step(agent, move), rest)
    ensures OwnMoves(agent, [move] + rest) && Moved(agent, [move] + rest) == Moved(AgentQueue.Step(agent, move), rest)
  {
    assert ([move] + rest)[1..] == rest;
  }

  /** What the agent is after it enqueued a task: a sender has it. */
  function Sends(t: AgentQueue.TaskId): AgentQueue.Agent {
    AgentQueue.Agent(AgentQueue.Sleeping, {t}, 1, multiset{t}, [], AgentQueue.Ready)
  }

  lemma Enqueues(t: AgentQueue.TaskId) returns (moves: seq<AgentQueue.Action>)
    ensures OwnMoves(Awaits([t]), moves) && Moved(Awaits([t]), moves) == Sends(t)
  {
    var a1 := Awaits([t]).(loop := AgentQueue.Enqueueing([t]));
    var a2 := a1.(loop := AgentQueue.Marked(t, []), inflight := {t});
    var a3 := a2.(loop := AgentQueue.Counted(t, []), active := 1);
    var a4 := a3.(loop := AgentQueue.Enqueueing([]), senders := multiset{t});
    assert AgentQueue.Step(Awaits([t]), AgentQueue.ReplyArrives) == a1;
    assert [t][1..] == [] && {} + {t} == {t};
    assert AgentQueue.Step(a1, AgentQueue.EnterInflight) == a2;
    assert AgentQueue.Step(a2, AgentQueue.CountActive) == a3;
    assert AgentQueue.Step(a3, AgentQueue.SpawnSender) == a4;
    assert AgentQueue.Step(a4, AgentQueue.LoadActive) == Sends(t);
    moves := [];
    OneMove(a4, AgentQueue.LoadActive, moves);
    moves := [AgentQueue.LoadActive] + moves;
    OneMove(a3, AgentQueue.SpawnSender, moves);
    moves := [AgentQueue.SpawnSender] + moves;
    OneMove(a2, AgentQueue.CountActive, moves);
    moves := [AgentQueue.CountActive] + moves;
    OneMove(a1, AgentQueue.EnterInflight, moves);
    moves := [AgentQueue.EnterInflight] + moves;
    OneMove(Awaits([t]), AgentQueue.ReplyArrives, moves);
    moves := [AgentQueue.ReplyArrives] + moves;
  }

  lemma ReachesWorker(t: AgentQueue.TaskId) returns (moves: seq<AgentQueue.Action>)
    ensures OwnMoves(Sends(t), moves) && Moved(Sends(t), moves) == Works(t)
  {
    var a6 := Sends(t).(senders := multiset{}, channel := [t]);
    assert AgentQueue.Step(Sends(t), AgentQueue.Send(t)) == a6;
    assert AgentQueue.Step(a6, AgentQueue.Take) == Works(t);
    moves := [];
    OneMove(a6, AgentQueue.Take, moves);
    moves := [AgentQueue.Take] + moves;
    OneMove(Sends(t), AgentQueue.Send(t), moves);
    moves := [AgentQueue.Send(t)] + moves;
  }

  /** The run is due for this agent. */
  predicate Waits(s: System, a: AgentId, r: RunId) {
    && r in s.rows && s.rows[r].status == Queued && (s.rows[r].kind == Restore ==> s.rows[r].agent == Some(a))
    && (s.rows[r].notBefore.Some? ==> s.rows[r].notBefore.value <= s.now)
  }

  /** An idle agent polls and the run is put into the reply. */
  lemma IsHanded(s: System, a: AgentId, r: RunId) returns (acts: seq<Action>)
    requires a in s.agents && s.agents[a] == Idle() && Waits(s, a, r)
    ensures Executes(s, acts)
    ensures After(s, acts) == s.(rows := s.rows[r := s.rows[r].(status := Running, agent := Some(a))],
                                 handouts := s.handouts + [Handout(a, r)],
                                 agents := s.agents[a := Awaits([AgentQueue.RunTask(r)])])
  {
    var poll, claim := AgentMoves(a, AgentQueue.StartPoll), ClaimRun(a, r, true);
    var s1 := s.(agents := s.agents[a := Awaits([])]);
    assert Apply(s, poll) == s1;
    assert [] + [AgentQueue.RunTask(r)] == [AgentQueue.RunTask(r)];
    assert Apply(s1, claim) == DoClaim(s1, a, r, true);
    TwoSteps(s, poll, claim);
    acts := [poll, claim];
  }

  /** An idle agent polls, is handed the run and begins to execute it. */
  lemma RunStarts(s: System, a: AgentId, r: RunId) returns (acts: seq<Action>)
    requires a in s.agents && s.agents[a] == Idle() && Waits(s, a, r)
    ensures Executes(s, acts)
    ensures var t := AgentQueue.RunTask(r);
            After(s, acts) == s.(rows := s.rows[r := s.rows[r].(status := Running, agent := Some(a))],
                                 handouts := s.handouts + [Handout(a, r)], agents := s.agents[a := Works(t)])
  {
    var t := AgentQueue.RunTask(r);
    acts := IsHanded(s, a, r);
    var moves := Enqueues(t);
    var enqueue := AgentRuns(After(s, acts), a, moves);
    Concat(s, acts, enqueue);
    acts := acts + enqueue;
    moves := ReachesWorker(t);
    var begin := AgentRuns(After(s, acts), a, moves);
    Concat(s, acts, begin);
    acts := acts + begin;
  }

  /** What executing a run of this kind in this world comes to, when no cancel is seen. */
  predicate Succeeds(kind: Kind, world: AgentTask.World) {
    if kind == Backup then AgentTask.BackupStagesPass(world) else AgentTask.Clean(world.restic)
  }

  /**
   A run can be carried through: from every state in which an idle agent can be
   handed a run that waits for it, some schedule executes it in any world and
   ends with a row that shows what happened there, and the reported figures.
   */
  lemma RunCompletes(s: System, a: AgentId, r: RunId, world: AgentTask.World, figures: Option<int>) returns (acts: seq<Action>)
    requires a in s.agents && s.agents[a] == Idle() && Waits(s, a, r) && world.cancel.Never?
    ensures Executes(s, acts)
    ensures var s' := After(s, acts);
            && r in s'.rows && s'.rows[r].status == (if Succeeds(s.rows[r].kind, world) then Success else Failed)
            && s'.rows[r].finishedAt == Some(s.now) && s'.rows[r].agent == Some(a)
            && s'.rows[r].stats == if s.rows[r].kind == Check then s.rows[r].stats else figures
  {
    acts := RunStarts(s, a, r);
    var rest := RunReports(After(s, acts), a, r, world, figures);
    Concat(s, acts, rest);
    acts := acts + rest;
  }

  /** The run an agent executes ends, and its result arrives. */
  lemma RunReports(s: System, a: AgentId, r: RunId, world: AgentTask.World, figures: Option<int>) returns (acts: seq<Action>)
    requires a in s.agents && s.agents[a] == Works(AgentQueue.RunTask(r)) && world.cancel.Never?
    requires r in s.rows && s.rows[r].status == Running && s.rows[r].agent == Some(a)
    ensures Executes(s, acts)
    ensures var s', kind := After(s, acts), s.rows[r].kind;
            && r in s'.rows && s'.rows[r].status == (if Succeeds(kind, world) then Success else Failed)
            && s'.rows[r].finishedAt == Some(s.now) && s'.rows[r].agent == Some(a)
            && s'.rows[r].stats == if kind == Check then s.rows[r].stats else figures
  {
    var kind, k := s.rows[r].kind, |s.posts|;
    var p := OneResult(a, r, kind, world, figures);
    var ended := RunEnds(a, kind, world, figures);
    var s1 := DoEnd(s, a, kind, world, figures);
    assert Apply(s, ended) == s1 && s1.posts[k] == p;
    WhatIsPosted(kind, world, p.result);
    assert Apply(s1, Deliver(k)) == DoDeliver(s1, k);
    TwoSteps(s, ended, Deliver(k));
    acts := [ended, Deliver(k)];
  }

  lemma WhatIsPosted(kind: Kind, world: AgentTask.World, result: AgentTask.Result)
    requires AgentTask.TaskResults(TaskOf(kind), world) == [result] && world.cancel.Never?
    ensures result.status == if Succeeds(kind, world) then AgentTask.Success else AgentTask.Failed
  {
    AgentTask.BackupOutcome(world);
    if kind != Backup {
      AgentTask.OtherOutcomes(TaskOf(kind), world);
    }
  }

  /** A new run waits in the queue as a first attempt, due at once. */
  lemma InsertedWaits(s: System, id: RunId, j: JobId, kind: Kind, trigger: Trigger, host: Option<AgentId>, a: AgentId)
    requires Enabled(s, Insert(id, j, kind, trigger, host)) && (kind == Restore ==> host == Some(a))
    ensures var s' := Apply(s, Insert(id, j, kind, trigger, host));
            && Waits(s', a, id) && s'.rows[id].job == j && s'.rows[id].kind == kind && s'.rows[id].trigger == trigger
            && s'.rows[id].attempt == 1 && s'.rows[id].retryOf == None && s'.rows[id].created == s.now
            && s'.rows[id].finishedAt == None && s'.rows[id].stats == None
  {
  }

  /** A deleted job takes its backups and checks along, and nothing else. */
  lemma DeletedJob(s: System, j: JobId)
    requires Enabled(s, DeleteJob(j))
    ensures var s' := Apply(s, DeleteJob(j));
            && s'.jobs == s.jobs - {j}
            && (forall r :: r in s'.rows <==> r in s.rows && (s.rows[r].job != j || s.rows[r].kind == Restore))
            && (forall r :: r in s'.rows ==> s'.rows[r] == s.rows[r])
  {
  }

  // --- A cancel reaches the agent ------------------------------------------------------------------------

  /**
   A cancel reaches the agent that executes the run: it may ask at any time, the
   answer cancels the context, and a run whose context is cancelled from the
   start posts that it was cancelled.
   */
  lemma CancelReaches(s: System, a: AgentId, world: AgentTask.World, figures: Option<int>, kind: Kind) returns (acts: seq<Action>)
    requires Reachable(s) && Executing(s, a) && TaskCancelled(s, s.agents[a].worker.task.run)
    requires world.cancel == AgentTask.From(AgentTask.BEFORE_START)
    requires s.agents[a].worker.task.run in s.rows ==> s.rows[s.agents[a].worker.task.run].kind == kind
    ensures Executes(s, acts) && Executing(After(s, acts), a) && After(s, acts).agents[a].worker.cancelled
    ensures Enabled(After(s, acts), RunEnds(a, kind, world, figures))
    ensures var s' := Apply(After(s, acts), RunEnds(a, kind, world, figures));
            && |s'.posts| == |s.posts| + 1
            && s'.posts[|s.posts|].run == s.agents[a].worker.task.run
            && s'.posts[|s.posts|].result.status == AgentTask.Cancelled
  {
    var r := s.agents[a].worker.task.run;
    acts := LearnsOfCancel(s, a);
    var s1 := After(s, acts);
    var p := OneResult(a, r, kind, world, figures);
    assert AgentTask.TaskResults(TaskOf(kind), world)[0].status == AgentTask.Cancelled;
    assert Apply(s1, RunEnds(a, kind, world, figures)).posts == s1.posts + [p];
  }

  /** An agent may ask about the run it executes. */
  lemma MayAsk(s: System, a: AgentId)
    requires Inv(s) && Executing(s, a)
    ensures CanAsk(s, a, s.agents[a].worker.task.run)
  {
    var r := s.agents[a].worker.task.run;
    assert AgentOk(s.agents[a], a, s.handouts, s.posts);
    assert ShareOk(s.agents[a], a, r, s.handouts, s.posts);
    assert Handout(a, r) in s.handouts;
  }

  lemma LearnsOfCancel(s: System, a: AgentId) returns (acts: seq<Action>)
    requires Reachable(s) && Executing(s, a) && TaskCancelled(s, s.agents[a].worker.task.run)
    ensures Executes(s, acts)
    ensures var s', worker := After(s, acts), s.agents[a].worker;
            && s'.rows == s.rows && s'.posts == s.posts && a in s'.agents
            && s'.agents[a].worker == AgentQueue.Running(worker.task, true)
  {
    InvReachable(s);
    MayAsk(s, a);
    var r := s.agents[a].worker.task.run;
    var ask, answer := AskState(a, r), Answer(a, r, true);
    var s1 := s.(answers := s.answers + {answer});
    assert Apply(s, ask) == s1;
    assert Apply(s1, AnswerArrives(answer)) == MoveAgent(s1, a, AgentQueue.CancelContext);
    TwoSteps(s, ask, AnswerArrives(answer));
    acts := [ask, AnswerArrives(answer)];
  }
}
