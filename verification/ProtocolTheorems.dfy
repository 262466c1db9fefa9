/**
 What the run protocol guarantees, over every schedule of server, agents,
 operators and timers.
 */
module ProtocolTheorems {
  import opened Wrappers
  import AgentQueue
  import AgentTask
  import opened RunRows
  import opened Protocol
  import opened ProtocolInvariant

  // --- At most one handout ------------------------------------------------------

  /** Over all polls of all agents a run is handed out at most once, whatever became of the reply. */
  lemma AtMostOneHandout(s: System)
    requires Reachable(s)
    ensures forall i, j :: 0 <= i < j < |s.handouts| ==> s.handouts[i].run != s.handouts[j].run
    ensures forall i :: 0 <= i < |s.handouts| && s.handouts[i].run in s.rows ==>
              s.rows[s.handouts[i].run].status != Queued && s.rows[s.handouts[i].run].agent == Some(s.handouts[i].agent)
  {
    InvReachable(s);
    forall i | 0 <= i < |s.handouts| ensures s.handouts[i] in s.handouts {}
  }

  /** The dedupe of `enqueue` never drops a run: what an agent is about to enqueue is not in flight there. */
  lemma DedupeDropsNoRun(s: System, a: AgentId, r: RunId)
    requires Reachable(s) && a in s.agents && s.agents[a].loop.Enqueueing?
    requires s.agents[a].loop.rest != [] && s.agents[a].loop.rest[0] == AgentQueue.RunTask(r)
    ensures AgentQueue.RunTask(r) !in s.agents[a].inflight
  {
    InvReachable(s);
    var agent, t := s.agents[a], AgentQueue.RunTask(r);
    assert AgentOk(agent, a, s.handouts, s.posts);
    assert ShareOk(agent, a, r, s.handouts, s.posts);
    assert AgentQueue.Tracked(agent, t) == if t in agent.inflight then 1 else 0;
    assert AgentQueue.Occurs(t, agent.loop.rest) >= 1;
  }

  /** Each run posts at most one result, and no agent holds a run that has posted. */
  lemma AtMostOneResult(s: System)
    requires Reachable(s)
    ensures forall i, j :: 0 <= i < j < |s.posts| ==> s.posts[i].run != s.posts[j].run
    ensures forall a, i :: a in s.agents && 0 <= i < |s.posts| ==>
              AgentQueue.Held(s.agents[a], AgentQueue.RunTask(s.posts[i].run)) == 0
  {
    InvReachable(s);
    forall a, i | a in s.agents && 0 <= i < |s.posts|
      ensures AgentQueue.Held(s.agents[a], AgentQueue.RunTask(s.posts[i].run)) == 0
    {
      assert AgentOk(s.agents[a], a, s.handouts, s.posts);
      assert ShareOk(s.agents[a], a, s.posts[i].run, s.handouts, s.posts);
    }
  }

  // --- Rows over time -------------------------------------------------------------

  lemma RowStep(s: System, act: Action, r: RunId)
    requires Enabled(s, act) && r in s.rows && r in Apply(s, act).rows && r in s.drawn
    ensures Evolves(s.rows[r], Apply(s, act).rows[r])
  {
    if act.ClaimRun? || act.Deliver? || act.ProgressArrives? || act.SweepRun? || act.CancelLands? {
      UpdateStep(s, act);
    } else {
      UntouchedRow(s, act, r);
    }
  }

  lemma UpdateStep(s: System, act: Action)
    requires Enabled(s, act)
    requires act.ClaimRun? || act.Deliver? || act.ProgressArrives? || act.SweepRun? || act.CancelLands?
    ensures Updated(s.rows, Apply(s, act).rows)
  {
    match act
    case ClaimRun(a, q, _) => ClaimEvolves(s.rows, q, a);
    case Deliver(k) =>
      var p := s.posts[k];
      ReportEvolves(s.rows, p.run, p.agent, p.result.status, p.stats, s.now);
    case ProgressArrives(a, q, v) => ProgressEvolves(s.rows, q, a, v);
    case SweepRun(q, staleBefore) => ExpireEvolves(s.rows, q, staleBefore, s.now);
    case CancelLands(q) => CancelWriteEvolves(s.rows, q, s.now);
  }

  lemma UntouchedRow(s: System, act: Action, r: RunId)
    requires Enabled(s, act) && r in s.rows && r in Apply(s, act).rows && r in s.drawn
    requires !(act.ClaimRun? || act.Deliver? || act.ProgressArrives? || act.SweepRun? || act.CancelLands?)
    ensures Apply(s, act).rows[r] == s.rows[r]
  {
  }

  lemma DrawnGrows(s: System, act: Action)
    requires Enabled(s, act)
    ensures s.drawn <= Apply(s, act).drawn
    ensures forall r :: r in s.drawn && r !in s.rows ==> r !in Apply(s, act).rows
  {
    if act.ClaimRun? || act.Deliver? || act.ProgressArrives? || act.SweepRun? || act.CancelLands? {
      UpdateStep(s, act);
      DrawnStays(s, act);
    } else if act.FinalInsert? {
      assert Apply(s, act).rows.Keys <= s.rows.Keys + {act.id};
    }
  }

  lemma DrawnStays(s: System, act: Action)
    requires Enabled(s, act) && !act.Insert? && !act.FinalInsert?
    ensures Apply(s, act).drawn == s.drawn
  {
  }

  /** A deleted run never comes back, and the columns that identify a run never change. */
  lemma {:induction false} RowsOverTime(s: System, acts: seq<Action>, r: RunId)
    requires Inv(s) && Executes(s, acts) && r in s.drawn
    ensures r in After(s, acts).rows ==> r in s.rows && SameIdentity(s.rows[r], After(s, acts).rows[r])
    ensures r in After(s, acts).rows && s.rows[r].status != Queued ==>
              After(s, acts).rows[r].status != Queued && After(s, acts).rows[r].agent == s.rows[r].agent
    decreases |acts|
  {
    if acts != [] {
      var s1 := Apply(s, acts[0]);
      InvStep(s, acts[0]);
      DrawnGrows(s, acts[0]);
      RowsOverTime(s1, acts[1..], r);
      if r in After(s, acts).rows {
        RowStep(s, acts[0], r);
      }
    }
  }

  // --- Cancel agreement -------------------------------------------------------------

  /**
   Under any delay of messages, an agent's context is cancelled, and a
   `cancelled` result is on its way, only for a run the server has cancelled or
   deleted before. So a `cancelled` result never decides anything: the row it
   finds is cancelled already.
   */
  lemma CancelAgreement(s: System)
    requires Reachable(s)
    ensures forall a :: Executing(s, a) && s.agents[a].worker.cancelled ==>
              TaskCancelled(s, s.agents[a].worker.task.run)
    ensures forall k :: 0 <= k < |s.posts| && s.posts[k].result.status == AgentTask.Cancelled ==>
              TaskCancelled(s, s.posts[k].run) &&
              (s.posts[k].run in s.rows ==>
                 DoDeliver(s, k).rows[s.posts[k].run] == s.rows[s.posts[k].run])
  {
    InvReachable(s);
    forall a | Executing(s, a) && s.agents[a].worker.cancelled
      ensures TaskCancelled(s, s.agents[a].worker.task.run)
    {
      assert ContextOk(s.rows, s.drawn, s.agents[a].worker);
    }
    forall k | 0 <= k < |s.posts| && s.posts[k].result.status == AgentTask.Cancelled && s.posts[k].run in s.rows
      ensures DoDeliver(s, k).rows[s.posts[k].run] == s.rows[s.posts[k].run]
    {
      assert Gone(s.rows, s.drawn, s.posts[k].run);
      assert RowOk(s.rows[s.posts[k].run], s.jobs, s.ceiling);
    }
  }

  /** A run once cancelled stays cancelled and never shows new figures, whatever arrives afterwards. */
  lemma {:induction false} CancelledIsForever(s: System, acts: seq<Action>, r: RunId)
    requires Inv(s) && Executes(s, acts) && r in s.rows && s.rows[r].status == Cancelled
    ensures var s' := After(s, acts);
            && TaskCancelled(s', r)
            && (r in s'.rows ==> s'.rows[r].stats == s.rows[r].stats)
    decreases |acts|
  {
    if acts != [] {
      var s1 := Apply(s, acts[0]);
      InvStep(s, acts[0]);
      DrawnGrows(s, acts[0]);
      if r in s1.rows {
        RowStep(s, acts[0], r);
        CancelledIsForever(s1, acts[1..], r);
      } else {
        RowsOverTime(s1, acts[1..], r);
      }
    }
  }

  // --- Terminal rows ------------------------------------------------------------------

  /** Only a result of the agent that claimed it, or an operator's cancel, takes a run out of `running`. */
  lemma WhoEndsARun(s: System, act: Action, r: RunId)
    requires Reachable(s) && Enabled(s, act) && r in s.rows && s.rows[r].status == Running
    requires r in Apply(s, act).rows && Apply(s, act).rows[r].status != Running
    ensures act == CancelLands(r) ||
            (act.Deliver? && s.posts[act.index].run == r && s.rows[r].agent == Some(s.posts[act.index].agent) &&
             Handout(s.posts[act.index].agent, r) in s.handouts)
  {
    InvReachable(s);
    assert RowOk(s.rows[r], s.jobs, s.ceiling);
    RunningRowStep(s, act, r);
    if act.Deliver? {
      assert Handout(s.posts[act.index].agent, s.posts[act.index].run) in s.handouts;
    }
  }

  lemma RunningRowStep(s: System, act: Action, r: RunId)
    requires Enabled(s, act) && r in s.rows && r in Apply(s, act).rows && r in s.drawn
    requires s.rows[r].status == Running
    ensures Apply(s, act).rows[r].status != Running ==>
              act == CancelLands(r) ||
              (act.Deliver? && s.posts[act.index].run == r && s.rows[r].agent == Some(s.posts[act.index].agent))
  {
    if act.ClaimRun? || act.Deliver? || act.ProgressArrives? || act.SweepRun? || act.CancelLands? {
      if act.Deliver? {
        RunningRowReport(s, act.index, r);
      } else {
        RunningRowUpdate(s, act, r);
      }
    } else {
      UntouchedRow(s, act, r);
    }
  }

  lemma RunningRowUpdate(s: System, act: Action, r: RunId)
    requires Enabled(s, act) && r in s.rows && s.rows[r].status == Running
    requires act.ClaimRun? || act.ProgressArrives? || act.SweepRun? || act.CancelLands?
    ensures r in Apply(s, act).rows && (act != CancelLands(r) ==> Apply(s, act).rows[r].status == Running)
  {
    match act
    case ClaimRun(a, q, live) => assert DoClaim(s, a, q, live).rows[r] == s.rows[r];
    case ProgressArrives(_, _, _) =>
    case SweepRun(_, _) =>
    case CancelLands(_) =>
  }

  lemma RunningRowReport(s: System, k: nat, r: RunId)
    requires k < |s.posts| && r in s.rows
    ensures DoDeliver(s, k).rows[r] != s.rows[r] ==> s.posts[k].run == r && s.rows[r].agent == Some(s.posts[k].agent)
  {
  }

  /** No continuation changes the status recorded for `r`; only a deletion removes it. */
  ghost predicate StatusFrozen(s: System, r: RunId)
    requires r in s.rows
  {
    forall acts: seq<Action> :: Executes(s, acts) && r in After(s, acts).rows ==>
      After(s, acts).rows[r].status == s.rows[r].status
  }

  ghost predicate FinishTimeFrozen(s: System, r: RunId)
    requires r in s.rows
  {
    forall acts: seq<Action> :: Executes(s, acts) && r in After(s, acts).rows ==>
      After(s, acts).rows[r].finishedAt == s.rows[r].finishedAt
  }

  /** A finished row is only ever touched by an operator's cancel. */
  lemma FinishedRowStep(s: System, act: Action, r: RunId)
    requires Enabled(s, act) && r in s.rows && r in Apply(s, act).rows && r in s.drawn
    requires Terminal(s.rows[r].status) && Coherent(s.rows[r])
    ensures act != CancelLands(r) ==> Apply(s, act).rows[r] == s.rows[r]
  {
    if act.ClaimRun? || act.Deliver? || act.ProgressArrives? || act.SweepRun? || act.CancelLands? {
      if act.Deliver? {
        FinishedRowReport(s, act.index, r);
      } else {
        FinishedRowUpdate(s, act, r);
      }
    } else {
      UntouchedRow(s, act, r);
    }
  }

  lemma FinishedRowUpdate(s: System, act: Action, r: RunId)
    requires Enabled(s, act) && r in s.rows && Terminal(s.rows[r].status)
    requires act.ClaimRun? || act.ProgressArrives? || act.SweepRun? || act.CancelLands?
    ensures r in Apply(s, act).rows && (act != CancelLands(r) ==> Apply(s, act).rows[r] == s.rows[r])
  {
    match act
    case ClaimRun(a, q, live) => assert DoClaim(s, a, q, live).rows[r] == s.rows[r];
    case ProgressArrives(_, _, _) =>
    case SweepRun(_, _) =>
    case CancelLands(_) =>
  }

  lemma FinishedRowReport(s: System, k: nat, r: RunId)
    requires k < |s.posts| && r in s.rows && Terminal(s.rows[r].status) && Coherent(s.rows[r])
    ensures DoDeliver(s, k).rows[r] == s.rows[r]
  {
  }

  lemma TerminalStep(s: System, act: Action, r: RunId)
    requires Inv(s) && Enabled(s, act) && r in s.rows && Terminal(s.rows[r].status) && r in Apply(s, act).rows
    requires s.rows[r].kind == Restore || r !in s.cancels
    ensures Apply(s, act).rows[r] == s.rows[r]
    ensures s.rows[r].kind == Restore || r !in Apply(s, act).cancels
  {
    assert RowOk(s.rows[r], s.jobs, s.ceiling);
    FinishedRowStep(s, act, r);
    CancelsStep(s, act, r);
  }

  lemma CancelsStep(s: System, act: Action, r: RunId)
    requires Enabled(s, act) && r in s.rows && Terminal(s.rows[r].status)
    ensures r in Apply(s, act).cancels ==> r in s.cancels
  {
  }

  lemma {:induction false} TerminalRun(s: System, acts: seq<Action>, r: RunId)
    requires Inv(s) && Executes(s, acts) && r in s.rows && Terminal(s.rows[r].status)
    requires s.rows[r].kind == Restore || r !in s.cancels
    ensures r in After(s, acts).rows ==>
              After(s, acts).rows[r].status == s.rows[r].status && After(s, acts).rows[r].finishedAt == s.rows[r].finishedAt
    decreases |acts|
  {
    if acts != [] {
      var s1 := Apply(s, acts[0]);
      InvStep(s, acts[0]);
      DrawnGrows(s, acts[0]);
      if r in s1.rows {
        TerminalStep(s, acts[0], r);
        TerminalRun(s1, acts[1..], r);
      } else {
        RowsOverTime(s1, acts[1..], r);
      }
    }
  }

  lemma {:induction false} OneStep(s: System, act: Action)
    requires Enabled(s, act)
    ensures Executes(s, [act]) && After(s, [act]) == Apply(s, act)
  {
  }

  lemma {:induction false} TwoSteps(s: System, act: Action, act': Action)
    requires Enabled(s, act) && Enabled(Apply(s, act), act')
    ensures Executes(s, [act, act']) && After(s, [act, act']) == Apply(Apply(s, act), act')
  {
    OneStep(Apply(s, act), act');
    assert [act, act'][1..] == [act'];
  }

  /**
   When an outcome is final: the status of a finished run can still change
   exactly if it is a backup or check that shows success or failure while an
   operator's cancel is between its check and its write. The cancel of a
   restore is guarded and never replaces an outcome.
   */
  lemma OutcomeIsFinalIff(s: System, r: RunId)
    requires Reachable(s) && r in s.rows && Terminal(s.rows[r].status)
    ensures StatusFrozen(s, r) <==> s.rows[r].kind == Restore || s.rows[r].status == Cancelled || r !in s.cancels
  {
    InvReachable(s);
    if s.rows[r].kind == Restore || r !in s.cancels {
      forall acts: seq<Action> | Executes(s, acts) && r in After(s, acts).rows
        ensures After(s, acts).rows[r].status == s.rows[r].status
      {
        TerminalRun(s, acts, r);
      }
    } else if s.rows[r].status == Cancelled {
      forall acts: seq<Action> | Executes(s, acts) && r in After(s, acts).rows
        ensures After(s, acts).rows[r].status == s.rows[r].status
      {
        CancelledIsForever(s, acts, r);
      }
    } else {
      OneStep(s, CancelLands(r));
      assert After(s, [CancelLands(r)]).rows[r].status == Cancelled;
    }
  }

  /** A recorded finish time is final exactly if the run is a restore or no cancel is about to be written. */
  lemma FinishTimeIsFinalIff(s: System, r: RunId)
    requires Reachable(s) && r in s.rows && Terminal(s.rows[r].status)
    ensures FinishTimeFrozen(s, r) <==> s.rows[r].kind == Restore || r !in s.cancels
  {
    InvReachable(s);
    if s.rows[r].kind == Restore || r !in s.cancels {
      forall acts: seq<Action> | Executes(s, acts) && r in After(s, acts).rows
        ensures After(s, acts).rows[r].finishedAt == s.rows[r].finishedAt
      {
        TerminalRun(s, acts, r);
      }
    } else {
      assert RowOk(s.rows[r], s.jobs, s.ceiling);
      LateCancel(s, r);
    }
  }

  /** A cancel that lands later than the run finished moves the finish time. */
  lemma LateCancel(s: System, r: RunId)
    requires r in s.rows && s.rows[r].finishedAt.Some? && s.rows[r].kind != Restore && r in s.cancels
    ensures !FinishTimeFrozen(s, r)
  {
    var finished := s.rows[r].finishedAt.value;
    var later := if finished < s.now then s.now else finished + 1;
    TwoSteps(s, Tick(later), CancelLands(r));
    assert After(s, [Tick(later), CancelLands(r)]).rows[r].finishedAt == Some(later);
  }
}
