/**
 Retries and notifications: what a failed backup leads to, over every schedule
 of the run protocol.
 */
module RetryTheorems {
  import opened Wrappers
  import opened RunRows
  import opened Protocol
  import opened ProtocolInvariant
  import opened ProtocolTheorems

  // --- Schedules ----------------------------------------------------------------------

  lemma {:induction false} Prepend(s: System, act: Action, acts: seq<Action>)
    requires Enabled(s, act) && Executes(Apply(s, act), acts)
    ensures Executes(s, [act] + acts) && After(s, [act] + acts) == After(Apply(s, act), acts)
  {
  }

  lemma {:induction false} Concat(s: System, acts: seq<Action>, more: seq<Action>)
    requires Executes(s, acts) && Executes(After(s, acts), more)
    ensures Executes(s, acts + more) && After(s, acts + more) == After(After(s, acts), more)
    decreases |acts|
  {
    if acts == [] {
      assert acts + more == more;
    } else {
      Concat(Apply(s, acts[0]), acts[1..], more);
      assert (acts + more)[1..] == acts[1..] + more;
    }
  }

  /** Identifiers never run out. */
  lemma {:induction false} NewId(ids: set<RunId>) returns (id: RunId)
    ensures forall x :: x in ids ==> x < id
  {
    id := 0;
    if x :| x in ids {
      var above := NewId(ids - {x});
      id := if above <= x then x + 1 else above;
      forall y | y in ids ensures y < id {
        assert y == x || y in ids - {x};
      }
    }
  }

  // --- Retry chains -----------------------------------------------------------------

  /**
   Each retry repeats a backup of the same job and trigger that failed, with
   the next attempt number, and no run has two successors. The predecessor
   still shows the failure unless an operator's cancel replaced it afterwards.
   */
  lemma RetryLinks(s: System, q: RunId)
    requires Reachable(s) && q in s.rows && s.rows[q].retryOf.Some?
    ensures var p := s.rows[q].retryOf.value;
            && p in s.rows && s.rows[p].kind == Backup && s.rows[q].kind == Backup
            && s.rows[p].job == s.rows[q].job && s.rows[p].trigger == s.rows[q].trigger
            && s.rows[q].attempt == s.rows[p].attempt + 1
            && (s.rows[p].status == Failed || (s.rows[p].status == Cancelled && p in s.overwritten))
            && (forall q' :: q' in s.rows && s.rows[q'].retryOf == Some(p) ==> q' == q)
  {
    InvReachable(s);
    assert LinkOk(s.rows, s.finals, s.born, q);
    assert RowOk(s.rows[q], s.jobs, s.ceiling);
    var p := s.rows[q].retryOf.value;
    assert PhaseOk(s.finals[s.born[q]], s.rows, s.drawn, s.ceiling, s.overwritten);
    forall q' | q' in s.rows && s.rows[q'].retryOf == Some(p) ensures q' == q {
      assert LinkOk(s.rows, s.finals, s.born, q');
    }
  }

  /** The runs a retry goes back to, newest first. */
  ghost function Chain(rows: Rows, q: RunId): seq<RunId>
    requires q in rows
    requires forall x :: x in rows ==> ChainStepOk(rows, x)
    decreases rows[q].attempt
  {
    assert ChainStepOk(rows, q);
    if rows[q].retryOf.None? then [q] else [q] + Chain(rows, rows[q].retryOf.value)
  }

  predicate ChainStepOk(rows: Rows, x: RunId)
    requires x in rows
  {
    && (rows[x].retryOf.None? <==> rows[x].attempt == 1)
    && (rows[x].retryOf.Some? ==> rows[x].retryOf.value in rows && rows[rows[x].retryOf.value].attempt + 1 == rows[x].attempt)
  }

  lemma ChainsAreFinite(s: System)
    requires Inv(s)
    ensures forall x :: x in s.rows ==> ChainStepOk(s.rows, x)
  {
  }

  /** A run of attempt n is the end of a chain of exactly n runs, and the job allowed n - 1 retries at some time. */
  lemma {:induction false} ChainLength(s: System, q: RunId)
    requires Inv(s) && q in s.rows && forall x :: x in s.rows ==> ChainStepOk(s.rows, x)
    ensures |Chain(s.rows, q)| == s.rows[q].attempt <= 1 + s.ceiling[s.rows[q].job]
    decreases s.rows[q].attempt
  {
    assert RowOk(s.rows[q], s.jobs, s.ceiling);
    assert ChainStepOk(s.rows, q);
    if s.rows[q].retryOf.Some? {
      ChainLength(s, s.rows[q].retryOf.value);
    }
  }

  lemma CeilingStep(s: System, act: Action, j: JobId)
    requires Enabled(s, act)
    ensures j in s.ceiling ==> j in Apply(s, act).ceiling && s.ceiling[j] <= Apply(s, act).ceiling[j]
    ensures j in Apply(s, act).ceiling ==>
              (j in s.ceiling && Apply(s, act).ceiling[j] == s.ceiling[j]) ||
              (act.PutJob? && act.job == j && act.settings.retryMax == Apply(s, act).ceiling[j])
  {
  }

  /** The history variable `ceiling` is what its name says: a value the job was really given. */
  lemma {:induction false} CeilingWasSet(s: System, acts: seq<Action>, j: JobId)
    requires Executes(s, acts) && j in After(s, acts).ceiling
    ensures (j in s.ceiling && s.ceiling[j] == After(s, acts).ceiling[j]) ||
            exists i :: 0 <= i < |acts| && acts[i].PutJob? && acts[i].job == j &&
                        acts[i].settings.retryMax == After(s, acts).ceiling[j]
    decreases |acts|
  {
    if acts != [] {
      CeilingStep(s, acts[0], j);
      CeilingWasSet(Apply(s, acts[0]), acts[1..], j);
      if i :| 0 <= i < |acts[1..]| && acts[1..][i].PutJob? && acts[1..][i].job == j &&
              acts[1..][i].settings.retryMax == After(s, acts).ceiling[j] {
        assert acts[i + 1] == acts[1..][i];
      }
    }
  }

  /**
   Every retry chain is finite: the attempt number of a run is the length of its
   chain, and exceeds by at most one a `retry_max` the job was given on the way.
   */
  lemma {:induction false} RetryChainBound(init: System, acts: seq<Action>, q: RunId)
    requires Initial(init) && Executes(init, acts) && q in After(init, acts).rows
    ensures var s := After(init, acts);
            && (forall x :: x in s.rows ==> ChainStepOk(s.rows, x))
            && |Chain(s.rows, q)| == s.rows[q].attempt
            && exists i :: 0 <= i < |acts| && acts[i].PutJob? && acts[i].job == s.rows[q].job &&
                           s.rows[q].attempt <= 1 + acts[i].settings.retryMax
  {
    var s := After(init, acts);
    InvInitial(init);
    InvRun(init, acts);
    ChainsAreFinite(s);
    ChainLength(s, q);
    assert RowOk(s.rows[q], s.jobs, s.ceiling);
    CeilingWasSet(init, acts, s.rows[q].job);
    var i :| 0 <= i < |acts| && acts[i].PutJob? && acts[i].job == s.rows[q].job &&
             acts[i].settings.retryMax == s.ceiling[s.rows[q].job];
    assert s.rows[q].attempt <= 1 + acts[i].settings.retryMax;
  }

  // --- How a finalization ends ----------------------------------------------------------

  function Remaining(phase: Phase): nat {
    match phase
    case Begun => 4
    case Retriable(_, _, _, _) => 3
    case Clear(_, _, _, _) => 2
    case Notifying => 1
    case _ => 0
  }

  /** The action is possible and brings the finalization closer to its end. */
  ghost predicate Advances(s: System, i: nat, act: Action)
    requires i < |s.finals|
  {
    && Enabled(s, act)
    && var s' := Apply(s, act);
       && |s'.finals| == |s.finals| && s'.finals[i].run == s.finals[i].run
       && Remaining(s'.finals[i].phase) < Remaining(s.finals[i].phase) && !s'.finals[i].phase.Abandoned?
  }

  lemma ReadAdvances(s: System, i: nat)
    requires Begins(s, i)
    ensures Advances(s, i, FinalRead(i))
  {
  }

  lemma ActiveAdvances(s: System, i: nat)
    requires FoundRetriable(s, i)
    ensures Advances(s, i, FinalActive(i))
  {
  }

  lemma InsertAdvances(s: System, i: nat, id: RunId)
    requires MayInsert(s, i) && id !in s.drawn
    ensures Advances(s, i, FinalInsert(i, id))
  {
  }

  lemma NotifyAdvances(s: System, i: nat)
    requires MayNotify(s, i)
    ensures Advances(s, i, FinalNotify(i))
  {
  }

  /**
   A finalization never hangs: until it is done, its next statement is possible
   and brings it closer to its end, which is a queued successor or the notify call.
   */
  lemma FinalizationAdvances(s: System, i: nat, id: RunId) returns (act: Action)
    requires i < |s.finals| && Remaining(s.finals[i].phase) > 0 && id !in s.drawn
    ensures Advances(s, i, act)
  {
    match s.finals[i].phase
    case Begun =>
      act := FinalRead(i);
      ReadAdvances(s, i);
    case Retriable(_, _, _, _) =>
      act := FinalActive(i);
      ActiveAdvances(s, i);
    case Clear(_, _, _, _) =>
      act := FinalInsert(i, id);
      InsertAdvances(s, i, id);
    case Notifying =>
      act := FinalNotify(i);
      NotifyAdvances(s, i);
  }

  /** From every state some schedule takes a finalization to its end. */
  lemma {:induction false} FinalizationCompletes(s: System, i: nat) returns (acts: seq<Action>)
    requires i < |s.finals| && !s.finals[i].phase.Abandoned?
    ensures Executes(s, acts) && i < |After(s, acts).finals|
    ensures After(s, acts).finals[i].run == s.finals[i].run && After(s, acts).finals[i].phase.Done?
    decreases Remaining(s.finals[i].phase)
  {
    acts := [];
    if Remaining(s.finals[i].phase) > 0 {
      var id := NewId(s.drawn);
      var act := FinalizationAdvances(s, i, id);
      var rest := FinalizationCompletes(Apply(s, act), i);
      Prepend(s, act, rest);
      acts := [act] + rest;
    }
  }

  /** A backup or check with an outcome other than a cancel. */
  predicate Ended(run: Run) {
    run.kind != Restore && (run.status == Success || run.status == Failed)
  }

  ghost predicate HasFinal(finals: seq<Final>, r: RunId) {
    exists i :: 0 <= i < |finals| && finals[i].run == r
  }

  ghost predicate EndedAreFinalized(s: System) {
    forall r :: r in s.rows && Ended(s.rows[r]) ==> HasFinal(s.finals, r)
  }

  lemma DeliverFinalizes(s: System, k: nat, r: RunId)
    requires k < |s.posts| && r in s.rows && Ended(DoDeliver(s, k).rows[r])
    ensures Ended(s.rows[r]) || HasFinal(DoDeliver(s, k).finals, r)
  {
    if !Ended(s.rows[r]) {
      assert Followup(s, k)[0].run == r;
      assert DoDeliver(s, k).finals[|s.finals|].run == r;
    }
  }

  /** The step that gives a run its outcome starts a finalization of it. */
  lemma EndingFinalizes(s: System, act: Action, r: RunId)
    requires Enabled(s, act) && r in Apply(s, act).rows && Ended(Apply(s, act).rows[r])
    ensures (r in s.rows && Ended(s.rows[r])) || HasFinal(Apply(s, act).finals, r)
  {
    if act.Deliver? {
      DeliverFinalizes(s, act.index, r);
    } else if act.SweepRun? {
      assert Apply(s, act).finals[|s.finals|].run == act.run;
    } else {
      NoOtherEnds(s, act, r);
    }
  }

  lemma NoOtherEnds(s: System, act: Action, r: RunId)
    requires Enabled(s, act) && !act.Deliver? && !act.SweepRun? && r in Apply(s, act).rows && Ended(Apply(s, act).rows[r])
    ensures r in s.rows && Ended(s.rows[r])
  {
    if act.ClaimRun? || act.ProgressArrives? || act.CancelLands? {
      NoUpdateEnds(s, act, r);
    } else if act.Insert? || act.FinalInsert? || act.DeleteJob? {
      NoInsertEnds(s, act, r);
    } else {
      SameRows(s, act);
    }
  }

  lemma NoUpdateEnds(s: System, act: Action, r: RunId)
    requires Enabled(s, act) && (act.ClaimRun? || act.ProgressArrives? || act.CancelLands?)
    requires r in Apply(s, act).rows && Ended(Apply(s, act).rows[r])
    ensures r in s.rows && Ended(s.rows[r])
  {
    match act
    case ClaimRun(a, q, live) => assert DoClaim(s, a, q, live).rows == Claim(s.rows, q, a);
    case ProgressArrives(_, _, _) =>
    case CancelLands(_) =>
  }

  lemma NoInsertEnds(s: System, act: Action, r: RunId)
    requires Enabled(s, act) && (act.Insert? || act.FinalInsert? || act.DeleteJob?)
    requires r in Apply(s, act).rows && Ended(Apply(s, act).rows[r])
    ensures r in s.rows && Ended(s.rows[r])
  {
  }

  lemma SameRows(s: System, act: Action)
    requires Enabled(s, act)
    requires act.PutJob? || act.Tick? || act.AgentMoves? || act.RunEnds? || act.AskState? || act.AnswerArrives? ||
             act.CancelCheck? || act.FinalRead? || act.FinalActive? || act.FinalNotify? || act.FinalAbandon?
    ensures Apply(s, act).rows == s.rows
  {
  }

  lemma FinalsStay(s: System, act: Action)
    requires Enabled(s, act)
    ensures |s.finals| <= |Apply(s, act).finals|
    ensures forall i :: 0 <= i < |s.finals| ==> Apply(s, act).finals[i].run == s.finals[i].run
  {
    if FinalizationStep(act) {
      FinalizationKeepsRuns(s, act);
    } else {
      FinalsOnlyGrow(s, act);
    }
  }

  lemma FinalizationKeepsRuns(s: System, act: Action)
    requires Enabled(s, act) && FinalizationStep(act)
    ensures |s.finals| == |Apply(s, act).finals|
    ensures forall i :: 0 <= i < |s.finals| ==> Apply(s, act).finals[i].run == s.finals[i].run
  {
  }

  lemma FinalsOnlyGrow(s: System, act: Action)
    requires Enabled(s, act) && !FinalizationStep(act)
    ensures s.finals <= Apply(s, act).finals
  {
  }

  lemma EndedStep(s: System, act: Action)
    requires EndedAreFinalized(s) && Enabled(s, act)
    ensures EndedAreFinalized(Apply(s, act))
  {
    var s' := Apply(s, act);
    FinalsStay(s, act);
    forall r | r in s'.rows && Ended(s'.rows[r]) ensures HasFinal(s'.finals, r) {
      EndingFinalizes(s, act, r);
      if r in s.rows && Ended(s.rows[r]) {
        var i :| 0 <= i < |s.finals| && s.finals[i].run == r;
        assert s'.finals[i].run == r;
      }
    }
  }

  lemma {:induction false} EndedRun(s: System, acts: seq<Action>)
    requires EndedAreFinalized(s) && Executes(s, acts)
    ensures EndedAreFinalized(After(s, acts))
    decreases |acts|
  {
    if acts != [] {
      EndedStep(s, acts[0]);
      EndedRun(Apply(s, acts[0]), acts[1..]);
    }
  }

  /**
   Exactly one end per run: a backup or check that shows success or failure has
   a finalization, and no run has two, so it never has both a successor and a
   notify call. While the run exists, `Retried` names a successor that points
   back at it.
   */
  lemma OneFinalizationPerRun(s: System)
    requires Reachable(s)
    ensures forall r :: r in s.rows && Ended(s.rows[r]) ==> HasFinal(s.finals, r)
    ensures forall i, j :: 0 <= i < j < |s.finals| ==> s.finals[i].run != s.finals[j].run
    ensures forall i, q :: 0 <= i < |s.finals| && q in s.rows ==>
              (s.rows[q].retryOf == Some(s.finals[i].run) <==> s.finals[i].phase == Done(Retried(q)))
  {
    InvReachable(s);
    var init, acts :| Initial(init) && Executes(init, acts) && After(init, acts) == s;
    EndedRun(init, acts);
    forall i, q | 0 <= i < |s.finals| && q in s.rows
      ensures s.rows[q].retryOf == Some(s.finals[i].run) <==> s.finals[i].phase == Done(Retried(q))
    {
      SuccessorIff(s, i, q);
    }
  }

  lemma SuccessorIff(s: System, i: nat, q: RunId)
    requires Inv(s) && i < |s.finals| && q in s.rows
    ensures s.rows[q].retryOf == Some(s.finals[i].run) <==> s.finals[i].phase == Done(Retried(q))
  {
    assert HeirOk(s.finals[i], s.rows, s.drawn);
    if s.rows[q].retryOf.Some? {
      RetriedRun(s, i, q);
    }
  }

  lemma DoneStep(s: System, act: Action, i: nat)
    requires Enabled(s, act) && i < |s.finals| && s.finals[i].phase.Done?
    ensures |s.finals| <= |Apply(s, act).finals| && Apply(s, act).finals[i] == s.finals[i]
  {
    if !FinalizationStep(act) {
      FinalsOnlyGrow(s, act);
    }
  }

  lemma {:induction false} DoneIsForever(s: System, acts: seq<Action>, i: nat)
    requires Executes(s, acts) && i < |s.finals| && s.finals[i].phase.Done?
    ensures i < |After(s, acts).finals| && After(s, acts).finals[i] == s.finals[i]
    decreases |acts|
  {
    if acts != [] {
      DoneStep(s, acts[0], i);
      DoneIsForever(Apply(s, acts[0]), acts[1..], i);
    }
  }

  /** A run whose end was notified never gets a successor later. */
  lemma {:induction false} NotifiedIsNeverRetried(s: System, acts: seq<Action>, i: nat, q: RunId)
    requires Inv(s) && Executes(s, acts) && i < |s.finals| && s.finals[i].phase.Done? && s.finals[i].phase.outcome.Notified?
    requires q in After(s, acts).rows
    ensures After(s, acts).rows[q].retryOf != Some(s.finals[i].run)
  {
    DoneIsForever(s, acts, i);
    InvRun(s, acts);
    if After(s, acts).rows[q].retryOf.Some? {
      RetriedRun(After(s, acts), i, q);
    }
  }

  /** Only the finalization that ended in `Retried(q)` can be the one of the run that `q` repeats. */
  lemma RetriedRun(s: System, i: nat, q: RunId)
    requires Inv(s) && i < |s.finals| && q in s.rows && s.rows[q].retryOf.Some?
    ensures s.finals[i].run == s.rows[q].retryOf.value ==> s.finals[i].phase == Done(Retried(q))
    ensures exists k :: 0 <= k < |s.finals| && s.finals[k].run == s.rows[q].retryOf.value && s.finals[k].phase == Done(Retried(q))
  {
  }

  // --- Cancelled runs -------------------------------------------------------------------

  /** The run is cancelled or deleted, and no finalization of it found a failure or passed the notify filter. */
  ghost predicate Silent(s: System, r: RunId) {
    && Gone(s.rows, s.drawn, r)
    && forall i :: 0 <= i < |s.finals| && s.finals[i].run == r ==> !Committed(s.finals[i].phase)
  }

  lemma GoneStep(s: System, act: Action, r: RunId)
    requires Enabled(s, act) && Gone(s.rows, s.drawn, r)
    ensures Gone(Apply(s, act).rows, Apply(s, act).drawn, r)
  {
    DrawnGrows(s, act);
    if r in s.rows && r in Apply(s, act).rows {
      RowStep(s, act, r);
    }
  }

  lemma SilentStep(s: System, act: Action, r: RunId)
    requires Enabled(s, act) && Silent(s, r)
    ensures Silent(Apply(s, act), r)
  {
    GoneStep(s, act, r);
    if FinalizationStep(act) {
      SilentFinalization(s, act, r);
    }
  }

  lemma SilentFinalization(s: System, act: Action, r: RunId)
    requires Enabled(s, act) && Silent(s, r) && FinalizationStep(act)
    ensures forall i :: 0 <= i < |Apply(s, act).finals| && Apply(s, act).finals[i].run == r ==>
              !Committed(Apply(s, act).finals[i].phase)
  {
    var s' := Apply(s, act);
    forall i | 0 <= i < |s'.finals| && s'.finals[i].run == r ensures !Committed(s'.finals[i].phase) {
      assert s.finals[i].run == r;
    }
  }

  lemma {:induction false} SilentRun(s: System, acts: seq<Action>, r: RunId)
    requires Executes(s, acts) && Silent(s, r)
    ensures Silent(After(s, acts), r)
    decreases |acts|
  {
    if acts != [] {
      SilentStep(s, acts[0], r);
      SilentRun(Apply(s, acts[0]), acts[1..], r);
    }
  }

  /** Neither a retry of the run nor a delivered notification about it is there. */
  ghost predicate Unheard(s: System, r: RunId) {
    && (forall q :: q in s.rows ==> s.rows[q].retryOf != Some(r))
    && (forall i :: 0 <= i < |s.finals| && s.finals[i].run == r ==> s.finals[i].phase != Done(Notified(true)))
  }

  /**
   A run that was stopped before it had an outcome gets neither a retry nor a
   delivered notification, then and later, even when a late result still
   starts a finalization for it.
   */
  lemma {:induction false} CancelledStaysSilent(s: System, acts: seq<Action>, r: RunId)
    requires Reachable(s) && Executes(s, acts) && r in s.rows && s.rows[r].status == Cancelled && r !in s.overwritten
    ensures Unheard(After(s, acts), r)
  {
    InvReachable(s);
    forall i | 0 <= i < |s.finals| && s.finals[i].run == r ensures !Committed(s.finals[i].phase) {
      assert PhaseOk(s.finals[i], s.rows, s.drawn, s.ceiling, s.overwritten);
    }
    assert Silent(s, r) by { assert RowsOk(s.rows, s.drawn, s.jobs, s.ceiling); }
    SilentIsUnheard(s, acts, r);
  }

  lemma {:induction false} SilentIsUnheard(s: System, acts: seq<Action>, r: RunId)
    requires Inv(s) && Executes(s, acts) && Silent(s, r)
    ensures Unheard(After(s, acts), r)
  {
    SilentRun(s, acts, r);
    InvRun(s, acts);
    var s' := After(s, acts);
    forall q | q in s'.rows ensures s'.rows[q].retryOf != Some(r) {
      if s'.rows[q].retryOf.Some? {
        assert LinkOk(s'.rows, s'.finals, s'.born, q);
        assert Committed(s'.finals[s'.born[q]].phase);
      }
    }
  }

  // --- Exactly when a cancelled run stays silent -----------------------------------------

  ghost predicate NeverHeardOf(s: System, r: RunId) {
    forall acts: seq<Action> :: Executes(s, acts) ==> Unheard(After(s, acts), r)
  }

  ghost function Rivals(s: System, r: RunId, job: JobId): set<RunId> {
    set q | q in s.rows && q != r && s.rows[q].job == job && s.rows[q].kind == Backup && Active(s.rows[q].status)
  }

  /** One rival less: an operator cancels it. */
  lemma {:induction false} CancelRival(s: System, r: RunId, job: JobId, q: RunId)
    requires q in Rivals(s, r, job) && r in s.rows
    ensures var acts := [CancelCheck(q), CancelLands(q)];
            && Executes(s, acts)
            && var s' := After(s, acts);
               && s'.finals == s.finals && s'.jobs == s.jobs && r in s'.rows && s'.rows[r] == s.rows[r]
               && Rivals(s', r, job) == Rivals(s, r, job) - {q}
  {
    TwoSteps(s, CancelCheck(q), CancelLands(q));
  }

  lemma {:induction false} CancelRivals(s: System, r: RunId, job: JobId) returns (acts: seq<Action>)
    requires r in s.rows
    ensures Executes(s, acts)
    ensures var s' := After(s, acts);
            && s'.finals == s.finals && s'.jobs == s.jobs && r in s'.rows && s'.rows[r] == s.rows[r]
            && Rivals(s', r, job) == {}
    decreases |Rivals(s, r, job)|
  {
    acts := [];
    if q :| q in Rivals(s, r, job) {
      CancelRival(s, r, job, q);
      var two := [CancelCheck(q), CancelLands(q)];
      var rest := CancelRivals(After(s, two), r, job);
      Concat(s, two, rest);
      acts := two + rest;
    }
  }

  /** A finalization that found no other backup active can still queue the retry. */
  lemma ClearIsHeard(s: System, i: nat) returns (act: Action)
    requires MayInsert(s, i) && s.finals[i].phase.job in s.jobs && s.finals[i].run in s.rows
    ensures Enabled(s, act) && !Unheard(Apply(s, act), s.finals[i].run)
  {
    var id := NewId(s.drawn);
    act := FinalInsert(i, id);
    assert Apply(s, act).rows[id].retryOf == Some(s.finals[i].run);
  }

  lemma RetriableIsHeard(s: System, i: nat) returns (acts: seq<Action>)
    requires FoundRetriable(s, i) && s.finals[i].phase.job in s.jobs && s.finals[i].run in s.rows
    ensures Executes(s, acts) && !Unheard(After(s, acts), s.finals[i].run)
  {
    var r, job := s.finals[i].run, s.finals[i].phase.job;
    var quiet := CancelRivals(s, r, job);
    var s1 := After(s, quiet);
    assert forall q :: q in s1.rows ==> q !in Rivals(s1, r, job);
    assert !OtherBackupActive(s1, r, job);
    var act := ClearIsHeard(Apply(s1, FinalActive(i)), i);
    TwoSteps(s1, FinalActive(i), act);
    Concat(s, quiet, [FinalActive(i), act]);
    acts := quiet + [FinalActive(i), act];
  }

  /** A finalization that found the failure before the cancel replaced it can be heard of. */
  lemma CommittedIsHeard(s: System, i: nat) returns (acts: seq<Action>)
    requires Inv(s) && i < |s.finals| && Committed(s.finals[i].phase) && s.finals[i].run in s.rows
    ensures Executes(s, acts) && !Unheard(After(s, acts), s.finals[i].run)
  {
    assert PhaseOk(s.finals[i], s.rows, s.drawn, s.ceiling, s.overwritten);
    assert HeirOk(s.finals[i], s.rows, s.drawn);
    assert RowOk(s.rows[s.finals[i].run], s.jobs, s.ceiling);
    acts := [];
    if s.finals[i].phase.Retriable? {
      acts := RetriableIsHeard(s, i);
    } else if s.finals[i].phase.Clear? {
      var act := ClearIsHeard(s, i);
      OneStep(s, act);
      acts := [act];
    }
  }

  /**
   Exactly when a cancelled run gets neither a retry nor a delivered
   notification, now or in any continuation: when no finalization of it read
   the failure that the cancel replaced, and none passed the notify filter.
   */
  lemma CancelledStaysSilentIff(s: System, r: RunId)
    requires Reachable(s) && r in s.rows && s.rows[r].status == Cancelled
    ensures NeverHeardOf(s, r) <==> forall i :: 0 <= i < |s.finals| && s.finals[i].run == r ==> !Committed(s.finals[i].phase)
  {
    InvReachable(s);
    if i :| 0 <= i < |s.finals| && s.finals[i].run == r && Committed(s.finals[i].phase) {
      var acts := CommittedIsHeard(s, i);
      assert !Unheard(After(s, acts), r);
    } else {
      assert Silent(s, r) by { assert RowsOk(s.rows, s.drawn, s.jobs, s.ceiling); }
      forall acts: seq<Action> | Executes(s, acts) ensures Unheard(After(s, acts), r) {
        SilentIsUnheard(s, acts, r);
      }
    }
  }

  // --- The race the guard of a restore's cancel avoids -----------------------------------

  function Empty(): System {
    System(map[], map[], 0, map[], {}, [], multiset{}, [], {}, map[], [], {}, {}, map[])
  }

  /** One backup, which a cancel has found queued and which waits for its outcome `st`. */
  predicate RaceRow(s: System, st: Status) {
    && 7 in s.rows && s.rows.Keys == {7} && s.rows[7].kind == Backup && s.rows[7].job == 1 && s.rows[7].attempt == 1
    && s.rows[7].status == st && s.rows[7].trigger == Manual && s.rows[7].created == 0 && s.rows[7].notBefore == None
    && 1 in s.jobs && s.jobs[1] == Job(1, 300) && s.drawn == {7}
  }

  lemma RaceSetup() returns (acts: seq<Action>)
    ensures Executes(Empty(), acts) && RaceRow(After(Empty(), acts), Queued)
    ensures After(Empty(), acts).now == 0 && After(Empty(), acts).finals == []
  {
    TwoSteps(Empty(), PutJob(1, Job(1, 300)), Insert(7, 1, Backup, Manual, None));
    acts := [PutJob(1, Job(1, 300)), Insert(7, 1, Backup, Manual, None)];
  }

  lemma RaceTimeout(s: System) returns (acts: seq<Action>)
    requires RaceRow(s, Queued) && s.now == 0 && s.finals == []
    ensures Executes(s, acts) && RaceRow(After(s, acts), Failed) && 7 in After(s, acts).cancels
    ensures After(s, acts).finals == [Final(7, FromSweep, Begun)]
  {
    var s1 := Apply(s, CancelCheck(7));
    TwoSteps(s1, Tick(1000), SweepRun(7, 900));
    Prepend(s, CancelCheck(7), [Tick(1000), SweepRun(7, 900)]);
    acts := [CancelCheck(7)] + [Tick(1000), SweepRun(7, 900)];
  }

  lemma RaceReads(s: System) returns (acts: seq<Action>)
    requires RaceRow(s, Failed) && 7 in s.cancels && s.finals == [Final(7, FromSweep, Begun)]
    ensures Executes(s, acts) && RaceRow(After(s, acts), Failed) && 7 in After(s, acts).cancels
    ensures After(s, acts).finals == [Final(7, FromSweep, Clear(1, Manual, 1, 300))]
  {
    var s1 := Apply(s, FinalRead(0));
    assert s1.rows == s.rows;
    assert !OtherBackupActive(s1, 7, 1);
    TwoSteps(s, FinalRead(0), FinalActive(0));
    acts := [FinalRead(0), FinalActive(0)];
  }

  lemma RaceEnds(s: System) returns (acts: seq<Action>)
    requires RaceRow(s, Failed) && 7 in s.cancels
    requires s.finals == [Final(7, FromSweep, Clear(1, Manual, 1, 300))]
    ensures Executes(s, acts) && 7 in After(s, acts).rows && 8 in After(s, acts).rows
    ensures After(s, acts).rows[7].status == Cancelled
    ensures After(s, acts).rows[8].status == Queued && After(s, acts).rows[8].retryOf == Some(7)
  {
    TwoSteps(s, FinalInsert(0, 8), CancelLands(7));
    acts := [FinalInsert(0, 8), CancelLands(7)];
  }

  /**
   Without that guard a cancelled run can be retried: an operator cancels a
   queued backup just when the queue timeout fails it. The run ends as
   cancelled, and a retry of it waits in the queue.
   */
  lemma CancelledRunIsRetried() returns (s: System)
    ensures Reachable(s)
    ensures 7 in s.rows && s.rows[7].status == Cancelled
    ensures 8 in s.rows && s.rows[8].status == Queued && s.rows[8].retryOf == Some(7)
  {
    var setup := RaceSetup();
    var timeout := RaceTimeout(After(Empty(), setup));
    Concat(Empty(), setup, timeout);
    var reading := RaceReads(After(Empty(), setup + timeout));
    Concat(Empty(), setup + timeout, reading);
    var ends := RaceEnds(After(Empty(), setup + timeout + reading));
    Concat(Empty(), setup + timeout + reading, ends);
    s := After(Empty(), setup + timeout + reading + ends);
    IsReachable(setup + timeout + reading + ends);
  }

  lemma {:induction false} IsReachable(acts: seq<Action>)
    requires Executes(Empty(), acts)
    ensures Reachable(After(Empty(), acts))
  {
    assert Initial(Empty());
  }
}
