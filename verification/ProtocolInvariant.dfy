/**
 The inductive invariant of the run protocol and its proof, one conjunct at a
 time. Every conjunct only speaks about the part of the state it needs, so an
 action that leaves that part alone keeps it for free.
 */
module ProtocolInvariant {
  import opened Wrappers
  import AgentQueue
  import AgentTask
  import opened RunRows
  import opened Protocol

  // --- The conjuncts ----------------------------------------------------------

  ghost predicate RowOk(run: Run, jobs: map<JobId, Job>, ceiling: map<JobId, nat>) {
    && Coherent(run)
    && (run.kind != Restore ==> run.job in jobs)
    && run.job in ceiling
    && 1 <= run.attempt <= 1 + ceiling[run.job]
    && (run.retryOf.None? <==> run.attempt == 1)
    && (run.kind != Backup ==> run.retryOf.None?)
  }

  ghost predicate RowsOk(rows: Rows, drawn: set<RunId>, jobs: map<JobId, Job>, ceiling: map<JobId, nat>) {
    && (forall r :: r in rows ==> r in drawn && RowOk(rows[r], jobs, ceiling))
    && (forall j :: j in jobs ==> j in ceiling && jobs[j].retryMax <= ceiling[j])
  }

  /** A retry, the failed run it repeats, and the finalization that queued it. */
  ghost predicate LinkOk(rows: Rows, finals: seq<Final>, born: map<RunId, nat>, q: RunId)
    requires q in rows && rows[q].retryOf.Some?
  {
    var p := rows[q].retryOf.value;
    && p in rows
    && rows[p].kind == Backup && rows[p].job == rows[q].job && rows[p].trigger == rows[q].trigger
    && rows[q].attempt == rows[p].attempt + 1
    && (rows[p].status == Failed || rows[p].status == Cancelled)
    && q in born && born[q] < |finals|
    && finals[born[q]].run == p && finals[born[q]].phase == Done(Retried(q))
  }

  ghost predicate ChainOk(rows: Rows, finals: seq<Final>, born: map<RunId, nat>) {
    forall q :: q in rows && rows[q].retryOf.Some? ==> LinkOk(rows, finals, born, q)
  }

  ghost predicate HandoutsOk(rows: Rows, drawn: set<RunId>, handouts: seq<Handout>) {
    && (forall i, j :: 0 <= i < j < |handouts| ==> handouts[i].run != handouts[j].run)
    && (forall h :: h in handouts ==> h.run in drawn)
    && (forall h :: h in handouts && h.run in rows ==> rows[h.run].status != Queued && rows[h.run].agent == Some(h.agent))
    && (forall r :: r in rows && rows[r].status == Running ==>
          rows[r].agent.Some? && Handout(rows[r].agent.value, r) in handouts)
  }

  ghost predicate HasPosted(posts: seq<Post>, r: RunId) {
    exists i :: 0 <= i < |posts| && posts[i].run == r
  }

  ghost predicate PostsOk(posts: seq<Post>, handouts: seq<Handout>) {
    && (forall i, j :: 0 <= i < j < |posts| ==> posts[i].run != posts[j].run)
    && (forall i :: 0 <= i < |posts| ==> Handout(posts[i].agent, posts[i].run) in handouts)
  }

  /** One run of one agent: held at most once, only after it was handed out and before it posted. */
  ghost predicate ShareOk(agent: AgentQueue.Agent, a: AgentId, r: RunId, handouts: seq<Handout>, posts: seq<Post>) {
    var t := AgentQueue.RunTask(r);
    && AgentQueue.Held(agent, t) <= 1
    && (AgentQueue.Held(agent, t) > 0 ==> Handout(a, r) in handouts && !HasPosted(posts, r))
    && ((agent.worker.Posted? || agent.worker.Released?) && agent.worker.task == t ==> HasPosted(posts, r))
  }

  ghost predicate AgentOk(agent: AgentQueue.Agent, a: AgentId, handouts: seq<Handout>, posts: seq<Post>) {
    && AgentQueue.Inv(agent)
    && forall r :: ShareOk(agent, a, r, handouts, posts)
  }

  ghost predicate AgentsOk(agents: map<AgentId, AgentQueue.Agent>, handouts: seq<Handout>, posts: seq<Post>) {
    forall a :: a in agents ==> AgentOk(agents[a], a, handouts, posts)
  }

  /** A run the server has cancelled or deleted. */
  predicate Gone(rows: Rows, drawn: set<RunId>, r: RunId) {
    r in drawn && (r in rows ==> rows[r].status == Cancelled)
  }

  ghost predicate CancelOk(rows: Rows, drawn: set<RunId>, answers: set<Answer>, posts: seq<Post>,
                           agents: map<AgentId, AgentQueue.Agent>)
  {
    && (forall x :: x in answers && x.cancelled ==> Gone(rows, drawn, x.run))
    && (forall i :: 0 <= i < |posts| && posts[i].result.status == AgentTask.Cancelled ==> Gone(rows, drawn, posts[i].run))
    && (forall a :: a in agents ==> ContextOk(rows, drawn, agents[a].worker))
  }

  predicate ContextOk(rows: Rows, drawn: set<RunId>, worker: AgentQueue.Worker) {
    worker.Running? && worker.task.RunTask? && worker.cancelled ==> Gone(rows, drawn, worker.task.run)
  }

  predicate SourceOk(f: Final, posts: seq<Post>, swept: set<RunId>) {
    match f.source
    case FromPost(k) => k < |posts| && posts[k].run == f.run && posts[k].delivered
    case FromSweep => f.run in swept
  }

  ghost predicate FinalsOk(finals: seq<Final>, posts: seq<Post>, swept: set<RunId>) {
    && (forall i, j :: 0 <= i < j < |finals| ==> finals[i].run != finals[j].run)
    && (forall i :: 0 <= i < |finals| ==> SourceOk(finals[i], posts, swept))
  }

  ghost predicate SweptOk(swept: set<RunId>, rows: Rows, drawn: set<RunId>, handouts: seq<Handout>) {
    && (forall r :: r in swept ==> r in drawn && (r in rows ==> rows[r].status != Queued))
    && (forall h :: h in handouts ==> h.run !in swept)
  }

  /** The finalization found a failed backup, or passed the filter of the notify call. */
  predicate Committed(phase: Phase) {
    phase.Retriable? || phase.Clear? || phase == Done(Notified(true)) || (phase.Done? && phase.outcome.Retried?)
  }

  ghost predicate PhaseOk(f: Final, rows: Rows, drawn: set<RunId>, ceiling: map<JobId, nat>, overwritten: set<RunId>) {
    && f.run in drawn
    && (Committed(f.phase) && f.run in rows ==>
          Terminal(rows[f.run].status) && (rows[f.run].status == Cancelled ==> f.run in overwritten))
    && (f.phase.Retriable? || f.phase.Clear? ==>
          && f.phase.job in ceiling && 1 <= f.phase.attempt <= ceiling[f.phase.job]
          && (f.run in rows ==>
                var run := rows[f.run];
                && run.kind == Backup && run.job == f.phase.job && run.trigger == f.phase.trigger
                && run.attempt == f.phase.attempt && run.status != Success))
  }

  ghost predicate PhasesOk(finals: seq<Final>, rows: Rows, drawn: set<RunId>, ceiling: map<JobId, nat>,
                           overwritten: set<RunId>)
  {
    forall i :: 0 <= i < |finals| ==> PhaseOk(finals[i], rows, drawn, ceiling, overwritten)
  }

  /** A finalization that queued a retry: the retry exists as long as the run it repeats, and points back at it. */
  ghost predicate HeirOk(f: Final, rows: Rows, drawn: set<RunId>) {
    f.phase.Done? && f.phase.outcome.Retried? ==>
      var q := f.phase.outcome.next;
      && q in drawn
      && (q in rows <==> f.run in rows)
      && (q in rows ==> rows[q].retryOf == Some(f.run))
  }

  ghost predicate HeirsOk(finals: seq<Final>, rows: Rows, drawn: set<RunId>) {
    forall i :: 0 <= i < |finals| ==> HeirOk(finals[i], rows, drawn)
  }

  ghost predicate Inv(s: System) {
    && RowsOk(s.rows, s.drawn, s.jobs, s.ceiling)
    && ChainOk(s.rows, s.finals, s.born)
    && HandoutsOk(s.rows, s.drawn, s.handouts)
    && PostsOk(s.posts, s.handouts)
    && AgentsOk(s.agents, s.handouts, s.posts)
    && CancelOk(s.rows, s.drawn, s.answers, s.posts, s.agents)
    && FinalsOk(s.finals, s.posts, s.swept)
    && SweptOk(s.swept, s.rows, s.drawn, s.handouts)
    && PhasesOk(s.finals, s.rows, s.drawn, s.ceiling, s.overwritten)
    && HeirsOk(s.finals, s.rows, s.drawn)
  }

  lemma InvInitial(s: System)
    requires Initial(s)
    ensures Inv(s)
  {
  }

  // --- Row updates keep every conjunct that speaks about rows --------------------

  /** Conditions under which replacing the rows keeps the invariant. */
  ghost predicate HarmlessUpdate(s: System, rows': Rows, overwritten': set<RunId>) {
    && Updated(s.rows, rows')
    && s.overwritten <= overwritten'
    && (forall r :: r in s.rows && s.rows[r].status == Queued ==> rows'[r].status != Running)
    && (forall r :: r in s.rows && Terminal(s.rows[r].status) && rows'[r].status != s.rows[r].status ==> r in overwritten')
  }

  lemma RowsOkUpdated(rows: Rows, rows': Rows, drawn: set<RunId>, jobs: map<JobId, Job>, ceiling: map<JobId, nat>)
    requires RowsOk(rows, drawn, jobs, ceiling) && Updated(rows, rows')
    ensures RowsOk(rows', drawn, jobs, ceiling)
  {
  }

  lemma ChainOkUpdated(rows: Rows, rows': Rows, finals: seq<Final>, born: map<RunId, nat>)
    requires ChainOk(rows, finals, born) && Updated(rows, rows')
    ensures ChainOk(rows', finals, born)
  {
  }

  lemma HandoutsOkUpdated(s: System, rows': Rows, overwritten': set<RunId>)
    requires HandoutsOk(s.rows, s.drawn, s.handouts) && HarmlessUpdate(s, rows', overwritten')
    ensures HandoutsOk(rows', s.drawn, s.handouts)
  {
  }

  lemma CancelOkUpdated(rows: Rows, rows': Rows, s: System)
    requires CancelOk(rows, s.drawn, s.answers, s.posts, s.agents) && Updated(rows, rows')
    ensures CancelOk(rows', s.drawn, s.answers, s.posts, s.agents)
  {
  }

  lemma SweptOkUpdated(rows: Rows, rows': Rows, s: System)
    requires SweptOk(s.swept, rows, s.drawn, s.handouts) && Updated(rows, rows')
    ensures SweptOk(s.swept, rows', s.drawn, s.handouts)
  {
  }

  lemma PhasesOkUpdated(s: System, rows': Rows, overwritten': set<RunId>)
    requires PhasesOk(s.finals, s.rows, s.drawn, s.ceiling, s.overwritten) && HarmlessUpdate(s, rows', overwritten')
    ensures PhasesOk(s.finals, rows', s.drawn, s.ceiling, overwritten')
  {
  }

  lemma HeirsOkUpdated(rows: Rows, rows': Rows, finals: seq<Final>, drawn: set<RunId>)
    requires HeirsOk(finals, rows, drawn) && Updated(rows, rows')
    ensures HeirsOk(finals, rows', drawn)
  {
  }

  lemma InvUpdated(s: System, rows': Rows, overwritten': set<RunId>)
    requires Inv(s) && HarmlessUpdate(s, rows', overwritten')
    ensures Inv(s.(rows := rows', overwritten := overwritten'))
  {
    RowsOkUpdated(s.rows, rows', s.drawn, s.jobs, s.ceiling);
    ChainOkUpdated(s.rows, rows', s.finals, s.born);
    HandoutsOkUpdated(s, rows', overwritten');
    CancelOkUpdated(s.rows, rows', s);
    SweptOkUpdated(s.rows, rows', s);
    PhasesOkUpdated(s, rows', overwritten');
    HeirsOkUpdated(s.rows, rows', s.finals, s.drawn);
  }

  // --- Jobs and new rows -----------------------------------------------------------

  lemma InvPutJob(s: System, j: JobId, settings: Job)
    requires Inv(s)
    ensures Inv(DoPutJob(s, j, settings))
  {
  }

  lemma DeleteKeepsChain(s: System, j: JobId)
    requires Inv(s)
    ensures ChainOk(RemoveJob(s.rows, j), s.finals, s.born)
  {
  }

  lemma DeleteKeepsRows(s: System, j: JobId)
    requires Inv(s)
    ensures RowsOk(RemoveJob(s.rows, j), s.drawn, s.jobs - {j}, s.ceiling)
  {
  }

  lemma DeleteKeepsPhases(s: System, j: JobId)
    requires Inv(s)
    ensures PhasesOk(s.finals, RemoveJob(s.rows, j), s.drawn, s.ceiling, s.overwritten)
  {
  }

  lemma DeleteKeepsHeirs(s: System, j: JobId)
    requires Inv(s)
    ensures HeirsOk(s.finals, RemoveJob(s.rows, j), s.drawn)
  {
  }

  lemma InvDeleteJob(s: System, j: JobId)
    requires Inv(s)
    ensures Inv(DoDeleteJob(s, j))
  {
    DeleteKeepsRows(s, j);
    DeleteKeepsChain(s, j);
    DeleteKeepsPhases(s, j);
    DeleteKeepsHeirs(s, j);
  }

  lemma InsertKeepsChain(s: System, id: RunId, run: Run, rows': Rows)
    requires ChainOk(s.rows, s.finals, s.born) && id !in s.rows && run.retryOf.None? && rows' == s.rows[id := run]
    ensures ChainOk(rows', s.finals, s.born)
  {
  }

  lemma InsertKeepsPhases(s: System, id: RunId, run: Run)
    requires PhasesOk(s.finals, s.rows, s.drawn, s.ceiling, s.overwritten) && id !in s.drawn
    ensures PhasesOk(s.finals, s.rows[id := run], s.drawn + {id}, s.ceiling, s.overwritten)
  {
  }

  lemma InsertKeepsHeirs(s: System, id: RunId, run: Run)
    requires Inv(s) && id !in s.drawn
    ensures HeirsOk(s.finals, s.rows[id := run], s.drawn + {id})
  {
  }

  /** Everything but the chain, which depends on whether the new row is a retry. */
  lemma InsertKeepsRest(s: System, id: RunId, run: Run)
    requires Inv(s) && id !in s.drawn && RowOk(run, s.jobs, s.ceiling) && run.status == Queued
    ensures var s' := DoInsert(s, id, run);
            && RowsOk(s'.rows, s'.drawn, s'.jobs, s'.ceiling)
            && HandoutsOk(s'.rows, s'.drawn, s'.handouts)
            && CancelOk(s'.rows, s'.drawn, s'.answers, s'.posts, s'.agents)
            && SweptOk(s'.swept, s'.rows, s'.drawn, s'.handouts)
            && PhasesOk(s'.finals, s'.rows, s'.drawn, s'.ceiling, s'.overwritten)
            && HeirsOk(s'.finals, s'.rows, s'.drawn)
  {
    InsertKeepsPhases(s, id, run);
    InsertKeepsHeirs(s, id, run);
  }

  lemma InvInsert(s: System, id: RunId, run: Run)
    requires Inv(s) && id !in s.drawn && RowOk(run, s.jobs, s.ceiling) && run.status == Queued && run.retryOf.None?
    ensures Inv(DoInsert(s, id, run))
  {
    InsertKeepsRest(s, id, run);
    InsertKeepsChain(s, id, run, DoInsert(s, id, run).rows);
  }

  // --- Claims ----------------------------------------------------------------------

  lemma HandoutsOkClaim(s: System, a: AgentId, r: RunId)
    requires HandoutsOk(s.rows, s.drawn, s.handouts) && r in s.drawn && r in s.rows && s.rows[r].status == Queued
    ensures HandoutsOk(Claim(s.rows, r, a), s.drawn, s.handouts + [Handout(a, r)])
  {
  }

  lemma AgentsOkHandout(s: System, h: Handout)
    requires AgentsOk(s.agents, s.handouts, s.posts)
    ensures AgentsOk(s.agents, s.handouts + [h], s.posts)
  {
    forall a | a in s.agents ensures AgentOk(s.agents[a], a, s.handouts + [h], s.posts) {
      assert AgentOk(s.agents[a], a, s.handouts, s.posts);
      forall r ensures ShareOk(s.agents[a], a, r, s.handouts + [h], s.posts) {
        assert ShareOk(s.agents[a], a, r, s.handouts, s.posts);
      }
    }
  }

  /** A queued run is nowhere: not handed out, not held by an agent, not posted, not swept. */
  lemma QueuedIsNowhere(s: System, r: RunId)
    requires Inv(s) && r in s.rows && s.rows[r].status == Queued
    ensures r in s.drawn && r !in s.swept && !HasPosted(s.posts, r)
    ensures forall h :: h in s.handouts ==> h.run != r
    ensures forall a :: a in s.agents ==> AgentQueue.Held(s.agents[a], AgentQueue.RunTask(r)) == 0
    ensures forall i :: 0 <= i < |s.finals| ==> s.finals[i].run != r
  {
    forall a | a in s.agents ensures AgentQueue.Held(s.agents[a], AgentQueue.RunTask(r)) == 0 {
      assert AgentOk(s.agents[a], a, s.handouts, s.posts);
      assert ShareOk(s.agents[a], a, r, s.handouts, s.posts);
    }
    forall i | 0 <= i < |s.finals| ensures s.finals[i].run != r {
      assert SourceOk(s.finals[i], s.posts, s.swept);
    }
  }

  lemma AgentOkReply(agent: AgentQueue.Agent, a: AgentId, r: RunId, handouts: seq<Handout>, posts: seq<Post>)
    requires AgentOk(agent, a, handouts, posts) && agent.loop.Awaiting?
    requires AgentQueue.Held(agent, AgentQueue.RunTask(r)) == 0 && !HasPosted(posts, r) && Handout(a, r) in handouts
    ensures AgentOk(AgentQueue.Step(agent, AgentQueue.ReplyGrows(AgentQueue.RunTask(r))), a, handouts, posts)
  {
    var move := AgentQueue.ReplyGrows(AgentQueue.RunTask(r));
    AgentQueue.InvStep(agent, move);
    forall q ensures ShareOk(AgentQueue.Step(agent, move), a, q, handouts, posts) {
      assert ShareOk(agent, a, q, handouts, posts);
      AgentQueue.HeldStep(agent, move, AgentQueue.RunTask(q));
    }
  }

  lemma InvClaimRow(s: System, a: AgentId, r: RunId)
    requires Inv(s) && r in s.rows && s.rows[r].status == Queued
    ensures Inv(s.(rows := Claim(s.rows, r, a), handouts := s.handouts + [Handout(a, r)]))
  {
    QueuedIsNowhere(s, r);
    ClaimEvolves(s.rows, r, a);
    var rows' := Claim(s.rows, r, a);
    RowsOkUpdated(s.rows, rows', s.drawn, s.jobs, s.ceiling);
    ChainOkUpdated(s.rows, rows', s.finals, s.born);
    HandoutsOkClaim(s, a, r);
    AgentsOkHandout(s, Handout(a, r));
    CancelOkUpdated(s.rows, rows', s);
    SweptOkUpdated(s.rows, rows', s);
    HeirsOkUpdated(s.rows, rows', s.finals, s.drawn);
    ClaimKeepsPhases(s, a, r);
  }

  lemma InvClaim(s: System, a: AgentId, r: RunId, live: bool)
    requires Inv(s) && CanClaim(s, a, r, live)
    ensures Inv(DoClaim(s, a, r, live))
  {
    InvClaimRow(s, a, r);
    if live {
      QueuedIsNowhere(s, r);
      var s1 := s.(rows := Claim(s.rows, r, a), handouts := s.handouts + [Handout(a, r)]);
      AgentOkReply(s.agents[a], a, r, s1.handouts, s.posts);
      InvAgentReplaced(s1, a, DoClaim(s, a, r, live).agents[a]);
    }
  }

  lemma ClaimKeepsPhases(s: System, a: AgentId, r: RunId)
    requires Inv(s) && r in s.rows && s.rows[r].status == Queued
    ensures PhasesOk(s.finals, Claim(s.rows, r, a), s.drawn, s.ceiling, s.overwritten)
  {
  }

  // --- Agents ----------------------------------------------------------------------

  lemma InvAgentReplaced(s: System, a: AgentId, agent: AgentQueue.Agent)
    requires Inv(s) && AgentOk(agent, a, s.handouts, s.posts) && ContextOk(s.rows, s.drawn, agent.worker)
    ensures Inv(s.(agents := s.agents[a := agent]))
  {
  }

  lemma ShareOkOwnMove(agent: AgentQueue.Agent, a: AgentId, move: AgentQueue.Action, r: RunId,
                       handouts: seq<Handout>, posts: seq<Post>)
    requires OwnMove(agent, move) && ShareOk(agent, a, r, handouts, posts)
    ensures ShareOk(AgentQueue.Step(agent, move), a, r, handouts, posts)
  {
    AgentQueue.HeldStep(agent, move, AgentQueue.RunTask(r));
  }

  lemma InvAgentMoves(s: System, a: AgentId, move: AgentQueue.Action)
    requires Inv(s) && a in s.agents && OwnMove(s.agents[a], move)
    ensures Inv(MoveAgent(s, a, move))
  {
    var agent := s.agents[a];
    AgentQueue.InvStep(agent, move);
    forall r ensures ShareOk(AgentQueue.Step(agent, move), a, r, s.handouts, s.posts) {
      assert ShareOk(agent, a, r, s.handouts, s.posts);
      ShareOkOwnMove(agent, a, move, r, s.handouts, s.posts);
    }
    InvAgentReplaced(s, a, AgentQueue.Step(agent, move));
  }

  /** A run was handed to one agent only. */
  lemma SameHandout(s: System, a: AgentId, b: AgentId, r: RunId)
    requires HandoutsOk(s.rows, s.drawn, s.handouts)
    requires Handout(a, r) in s.handouts && Handout(b, r) in s.handouts
    ensures a == b
  {
  }

  lemma PostShares(s: System, a: AgentId, p: Post, b: AgentId, r: RunId)
    requires Inv(s) && Executing(s, a) && p.run == s.agents[a].worker.task.run && b in s.agents
    ensures var agent := if b == a then AgentQueue.Step(s.agents[a], AgentQueue.PostResult) else s.agents[b];
            ShareOk(agent, b, r, s.handouts, s.posts + [p])
  {
    var posts' := s.posts + [p];
    assert ShareOk(s.agents[a], a, p.run, s.handouts, s.posts);
    assert ShareOk(s.agents[b], b, r, s.handouts, s.posts);
    assert posts'[|s.posts|] == p;
    assert HasPosted(posts', r) <==> HasPosted(s.posts, r) || r == p.run by {
      if HasPosted(s.posts, r) {
        var i :| 0 <= i < |s.posts| && s.posts[i].run == r;
        assert posts'[i].run == r;
      }
    }
    if b == a {
      AgentQueue.HeldStep(s.agents[a], AgentQueue.PostResult, AgentQueue.RunTask(r));
    } else if r == p.run && AgentQueue.Held(s.agents[b], AgentQueue.RunTask(r)) > 0 {
      SameHandout(s, a, b, r);
    }
  }

  lemma PostKeepsPosts(s: System, a: AgentId, p: Post)
    requires Inv(s) && Executing(s, a) && p.run == s.agents[a].worker.task.run && p.agent == a
    ensures PostsOk(s.posts + [p], s.handouts)
    ensures FinalsOk(s.finals, s.posts + [p], s.swept)
  {
    assert AgentOk(s.agents[a], a, s.handouts, s.posts);
    assert ShareOk(s.agents[a], a, p.run, s.handouts, s.posts);
    forall i | 0 <= i < |s.finals| ensures SourceOk(s.finals[i], s.posts + [p], s.swept) {
      assert SourceOk(s.finals[i], s.posts, s.swept);
    }
  }

  /** A run posts exactly one result, as `TaskResults` does, and says it was cancelled only if its context was. */
  lemma OneResult(a: AgentId, r: RunId, kind: Kind, world: AgentTask.World, figures: Option<int>) returns (p: Post)
    ensures Outgoing(a, r, kind, world, figures) == [p] && p.agent == a && p.run == r
    ensures p.result.status == AgentTask.Cancelled ==> world.cancel.From?
    ensures AgentTask.TaskResults(TaskOf(kind), world) == [p.result] && p.world == world && p.stats == figures && !p.delivered
  {
    var results := AgentTask.TaskResults(TaskOf(kind), world);
    assert results[0] in results;
    p := Post(a, r, results[0], figures, false, world);
  }

  lemma InvPosted(s: System, a: AgentId, p: Post)
    requires Inv(s) && Executing(s, a) && p.run == s.agents[a].worker.task.run && p.agent == a
    requires p.result.status == AgentTask.Cancelled ==> s.agents[a].worker.cancelled
    ensures Inv(MoveAgent(s, a, AgentQueue.PostResult).(posts := s.posts + [p]))
  {
    var agents', posts' := MoveAgent(s, a, AgentQueue.PostResult).agents, s.posts + [p];
    PostKeepsPosts(s, a, p);
    PostKeepsAgents(s, a, p);
    assert ContextOk(s.rows, s.drawn, s.agents[a].worker);
    assert CancelOk(s.rows, s.drawn, s.answers, posts', agents');
  }

  lemma PostKeepsAgents(s: System, a: AgentId, p: Post)
    requires Inv(s) && Executing(s, a) && p.run == s.agents[a].worker.task.run
    ensures AgentsOk(MoveAgent(s, a, AgentQueue.PostResult).agents, s.handouts, s.posts + [p])
  {
    var agents', posts' := MoveAgent(s, a, AgentQueue.PostResult).agents, s.posts + [p];
    AgentQueue.InvStep(s.agents[a], AgentQueue.PostResult);
    forall b | b in agents' ensures AgentOk(agents'[b], b, s.handouts, posts') {
      assert AgentOk(s.agents[b], b, s.handouts, s.posts);
      forall r ensures ShareOk(agents'[b], b, r, s.handouts, posts') {
        PostShares(s, a, p, b, r);
      }
    }
  }

  lemma InvEnd(s: System, a: AgentId, kind: Kind, world: AgentTask.World, figures: Option<int>)
    requires Inv(s) && CanEnd(s, a, kind, world)
    ensures Inv(DoEnd(s, a, kind, world, figures))
  {
    var p := OneResult(a, s.agents[a].worker.task.run, kind, world, figures);
    InvPosted(s, a, p);
  }

  lemma InvAnswer(s: System, answer: Answer)
    requires Inv(s) && answer in s.answers && Executing(s, answer.agent)
    ensures Inv(DoAnswer(s, answer))
  {
    var agent := s.agents[answer.agent];
    if answer.cancelled && agent.worker.task.run == answer.run {
      AgentQueue.InvStep(agent, AgentQueue.CancelContext);
      forall r ensures ShareOk(AgentQueue.Step(agent, AgentQueue.CancelContext), answer.agent, r, s.handouts, s.posts) {
        assert ShareOk(agent, answer.agent, r, s.handouts, s.posts);
        AgentQueue.HeldStep(agent, AgentQueue.CancelContext, AgentQueue.RunTask(r));
      }
      InvAgentReplaced(s, answer.agent, AgentQueue.Step(agent, AgentQueue.CancelContext));
    }
  }

  // --- Results ---------------------------------------------------------------------

  lemma DeliveredShares(s: System, k: nat, posts': seq<Post>)
    requires Inv(s) && k < |s.posts| && posts' == s.posts[k := s.posts[k].(delivered := true)]
    ensures AgentsOk(s.agents, s.handouts, posts')
  {
    forall r ensures HasPosted(posts', r) <==> HasPosted(s.posts, r) {
      if HasPosted(s.posts, r) {
        var i :| 0 <= i < |s.posts| && s.posts[i].run == r;
        assert posts'[i].run == r;
      }
      if HasPosted(posts', r) {
        var i :| 0 <= i < |posts'| && posts'[i].run == r;
        assert s.posts[i].run == r;
      }
    }
    forall a | a in s.agents ensures AgentOk(s.agents[a], a, s.handouts, posts') {
      assert AgentOk(s.agents[a], a, s.handouts, s.posts);
      forall r ensures ShareOk(s.agents[a], a, r, s.handouts, posts') {
        assert ShareOk(s.agents[a], a, r, s.handouts, s.posts);
      }
    }
  }

  lemma InvMarkDelivered(s: System, k: nat)
    requires Inv(s) && k < |s.posts|
    ensures Inv(s.(posts := s.posts[k := s.posts[k].(delivered := true)]))
  {
    var posts' := s.posts[k := s.posts[k].(delivered := true)];
    DeliveredShares(s, k, posts');
    forall i | 0 <= i < |s.finals| ensures SourceOk(s.finals[i], posts', s.swept) {
      assert SourceOk(s.finals[i], s.posts, s.swept);
    }
    forall i | 0 <= i < |posts'| ensures posts'[i].run == s.posts[i].run && posts'[i].agent == s.posts[i].agent &&
                                         posts'[i].result == s.posts[i].result {}
  }

  /** An undelivered post belongs to a run that no finalization has been started for. */
  lemma NoFinalYet(s: System, k: nat)
    requires Inv(s) && k < |s.posts| && !s.posts[k].delivered
    ensures forall i :: 0 <= i < |s.finals| ==> s.finals[i].run != s.posts[k].run
  {
  }

  /** Starting a finalization for a run that has none. */
  lemma InvStartFinal(s: System, f: Final)
    requires Inv(s) && SourceOk(f, s.posts, s.swept) && f.run in s.drawn && (f.phase.Begun? || f.phase.Notifying?)
    requires forall i :: 0 <= i < |s.finals| ==> s.finals[i].run != f.run
    ensures Inv(s.(finals := s.finals + [f]))
  {
  }

  lemma ReportHarmless(s: System, p: Post)
    ensures HarmlessUpdate(s, Report(s.rows, p.run, p.agent, p.result.status, p.stats, s.now), s.overwritten)
  {
  }

  /** The row update of a result, together with marking the result processed. */
  lemma InvReport(s: System, k: nat)
    requires Inv(s) && k < |s.posts|
    ensures Inv(DoDeliver(s, k).(finals := s.finals))
  {
    var p := s.posts[k];
    ReportHarmless(s, p);
    var rows' := Report(s.rows, p.run, p.agent, p.result.status, p.stats, s.now);
    InvUpdated(s, rows', s.overwritten);
    InvMarkDelivered(s.(rows := rows', overwritten := s.overwritten), k);
  }

  lemma InvDeliver(s: System, k: nat)
    requires Inv(s) && k < |s.posts| && !s.posts[k].delivered
    ensures Inv(DoDeliver(s, k))
  {
    InvReport(s, k);
    if Followup(s, k) != [] {
      NoFinalYet(s, k);
      InvStartFinal(DoDeliver(s, k).(finals := s.finals), Followup(s, k)[0]);
      assert s.finals + Followup(s, k) == s.finals + [Followup(s, k)[0]];
    } else {
      assert s.finals + Followup(s, k) == s.finals;
    }
  }

  // --- Timers and operators ----------------------------------------------------------

  lemma InvProgress(s: System, a: AgentId, r: RunId, value: int)
    requires Inv(s)
    ensures Inv(s.(rows := Progress(s.rows, r, a, value)))
  {
    ProgressEvolves(s.rows, r, a, value);
    InvUpdated(s, Progress(s.rows, r, a, value), s.overwritten);
  }

  lemma InvMarkSwept(s: System, r: RunId)
    requires Inv(s) && r in s.drawn && (r in s.rows ==> s.rows[r].status != Queued)
    requires forall h :: h in s.handouts ==> h.run != r
    ensures Inv(s.(swept := s.swept + {r}))
  {
  }

  lemma InvExpire(s: System, r: RunId, staleBefore: Time)
    requires Inv(s)
    ensures Inv(s.(rows := Expire(s.rows, r, staleBefore, s.now)))
  {
    ExpireEvolves(s.rows, r, staleBefore, s.now);
    InvUpdated(s, Expire(s.rows, r, staleBefore, s.now), s.overwritten);
  }

  lemma InvSweep(s: System, r: RunId, staleBefore: Time)
    requires Inv(s) && r in s.rows && Stale(s.rows[r], staleBefore)
    ensures Inv(DoSweep(s, r, staleBefore))
  {
    QueuedIsNowhere(s, r);
    InvExpire(s, r, staleBefore);
    var s1 := s.(rows := Expire(s.rows, r, staleBefore, s.now));
    InvMarkSwept(s1, r);
    InvStartFinal(s1.(swept := s.swept + {r}), Final(r, FromSweep, Begun));
  }

  lemma CancelHarmless(s: System, r: RunId)
    ensures HarmlessUpdate(s, CancelWrite(s.rows, r, s.now), DoCancel(s, r).overwritten)
  {
  }

  lemma InvCancel(s: System, r: RunId)
    requires Inv(s)
    ensures Inv(DoCancel(s, r))
  {
    CancelHarmless(s, r);
    InvUpdated(s, CancelWrite(s.rows, r, s.now), DoCancel(s, r).overwritten);
  }

  // --- Finalizations -------------------------------------------------------------------

  lemma FinalsOkPhase(s: System, i: nat, phase: Phase)
    requires FinalsOk(s.finals, s.posts, s.swept) && i < |s.finals|
    ensures FinalsOk(SetPhase(s, i, phase).finals, s.posts, s.swept)
  {
  }

  lemma InvPhase(s: System, i: nat, phase: Phase)
    requires Inv(s) && i < |s.finals| && !s.finals[i].phase.Done?
    requires PhaseOk(s.finals[i].(phase := phase), s.rows, s.drawn, s.ceiling, s.overwritten)
    requires HeirOk(s.finals[i].(phase := phase), s.rows, s.drawn)
    ensures Inv(SetPhase(s, i, phase))
  {
  }

  lemma InvFinalRead(s: System, i: nat)
    requires Inv(s) && Begins(s, i)
    ensures Inv(SetPhase(s, i, PhaseRead(s, s.finals[i].run)))
  {
  }

  lemma InvFinalPhase(s: System, i: nat, phase: Phase)
    requires Inv(s) && Unfinished(s, i)
    requires phase.Notifying? || phase.Abandoned? || phase == Done(Notified(PassesNotifyFilter(s, s.finals[i].run))) ||
             (s.finals[i].phase.Retriable? && phase == Clear(s.finals[i].phase.job, s.finals[i].phase.trigger,
                                                             s.finals[i].phase.attempt, s.finals[i].phase.delay))
    ensures Inv(SetPhase(s, i, phase))
  {
    assert PhaseOk(s.finals[i], s.rows, s.drawn, s.ceiling, s.overwritten);
    InvPhase(s, i, phase);
  }

  lemma RetryKeepsChain(s: System, i: nat, id: RunId)
    requires Inv(s) && MayInsert(s, i) && id !in s.drawn
    requires s.finals[i].phase.job in s.jobs && s.finals[i].run in s.rows
    ensures var s' := DoInsertRetry(s, i, id); ChainOk(s'.rows, s'.finals, s'.born)
  {
    var s' := DoInsertRetry(s, i, id);
    assert PhaseOk(s.finals[i], s.rows, s.drawn, s.ceiling, s.overwritten);
    forall q | q in s'.rows && s'.rows[q].retryOf.Some? ensures LinkOk(s'.rows, s'.finals, s'.born, q) {
      if q != id {
        assert LinkOk(s.rows, s.finals, s.born, q);
      }
    }
  }

  lemma RetryRowOk(s: System, i: nat, id: RunId)
    requires Inv(s) && MayInsert(s, i) && id !in s.drawn
    requires s.finals[i].phase.job in s.jobs && s.finals[i].run in s.rows
    ensures var s' := DoInsertRetry(s, i, id);
            id in s'.rows && s'.rows[id].status == Queued && RowOk(s'.rows[id], s.jobs, s.ceiling) &&
            PhaseOk(s.finals[i].(phase := Done(Retried(id))), s'.rows, s'.drawn, s.ceiling, s.overwritten) &&
            HeirOk(s.finals[i].(phase := Done(Retried(id))), s'.rows, s'.drawn)
  {
  }

  lemma InvInsertRetry(s: System, i: nat, id: RunId)
    requires Inv(s) && MayInsert(s, i) && id !in s.drawn
    ensures Inv(DoInsertRetry(s, i, id))
  {
    if s.finals[i].phase.job in s.jobs && s.finals[i].run in s.rows {
      InvRetryInserted(s, i, id);
    } else {
      InvFinalPhase(s, i, Notifying);
    }
  }

  lemma InvRetryInserted(s: System, i: nat, id: RunId)
    requires Inv(s) && MayInsert(s, i) && id !in s.drawn
    requires s.finals[i].phase.job in s.jobs && s.finals[i].run in s.rows
    ensures Inv(DoInsertRetry(s, i, id))
  {
    RetryRowOk(s, i, id);
    RetryKeepsChain(s, i, id);
    var row := DoInsertRetry(s, i, id).rows[id];
    InsertKeepsRest(s, id, row);
    FinalsOkPhase(DoInsert(s, id, row), i, Done(Retried(id)));
  }

  // --- All actions -----------------------------------------------------------------------

  predicate FinalizationStep(act: Action) {
    act.FinalRead? || act.FinalActive? || act.FinalInsert? || act.FinalNotify? || act.FinalAbandon?
  }

  lemma InvFinalStep(s: System, act: Action)
    requires Inv(s) && Enabled(s, act) && FinalizationStep(act)
    ensures Inv(Apply(s, act))
  {
    match act
    case FinalRead(i) => InvFinalRead(s, i);
    case FinalActive(i) => InvFinalPhase(s, i, Apply(s, act).finals[i].phase);
    case FinalInsert(i, id) => InvInsertRetry(s, i, id);
    case FinalNotify(i) => InvFinalPhase(s, i, Done(Notified(PassesNotifyFilter(s, s.finals[i].run))));
    case FinalAbandon(i) => InvFinalPhase(s, i, Abandoned);
  }

  lemma InvAsk(s: System, a: AgentId, r: RunId)
    requires Inv(s) && CanAsk(s, a, r)
    ensures Inv(s.(answers := s.answers + {Answer(a, r, TaskCancelled(s, r))}))
  {
  }

  lemma InvStep(s: System, act: Action)
    requires Inv(s) && Enabled(s, act)
    ensures Inv(Apply(s, act))
  {
    if FinalizationStep(act) {
      InvFinalStep(s, act);
    } else if act.ClaimRun? || act.AgentMoves? || act.RunEnds? || act.AskState? || act.AnswerArrives? {
      InvAgentStep(s, act);
    } else {
      InvServerStep(s, act);
    }
  }

  lemma InvAgentStep(s: System, act: Action)
    requires Inv(s) && Enabled(s, act)
    requires act.ClaimRun? || act.AgentMoves? || act.RunEnds? || act.AskState? || act.AnswerArrives?
    ensures Inv(Apply(s, act))
  {
    match act
    case ClaimRun(a, r, live) => InvClaim(s, a, r, live);
    case AgentMoves(a, move) => InvAgentMoves(s, a, move);
    case RunEnds(a, kind, world, figures) => InvEnd(s, a, kind, world, figures);
    case AskState(a, r) => InvAsk(s, a, r);
    case AnswerArrives(answer) => InvAnswer(s, answer);
  }

  lemma InvServerStep(s: System, act: Action)
    requires Inv(s) && Enabled(s, act) && !FinalizationStep(act)
    requires !(act.ClaimRun? || act.AgentMoves? || act.RunEnds? || act.AskState? || act.AnswerArrives?)
    ensures Inv(Apply(s, act))
  {
    match act
    case PutJob(j, settings) => InvPutJob(s, j, settings);
    case DeleteJob(j) => InvDeleteJob(s, j);
    case Insert(id, j, kind, trigger, host) => InvInsert(s, id, NewRun(j, kind, trigger, host, s.now));
    case Tick(_) =>
    case ProgressArrives(a, r, value) => InvProgress(s, a, r, value);
    case Deliver(k) => InvDeliver(s, k);
    case SweepRun(r, staleBefore) => InvSweep(s, r, staleBefore);
    case CancelCheck(_) =>
    case CancelLands(r) => InvCancel(s, r);
  }

  lemma {:induction false} InvRun(s: System, acts: seq<Action>)
    requires Inv(s) && Executes(s, acts)
    ensures Inv(After(s, acts))
    decreases |acts|
  {
    if acts != [] {
      InvStep(s, acts[0]);
      InvRun(Apply(s, acts[0]), acts[1..]);
    }
  }

  lemma InvReachable(s: System)
    requires Reachable(s)
    ensures Inv(s)
  {
    var init: System, acts: seq<Action> :| Initial(init) && Executes(init, acts) && After(init, acts) == s;
    InvInitial(init);
    InvRun(init, acts);
  }
}
