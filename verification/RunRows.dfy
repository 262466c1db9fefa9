/**
 Rows of the run tables (`job_runs` and `restore_runs`) and the guarded updates
 the server applies to them. Each function is one UPDATE, INSERT or DELETE
 statement, and leaves the table as it is when its WHERE clause matches nothing.
 */
module RunRows {
  import opened Wrappers
  import AgentQueue
  import AgentTask

  type RunId = AgentQueue.RunId
  type JobId = nat
  type AgentId = nat
  type Time = int

  datatype Kind = Backup | Check | Restore
  datatype Trigger = Schedule | Manual
  datatype Status = Queued | Running | Success | Failed | Cancelled

  datatype Run = Run(
    job: JobId,
    kind: Kind,
    trigger: Trigger,
    attempt: nat,
    retryOf: Option<RunId>,
    notBefore: Option<Time>,
    created: Time,
    status: Status,
    agent: Option<AgentId>,
    finishedAt: Option<Time>,
    stats: Option<int>
  )

  type Rows = map<RunId, Run>

  predicate Terminal(st: Status) {
    st.Success? || st.Failed? || st.Cancelled?
  }

  predicate Active(st: Status) {
    st.Queued? || st.Running?
  }

  function Reported(st: AgentTask.Status): Status {
    match st
    case Success => Success
    case Failed => Failed
    case Cancelled => Cancelled
  }

  /** A new run, waiting in the queue. */
  function NewRun(job: JobId, kind: Kind, trigger: Trigger, agent: Option<AgentId>, now: Time): Run {
    Run(job, kind, trigger, 1, None, None, now, Queued, agent, None, None)
  }

  /** The next attempt of a failed backup. */
  function RetryRun(job: JobId, trigger: Trigger, attempt: nat, retryOf: RunId, notBefore: Time, now: Time): Run {
    Run(job, Backup, trigger, attempt, Some(retryOf), Some(notBefore), now, Queued, None, None, None)
  }

  predicate Due(run: Run, now: Time) {
    run.notBefore.None? || run.notBefore.value <= now
  }

  /** The claim of a poll: `queued` becomes `running` for the polling agent. */
  function Claim(rows: Rows, id: RunId, agent: AgentId): Rows {
    if id in rows && rows[id].status == Queued
    then rows[id := rows[id].(status := Running, agent := Some(agent))]
    else rows
  }

  /** True when a result or progress post of `agent` finds the run. */
  predicate FoundBy(rows: Rows, id: RunId, agent: AgentId) {
    id in rows && rows[id].agent == Some(agent)
  }

  /** The row update of a result post. A cancel that came first wins and keeps its finish time. */
  function Report(rows: Rows, id: RunId, agent: AgentId, st: AgentTask.Status, stats: Option<int>, now: Time): Rows {
    if !FoundBy(rows, id, agent) then rows
    else
      var run := rows[id];
      if st == AgentTask.Cancelled then
        if run.status == Running || run.status == Cancelled
        then rows[id := run.(status := Cancelled, finishedAt := if run.finishedAt.Some? then run.finishedAt else Some(now))]
        else rows
      else if run.status == Running then
        rows[id := run.(status := Reported(st), finishedAt := Some(now),
                        stats := if run.kind == Check then run.stats else stats)]
      else rows
  }

  function Progress(rows: Rows, id: RunId, agent: AgentId, stats: int): Rows {
    if FoundBy(rows, id, agent) && rows[id].status == Running
    then rows[id := rows[id].(stats := Some(stats))]
    else rows
  }

  /** A queued backup or check that waited past `staleBefore`, counted from when it became due. */
  predicate Stale(run: Run, staleBefore: Time) {
    && run.kind != Restore
    && run.status == Queued
    && (if run.notBefore.Some? then run.notBefore.value else run.created) < staleBefore
  }

  function Expire(rows: Rows, id: RunId, staleBefore: Time, now: Time): Rows {
    if id in rows && Stale(rows[id], staleBefore)
    then rows[id := rows[id].(status := Failed, finishedAt := Some(now))]
    else rows
  }

  /**
   The write of an operator's cancel. A restore is only cancelled while it is
   still active; the update of a job run names the id alone.
   */
  function CancelWrite(rows: Rows, id: RunId, now: Time): Rows {
    if id in rows && (rows[id].kind == Restore ==> Active(rows[id].status))
    then rows[id := rows[id].(status := Cancelled, finishedAt := Some(now))]
    else rows
  }

  /** Deleting a job takes its backups and checks along; restores stay. */
  function RemoveJob(rows: Rows, job: JobId): Rows {
    map id | id in rows && (rows[id].job != job || rows[id].kind == Restore) :: rows[id]
  }

  // --- What no update ever does ----------------------------------------------

  /** The columns that are written once, when the row is inserted. */
  predicate SameIdentity(x: Run, y: Run) {
    && x.job == y.job && x.kind == y.kind && x.trigger == y.trigger && x.attempt == y.attempt
    && x.retryOf == y.retryOf && x.notBefore == y.notBefore && x.created == y.created
  }

  /**
   The only ways a row moves: forward from `queued` over `running` to an
   outcome, and from `success` or `failed` to `cancelled`. Nothing returns to
   the queue and nothing leaves `cancelled`, whose figures stay as they are.
   */
  predicate Evolves(x: Run, y: Run) {
    && SameIdentity(x, y)
    && (y.status == Queued ==> y == x)
    && (Terminal(x.status) ==> y.status == x.status || y.status == Cancelled)
    && (x.status != Queued ==> y.agent == x.agent)
    && (Terminal(x.status) ==> y.stats == x.stats)
    && (Coherent(x) ==> Coherent(y))
  }

  /** A row is finished exactly when it has an outcome, and running only for an agent. */
  predicate Coherent(x: Run) {
    && (x.finishedAt.Some? <==> Terminal(x.status))
    && (x.status == Running ==> x.agent.Some?)
  }

  ghost predicate Updated(rows: Rows, rows': Rows) {
    && rows'.Keys == rows.Keys
    && forall id :: id in rows ==> Evolves(rows[id], rows'[id])
  }

  lemma ClaimEvolves(rows: Rows, id: RunId, agent: AgentId)
    ensures Updated(rows, Claim(rows, id, agent))
  {
  }

  lemma ReportEvolves(rows: Rows, id: RunId, agent: AgentId, st: AgentTask.Status, stats: Option<int>, now: Time)
    ensures Updated(rows, Report(rows, id, agent, st, stats, now))
  {
  }

  lemma ProgressEvolves(rows: Rows, id: RunId, agent: AgentId, stats: int)
    ensures Updated(rows, Progress(rows, id, agent, stats))
  {
  }

  lemma ExpireEvolves(rows: Rows, id: RunId, staleBefore: Time, now: Time)
    ensures Updated(rows, Expire(rows, id, staleBefore, now))
  {
  }

  lemma CancelWriteEvolves(rows: Rows, id: RunId, now: Time)
    ensures Updated(rows, CancelWrite(rows, id, now))
  {
  }
}
