/**
 The run protocol between the server, its agents, the operators and the timers,
 as one transition system. Database statements are atomic; everything between
 two statements of one request, every message and every goroutine of an agent
 may be delayed, lost or overtaken.

 Statements that only read before a guarded update are merged with it, except
 where another step can come between them: the check and the write of an
 operator's cancel, and the three statements of a retry.
 */
module Protocol {
  import opened Wrappers
  import AgentQueue
  import AgentTask
  import opened RunRows

  datatype Job = Job(retryMax: nat, retryDelay: nat)

  /** A run put into the reply of an agent's poll. */
  datatype Handout = Handout(agent: AgentId, run: RunId)

  /** A result on its way to the server, or already processed by it; `world` is what the agent saw (history). */
  datatype Post = Post(agent: AgentId, run: RunId, result: AgentTask.Result, stats: Option<int>, delivered: bool,
                       world: AgentTask.World)

  /** The server's answer to an agent asking whether a task was cancelled. */
  datatype Answer = Answer(agent: AgentId, run: RunId, cancelled: bool)

  /** How a finalization ends: a queued successor, or the notify call (and whether it passes the status filter). */
  datatype Outcome = Retried(next: RunId) | Notified(delivered: bool)

  /** Where a call of `finalize` is. */
  datatype Phase =
    | Begun
    | Retriable(job: JobId, trigger: Trigger, attempt: nat, delay: nat) // read as a failed backup with attempts left
    | Clear(job: JobId, trigger: Trigger, attempt: nat, delay: nat)     // and no other backup of the job was active
    | Notifying
    | Done(outcome: Outcome)
    | Abandoned                                                         // the server stopped before it was done

  datatype Source = FromPost(index: nat) | FromSweep

  datatype Final = Final(run: RunId, source: Source, phase: Phase)

  datatype System = System(
    rows: Rows,
    jobs: map<JobId, Job>,
    now: Time,
    agents: map<AgentId, AgentQueue.Agent>,
    answers: set<Answer>,
    posts: seq<Post>,
    cancels: multiset<RunId>,       // cancels between their check and their write
    finals: seq<Final>,
    // History
    drawn: set<RunId>,              // every run id ever drawn; ids are random UUIDs and never drawn twice
    ceiling: map<JobId, nat>,       // the largest retry_max each job ever had
    handouts: seq<Handout>,
    swept: set<RunId>,              // runs failed by the queue timeout
    overwritten: set<RunId>,        // runs whose recorded outcome a cancel replaced
    born: map<RunId, nat>           // for each retry, the finalization that queued it
  )

  datatype Action =
    | PutJob(job: JobId, settings: Job)
    | DeleteJob(job: JobId)
    | Insert(id: RunId, job: JobId, kind: Kind, trigger: Trigger, host: Option<AgentId>)
    | Tick(time: Time)
    | ClaimRun(agent: AgentId, run: RunId, live: bool)
    | AgentMoves(agent: AgentId, move: AgentQueue.Action)
    | RunEnds(agent: AgentId, ended: Kind, world: AgentTask.World, figures: Option<int>)
    | AskState(agent: AgentId, run: RunId)
    | AnswerArrives(answer: Answer)
    | ProgressArrives(agent: AgentId, run: RunId, value: int)
    | Deliver(index: nat)
    | SweepRun(run: RunId, staleBefore: Time)
    | CancelCheck(run: RunId)
    | CancelLands(run: RunId)
    | FinalRead(index: nat)
    | FinalActive(index: nat)
    | FinalInsert(index: nat, id: RunId)
    | FinalNotify(index: nat)
    | FinalAbandon(index: nat)

  predicate Initial(s: System) {
    && s.rows == map[] && s.jobs == map[] && s.answers == {} && s.posts == [] && s.cancels == multiset{}
    && s.finals == [] && s.drawn == {} && s.ceiling == map[] && s.handouts == [] && s.swept == {}
    && s.overwritten == {} && s.born == map[]
    && forall a :: a in s.agents ==> s.agents[a] == AgentQueue.New()
  }

  // --- Agents -----------------------------------------------------------------

  /** The run the agent's worker is executing, if it is executing one. */
  predicate Executing(s: System, a: AgentId) {
    a in s.agents && s.agents[a].worker.Running? && s.agents[a].worker.task.RunTask?
  }

  /** Moves an agent makes without the run protocol taking part. */
  predicate OwnMove(agent: AgentQueue.Agent, move: AgentQueue.Action) {
    && AgentQueue.Enabled(agent, move)
    && !move.CancelContext?
    && (move.ReplyGrows? ==> move.task.StatsTask?)
    && (move.PostResult? ==> agent.worker.task.StatsTask?)
  }

  function MoveAgent(s: System, a: AgentId, move: AgentQueue.Action): System
    requires a in s.agents && AgentQueue.Enabled(s.agents[a], move)
  {
    s.(agents := s.agents[a := AgentQueue.Step(s.agents[a], move)])
  }

  /**
   A claim whose reply the agent no longer waits for changes the row all the
   same. Which agent a job belongs to is read before the claim and may have
   changed since, so any agent may be the one that claims a backup or check.
   */
  predicate CanClaim(s: System, a: AgentId, r: RunId, live: bool) {
    && a in s.agents
    && r in s.rows && s.rows[r].status == Queued && Due(s.rows[r], s.now)
    && (s.rows[r].kind == Restore ==> s.rows[r].agent == Some(a))
    && (live ==> s.agents[a].loop.Awaiting?)
  }

  function DoClaim(s: System, a: AgentId, r: RunId, live: bool): System
    requires CanClaim(s, a, r, live)
  {
    var s1 := s.(rows := Claim(s.rows, r, a), handouts := s.handouts + [Handout(a, r)]);
    if live then MoveAgent(s1, a, AgentQueue.ReplyGrows(AgentQueue.RunTask(r))) else s1
  }

  function TaskOf(kind: Kind): AgentTask.TaskType {
    match kind
    case Backup => AgentTask.BackupTask
    case Check => AgentTask.CheckTask
    case Restore => AgentTask.RestoreTask
  }

  /** Everything the execution of a run posts, see `AgentTask.Runner.RunTask`. */
  function Outgoing(a: AgentId, r: RunId, kind: Kind, world: AgentTask.World, figures: Option<int>): seq<Post> {
    var results := AgentTask.TaskResults(TaskOf(kind), world);
    seq(|results|, i requires 0 <= i < |results| => Post(a, r, results[i], figures, false, world))
  }

  /** The worker is done with a run, in a world in which its context was cancelled only if the server said so. */
  predicate CanEnd(s: System, a: AgentId, kind: Kind, world: AgentTask.World) {
    && Executing(s, a)
    && (world.cancel.From? ==> s.agents[a].worker.cancelled)
    && (s.agents[a].worker.task.run in s.rows ==> s.rows[s.agents[a].worker.task.run].kind == kind)
  }

  function DoEnd(s: System, a: AgentId, kind: Kind, world: AgentTask.World, figures: Option<int>): System
    requires Executing(s, a)
  {
    MoveAgent(s, a, AgentQueue.PostResult)
      .(posts := s.posts + Outgoing(a, s.agents[a].worker.task.run, kind, world, figures))
  }

  /** `taskState`: a missing run counts as cancelled, another agent's run is not found. */
  predicate CanAsk(s: System, a: AgentId, r: RunId) {
    r in s.drawn && (r in s.rows ==> s.rows[r].agent == Some(a))
  }

  function TaskCancelled(s: System, r: RunId): bool {
    r !in s.rows || s.rows[r].status == Cancelled
  }

  function DoAnswer(s: System, answer: Answer): System
    requires Executing(s, answer.agent)
  {
    if answer.cancelled && s.agents[answer.agent].worker.task.run == answer.run
    then MoveAgent(s, answer.agent, AgentQueue.CancelContext)
    else s
  }

  // --- Results ----------------------------------------------------------------

  /**
   What a processed result sets off: a backup that was not stopped is finalized
   (even if a cancel had come first), a check is announced if its verdict was
   recorded, a restore ends here.
   */
  function Followup(s: System, k: nat): seq<Final>
    requires k < |s.posts|
  {
    var p := s.posts[k];
    if !FoundBy(s.rows, p.run, p.agent) || p.result.status == AgentTask.Cancelled then []
    else match s.rows[p.run].kind
      case Backup => [Final(p.run, FromPost(k), Begun)]
      case Check => if s.rows[p.run].status == Running then [Final(p.run, FromPost(k), Notifying)] else []
      case Restore => []
  }

  function DoDeliver(s: System, k: nat): System
    requires k < |s.posts|
  {
    var p := s.posts[k];
    s.(rows := Report(s.rows, p.run, p.agent, p.result.status, p.stats, s.now),
       posts := s.posts[k := p.(delivered := true)],
       finals := s.finals + Followup(s, k))
  }

  // --- Timers and operators ---------------------------------------------------

  function DoSweep(s: System, r: RunId, staleBefore: Time): System {
    s.(rows := Expire(s.rows, r, staleBefore, s.now),
       swept := s.swept + {r},
       finals := s.finals + [Final(r, FromSweep, Begun)])
  }

  /** A cancel that lands on a finished job run replaces the outcome recorded there. */
  predicate Overwrites(s: System, r: RunId) {
    r in s.rows && s.rows[r].kind != Restore && (s.rows[r].status == Success || s.rows[r].status == Failed)
  }

  function DoCancel(s: System, r: RunId): System {
    s.(rows := CancelWrite(s.rows, r, s.now),
       cancels := s.cancels - multiset{r},
       overwritten := if Overwrites(s, r) then s.overwritten + {r} else s.overwritten)
  }

  function DoPutJob(s: System, j: JobId, settings: Job): System {
    var top := if j in s.ceiling && s.ceiling[j] > settings.retryMax then s.ceiling[j] else settings.retryMax;
    s.(jobs := s.jobs[j := settings], ceiling := s.ceiling[j := top])
  }

  function DoDeleteJob(s: System, j: JobId): System {
    s.(jobs := s.jobs - {j}, rows := RemoveJob(s.rows, j))
  }

  function DoInsert(s: System, id: RunId, run: Run): System {
    s.(rows := s.rows[id := run], drawn := s.drawn + {id})
  }

  // --- Finalizations ----------------------------------------------------------

  function SetPhase(s: System, i: nat, phase: Phase): System
    requires i < |s.finals|
  {
    s.(finals := s.finals[i := s.finals[i].(phase := phase)])
  }

  /** The first statement of `scheduleRetry`: is this a failed backup with attempts left? */
  function PhaseRead(s: System, r: RunId): Phase {
    if r !in s.rows || s.rows[r].job !in s.jobs then Notifying
    else
      var run, job := s.rows[r], s.jobs[s.rows[r].job];
      if run.kind != Backup || run.status != Failed then Notifying
      else if run.attempt > job.retryMax then Notifying
      else Retriable(run.job, run.trigger, run.attempt, job.retryDelay)
  }

  /** The second one: another backup of the job on its way makes a retry redundant. */
  ghost predicate OtherBackupActive(s: System, r: RunId, job: JobId) {
    exists q :: q in s.rows && q != r && s.rows[q].job == job && s.rows[q].kind == Backup && Active(s.rows[q].status)
  }

  /** The third one: inserting the successor fails when the job or the run is gone. */
  function DoInsertRetry(s: System, i: nat, id: RunId): System
    requires i < |s.finals| && s.finals[i].phase.Clear?
  {
    var f := s.finals[i];
    if f.phase.job in s.jobs && f.run in s.rows then
      var next := RetryRun(f.phase.job, f.phase.trigger, f.phase.attempt + 1, f.run, s.now + f.phase.delay * 1000, s.now);
      SetPhase(DoInsert(s, id, next), i, Done(Retried(id))).(born := s.born[id := i])
    else SetPhase(s, i, Notifying)
  }

  /** `notifyJobRun` only goes on for a run that shows success or failure. */
  predicate PassesNotifyFilter(s: System, r: RunId) {
    r in s.rows && (s.rows[r].status == Success || s.rows[r].status == Failed)
  }

  // --- The transition relation ------------------------------------------------

  predicate Begins(s: System, i: nat) {
    i < |s.finals| && s.finals[i].phase.Begun?
  }

  predicate FoundRetriable(s: System, i: nat) {
    i < |s.finals| && s.finals[i].phase.Retriable?
  }

  predicate MayInsert(s: System, i: nat) {
    i < |s.finals| && s.finals[i].phase.Clear?
  }

  predicate MayNotify(s: System, i: nat) {
    i < |s.finals| && s.finals[i].phase.Notifying?
  }

  predicate Unfinished(s: System, i: nat) {
    Begins(s, i) || FoundRetriable(s, i) || MayInsert(s, i) || MayNotify(s, i)
  }

  predicate Enabled(s: System, act: Action) {
    match act
    case PutJob(j, _) => j in s.jobs || j !in s.ceiling
    case DeleteJob(j) => j in s.jobs
    case Insert(id, j, kind, _, host) => id !in s.drawn && j in s.jobs && (host.Some? <==> kind == Restore)
    case Tick(time) => s.now <= time
    case ClaimRun(a, r, live) => CanClaim(s, a, r, live)
    case AgentMoves(a, move) => a in s.agents && OwnMove(s.agents[a], move)
    case RunEnds(a, kind, world, _) => CanEnd(s, a, kind, world)
    case AskState(a, r) => CanAsk(s, a, r)
    case AnswerArrives(answer) => answer in s.answers && Executing(s, answer.agent)
    case ProgressArrives(_, _, _) => true
    case Deliver(k) => k < |s.posts| && !s.posts[k].delivered
    case SweepRun(r, staleBefore) => r in s.rows && staleBefore < s.now && Stale(s.rows[r], staleBefore)
    case CancelCheck(r) => r in s.rows && Active(s.rows[r].status)
    case CancelLands(r) => r in s.cancels
    case FinalRead(i) => Begins(s, i)
    case FinalActive(i) => FoundRetriable(s, i)
    case FinalInsert(i, id) => MayInsert(s, i) && id !in s.drawn
    case FinalNotify(i) => MayNotify(s, i)
    case FinalAbandon(i) => Unfinished(s, i)
  }

  ghost function Apply(s: System, act: Action): System
    requires Enabled(s, act)
  {
    match act
    case PutJob(j, settings) => DoPutJob(s, j, settings)
    case DeleteJob(j) => DoDeleteJob(s, j)
    case Insert(id, j, kind, trigger, host) => DoInsert(s, id, NewRun(j, kind, trigger, host, s.now))
    case Tick(time) => s.(now := time)
    case ClaimRun(a, r, live) => DoClaim(s, a, r, live)
    case AgentMoves(a, move) => MoveAgent(s, a, move)
    case RunEnds(a, kind, world, figures) => DoEnd(s, a, kind, world, figures)
    case AskState(a, r) => s.(answers := s.answers + {Answer(a, r, TaskCancelled(s, r))})
    case AnswerArrives(answer) => DoAnswer(s, answer)
    case ProgressArrives(a, r, value) => s.(rows := Progress(s.rows, r, a, value))
    case Deliver(k) => DoDeliver(s, k)
    case SweepRun(r, staleBefore) => DoSweep(s, r, staleBefore)
    case CancelCheck(r) => s.(cancels := s.cancels + multiset{r})
    case CancelLands(r) => DoCancel(s, r)
    case FinalRead(i) => SetPhase(s, i, PhaseRead(s, s.finals[i].run))
    case FinalActive(i) =>
      var f := s.finals[i];
      SetPhase(s, i, if OtherBackupActive(s, f.run, f.phase.job) then Notifying
                     else Clear(f.phase.job, f.phase.trigger, f.phase.attempt, f.phase.delay))
    case FinalInsert(i, id) => DoInsertRetry(s, i, id)
    case FinalNotify(i) => SetPhase(s, i, Done(Notified(PassesNotifyFilter(s, s.finals[i].run))))
    case FinalAbandon(i) => SetPhase(s, i, Abandoned)
  }

  ghost predicate Executes(s: System, acts: seq<Action>)
    decreases |acts|
  {
    acts == [] || (Enabled(s, acts[0]) && Executes(Apply(s, acts[0]), acts[1..]))
  }

  ghost function After(s: System, acts: seq<Action>): System
    requires Executes(s, acts)
    decreases |acts|
  {
    if acts == [] then s else After(Apply(s, acts[0]), acts[1..])
  }

  /** A state some schedule of the system leads to. */
  ghost predicate Reachable(s: System) {
    exists init: System, acts: seq<Action> :: Initial(init) && Executes(init, acts) && After(init, acts) == s
  }
}
