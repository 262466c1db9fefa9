/**
 The agent's concurrent task queue (agent/main.go): the poll loop, the sender
 goroutines, the buffered channel and the single worker, interleaved at the
 granularity of lock sections, atomics and channel operations.

 Every step of every goroutine is one `Action`; a schedule is any sequence of
 enabled actions. A task handed over by the server is either a run of the
 server's tables or a statistics refresh of a repository.
 */
module AgentQueue {

  type RunId = nat
  type RepoId = nat

  datatype TaskId = RunTask(run: RunId) | StatsTask(repo: RepoId)

  /** Capacity of the agent's channel. */
  const CHANNEL_CAPACITY: nat := 64

  /** Where the poll loop is. */
  datatype Loop =
    | Sleeping
    | Awaiting(reply: seq<TaskId>)             // a poll is under way; `reply` is what the server put into it so far
    | Enqueueing(rest: seq<TaskId>)            // at the head of the loop over the received tasks
    | Marked(task: TaskId, rest: seq<TaskId>)  // in `inflight`, not yet counted
    | Counted(task: TaskId, rest: seq<TaskId>) // counted in `active`, sender not yet started
    | Updating                                 // inside maybeSelfUpdate

  /** Where the worker is. `cancelled` is the state of the running task's context. */
  datatype Worker =
    | Ready
    | Running(task: TaskId, cancelled: bool)
    | Posted(task: TaskId)                     // the result is out, it is still in `inflight`
    | Released(task: TaskId)                   // out of `inflight`, still counted in `active`

  datatype Agent = Agent(
    loop: Loop,
    inflight: set<TaskId>,
    active: int,
    senders: multiset<TaskId>,
    channel: seq<TaskId>,
    worker: Worker
  )

  datatype Action =
    | StartPoll
    | ReplyGrows(task: TaskId)
    | ReplyArrives
    | ReplyLost
    | EnterInflight
    | CountActive
    | SpawnSender
    | LoadActive
    | UpdateReturns
    | Send(task: TaskId)
    | Take
    | CancelContext
    | PostResult
    | LeaveInflight
    | DropActive
    | Restart

  function New(): Agent {
    Agent(Sleeping, {}, 0, multiset{}, [], Ready)
  }

  predicate Enabled(s: Agent, act: Action) {
    match act
    case StartPoll => s.loop.Sleeping?
    case ReplyGrows(_) => s.loop.Awaiting?
    case ReplyArrives => s.loop.Awaiting?
    case ReplyLost => s.loop.Awaiting?
    case EnterInflight => s.loop.Enqueueing? && s.loop.rest != []
    case CountActive => s.loop.Marked?
    case SpawnSender => s.loop.Counted?
    case LoadActive => s.loop.Enqueueing? && s.loop.rest == []
    case UpdateReturns => s.loop.Updating?
    case Send(t) => t in s.senders && |s.channel| < CHANNEL_CAPACITY
    case Take => s.worker.Ready? && s.channel != []
    case CancelContext => s.worker.Running?
    case PostResult => s.worker.Running?
    case LeaveInflight => s.worker.Posted?
    case DropActive => s.worker.Released?
    case Restart => true
  }

  function Step(s: Agent, act: Action): Agent
    requires Enabled(s, act)
  {
    match act
    case StartPoll => s.(loop := Awaiting([]))
    case ReplyGrows(t) => s.(loop := Awaiting(s.loop.reply + [t]))
    case ReplyArrives => s.(loop := Enqueueing(s.loop.reply))
    case ReplyLost => s.(loop := Sleeping)
    case EnterInflight =>
      var t, rest := s.loop.rest[0], s.loop.rest[1..];
      if t in s.inflight then s.(loop := Enqueueing(rest))
      else s.(loop := Marked(t, rest), inflight := s.inflight + {t})
    case CountActive => s.(loop := Counted(s.loop.task, s.loop.rest), active := s.active + 1)
    case SpawnSender => s.(loop := Enqueueing(s.loop.rest), senders := s.senders + multiset{s.loop.task})
    case LoadActive => s.(loop := if s.active == 0 then Updating else Sleeping)
    case UpdateReturns => s.(loop := Sleeping)
    case Send(t) => s.(senders := s.senders - multiset{t}, channel := s.channel + [t])
    case Take => s.(channel := s.channel[1..], worker := Running(s.channel[0], false))
    case CancelContext => s.(worker := Running(s.worker.task, true))
    case PostResult => s.(worker := Posted(s.worker.task))
    case LeaveInflight => s.(inflight := s.inflight - {s.worker.task}, worker := Released(s.worker.task))
    case DropActive => s.(active := s.active - 1, worker := Ready)
    case Restart => New()
  }

  predicate Executes(s: Agent, acts: seq<Action>)
    decreases |acts|
  {
    acts == [] || (Enabled(s, acts[0]) && Executes(Step(s, acts[0]), acts[1..]))
  }

  function After(s: Agent, acts: seq<Action>): Agent
    requires Executes(s, acts)
    decreases |acts|
  {
    if acts == [] then s else After(Step(s, acts[0]), acts[1..])
  }

  // --- What the agent holds --------------------------------------------------

  /** Tasks the server put into a reply that were not accepted yet. */
  function Received(loop: Loop): seq<TaskId> {
    match loop
    case Awaiting(reply) => reply
    case Enqueueing(rest) => rest
    case Marked(_, rest) => rest
    case Counted(_, rest) => rest
    case _ => []
  }

  function Occurs(t: TaskId, s: seq<TaskId>): (n: nat)
    ensures n > 0 <==> t in s
  {
    if s == [] then 0 else (if s[0] == t then 1 else 0) + Occurs(t, s[1..])
  }

  /** How often the loop holds `t` between marking it and handing it to a sender. */
  function InLoop(loop: Loop, t: TaskId): nat {
    if (loop.Marked? || loop.Counted?) && loop.task == t then 1 else 0
  }

  function InWorker(worker: Worker, t: TaskId): nat {
    if worker.Running? && worker.task == t then 1 else 0
  }

  function JustPosted(worker: Worker, t: TaskId): nat {
    if worker.Posted? && worker.task == t then 1 else 0
  }

  /** How often `t` is accepted without having posted its result. */
  function Accepted(s: Agent, t: TaskId): nat {
    InLoop(s.loop, t) + s.senders[t] + Occurs(t, s.channel) + InWorker(s.worker, t)
  }

  /** How often `t` may still lead to a result of this process. */
  function Held(s: Agent, t: TaskId): nat {
    Occurs(t, Received(s.loop)) + Accepted(s, t)
  }

  /** Tasks a sender, the channel or the worker has: those a re-exec would abort. */
  function Load(s: Agent): nat {
    |s.senders| + |s.channel| + (if s.worker.Ready? then 0 else 1)
  }

  lemma {:induction false} OccursAppend(t: TaskId, s: seq<TaskId>, last: TaskId)
    ensures Occurs(t, s + [last]) == Occurs(t, s) + (if t == last then 1 else 0)
  {
    if s == [] {
      assert s + [last] == [last];
    } else {
      OccursAppend(t, s[1..], last);
      assert (s + [last])[1..] == s[1..] + [last];
    }
  }

  // --- The invariant of every interleaving -----------------------------------

  ghost predicate Inv(s: Agent) {
    && s.active == Load(s) + (if s.loop.Counted? then 1 else 0)
    && (s.loop.Updating? ==> s.active == 0)
    && InflightExact(s)
  }

  /** `inflight` is the set of tasks between acceptance and release, none of them twice. */
  ghost predicate InflightExact(s: Agent) {
    forall t :: Tracked(s, t) == if t in s.inflight then 1 else 0
  }

  ghost function Tracked(s: Agent, t: TaskId): nat {
    Accepted(s, t) + JustPosted(s.worker, t)
  }

  lemma InvStep(s: Agent, act: Action)
    requires Inv(s) && Enabled(s, act)
    ensures Inv(Step(s, act))
  {
    forall t
      ensures Tracked(Step(s, act), t) == if t in Step(s, act).inflight then 1 else 0
    {
      assert Tracked(s, t) == if t in s.inflight then 1 else 0;
      TrackedStep(s, act, t);
    }
  }

  lemma TrackedStep(s: Agent, act: Action, t: TaskId)
    requires Enabled(s, act)
    requires Tracked(s, t) == if t in s.inflight then 1 else 0
    requires act.LeaveInflight? ==> s.worker.task in s.inflight
    ensures Tracked(Step(s, act), t) == if t in Step(s, act).inflight then 1 else 0
  {
    if act.Send? {
      OccursAppend(t, s.channel, act.task);
    } else if act.SpawnSender? || act.Take? || act.EnterInflight? {
      TrackedMove(s, act, t);
    }
  }

  lemma TrackedMove(s: Agent, act: Action, t: TaskId)
    requires Enabled(s, act) && (act.SpawnSender? || act.Take? || act.EnterInflight?)
    requires Tracked(s, t) == if t in s.inflight then 1 else 0
    ensures Tracked(Step(s, act), t) == if t in Step(s, act).inflight then 1 else 0
  {
  }

  lemma {:induction false} InvRun(s: Agent, acts: seq<Action>)
    requires Inv(s) && Executes(s, acts)
    ensures Inv(After(s, acts))
    decreases |acts|
  {
    if acts != [] {
      InvStep(s, acts[0]);
      InvRun(Step(s, acts[0]), acts[1..]);
    }
  }

  /**
   Self-update safety: in every state of every interleaving `active` counts at
   least what is held by senders, channel and worker, and while the process
   is inside maybeSelfUpdate there is none. The claim covers all prefixes of a
   schedule, hence also that none appears while the update executes.
   */
  lemma {:induction false} SelfUpdateSafe(acts: seq<Action>)
    requires Executes(New(), acts)
    ensures var s := After(New(), acts);
            && s.active >= Load(s)
            && (s.loop.Updating? ==>
                  s.senders == multiset{} && s.channel == [] && s.worker.Ready? && s.inflight == {})
  {
    InvRun(New(), acts);
    var s := After(New(), acts);
    if s.loop.Updating? {
      forall t ensures t !in s.inflight {
        assert Tracked(s, t) == 0;
      }
    }
  }

  /**
   The agent does update: at the end of every poll it enters maybeSelfUpdate if
   and only if no sender, the channel and the worker hold nothing, and an idle
   agent gets there with its next poll.
   */
  lemma UpdatesIffIdle(s: Agent)
    requires Inv(s) && s.loop == Enqueueing([])
    ensures Step(s, LoadActive).loop == if s.senders == multiset{} && s.channel == [] && s.worker.Ready? then Updating else Sleeping
  {
    assert |s.senders| == 0 <==> s.senders == multiset{};
  }

  lemma IdleAgentUpdates()
    ensures Executes(New(), [StartPoll, ReplyArrives, LoadActive])
    ensures After(New(), [StartPoll, ReplyArrives, LoadActive]).loop.Updating?
  {
    var s1 := Step(New(), StartPoll);
    var s2 := Step(s1, ReplyArrives);
    var s3 := Step(s2, LoadActive);
    assert Executes(s3, []) && After(s3, []) == s3;
    assert [LoadActive][1..] == [] && [ReplyArrives, LoadActive][1..] == [LoadActive];
    assert Executes(s2, [LoadActive]) && After(s2, [LoadActive]) == s3;
    assert Executes(s1, [ReplyArrives, LoadActive]) && After(s1, [ReplyArrives, LoadActive]) == s3;
    assert [StartPoll, ReplyArrives, LoadActive][1..] == [ReplyArrives, LoadActive];
  }

  // --- The channel keeps its order --------------------------------------------

  /** What the senders put into the channel, in order. */
  function Sent(acts: seq<Action>): seq<TaskId> {
    if acts == [] then [] else (if acts[0].Send? then [acts[0].task] else []) + Sent(acts[1..])
  }

  /** What the worker executes, in order. */
  function Taken(s: Agent, acts: seq<Action>): seq<TaskId>
    requires Executes(s, acts)
    decreases |acts|
  {
    if acts == [] then []
    else
      var s1 := Step(s, acts[0]);
      (if acts[0].Take? then [s1.worker.task] else []) + Taken(s1, acts[1..])
  }

  /** First in, first out: in every schedule of one process the worker executes what was sent in the order it was sent. */
  lemma {:induction false} FirstInFirstOut(s: Agent, acts: seq<Action>)
    requires Executes(s, acts) && Restart !in acts
    ensures Taken(s, acts) + After(s, acts).channel == s.channel + Sent(acts)
    decreases |acts|
  {
    if acts != [] {
      var s1, rest := Step(s, acts[0]), acts[1..];
      assert acts[0] in acts && forall x :: x in rest ==> x in acts;
      FirstInFirstOut(s1, rest);
      var now, later := if acts[0].Take? then [s1.worker.task] else [], if acts[0].Send? then [acts[0].task] else [];
      ChannelStep(s, acts[0]);
      Regrouped(now, Taken(s1, rest), After(s1, rest).channel, s1.channel, Sent(rest), s.channel, later);
    }
  }

  /** A step moves one task at most, from the front or to the back. */
  lemma ChannelStep(s: Agent, act: Action)
    requires Enabled(s, act) && act != Restart
    ensures (if act.Take? then [Step(s, act).worker.task] else []) + Step(s, act).channel ==
            s.channel + if act.Send? then [act.task] else []
  {
  }

  lemma Regrouped(now: seq<TaskId>, taken: seq<TaskId>, left: seq<TaskId>, channel': seq<TaskId>, sent: seq<TaskId>,
                  channel: seq<TaskId>, later: seq<TaskId>)
    requires taken + left == channel' + sent && now + channel' == channel + later
    ensures (now + taken) + left == channel + (later + sent)
  {
    assert (now + taken) + left == now + (taken + left) == now + (channel' + sent) == (now + channel') + sent;
  }

  // --- Each accepted task leads to one result --------------------------------

  /** What an action adds to the account of `t`: one for a reply, minus one for a result, and so on. */
  function HeldChange(s: Agent, act: Action, t: TaskId): int
    requires Enabled(s, act)
  {
    match act
    case ReplyGrows(u) => if t == u then 1 else 0
    case PostResult => if t == s.worker.task then -1 else 0
    case EnterInflight => if t == s.loop.rest[0] && t in s.inflight then -1 else 0
    case ReplyLost => 0 - Occurs(t, s.loop.reply)
    case Restart => 0 - Held(s, t)
    case _ => 0
  }

  /**
   Conservation of tasks: a reply adds its task, a posted result takes exactly
   its own task away, and apart from a lost reply, a restart and a dropped
   duplicate nothing else changes the account.
   */
  lemma HeldStep(s: Agent, act: Action, t: TaskId)
    requires Enabled(s, act)
    ensures Held(Step(s, act), t) == Held(s, t) + HeldChange(s, act, t)
  {
    if act.ReplyGrows? {
      HeldReply(s, act, t);
    } else if act.Send? {
      HeldSend(s, act, t);
    } else if act.SpawnSender? || act.Take? || act.EnterInflight? {
      HeldMove(s, act, t);
    }
  }

  lemma HeldReply(s: Agent, act: Action, t: TaskId)
    requires Enabled(s, act) && act.ReplyGrows?
    ensures Held(Step(s, act), t) == Held(s, t) + HeldChange(s, act, t)
  {
    OccursAppend(t, s.loop.reply, act.task);
  }

  lemma HeldSend(s: Agent, act: Action, t: TaskId)
    requires Enabled(s, act) && act.Send?
    ensures Held(Step(s, act), t) == Held(s, t) + HeldChange(s, act, t)
  {
    OccursAppend(t, s.channel, act.task);
  }

  lemma HeldMove(s: Agent, act: Action, t: TaskId)
    requires Enabled(s, act) && (act.SpawnSender? || act.Take? || act.EnterInflight?)
    ensures Held(Step(s, act), t) == Held(s, t) + HeldChange(s, act, t)
  {
  }

  /** An action of the worker, a sender or the enqueueing loop, which nobody else has to allow. */
  predicate Internal(act: Action) {
    act.EnterInflight? || act.CountActive? || act.SpawnSender? || act.LoadActive? || act.Send? ||
    act.Take? || act.PostResult? || act.LeaveInflight? || act.DropActive?
  }

  function LoopWork(loop: Loop): nat {
    match loop
    case Sleeping => 0
    case Updating => 0
    case Awaiting(reply) => 9 * |reply| + 2
    case Enqueueing(rest) => 9 * |rest| + 1
    case Marked(_, rest) => 9 * |rest| + 9
    case Counted(_, rest) => 9 * |rest| + 8
  }

  function WorkerWork(worker: Worker): nat {
    match worker
    case Ready => 0
    case Running(_, _) => 3
    case Posted(_) => 2
    case Released(_) => 1
  }

  /** Steps left until everything received has been dealt with. */
  function Work(s: Agent): nat {
    LoopWork(s.loop) + 6 * |s.senders| + 4 * |s.channel| + WorkerWork(s.worker)
  }

  lemma WorkDecreases(s: Agent, act: Action)
    requires Internal(act) && Enabled(s, act)
    ensures Work(Step(s, act)) < Work(s)
  {
    if act.SpawnSender? || act.Send? || act.Take? {
      HandoverDecreases(s, act);
    }
  }

  lemma HandoverDecreases(s: Agent, act: Action)
    requires Enabled(s, act) && (act.SpawnSender? || act.Send? || act.Take?)
    ensures Work(Step(s, act)) < Work(s)
  {
  }

  lemma InternalStepPossible(s: Agent, t: TaskId) returns (act: Action)
    requires Accepted(s, t) > 0
    ensures Internal(act) && Enabled(s, act)
  {
    if s.worker.Running? {
      act := PostResult;
    } else if s.worker.Posted? {
      act := LeaveInflight;
    } else if s.worker.Released? {
      act := DropActive;
    } else if s.channel != [] {
      act := Take;
    } else if s.loop.Marked? {
      act := CountActive;
    } else if s.loop.Counted? {
      act := SpawnSender;
    } else {
      act := Send(t);
    }
  }

  /**
   No accepted task is stranded: from every state some schedule of internal
   steps, at most `Work(s)` of them, posts the result of every accepted task.
   A full channel or a busy worker never blocks for good.
   */
  lemma {:induction false} AcceptedTasksFinish(s: Agent) returns (acts: seq<Action>)
    ensures |acts| <= Work(s) && (forall i :: 0 <= i < |acts| ==> Internal(acts[i]))
    ensures Executes(s, acts) && forall t :: Accepted(After(s, acts), t) == 0
    decreases Work(s)
  {
    if t :| Accepted(s, t) > 0 {
      var act := InternalStepPossible(s, t);
      WorkDecreases(s, act);
      var rest := AcceptedTasksFinish(Step(s, act));
      acts := [act] + rest;
      assert acts[1..] == rest;
    } else {
      acts := [];
    }
  }
}
