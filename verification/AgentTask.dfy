/**
 How the agent executes one task (agent/main.go): every path through runTask,
 runBackup, runRestore, runCheck and runStats, from the first cancel check to
 the results that are posted. `TaskResults` says what these are; the methods of
 `Runner` append to what was posted before, and are proved to add just that.

 What happens outside the agent is a `World`: exit codes of restic, outcomes of
 the job's scripts, and the point from which its context is cancelled.
 A Go context never recovers, so one point describes all its readings.
 */
module AgentTask {

  datatype Status = Success | Failed | Cancelled

  datatype Figures = NotRead | Figures | FiguresError

  datatype Result = Result(status: Status, damaged: bool, prune: bool, figures: Figures)

  datatype TaskType = BackupTask | RestoreTask | CheckTask | StatsTask | UnknownTask

  datatype Script = NoScript | Script(ok: bool)

  /** Exit code of a restic child, and whether starting or reading it failed. */
  datatype Exit = Exit(code: int, err: bool)

  datatype CancelPoint = Never | From(point: nat)

  datatype World = World(
    cancel: CancelPoint,
    preScript: Script,
    initialized: bool,
    restic: Exit,
    retention: bool,
    forget: Exit,
    pruneWanted: bool,
    damageReported: bool,
    figuresRead: bool
  )

  // The places where a task's code looks at its context, in program order.
  const BEFORE_START := 0
  const PRE_SCRIPT_FAILED := 1
  const AFTER_PRE_SCRIPT := 2
  const INIT_FAILED := 3
  const AFTER_RESTIC := 4
  const RESTIC_FAILED := 5
  const AFTER_RETENTION := 6
  const END := 7

  /** What `ctx.Err() != nil` reads at a point of the code. */
  predicate CancelledAt(w: World, point: nat) {
    w.cancel.From? && w.cancel.point <= point
  }

  predicate Clean(e: Exit) {
    !e.err && e.code == 0
  }

  /** restic reports a backup with unreadable source files as exit code 3. */
  predicate BackupExitOk(e: Exit) {
    !e.err && (e.code == 0 || e.code == 3)
  }

  /** The stages of a backup that have to pass before it can succeed. */
  predicate BackupStagesPass(w: World) {
    (w.preScript.Script? ==> w.preScript.ok) && w.initialized && BackupExitOk(w.restic)
  }

  /**
   What a result may say, given whether its context was ever cancelled.
   This is all the server side relies on.
   */
  predicate Truthful(contextCancelled: bool, r: Result) {
    && (r.status == Cancelled ==> contextCancelled)
    && (r.damaged ==> r.status == Failed)
    && (r.prune ==> r.status == Success)
  }

  // --- What is posted -------------------------------------------------------------------

  /** A backup does not get past this point. */
  predicate StopsAt(w: World, point: nat) {
    match point
    case 1 => w.preScript.Script? && !w.preScript.ok
    case 2 => CancelledAt(w, AFTER_PRE_SCRIPT)
    case 3 => !w.initialized
    case 4 => CancelledAt(w, AFTER_RESTIC)
    case 5 => !BackupExitOk(w.restic)
    case 6 => CancelledAt(w, AFTER_RETENTION)
    case _ => false
  }

  /** The first such point from `from` on, or `END`. */
  function FirstStop(w: World, from: nat): (point: nat)
    requires from <= END
    ensures from <= point <= END && (point < END ==> StopsAt(w, point))
    ensures forall p :: from <= p < point ==> !StopsAt(w, p)
    decreases END - from
  {
    if from == END || StopsAt(w, from) then from else FirstStop(w, from + 1)
  }

  function Stopped(cancelled: bool): Result {
    Result(if cancelled then Cancelled else Failed, false, false, NotRead)
  }

  function ReadFigures(w: World): Figures {
    if w.figuresRead then Figures else FiguresError
  }

  function BackupResults(w: World): seq<Result> {
    var stop := FirstStop(w, PRE_SCRIPT_FAILED);
    if stop < END then [Stopped(CancelledAt(w, stop))]
    else [Result(Success, false, w.retention && Clean(w.forget) && w.pruneWanted, ReadFigures(w))]
  }

  function RestoreResults(w: World): seq<Result> {
    if Clean(w.restic) && !CancelledAt(w, AFTER_RESTIC) then [Result(Success, false, false, NotRead)]
    else [Stopped(CancelledAt(w, AFTER_RESTIC))]
  }

  function CheckResults(w: World): seq<Result> {
    if CancelledAt(w, AFTER_RESTIC) || w.restic.err then [Stopped(CancelledAt(w, AFTER_RESTIC))]
    else if w.restic.code == 0 then [Result(Success, false, false, NotRead)]
    else [Stopped(false).(damaged := w.damageReported)]
  }

  function StatsResults(w: World): seq<Result> {
    [Result(if w.figuresRead then Success else Failed, false, false, ReadFigures(w))]
  }

  /**
   Everything one task posts. Exactly one result for a task of a known type on
   every path, and only a task whose context was cancelled reports being
   cancelled.
   */
  function TaskResults(kind: TaskType, w: World): (results: seq<Result>)
    ensures kind != UnknownTask ==> |results| == 1
    ensures kind == UnknownTask && !CancelledAt(w, BEFORE_START) ==> results == []
    ensures forall r :: r in results ==> Truthful(kind != StatsTask && w.cancel.From?, r)
  {
    if kind != StatsTask && CancelledAt(w, BEFORE_START) then [Stopped(true)]
    else match kind
      case BackupTask => BackupResults(w)
      case RestoreTask => RestoreResults(w)
      case CheckTask => CheckResults(w)
      case StatsTask => StatsResults(w)
      case UnknownTask => []
  }

  /**
   A backup succeeds exactly if every stage passes (restic with exit code 0 or
   3) and no cancel is seen up to the last look at the context. It is a failure
   only if a stage failed and no cancel was seen before the start.
   */
  lemma {:induction false} BackupOutcome(w: World)
    ensures var r := TaskResults(BackupTask, w)[0];
            && (r.status == Success <==>
                  && !(w.preScript.Script? && !w.preScript.ok) && w.initialized
                  && !w.restic.err && (w.restic.code == 0 || w.restic.code == 3)
                  && !CancelledAt(w, AFTER_RETENTION))
            && (r.status == Success <==> BackupStagesPass(w) && !CancelledAt(w, AFTER_RETENTION))
            && (r.status == Failed ==> !BackupStagesPass(w) && !CancelledAt(w, PRE_SCRIPT_FAILED))
            && (CancelledAt(w, PRE_SCRIPT_FAILED) ==> r.status == Cancelled)
            && (r.status == Cancelled <==>
                  CancelledAt(w, BEFORE_START) ||
                  var stop := FirstStop(w, PRE_SCRIPT_FAILED); stop < END && CancelledAt(w, stop))
            && (r.figures == if r.status != Success then NotRead else if w.figuresRead then Figures else FiguresError)
            && (r.prune <==> r.status == Success && w.retention && !w.forget.err && w.forget.code == 0 && w.pruneWanted)
            && !r.damaged
  {
    assert !BackupStagesPass(w) ==> StopsAt(w, 1) || StopsAt(w, 3) || StopsAt(w, 5);
  }

  /** Restores and checks succeed exactly for a clean exit, and a check that could not run is never reported as damage. */
  lemma OtherOutcomes(kind: TaskType, w: World)
    requires kind == RestoreTask || kind == CheckTask
    ensures var r := TaskResults(kind, w)[0];
            && (r.status == Cancelled <==> CancelledAt(w, AFTER_RESTIC))
            && (r.status == Success <==> !w.restic.err && w.restic.code == 0 && !CancelledAt(w, AFTER_RESTIC))
            && (r.damaged <==> kind == CheckTask && r.status == Failed && !w.restic.err && w.damageReported)
  {
  }

  /** A reading of the figures fails exactly if they could not be read, and is never cancelled. */
  lemma StatsOutcome(w: World)
    ensures var r := TaskResults(StatsTask, w)[0];
            && r.status == (if w.figuresRead then Success else Failed)
            && r.figures == (if w.figuresRead then Figures else FiguresError)
            && !r.damaged && !r.prune
  {
  }

  // --- How it is posted -------------------------------------------------------------------

  class Runner {
    var posts: seq<Result>

    constructor ()
      ensures posts == []
    {
      posts := [];
    }

    method PostResult(result: Result)
      modifies this
      ensures posts == old(posts) + [result]
    {
      posts := posts + [result];
    }

    method FailTask()
      modifies this
      ensures posts == old(posts) + [Stopped(false)]
    {
      PostResult(Result(Failed, false, false, NotRead));
    }

    method CancelTask()
      modifies this
      ensures posts == old(posts) + [Stopped(true)]
    {
      PostResult(Result(Cancelled, false, false, NotRead));
    }

    /** The closure handleFailure of runBackup, called at `point`. */
    method HandleFailure(w: World, point: nat)
      modifies this
      ensures posts == old(posts) + [Stopped(CancelledAt(w, point))]
    {
      var cancelled := CancelledAt(w, point);
      if cancelled {
        CancelTask();
        return;
      }
      FailTask();
    }

    method RunBackup(w: World)
      modifies this
      ensures posts == old(posts) + BackupResults(w)
    {
      if w.preScript.Script? && !w.preScript.ok {
        HandleFailure(w, PRE_SCRIPT_FAILED);
        return;
      }
      if CancelledAt(w, AFTER_PRE_SCRIPT) {
        HandleFailure(w, AFTER_PRE_SCRIPT);
        assert StopsAt(w, FirstStop(w, PRE_SCRIPT_FAILED));
        return;
      }
      if !w.initialized {
        HandleFailure(w, INIT_FAILED);
        assert StopsAt(w, INIT_FAILED) && StopsAt(w, FirstStop(w, PRE_SCRIPT_FAILED));
        return;
      }
      if CancelledAt(w, AFTER_RESTIC) {
        HandleFailure(w, AFTER_RESTIC);
        assert StopsAt(w, AFTER_RESTIC) && StopsAt(w, FirstStop(w, PRE_SCRIPT_FAILED));
        return;
      }
      if w.restic.err || (w.restic.code != 0 && w.restic.code != 3) {
        HandleFailure(w, RESTIC_FAILED);
        assert StopsAt(w, RESTIC_FAILED) && StopsAt(w, FirstStop(w, PRE_SCRIPT_FAILED));
        return;
      }
      var result := Result(Success, false, false, NotRead);
      if w.retention && Clean(w.forget) && w.pruneWanted {
        result := result.(prune := true);
      }
      if CancelledAt(w, AFTER_RETENTION) {
        HandleFailure(w, AFTER_RETENTION);
        assert StopsAt(w, AFTER_RETENTION) && StopsAt(w, FirstStop(w, PRE_SCRIPT_FAILED));
        return;
      }
      result := result.(figures := ReadFigures(w));
      PostResult(result);
    }

    method RunRestore(w: World)
      modifies this
      ensures posts == old(posts) + RestoreResults(w)
    {
      if CancelledAt(w, AFTER_RESTIC) {
        CancelTask();
        return;
      }
      if w.restic.err || w.restic.code != 0 {
        FailTask();
        return;
      }
      PostResult(Result(Success, false, false, NotRead));
    }

    method RunCheck(w: World)
      modifies this
      ensures posts == old(posts) + CheckResults(w)
    {
      if CancelledAt(w, AFTER_RESTIC) {
        CancelTask();
      } else if Clean(w.restic) {
        PostResult(Result(Success, false, false, NotRead));
      } else if !w.restic.err && w.damageReported {
        PostResult(Result(Failed, true, false, NotRead));
      } else {
        FailTask();
      }
    }

    method RunStats(w: World)
      modifies this
      ensures posts == old(posts) + StatsResults(w)
    {
      var result := Result(Success, false, false, ReadFigures(w));
      if !w.figuresRead {
        result := result.(status := Failed);
      }
      PostResult(result);
    }

    method RunTask(kind: TaskType, w: World)
      modifies this
      ensures posts == old(posts) + TaskResults(kind, w)
      ensures kind != UnknownTask ==> |posts| == |old(posts)| + 1
    {
      if kind != StatsTask && CancelledAt(w, BEFORE_START) {
        CancelTask();
        return;
      }
      match kind
      case BackupTask => RunBackup(w);
      case RestoreTask => RunRestore(w);
      case CheckTask => RunCheck(w);
      case StatsTask => RunStats(w);
      case UnknownTask =>
    }
  }
}
