/**
 Rotating integrity checks (server/src/jobs/check-runner.service.ts): which part
 of a repository the next check reads, how a verdict is carried over to the
 repository, and what `data_verified_at` certifies.

 One repository and its job are modelled. Starting a check (the idle test and
 the insert) is one atomic step; settling one is two, as the row and the
 repository are updated by separate statements.
 */
module Rotation {
  import opened Wrappers
  import opened RunRows

  datatype Level = Quick | Rotating | Full

  /** Number of parts of a split; the API accepts 2 to 100. */
  type Parts = p: int | 2 <= p <= 100 witness 2

  const DEFAULT_SUBSET_PARTS: Parts := 12

  datatype Config = Config(level: Option<Level>, subsetParts: Option<Parts>)

  datatype CheckInfo = Whole(level: Level) | Part(part: int, parts: Parts)

  datatype Verdict = Passed | Damaged

  datatype Outcome = Outcome(status: Status, damaged: bool)

  /** The check columns of a repository. `parts` and `next` are the position of the rotation. */
  datatype Repo = Repo(
    next: int,
    parts: Option<int>,
    verdict: Option<Verdict>,
    checkedAt: Option<Time>,
    verifiedAt: Option<Time>
  )

  function NewRepo(): Repo {
    Repo(1, None, None, None, None)
  }

  /** What the next check of the job verifies. */
  function PlanCheck(config: Config, repo: Repo, level: Option<Level>): (info: CheckInfo)
    ensures info.Part? ==> 1 <= info.part <= info.parts
  {
    var chosen := if level.Some? then level.value else if config.level.Some? then config.level.value else Quick;
    if chosen != Rotating then Whole(chosen)
    else
      var parts := SplitOf(config);
      Part(if repo.parts == Some(parts) && 1 <= repo.next <= parts then repo.next else 1, parts)
  }

  function SplitOf(config: Config): Parts {
    if config.subsetParts.Some? then config.subsetParts.value else DEFAULT_SUBSET_PARTS
  }

  /** The repository columns after a finished check. */
  function ApplyPatch(repo: Repo, info: CheckInfo, outcome: Outcome, now: Time): Repo {
    if outcome.damaged then repo.(verdict := Some(Damaged), checkedAt := Some(now))
    else if outcome.status != Success then repo
    else
      var passed := repo.(verdict := Some(Passed), checkedAt := Some(now));
      match info
      case Whole(level) => if level == Full then passed.(verifiedAt := Some(now)) else passed
      case Part(part, parts) =>
        passed.(parts := Some(parts), next := part % parts + 1,
                verifiedAt := if part == parts then Some(now) else passed.verifiedAt)
  }

  /** What is verified follows the level asked for, else the scheduled one, else a quick check. */
  lemma PlanFollowsLevel(config: Config, repo: Repo, level: Option<Level>)
    ensures var info := PlanCheck(config, repo, level);
            && (level.Some? && level.value != Rotating ==> info == Whole(level.value))
            && (level.None? && config.level.Some? && config.level.value != Rotating ==> info == Whole(config.level.value))
            && (level.None? && config.level.None? ==> info == Whole(Quick))
            && (level == Some(Rotating) || (level.None? && config.level == Some(Rotating)) ==>
                  info.Part? && info.parts == if config.subsetParts.Some? then config.subsetParts.value else 12)
  {
  }

  /** A passed check that read everything back, or the last part of its split. */
  predicate ReadsTheRest(info: CheckInfo) {
    info == Whole(Full) || (info.Part? && info.part == info.parts)
  }

  /**
   What a verdict means for the repository. Damage is recorded and changes
   nothing else; a pass is recorded, moves the position on after a rotating
   check, and certifies the data exactly after a full check or the last part; a
   check that could not run changes nothing.
   */
  lemma VerdictMeans(repo: Repo, info: CheckInfo, outcome: Outcome, now: Time)
    requires info.Part? ==> 1 <= info.part <= info.parts
    ensures var after := ApplyPatch(repo, info, outcome, now);
            && (outcome.damaged ==> after == Repo(repo.next, repo.parts, Some(Damaged), Some(now), repo.verifiedAt))
            && (!outcome.damaged && outcome.status != Success ==> after == repo)
            && (Passes(outcome) ==>
                  && after.verdict == Some(Passed) && after.checkedAt == Some(now)
                  && after.verifiedAt == (if ReadsTheRest(info) then Some(now) else repo.verifiedAt)
                  && (info.Whole? ==> after.next == repo.next && after.parts == repo.parts)
                  && (info.Part? ==>
                        after.parts == Some(info.parts) && after.next == if info.part == info.parts then 1 else info.part + 1))
  {
    if info.Part? {
      RemainderIsNext(info.part, info.parts);
    }
  }

  // --- Coverage -------------------------------------------------------------------

  /** A verdict that moves the rotation on. */
  predicate Passes(outcome: Outcome) {
    outcome.status == Success && !outcome.damaged
  }

  /** The parts that passed while rotating checks of a fixed split ended one after the other with `outcomes`. */
  function PartsPassed(config: Config, repo: Repo, outcomes: seq<Outcome>, now: Time): seq<int>
    decreases |outcomes|
  {
    if outcomes == [] then []
    else
      var info := PlanCheck(config, repo, Some(Rotating));
      var rest := PartsPassed(config, ApplyPatch(repo, info, outcomes[0], now), outcomes[1..], now);
      if Passes(outcomes[0]) then [info.part] + rest else rest
  }

  function CountPasses(outcomes: seq<Outcome>): nat {
    if outcomes == [] then 0 else (if Passes(outcomes[0]) then 1 else 0) + CountPasses(outcomes[1..])
  }

  /** The part whose turn is after `part` in a split of `parts`. */
  function NextOf(part: int, parts: Parts): int {
    if part == parts then 1 else part + 1
  }

  function PartAfter(part: int, steps: nat, parts: Parts): int
    decreases steps
  {
    if steps == 0 then part else PartAfter(NextOf(part, parts), steps - 1, parts)
  }

  /** The remainder the server computes is that part. */
  lemma RemainderIsNext(part: int, parts: Parts)
    requires 1 <= part <= parts
    ensures part % parts + 1 == NextOf(part, parts)
  {
    if part < parts {
      SmallRemainder(part, parts);
    } else {
      assert part == parts * 1 + 0;
    }
  }

  lemma SmallRemainder(a: nat, b: nat)
    requires a < b
    ensures a % b == a
  {
  }

  /** The n-th pass reads the n-th part from the stored position on; other verdicts repeat their part. */
  lemma {:induction false} PartsInTurn(config: Config, repo: Repo, outcomes: seq<Outcome>, now: Time)
    ensures var first := PlanCheck(config, repo, Some(Rotating)).part;
            var read := PartsPassed(config, repo, outcomes, now);
            && |read| == CountPasses(outcomes)
            && forall n :: 0 <= n < |read| ==> read[n] == PartAfter(first, n, SplitOf(config))
    decreases |outcomes|
  {
    if outcomes != [] {
      var info := PlanCheck(config, repo, Some(Rotating));
      var repo' := ApplyPatch(repo, info, outcomes[0], now);
      PartsInTurn(config, repo', outcomes[1..], now);
      var rest := PartsPassed(config, repo', outcomes[1..], now);
      RemainderIsNext(info.part, info.parts);
      if Passes(outcomes[0]) {
        var read := [info.part] + rest;
        forall n | 0 < n < |read| ensures read[n] == PartAfter(info.part, n, SplitOf(config)) {
          assert read[n] == rest[n - 1];
        }
      }
    }
  }

  lemma {:induction false} PartAfterClosed(part: int, steps: nat, parts: Parts)
    requires 1 <= part <= parts && steps < parts
    ensures PartAfter(part, steps, parts) == if part + steps <= parts then part + steps else part + steps - parts
    decreases steps
  {
    if steps > 0 {
      PartAfterClosed(NextOf(part, parts), steps - 1, parts);
    }
  }

  /** For each pass in turn, whether it set the verification time. */
  function Certified(config: Config, repo: Repo, outcomes: seq<Outcome>, now: Time): seq<bool>
    decreases |outcomes|
  {
    if outcomes == [] then []
    else
      var info := PlanCheck(config, repo, Some(Rotating));
      var repo' := ApplyPatch(repo, info, outcomes[0], now);
      var rest := Certified(config, repo', outcomes[1..], now);
      if Passes(outcomes[0]) then [ApplyPatch(repo.(verifiedAt := None), info, outcomes[0], now).verifiedAt == Some(now)] + rest
      else rest
  }

  /** The verification time is set by the passes of the last part and by no other. */
  lemma {:induction false} CertifiedIsLast(config: Config, repo: Repo, outcomes: seq<Outcome>, now: Time)
    ensures var read, certified := PartsPassed(config, repo, outcomes, now), Certified(config, repo, outcomes, now);
            && |certified| == |read|
            && forall n :: 0 <= n < |read| ==> (certified[n] <==> read[n] == SplitOf(config))
    decreases |outcomes|
  {
    if outcomes != [] {
      var info := PlanCheck(config, repo, Some(Rotating));
      VerdictMeans(repo.(verifiedAt := None), info, outcomes[0], now);
      CertifiedIsLast(config, ApplyPatch(repo, info, outcomes[0], now), outcomes[1..], now);
    }
  }

  /**
   Rotation coverage: from any stored position, also a stale one of another
   split, checks of one split that pass P times in all read every part 1..P
   exactly once, whatever failures, damage and cancels come in between, and
   exactly one of the passes sets the verification time, the one of part P.
   */
  lemma {:induction false} RotationCovers(config: Config, repo: Repo, outcomes: seq<Outcome>, now: Time, part: int)
    requires CountPasses(outcomes) == SplitOf(config) && 1 <= part <= SplitOf(config)
    ensures var read := PartsPassed(config, repo, outcomes, now);
            && |read| == SplitOf(config)
            && exists n :: 0 <= n < |read| && read[n] == part && forall m :: 0 <= m < |read| && read[m] == part ==> m == n
    ensures var certified := Certified(config, repo, outcomes, now);
            && |certified| == SplitOf(config)
            && exists n :: 0 <= n < |certified| && certified[n] && forall m :: 0 <= m < |certified| && certified[m] ==> m == n
  {
    PartOnce(config, repo, outcomes, now, part);
    PartOnce(config, repo, outcomes, now, SplitOf(config));
    CertifiedIsLast(config, repo, outcomes, now);
    var read, certified := PartsPassed(config, repo, outcomes, now), Certified(config, repo, outcomes, now);
    var n :| 0 <= n < |read| && read[n] == SplitOf(config) && forall m :: 0 <= m < |read| && read[m] == SplitOf(config) ==> m == n;
    assert certified[n];
  }

  lemma {:induction false} PartOnce(config: Config, repo: Repo, outcomes: seq<Outcome>, now: Time, part: int)
    requires CountPasses(outcomes) == SplitOf(config) && 1 <= part <= SplitOf(config)
    ensures var read := PartsPassed(config, repo, outcomes, now);
            && |read| == SplitOf(config)
            && exists n :: 0 <= n < |read| && read[n] == part && forall m :: 0 <= m < |read| && read[m] == part ==> m == n
  {
    PartsInTurn(config, repo, outcomes, now);
    var parts, read := SplitOf(config), PartsPassed(config, repo, outcomes, now);
    var first := PlanCheck(config, repo, Some(Rotating)).part;
    var n := if part >= first then part - first else part - first + parts;
    forall m | 0 <= m < |read| ensures read[m] == part <==> m == n {
      PartAfterClosed(first, m, parts);
    }
    assert read[n] == part;
  }

  // --- The checks of a repository over time ------------------------------------------

  datatype CheckRun = CheckRun(info: CheckInfo, status: Status)

  /** A verdict recorded on the row of a check whose repository update is still to come. */
  datatype Patch = Patch(check: nat, info: CheckInfo, outcome: Outcome)

  /** A part of a split that was read back without finding anything wrong. */
  datatype Pass = Pass(part: int, parts: int)

  /** What happened to a rotation: a check was planned, it passed its part, the new position was stored. */
  datatype Note = Planned(check: nat, info: CheckInfo) | PartPassed(check: nat) | PositionStored(check: nat)

  datatype State = State(
    config: Config,
    repo: Repo,
    now: Time,
    busy: bool,           // a backup, prune or restore of the job is queued or running
    checks: seq<CheckRun>,
    patches: seq<Patch>,
    // History
    passes: seq<Pass>,    // in the order in which the rows were settled
    log: seq<Note>
  )

  datatype Action =
    | Configure(config: Config)
    | Tick(time: Time)
    | OthersAre(busy: bool)
    | Start(level: Option<Level>)
    | Claimed(index: nat)
    | Expired(index: nat)
    | CancelledBy(index: nat)
    | Settle(index: nat, outcome: Outcome)
    | WritePatch(index: nat)

  function NewState(config: Config): State {
    State(config, NewRepo(), 0, false, [], [], [], [])
  }

  predicate NoCheckActive(s: State) {
    forall i :: 0 <= i < |s.checks| ==> !Active(s.checks[i].status)
  }

  /** Nothing else uses the repository. */
  predicate Idle(s: State) {
    !s.busy && NoCheckActive(s)
  }

  /** A verdict that passed a part and will store the next position. */
  predicate MovesOn(patch: Patch) {
    patch.info.Part? && Passes(patch.outcome)
  }

  /** A cancel may land on a row in any state, see `CancelLands` of the run protocol. */
  predicate Enabled(s: State, act: Action) {
    match act
    case Configure(_) => true
    case Tick(time) => s.now <= time
    case OthersAre(_) => true
    case Start(_) => Idle(s)
    case Claimed(i) => i < |s.checks| && s.checks[i].status == Queued
    case Expired(i) => i < |s.checks| && s.checks[i].status == Queued
    case CancelledBy(i) => i < |s.checks|
    case Settle(i, outcome) =>
      i < |s.checks| && s.checks[i].status == Running && Terminal(outcome.status)
    case WritePatch(k) => k < |s.patches|
  }

  function SetStatus(s: State, i: nat, st: Status): State
    requires i < |s.checks|
  {
    s.(checks := s.checks[i := s.checks[i].(status := st)])
  }

  function DoStart(s: State, level: Option<Level>): State {
    var info := PlanCheck(s.config, s.repo, level);
    s.(checks := s.checks + [CheckRun(info, Queued)], log := s.log + [Planned(|s.checks|, info)])
  }

  function DoSettle(s: State, i: nat, outcome: Outcome): State
    requires i < |s.checks|
  {
    var info := s.checks[i].info;
    var s1 := SetStatus(s, i, outcome.status);
    if outcome.status == Cancelled then s1
    else if MovesOn(Patch(i, info, outcome)) then
      s1.(patches := s.patches + [Patch(i, info, outcome)],
          passes := s.passes + [Pass(info.part, info.parts)],
          log := s.log + [PartPassed(i)])
    else s1.(patches := s.patches + [Patch(i, info, outcome)])
  }

  function DoWrite(s: State, k: nat): State
    requires k < |s.patches|
  {
    var patch := s.patches[k];
    s.(repo := ApplyPatch(s.repo, patch.info, patch.outcome, s.now),
       patches := s.patches[..k] + s.patches[k + 1..],
       log := if MovesOn(patch) then s.log + [PositionStored(patch.check)] else s.log)
  }

  function Apply(s: State, act: Action): State
    requires Enabled(s, act)
  {
    match act
    case Configure(config) => s.(config := config)
    case Tick(time) => s.(now := time)
    case OthersAre(busy) => s.(busy := busy)
    case Start(level) => DoStart(s, level)
    case Claimed(i) => SetStatus(s, i, Running)
    case Expired(i) => SetStatus(s, i, Failed)
    case CancelledBy(i) => SetStatus(s, i, Cancelled)
    case Settle(i, outcome) => DoSettle(s, i, outcome)
    case WritePatch(k) => DoWrite(s, k)
  }

  predicate Executes(s: State, acts: seq<Action>)
    decreases |acts|
  {
    acts == [] || (Enabled(s, acts[0]) && Executes(Apply(s, acts[0]), acts[1..]))
  }

  function After(s: State, acts: seq<Action>): State
    requires Executes(s, acts)
    decreases |acts|
  {
    if acts == [] then s else After(Apply(s, acts[0]), acts[1..])
  }

  /** The patch at `k` is about to certify a completed rotation of a split of `parts`. */
  predicate Certifies(s: State, k: nat, parts: Parts) {
    k < |s.patches| && s.patches[k].info == Part(parts, parts) && MovesOn(s.patches[k])
  }

  // --- Soundness under every interleaving ----------------------------------------------

  /**
   One part of a rotation: where in the log its check was planned, passed, and
   (unless it is the last part) stored the position the next check started from.
   */
  datatype Leg = Leg(check: nat, planned: nat, passed: nat, stored: nat)

  predicate IsLeg(log: seq<Note>, leg: Leg, part: int, parts: Parts) {
    && leg.planned < leg.passed < |log|
    && log[leg.planned] == Planned(leg.check, Part(part, parts))
    && log[leg.passed] == PartPassed(leg.check)
  }

  /** The position in force at `at` is the one this leg stored. */
  predicate Positions(log: seq<Note>, leg: Leg, at: nat) {
    && leg.passed < leg.stored < at <= |log|
    && log[leg.stored] == PositionStored(leg.check)
    && forall j :: leg.stored < j < at ==> !log[j].PositionStored?
  }

  /**
   Parts 1, 2, ... of a split were read back in this order, each by a check that
   was planned after the part before it had passed and from the position that
   part had stored.
   */
  ghost predicate InTurn(log: seq<Note>, legs: seq<Leg>, parts: Parts) {
    && (forall k :: 0 <= k < |legs| ==> IsLeg(log, legs[k], k + 1, parts))
    && (forall k :: 0 < k < |legs| ==> Positions(log, legs[k - 1], legs[k].planned))
  }

  /** The legs before `part` lead to a check planned at `at`. */
  ghost predicate LeadTo(log: seq<Note>, legs: seq<Leg>, part: int, parts: Parts, at: nat) {
    && |legs| == part - 1 && InTurn(log, legs, parts)
    && (part > 1 ==> Positions(log, legs[part - 2], at))
  }

  ghost predicate PositionOk(s: State) {
    s.repo.parts.Some? && 2 <= s.repo.parts.value <= 100 && 2 <= s.repo.next <= s.repo.parts.value ==>
      exists legs :: LeadTo(s.log, legs, s.repo.next, s.repo.parts.value, |s.log|)
  }

  ghost predicate CheckOk(log: seq<Note>, check: nat, info: CheckInfo) {
    info.Part? ==>
      && 1 <= info.part <= info.parts
      && exists legs, at: nat :: at < |log| && log[at] == Planned(check, info) && LeadTo(log, legs, info.part, info.parts, at)
  }

  /** The legs end with the part this verdict passed. */
  ghost predicate EndWith(log: seq<Note>, legs: seq<Leg>, patch: Patch)
    requires patch.info.Part?
  {
    && |legs| == patch.info.part >= 1 && InTurn(log, legs, patch.info.parts)
    && legs[patch.info.part - 1].check == patch.check
  }

  ghost predicate PatchOk(log: seq<Note>, patch: Patch) {
    && (patch.info.Part? ==> 1 <= patch.info.part <= patch.info.parts)
    && (MovesOn(patch) ==> exists legs :: EndWith(log, legs, patch))
  }

  ghost predicate Sound(s: State) {
    && PositionOk(s)
    && (forall i :: 0 <= i < |s.checks| ==> CheckOk(s.log, i, s.checks[i].info))
    && (forall k :: 0 <= k < |s.patches| ==> PatchOk(s.log, s.patches[k]))
  }

  // The log only grows, and what it says stays true.

  lemma InTurnGrows(log: seq<Note>, note: Note, legs: seq<Leg>, parts: Parts)
    requires InTurn(log, legs, parts)
    ensures InTurn(log + [note], legs, parts)
  {
    forall k | 0 <= k < |legs| ensures IsLeg(log + [note], legs[k], k + 1, parts) {
      assert IsLeg(log, legs[k], k + 1, parts);
    }
    forall k | 0 < k < |legs| ensures Positions(log + [note], legs[k - 1], legs[k].planned) {
      assert Positions(log, legs[k - 1], legs[k].planned);
    }
  }

  lemma CheckOkGrows(log: seq<Note>, note: Note, check: nat, info: CheckInfo)
    requires CheckOk(log, check, info)
    ensures CheckOk(log + [note], check, info)
  {
    if info.Part? {
      var legs: seq<Leg>, at: nat :| at < |log| && log[at] == Planned(check, info) && LeadTo(log, legs, info.part, info.parts, at);
      InTurnGrows(log, note, legs, info.parts);
      assert LeadTo(log + [note], legs, info.part, info.parts, at);
      assert (log + [note])[at] == Planned(check, info);
    }
  }

  lemma PatchOkGrows(log: seq<Note>, note: Note, patch: Patch)
    requires PatchOk(log, patch)
    ensures PatchOk(log + [note], patch)
  {
    if MovesOn(patch) {
      var legs: seq<Leg> :| EndWith(log, legs, patch);
      InTurnGrows(log, note, legs, patch.info.parts);
      assert EndWith(log + [note], legs, patch);
    }
  }

  /** A position stays in force until another one is stored. */
  lemma PositionOkGrows(s: State, note: Note)
    requires PositionOk(s) && !note.PositionStored?
    ensures PositionOk(s.(log := s.log + [note]))
  {
    if s.repo.parts.Some? && 2 <= s.repo.parts.value <= 100 && 2 <= s.repo.next <= s.repo.parts.value {
      var legs: seq<Leg> :| LeadTo(s.log, legs, s.repo.next, s.repo.parts.value, |s.log|);
      InTurnGrows(s.log, note, legs, s.repo.parts.value);
      assert LeadTo(s.log + [note], legs, s.repo.next, s.repo.parts.value, |s.log| + 1);
    }
  }

  lemma AllGrow(s: State, note: Note)
    requires forall i :: 0 <= i < |s.checks| ==> CheckOk(s.log, i, s.checks[i].info)
    requires forall k :: 0 <= k < |s.patches| ==> PatchOk(s.log, s.patches[k])
    ensures forall i :: 0 <= i < |s.checks| ==> CheckOk(s.log + [note], i, s.checks[i].info)
    ensures forall k :: 0 <= k < |s.patches| ==> PatchOk(s.log + [note], s.patches[k])
  {
    forall i | 0 <= i < |s.checks| ensures CheckOk(s.log + [note], i, s.checks[i].info) {
      CheckOkGrows(s.log, note, i, s.checks[i].info);
    }
    forall k | 0 <= k < |s.patches| ensures PatchOk(s.log + [note], s.patches[k]) {
      PatchOkGrows(s.log, note, s.patches[k]);
    }
  }

  /** A check continues from the stored position. */
  lemma PlannedOk(s: State, info: CheckInfo)
    requires PositionOk(s) && exists level :: info == PlanCheck(s.config, s.repo, level)
    ensures CheckOk(s.log + [Planned(|s.checks|, info)], |s.checks|, info)
  {
    var note := Planned(|s.checks|, info);
    if info.Part? {
      var legs := [];
      if info.part > 1 {
        legs :| LeadTo(s.log, legs, s.repo.next, s.repo.parts.value, |s.log|);
      }
      InTurnGrows(s.log, note, legs, info.parts);
      assert LeadTo(s.log + [note], legs, info.part, info.parts, |s.log|);
      assert (s.log + [note])[|s.log|] == note;
    }
  }

  lemma SoundStart(s: State, level: Option<Level>)
    requires Sound(s)
    ensures Sound(DoStart(s, level))
  {
    var info := PlanCheck(s.config, s.repo, level);
    var note := Planned(|s.checks|, info);
    PlannedOk(s, info);
    AllGrow(s, note);
    PositionOkGrows(s, note);
  }

  /** A passing check adds its leg. */
  lemma PassedOk(log: seq<Note>, patch: Patch)
    requires CheckOk(log, patch.check, patch.info) && MovesOn(patch)
    ensures PatchOk(log + [PartPassed(patch.check)], patch)
  {
    var log', info := log + [PartPassed(patch.check)], patch.info;
    var legs: seq<Leg>, at: nat :| at < |log| && log[at] == Planned(patch.check, info) && LeadTo(log, legs, info.part, info.parts, at);
    InTurnGrows(log, PartPassed(patch.check), legs, info.parts);
    var leg := Leg(patch.check, at, |log|, 0);
    assert IsLeg(log', leg, info.part, info.parts);
    LegAdded(log', legs, leg, info.parts);
    assert EndWith(log', legs + [leg], patch);
  }

  lemma LegAdded(log: seq<Note>, legs: seq<Leg>, leg: Leg, parts: Parts)
    requires InTurn(log, legs, parts) && IsLeg(log, leg, |legs| + 1, parts)
    requires |legs| > 0 ==> Positions(log, legs[|legs| - 1], leg.planned)
    ensures InTurn(log, legs + [leg], parts)
  {
  }

  lemma SoundSettle(s: State, i: nat, outcome: Outcome)
    requires Sound(s) && Enabled(s, Settle(i, outcome))
    ensures Sound(DoSettle(s, i, outcome))
  {
    var patch := Patch(i, s.checks[i].info, outcome);
    assert CheckOk(s.log, i, s.checks[i].info);
    SoundStatus(s, i, outcome.status);
    if MovesOn(patch) {
      PassedOk(s.log, patch);
      AllGrow(SetStatus(s, i, outcome.status), PartPassed(i));
      PositionOkGrows(s, PartPassed(i));
    }
  }

  /** The last leg stores the position that its verdict leads to. */
  lemma StoredOk(log: seq<Note>, patch: Patch) returns (legs': seq<Leg>)
    requires MovesOn(patch) && PatchOk(log, patch) && patch.info.part < patch.info.parts
    ensures LeadTo(log + [PositionStored(patch.check)], legs', patch.info.part + 1, patch.info.parts, |log| + 1)
  {
    var log', n := log + [PositionStored(patch.check)], patch.info.part;
    var legs: seq<Leg> :| EndWith(log, legs, patch);
    InTurnGrows(log, PositionStored(patch.check), legs, patch.info.parts);
    legs' := legs[n - 1 := legs[n - 1].(stored := |log|)];
    assert IsLeg(log, legs[n - 1], n, patch.info.parts);
    forall k | 0 <= k < n ensures IsLeg(log', legs'[k], k + 1, patch.info.parts) {
      assert IsLeg(log', legs[k], k + 1, patch.info.parts);
    }
    assert Positions(log', legs'[n - 1], |log| + 1);
    assert LeadTo(log', legs', n + 1, patch.info.parts, |log| + 1);
  }

  lemma SoundWrite(s: State, k: nat)
    requires Sound(s) && k < |s.patches|
    ensures Sound(DoWrite(s, k))
  {
    var patch, s' := s.patches[k], DoWrite(s, k);
    assert PatchOk(s.log, patch);
    if MovesOn(patch) {
      RemainderIsNext(patch.info.part, patch.info.parts);
      if patch.info.part < patch.info.parts {
        var legs := StoredOk(s.log, patch);
        assert LeadTo(s'.log, legs, s'.repo.next, s'.repo.parts.value, |s'.log|);
      }
      AllGrow(s, PositionStored(patch.check));
    }
    forall j | 0 <= j < |s'.patches| ensures PatchOk(s'.log, s'.patches[j]) {
      assert s'.patches[j] == s.patches[if j < k then j else j + 1];
    }
  }

  lemma SoundStatus(s: State, i: nat, st: Status)
    requires Sound(s) && i < |s.checks|
    ensures Sound(SetStatus(s, i, st))
  {
  }

  lemma SoundStep(s: State, act: Action)
    requires Sound(s) && Enabled(s, act)
    ensures Sound(Apply(s, act))
  {
    match act
    case Settle(i, outcome) => SoundSettle(s, i, outcome);
    case WritePatch(k) => SoundWrite(s, k);
    case Start(level) => SoundStart(s, level);
    case Claimed(i) => SoundStatus(s, i, Running);
    case Expired(i) => SoundStatus(s, i, Failed);
    case CancelledBy(i) => SoundStatus(s, i, Cancelled);
    case _ =>
  }

  lemma {:induction false} SoundRun(s: State, acts: seq<Action>)
    requires Sound(s) && Executes(s, acts)
    ensures Sound(After(s, acts))
    decreases |acts|
  {
    if acts != [] {
      SoundStep(s, acts[0]);
      SoundRun(Apply(s, acts[0]), acts[1..]);
    }
  }

  /**
   Rotation soundness: whenever a rotating check is about to set
   `data_verified_at`, every part 1..P of its split was read back without
   damage since the rotation began, in this order: each part by a check that was
   planned after the part before had passed, from the very position it stored.
   This holds whatever split changes, failures, damage, cancels and delays came
   in between.
   */
  lemma RotationSound(config: Config, acts: seq<Action>, k: nat, parts: Parts) returns (legs: seq<Leg>)
    requires Executes(NewState(config), acts) && Certifies(After(NewState(config), acts), k, parts)
    ensures var s := After(NewState(config), acts);
            |legs| == parts && InTurn(s.log, legs, parts) && legs[parts - 1].check == s.patches[k].check
  {
    SoundRun(NewState(config), acts);
    var s := After(NewState(config), acts);
    assert PatchOk(s.log, s.patches[k]);
    legs :| EndWith(s.log, legs, s.patches[k]);
  }

  /**
   The verification time over every step: it changes only when a verdict reaches
   the repository, and is then the time of that step if and only if the verdict
   is a pass of a full check or of the last part of a split.
   */
  lemma VerifiedBy(s: State, act: Action)
    requires Enabled(s, act)
    ensures Apply(s, act).repo.verifiedAt ==
            if act.WritePatch? && Passes(s.patches[act.index].outcome) && ReadsTheRest(s.patches[act.index].info)
            then Some(s.now) else s.repo.verifiedAt
    ensures !act.WritePatch? ==> Apply(s, act).repo == s.repo
  {
  }

  // --- The service ----------------------------------------------------------------------------

  /** The steps a report of a check takes when nothing comes in between. */
  function ReportSteps(s: State, i: nat, outcome: Outcome): seq<Action> {
    if i >= |s.checks| || s.checks[i].status != Running then []
    else if outcome.status == Cancelled then [Action.Settle(i, outcome)]
    else [Action.Settle(i, outcome), WritePatch(|s.patches|)]
  }

  lemma {:induction false} TwoSteps(s: State, a: Action, b: Action)
    requires Enabled(s, a) && Enabled(Apply(s, a), b)
    ensures Executes(s, [a, b]) && After(s, [a, b]) == Apply(Apply(s, a), b)
  {
    assert [a, b][1..] == [b] && [b][1..] == [];
    assert Executes(Apply(Apply(s, a), b), []) && Executes(Apply(s, a), [b]);
    assert After(Apply(s, a), [b]) == Apply(Apply(s, a), b);
  }

  class CheckRunner {
    var config: Config
    var repo: Repo
    var now: Time
    var checks: seq<CheckRun>
    var busy: bool            // whether a backup, prune or restore of the job is queued or running
    var patches: seq<Patch>   // repository updates of settles that are still under way
    ghost var passes: seq<Pass>
    ghost var log: seq<Note>

    ghost function Contents(): State
      reads this
    {
      State(config, repo, now, busy, checks, patches, passes, log)
    }

    /** Starts a check unless something else uses the repository. */
    method Start(level: Option<Level>) returns (run: Option<nat>)
      modifies this
      ensures run == if Idle(old(Contents())) then Some(|old(checks)|) else None
      ensures run.None? <==>
                old(busy) || exists c :: c in old(checks) && (c.status == Queued || c.status == Running)
      ensures run.Some? ==> checks == old(checks) + [CheckRun(PlanCheck(config, repo, level), Queued)] && repo == old(repo)
      ensures Contents() == if run.Some? then Apply(old(Contents()), Action.Start(level)) else old(Contents())
    {
      if busy || exists i :: 0 <= i < |checks| && Active(checks[i].status) {
        return None;
      }
      var info := PlanCheck(config, repo, level);
      run := Some(|checks|);
      log := log + [Planned(|checks|, info)];
      checks := checks + [CheckRun(info, Queued)];
    }

    /** Records the outcome an agent reports: a run of the machine without steps of others in between. */
    method RecordAgentResult(i: nat, outcome: Outcome)
      requires Terminal(outcome.status)
      modifies this
      // A running check ends as reported and its verdict reaches the repository; a cancelled one has none.
      ensures i < |old(checks)| && old(checks)[i].status == Running ==>
                checks == old(checks)[i := CheckRun(old(checks)[i].info, outcome.status)] &&
                repo == if outcome.status == Cancelled then old(repo) else ApplyPatch(old(repo), old(checks)[i].info, outcome, now)
      ensures i >= |old(checks)| || old(checks)[i].status != Running ==> checks == old(checks) && repo == old(repo)
      ensures now == old(now) && config == old(config)
      ensures Executes(old(Contents()), ReportSteps(old(Contents()), i, outcome))
      ensures Contents() == After(old(Contents()), ReportSteps(old(Contents()), i, outcome))
    {
      if i >= |checks| {
        return;
      }
      if outcome.status == Cancelled {
        if checks[i].status == Running || checks[i].status == Cancelled {
          checks := checks[i := checks[i].(status := Cancelled)];
        }
        return;
      }
      Settle(i, outcome);
    }

    method Settle(i: nat, outcome: Outcome)
      requires i < |checks| && Terminal(outcome.status) && outcome.status != Cancelled
      modifies this
      ensures old(checks)[i].status == Running ==>
                checks == old(checks)[i := CheckRun(old(checks)[i].info, outcome.status)] &&
                repo == ApplyPatch(old(repo), old(checks)[i].info, outcome, now)
      ensures old(checks)[i].status != Running ==> checks == old(checks) && repo == old(repo)
      ensures now == old(now) && config == old(config)
      ensures Executes(old(Contents()), ReportSteps(old(Contents()), i, outcome))
      ensures Contents() == After(old(Contents()), ReportSteps(old(Contents()), i, outcome))
    {
      if checks[i].status != Running {
        return;
      }
      var info := checks[i].info;
      checks := checks[i := checks[i].(status := outcome.status)];
      if Passes(outcome) && info.Part? {
        passes, log := passes + [Pass(info.part, info.parts)], log + [PartPassed(i)] + [PositionStored(i)];
      }
      WriteBack(info, outcome);
      ghost var s, k := old(Contents()), |old(patches)|;
      ghost var s1 := Apply(s, Action.Settle(i, outcome));
      assert s1.patches[..k] + s1.patches[k + 1..] == s.patches;
      assert Contents() == Apply(s1, WritePatch(k));
      TwoSteps(s, Action.Settle(i, outcome), WritePatch(k));
    }

    /** The repository columns of a verdict, built field by field. */
    method WriteBack(info: CheckInfo, outcome: Outcome)
      modifies this`repo
      ensures repo == ApplyPatch(old(repo), info, outcome, now)
    {
      if outcome.damaged {
        repo := repo.(verdict := Some(Damaged), checkedAt := Some(now));
        return;
      }
      if outcome.status != Success {
        return;
      }
      var patch := repo.(verdict := Some(Passed), checkedAt := Some(now));
      if info == Whole(Full) {
        patch := patch.(verifiedAt := Some(now));
      }
      if info.Part? {
        patch := patch.(parts := Some(info.parts), next := info.part % info.parts + 1);
        if info.part == info.parts {
          patch := patch.(verifiedAt := Some(now));
        }
      }
      repo := patch;
    }
  }
}
