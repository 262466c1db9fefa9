/**
 When a certificate rests on the latest reads of a rotation, and not on parts
 read before the last certificate. The two updates of a verdict leave a gap in
 which another rotating check may start; this module says which starts do harm.
 */
module RotationFreshness {
  import opened Wrappers
  import opened RunRows
  import opened Rotation

  /** The passes from `n + 1` to the last part of a split. */
  function Rest(n: nat, parts: int): seq<Pass>
    requires n <= parts
  {
    seq(parts - n, i => Pass(n + 1 + i, parts))
  }

  /** The passes 1..n of a split. */
  function Turn(n: nat, parts: int): seq<Pass> {
    seq(n, i => Pass(i + 1, parts))
  }

  /** The latest passes of all are exactly 1..n of the split. */
  predicate EndsWith(passes: seq<Pass>, n: nat, parts: int) {
    n <= |passes| && passes[|passes| - n..] == Turn(n, parts)
  }

  /** Two checks that both begin the same rotation. */
  predicate SameBeginning(a: CheckInfo, b: CheckInfo) {
    a == b && a.Part? && a.part == 1
  }

  /**
   A rotating check starts while a passed part has yet to store the next
   position, and the two do not just begin the same rotation.
   */
  predicate Harmful(s: State, act: Action) {
    act.Start? && PlanCheck(s.config, s.repo, act.level).Part? &&
    exists k :: 0 <= k < |s.patches| && MovesOn(s.patches[k]) &&
                !SameBeginning(s.patches[k].info, PlanCheck(s.config, s.repo, act.level))
  }

  /** A schedule without harmful starts. */
  predicate Calm(s: State, acts: seq<Action>)
    requires Executes(s, acts)
    decreases |acts|
  {
    acts == [] || (!Harmful(s, acts[0]) && Calm(Apply(s, acts[0]), acts[1..]))
  }

  // --- Harmless starts keep rotations fresh -----------------------------------------------

  predicate AtPosition(s: State, part: int, parts: int) {
    part <= 1 || EndsWith(s.passes, part - 1, parts)
  }

  predicate NoneMovesOn(s: State) {
    forall k :: 0 <= k < |s.patches| ==> !MovesOn(s.patches[k])
  }

  predicate OneActive(checks: seq<CheckRun>) {
    forall i, j :: 0 <= i < j < |checks| ==> !(Active(checks[i].status) && Active(checks[j].status))
  }

  /** Several passed parts are only ever to be stored if they begin the same rotation. */
  predicate OneToStore(patches: seq<Patch>) {
    forall k, l :: 0 <= k < l < |patches| && MovesOn(patches[k]) && MovesOn(patches[l]) ==>
      SameBeginning(patches[k].info, patches[l].info)
  }

  /** An active rotating check continues the latest passes, and nothing else is left to be stored. */
  ghost predicate CheckFresh(s: State, run: CheckRun) {
    Active(run.status) && run.info.Part? ==>
      && 1 <= run.info.part <= run.info.parts && AtPosition(s, run.info.part, run.info.parts)
      && forall k :: 0 <= k < |s.patches| && MovesOn(s.patches[k]) ==> SameBeginning(s.patches[k].info, run.info)
  }

  ghost predicate PatchFresh(passes: seq<Pass>, patch: Patch) {
    MovesOn(patch) ==>
      1 <= patch.info.part <= patch.info.parts && EndsWith(passes, patch.info.part, patch.info.parts)
  }

  ghost predicate Fresh(s: State) {
    && OneActive(s.checks)
    && OneToStore(s.patches)
    && (NoneMovesOn(s) && s.repo.parts.Some? ==> AtPosition(s, s.repo.next, s.repo.parts.value))
    && (forall i :: 0 <= i < |s.checks| ==> CheckFresh(s, s.checks[i]))
    && (forall k :: 0 <= k < |s.patches| ==> PatchFresh(s.passes, s.patches[k]))
  }

  lemma TurnGrows(passes: seq<Pass>, n: nat, parts: int)
    requires n == 0 || EndsWith(passes, n, parts)
    ensures EndsWith(passes + [Pass(n + 1, parts)], n + 1, parts)
  {
    var passes' := passes + [Pass(n + 1, parts)];
    assert passes'[|passes'| - (n + 1)..] == passes[|passes| - n..] + [Pass(n + 1, parts)];
  }

  /** No check is active once the active one is settled. */
  lemma SettledIsLast(s: State, i: nat, st: Status)
    requires OneActive(s.checks) && i < |s.checks| && Active(s.checks[i].status) && Terminal(st)
    ensures forall j :: 0 <= j < |s.checks| ==> !Active(SetStatus(s, i, st).checks[j].status)
  {
  }

  lemma FreshPass(s: State, i: nat, outcome: Outcome)
    requires Fresh(s) && Enabled(s, Settle(i, outcome)) && MovesOn(Patch(i, s.checks[i].info, outcome))
    ensures Fresh(DoSettle(s, i, outcome))
  {
    var s', info := DoSettle(s, i, outcome), s.checks[i].info;
    SettledIsLast(s, i, outcome.status);
    assert CheckFresh(s, s.checks[i]);
    TurnGrows(s.passes, info.part - 1, info.parts);
    assert MovesOn(s'.patches[|s.patches|]);
    forall k | 0 <= k < |s.patches|
      ensures s'.patches[k] == s.patches[k] && (MovesOn(s.patches[k]) ==> SameBeginning(s.patches[k].info, info)) {}
  }

  lemma FreshNoPass(s: State, i: nat, outcome: Outcome)
    requires Fresh(s) && Enabled(s, Settle(i, outcome)) && !MovesOn(Patch(i, s.checks[i].info, outcome))
    ensures Fresh(DoSettle(s, i, outcome))
  {
    var s' := DoSettle(s, i, outcome);
    SettledIsLast(s, i, outcome.status);
    forall k | 0 <= k < |s.patches| ensures s'.patches[k] == s.patches[k] {}
    assert NoneMovesOn(s') ==> NoneMovesOn(s);
    forall k | 0 <= k < |s'.patches| ensures PatchFresh(s'.passes, s'.patches[k]) {
      assert k < |s.patches| ==> PatchFresh(s.passes, s.patches[k]);
    }
  }

  /** Where the patches that stay come from. */
  lemma PatchRemoved(s: State, k: nat)
    requires k < |s.patches|
    ensures var s' := DoWrite(s, k);
            && (OneToStore(s.patches) ==> OneToStore(s'.patches))
            && (forall j :: 0 <= j < |s'.patches| ==> s'.patches[j] in s.patches)
            && (!MovesOn(s.patches[k]) && NoneMovesOn(s') ==> NoneMovesOn(s))
  {
    var s' := DoWrite(s, k);
    forall j | 0 <= j < |s'.patches| ensures s'.patches[j] == s.patches[if j < k then j else j + 1] {}
    if !MovesOn(s.patches[k]) && NoneMovesOn(s') {
      forall j | 0 <= j < |s.patches| && j != k ensures !MovesOn(s.patches[j]) {
        assert s.patches[j] == s'.patches[if j < k then j else j - 1];
      }
    }
  }

  lemma FreshWrite(s: State, k: nat)
    requires Fresh(s) && k < |s.patches|
    ensures Fresh(DoWrite(s, k))
  {
    var patch, s' := s.patches[k], DoWrite(s, k);
    PatchRemoved(s, k);
    assert PatchFresh(s.passes, patch);
    if MovesOn(patch) {
      RemainderIsNext(patch.info.part, patch.info.parts);
    }
    forall i | 0 <= i < |s.checks| ensures CheckFresh(s', s.checks[i]) {
      assert CheckFresh(s, s.checks[i]);
    }
  }

  lemma FreshStatus(s: State, i: nat, st: Status)
    requires Fresh(s) && i < |s.checks| && (st == Running ==> s.checks[i].status == Queued) && st != Queued
    ensures Fresh(SetStatus(s, i, st))
  {
    var s' := SetStatus(s, i, st);
    forall j | 0 <= j < |s'.checks| ensures CheckFresh(s', s'.checks[j]) {
      assert CheckFresh(s, s.checks[j]);
    }
  }

  lemma FreshStart(s: State, level: Option<Level>)
    requires Fresh(s) && Enabled(s, Start(level)) && !Harmful(s, Start(level))
    ensures Fresh(DoStart(s, level))
  {
    var s' := DoStart(s, level);
    var info := PlanCheck(s.config, s.repo, level);
    assert forall j :: 0 <= j < |s.checks| ==> s'.checks[j] == s.checks[j];
    if info.Part? && info.part > 1 {
      assert NoneMovesOn(s);
    }
  }

  lemma FreshStep(s: State, act: Action)
    requires Fresh(s) && Enabled(s, act) && !Harmful(s, act)
    ensures Fresh(Apply(s, act))
  {
    match act
    case Settle(i, outcome) =>
      if MovesOn(Patch(i, s.checks[i].info, outcome)) {
        FreshPass(s, i, outcome);
      } else {
        FreshNoPass(s, i, outcome);
      }
    case WritePatch(k) => FreshWrite(s, k);
    case Start(level) => FreshStart(s, level);
    case Claimed(i) => FreshStatus(s, i, Running);
    case Expired(i) => FreshStatus(s, i, Failed);
    case CancelledBy(i) => FreshStatus(s, i, Cancelled);
    case _ =>
  }

  lemma {:induction false} FreshRun(s: State, acts: seq<Action>)
    requires Fresh(s) && Executes(s, acts) && Calm(s, acts)
    ensures Fresh(After(s, acts))
    decreases |acts|
  {
    if acts != [] {
      FreshStep(s, acts[0]);
      FreshRun(Apply(s, acts[0]), acts[1..]);
    }
  }

  /**
   A certified rotation is read anew: in every schedule without a harmful start,
   the P latest passes of all rotating checks are exactly the parts 1..P of the
   split that is certified. Nothing of an earlier rotation or of another split
   counts.
   */
  lemma {:induction false} RotationFresh(config: Config, acts: seq<Action>, k: nat, parts: Parts)
    requires Executes(NewState(config), acts) && Calm(NewState(config), acts)
    requires Certifies(After(NewState(config), acts), k, parts)
    ensures EndsWith(After(NewState(config), acts).passes, parts, parts)
  {
    FreshRun(NewState(config), acts);
    assert PatchFresh(After(NewState(config), acts).passes, After(NewState(config), acts).patches[k]);
  }

  // --- Schedules ------------------------------------------------------------------------------

  const PASSED := Outcome(Success, false)

  lemma {:induction false} Concat(s: State, acts: seq<Action>, more: seq<Action>)
    requires Executes(s, acts) && Executes(After(s, acts), more)
    ensures Executes(s, acts + more) && After(s, acts + more) == After(After(s, acts), more)
    ensures Calm(s, acts + more) <==> Calm(s, acts) && Calm(After(s, acts), more)
    decreases |acts|
  {
    if acts == [] {
      assert acts + more == more;
    } else {
      Concat(Apply(s, acts[0]), acts[1..], more);
      assert (acts + more)[1..] == acts[1..] + more;
    }
  }

  lemma {:induction false} OneStep(s: State, act: Action)
    requires Enabled(s, act)
    ensures Executes(s, [act]) && After(s, [act]) == Apply(s, act) && (Calm(s, [act]) <==> !Harmful(s, act))
  {
    assert [act][1..] == [];
    assert Executes(Apply(s, act), []) && Calm(Apply(s, act), []);
  }

  lemma {:induction false} ThenStep(s: State, acts: seq<Action>, act: Action)
    requires Executes(s, acts) && Enabled(After(s, acts), act)
    ensures Executes(s, acts + [act]) && After(s, acts + [act]) == Apply(After(s, acts), act)
    ensures Calm(s, acts) && !Harmful(After(s, acts), act) ==> Calm(s, acts + [act])
  {
    OneStep(After(s, acts), act);
    Concat(s, acts, [act]);
  }

  /** The state after a check with this plan was started and passed. */
  function Checked(s: State, info: CheckInfo): State
    requires info.Part?
  {
    var i := |s.checks|;
    s.(checks := s.checks + [CheckRun(info, Success)], patches := s.patches + [Patch(i, info, PASSED)],
       passes := s.passes + [Pass(info.part, info.parts)], log := s.log + [Planned(i, info)] + [PartPassed(i)])
  }

  /** A started check is claimed and passes. */
  lemma StartedPasses(s: State, level: Option<Level>) returns (acts: seq<Action>)
    requires Idle(s) && PlanCheck(s.config, s.repo, level).Part?
    ensures var s0, s' := DoStart(s, level), Checked(s, PlanCheck(s.config, s.repo, level));
            Executes(s0, acts) && Calm(s0, acts) && After(s0, acts) == s' && Idle(s')
  {
    var i, info, s0 := |s.checks|, PlanCheck(s.config, s.repo, level), DoStart(s, level);
    var s1 := SetStatus(s0, i, Running);
    assert s1.checks == s.checks + [CheckRun(info, Running)];
    var s2 := DoSettle(s1, i, PASSED);
    assert s2.checks == s.checks + [CheckRun(info, Success)];
    OneStep(s0, Claimed(i));
    ThenStep(s0, [Claimed(i)], Settle(i, PASSED));
    acts := [Claimed(i)] + [Settle(i, PASSED)];
  }

  lemma CheckPasses(s: State) returns (acts: seq<Action>)
    requires Idle(s) && PlanCheck(s.config, s.repo, Some(Rotating)).Part?
    ensures var s' := Checked(s, PlanCheck(s.config, s.repo, Some(Rotating)));
            && Executes(s, acts) && After(s, acts) == s' && Idle(s')
            && (!Harmful(s, Start(Some(Rotating))) ==> Calm(s, acts))
  {
    var start := Start(Some(Rotating));
    OneStep(s, start);
    var passes := StartedPasses(s, Some(Rotating));
    Concat(s, [start], passes);
    acts := [start] + passes;
  }

  // --- A harmful start leads to a certificate that is not fresh ---------------------------------

  /** All verdicts but one reach the repository. */
  lemma {:induction false} WriteOthers(s: State, a: nat) returns (acts: seq<Action>)
    requires a < |s.patches|
    ensures Executes(s, acts) && Calm(s, acts)
    ensures var s' := After(s, acts);
            && s'.patches == [s.patches[a]] && s'.passes == s.passes && s'.checks == s.checks
            && s'.busy == s.busy && s'.config == s.config
    decreases |s.patches|
  {
    acts := [];
    if |s.patches| > 1 {
      var k := if a == 0 then 1 else 0;
      var s1 := DoWrite(s, k);
      OneStep(s, WritePatch(k));
      var rest := WriteOthers(s1, if k < a then a - 1 else a);
      Concat(s, [WritePatch(k)], rest);
      acts := [WritePatch(k)] + rest;
    }
  }

  /** The rotation stands at `part`, and nothing is under way. */
  predicate Ready(s: State, part: int, parts: Parts) {
    Idle(s) && s.patches == [] && SplitOf(s.config) == parts && s.repo.parts == Some(parts) && s.repo.next == part
  }

  /** The last verdict is stored, and the job is set to its split. */
  lemma StoreAndConfigure(s: State, parts: Parts) returns (acts: seq<Action>)
    requires Idle(s) && |s.patches| == 1 && MovesOn(s.patches[0])
    requires s.patches[0].info.parts == parts && 1 <= s.patches[0].info.part < parts
    ensures Executes(s, acts) && Calm(s, acts)
    ensures Ready(After(s, acts), s.patches[0].info.part + 1, parts) && After(s, acts).passes == s.passes
  {
    var config := Config(None, Some(parts));
    RemainderIsNext(s.patches[0].info.part, parts);
    OneStep(s, WritePatch(0));
    ThenStep(s, [WritePatch(0)], Configure(config));
    acts := [WritePatch(0)] + [Configure(config)];
  }

  /** The checks of the remaining parts pass one after the other, and the last one is about to certify. */
  lemma {:induction false} PassRest(s: State, part: nat, parts: Parts) returns (acts: seq<Action>)
    requires 1 <= part <= parts && Ready(s, part, parts)
    ensures Executes(s, acts) && Calm(s, acts)
    ensures After(s, acts).passes == s.passes + Rest(part - 1, parts) && Certifies(After(s, acts), 0, parts)
    decreases parts - part
  {
    if part == parts {
      acts := CheckPasses(s);
    } else {
      var before := PassOne(s, part, parts);
      var rest := PassRest(After(s, before), part + 1, parts);
      Concat(s, before, rest);
      acts := before + rest;
      assert [Pass(part, parts)] + Rest(part, parts) == Rest(part - 1, parts);
    }
  }

  /** One part passes, and the next position is stored. */
  lemma PassOne(s: State, part: nat, parts: Parts) returns (acts: seq<Action>)
    requires 1 <= part < parts && Ready(s, part, parts)
    ensures Executes(s, acts) && Calm(s, acts)
    ensures Ready(After(s, acts), part + 1, parts) && After(s, acts).passes == s.passes + [Pass(part, parts)]
  {
    var check := CheckPasses(s);
    RemainderIsNext(part, parts);
    ThenStep(s, check, WritePatch(0));
    acts := check + [WritePatch(0)];
  }

  /** The rotation of one of the pending verdicts goes on to its end, as if the others had not been. */
  lemma CompleteRotation(s: State, a: nat, parts: Parts) returns (acts: seq<Action>)
    requires Idle(s) && a < |s.patches| && MovesOn(s.patches[a])
    requires s.patches[a].info.parts == parts && 1 <= s.patches[a].info.part < parts
    ensures Executes(s, acts) && Calm(s, acts) && Certifies(After(s, acts), 0, parts)
    ensures After(s, acts).passes == s.passes + Rest(s.patches[a].info.part, parts)
  {
    acts := WriteOthers(s, a);
    var stored := StoreAndConfigure(After(s, acts), parts);
    Concat(s, acts, stored);
    acts := acts + stored;
    var rest := PassRest(After(s, acts), s.patches[a].info.part + 1, parts);
    Concat(s, acts, rest);
    acts := acts + rest;
  }

  /** An extra pass between a part and the rest of its rotation shows, unless both are part 1. */
  lemma ExtraPassShows(passes: seq<Pass>, p: nat, parts: Parts, extra: Pass)
    requires 1 <= p <= parts && EndsWith(passes, p, parts) && !(extra == Pass(p, parts) && p == 1)
    ensures !EndsWith(passes + [extra] + Rest(p, parts), parts, parts)
  {
    var all, n := passes + [extra] + Rest(p, parts), |passes|;
    if parts <= |all| {
      var last := all[|all| - parts..];
      assert last[p - 1] == all[n] == extra;
      assert Turn(parts, parts)[p - 1] == Pass(p, parts);
      if p > 1 {
        assert last[p - 2] == all[n - 1] == passes[n - 1];
        assert passes[n - 1] == passes[n - p..][p - 1] == Turn(p, parts)[p - 1] == Pass(p, parts);
        assert Turn(parts, parts)[p - 2] == Pass(p - 1, parts);
      }
    }
  }

  /** After the harmful start every rotation can be completed to a certificate that is not fresh. */
  lemma HarmfulStart(s: State, level: Option<Level>, a: nat) returns (acts: seq<Action>, k: nat)
    requires Fresh(s) && Idle(s) && PlanCheck(s.config, s.repo, level).Part? && a < |s.patches| && MovesOn(s.patches[a])
    requires !SameBeginning(s.patches[a].info, PlanCheck(s.config, s.repo, level))
    ensures var s0, parts := DoStart(s, level), s.patches[a].info.parts;
            && Executes(s0, acts) && Calm(s0, acts)
            && Certifies(After(s0, acts), k, parts) && !EndsWith(After(s0, acts).passes, parts, parts)
  {
    var s0, info, patch := DoStart(s, level), PlanCheck(s.config, s.repo, level), s.patches[a];
    var p, parts := patch.info.part, patch.info.parts;
    assert PatchFresh(s.passes, patch);
    ExtraPassShows(s.passes, p, parts, Pass(info.part, info.parts));
    acts := StartedPasses(s, level);
    k := a;
    if p == parts {
      assert s.passes + [Pass(info.part, info.parts)] + Rest(p, parts) == s.passes + [Pass(info.part, info.parts)];
    } else {
      var rest := CompleteRotation(After(s0, acts), a, parts);
      Concat(s0, acts, rest);
      acts := acts + rest;
      k := 0;
    }
  }

  /** Whatever happens, short of further harmful starts, every certificate is fresh. */
  ghost predicate StaysFresh(s: State) {
    forall acts, k: nat, parts: Parts ::
      Executes(s, acts) && Calm(s, acts) && Certifies(After(s, acts), k, parts) ==>
        EndsWith(After(s, acts).passes, parts, parts)
  }

  /**
   Exactly which starts do harm: from every state that was reached without a
   harmful start, all certificates that follow a start are fresh if and only if
   no part that has yet to store its position is anything but part 1 of the same
   split, read again by the check that starts.
   */
  lemma StartIsSafeIff(s: State, level: Option<Level>)
    requires Fresh(s) && Enabled(s, Start(level))
    ensures StaysFresh(DoStart(s, level)) <==> !Harmful(s, Start(level))
  {
    var s0 := DoStart(s, level);
    if Harmful(s, Start(level)) {
      var a :| 0 <= a < |s.patches| && MovesOn(s.patches[a]) &&
               !SameBeginning(s.patches[a].info, PlanCheck(s.config, s.repo, level));
      var acts, k := HarmfulStart(s, level, a);
      var parts := s.patches[a].info.parts;
      assert Certifies(After(s0, acts), k, parts);
    } else {
      FreshStart(s, level);
      forall acts, k: nat, parts: Parts | Executes(s0, acts) && Calm(s0, acts) && Certifies(After(s0, acts), k, parts)
        ensures EndsWith(After(s0, acts).passes, parts, parts)
      {
        FreshRun(s0, acts);
        assert PatchFresh(After(s0, acts).passes, After(s0, acts).patches[k]);
      }
    }
  }

  /**
   It does happen: a rotation of two parts in which a third check starts before
   the position of the second is stored. It reads part 2 once more, and right
   after the first certificate it certifies the data again, with nothing read in
   between.
   */
  lemma OverlapCertifiesUnread() returns (acts: seq<Action>)
    ensures var s0 := NewState(Config(None, Some(2)));
            && Executes(s0, acts) && !Calm(s0, acts)
            && var s := After(s0, acts);
               // The first certificate is about to be written, and the second right after it.
               && Certifies(s, 0, 2) && Certifies(DoWrite(s, 0), 0, 2)
               && DoWrite(s, 0).passes == s.passes == [Pass(1, 2), Pass(2, 2), Pass(2, 2)]
               && !EndsWith(s.passes, 2, 2)
  {
    var s0 := NewState(Config(None, Some(2)));
    var stored := FirstPartStored();
    var second := CheckPasses(After(s0, stored));
    Concat(s0, stored, second);
    var s2 := After(s0, stored + second);
    var third := CheckPasses(s2);
    Concat(s0, stored + second, third);
    acts := stored + second + third;
    LastTwo(After(s0, acts).passes);
    RotationFreshUnless(acts);
  }

  lemma FirstPartStored() returns (acts: seq<Action>)
    ensures var s0 := NewState(Config(None, Some(2)));
            && Executes(s0, acts) && Ready(After(s0, acts), 2, 2) && After(s0, acts).passes == [Pass(1, 2)]
  {
    var s0 := NewState(Config(None, Some(2)));
    var first := CheckPasses(s0);
    ThenStep(s0, first, WritePatch(0));
    acts := first + [WritePatch(0)];
  }

  lemma LastTwo(passes: seq<Pass>)
    requires passes == [Pass(1, 2), Pass(2, 2), Pass(2, 2)]
    ensures !EndsWith(passes, 2, 2)
  {
    assert passes[|passes| - 2..][0] == passes[1] == Pass(2, 2) != Turn(2, 2)[0];
  }

  lemma {:induction false} RotationFreshUnless(acts: seq<Action>)
    requires var s0 := NewState(Config(None, Some(2)));
             Executes(s0, acts) && Certifies(After(s0, acts), 0, 2) && !EndsWith(After(s0, acts).passes, 2, 2)
    ensures !Calm(NewState(Config(None, Some(2))), acts)
  {
    if Calm(NewState(Config(None, Some(2))), acts) {
      RotationFresh(Config(None, Some(2)), acts, 0, 2);
    }
  }
}
