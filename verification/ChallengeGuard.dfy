/**
 The attempt cap of the second login factor (server/src/auth/auth.service.ts):
 a challenge token lives 5 minutes, its entry in the attempt map 6, and the map
 is swept on every attempt. Times are milliseconds of a clock that never runs
 backwards; a token identifier is a random UUID and never drawn twice.
 */
module ChallengeGuard {

  type Jti = nat
  type Time = int

  const MAX_TOTP_ATTEMPTS := 5
  const TOKEN_TTL_MS := 300_000
  const CHALLENGE_TTL_MS := 360_000

  datatype Entry = Entry(attempts: nat, expiresAt: Time)

  type Entries = map<Jti, Entry>

  function Swept(m: Entries, now: Time): Entries {
    map k | k in m && m[k].expiresAt > now :: m[k]
  }

  /** The entry an attempt counts in. */
  function EntryFor(m: Entries, jti: Jti, now: Time): Entry {
    if jti in Swept(m, now) then Swept(m, now)[jti] else Entry(0, now + CHALLENGE_TTL_MS)
  }

  predicate Accepts(m: Entries, jti: Jti, now: Time) {
    EntryFor(m, jti, now).attempts < MAX_TOTP_ATTEMPTS
  }

  function Consumed(m: Entries, jti: Jti, now: Time): Entries {
    var e := EntryFor(m, jti, now);
    if Accepts(m, jti, now) then Swept(m, now)[jti := e.(attempts := e.attempts + 1)] else Swept(m, now)
  }

  function Burned(m: Entries, jti: Jti, now: Time): Entries {
    m[jti := Entry(MAX_TOTP_ATTEMPTS, now + CHALLENGE_TTL_MS)]
  }

  class AuthService {
    var challengeState: Entries

    constructor ()
      ensures challengeState == map[]
    {
      challengeState := map[];
    }

    method ConsumeAttempt(jti: Jti, now: Time) returns (accepted: bool)
      modifies this
      ensures accepted == Accepts(old(challengeState), jti, now)
      ensures challengeState == Consumed(old(challengeState), jti, now)
      // Accepted exactly if fewer than five attempts are counted in an entry that is not over; a new entry lasts six minutes.
      ensures accepted <==> !(jti in old(challengeState) && old(challengeState)[jti].expiresAt > now &&
                              old(challengeState)[jti].attempts >= 5)
      ensures accepted ==>
                && jti in challengeState
                && challengeState[jti] ==
                   if jti in old(challengeState) && old(challengeState)[jti].expiresAt > now
                   then Entry(old(challengeState)[jti].attempts + 1, old(challengeState)[jti].expiresAt)
                   else Entry(1, now + 6 * 60 * 1000)
      ensures forall k :: k != jti ==>
                && (k in challengeState <==> k in old(challengeState) && old(challengeState)[k].expiresAt > now)
                && (k in challengeState ==> challengeState[k] == old(challengeState)[k])
    {
      var keys := challengeState.Keys;
      while keys != {}
        invariant keys <= old(challengeState).Keys
        invariant forall k :: k in challengeState <==>
                    k in old(challengeState) && (k in keys || old(challengeState)[k].expiresAt > now)
        invariant forall k :: k in challengeState ==> challengeState[k] == old(challengeState)[k]
        decreases |keys|
      {
        var k :| k in keys;
        if challengeState[k].expiresAt <= now {
          challengeState := challengeState - {k};
        }
        keys := keys - {k};
      }
      assert challengeState == Swept(old(challengeState), now);
      var entry := if jti in challengeState then challengeState[jti] else Entry(0, now + CHALLENGE_TTL_MS);
      if entry.attempts >= MAX_TOTP_ATTEMPTS {
        return false;
      }
      challengeState := challengeState[jti := entry.(attempts := entry.attempts + 1)];
      return true;
    }

    method BurnChallenge(jti: Jti, now: Time)
      modifies this
      ensures challengeState == Burned(old(challengeState), jti, now)
      ensures !Accepts(challengeState, jti, now)
      ensures challengeState == old(challengeState)[jti := Entry(5, now + 6 * 60 * 1000)]
    {
      challengeState := challengeState[jti := Entry(MAX_TOTP_ATTEMPTS, now + CHALLENGE_TTL_MS)];
    }
  }

  // --- Logins over time -----------------------------------------------------------------

  /** A login whose token was verified and whose attempt is not counted yet. */
  datatype Verified = Verified(jti: Jti, at: Time)

  datatype State = State(
    entries: Entries,
    now: Time,
    issued: map<Jti, Time>,
    verified: seq<Verified>,
    // History
    checks: multiset<Jti>,      // codes checked, by challenge
    burned: set<Jti>            // challenges that had a success
  )

  datatype Action =
    | Tick(time: Time)
    | Issue(jti: Jti)
    | Verify(jti: Jti)
    | Consume(index: nat)
    | Succeed(jti: Jti)

  function NewState(now: Time): State {
    State(map[], now, map[], [], multiset{}, {})
  }

  predicate Enabled(s: State, act: Action) {
    match act
    case Tick(time) => s.now <= time
    case Issue(jti) => jti !in s.issued
    case Verify(jti) => jti in s.issued && s.now < s.issued[jti] + TOKEN_TTL_MS
    case Consume(i) => i < |s.verified|
    case Succeed(jti) => jti in s.checks
  }

  function Apply(s: State, act: Action): State
    requires Enabled(s, act)
  {
    match act
    case Tick(time) => s.(now := time)
    case Issue(jti) => s.(issued := s.issued[jti := s.now])
    case Verify(jti) => s.(verified := s.verified + [Verified(jti, s.now)])
    case Consume(i) =>
      var v := s.verified[i];
      s.(entries := Consumed(s.entries, v.jti, s.now),
         verified := s.verified[..i] + s.verified[i + 1..],
         checks := if Accepts(s.entries, v.jti, s.now) then s.checks + multiset{v.jti} else s.checks)
    case Succeed(jti) => s.(entries := Burned(s.entries, jti, s.now), burned := s.burned + {jti})
  }

  predicate Executes(s: State, acts: seq<Action>)
    decreases |acts|
  {
    acts == [] || (Enabled(s, acts[0]) && Executes(Apply(s, acts[0]), acts[1..]))
  }

  function After(s: State, acts: seq<Action>): State
    requires Executes(s, acts)
    decreases |acts|
  {
    if acts == [] then s else After(Apply(s, acts[0]), acts[1..])
  }

  /** An attempt is counted at most `delay` milliseconds after its token was verified. */
  predicate PromptStep(s: State, act: Action, delay: int) {
    act.Consume? && act.index < |s.verified| ==> s.now <= s.verified[act.index].at + delay
  }

  predicate Prompt(s: State, acts: seq<Action>, delay: int)
    requires Executes(s, acts)
    decreases |acts|
  {
    acts == [] || (PromptStep(s, acts[0], delay) && Prompt(Apply(s, acts[0]), acts[1..], delay))
  }

  /** How much longer an entry lives than the token it belongs to. */
  const GRACE_MS := CHALLENGE_TTL_MS - TOKEN_TTL_MS

  // --- Invariant ------------------------------------------------------------------------

  ghost predicate ChallengeOk(s: State, jti: Jti)
    requires jti in s.issued
  {
    && s.issued[jti] <= s.now
    && s.checks[jti] <= MAX_TOTP_ATTEMPTS
    && (jti in s.entries ==>
          s.entries[jti].expiresAt >= s.issued[jti] + CHALLENGE_TTL_MS && s.entries[jti].attempts <= MAX_TOTP_ATTEMPTS)
    // As long as an attempt can still come in, the entry is there and has counted everything.
    && (s.now < s.issued[jti] + CHALLENGE_TTL_MS && (s.checks[jti] > 0 || jti in s.burned) ==>
          && jti in s.entries && s.entries[jti].attempts >= s.checks[jti]
          && (jti in s.burned ==> s.entries[jti].attempts == MAX_TOTP_ATTEMPTS))
  }

  ghost predicate Inv(s: State) {
    && (forall jti :: jti in s.issued ==> ChallengeOk(s, jti))
    && (forall i :: 0 <= i < |s.verified| ==>
          && s.verified[i].jti in s.issued && s.verified[i].at < s.issued[s.verified[i].jti] + TOKEN_TTL_MS)
    && (forall jti :: jti in s.checks || jti in s.burned || jti in s.entries ==> jti in s.issued)
  }

  lemma InvConsume(s: State, i: nat)
    requires Inv(s) && i < |s.verified| && PromptStep(s, Consume(i), GRACE_MS)
    ensures Inv(Apply(s, Consume(i)))
  {
  }

  lemma InvStep(s: State, act: Action)
    requires Inv(s) && Enabled(s, act) && PromptStep(s, act, GRACE_MS)
    ensures Inv(Apply(s, act))
  {
    match act
    case Consume(i) => InvConsume(s, i);
    case Tick(_) =>
      forall jti | jti in s.issued ensures ChallengeOk(Apply(s, act), jti) {
        assert ChallengeOk(s, jti);
      }
    case Issue(jti) =>
      forall j | j in Apply(s, act).issued ensures ChallengeOk(Apply(s, act), j) {
        assert j != jti ==> ChallengeOk(s, j);
      }
    case Verify(_) =>
      forall jti | jti in s.issued ensures ChallengeOk(Apply(s, act), jti) {
        assert ChallengeOk(s, jti);
      }
    case Succeed(_) =>
      forall jti | jti in s.issued ensures ChallengeOk(Apply(s, act), jti) {
        assert ChallengeOk(s, jti);
      }
  }

  lemma {:induction false} InvRun(s: State, acts: seq<Action>)
    requires Inv(s) && Executes(s, acts) && Prompt(s, acts, GRACE_MS)
    ensures Inv(After(s, acts))
    decreases |acts|
  {
    if acts != [] {
      InvStep(s, acts[0]);
      InvRun(Apply(s, acts[0]), acts[1..]);
    }
  }

  // --- Theorems -------------------------------------------------------------------------

  /**
   Challenge cap: if every attempt is counted within a minute of its token's
   verification, at most five codes are checked against a challenge, and while
   its token is valid the entry that counted a check is never swept away.
   */
  lemma {:induction false} AtMostFiveChecks(start: Time, acts: seq<Action>, jti: Jti)
    requires Executes(NewState(start), acts) && Prompt(NewState(start), acts, GRACE_MS)
    ensures var s := After(NewState(start), acts);
            && s.checks[jti] <= MAX_TOTP_ATTEMPTS
            && (jti in s.issued && s.now < s.issued[jti] + TOKEN_TTL_MS && s.checks[jti] > 0 ==>
                  jti in Swept(s.entries, s.now) && s.entries[jti].attempts >= s.checks[jti])
  {
    InvRun(NewState(start), acts);
    var s := After(NewState(start), acts);
    if jti in s.issued {
      assert ChallengeOk(s, jti);
    }
  }

  /** No check starts after a success burned the challenge. */
  lemma {:induction false} BurnedIsSpent(s: State, acts: seq<Action>, jti: Jti)
    requires Inv(s) && Executes(s, acts) && Prompt(s, acts, GRACE_MS) && jti in s.burned
    ensures After(s, acts).checks[jti] == s.checks[jti]
    decreases |acts|
  {
    if acts != [] {
      InvStep(s, acts[0]);
      if acts[0].Consume? {
        var v := s.verified[acts[0].index];
        assert ChallengeOk(s, v.jti);
      }
      BurnedIsSpent(Apply(s, acts[0]), acts[1..], jti);
    }
  }

  // --- The minute is exact -----------------------------------------------------------------

  lemma {:induction false} Concat(s: State, acts: seq<Action>, more: seq<Action>, delay: int)
    requires Executes(s, acts) && Executes(After(s, acts), more)
    requires Prompt(s, acts, delay) && Prompt(After(s, acts), more, delay)
    ensures Executes(s, acts + more) && After(s, acts + more) == After(After(s, acts), more)
    ensures Prompt(s, acts + more, delay)
    decreases |acts|
  {
    if acts == [] {
      assert acts + more == more;
    } else {
      Concat(Apply(s, acts[0]), acts[1..], more, delay);
      assert (acts + more)[1..] == acts[1..] + more;
    }
  }

  lemma {:induction false} TwoSteps(s: State, a: Action, b: Action, delay: int)
    requires Enabled(s, a) && Enabled(Apply(s, a), b) && PromptStep(s, a, delay) && PromptStep(Apply(s, a), b, delay)
    ensures Executes(s, [a, b]) && After(s, [a, b]) == Apply(Apply(s, a), b) && Prompt(s, [a, b], delay)
  {
    var s1 := Apply(s, a);
    var s2 := Apply(s1, b);
    assert [a, b][1..] == [b] && [b][1..] == [];
    assert Executes(s2, []) && Prompt(s2, [], delay);
    assert Executes(s1, [b]) && After(s1, [b]) == s2 && Prompt(s1, [b], delay);
  }

  /** The state after `n` attempts against one challenge, all right after it was issued. */
  function Attempted(n: nat): State {
    State(if n == 0 then map[] else map[1 := Entry(n, CHALLENGE_TTL_MS)], 0, map[1 := 0], [], multiset{}[1 := n], {})
  }

  lemma NextAttempt(n: nat)
    requires n < MAX_TOTP_ATTEMPTS
    ensures Enabled(Attempted(n), Verify(1)) && Enabled(Apply(Attempted(n), Verify(1)), Consume(0))
    ensures Apply(Apply(Attempted(n), Verify(1)), Consume(0)) == Attempted(n + 1)
    ensures PromptStep(Apply(Attempted(n), Verify(1)), Consume(0), 0)
  {
  }

  lemma {:induction false} Attempts(n: nat, delay: nat) returns (acts: seq<Action>)
    requires n <= MAX_TOTP_ATTEMPTS
    ensures Executes(NewState(0), acts) && After(NewState(0), acts) == Attempted(n) && Prompt(NewState(0), acts, delay)
  {
    if n == 0 {
      TwoSteps(NewState(0), Issue(1), Tick(0), delay);
      acts := [Issue(1), Tick(0)];
    } else {
      var before := Attempts(n - 1, delay);
      NextAttempt(n - 1);
      TwoSteps(Attempted(n - 1), Verify(1), Consume(0), delay);
      Concat(NewState(0), before, [Verify(1), Consume(0)], delay);
      acts := before + [Verify(1), Consume(0)];
    }
  }

  /**
   A request verified at the token's last moment and counted a millisecond over
   a minute later escapes the cap: the entry has been swept, and a sixth code is
   checked.
   */
  lemma DelayedAttemptIsNotCapped(delay: int) returns (acts: seq<Action>)
    requires delay > GRACE_MS
    ensures Executes(NewState(0), acts) && Prompt(NewState(0), acts, delay)
    ensures After(NewState(0), acts).checks[1] == MAX_TOTP_ATTEMPTS + 1
  {
    var five := Attempts(MAX_TOTP_ATTEMPTS, delay);
    var s0 := Attempted(MAX_TOTP_ATTEMPTS);
    var verify := [Tick(TOKEN_TTL_MS - 1), Verify(1)];
    TwoSteps(s0, verify[0], verify[1], delay);
    var s1 := Apply(Apply(s0, verify[0]), verify[1]);
    Concat(NewState(0), five, verify, delay);
    var consume := [Tick(CHALLENGE_TTL_MS), Consume(0)];
    TwoSteps(s1, consume[0], consume[1], delay);
    assert 1 !in Swept(s1.entries, CHALLENGE_TTL_MS);
    Concat(NewState(0), five + verify, consume, delay);
    acts := five + verify + consume;
  }

  /** In every run whose attempts are counted within `delay`, the cap holds. */
  ghost predicate Capped(delay: int) {
    forall start, acts, jti :: Executes(NewState(start), acts) && Prompt(NewState(start), acts, delay) ==>
      After(NewState(start), acts).checks[jti] <= MAX_TOTP_ATTEMPTS
  }

  lemma {:induction false} PromptWithin(s: State, acts: seq<Action>, delay: int)
    requires Executes(s, acts) && Prompt(s, acts, delay) && delay <= GRACE_MS
    ensures Prompt(s, acts, GRACE_MS)
    decreases |acts|
  {
    if acts != [] {
      PromptWithin(Apply(s, acts[0]), acts[1..], delay);
    }
  }

  /** The cap holds exactly if the server never takes longer than a minute from a token's verification to counting the attempt. */
  lemma CappedIff(delay: int)
    ensures Capped(delay) <==> delay <= GRACE_MS
  {
    if delay <= GRACE_MS {
      forall start, acts, jti | Executes(NewState(start), acts) && Prompt(NewState(start), acts, delay)
        ensures After(NewState(start), acts).checks[jti] <= MAX_TOTP_ATTEMPTS
      {
        PromptWithin(NewState(start), acts, delay);
        AtMostFiveChecks(start, acts, jti);
      }
    } else {
      var acts := DelayedAttemptIsNotCapped(delay);
      assert After(NewState(0), acts).checks[1] > MAX_TOTP_ATTEMPTS;
    }
  }
}
