/**
 Device authorization of the command line client (device-auth.service.ts, after
 RFC 8628): pairing rows, the polls of the client, the decision of a signed-in
 user, expiry and purge, with every statement of every request interleaved.

 Codes stand for their hashes (the hash is injective for all that matters
 here), device codes are 256-bit random values and never drawn twice.
 */
module DeviceAuth {
  import opened Wrappers

  type DeviceCode = nat
  type UserCode = nat
  type UserId = nat
  type Time = int

  datatype Status = Pending | Approved | Denied | Consumed
  datatype Access = FullAccess | ReadAccess

  const CODE_TTL_MS := 600_000
  const POLL_INTERVAL_MS := 5_000
  const RETENTION_MS := 86_400_000

  datatype Row = Row(
    userCode: UserCode,
    status: Status,
    user: Option<UserId>,
    access: Option<Access>,
    keyDays: Option<nat>,
    expiresAt: Time,
    lastPolled: Option<Time>
  )

  type Rows = map<DeviceCode, Row>

  /** What a poll is told. */
  datatype Answer = Expired | DeniedAnswer | PendingAnswer | SlowDown | Issued

  /** A poll between its first statement and the next, with the time it took at its start. */
  datatype Exchange = Exchange(code: DeviceCode, now: Time, seen: Status)

  /** A user's decision on a pairing. */
  datatype Decision = Decision(code: DeviceCode, approved: bool, user: UserId, access: Option<Access>, keyDays: Option<nat>)

  /** An issued API key. */
  datatype Key = Key(code: DeviceCode, user: UserId, access: Access, keyDays: Option<nat>, polledAt: Time, expiresAt: Time)

  datatype State = State(
    rows: Rows,
    users: map<UserId, bool>,       // whether the account is enabled
    now: Time,
    exchanges: seq<Exchange>,
    // History
    drawn: set<DeviceCode>,
    decisions: seq<Decision>,
    keys: seq<Key>
  )

  datatype Action =
    | SetUser(user: UserId, enabled: bool)
    | DeleteUser(user: UserId)
    | Tick(time: Time)
    | RequestCode(code: DeviceCode, userCode: UserCode)
    | PollReads(code: DeviceCode)
    | PollMarks(index: nat)
    | PollClaims(index: nat)
    | Approve(userCode: UserCode, user: UserId, access: Access, keyDays: Option<nat>)
    | Deny(userCode: UserCode, user: UserId)
    | Purge

  // --- Row updates --------------------------------------------------------------------

  function NewRow(userCode: UserCode, now: Time): Row {
    Row(userCode, Pending, None, None, None, now + CODE_TTL_MS, None)
  }

  predicate Undecided(row: Row, now: Time) {
    row.status == Pending && row.expiresAt > now
  }

  /** The pairing a decision with this user code applies to, if any; user codes are unique. */
  function Decidable(rows: Rows, userCode: UserCode, now: Time): set<DeviceCode> {
    set c | c in rows && rows[c].userCode == userCode && Undecided(rows[c], now)
  }

  function Decided(row: Row, d: Decision): Row {
    if d.approved then row.(status := Approved, user := Some(d.user), access := d.access, keyDays := d.keyDays)
    else row.(status := Denied, user := Some(d.user))
  }

  predicate Claimable(row: Row, now: Time) {
    row.status == Approved && row.expiresAt > now
  }

  /** Polls closer together than the interval, less a second of tolerance. */
  predicate TooFast(lastPolled: Option<Time>, now: Time) {
    lastPolled.Some? && now - lastPolled.value < POLL_INTERVAL_MS - 1000
  }

  /** What the first statement of a poll leads to when no further statement is needed. */
  function FirstAnswer(rows: Rows, code: DeviceCode, now: Time): Option<Answer> {
    if code !in rows || rows[code].status == Consumed || rows[code].expiresAt <= now then Some(Expired)
    else if rows[code].status == Denied then Some(DeniedAnswer)
    else None
  }

  function Purged(rows: Rows, now: Time): Rows {
    map c | c in rows && rows[c].expiresAt >= now - RETENTION_MS :: rows[c]
  }

  // --- Steps --------------------------------------------------------------------------

  predicate Enabled(s: State, act: Action) {
    match act
    case Tick(time) => s.now <= time
    case RequestCode(code, userCode) => code !in s.drawn && forall c :: c in s.rows ==> s.rows[c].userCode != userCode
    case PollMarks(i) => i < |s.exchanges| && s.exchanges[i].seen == Pending
    case PollClaims(i) => i < |s.exchanges| && s.exchanges[i].seen == Approved
    case _ => true
  }

  function WithoutExchange(s: State, i: nat): State
    requires i < |s.exchanges|
  {
    s.(exchanges := s.exchanges[..i] + s.exchanges[i + 1..])
  }

  function DoDecide(s: State, c: DeviceCode, d: Decision): State
    requires c in s.rows
  {
    s.(rows := s.rows[c := Decided(s.rows[c], d)], decisions := s.decisions + [d])
  }

  /** The transaction of `claim`: the row is consumed even when the account is gone or disabled. */
  function DoClaim(s: State, x: Exchange): State {
    if x.code !in s.rows || !Claimable(s.rows[x.code], x.now) then s
    else
      var row := s.rows[x.code];
      var s1 := s.(rows := s.rows[x.code := row.(status := Consumed, lastPolled := Some(x.now))]);
      if row.user.Some? && row.access.Some? && row.user.value in s.users && s.users[row.user.value]
      then s1.(keys := s.keys + [Key(x.code, row.user.value, row.access.value, row.keyDays, x.now, row.expiresAt)])
      else s1
  }

  ghost function Apply(s: State, act: Action): State
    requires Enabled(s, act)
  {
    match act
    case SetUser(u, enabled) => s.(users := s.users[u := enabled])
    case DeleteUser(u) =>
      s.(users := s.users - {u}, rows := map c | c in s.rows && s.rows[c].user != Some(u) :: s.rows[c])
    case Tick(time) => s.(now := time)
    case RequestCode(code, userCode) =>
      s.(rows := s.rows[code := NewRow(userCode, s.now)], drawn := s.drawn + {code})
    case PollReads(code) =>
      if FirstAnswer(s.rows, code, s.now).Some? then s
      else s.(exchanges := s.exchanges + [Exchange(code, s.now, s.rows[code].status)])
    case PollMarks(i) =>
      var x := s.exchanges[i];
      var s1 := WithoutExchange(s, i);
      if x.code in s.rows then s1.(rows := s.rows[x.code := s.rows[x.code].(lastPolled := Some(x.now))]) else s1
    case PollClaims(i) => WithoutExchange(DoClaim(s, s.exchanges[i]), i)
    case Approve(userCode, user, access, days) =>
      if c :| c in Decidable(s.rows, userCode, s.now) then DoDecide(s, c, Decision(c, true, user, Some(access), days)) else s
    case Deny(userCode, user) =>
      if c :| c in Decidable(s.rows, userCode, s.now) then DoDecide(s, c, Decision(c, false, user, None, None)) else s
    case Purge => s.(rows := Purged(s.rows, s.now))
  }

  ghost predicate Executes(s: State, acts: seq<Action>)
    decreases |acts|
  {
    acts == [] || (Enabled(s, acts[0]) && Executes(Apply(s, acts[0]), acts[1..]))
  }

  ghost function After(s: State, acts: seq<Action>): State
    requires Executes(s, acts)
    decreases |acts|
  {
    if acts == [] then s else After(Apply(s, acts[0]), acts[1..])
  }

  function NewState(now: Time): State {
    State(map[], map[], now, [], {}, [], [])
  }

  // --- Invariant ----------------------------------------------------------------------

  /** The approval a row carries. */
  function ApprovalOf(c: DeviceCode, row: Row): Decision
    requires row.user.Some?
  {
    Decision(c, true, row.user.value, row.access, row.keyDays)
  }

  ghost predicate RowOk(c: DeviceCode, row: Row, decisions: seq<Decision>) {
    match row.status
    case Pending => forall d :: d in decisions ==> d.code != c
    case Denied => exists d :: d in decisions && d.code == c && !d.approved
    case _ => row.user.Some? && row.access.Some? && ApprovalOf(c, row) in decisions
  }

  ghost predicate DecisionsOk(decisions: seq<Decision>, drawn: set<DeviceCode>) {
    && (forall d :: d in decisions ==> d.code in drawn)
    && (forall i, j :: 0 <= i < j < |decisions| ==> decisions[i].code != decisions[j].code)
  }

  ghost predicate KeyOk(k: Key, rows: Rows, decisions: seq<Decision>, drawn: set<DeviceCode>) {
    && k.code in drawn && (k.code in rows ==> rows[k.code].status == Consumed)
    && Decision(k.code, true, k.user, Some(k.access), k.keyDays) in decisions
    && k.polledAt < k.expiresAt
  }

  ghost predicate KeysOk(keys: seq<Key>, rows: Rows, decisions: seq<Decision>, drawn: set<DeviceCode>) {
    && (forall i :: 0 <= i < |keys| ==> KeyOk(keys[i], rows, decisions, drawn))
    && (forall i, j :: 0 <= i < j < |keys| ==> keys[i].code != keys[j].code)
  }

  ghost predicate Inv(s: State) {
    && (forall c :: c in s.rows ==> c in s.drawn && RowOk(c, s.rows[c], s.decisions))
    && DecisionsOk(s.decisions, s.drawn)
    && KeysOk(s.keys, s.rows, s.decisions, s.drawn)
  }

  /** Rows may be removed, and their poll times change, without touching the invariant. */
  lemma InvRowsShrink(s: State, rows': Rows)
    requires Inv(s)
    requires forall c :: c in rows' ==> c in s.rows && rows'[c].(lastPolled := None) == s.rows[c].(lastPolled := None)
    ensures Inv(s.(rows := rows'))
  {
  }

  lemma InvRequest(s: State, code: DeviceCode, userCode: UserCode)
    requires Inv(s) && code !in s.drawn
    ensures Inv(s.(rows := s.rows[code := NewRow(userCode, s.now)], drawn := s.drawn + {code}))
  {
  }

  lemma InvDecide(s: State, c: DeviceCode, d: Decision)
    requires Inv(s) && c in s.rows && s.rows[c].status == Pending && d.code == c && (d.approved ==> d.access.Some?)
    ensures Inv(DoDecide(s, c, d))
  {
  }

  lemma InvClaim(s: State, x: Exchange)
    requires Inv(s)
    ensures Inv(DoClaim(s, x))
  {
  }

  lemma InvStep(s: State, act: Action)
    requires Inv(s) && Enabled(s, act)
    ensures Inv(Apply(s, act))
  {
    match act
    case SetUser(_, _) =>
    case DeleteUser(u) => InvRowsShrink(s, Apply(s, act).rows);
    case Tick(_) =>
    case RequestCode(code, userCode) => InvRequest(s, code, userCode);
    case PollReads(_) =>
    case PollMarks(i) => InvRowsShrink(s, Apply(s, act).rows);
    case PollClaims(i) => InvClaim(s, s.exchanges[i]);
    case Approve(userCode, user, access, days) =>
      if c :| c in Decidable(s.rows, userCode, s.now) && Apply(s, act) == DoDecide(s, c, Decision(c, true, user, Some(access), days)) {
        InvDecide(s, c, Decision(c, true, user, Some(access), days));
      }
    case Deny(userCode, user) =>
      if c :| c in Decidable(s.rows, userCode, s.now) && Apply(s, act) == DoDecide(s, c, Decision(c, false, user, None, None)) {
        InvDecide(s, c, Decision(c, false, user, None, None));
      }
    case Purge => InvRowsShrink(s, Purged(s.rows, s.now));
  }

  lemma {:induction false} InvRun(s: State, acts: seq<Action>)
    requires Inv(s) && Executes(s, acts)
    ensures Inv(After(s, acts))
    decreases |acts|
  {
    if acts != [] {
      InvStep(s, acts[0]);
      InvRun(Apply(s, acts[0]), acts[1..]);
    }
  }

  // --- Theorems -----------------------------------------------------------------------

  /**
   Device pairing: in every interleaving of polls, decisions, expiry and purge,
   a device code yields at most one API key, in a poll that began before the
   code expired, for the user and with the access and lifetime of an approval;
   a pairing is decided at most once, so the approval is the only decision and
   a denied pairing yields no key.
   */
  lemma {:induction false} OneKeyPerPairing(start: Time, acts: seq<Action>)
    requires Executes(NewState(start), acts)
    ensures var s := After(NewState(start), acts);
            && (forall i, j :: 0 <= i < j < |s.keys| ==> s.keys[i].code != s.keys[j].code)
            && (forall i, j :: 0 <= i < j < |s.decisions| ==> s.decisions[i].code != s.decisions[j].code)
            && (forall i :: 0 <= i < |s.keys| ==>
                  && s.keys[i].polledAt < s.keys[i].expiresAt
                  && Decision(s.keys[i].code, true, s.keys[i].user, Some(s.keys[i].access), s.keys[i].keyDays) in s.decisions
                  && forall d :: d in s.decisions && d.code == s.keys[i].code ==> d.approved)
  {
    InvRun(NewState(start), acts);
    var s := After(NewState(start), acts);
    forall i | 0 <= i < |s.keys|
      ensures && s.keys[i].polledAt < s.keys[i].expiresAt
              && Decision(s.keys[i].code, true, s.keys[i].user, Some(s.keys[i].access), s.keys[i].keyDays) in s.decisions
              && forall d :: d in s.decisions && d.code == s.keys[i].code ==> d.approved
    {
      assert KeyOk(s.keys[i], s.rows, s.decisions, s.drawn);
    }
  }

  lemma NewKeys(s: State, act: Action)
    requires Enabled(s, act)
    ensures |Apply(s, act).keys| <= |s.keys| + 1 && s.keys <= Apply(s, act).keys
    ensures Apply(s, act).keys != s.keys ==>
              act.PollClaims? && var x := s.exchanges[act.index];
              x.code in s.rows && Claimable(s.rows[x.code], x.now) && Apply(s, act).keys[|s.keys|].code == x.code
  {
  }

  /** Once a pairing is denied, consumed or gone, it never yields a key again. */
  lemma {:induction false} SpentYieldsNothing(s: State, acts: seq<Action>, c: DeviceCode)
    requires Inv(s) && Executes(s, acts) && c in s.drawn
    requires c in s.rows ==> s.rows[c].status == Denied || s.rows[c].status == Consumed
    ensures forall i :: |s.keys| <= i < |After(s, acts).keys| ==> After(s, acts).keys[i].code != c
    ensures |s.keys| <= |After(s, acts).keys|
    decreases |acts|
  {
    if acts != [] {
      var s1 := Apply(s, acts[0]);
      InvStep(s, acts[0]);
      NewKeys(s, acts[0]);
      SpentStep(s, acts[0], c);
      SpentYieldsNothing(s1, acts[1..], c);
      KeysGrow(s1, acts[1..]);
    }
  }

  lemma SpentStep(s: State, act: Action, c: DeviceCode)
    requires Enabled(s, act) && c in s.drawn && (c in s.rows ==> s.rows[c].status == Denied || s.rows[c].status == Consumed)
    ensures var s' := Apply(s, act);
            c in s'.drawn && (c in s'.rows ==> s'.rows[c].status == Denied || s'.rows[c].status == Consumed)
  {
  }

  lemma {:induction false} KeysGrow(s: State, acts: seq<Action>)
    requires Executes(s, acts)
    ensures s.keys <= After(s, acts).keys
    decreases |acts|
  {
    if acts != [] {
      NewKeys(s, acts[0]);
      KeysGrow(Apply(s, acts[0]), acts[1..]);
    }
  }

  // --- What a decision leads to ---------------------------------------------------------------

  lemma {:induction false} TwoSteps(s: State, a: Action, b: Action)
    requires Enabled(s, a) && Enabled(Apply(s, a), b)
    ensures Executes(s, [a, b]) && After(s, [a, b]) == Apply(Apply(s, a), b)
  {
    assert [a, b][1..] == [b] && [b][1..] == [];
    assert Executes(Apply(Apply(s, a), b), []);
    assert Executes(Apply(s, a), [b]) && After(Apply(s, a), [b]) == Apply(Apply(s, a), b);
  }

  /** A new pairing waits for a decision for ten minutes and belongs to nobody. */
  lemma RequestedPairing(s: State, code: DeviceCode, userCode: UserCode)
    requires Inv(s) && Enabled(s, RequestCode(code, userCode))
    ensures var s' := Apply(s, RequestCode(code, userCode));
            && code in s'.rows && s'.rows[code].status == Pending && s'.rows[code].userCode == userCode
            && s'.rows[code].user == None && s'.rows[code].lastPolled == None
            && s'.rows[code].expiresAt == s.now + 10 * 60 * 1000
            && forall c :: c in s.rows ==> c in s'.rows && s'.rows[c] == s.rows[c]
  {
  }

  /** User codes are unique among the stored pairings, so that a decision can only mean one. */
  ghost predicate OnePairingPerCode(s: State) {
    forall c, d :: c in s.rows && d in s.rows && s.rows[c].userCode == s.rows[d].userCode ==> c == d
  }

  lemma OnePairingStep(s: State, act: Action)
    requires OnePairingPerCode(s) && Enabled(s, act)
    ensures OnePairingPerCode(Apply(s, act))
  {
  }

  /** A decision reaches the pairing whose code was entered, if it is undecided and in time, and no other. */
  lemma DecisionMeans(s: State, c: DeviceCode, user: UserId, access: Access, days: Option<nat>)
    requires OnePairingPerCode(s) && c in s.rows && Undecided(s.rows[c], s.now)
    ensures var code, row := s.rows[c].userCode, s.rows[c];
            && Apply(s, Approve(code, user, access, days)).rows ==
               s.rows[c := row.(status := Approved, user := Some(user), access := Some(access), keyDays := days)]
            && Apply(s, Deny(code, user)).rows == s.rows[c := row.(status := Denied, user := Some(user))]
  {
    var code := s.rows[c].userCode;
    assert c in Decidable(s.rows, code, s.now);
    forall d | d in Decidable(s.rows, code, s.now) ensures d == c {}
  }

  /**
   An approval yields its key: a poll of an approved pairing in time, of an
   enabled account, issues one key with the user, access and lifetime of the
   approval, and uses the pairing up.
   */
  lemma ApprovalYieldsKey(s: State, c: DeviceCode) returns (acts: seq<Action>)
    requires c in s.rows && s.rows[c].status == Approved && s.rows[c].expiresAt > s.now
    requires s.rows[c].user.Some? && s.rows[c].access.Some?
    requires s.rows[c].user.value in s.users && s.users[s.rows[c].user.value]
    ensures Executes(s, acts)
    ensures var s', row := After(s, acts), s.rows[c];
            && s'.keys == s.keys + [Key(c, row.user.value, row.access.value, row.keyDays, s.now, row.expiresAt)]
            && c in s'.rows && s'.rows[c].status == Consumed
  {
    var n, s1 := |s.exchanges|, Apply(s, PollReads(c));
    assert s1.exchanges[n] == Exchange(c, s.now, Approved);
    TwoSteps(s, PollReads(c), PollClaims(n));
    acts := [PollReads(c), PollClaims(n)];
  }

  /** A poll of an undecided pairing leaves its time there and nothing else. */
  lemma PendingPollMarks(s: State, c: DeviceCode) returns (acts: seq<Action>)
    requires c in s.rows && Undecided(s.rows[c], s.now)
    ensures Executes(s, acts)
    ensures var s' := After(s, acts);
            s'.rows == s.rows[c := s.rows[c].(lastPolled := Some(s.now))] && s'.keys == s.keys && s'.exchanges == s.exchanges
  {
    var n, s1 := |s.exchanges|, Apply(s, PollReads(c));
    assert s1.exchanges[n] == Exchange(c, s.now, Pending);
    TwoSteps(s, PollReads(c), PollMarks(n));
    acts := [PollReads(c), PollMarks(n)];
    assert s1.exchanges[..n] + s1.exchanges[n + 1..] == s.exchanges;
  }

  /** What the first statement of a poll answers. */
  lemma FirstAnswerMeans(s: State, c: DeviceCode)
    ensures FirstAnswer(s.rows, c, s.now) == Some(DeniedAnswer) <==>
              c in s.rows && s.rows[c].status == Denied && s.rows[c].expiresAt > s.now
    ensures FirstAnswer(s.rows, c, s.now).None? <==>
              c in s.rows && (s.rows[c].status == Pending || s.rows[c].status == Approved) && s.rows[c].expiresAt > s.now
  {
  }
}
