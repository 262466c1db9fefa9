/**
 The login of the command line client (cli/login.go) against the pairing
 service (device-auth.service.ts): the poll loop with its interval and
 deadline, and the code the user compares.
 */
module CliLogin {
  import opened Wrappers
  import opened DeviceAuth

  // --- The service, one request after the other -----------------------------------------

  class PairingService {
    var rows: Rows
    var keys: seq<Key>

    constructor ()
      ensures rows == map[] && keys == []
    {
      rows, keys := map[], [];
    }

    /** A poll that nothing interrupts. It issues a key exactly for a pairing that is approved, in time and has an enabled account. */
    method ExchangeCode(code: DeviceCode, users: map<UserId, bool>, now: Time) returns (answer: Answer)
      modifies this
      ensures answer == Expired <==>
                || code !in old(rows) || old(rows)[code].status == Consumed || old(rows)[code].expiresAt <= now
                || (old(rows)[code].status == Approved && !Redeemable(old(rows)[code], users))
      ensures answer == Issued <==>
                && code in old(rows) && old(rows)[code].status == Approved && old(rows)[code].expiresAt > now
                && Redeemable(old(rows)[code], users)
      // Polls less than four seconds apart are too fast.
      ensures answer == SlowDown <==>
                && code in old(rows) && old(rows)[code].status == Pending && old(rows)[code].expiresAt > now
                && old(rows)[code].lastPolled.Some? && now - old(rows)[code].lastPolled.value < 4_000
      ensures answer == PendingAnswer <==>
                && code in old(rows) && old(rows)[code].status == Pending && old(rows)[code].expiresAt > now
                && !(old(rows)[code].lastPolled.Some? && now - old(rows)[code].lastPolled.value < 4_000)
      ensures answer == DeniedAnswer <==>
                code in old(rows) && old(rows)[code].status == Denied && old(rows)[code].expiresAt > now
      // An approval that cannot be redeemed is consumed all the same; otherwise an expired pairing stays as it is.
      ensures answer == Expired ==>
                rows == if code in old(rows) && Claimable(old(rows)[code], now)
                        then old(rows)[code := old(rows)[code].(status := Consumed, lastPolled := Some(now))] else old(rows)
      ensures answer != Issued ==> keys == old(keys)
      ensures answer == Issued ==>
                && rows == old(rows)[code := old(rows)[code].(status := Consumed, lastPolled := Some(now))]
                && keys == old(keys) + [Key(code, old(rows)[code].user.value, old(rows)[code].access.value,
                                            old(rows)[code].keyDays, now, old(rows)[code].expiresAt)]
      // The service remembers when it was polled last, which is all a pending pairing changes by.
      ensures answer == PendingAnswer || answer == SlowDown ==>
                code in old(rows) && rows == old(rows)[code := old(rows)[code].(lastPolled := Some(now))]
      ensures answer == DeniedAnswer ==> rows == old(rows)
    {
      if code !in rows || rows[code].status == Consumed || rows[code].expiresAt <= now {
        return Expired;
      }
      var row := rows[code];
      if row.status == Denied {
        return DeniedAnswer;
      }
      if row.status == Pending {
        rows := rows[code := row.(lastPolled := Some(now))];
        return if TooFast(row.lastPolled, now) then SlowDown else PendingAnswer;
      }
      rows := rows[code := row.(status := Consumed, lastPolled := Some(now))];
      if row.user.None? || row.access.None? || row.user.value !in users || !users[row.user.value] {
        return Expired;
      }
      keys := keys + [Key(code, row.user.value, row.access.value, row.keyDays, now, row.expiresAt)];
      return Issued;
    }

    /** Deletes pairings a day after they expired, and nothing that could still be used. */
    method PurgeExpired(now: Time)
      modifies this
      ensures rows == Purged(old(rows), now) && keys == old(keys)
      ensures forall c :: c in rows <==> c in old(rows) && old(rows)[c].expiresAt >= now - 24 * 3600 * 1000
      ensures forall c :: c in rows ==> rows[c] == old(rows)[c]
      ensures forall c :: c in old(rows) && old(rows)[c].expiresAt > now ==> c in rows
    {
      rows := map c | c in rows && rows[c].expiresAt >= now - RETENTION_MS :: rows[c];
    }
  }

  /** The approval names a user whose account may be used. */
  predicate Redeemable(row: Row, users: map<UserId, bool>) {
    row.user.Some? && row.access.Some? && row.user.value in users && users[row.user.value]
  }

  // --- The poll loop ----------------------------------------------------------------------

  /** What others did to the pairing since the last poll. */
  datatype Between = Nothing | Decides(decision: Decision) | Removed

  function AfterOthers(rows: Rows, code: DeviceCode, between: Between, now: Time): Rows {
    match between
    case Nothing => rows
    case Decides(d) => if code in rows && Undecided(rows[code], now) then rows[code := Decided(rows[code], d)] else rows
    case Removed => rows - {code}
  }

  /** How the outside world treats one poll. */
  datatype Reply =
    | Unreachable                                             // any error but a rate limit
    | RateLimited                                             // HTTP 429
    | Reached(between: Between, users: map<UserId, bool>)     // the service answers

  /** One poll: how much longer than asked the client slept, and the time to the service and back, in milliseconds. */
  datatype Poll = Poll(oversleep: nat, there: nat, back: nat, reply: Reply)

  /** What a poll found when it arrived, if it did. */
  datatype Finding = NotReached | Found(row: Option<Row>, at: Time, users: map<UserId, bool>)

  datatype LoginResult = LoggedIn | LoginDenied | LoginExpired | LoginFailed

  const BACK_OFF_MS := 5_000

  function Max(a: int, b: int): int {
    if a < b then b else a
  }

  /** The poll finds an approval of an enabled account in time. */
  predicate Approves(f: Finding) {
    f.Found? && f.row.Some? && Claimable(f.row.value, f.at) && Redeemable(f.row.value, f.users)
  }

  predicate Denies(f: Finding) {
    f.Found? && f.row.Some? && f.row.value.status == Denied && f.row.value.expiresAt > f.at
  }

  /** The poll finds the pairing no longer undecided. */
  predicate Ends(f: Finding) {
    f.Found? && !(f.row.Some? && Undecided(f.row.value, f.at))
  }

  /** The pairing has not been polled later than `now`. */
  predicate PolledBy(rows: Rows, code: DeviceCode, now: Time) {
    code in rows && rows[code].lastPolled.Some? ==> rows[code].lastPolled.value <= now
  }

  /**
   The loop of `runLogin` for a new pairing, against the pairing service.
   Whatever the delays and whatever users decide meanwhile, a client that is
   alone in using its device code is never told to slow down if it starts with
   an interval of four seconds or more (the service hands out five). Its interval
   never shrinks and grows by 5 s with every back-off, and the loop ends at the
   deadline, after at most one poll a second. The client is logged in exactly if
   the service issued a key. `findings` is history: what each poll found. The
   first poll that finds the pairing decided ends the loop accordingly, so that
   an approval found in time, of an enabled account, is a login.
   */
  method RunLogin(service: PairingService, code: DeviceCode, start: Time, intervalSeconds: int, expiresInSeconds: int,
                  world: nat -> Poll)
    returns (result: LoginResult, interval: int, polls: nat, slowDowns: nat, limits: nat, ghost findings: seq<Finding>)
    requires code in service.rows ==> service.rows[code].lastPolled.None?
    modifies service
    ensures intervalSeconds >= 4 ==> slowDowns == 0
    ensures interval == Max(intervalSeconds, 1) * 1000 + (limits + slowDowns) * 5_000
    ensures polls <= Max(expiresInSeconds, 60)
    ensures if result == LoggedIn
            then |service.keys| == |old(service.keys)| + 1 && service.keys[..|old(service.keys)|] == old(service.keys) &&
                 service.keys[|old(service.keys)|].code == code
            else service.keys == old(service.keys)
    ensures |findings| == polls
    ensures forall n :: 0 <= n < polls && Approves(findings[n]) ==> n == polls - 1 && result == LoggedIn
    ensures result == LoggedIn ==> polls > 0 && Approves(findings[polls - 1])
    ensures forall n :: 0 <= n < polls && Denies(findings[n]) ==> n == polls - 1 && result == LoginDenied
    ensures result == LoginDenied ==> polls > 0 && Denies(findings[polls - 1])
    ensures result == LoginFailed <==> polls > 0 && world(polls - 1).reply.Unreachable?
    // Any other end is the deadline, or a pairing that is gone, used up, too old or cannot be redeemed.
    ensures result == LoginExpired ==> (polls > 0 && Ends(findings[polls - 1])) || forall n :: 0 <= n < polls ==> !Ends(findings[n])
  {
    interval := Max(intervalSeconds, 1) * 1000;
    var deadline := start + Max(expiresInSeconds, 60) * 1000;
    var now := start;
    polls, slowDowns, limits, findings := 0, 0, 0, [];
    while true
      invariant interval == Max(intervalSeconds, 1) * 1000 + (limits + slowDowns) * BACK_OFF_MS
      invariant intervalSeconds * 1000 >= POLL_INTERVAL_MS - 1000 ==> slowDowns == 0
      invariant PolledBy(service.rows, code, now) && service.keys == old(service.keys)
      invariant start + polls * 1000 <= now && polls <= Max(expiresInSeconds, 60)
      invariant |findings| == polls && forall n :: 0 <= n < polls ==> !Ends(findings[n]) && !world(n).reply.Unreachable?
      decreases deadline - now
    {
      var poll := world(polls);
      now := now + interval + poll.oversleep;
      if now > deadline {
        return LoginExpired, interval, polls, slowDowns, limits, findings;
      }
      polls := polls + 1;
      var arrives := now + poll.there;
      findings := findings + [NotReached];
      match poll.reply {
        case Unreachable =>
          return LoginFailed, interval, polls, slowDowns, limits, findings;
        case RateLimited =>
          interval := interval + BACK_OFF_MS;
          limits := limits + 1;
        case Reached(between, users) =>
          service.rows := AfterOthers(service.rows, code, between, arrives);
          ghost var row := if code in service.rows then Some(service.rows[code]) else None;
          findings := findings[polls - 1 := Found(row, arrives, users)];
          var answer := service.ExchangeCode(code, users, arrives);
          match answer {
            case PendingAnswer =>
            case SlowDown =>
              interval := interval + BACK_OFF_MS;
              slowDowns := slowDowns + 1;
            case DeniedAnswer =>
              return LoginDenied, interval, polls, slowDowns, limits, findings;
            case Expired =>
              return LoginExpired, interval, polls, slowDowns, limits, findings;
            case Issued =>
              return LoggedIn, interval, polls, slowDowns, limits, findings;
          }
      }
      now := arrives + poll.back;
    }
  }

  // --- The code the user compares ------------------------------------------------------------

  const ALPHABET: string := "BCDFGHJKLMNPQRSTVWXZ"
  const CODE_LENGTH := 8

  predicate IsUserCode(s: string) {
    |s| == CODE_LENGTH && forall c :: c in s ==> c in ALPHABET
  }

  /** `BCDFGHJK` is shown as `BCDF-GHJK`. */
  function FormatUserCode(code: string): string
    requires |code| == CODE_LENGTH
  {
    code[..4] + "-" + code[4..]
  }

  /** A dash or what `\s` matches: ASCII blanks, the space separators of Unicode, and the line and paragraph separators. */
  predicate Ignored(c: char) {
    || c == '-' || c == ' ' || '\t' <= c <= '\r'
    || c == '\U{00A0}' || c == '\U{1680}' || '\U{2000}' <= c <= '\U{200A}' || c == '\U{2028}' || c == '\U{2029}'
    || c == '\U{202F}' || c == '\U{205F}' || c == '\U{3000}' || c == '\U{FEFF}'
  }

  function UpperAscii(c: char): char {
    if 'a' <= c <= 'z' then (c as int - 32) as char else c
  }

  /** `input.toUpperCase().replace(/[\s-]/g, '')`, for ASCII letters. */
  function Cleaned(s: string): string {
    if s == [] then []
    else
      var c := UpperAscii(s[0]);
      (if Ignored(c) then [] else [c]) + Cleaned(s[1..])
  }

  /** Case, dashes and blanks are ignored; anything that is then no code is rejected. */
  function NormalizeUserCode(input: string): (r: Option<string>)
    ensures r.Some? ==> IsUserCode(r.value)
  {
    var code := Cleaned(input);
    if IsUserCode(code) then Some(code) else None
  }

  /** The displayed code is two groups of four letters with a dash between them. */
  lemma DisplayedShape(code: string)
    requires IsUserCode(code)
    ensures var shown := FormatUserCode(code);
            && |shown| == 9 && shown[4] == '-'
            && forall i :: 0 <= i < 8 ==> shown[if i < 4 then i else i + 1] == code[i]
  {
  }

  /** The characters that count. */
  function Significant(s: string): nat {
    if s == [] then 0 else (if Ignored(s[0]) then 0 else 1) + Significant(s[1..])
  }

  /** A character that counts stays, in upper case and in its place. */
  lemma {:induction false} CleanedAt(s: string, p: nat)
    requires p < |s| && !Ignored(s[p])
    ensures Significant(s[..p]) < |Cleaned(s)| && Cleaned(s)[Significant(s[..p])] == UpperAscii(s[p])
  {
    if p > 0 {
      assert s[..p][1..] == s[1..][..p - 1] && s[p] == s[1..][p - 1];
      CleanedAt(s[1..], p - 1);
    }
  }

  /** Nothing else does. */
  lemma {:induction false} CleanedFrom(s: string, q: nat) returns (p: nat)
    requires q < |Cleaned(s)|
    ensures p < |s| && !Ignored(s[p]) && UpperAscii(s[p]) == Cleaned(s)[q]
  {
    if !Ignored(s[0]) && q == 0 {
      p := 0;
    } else {
      var p' := CleanedFrom(s[1..], if Ignored(s[0]) then q else q - 1);
      p := p' + 1;
    }
  }

  lemma {:induction false} CleanedLength(s: string)
    ensures |Cleaned(s)| == Significant(s)
  {
    if s != [] {
      CleanedLength(s[1..]);
    }
  }

  /** Which inputs are accepted: those with exactly eight characters that count, all of them letters of the alphabet. */
  lemma {:induction false} AcceptedInputs(input: string)
    ensures NormalizeUserCode(input).Some? <==>
              && Significant(input) == CODE_LENGTH
              && forall p :: 0 <= p < |input| && !Ignored(input[p]) ==> UpperAscii(input[p]) in ALPHABET
  {
    CleanedLength(input);
    var code := Cleaned(input);
    forall p | 0 <= p < |input| && !Ignored(input[p]) ensures UpperAscii(input[p]) in code {
      CleanedAt(input, p);
    }
    forall c | c in code ensures exists p :: 0 <= p < |input| && !Ignored(input[p]) && UpperAscii(input[p]) == c {
      var q :| 0 <= q < |code| && code[q] == c;
      var p := CleanedFrom(input, q);
    }
  }

  /** A dash anywhere makes no difference. */
  lemma {:induction false} DashIsIgnored(a: string, b: string)
    ensures Cleaned(a + ['-'] + b) == Cleaned(a + b)
  {
    if a == [] {
      assert (a + ['-'] + b)[1..] == b;
      assert a + b == b;
    } else {
      DashIsIgnored(a[1..], b);
      assert (a + ['-'] + b)[1..] == a[1..] + ['-'] + b;
      assert (a + b)[1..] == a[1..] + b;
    }
  }

  /** Letters of a code are left alone, in either case. */
  lemma {:induction false} LettersStay(s: string, typed: string)
    requires |typed| == |s| && forall i :: 0 <= i < |s| ==> s[i] in ALPHABET && UpperAscii(typed[i]) == s[i]
    ensures Cleaned(typed) == s
  {
    if s != [] {
      LettersStay(s[1..], typed[1..]);
    }
  }

  /**
   The displayed code normalizes back to the stored one, also when the user
   types it in lower case or mixed case, with or without the dash.
   */
  lemma DisplayedCodeRoundTrip(code: string, typed: string)
    requires IsUserCode(code) && |typed| == |code| && forall i :: 0 <= i < |code| ==> UpperAscii(typed[i]) == code[i]
    ensures NormalizeUserCode(FormatUserCode(typed)) == Some(code)
    ensures NormalizeUserCode(typed) == Some(code)
  {
    LettersStay(code, typed);
    DashIsIgnored(typed[..4], typed[4..]);
    assert typed[..4] + typed[4..] == typed;
  }
}
