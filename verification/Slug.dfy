/**
 Name-derived slugs (server/src/common/slug.ts). Lower-casing is a parameter:
 the run-time's function covers all of Unicode, and all that matters here is
 that it leaves lower-case letters, digits and dashes alone.
 */
module Slug {
  import opened Wrappers

  predicate Alnum(c: char) {
    'a' <= c <= 'z' || '0' <= c <= '9'
  }

  // --- slugify ------------------------------------------------------------------------------

  /** Every maximal run of other characters becomes one dash. */
  function Collapsed(s: string): string {
    if s == "" then ""
    else if Alnum(s[0]) then [s[0]] + Collapsed(s[1..])
    else if |s| > 1 && !Alnum(s[1]) then Collapsed(s[1..])
    else "-" + Collapsed(s[1..])
  }

  function TrimLeft(s: string): string {
    if s != "" && s[0] == '-' then TrimLeft(s[1..]) else s
  }

  function TrimRight(s: string): string {
    if s != "" && s[|s| - 1] == '-' then TrimRight(s[..|s| - 1]) else s
  }

  function Slugify(lower: string -> string, name: string): string {
    var slug := TrimRight(TrimLeft(Collapsed(lower(name))));
    if slug != "" then slug else "entity"
  }

  // --- What a slug is -------------------------------------------------------------------------

  /** The maximal alphanumeric runs of a text, in order. */
  function Words(s: string): (ws: seq<string>)
    ensures s != "" && Alnum(s[0]) ==> |ws| > 0
  {
    if s == "" then []
    else
      var rest := Words(s[1..]);
      if !Alnum(s[0]) then rest
      else if |s| > 1 && Alnum(s[1]) then [[s[0]] + rest[0]] + rest[1..]
      else [[s[0]]] + rest
  }

  function Join(ws: seq<string>): string {
    if |ws| == 0 then "" else if |ws| == 1 then ws[0] else ws[0] + "-" + Join(ws[1..])
  }

  predicate Word(w: string) {
    w != "" && forall i :: 0 <= i < |w| ==> Alnum(w[i])
  }

  predicate AllWords(ws: seq<string>) {
    forall i :: 0 <= i < |ws| ==> Word(ws[i])
  }

  /** Alphanumeric runs joined by single dashes. */
  ghost predicate IsSlug(s: string) {
    exists ws :: ws != [] && AllWords(ws) && s == Join(ws)
  }

  predicate SlugCharacters(s: string) {
    forall i :: 0 <= i < |s| ==> Alnum(s[i]) || s[i] == '-'
  }

  ghost predicate LeavesSlugsAlone(lower: string -> string) {
    forall s :: SlugCharacters(s) ==> lower(s) == s
  }

  lemma {:induction false} WordsAreWords(s: string)
    ensures AllWords(Words(s))
  {
    if s != "" {
      WordsAreWords(s[1..]);
    }
  }

  function Edge(c: char): string {
    if Alnum(c) then "" else "-"
  }

  /** The dashed text is the words joined, with at most one dash on either side. */
  lemma {:induction false} CollapsedIsJoined(s: string)
    requires Words(s) != []
    ensures Collapsed(s) == Edge(s[0]) + (Join(Words(s)) + Edge(s[|s| - 1]))
  {
    if Words(s[1..]) == [] {
      CollapsedBlank(s[1..]);
    } else {
      CollapsedIsJoined(s[1..]);
      CollapsedStep(s, Join(Words(s[1..])), Edge(s[|s| - 1]));
    }
  }

  lemma {:induction false} CollapsedStep(s: string, joined: string, edge: string)
    requires |s| > 1 && Words(s[1..]) != [] && joined == Join(Words(s[1..]))
    requires Collapsed(s[1..]) == Edge(s[1]) + (joined + edge)
    ensures Collapsed(s) == Edge(s[0]) + (Join(Words(s)) + edge)
  {
    WordsStep(s);
    NothingBefore(joined + edge);
    if Alnum(s[0]) {
      NothingBefore(Join(Words(s)) + edge);
      Regrouped([s[0]], Edge(s[1]), joined, edge);
    }
  }

  lemma NothingBefore(s: string)
    ensures "" + s == s
  {
  }

  lemma Regrouped(a: string, b: string, c: string, d: string)
    ensures a + (b + (c + d)) == (a + b + c) + d && a + (b + c + d) == (a + b) + c + d
  {
  }

  lemma {:induction false} JoinPrefixed(c: char, ws: seq<string>)
    requires ws != []
    ensures Join([[c] + ws[0]] + ws[1..]) == [c] + Join(ws)
  {
    var longer := [[c] + ws[0]] + ws[1..];
    assert longer[1..] == ws[1..];
    if |ws| > 1 {
      Regrouped([c], ws[0], "-", Join(ws[1..]));
    }
  }

  lemma {:induction false} JoinNew(c: char, ws: seq<string>)
    requires ws != []
    ensures Join([[c]] + ws) == [c] + "-" + Join(ws)
  {
    assert ([[c]] + ws)[1..] == ws;
  }

  lemma {:induction false} WordsStep(s: string)
    requires |s| > 1 && Words(s[1..]) != []
    ensures var joined := Join(Words(s[1..]));
            Join(Words(s)) == if Alnum(s[0]) then [s[0]] + Edge(s[1]) + joined else joined
  {
    var rest := Words(s[1..]);
    if Alnum(s[0]) && Alnum(s[1]) {
      JoinPrefixed(s[0], rest);
      assert [s[0]] + "" == [s[0]];
    } else if Alnum(s[0]) {
      JoinNew(s[0], rest);
    }
  }

  lemma {:induction false} CollapsedBlank(s: string)
    requires Words(s) == []
    ensures Collapsed(s) == if s == "" then "" else "-"
    ensures s != "" ==> !Alnum(s[0]) && !Alnum(s[|s| - 1])
  {
    if |s| > 1 {
      CollapsedBlank(s[1..]);
    }
  }

  lemma {:induction false} JoinedEnds(ws: seq<string>)
    requires ws != [] && AllWords(ws)
    ensures Join(ws) != "" && Alnum(Join(ws)[0]) && Alnum(Join(ws)[|Join(ws)| - 1]) && SlugCharacters(Join(ws))
  {
    assert Word(ws[0]);
    if |ws| > 1 {
      JoinedEnds(ws[1..]);
      var tail := Join(ws[1..]);
      assert Join(ws) == ws[0] + "-" + tail;
      assert Join(ws)[|Join(ws)| - 1] == tail[|tail| - 1];
    }
  }

  lemma {:induction false} TrimmedJoin(joined: string, left: string, right: string)
    requires joined != "" && Alnum(joined[0]) && Alnum(joined[|joined| - 1])
    requires (left == "" || left == "-") && (right == "" || right == "-")
    ensures TrimRight(TrimLeft(left + (joined + right))) == joined
  {
  }

  /** What slugify computes: the words of the lower-cased name, joined by dashes. */
  lemma SlugifyJoinsWords(lower: string -> string, name: string)
    ensures Slugify(lower, name) == if Words(lower(name)) == [] then "entity" else Join(Words(lower(name)))
  {
    var s := lower(name);
    if Words(s) == [] {
      CollapsedBlank(s);
      assert TrimLeft("-") == TrimLeft("-"[1..]);
    } else {
      CollapsedIsJoined(s);
      WordsAreWords(s);
      JoinedEnds(Words(s));
      TrimmedJoin(Join(Words(s)), Edge(s[0]), Edge(s[|s| - 1]));
    }
  }

  lemma {:induction false} WordThenRest(w: string, rest: string)
    requires Word(w) && (rest == "" || !Alnum(rest[0]))
    ensures Words(w + rest) == [w] + Words(rest)
  {
    var s := w + rest;
    assert s[1..] == w[1..] + rest;
    if |w| > 1 {
      assert Word(w[1..]);
      WordThenRest(w[1..], rest);
      assert s[1] == w[1];
      assert [w[0]] + w[1..] == w;
    } else {
      assert s[1..] == rest && w == [w[0]];
    }
  }

  lemma {:induction false} WordsOfJoined(ws: seq<string>)
    requires AllWords(ws)
    ensures Words(Join(ws)) == ws
  {
    if |ws| == 1 {
      assert Word(ws[0]) && ws[0] + "" == ws[0];
      WordThenRest(ws[0], "");
    } else if |ws| > 1 {
      assert Word(ws[0]);
      var tail := "-" + Join(ws[1..]);
      assert ws[0] + tail == Join(ws) && tail[1..] == Join(ws[1..]);
      WordThenRest(ws[0], tail);
      WordsOfJoined(ws[1..]);
    }
  }

  lemma SlugifyShape(lower: string -> string, name: string)
    ensures IsSlug(Slugify(lower, name))
  {
    SlugifyJoinsWords(lower, name);
    WordsAreWords(lower(name));
    var words := Words(lower(name));
    var ws := if words == [] then ["entity"] else words;
    assert ws != [] && AllWords(ws) && Slugify(lower, name) == Join(ws);
  }

  /** Slugs are exactly the names that slugify leaves as they are. */
  lemma SlugsAreFixed(lower: string -> string, name: string)
    requires LeavesSlugsAlone(lower)
    ensures Slugify(lower, name) == name <==> IsSlug(name)
  {
    SlugifyShape(lower, name);
    if IsSlug(name) {
      var ws :| ws != [] && AllWords(ws) && name == Join(ws);
      JoinedEnds(ws);
      WordsOfJoined(ws);
      SlugifyJoinsWords(lower, name);
    }
  }

  lemma SlugifyIdempotent(lower: string -> string, name: string)
    requires LeavesSlugsAlone(lower)
    ensures Slugify(lower, Slugify(lower, name)) == Slugify(lower, name)
  {
    SlugifyShape(lower, name);
    SlugsAreFixed(lower, Slugify(lower, name));
  }

  // --- Decimal numbers ---------------------------------------------------------------------------

  predicate Digit(c: char) {
    '0' <= c <= '9'
  }

  predicate Digits(s: string) {
    s != "" && forall i :: 0 <= i < |s| ==> Digit(s[i])
  }

  function Printed(n: nat): (s: string)
    ensures Digits(s)
  {
    if n < 10 then ['0' + n as char] else Printed(n / 10) + ['0' + (n % 10) as char]
  }

  function Parsed(s: string): nat
    requires Digits(s)
  {
    var last := (s[|s| - 1] - '0') as nat;
    if |s| == 1 then last else 10 * Parsed(s[..|s| - 1]) + last
  }

  lemma {:induction false} DecimalRoundTrip(n: nat)
    ensures Parsed(Printed(n)) == n
  {
    if n >= 10 {
      DecimalRoundTrip(n / 10);
      assert Printed(n)[..|Printed(n)| - 1] == Printed(n / 10);
    }
  }

  // --- The run-time's numbers --------------------------------------------------------------------

  /** Whole numbers as the run-time has them: 64-bit floating point, beyond a point infinite. */
  datatype Number = Finite(value: nat) | Infinite

  /** Up to here every whole number is represented; the next one rounds back to it. */
  const LAST_EXACT: nat := 0x20_0000_0000_0000

  /** From 10^21 on a number is printed with an exponent. */
  const FIRST_EXPONENT: nat := 1_000_000_000_000_000_000_000

  datatype Runtime = Runtime(round: nat -> Number, show: Number -> string)

  predicate Leq(x: Number, y: Number) {
    y.Infinite? || (x.Finite? && x.value <= y.value)
  }

  predicate Plain(x: Number) {
    x.Finite? && x.value < FIRST_EXPONENT
  }

  predicate Representable(rt: Runtime, x: Number) {
    x.Finite? ==> rt.round(x.value) == x
  }

  // What IEEE 754 and the number formatting of ECMAScript say, as far as it is needed here.

  predicate Exact(rt: Runtime, n: nat) {
    n <= LAST_EXACT ==> rt.round(n) == Finite(n)
  }

  predicate Shown(rt: Runtime, n: nat) {
    n <= LAST_EXACT ==> rt.show(Finite(n)) == Printed(n)
  }

  predicate Monotone(rt: Runtime, a: nat, b: nat) {
    a <= b ==> Leq(rt.round(a), rt.round(b))
  }

  predicate Rounded(rt: Runtime, n: nat) {
    Representable(rt, rt.round(n))
  }

  /** Between 2^53 and 2^54 every other number is represented, and a tie goes to the multiple of four. */
  predicate TiesToEven(rt: Runtime, n: nat) {
    LAST_EXACT <= n <= 2 * LAST_EXACT ==> rt.round(n) == Finite(NearestEven(n))
  }

  function NearestEven(n: nat): nat {
    4 * (n / 4) + match n % 4 case 0 => 0 case 1 => 0 case 2 => 2 case _ => 4
  }

  /** From 2^54 on the numbers are at least four apart. */
  predicate Coarse(rt: Runtime, n: nat) {
    n >= 2 * LAST_EXACT && rt.round(n) == Finite(n) ==> rt.round(n + 1) == Finite(n)
  }

  /** A printed number reads back as itself; an exponent or `Infinity` is no part of a slug. */
  predicate ReadsBack(rt: Runtime, x: Number) {
    if Plain(x) then Representable(rt, x) ==> Digits(rt.show(x)) && rt.round(Parsed(rt.show(x))) == x
    else !SlugCharacters(rt.show(x))
  }

  ghost predicate Ieee(rt: Runtime) {
    && (forall n: nat :: Exact(rt, n))
    && (forall n: nat :: Shown(rt, n))
    && (forall a: nat, b: nat :: Monotone(rt, a, b))
    && (forall n: nat :: Rounded(rt, n))
    && (forall n: nat :: Coarse(rt, n))
    && (forall x :: ReadsBack(rt, x))
    && (forall n: nat :: TiesToEven(rt, n))
    && rt.round(FIRST_EXPONENT) == Finite(FIRST_EXPONENT)
  }

  /** A coarse way of rounding that obeys the laws. */
  function Rounding(n: nat): Number {
    if n <= LAST_EXACT then Finite(n)
    else if n <= 2 * LAST_EXACT then Finite(NearestEven(n))
    else if n < FIRST_EXPONENT then Finite(2 * LAST_EXACT)
    else Finite(FIRST_EXPONENT)
  }

  lemma NearestEvenIsMonotone(a: nat, b: nat)
    requires a <= b
    ensures NearestEven(a) <= NearestEven(b)
  {
    if a / 4 == b / 4 {
      assert a % 4 <= b % 4;
    } else {
      assert a / 4 + 1 <= b / 4;
    }
  }

  lemma RoundingIsMonotone(a: nat, b: nat)
    requires a <= b
    ensures Leq(Rounding(a), Rounding(b))
  {
    NearestEvenIsMonotone(a, b);
    if LAST_EXACT <= b {
      NearestEvenIsMonotone(LAST_EXACT, b);
    }
    if a <= 2 * LAST_EXACT {
      NearestEvenIsMonotone(a, 2 * LAST_EXACT);
    }
  }

  function Witness(): Runtime {
    Runtime(Rounding, (x: Number) => if Plain(x) then Printed(x.value) else "1e+21")
  }

  lemma NearestEvenIsFixed(n: nat)
    requires LAST_EXACT <= n <= 2 * LAST_EXACT
    ensures LAST_EXACT <= NearestEven(n) <= 2 * LAST_EXACT && NearestEven(NearestEven(n)) == NearestEven(n)
  {
    NearestEvenIsMonotone(LAST_EXACT, n);
    NearestEvenIsMonotone(n, 2 * LAST_EXACT);
    var k := n / 4;
    match n % 4
    case 2 => assert (4 * k + 2) / 4 == k;
    case 3 => assert (4 * k + 4) / 4 == k + 1;
    case _ => assert (4 * k) / 4 == k;
  }

  lemma RoundingIsRounded(n: nat)
    ensures Rounding(n).Finite? && Rounding(Rounding(n).value) == Rounding(n)
  {
    if LAST_EXACT <= n <= 2 * LAST_EXACT {
      NearestEvenIsFixed(n);
    }
  }

  lemma WitnessRounds(n: nat)
    ensures Exact(Witness(), n) && Rounded(Witness(), n) && TiesToEven(Witness(), n) && Coarse(Witness(), n)
  {
    RoundingIsRounded(n);
  }

  lemma WitnessReadsBack(x: Number)
    ensures ReadsBack(Witness(), x)
  {
    if Plain(x) {
      DecimalRoundTrip(x.value);
    } else {
      assert Witness().show(x)[2] == '+';
    }
  }

  /** The laws do not contradict each other. */
  lemma IeeeIsPossible()
    ensures exists rt :: Ieee(rt)
  {
    var rt := Witness();
    forall a: nat, b: nat ensures Monotone(rt, a, b) {
      if a <= b {
        RoundingIsMonotone(a, b);
      }
    }
    forall n: nat ensures Shown(rt, n) {}
    forall n: nat ensures Exact(rt, n) && Rounded(rt, n) && TiesToEven(rt, n) && Coarse(rt, n) {
      WitnessRounds(n);
    }
    forall x ensures ReadsBack(rt, x) {
      WitnessReadsBack(x);
    }
    assert Ieee(rt);
  }

  function PlusOne(rt: Runtime, x: Number): Number {
    if x.Finite? then rt.round(x.value + 1) else x
  }

  /** One more is more up to 2^53, and above 2^54 nothing is added at all. */
  lemma PlusOneMoves(rt: Runtime, x: Number)
    requires Ieee(rt) && Representable(rt, x)
    ensures Representable(rt, PlusOne(rt, x)) && Leq(x, PlusOne(rt, x))
    ensures PlusOne(rt, x) != x ==> Plain(PlusOne(rt, x)) && x.Finite? && x.value < PlusOne(rt, x).value
    ensures x.Finite? && x.value < LAST_EXACT ==> PlusOne(rt, x) == Finite(x.value + 1)
    ensures x.Finite? && x.value >= LAST_EXACT ==> Leq(Finite(LAST_EXACT), PlusOne(rt, x))
  {
    if x.Finite? {
      assert Rounded(rt, x.value + 1) && Monotone(rt, x.value, x.value + 1) && Coarse(rt, x.value);
      assert Exact(rt, x.value + 1) && Exact(rt, LAST_EXACT);
      assert Monotone(rt, x.value + 1, 2 * LAST_EXACT) && Monotone(rt, LAST_EXACT, x.value + 1);
      assert TiesToEven(rt, 2 * LAST_EXACT);
    }
  }

  /** The numbers to which adding one adds nothing. */
  predicate Absorbs(x: Number) {
    x.Finite? ==> x.value >= LAST_EXACT && (x.value >= 2 * LAST_EXACT || x.value % 4 == 0)
  }

  lemma PlusOneStaysIff(rt: Runtime, x: Number)
    requires Ieee(rt) && Representable(rt, x)
    ensures PlusOne(rt, x) == x <==> Absorbs(x)
  {
    if x.Finite? {
      assert Exact(rt, x.value + 1) && Coarse(rt, x.value);
      assert TiesToEven(rt, x.value) && TiesToEven(rt, x.value + 1);
    }
  }

  // --- uniqueSlug ----------------------------------------------------------------------------------

  /** The number a slug carries behind `base-`, as it is written. */
  function Suffix(base: string, slug: string): Option<nat> {
    if |slug| > |base| + 1 && slug[..|base| + 1] == base + "-" && Digits(slug[|base| + 1..])
    then Some(Parsed(slug[|base| + 1..])) else None
  }

  function Numbered(rt: Runtime, base: string, x: Number): string {
    base + "-" + rt.show(x)
  }

  lemma SuffixOfNumbered(rt: Runtime, base: string, x: Number)
    requires Ieee(rt) && Plain(x) && Representable(rt, x)
    ensures Suffix(base, Numbered(rt, base, x)).Some? && rt.round(Suffix(base, Numbered(rt, base, x)).value) == x
  {
    var slug := Numbered(rt, base, x);
    assert ReadsBack(rt, x);
    assert slug[..|base| + 1] == base + "-" && slug[|base| + 1..] == rt.show(x);
  }

  lemma {:induction false} SuffixOfPrinted(base: string, k: nat)
    ensures Suffix(base, base + "-" + Printed(k)) == Some(k)
  {
    var slug := base + "-" + Printed(k);
    assert slug[..|base| + 1] == base + "-" && slug[|base| + 1..] == Printed(k);
    DecimalRoundTrip(k);
  }

  function Max(x: Number, y: Number): Number {
    if Leq(y, x) then x else y
  }

  /** The largest suffix in use, at least 1. */
  function MaxSuffix(rt: Runtime, base: string, slugs: seq<string>): Number {
    if slugs == [] then Finite(1)
    else
      var before, suffix := MaxSuffix(rt, base, slugs[..|slugs| - 1]), Suffix(base, slugs[|slugs| - 1]);
      if suffix.Some? then Max(before, rt.round(suffix.value)) else before
  }

  function NextSlug(rt: Runtime, base: string, slugs: seq<string>): string {
    if base in slugs then Numbered(rt, base, PlusOne(rt, MaxSuffix(rt, base, slugs))) else base
  }

  datatype Row = Row(id: nat, slug: string)

  /** The slugs of all rows but the excluded one. */
  function Others(rows: seq<Row>, exclude: Option<nat>): seq<string> {
    if rows == [] then []
    else
      var row := rows[|rows| - 1];
      Others(rows[..|rows| - 1], exclude) + if exclude == Some(row.id) then [] else [row.slug]
  }

  /** Exactly the slugs of the other rows count. */
  lemma {:induction false} OthersAre(rows: seq<Row>, exclude: Option<nat>, slug: string)
    ensures slug in Others(rows, exclude) <==> exists i :: 0 <= i < |rows| && rows[i].slug == slug && exclude != Some(rows[i].id)
  {
    if rows != [] {
      var init, last := rows[..|rows| - 1], rows[|rows| - 1];
      OthersAre(init, exclude, slug);
      assert forall i :: 0 <= i < |init| ==> init[i] == rows[i];
    }
  }

  /** Some slug carries the suffix `n`. */
  predicate Uses(base: string, slugs: seq<string>, n: nat) {
    exists i :: 0 <= i < |slugs| && Suffix(base, slugs[i]) == Some(n)
  }

  lemma UsesAppend(base: string, slugs: seq<string>, slug: string, n: nat)
    ensures Uses(base, slugs + [slug], n) <==> Uses(base, slugs, n) || Suffix(base, slug) == Some(n)
  {
    var longer := slugs + [slug];
    if i :| 0 <= i < |slugs| && Suffix(base, slugs[i]) == Some(n) {
      assert longer[i] == slugs[i];
    }
    if Suffix(base, slug) == Some(n) {
      assert longer[|slugs|] == slug;
    }
  }

  /** The maximum is at least every suffix in use, and is one of them or 1. */
  lemma {:induction false} MaxSuffixBounds(rt: Runtime, base: string, slugs: seq<string>)
    ensures forall n: nat :: Uses(base, slugs, n) ==> Leq(rt.round(n), MaxSuffix(rt, base, slugs))
    ensures Leq(Finite(1), MaxSuffix(rt, base, slugs))
    ensures MaxSuffix(rt, base, slugs) == Finite(1) ||
              exists n: nat :: Uses(base, slugs, n) && rt.round(n) == MaxSuffix(rt, base, slugs)
  {
    if slugs != [] {
      var init, last := slugs[..|slugs| - 1], slugs[|slugs| - 1];
      MaxSuffixBounds(rt, base, init);
      assert slugs == init + [last];
      forall n: nat ensures Uses(base, slugs, n) <==> Uses(base, init, n) || Suffix(base, last) == Some(n) {
        UsesAppend(base, init, last, n);
      }
    }
  }

  lemma {:induction false} MaxSuffixRepresentable(rt: Runtime, base: string, slugs: seq<string>)
    requires Ieee(rt)
    ensures Representable(rt, MaxSuffix(rt, base, slugs))
  {
    MaxSuffixBounds(rt, base, slugs);
    assert Exact(rt, 1);
    if n: nat :| Uses(base, slugs, n) && rt.round(n) == MaxSuffix(rt, base, slugs) {
      assert Rounded(rt, n);
    }
  }

  /** What is numbered in use is not above the maximum. */
  lemma {:induction false} UsedIsBounded(rt: Runtime, base: string, slugs: seq<string>, x: Number)
    requires Ieee(rt) && Plain(x) && Representable(rt, x) && Numbered(rt, base, x) in slugs
    ensures Leq(x, MaxSuffix(rt, base, slugs))
  {
    SuffixOfNumbered(rt, base, x);
    MaxSuffixBounds(rt, base, slugs);
    assert Uses(base, slugs, Suffix(base, Numbered(rt, base, x)).value);
  }

  /** The largest suffix absorbs one more, and some slug is written the way it is printed. */
  predicate Stuck(rt: Runtime, base: string, slugs: seq<string>) {
    var max := MaxSuffix(rt, base, slugs);
    Absorbs(max) && Numbered(rt, base, max) in slugs
  }

  /**
   Slug freshness: the chosen slug is held by no other row exactly if the base is
   free, or the largest suffix is one that adding one moves (below 2^53, or
   below 2^54 and not a multiple of four), or no slug is written like it.
   */
  lemma NextSlugIsFreeIff(rt: Runtime, base: string, slugs: seq<string>)
    requires Ieee(rt)
    ensures NextSlug(rt, base, slugs) !in slugs <==> base !in slugs || !Stuck(rt, base, slugs)
  {
    var max := MaxSuffix(rt, base, slugs);
    MaxSuffixRepresentable(rt, base, slugs);
    PlusOneMoves(rt, max);
    PlusOneStaysIff(rt, max);
    if PlusOne(rt, max) != max && Numbered(rt, base, PlusOne(rt, max)) in slugs {
      UsedIsBounded(rt, base, slugs, PlusOne(rt, max));
    }
  }

  /** As long as all suffixes are below 2^53, it always is. */
  lemma NextSlugIsFree(rt: Runtime, base: string, slugs: seq<string>)
    requires Ieee(rt) && forall n: nat :: Uses(base, slugs, n) ==> n < LAST_EXACT
    ensures NextSlug(rt, base, slugs) !in slugs
  {
    var max := MaxSuffix(rt, base, slugs);
    MaxSuffixBounds(rt, base, slugs);
    assert Exact(rt, 1);
    if n: nat :| Uses(base, slugs, n) && rt.round(n) == max {
      assert Exact(rt, n);
    }
    PlusOneMoves(rt, max);
    NextSlugIsFreeIff(rt, base, slugs);
  }

  lemma {:induction false} MaxOfTwo(rt: Runtime, base: string, slug: string)
    requires Suffix(base, slug).Some?
    ensures MaxSuffix(rt, base, [base, slug]) == Max(Finite(1), rt.round(Suffix(base, slug).value))
  {
    MaxSuffixAppend(rt, base, [], base);
    MaxSuffixAppend(rt, base, [base], slug);
    assert [] + [base] == [base] && [base] + [slug] == [base, slug];
  }

  /** A slug that carries a number that absorbs one more is chosen again. */
  lemma CollisionAt(rt: Runtime, base: string, x: Number)
    requires Ieee(rt) && Plain(x) && Representable(rt, x) && Absorbs(x)
    ensures var slugs := [base, Numbered(rt, base, x)]; NextSlug(rt, base, slugs) in slugs
  {
    SuffixOfNumbered(rt, base, x);
    MaxOfTwo(rt, base, Numbered(rt, base, x));
    PlusOneStaysIff(rt, x);
  }

  /** At 2^53, the first of them, the second row of that name gets the slug of a third. */
  lemma CollisionAtLastExact(rt: Runtime, base: string)
    requires Ieee(rt)
    ensures var slugs := [base, Numbered(rt, base, Finite(LAST_EXACT))]; NextSlug(rt, base, slugs) in slugs
  {
    assert Exact(rt, LAST_EXACT);
    CollisionAt(rt, base, Finite(LAST_EXACT));
  }

  // --- Its shape -------------------------------------------------------------------------------------

  lemma {:induction false} JoinAppend(ws: seq<string>, w: string)
    requires ws != []
    ensures Join(ws + [w]) == Join(ws) + "-" + w
  {
    if |ws| > 1 {
      assert (ws + [w])[1..] == ws[1..] + [w];
      JoinAppend(ws[1..], w);
    } else {
      assert (ws + [w])[1..] == [w];
    }
  }

  lemma NumberedShape(rt: Runtime, base: string, x: Number)
    requires Ieee(rt) && IsSlug(base) && Representable(rt, x)
    ensures IsSlug(Numbered(rt, base, x)) <==> Plain(x)
  {
    var slug, w := Numbered(rt, base, x), rt.show(x);
    assert ReadsBack(rt, x);
    if Plain(x) {
      var ws :| ws != [] && AllWords(ws) && base == Join(ws);
      JoinAppend(ws, w);
      assert Word(w);
      assert ws + [w] != [] && AllWords(ws + [w]);
    } else {
      var i :| 0 <= i < |w| && !(Alnum(w[i]) || w[i] == '-');
      assert slug[|base| + 1 + i] == w[i];
      assert !SlugCharacters(slug);
      SlugsHaveSlugCharacters(slug);
    }
  }

  lemma SlugsHaveSlugCharacters(s: string)
    ensures IsSlug(s) ==> SlugCharacters(s)
  {
    if ws :| ws != [] && AllWords(ws) && s == Join(ws) {
      JoinedEnds(ws);
    }
  }

  /** The chosen slug has the shape of one exactly if no exponent has to be printed. */
  lemma {:induction false} NextSlugShapeIff(rt: Runtime, base: string, slugs: seq<string>)
    requires Ieee(rt) && IsSlug(base)
    ensures IsSlug(NextSlug(rt, base, slugs)) <==> base !in slugs || Plain(PlusOne(rt, MaxSuffix(rt, base, slugs)))
  {
    MaxSuffixRepresentable(rt, base, slugs);
    PlusOneMoves(rt, MaxSuffix(rt, base, slugs));
    if base in slugs {
      NumberedShape(rt, base, PlusOne(rt, MaxSuffix(rt, base, slugs)));
    }
  }

  /** A row named after a representable number from 10^21 on breaks it. */
  lemma {:induction false} LargeSuffix(rt: Runtime, base: string, n: nat)
    requires Ieee(rt) && IsSlug(base) && n >= FIRST_EXPONENT && rt.round(n) == Finite(n)
    ensures !IsSlug(NextSlug(rt, base, [base, base + "-" + Printed(n)]))
  {
    var slug := base + "-" + Printed(n);
    SuffixOfPrinted(base, n);
    MaxOfTwo(rt, base, slug);
    assert Coarse(rt, n);
    NextSlugShapeIff(rt, base, [base, slug]);
  }

  /** So does 10^21 itself. */
  lemma ExponentIsPrinted(rt: Runtime, base: string)
    requires Ieee(rt) && IsSlug(base)
    ensures !IsSlug(NextSlug(rt, base, [base, base + "-" + Printed(FIRST_EXPONENT)]))
  {
    LargeSuffix(rt, base, FIRST_EXPONENT);
  }

  // --- Saving a name again ------------------------------------------------------------------------------

  /** A row that holds the base keeps it exactly if no other row does. */
  lemma BaseIsKeptIff(rt: Runtime, base: string, others: seq<string>)
    ensures NextSlug(rt, base, others) == base <==> base !in others
  {
    assert forall x :: |Numbered(rt, base, x)| > |base|;
  }

  lemma {:induction false} NumberIsNextIff(rt: Runtime, base: string, x: Number, k: nat)
    requires Ieee(rt) && Representable(rt, x) && 2 <= k < LAST_EXACT
    ensures Numbered(rt, base, PlusOne(rt, x)) == base + "-" + Printed(k) <==> x == Finite(k - 1)
  {
    PlusOneMoves(rt, x);
    var y := PlusOne(rt, x);
    assert Numbered(rt, base, y)[|base| + 1..] == rt.show(y) && (base + "-" + Printed(k))[|base| + 1..] == Printed(k);
    assert Exact(rt, k) && Shown(rt, k) && ReadsBack(rt, y);
    DecimalRoundTrip(k);
    assert SlugCharacters(Printed(k));
  }

  lemma {:induction false} MaxSuffixIs(rt: Runtime, base: string, others: seq<string>, k: nat)
    requires Ieee(rt) && 2 <= k < LAST_EXACT
    ensures MaxSuffix(rt, base, others) == Finite(k - 1) <==>
              (forall n: nat :: Uses(base, others, n) ==> n < k) && (k == 2 || Uses(base, others, k - 1))
  {
    var max := MaxSuffix(rt, base, others);
    MaxSuffixBounds(rt, base, others);
    assert Exact(rt, k - 1) && Exact(rt, k) && Exact(rt, 1);
    if max == Finite(k - 1) {
      forall n: nat | Uses(base, others, n) ensures n < k {
        assert Monotone(rt, k, n);
      }
      if k > 2 {
        var n: nat :| Uses(base, others, n) && rt.round(n) == max;
        assert Exact(rt, n);
      }
    } else if n: nat :| Uses(base, others, n) && rt.round(n) == max {
      assert Exact(rt, n);
    }
  }

  /**
   Re-saving an unchanged name keeps the slug numbered k exactly if the base is
   still taken, every other suffix is smaller, and k - 1 is still there (or is 1).
   */
  lemma {:induction false} NumberIsKeptIff(rt: Runtime, base: string, others: seq<string>, k: nat)
    requires Ieee(rt) && 2 <= k < LAST_EXACT
    ensures NextSlug(rt, base, others) == base + "-" + Printed(k) <==>
              && base in others
              && (forall n: nat :: Uses(base, others, n) ==> n < k)
              && (k == 2 || Uses(base, others, k - 1))
  {
    MaxSuffixRepresentable(rt, base, others);
    NumberIsNextIff(rt, base, MaxSuffix(rt, base, others), k);
    MaxSuffixIs(rt, base, others, k);
  }

  /**
   So it may move, for every base: x-2 beside x and x-3 becomes x-4, and x-2
   becomes x when that has been deleted.
   */
  lemma ResavingMoves(rt: Runtime, base: string)
    requires Ieee(rt)
    ensures var three := base + "-" + Printed(3);
            && NextSlug(rt, base, [base, three]) == base + "-" + Printed(4)
            && NextSlug(rt, base, []) == base
  {
    var three := base + "-" + Printed(3);
    SuffixOfPrinted(base, 3);
    MaxOfTwo(rt, base, three);
    assert Exact(rt, 3);
    NumberIsNextIff(rt, base, Finite(3), 4);
  }

  // --- The scan ---------------------------------------------------------------------------------------

  /** The condition of the query. */
  predicate Fetched(base: string, slug: string) {
    slug == base || (|slug| > |base| && slug[..|base| + 1] == base + "-")
  }

  lemma {:induction false} MaxSuffixAppend(rt: Runtime, base: string, slugs: seq<string>, slug: string)
    ensures MaxSuffix(rt, base, slugs + [slug]) ==
            var before, suffix := MaxSuffix(rt, base, slugs), Suffix(base, slug);
            if suffix.Some? then Max(before, rt.round(suffix.value)) else before
    ensures Suffix(base, slug).Some? ==> Fetched(base, slug) && slug != base
  {
    assert (slugs + [slug])[..|slugs|] == slugs;
  }

  /** What one more row adds to the scan. */
  lemma {:induction false} ScanStep(rt: Runtime, base: string, rows: seq<Row>, i: nat, exclude: Option<nat>)
    requires i < |rows|
    ensures var before, after, slug := Others(rows[..i], exclude), Others(rows[..i + 1], exclude), rows[i].slug;
            var suffix, counts := Suffix(base, slug), exclude != Some(rows[i].id) && Fetched(base, slug);
            && (base in after <==> base in before || (counts && slug == base))
            && MaxSuffix(rt, base, after) ==
               if counts && slug != base && suffix.Some? then Max(MaxSuffix(rt, base, before), rt.round(suffix.value))
               else MaxSuffix(rt, base, before)
  {
    assert rows[..i + 1][..i] == rows[..i];
    var before, slug := Others(rows[..i], exclude), rows[i].slug;
    if exclude == Some(rows[i].id) {
      assert Others(rows[..i + 1], exclude) == before;
    } else {
      assert Others(rows[..i + 1], exclude) == before + [slug];
      MaxSuffixAppend(rt, base, before, slug);
    }
  }

  /**
   Picks the slug for a name. The table is read row by row; rows whose slug is
   neither the base nor starts with the base and a dash are not even fetched.
   */
  method UniqueSlug(rt: Runtime, lower: string -> string, rows: seq<Row>, name: string, exclude: Option<nat>) returns (r: string)
    requires Ieee(rt)
    ensures r == NextSlug(rt, Slugify(lower, name), Others(rows, exclude))
    ensures r == Slugify(lower, name) <==>
              forall i :: 0 <= i < |rows| && rows[i].slug == Slugify(lower, name) ==> exclude == Some(rows[i].id)
    ensures var base, others := Slugify(lower, name), Others(rows, exclude);
            && (r !in others <==> base !in others || !Stuck(rt, base, others))
            && (IsSlug(r) <==> base !in others || Plain(PlusOne(rt, MaxSuffix(rt, base, others))))
  {
    var base := Slugify(lower, name);
    var baseTaken, maxSuffix := false, Finite(1);
    for i := 0 to |rows|
      invariant baseTaken <==> base in Others(rows[..i], exclude)
      invariant maxSuffix == MaxSuffix(rt, base, Others(rows[..i], exclude))
    {
      ScanStep(rt, base, rows, i, exclude);
      var slug := rows[i].slug;
      if exclude != Some(rows[i].id) && Fetched(base, slug) {
        if slug == base {
          baseTaken := true;
        } else {
          var suffix := Suffix(base, slug);
          if suffix.Some? {
            maxSuffix := Max(maxSuffix, rt.round(suffix.value));
          }
        }
      }
    }
    assert rows[..|rows|] == rows;
    r := if baseTaken then Numbered(rt, base, PlusOne(rt, maxSuffix)) else base;
    OthersAre(rows, exclude, base);
    BaseIsKeptIff(rt, base, Others(rows, exclude));
    SlugifyShape(lower, name);
    NextSlugShapeIff(rt, base, Others(rows, exclude));
    NextSlugIsFreeIff(rt, base, Others(rows, exclude));
  }
}
