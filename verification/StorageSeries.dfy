/**
 The storage chart: the window the server cuts from the history
 (repositories.service.ts, statsHistory) and the total series the client folds
 it into (storage-chart.tsx, totalStorageSeries and the hover lookup).
 Sizes are unbounded integers here; sums beyond 2^53 would be rounded in the browser.
 */
module StorageSeries {
  import opened Wrappers
  import opened StorageHistory

  datatype StoragePoint = StoragePoint(t: Time, bytes: nat)

  predicate TimeOrdered(points: seq<Point>) {
    forall i, j :: 0 <= i < j < |points| ==> points[i].t <= points[j].t
  }

  /** The last of the readings a repository has at exactly this time. */
  function LastAt(points: seq<Point>, repo: RepoId, t: Time): Option<nat> {
    if points == [] then None
    else
      var last := points[|points| - 1];
      if last.repo == repo && last.t == t then Some(last.size) else LastAt(points[..|points| - 1], repo, t)
  }

  lemma {:induction false} LastAtAppend(points: seq<Point>, p: Point, repo: RepoId, t: Time)
    ensures LastAt(points + [p], repo, t) == if p.repo == repo && p.t == t then Some(p.size) else LastAt(points, repo, t)
  {
    assert (points + [p])[..|points|] == points;
  }

  lemma {:induction false} LastAtSome(points: seq<Point>, repo: RepoId, t: Time)
    ensures LastAt(points, repo, t).Some? <==> exists p :: p in points && p.repo == repo && p.t == t
  {
    if points != [] {
      var init, last := points[..|points| - 1], points[|points| - 1];
      assert points == init + [last];
      LastAtSome(init, repo, t);
    }
  }

  lemma {:induction false} LastAtConcat(a: seq<Point>, b: seq<Point>, repo: RepoId, t: Time)
    ensures LastAt(a + b, repo, t) == if LastAt(b, repo, t).Some? then LastAt(b, repo, t) else LastAt(a, repo, t)
  {
    if b == [] {
      assert a + b == a;
    } else {
      assert (a + b)[..|a + b| - 1] == a + b[..|b| - 1];
      LastAtConcat(a, b[..|b| - 1], repo, t);
    }
  }

  // --- Sorting by time, which leaves readings of one time in their order -----------------

  function InsertByTime(points: seq<Point>, p: Point): (r: seq<Point>)
    ensures forall x :: x in r <==> x in points || x == p
  {
    if points == [] || points[|points| - 1].t <= p.t then points + [p]
    else
      assert points == points[..|points| - 1] + [points[|points| - 1]];
      InsertByTime(points[..|points| - 1], p) + [points[|points| - 1]]
  }

  function SortByTime(points: seq<Point>): (r: seq<Point>)
    ensures forall x :: x in r <==> x in points
  {
    if points == [] then []
    else
      assert points == points[..|points| - 1] + [points[|points| - 1]];
      InsertByTime(SortByTime(points[..|points| - 1]), points[|points| - 1])
  }

  lemma {:induction false} InsertKeepsOrder(points: seq<Point>, p: Point)
    requires TimeOrdered(points)
    ensures TimeOrdered(InsertByTime(points, p))
  {
    if points != [] && points[|points| - 1].t > p.t {
      var init, last := points[..|points| - 1], points[|points| - 1];
      InsertKeepsOrder(init, p);
      var r := InsertByTime(init, p);
      forall x | x in r ensures x.t <= last.t {
        if x != p {
          var i :| 0 <= i < |init| && init[i] == x;
          assert points[i] == x;
        }
      }
      AppendKeepsOrder(r, last);
    }
  }

  lemma AppendKeepsOrder(points: seq<Point>, p: Point)
    requires TimeOrdered(points) && forall x :: x in points ==> x.t <= p.t
    ensures TimeOrdered(points + [p])
  {
  }

  lemma {:induction false} SortOrders(points: seq<Point>)
    ensures TimeOrdered(SortByTime(points))
  {
    if points != [] {
      SortOrders(points[..|points| - 1]);
      InsertKeepsOrder(SortByTime(points[..|points| - 1]), points[|points| - 1]);
    }
  }

  lemma {:induction false} InsertIsStable(points: seq<Point>, p: Point, repo: RepoId, t: Time)
    ensures LastAt(InsertByTime(points, p), repo, t) == if p.repo == repo && p.t == t then Some(p.size) else LastAt(points, repo, t)
  {
    if points == [] || points[|points| - 1].t <= p.t {
      LastAtAppend(points, p, repo, t);
    } else {
      var init, last := points[..|points| - 1], points[|points| - 1];
      InsertIsStable(init, p, repo, t);
      LastAtAppend(InsertByTime(init, p), last, repo, t);
    }
  }

  lemma {:induction false} SortIsStable(points: seq<Point>, repo: RepoId, t: Time)
    ensures LastAt(SortByTime(points), repo, t) == LastAt(points, repo, t)
  {
    if points != [] {
      SortIsStable(points[..|points| - 1], repo, t);
      InsertIsStable(SortByTime(points[..|points| - 1]), points[|points| - 1], repo, t);
    }
  }

  lemma {:induction false} SortStep(init: seq<Point>, last: Point)
    requires SortByTime(init) == init && (init == [] || init[|init| - 1].t <= last.t)
    ensures SortByTime(init + [last]) == init + [last]
  {
    assert (init + [last])[..|init|] == init;
  }

  lemma {:induction false} SortLeavesSorted(points: seq<Point>)
    requires TimeOrdered(points)
    ensures SortByTime(points) == points
  {
    if points != [] {
      var init, last := points[..|points| - 1], points[|points| - 1];
      SortLeavesSorted(init);
      SortStep(init, last);
      assert points == init + [last];
    }
  }

  // --- Totals -------------------------------------------------------------------------

  /** Sum of the values of a map, independent of any order. */
  ghost function Sum(m: map<RepoId, nat>): nat
    decreases |m|
  {
    if m == map[] then 0
    else
      var k :| k in m;
      assert (m - {k}).Keys == m.Keys - {k};
      m[k] + Sum(m - {k})
  }

  lemma {:induction false} SumRemove(m: map<RepoId, nat>, k: RepoId)
    requires k in m
    ensures Sum(m) == m[k] + Sum(m - {k})
    decreases |m|
  {
    var c :| c in m && Sum(m) == m[c] + Sum(m - {c});
    if c != k {
      assert (m - {c}).Keys == m.Keys - {c} && (m - {k}).Keys == m.Keys - {k};
      SumRemove(m - {c}, k);
      SumRemove(m - {k}, c);
      assert m - {c} - {k} == m - {k} - {c};
    }
  }

  /** The latest size of every visible repository that has one at or before `at`. */
  function LatestSizes(points: seq<Point>, visible: set<RepoId>, at: Time): map<RepoId, nat> {
    map r | r in visible && LatestAt(points, r, at).Some? :: LatestAt(points, r, at).value
  }

  /** What the chart is meant to show: the sum of every visible repository's latest reading. */
  ghost function Total(points: seq<Point>, visible: set<RepoId>, at: Time): nat {
    Sum(LatestSizes(points, visible, at))
  }

  /** `[...latest.values()].reduce(...)`. */
  method SumOf(m: map<RepoId, nat>) returns (total: nat)
    ensures total == Sum(m)
  {
    total := 0;
    var rest := m;
    while rest != map[]
      invariant total + Sum(rest) == Sum(m)
      decreases |rest|
    {
      var k :| k in rest;
      SumRemove(rest, k);
      assert (rest - {k}).Keys == rest.Keys - {k};
      total := total + rest[k];
      rest := rest - {k};
    }
  }

  // --- The window ---------------------------------------------------------------------

  /** Readings inside the window, and the latest before it of each repository. */
  predicate InWindow(table: seq<Point>, visible: set<RepoId>, since: Time, p: Point) {
    p in table && p.repo in visible && Shown(table, since, p.repo, p.t)
  }

  predicate Shown(table: seq<Point>, since: Time, repo: RepoId, t: Time) {
    t >= since || forall q :: q in table && q.repo == repo && q.t < since ==> q.t <= t
  }

  /** The answer says of every visible repository and every time to be shown what the table says. */
  ghost predicate IsWindow(table: seq<Point>, visible: set<RepoId>, since: Time, points: seq<Point>) {
    forall repo, t :: LastAt(points, repo, t) ==
      if repo in visible && Shown(table, since, repo, t) then LastAt(table, repo, t) else None
  }

  /** The readings inside the window, in the order of the table. */
  method InsideWindow(table: seq<Point>, visible: set<RepoId>, since: Time) returns (inside: seq<Point>)
    ensures forall p :: p in inside <==> p in table && p.repo in visible && p.t >= since
    ensures forall repo, t :: LastAt(inside, repo, t) == if repo in visible && t >= since then LastAt(table, repo, t) else None
  {
    inside := [];
    for i := 0 to |table|
      invariant forall p :: p in inside <==> p in table[..i] && p.repo in visible && p.t >= since
      invariant forall repo, t :: LastAt(inside, repo, t) ==
                  if repo in visible && t >= since then LastAt(table[..i], repo, t) else None
    {
      var p := table[i];
      assert table[..i + 1] == table[..i] + [p];
      forall repo, t ensures LastAt(table[..i + 1], repo, t) ==
                             if p.repo == repo && p.t == t then Some(p.size) else LastAt(table[..i], repo, t) {
        LastAtAppend(table[..i], p, repo, t);
      }
      if p.repo in visible && p.t >= since {
        forall repo, t ensures LastAt(inside + [p], repo, t) ==
                               if p.repo == repo && p.t == t then Some(p.size) else LastAt(inside, repo, t) {
          LastAtAppend(inside, p, repo, t);
        }
        inside := inside + [p];
      }
    }
    assert table[..|table|] == table;
  }

  /** What the rows read so far tell about the latest reading of a repository before the window. */
  ghost predicate LatestBefore(rows: seq<Point>, visible: set<RepoId>, since: Time, latest: map<RepoId, Point>, repo: RepoId) {
    && (repo in latest <==> repo in visible && exists q :: q in rows && q.repo == repo && q.t < since)
    && (repo in latest ==>
          var p := latest[repo];
          && p in rows && p.repo == repo && p.t < since && LastAt(rows, repo, p.t) == Some(p.size)
          && forall q :: q in rows && q.repo == repo && q.t < since ==> q.t <= p.t)
  }

  lemma LatestBeforeStep(rows: seq<Point>, p: Point, visible: set<RepoId>, since: Time,
                         latest: map<RepoId, Point>, latest': map<RepoId, Point>, repo: RepoId)
    requires LatestBefore(rows, visible, since, latest, repo)
    requires forall q :: q in rows ==> q.t <= p.t
    requires latest' == if p.repo in visible && p.t < since then latest[p.repo := p] else latest
    ensures LatestBefore(rows + [p], visible, since, latest', repo)
  {
    var rows' := rows + [p];
    LastAtAppend(rows, p, repo, if repo in latest' then latest'[repo].t else p.t);
    assert p in rows' && forall q :: q in rows' <==> q in rows || q == p;
    if repo in latest && p.repo == repo && p.t >= since {
      LastAtAppend(rows, p, repo, latest[repo].t);
    }
  }

  /** The latest reading of each repository before the window, one of a time if there are several. */
  method BeforeWindow(table: seq<Point>, visible: set<RepoId>, since: Time) returns (latest: map<RepoId, Point>)
    requires TimeOrdered(table)
    ensures forall repo :: LatestBefore(table, visible, since, latest, repo)
  {
    latest := map[];
    for i := 0 to |table|
      invariant forall repo :: LatestBefore(table[..i], visible, since, latest, repo)
    {
      var p := table[i];
      ghost var rows, latest' := table[..i + 1], if p.repo in visible && p.t < since then latest[p.repo := p] else latest;
      assert rows == table[..i] + [p];
      forall repo ensures LatestBefore(rows, visible, since, latest', repo) {
        LatestBeforeStep(table[..i], p, visible, since, latest, latest', repo);
      }
      if p.repo in visible && p.t < since {
        latest := latest[p.repo := p];
      }
    }
    assert table[..|table|] == table;
  }

  method ValuesOf(latest: map<RepoId, Point>) returns (before: seq<Point>)
    requires forall repo :: repo in latest ==> latest[repo].repo == repo
    ensures forall p :: p in before <==> p.repo in latest && latest[p.repo] == p
    ensures forall repo, t :: LastAt(before, repo, t) ==
              if repo in latest && latest[repo].t == t then Some(latest[repo].size) else None
  {
    before := [];
    var rest := latest.Keys;
    while rest != {}
      invariant rest <= latest.Keys
      invariant forall p :: p in before <==> p.repo in latest && p.repo !in rest && latest[p.repo] == p
      invariant forall repo, t :: LastAt(before, repo, t) ==
                  if repo in latest && repo !in rest && latest[repo].t == t then Some(latest[repo].size) else None
      decreases |rest|
    {
      var repo :| repo in rest;
      var p := latest[repo];
      forall r, t ensures LastAt(before + [p], r, t) ==
                          if p.repo == r && p.t == t then Some(p.size) else LastAt(before, r, t) {
        LastAtAppend(before, p, r, t);
      }
      before := before + [p];
      rest := rest - {repo};
    }
  }

  /**
   The server's answer: the window of the visible repositories, oldest first.
   Readings of one repository at the same time come from the database in the
   order in which they were recorded; see `WindowKeepsLatestIff` for any other.
   */
  method StatsHistory(table: seq<Point>, visible: set<RepoId>, since: Time) returns (points: seq<Point>)
    ensures TimeOrdered(points) && IsWindow(table, visible, since, points)
    ensures forall p :: p in points ==> InWindow(table, visible, since, p)
    ensures forall p :: p in table && p.repo in visible && p.t >= since ==> p in points
  {
    var rows := SortByTime(table);
    SortOrders(table);
    var inside := InsideWindow(rows, visible, since);
    var latest := BeforeWindow(rows, visible, since);
    forall repo | repo in latest ensures latest[repo].repo == repo {
      assert LatestBefore(rows, visible, since, latest, repo);
    }
    var before := ValuesOf(latest);
    points := SortByTime(before + inside);
    SortOrders(before + inside);
    forall repo, t ensures LastAt(points, repo, t) ==
                           if repo in visible && Shown(table, since, repo, t) then LastAt(table, repo, t) else None {
      SortIsStable(before + inside, repo, t);
      LastAtConcat(before, inside, repo, t);
      SortIsStable(table, repo, t);
      BeforeIsShown(table, visible, since, latest, repo, t);
    }
    forall p | p in before ensures InWindow(table, visible, since, p) {
      BeforeIsShown(table, visible, since, latest, p.repo, p.t);
      assert LatestBefore(rows, visible, since, latest, p.repo);
    }
  }

  lemma {:induction false} BeforeIsShown(table: seq<Point>, visible: set<RepoId>, since: Time, latest: map<RepoId, Point>, repo: RepoId, t: Time)
    requires LatestBefore(SortByTime(table), visible, since, latest, repo)
    ensures t < since ==>
              (if repo in latest && latest[repo].t == t then Some(latest[repo].size) else None) ==
              if repo in visible && Shown(table, since, repo, t) then LastAt(table, repo, t) else None
    ensures repo in latest ==> Shown(table, since, repo, latest[repo].t)
  {
    SortIsStable(table, repo, t);
    LastAtSome(table, repo, t);
    if repo in latest {
      assert latest[repo] in table;
      if p :| p in table && p.repo == repo && p.t == t {
        assert p in SortByTime(table);
      }
    }
  }

  // --- The window loses nothing -------------------------------------------------------

  /** In a sequence ordered by time, the latest size is the last one of the latest time. */
  lemma {:induction false} LatestIsLastAt(points: seq<Point>, repo: RepoId, at: Time, t: Time)
    requires TimeOrdered(points) && LastAt(points, repo, t).Some? && t <= at
    requires forall q :: q in points && q.repo == repo && q.t <= at ==> q.t <= t
    ensures LatestAt(points, repo, at) == LastAt(points, repo, t)
  {
    var init, last := points[..|points| - 1], points[|points| - 1];
    assert points == init + [last];
    if last.repo == repo && last.t <= at {
      LastAtSome(points, repo, t);
      var i :| 0 <= i < |points| && points[i].repo == repo && points[i].t == t;
      assert points[i].t <= last.t;
    } else {
      LatestIsLastAt(init, repo, at, t);
    }
  }

  lemma {:induction false} LatestNone(points: seq<Point>, repo: RepoId, at: Time)
    ensures LatestAt(points, repo, at).None? <==> forall q :: q in points && q.repo == repo ==> q.t > at
  {
    if points != [] {
      var init, last := points[..|points| - 1], points[|points| - 1];
      assert points == init + [last];
      LatestNone(init, repo, at);
    }
  }

  /** The latest reading itself. */
  lemma {:induction false} LatestWitness(points: seq<Point>, repo: RepoId, at: Time) returns (p: Point)
    requires TimeOrdered(points) && LatestAt(points, repo, at).Some?
    ensures p in points && p.repo == repo && p.t <= at
    ensures forall q :: q in points && q.repo == repo && q.t <= at ==> q.t <= p.t
  {
    var init, last := points[..|points| - 1], points[|points| - 1];
    assert points == init + [last];
    if last.repo == repo && last.t <= at {
      p := last;
    } else {
      p := LatestWitness(init, repo, at);
    }
  }

  /** The latest time of a repository at or before `at`, in a table in any order. */
  lemma LatestTime(table: seq<Point>, repo: RepoId, at: Time) returns (t: Time)
    requires LatestAt(SortByTime(table), repo, at).Some?
    ensures t <= at && LastAt(table, repo, t).Some?
    ensures forall q :: q in table && q.repo == repo && q.t <= at ==> q.t <= t
    ensures LatestAt(SortByTime(table), repo, at) == LastAt(table, repo, t)
  {
    SortOrders(table);
    var p := LatestWitness(SortByTime(table), repo, at);
    t := p.t;
    LastAtSome(SortByTime(table), repo, t);
    SortIsStable(table, repo, t);
    LatestIsLastAt(SortByTime(table), repo, at, t);
  }

  /** From the start of the window on, the window shows the same size of every visible repository as the table. */
  lemma {:induction false} WindowKeepsLatest(table: seq<Point>, visible: set<RepoId>, since: Time, points: seq<Point>, repo: RepoId, at: Time)
    requires IsWindow(table, visible, since, points) && repo in visible && since <= at
    ensures LatestAt(SortByTime(points), repo, at) == LatestAt(SortByTime(table), repo, at)
  {
    LatestNone(SortByTime(points), repo, at);
    LatestNone(SortByTime(table), repo, at);
    if LatestAt(SortByTime(table), repo, at).Some? {
      var t := LatestTime(table, repo, at);
      assert Shown(table, since, repo, t);
      SameLatest(table, visible, since, points, repo, at, t);
    } else {
      forall q | q in points && q.repo == repo ensures q.t > at {
        LastAtSome(points, repo, q.t);
        LastAtSome(table, repo, q.t);
      }
    }
  }

  lemma {:induction false} SameLatest(table: seq<Point>, visible: set<RepoId>, since: Time, points: seq<Point>, repo: RepoId, at: Time, t: Time)
    requires IsWindow(table, visible, since, points) && repo in visible && t <= at
    requires Shown(table, since, repo, t) && LastAt(table, repo, t).Some?
    requires forall q :: q in table && q.repo == repo && q.t <= at ==> q.t <= t
    ensures LatestAt(SortByTime(points), repo, at) == LastAt(table, repo, t)
  {
    SortOrders(points);
    SortIsStable(points, repo, t);
    forall q | q in points && q.repo == repo && q.t <= at ensures q.t <= t {
      LastAtSome(points, repo, q.t);
      LastAtSome(table, repo, q.t);
    }
    LatestIsLastAt(SortByTime(points), repo, at, t);
  }

  // --- The series ---------------------------------------------------------------------

  /** The map `latest` of the client after it went through `points`. */
  function Fold(points: seq<Point>): map<RepoId, nat> {
    if points == [] then map[]
    else Fold(points[..|points| - 1])[points[|points| - 1].repo := points[|points| - 1].size]
  }

  /** The points of the series for the readings from `k` up to `n`. */
  ghost function Steps(points: seq<Point>, k: nat, n: nat): seq<StoragePoint>
    requires k <= n <= |points|
  {
    seq(n - k, i requires 0 <= i < n - k => StoragePoint(points[k + i].t, Sum(Fold(points[..k + i + 1]))))
  }

  /** The collapsed baseline: one point at the window start if there are earlier readings. */
  ghost function Baseline(points: seq<Point>, k: nat, since: Time): seq<StoragePoint>
    requires k <= |points|
  {
    if k > 0 then [StoragePoint(since, Sum(Fold(points[..k])))] else []
  }

  /** `k` of the readings, the first ones, lie before the window. */
  predicate SplitsAt(points: seq<Point>, k: nat, since: Time) {
    && k <= |points|
    && (forall i :: 0 <= i < k ==> points[i].t < since)
    && (forall i :: k <= i < |points| ==> points[i].t >= since)
  }

  /** The series after `n` readings, `k` of which lie before the window. */
  ghost function Series(points: seq<Point>, k: nat, n: nat, since: Time): seq<StoragePoint>
    requires k <= n <= |points|
  {
    if n == k then [] else Baseline(points, k, since) + Steps(points, k, n)
  }

  lemma SeriesGrows(points: seq<Point>, k: nat, n: nat, since: Time)
    requires k <= n < |points|
    ensures Series(points, k, n + 1, since) ==
            (if n == k then Baseline(points, k, since) else Series(points, k, n, since)) +
            [StoragePoint(points[n].t, Sum(Fold(points[..n + 1])))]
  {
    assert Steps(points, k, n + 1) == Steps(points, k, n) + [StoragePoint(points[n].t, Sum(Fold(points[..n + 1])))];
  }

  lemma FoldGrows(points: seq<Point>, n: nat)
    requires n < |points|
    ensures Fold(points[..n + 1]) == Fold(points[..n])[points[n].repo := points[n].size]
  {
    assert points[..n + 1][..n] == points[..n];
  }

  lemma {:induction false} SeriesEnds(points: seq<Point>, k: nat, since: Time)
    requires k <= |points| && points != []
    ensures var s := Baseline(points, k, since) + Steps(points, k, |points|);
            s != [] && s[|s| - 1].bytes == Sum(Fold(points))
    ensures k == |points| ==> Steps(points, k, |points|) == []
  {
    var n, steps := |points|, Steps(points, k, |points|);
    assert points[..n] == points;
    if k < n {
      assert steps[n - k - 1] == StoragePoint(points[n - 1].t, Sum(Fold(points[..n])));
    }
  }

  lemma SplitMoves(points: seq<Point>, k: nat, n: nat, since: Time)
    requires TimeOrdered(points) && k <= n < |points| && points[n].t < since
    requires forall i :: k <= i < n ==> points[i].t >= since
    ensures k == n
  {
    assert points[k].t <= points[n].t;
  }

  /** The state of the client's loop after `n` readings. */
  ghost predicate FoldInv(points: seq<Point>, since: Time, n: nat, k: nat, latest: map<RepoId, nat>, seeded: bool,
                          out: seq<StoragePoint>)
  {
    && k <= n <= |points| && latest == Fold(points[..n])
    && (forall i :: 0 <= i < k ==> points[i].t < since) && (forall i :: k <= i < n ==> points[i].t >= since)
    && (seeded <==> n == k && n > 0) && out == Series(points, k, n, since)
  }

  lemma FoldBefore(points: seq<Point>, since: Time, n: nat, k: nat, latest: map<RepoId, nat>, seeded: bool,
                   out: seq<StoragePoint>)
    requires TimeOrdered(points) && FoldInv(points, since, n, k, latest, seeded, out)
    requires n < |points| && points[n].t < since
    ensures FoldInv(points, since, n + 1, k + 1, latest[points[n].repo := points[n].size], true, out)
  {
    FoldGrows(points, n);
    SplitMoves(points, k, n, since);
  }

  lemma FoldInside(points: seq<Point>, since: Time, n: nat, k: nat, latest: map<RepoId, nat>, seeded: bool,
                   out: seq<StoragePoint>)
    requires FoldInv(points, since, n, k, latest, seeded, out) && n < |points| && points[n].t >= since
    ensures var latest' := latest[points[n].repo := points[n].size];
            var base := if seeded then [StoragePoint(since, Sum(latest))] else [];
            FoldInv(points, since, n + 1, k, latest', false, out + base + [StoragePoint(points[n].t, Sum(latest'))])
  {
    FoldGrows(points, n);
    SeriesGrows(points, k, n, since);
    var base := if seeded then [StoragePoint(since, Sum(latest))] else [];
    assert out + base == if n == k then Baseline(points, k, since) else Series(points, k, n, since);
  }

  /** The loop over the readings; `k` counts the ones before the window. */
  method FoldReadings(points: seq<Point>, since: Time)
    returns (out: seq<StoragePoint>, latest: map<RepoId, nat>, seeded: bool, ghost k: nat)
    requires TimeOrdered(points)
    ensures SplitsAt(points, k, since) && latest == Fold(points)
    ensures (seeded <==> k == |points| && points != []) && out == Series(points, k, |points|, since)
  {
    latest, seeded, out, k := map[], false, [], 0;
    for n := 0 to |points|
      invariant FoldInv(points, since, n, k, latest, seeded, out)
    {
      var p := points[n];
      if p.t < since {
        FoldBefore(points, since, n, k, latest, seeded, out);
        latest := latest[p.repo := p.size];
        seeded := true;
        k := k + 1;
        continue;
      }
      FoldInside(points, since, n, k, latest, seeded, out);
      if seeded {
        var base := SumOf(latest);
        out := out + [StoragePoint(since, base)];
        seeded := false;
      } else {
        assert out + [] == out;
      }
      latest := latest[p.repo := p.size];
      var total := SumOf(latest);
      out := out + [StoragePoint(p.t, total)];
    }
    assert points[..|points|] == points;
  }

  /** What the client makes of the readings, taken in the order of their times. */
  ghost predicate IsSeries(points: seq<Point>, since: Time, now: Time, out: seq<StoragePoint>, k: nat) {
    var sorted := SortByTime(points);
    && SplitsAt(sorted, k, since)
    && out == if points == [] then []
              else Baseline(sorted, k, since) + Steps(sorted, k, |sorted|) + [StoragePoint(now, Sum(Fold(sorted)))]
  }

  method TotalStorageSeries(points: seq<Point>, since: Time, now: Time) returns (out: seq<StoragePoint>)
    ensures exists k :: IsSeries(points, since, now, out, k)
  {
    var latest, seeded;
    ghost var k;
    var sorted := SortByTime(points);
    SortOrders(points);
    out, latest, seeded, k := FoldReadings(sorted, since);
    if seeded {
      var base := SumOf(latest);
      out := out + [StoragePoint(since, base)];
    }
    SeriesSeeded(sorted, k, since, latest);
    assert points != [] ==> points[0] in sorted;
    if |out| > 0 {
      out := out + [StoragePoint(now, out[|out| - 1].bytes)];
    }
    assert IsSeries(points, since, now, out, k);
  }

  /** The series before its last point, whether or not the baseline is still to come. */
  lemma SeriesSeeded(points: seq<Point>, k: nat, since: Time, latest: map<RepoId, nat>)
    requires k <= |points| && latest == Fold(points)
    ensures var s := Series(points, k, |points|, since) +
                     if k == |points| && points != [] then [StoragePoint(since, Sum(latest))] else [];
            && (points == [] ==> s == [])
            && (points != [] ==>
                  s == Baseline(points, k, since) + Steps(points, k, |points|) && s != [] && s[|s| - 1].bytes == Sum(Fold(points)))
  {
    assert points[..|points|] == points;
    if points != [] {
      SeriesEnds(points, k, since);
    }
  }

  /** The hover lookup: the last point at or before the time, the first one if there is none. */
  method Hover(series: seq<StoragePoint>, at: Time) returns (bytes: nat)
    requires series != []
    ensures bytes == ValueAt(series, at)
  {
    var hovered := series[0];
    for i := 0 to |series|
      invariant hovered.bytes == if i == 0 then series[0].bytes else ValueAt(series[..i], at)
    {
      assert series[..i + 1][..i] == series[..i];
      if series[i].t <= at {
        hovered := series[i];
      }
    }
    assert series[..|series|] == series;
    bytes := hovered.bytes;
  }

  /** The step function of a series. */
  function ValueAt(series: seq<StoragePoint>, at: Time): nat
    requires series != []
  {
    var init, last := series[..|series| - 1], series[|series| - 1];
    if last.t <= at || init == [] then last.bytes else ValueAt(init, at)
  }

  // --- The series shows the totals ----------------------------------------------------

  /** The number of readings at or before a time, in a sequence ordered by time. */
  ghost predicate CountsUpTo(points: seq<Point>, m: nat, at: Time) {
    && m <= |points|
    && (forall i :: 0 <= i < m ==> points[i].t <= at)
    && (forall i :: m <= i < |points| ==> points[i].t > at)
  }

  lemma {:induction false} FoldIsLatest(points: seq<Point>, m: nat, at: Time, repo: RepoId)
    requires CountsUpTo(points, m, at)
    ensures repo in Fold(points[..m]) <==> LatestAt(points, repo, at).Some?
    ensures repo in Fold(points[..m]) ==> Fold(points[..m])[repo] == LatestAt(points, repo, at).value
    decreases |points|
  {
    if points != [] {
      var init := points[..|points| - 1];
      if m == |points| {
        assert points[..m] == points && points[..m][..m - 1] == init && init[..m - 1] == init;
        FoldIsLatest(init, m - 1, at, repo);
      } else {
        assert points[..m] == init[..m];
        FoldIsLatest(init, m, at, repo);
      }
    }
  }

  /** Folding the readings up to a time gives the latest size of every repository at that time. */
  lemma FoldIsTotal(points: seq<Point>, visible: set<RepoId>, m: nat, at: Time)
    requires CountsUpTo(points, m, at) && forall p :: p in points ==> p.repo in visible
    ensures Sum(Fold(points[..m])) == Total(points, visible, at)
  {
    forall repo ensures repo in Fold(points[..m]) <==> repo in LatestSizes(points, visible, at) {
      FoldIsLatest(points, m, at, repo);
      LatestNone(points, repo, at);
    }
    forall repo | repo in Fold(points[..m]) ensures Fold(points[..m])[repo] == LatestSizes(points, visible, at)[repo] {
      FoldIsLatest(points, m, at, repo);
    }
    assert Fold(points[..m]) == LatestSizes(points, visible, at);
  }

  lemma UpTo(points: seq<Point>, at: Time) returns (m: nat)
    requires TimeOrdered(points)
    ensures CountsUpTo(points, m, at)
  {
    m := 0;
    while m < |points| && points[m].t <= at
      invariant 0 <= m <= |points| && forall i :: 0 <= i < m ==> points[i].t <= at
    {
      m := m + 1;
    }
  }

  /** Appending a point that is later than `at` does not change the value there. */
  lemma {:induction false} ValueAppend(series: seq<StoragePoint>, p: StoragePoint, at: Time)
    ensures ValueAt(series + [p], at) == if p.t <= at || series == [] then p.bytes else ValueAt(series, at)
  {
  }

  lemma StepsSplit(points: seq<Point>, k: nat, n: nat, since: Time)
    requires k < n <= |points|
    ensures Baseline(points, k, since) + Steps(points, k, n) ==
            Baseline(points, k, since) + Steps(points, k, n - 1) +
            [StoragePoint(points[n - 1].t, Sum(Fold(points[..n])))]
  {
  }

  /** The value of the folded part of the series at a time is the sum folded up to that time. */
  lemma {:induction false} StepsValue(points: seq<Point>, k: nat, n: nat, since: Time, m: nat, at: Time)
    requires SplitsAt(points, k, since) && k <= n <= |points| && CountsUpTo(points, m, at)
    requires since <= at && (k == 0 ==> m > 0) && (k > 0 || n > 0)
    ensures Baseline(points, k, since) + Steps(points, k, n) != []
    ensures ValueAt(Baseline(points, k, since) + Steps(points, k, n), at) == Sum(Fold(points[..if m <= n then m else n]))
    decreases n
  {
    if n == k {
      assert Baseline(points, k, since) + Steps(points, k, n) == Baseline(points, k, since);
      assert k <= m;
    } else {
      var init := Baseline(points, k, since) + Steps(points, k, n - 1);
      var p := StoragePoint(points[n - 1].t, Sum(Fold(points[..n])));
      StepsSplit(points, k, n, since);
      ValueAppend(init, p, at);
      if init != [] {
        StepsValue(points, k, n - 1, since, m, at);
      }
    }
  }

  /**
   Storage pipeline: for every table of readings and every window, the step
   function of the client's series over the server's answer equals, at every
   time from its first point to now, the sum over the visible repositories of
   the latest reading in the full table at or before that time.
   */
  lemma {:induction false} SeriesShowsTotals(table: seq<Point>, visible: set<RepoId>, since: Time, now: Time,
                          points: seq<Point>, out: seq<StoragePoint>, k: nat, at: Time)
    requires IsWindow(table, visible, since, points) && IsSeries(points, since, now, out, k) && points != []
    requires since <= now && (forall p :: p in points ==> p.t <= now)
    requires out[0].t <= at <= now
    ensures ValueAt(out, at) == Total(SortByTime(table), visible, at)
  {
    var m := FoldedUpTo(points, since, now, out, k, at);
    OnlyVisible(table, visible, since, points);
    FoldIsTotal(SortByTime(points), visible, m, at);
    SameSizesShown(table, visible, since, points, at);
  }

  lemma OnlyVisible(table: seq<Point>, visible: set<RepoId>, since: Time, points: seq<Point>)
    requires IsWindow(table, visible, since, points)
    ensures forall p :: p in points ==> p.repo in visible
  {
    forall p | p in points ensures p.repo in visible {
      LastAtSome(points, p.repo, p.t);
    }
  }

  /** The series shows the sum of what was folded up to that time. */
  lemma FoldedUpTo(points: seq<Point>, since: Time, now: Time, out: seq<StoragePoint>, k: nat, at: Time) returns (m: nat)
    requires IsSeries(points, since, now, out, k) && points != []
    requires since <= now && (forall p :: p in points ==> p.t <= now) && out[0].t <= at <= now
    ensures CountsUpTo(SortByTime(points), m, at) && since <= at && ValueAt(out, at) == Sum(Fold(SortByTime(points)[..m]))
  {
    SortOrders(points);
    assert points[0] in SortByTime(points);
    m := UpTo(SortByTime(points), at);
    SeriesValue(SortByTime(points), since, now, out, k, m, at);
  }

  lemma {:induction false} SameSizesShown(table: seq<Point>, visible: set<RepoId>, since: Time, points: seq<Point>, at: Time)
    requires IsWindow(table, visible, since, points) && since <= at
    ensures LatestSizes(SortByTime(points), visible, at) == LatestSizes(SortByTime(table), visible, at)
  {
    forall repo | repo in visible ensures LatestAt(SortByTime(points), repo, at) == LatestAt(SortByTime(table), repo, at) {
      WindowKeepsLatest(table, visible, since, points, repo, at);
    }
  }

  lemma {:induction false} SeriesValue(points: seq<Point>, since: Time, now: Time, out: seq<StoragePoint>, k: nat, m: nat, at: Time)
    requires SplitsAt(points, k, since) && points != [] && since <= now && (forall p :: p in points ==> p.t <= now)
    requires out == Baseline(points, k, since) + Steps(points, k, |points|) + [StoragePoint(now, Sum(Fold(points)))]
    requires out[0].t <= at <= now && CountsUpTo(points, m, at)
    ensures since <= at && ValueAt(out, at) == Sum(Fold(points[..m]))
  {
    var series := Baseline(points, k, since) + Steps(points, k, |points|);
    assert series != [];
    assert out[0] == series[0];
    if k == 0 {
      assert series[0] == Steps(points, 0, |points|)[0];
      assert series[0].t == points[0].t;
    } else {
      assert series[0].t == since;
    }
    ValueAppend(series, StoragePoint(now, Sum(Fold(points))), at);
    StepsValue(points, k, |points|, since, m, at);
    if at == now {
      assert m == |points| && points[..m] == points;
    }
  }

  // --- From the readings to the tooltip -------------------------------------------------

  lemma {:induction false} RecordedTable(events: seq<Event>)
    requires InTimeOrder(events)
    ensures var table := RecordAll(events).history;
            TimeOrdered(table) && forall p :: p in table ==> exists i :: 0 <= i < |events| && events[i].t == p.t
    decreases |events|
  {
    if events != [] {
      var init, e := events[..|events| - 1], events[|events| - 1];
      assert forall i :: 0 <= i < |init| ==> init[i] == events[i];
      RecordedTable(init);
      var table, table' := RecordAll(init).history, RecordAll(events).history;
      forall p | p in table ensures p.t <= e.t {
        var i :| 0 <= i < |init| && init[i].t == p.t;
        assert events[i].t <= e.t;
      }
      if table' != table {
        AppendKeepsOrder(table, table'[|table|]);
        assert table' == table + [table'[|table|]];
      }
      forall p | p in table' ensures exists i :: 0 <= i < |events| && events[i].t == p.t {
        if p in table {
          var i :| 0 <= i < |init| && init[i].t == p.t;
          assert events[i].t == p.t;
        } else {
          assert events[|events| - 1].t == p.t;
        }
      }
    }
  }

  /**
   From the table to the tooltip: cut to the window on read, folded into one
   series and looked up under the pointer. If the table tells the sizes of all
   readings ever taken, the tooltip shows the sum of every visible repository's
   latest one.
   */
  method Tooltip(table: seq<Point>, ghost all: seq<Point>, visible: set<RepoId>, since: Time, now: Time, at: Time)
    returns (shown: Option<nat>)
    requires since <= at <= now && forall p :: p in table ==> p.t <= now
    requires forall repo :: repo in visible ==> LatestAt(SortByTime(table), repo, at) == LatestAt(all, repo, at)
    ensures shown.None? <==> forall p :: p in table ==> p.repo !in visible
    // Once some visible repository has a reading by then.
    ensures shown.Some? && LatestSizes(all, visible, at) != map[] ==> shown.value == Total(all, visible, at)
  {
    var points := StatsHistory(table, visible, since);
    var out := TotalStorageSeries(points, since, now);
    NothingShownIff(table, visible, since, points);
    if points == [] {
      return None;
    }
    ghost var k :| IsSeries(points, since, now, out, k);
    var bytes := Hover(out, at);
    shown := Some(bytes);
    SizesOfAll(table, all, visible, at);
    TooltipValue(table, visible, since, now, points, out, k, at);
  }

  lemma {:induction false} SizesOfAll(table: seq<Point>, all: seq<Point>, visible: set<RepoId>, at: Time)
    requires forall repo :: repo in visible ==> LatestAt(SortByTime(table), repo, at) == LatestAt(all, repo, at)
    ensures LatestSizes(SortByTime(table), visible, at) == LatestSizes(all, visible, at)
  {
  }

  lemma {:induction false} TooltipValue(table: seq<Point>, visible: set<RepoId>, since: Time, now: Time,
                                        points: seq<Point>, out: seq<StoragePoint>, k: nat, at: Time)
    requires since <= at <= now && forall p :: p in points ==> p.t <= now
    requires IsWindow(table, visible, since, points) && IsSeries(points, since, now, out, k) && points != []
    ensures LatestSizes(SortByTime(table), visible, at) != map[] ==> ValueAt(out, at) == Total(SortByTime(table), visible, at)
  {
    if out[0].t <= at {
      SeriesShowsTotals(table, visible, since, now, points, out, k, at);
    } else {
      BeforeFirstPoint(table, visible, since, now, points, out, k, at);
    }
  }

  /** In particular, readings recorded in turn are shown as if all had been kept. */
  method TooltipInTurn(events: seq<Event>, visible: set<RepoId>, since: Time, now: Time, at: Time) returns (shown: Option<nat>)
    requires InTimeOrder(events) && NoneMasked(events)
    requires since <= at <= now && forall i :: 0 <= i < |events| ==> events[i].t <= now
    ensures shown.None? <==> forall p :: p in RecordAll(events).history ==> p.repo !in visible
    ensures shown.Some? && LatestSizes(KeepAll(events), visible, at) != map[] ==>
              shown.value == Total(KeepAll(events), visible, at)
  {
    TableShowsAll(events);
    shown := Tooltip(RecordAll(events).history, KeepAll(events), visible, since, now, at);
  }

  lemma NothingShownIff(table: seq<Point>, visible: set<RepoId>, since: Time, points: seq<Point>)
    requires IsWindow(table, visible, since, points)
    ensures points == [] <==> forall p :: p in table ==> p.repo !in visible
  {
    if p :| p in table && p.repo in visible {
      LastAtSome(table, p.repo, p.t);
      var at := if p.t < since then since else p.t;
      LatestNone(SortByTime(table), p.repo, at);
      WindowKeepsLatest(table, visible, since, points, p.repo, at);
    } else if points != [] {
      LastAtSome(points, points[0].repo, points[0].t);
      LastAtSome(table, points[0].repo, points[0].t);
    }
  }

  /** The table of changes is in time order, and tells the same sizes as all readings. */
  lemma {:induction false} TableShowsAll(events: seq<Event>)
    requires InTimeOrder(events) && NoneMasked(events)
    ensures var table := RecordAll(events).history;
            && SortByTime(table) == table && SameSizes(table, KeepAll(events))
            && forall p :: p in table ==> exists i :: 0 <= i < |events| && events[i].t == p.t
  {
    RecordedTable(events);
    SortLeavesSorted(RecordAll(events).history);
    RecordRun(events, if events == [] then 0 else events[0].t);
  }

  /** Before the first point of the series there is nothing to sum up. */
  lemma {:induction false} BeforeFirstPoint(table: seq<Point>, visible: set<RepoId>, since: Time, now: Time,
                         points: seq<Point>, out: seq<StoragePoint>, k: nat, at: Time)
    requires IsWindow(table, visible, since, points) && IsSeries(points, since, now, out, k) && points != []
    requires since <= at && at < out[0].t
    ensures LatestSizes(SortByTime(table), visible, at) == map[]
  {
    var sorted := SortByTime(points);
    SortOrders(points);
    assert points[0] in sorted;
    FirstPoint(sorted, k, since, StoragePoint(now, Sum(Fold(sorted))));
    NothingYet(sorted, visible, at);
    SameSizesShown(table, visible, since, points, at);
  }

  lemma FirstPoint(sorted: seq<Point>, k: nat, since: Time, end: StoragePoint)
    requires SplitsAt(sorted, k, since) && sorted != []
    ensures (Baseline(sorted, k, since) + Steps(sorted, k, |sorted|) + [end])[0].t == if k == 0 then sorted[0].t else since
  {
  }

  lemma NothingYet(sorted: seq<Point>, visible: set<RepoId>, at: Time)
    requires TimeOrdered(sorted) && sorted != [] && at < sorted[0].t
    ensures LatestSizes(sorted, visible, at) == map[]
  {
    forall repo | repo in visible ensures LatestAt(sorted, repo, at).None? {
      LatestNone(sorted, repo, at);
    }
  }

  // --- Several readings of one repository at the same time --------------------------------

  /** The answer of a database that may return readings of one time in any order, and picks any one of them before the window. */
  ghost predicate IsAnswer(table: seq<Point>, visible: set<RepoId>, since: Time, points: seq<Point>) {
    && (forall p :: p in points ==> InWindow(table, visible, since, p))
    && (forall p :: p in table && p.repo in visible && p.t >= since ==> p in points)
    && (forall repo :: repo in visible && ReadBefore(table, repo, since) ==> ReadBefore(points, repo, since))
  }

  predicate ReadBefore(points: seq<Point>, repo: RepoId, since: Time) {
    exists p :: p in points && p.repo == repo && p.t < since
  }

  /** The time is one whose reading the chart shows at some point. */
  predicate Matters(table: seq<Point>, since: Time, repo: RepoId, t: Time) {
    t >= since || LastAt(table, repo, since).None?
  }

  /** Of the readings of one time, the last recorded one also comes last in the answer, or one like it. */
  ghost predicate TiesInOrder(table: seq<Point>, visible: set<RepoId>, since: Time, points: seq<Point>) {
    forall repo, t :: repo in visible && LastAt(points, repo, t).Some? && Matters(table, since, repo, t) ==>
      LastAt(points, repo, t) == LastAt(table, repo, t)
  }

  /** The reading that counts is in the answer, or one of the same time. */
  lemma {:induction false} AnswerHas(table: seq<Point>, visible: set<RepoId>, since: Time, points: seq<Point>, p: Point)
    requires IsAnswer(table, visible, since, points) && p in table && p.repo in visible
    requires Shown(table, since, p.repo, p.t)
    ensures LastAt(points, p.repo, p.t).Some?
  {
    LastAtSome(points, p.repo, p.t);
    if p.t < since {
      assert ReadBefore(table, p.repo, since);
      var q :| q in points && q.repo == p.repo && q.t < since;
      assert InWindow(table, visible, since, q);
    }
  }

  /** The latest time shown is the same in the answer and in the table. */
  lemma AnswerTime(table: seq<Point>, visible: set<RepoId>, since: Time, points: seq<Point>, repo: RepoId, at: Time)
    returns (t: Time)
    requires IsAnswer(table, visible, since, points) && repo in visible && since <= at
    requires LatestAt(SortByTime(table), repo, at).Some?
    ensures LastAt(points, repo, t).Some? && LatestAt(SortByTime(points), repo, at) == LastAt(points, repo, t)
    ensures LatestAt(SortByTime(table), repo, at) == LastAt(table, repo, t) && LastAt(table, repo, t).Some?
    ensures t <= at && forall q :: q in table && q.repo == repo && q.t <= at ==> q.t <= t
  {
    t := LatestTime(table, repo, at);
    LastAtSome(table, repo, t);
    var p :| p in table && p.repo == repo && p.t == t;
    AnswerHas(table, visible, since, points, p);
    SortOrders(points);
    SortIsStable(points, repo, t);
    forall q | q in SortByTime(points) && q.repo == repo && q.t <= at ensures q.t <= t {
      assert InWindow(table, visible, since, q);
    }
    LatestIsLastAt(SortByTime(points), repo, at, t);
  }

  /** The time that counts at `at` matters. */
  lemma LatestMatters(table: seq<Point>, since: Time, repo: RepoId, at: Time, t: Time)
    requires since <= at && t <= at && forall q :: q in table && q.repo == repo && q.t <= at ==> q.t <= t
    ensures Matters(table, since, repo, t)
  {
    LastAtSome(table, repo, since);
  }

  /** With equal times in any order, the window shows the same sizes as the table exactly if they come in order. */
  lemma {:induction false} WindowKeepsLatestIff(table: seq<Point>, visible: set<RepoId>, since: Time, points: seq<Point>)
    requires IsAnswer(table, visible, since, points)
    ensures TiesInOrder(table, visible, since, points) <==>
            forall repo, at :: repo in visible && since <= at ==>
              LatestAt(SortByTime(points), repo, at) == LatestAt(SortByTime(table), repo, at)
  {
    if TiesInOrder(table, visible, since, points) {
      forall repo, at | repo in visible && since <= at
        ensures LatestAt(SortByTime(points), repo, at) == LatestAt(SortByTime(table), repo, at)
      {
        if LatestAt(SortByTime(table), repo, at).Some? {
          var t := AnswerTime(table, visible, since, points, repo, at);
          LatestMatters(table, since, repo, at, t);
        } else {
          LatestNone(SortByTime(table), repo, at);
          LatestNone(SortByTime(points), repo, at);
        }
      }
    } else {
      var repo, t :| repo in visible && LastAt(points, repo, t).Some? && Matters(table, since, repo, t) &&
                     LastAt(points, repo, t) != LastAt(table, repo, t);
      TieShows(table, visible, since, points, repo, t);
    }
  }

  /** A tie out of order shows, at its own time or at the start of the window. */
  lemma {:induction false} TieShows(table: seq<Point>, visible: set<RepoId>, since: Time, points: seq<Point>, repo: RepoId, t: Time)
    requires IsAnswer(table, visible, since, points) && repo in visible && LastAt(points, repo, t).Some?
    requires Matters(table, since, repo, t) && LastAt(points, repo, t) != LastAt(table, repo, t)
    ensures var at := if t < since then since else t;
            LatestAt(SortByTime(points), repo, at) != LatestAt(SortByTime(table), repo, at)
  {
    var at := if t < since then since else t;
    LastAtSome(points, repo, t);
    var p :| p in points && p.repo == repo && p.t == t;
    assert InWindow(table, visible, since, p);
    HasLatest(table, p, at);
    var t' := AnswerTime(table, visible, since, points, repo, at);
    NotLater(table, since, repo, t, t');
  }

  lemma {:induction false} HasLatest(table: seq<Point>, p: Point, at: Time)
    requires p in table && p.t <= at
    ensures LatestAt(SortByTime(table), p.repo, at).Some?
  {
    assert p in SortByTime(table);
    LatestNone(SortByTime(table), p.repo, at);
  }

  lemma {:induction false} NotLater(table: seq<Point>, since: Time, repo: RepoId, t: Time, t': Time)
    requires Shown(table, since, repo, t) && Matters(table, since, repo, t) && LastAt(table, repo, t').Some?
    requires t' <= if t < since then since else t
    ensures t' <= t
  {
    LastAtSome(table, repo, t');
  }

  /** It can go wrong: two readings of one millisecond, returned in the other order. */
  lemma TieOutOfOrder()
    ensures var table, points := [Point(0, 1, 5), Point(0, 1, 7)], [Point(0, 1, 7), Point(0, 1, 5)];
            IsAnswer(table, {0}, 0, points) && !TiesInOrder(table, {0}, 0, points)
  {
    var table, points := [Point(0, 1, 5), Point(0, 1, 7)], [Point(0, 1, 7), Point(0, 1, 5)];
    assert LastAt(points, 0, 1) == Some(5) && LastAt(table, 0, 1) == Some(7);
    forall p | p in table || p in points ensures p in table && p in points && p.t == 1 && p.repo == 0 {
      assert p == Point(0, 1, 5) || p == Point(0, 1, 7);
      assert table[0] in table && table[1] in table && points[0] in points && points[1] in points;
    }
  }
}
