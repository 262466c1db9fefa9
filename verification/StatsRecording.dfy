/**
 Recording size readings when calls overlap (recordStats of
 server/src/repositories/repositories.service.ts): a call reads the cached
 columns, takes the time, updates the columns and inserts the history row, and
 other calls, also of the same repository, may come between any two of these.
 */
module StatsRecording {
  import opened Wrappers
  import opened StorageHistory
  import opened StorageSeries

  // --- The steps ------------------------------------------------------------------------------

  datatype Stage = Begun | Stamped(t: Time) | Updated(t: Time)

  /** A call under way, with the columns it read. */
  datatype Call = Call(repo: RepoId, reading: Reading, seen: Cached, stage: Stage)

  /** A finished reading that carries a size, and whether it went into the history. */
  datatype Mark = Mark(point: Point, kept: bool)

  datatype System = System(
    cache: map<RepoId, Cached>,
    history: seq<Point>,
    now: Time,
    calls: seq<Call>,
    line: seq<Mark>       // all finished readings with a size, by time, those of one time as they finished
  )

  datatype Action =
    | Tick(time: Time)
    | ReadRow(repo: RepoId, reading: Reading)
    | Stamp(index: nat)
    | Update(index: nat)
    | Finish(index: nat)

  function NewSystem(now: Time): System {
    System(map[], [], now, [], [])
  }

  predicate Enabled(s: System, act: Action) {
    match act
    case Tick(time) => s.now <= time
    case ReadRow(_, _) => true
    case Stamp(i) => i < |s.calls| && s.calls[i].stage.Begun?
    case Update(i) => i < |s.calls| && s.calls[i].stage.Stamped?
    case Finish(i) => i < |s.calls| && s.calls[i].stage.Updated?
  }

  /** The history row a call adds, if any: it compares with the columns it read. */
  function RowsOf(call: Call): seq<Point>
    requires call.stage.Updated?
  {
    NewRows(call.seen, call.repo, call.reading, call.stage.t)
  }

  function MarksOf(call: Call): seq<Mark>
    requires call.stage.Updated?
  {
    if call.reading.Reading? && call.reading.size.Some?
    then [Mark(Point(call.repo, call.stage.t, call.reading.size.value), RowsOf(call) != [])] else []
  }

  function InsertMark(line: seq<Mark>, m: Mark): seq<Mark> {
    if line == [] || line[|line| - 1].point.t <= m.point.t then line + [m]
    else InsertMark(line[..|line| - 1], m) + [line[|line| - 1]]
  }

  function SetStage(s: System, i: nat, stage: Stage): System
    requires i < |s.calls|
  {
    s.(calls := s.calls[i := s.calls[i].(stage := stage)])
  }

  function DoUpdate(s: System, i: nat): System
    requires i < |s.calls| && s.calls[i].stage.Stamped?
  {
    var call := s.calls[i];
    SetStage(s, i, Updated(call.stage.t))
      .(cache := s.cache[call.repo := NextCached(CachedOf(s.cache, call.repo), call.reading, call.stage.t)])
  }

  function DoFinish(s: System, i: nat): System
    requires i < |s.calls| && s.calls[i].stage.Updated?
  {
    var call := s.calls[i];
    var marks := MarksOf(call);
    s.(calls := s.calls[..i] + s.calls[i + 1..],
       history := s.history + RowsOf(call),
       line := if marks == [] then s.line else InsertMark(s.line, marks[0]))
  }

  function Apply(s: System, act: Action): System
    requires Enabled(s, act)
  {
    match act
    case Tick(time) => s.(now := time)
    case ReadRow(repo, reading) => s.(calls := s.calls + [Call(repo, reading, CachedOf(s.cache, repo), Begun)])
    case Stamp(i) => SetStage(s, i, Stamped(s.now))
    case Update(i) => DoUpdate(s, i)
    case Finish(i) => DoFinish(s, i)
  }

  predicate Executes(s: System, acts: seq<Action>)
    decreases |acts|
  {
    acts == [] || (Enabled(s, acts[0]) && Executes(Apply(s, acts[0]), acts[1..]))
  }

  function After(s: System, acts: seq<Action>): System
    requires Executes(s, acts)
    decreases |acts|
  {
    if acts == [] then s else After(Apply(s, acts[0]), acts[1..])
  }

  // --- The line of readings ---------------------------------------------------------------------

  predicate Ordered(line: seq<Mark>) {
    forall i, j :: 0 <= i < j < |line| ==> line[i].point.t <= line[j].point.t
  }

  /** All readings of a line. */
  function Points(line: seq<Mark>): seq<Point> {
    if line == [] then [] else Points(line[..|line| - 1]) + [line[|line| - 1].point]
  }

  /** Those that went into the history. */
  function KeptPoints(line: seq<Mark>): seq<Point> {
    if line == [] then []
    else KeptPoints(line[..|line| - 1]) + if line[|line| - 1].kept then [line[|line| - 1].point] else []
  }

  /** Those of one repository. */
  function Of(line: seq<Mark>, repo: RepoId): seq<Mark> {
    if line == [] then []
    else
      var last := line[|line| - 1];
      Of(line[..|line| - 1], repo) + if last.point.repo == repo then [last] else []
  }

  lemma {:induction false} OfMembers(line: seq<Mark>, repo: RepoId, i: nat)
    requires i < |Of(line, repo)|
    ensures Of(line, repo)[i].point.repo == repo && Of(line, repo)[i] in line
  {
    var init := line[..|line| - 1];
    if i < |Of(init, repo)| {
      OfMembers(init, repo, i);
      assert line == init + [line[|line| - 1]];
    }
  }

  /** The size of the last reading. */
  function LastSize(line: seq<Mark>): Option<nat> {
    if line == [] then None else Some(line[|line| - 1].point.size)
  }

  /** The size of the last reading that went into the history. */
  function LastKept(line: seq<Mark>): Option<nat> {
    if line == [] then None
    else if line[|line| - 1].kept then Some(line[|line| - 1].point.size)
    else LastKept(line[..|line| - 1])
  }

  /** At every moment the history shows the size of the latest reading of the repository. */
  ghost predicate Tells(line: seq<Mark>, repo: RepoId) {
    forall n :: 0 <= n <= |Of(line, repo)| ==> LastKept(Of(line, repo)[..n]) == LastSize(Of(line, repo)[..n])
  }

  /** A reading that is left out has the size of the reading of its repository before it in time. */
  predicate Repeats(line: seq<Mark>, repo: RepoId) {
    var own := Of(line, repo);
    forall i :: 0 <= i < |own| && !own[i].kept ==> i > 0 && own[i - 1].point.size == own[i].point.size
  }

  lemma {:induction false} RepeatsTells(own: seq<Mark>, n: nat)
    requires n <= |own| && forall i :: 0 <= i < |own| && !own[i].kept ==> i > 0 && own[i - 1].point.size == own[i].point.size
    ensures LastKept(own[..n]) == LastSize(own[..n])
    decreases n
  {
    if n > 0 {
      assert own[..n][..n - 1] == own[..n - 1];
      RepeatsTells(own, n - 1);
    }
  }

  /** Overlapping or not: nothing is lost exactly if every reading left out repeats the one before it in time. */
  lemma TellsIff(line: seq<Mark>, repo: RepoId)
    ensures Tells(line, repo) <==> Repeats(line, repo)
  {
    var own := Of(line, repo);
    if Repeats(line, repo) {
      forall n | 0 <= n <= |own| ensures LastKept(own[..n]) == LastSize(own[..n]) {
        RepeatsTells(own, n);
      }
    } else {
      var i :| 0 <= i < |own| && !own[i].kept && !(i > 0 && own[i - 1].point.size == own[i].point.size);
      assert own[..i + 1][..i] == own[..i];
      assert LastKept(own[..i + 1]) == LastKept(own[..i]) && LastSize(own[..i + 1]) == Some(own[i].point.size);
      assert LastSize(own[..i]) != LastSize(own[..i + 1]);
    }
  }

  // --- What the chart reads -----------------------------------------------------------------------

  lemma {:induction false} InsertMarkMembers(line: seq<Mark>, m: Mark)
    ensures forall x :: x in InsertMark(line, m) <==> x in line || x == m
  {
    if line != [] && line[|line| - 1].point.t > m.point.t {
      InsertMarkMembers(line[..|line| - 1], m);
      assert line == line[..|line| - 1] + [line[|line| - 1]];
    }
  }

  lemma AppendMark(line: seq<Mark>, m: Mark)
    requires Ordered(line) && forall x :: x in line ==> x.point.t <= m.point.t
    ensures Ordered(line + [m])
  {
  }

  lemma {:induction false} InsertMarkOrders(line: seq<Mark>, m: Mark)
    requires Ordered(line)
    ensures Ordered(InsertMark(line, m))
  {
    if line != [] && line[|line| - 1].point.t > m.point.t {
      var init, last := line[..|line| - 1], line[|line| - 1];
      InsertMarkOrders(init, m);
      InsertMarkMembers(init, m);
      forall x | x in init ensures x.point.t <= last.point.t {
        var i :| 0 <= i < |init| && init[i] == x;
        assert line[i] == x;
      }
      AppendMark(InsertMark(init, m), last);
    } else {
      forall x | x in line ensures x.point.t <= m.point.t {}
      AppendMark(line, m);
    }
  }

  lemma {:induction false} PointsAppend(line: seq<Mark>, m: Mark)
    ensures Points(line + [m]) == Points(line) + [m.point]
    ensures KeptPoints(line + [m]) == KeptPoints(line) + if m.kept then [m.point] else []
  {
    assert (line + [m])[..|line|] == line;
  }

  lemma {:induction false} OfAppend(line: seq<Mark>, m: Mark, repo: RepoId)
    ensures Of(line + [m], repo) == if m.point.repo == repo then Of(line, repo) + [m] else Of(line, repo)
  {
    assert (line + [m])[..|line|] == line;
    assert Of(line, repo) + [] == Of(line, repo);
  }

  lemma {:induction false} InsertIsSort(line: seq<Mark>, m: Mark)
    ensures Points(InsertMark(line, m)) == InsertByTime(Points(line), m.point)
  {
    if line == [] || line[|line| - 1].point.t <= m.point.t {
      PointsAppend(line, m);
    } else {
      var init, last := line[..|line| - 1], line[|line| - 1];
      InsertIsSort(init, m);
      PointsAppend(InsertMark(init, m), last);
      assert Points(line)[..|Points(line)| - 1] == Points(init);
    }
  }

  lemma {:induction false} KeptAreOlder(line: seq<Mark>, t: Time)
    requires forall x :: x in line ==> x.point.t <= t
    ensures forall p :: p in KeptPoints(line) ==> p.t <= t
  {
    if line != [] {
      assert line[|line| - 1] in line;
      KeptAreOlder(line[..|line| - 1], t);
    }
  }

  /** Inserting into the line and then taking the history is taking the history and then inserting. */
  lemma {:induction false} InsertIsSortKept(line: seq<Mark>, m: Mark)
    requires Ordered(line)
    ensures KeptPoints(InsertMark(line, m)) == if m.kept then InsertByTime(KeptPoints(line), m.point) else KeptPoints(line)
  {
    if line == [] || line[|line| - 1].point.t <= m.point.t {
      PointsAppend(line, m);
      forall x | x in line ensures x.point.t <= m.point.t {}
      KeptAreOlder(line, m.point.t);
      AppendedLast(KeptPoints(line), m.point);
    } else {
      var init, last := line[..|line| - 1], line[|line| - 1];
      InsertIsSortKept(init, m);
      PointsAppend(InsertMark(init, m), last);
      InsertBefore(KeptPoints(init), m.point, last.point);
    }
  }

  lemma {:induction false} InsertBefore(points: seq<Point>, p: Point, last: Point)
    requires last.t > p.t
    ensures InsertByTime(points + [last], p) == InsertByTime(points, p) + [last]
    ensures InsertByTime(points + [], p) == InsertByTime(points, p) + []
  {
    assert (points + [last])[..|points|] == points && points + [] == points;
  }

  lemma {:induction false} AppendedLast(points: seq<Point>, p: Point)
    requires forall x :: x in points ==> x.t <= p.t
    ensures InsertByTime(points, p) == points + [p]
  {
    assert points != [] ==> points[|points| - 1] in points;
  }

  /** The table, in the order of time, is what the line says it is. */
  ghost predicate LineOk(s: System) {
    Ordered(s.line) && SortByTime(s.history) == KeptPoints(s.line)
  }

  lemma LineStep(s: System, act: Action)
    requires LineOk(s) && Enabled(s, act)
    ensures LineOk(Apply(s, act))
  {
    if act.Finish? {
      var marks, rows := MarksOf(s.calls[act.index]), RowsOf(s.calls[act.index]);
      if marks != [] {
        InsertMarkOrders(s.line, marks[0]);
        InsertIsSortKept(s.line, marks[0]);
      }
      SortAppend(s.history, rows);
    }
  }

  lemma {:induction false} SortAppend(points: seq<Point>, rows: seq<Point>)
    requires |rows| <= 1
    ensures SortByTime(points + rows) == if rows == [] then SortByTime(points) else InsertByTime(SortByTime(points), rows[0])
  {
    if rows == [] {
      assert points + rows == points;
    } else {
      assert (points + rows)[..|points|] == points;
    }
  }

  lemma {:induction false} LineRun(s: System, acts: seq<Action>)
    requires LineOk(s) && Executes(s, acts)
    ensures LineOk(After(s, acts))
    decreases |acts|
  {
    if acts != [] {
      LineStep(s, acts[0]);
      LineRun(Apply(s, acts[0]), acts[1..]);
    }
  }

  lemma {:induction false} LatestOfLine(line: seq<Mark>, repo: RepoId, at: Time)
    requires Ordered(line) && Of(line, repo) != [] && Of(line, repo)[|Of(line, repo)| - 1].point.t <= at
    ensures LatestAt(Points(line), repo, at) == LastSize(Of(line, repo))
  {
    var init, last := line[..|line| - 1], line[|line| - 1];
    LatestAppend(Points(init), last.point, repo, at);
    if last.point.repo != repo {
      LatestOfLine(init, repo, at);
    }
  }

  /** If readings left out repeat the one before, the history tells every size at every time. */
  lemma {:induction false} RepeatsShows(line: seq<Mark>, repo: RepoId, at: Time)
    requires Ordered(line) && Repeats(line, repo)
    ensures LatestAt(KeptPoints(line), repo, at) == LatestAt(Points(line), repo, at)
  {
    if line != [] {
      var init, last := line[..|line| - 1], line[|line| - 1];
      var own, before := Of(line, repo), Of(init, repo);
      assert forall i :: 0 <= i < |before| ==> own[i] == before[i];
      RepeatsShows(init, repo, at);
      LatestAppend(Points(init), last.point, repo, at);
      LatestAppend(KeptPoints(init), last.point, repo, at);
      if last.point.repo == repo && last.point.t <= at && !last.kept {
        assert own[|before|] == last;
        OfMembers(init, repo, |before| - 1);
        LatestOfLine(init, repo, at);
      }
      assert KeptPoints(init) + [] == KeptPoints(init);
    }
  }

  /**
   The dashboard over every interleaving of recordings: the tooltip shows the sum
   of every visible repository's latest reading, as if all finished readings had
   been kept, provided that each reading left out repeats the one before it.
   */
  method Dashboard(s: System, ghost start: Time, ghost acts: seq<Action>, visible: set<RepoId>, since: Time, now: Time, at: Time)
    returns (shown: Option<nat>)
    requires Executes(NewSystem(start), acts) && s == After(NewSystem(start), acts)
    requires forall repo :: repo in visible ==> Repeats(s.line, repo)
    requires since <= at <= now && forall p :: p in s.history ==> p.t <= now
    ensures shown.None? <==> forall p :: p in s.history ==> p.repo !in visible
    ensures shown.Some? && LatestSizes(Points(s.line), visible, at) != map[] ==>
              shown.value == Total(Points(s.line), visible, at)
  {
    LineRun(NewSystem(start), acts);
    forall repo | repo in visible ensures LatestAt(SortByTime(s.history), repo, at) == LatestAt(Points(s.line), repo, at) {
      RepeatsShows(s.line, repo, at);
    }
    shown := Tooltip(s.history, Points(s.line), visible, since, now, at);
  }

  // --- Calls that do not overlap ----------------------------------------------------------------------

  /** Calls of one repository come one after the other. */
  predicate Apart(s: System, act: Action) {
    act.ReadRow? ==> Free(s.calls, act.repo)
  }

  /** The reading that a call without overlap still loses: empty, after one without a size, see `Masked`. */
  predicate MaskedCall(s: System, act: Action)
    requires Enabled(s, act)
  {
    act.Finish? && var call := s.calls[act.index];
    && MarksOf(call) != [] && RowsOf(call) == [] && call.seen.size.None?
    && LastSize(Of(s.line, call.repo)) != Some(0)
  }

  /** What the columns a call read, or the columns now, say about the latest reading. */
  predicate Knows(line: seq<Mark>, repo: RepoId, cached: Cached) {
    cached.size.Some? ==> cached.at.Some? && LastSize(Of(line, repo)) == cached.size
  }

  /** A call compares with the latest reading, and no reading of its repository is later than it. */
  predicate CallOk(s: System, call: Call) {
    && Knows(s.line, call.repo, call.seen)
    && (call.stage.Updated? || call.seen == CachedOf(s.cache, call.repo))
    && (call.stage.Updated? && call.reading.Unread? ==> Knows(s.line, call.repo, CachedOf(s.cache, call.repo)))
    && (call.stage.Updated? && call.reading.Reading? ==> CachedOf(s.cache, call.repo).size == call.reading.size &&
                                                         CachedOf(s.cache, call.repo).at.Some?)
    && (!call.stage.Begun? ==> call.stage.t <= s.now && forall m :: m in s.line && m.point.repo == call.repo ==> m.point.t <= call.stage.t)
  }

  ghost predicate SerialOk(s: System) {
    && (forall i, j :: 0 <= i < j < |s.calls| ==> s.calls[i].repo != s.calls[j].repo)
    && (forall i :: 0 <= i < |s.calls| ==> CallOk(s, s.calls[i]))
    && (forall m :: m in s.line ==> m.point.t <= s.now)
    && (forall repo :: Free(s.calls, repo) ==> Knows(s.line, repo, CachedOf(s.cache, repo)))
  }

  /** No call of the repository is under way. */
  predicate Free(calls: seq<Call>, repo: RepoId) {
    forall i :: 0 <= i < |calls| ==> calls[i].repo != repo
  }

  lemma {:induction false} OfInsert(line: seq<Mark>, m: Mark, repo: RepoId)
    requires forall x :: x in line && x.point.repo == m.point.repo ==> x.point.t <= m.point.t
    ensures Of(InsertMark(line, m), repo) == if m.point.repo == repo then Of(line, repo) + [m] else Of(line, repo)
  {
    if line == [] || line[|line| - 1].point.t <= m.point.t {
      OfAppend(line, m, repo);
    } else {
      var init, last := line[..|line| - 1], line[|line| - 1];
      assert line == init + [last];
      assert last in line && last.point.repo != m.point.repo;
      forall x | x in init ensures x in line {}
      OfInsert(init, m, repo);
      OfAppend(InsertMark(init, m), last, repo);
      OfAppend(init, last, repo);
    }
  }

  /** What a finished call changes in the line of each repository. */
  lemma {:induction false} FinishedLine(s: System, i: nat, repo: RepoId)
    requires SerialOk(s) && Enabled(s, Finish(i))
    ensures var marks := MarksOf(s.calls[i]);
            Of(DoFinish(s, i).line, repo) == Of(s.line, repo) + if s.calls[i].repo == repo then marks else []
  {
    assert CallOk(s, s.calls[i]);
    var marks := MarksOf(s.calls[i]);
    assert Of(s.line, repo) + [] == Of(s.line, repo);
    if marks != [] {
      OfInsert(s.line, marks[0], repo);
    }
  }

  /** One more reading of the repository: what is left out of the history has to repeat the one before. */
  lemma {:induction false} RepeatsAppend(line: seq<Mark>, line': seq<Mark>, repo: RepoId, m: Mark)
    requires Of(line', repo) == Of(line, repo) + [m] && Repeats(line, repo)
    ensures Repeats(line', repo) <==> m.kept || LastSize(Of(line, repo)) == Some(m.point.size)
  {
    var own, own' := Of(line, repo), Of(line', repo);
    assert own'[|own|] == m && forall i :: 0 <= i < |own| ==> own'[i] == own[i];
  }

  /**
   If calls of one repository do not overlap, a finished call loses its reading
   exactly if that reading is masked.
   */
  lemma FinishLosesIff(s: System, i: nat)
    requires SerialOk(s) && Enabled(s, Finish(i)) && forall repo :: Repeats(s.line, repo)
    ensures (forall repo :: Repeats(DoFinish(s, i).line, repo)) <==> !MaskedCall(s, Finish(i))
  {
    var call, line' := s.calls[i], DoFinish(s, i).line;
    forall repo | repo != call.repo || MarksOf(call) == [] ensures Repeats(line', repo) {
      OtherLines(s, i, repo);
    }
    if MarksOf(call) != [] {
      OwnLine(s, i);
    }
  }

  lemma OtherLines(s: System, i: nat, repo: RepoId)
    requires SerialOk(s) && Enabled(s, Finish(i)) && Repeats(s.line, repo)
    requires repo != s.calls[i].repo || MarksOf(s.calls[i]) == []
    ensures Repeats(DoFinish(s, i).line, repo)
  {
    FinishedLine(s, i, repo);
    assert Of(DoFinish(s, i).line, repo) == Of(s.line, repo);
  }

  lemma OwnLine(s: System, i: nat)
    requires SerialOk(s) && Enabled(s, Finish(i)) && MarksOf(s.calls[i]) != [] && Repeats(s.line, s.calls[i].repo)
    ensures Repeats(DoFinish(s, i).line, s.calls[i].repo) <==> !MaskedCall(s, Finish(i))
  {
    var call := s.calls[i];
    assert CallOk(s, call);
    FinishedLine(s, i, call.repo);
    RepeatsAppend(s.line, DoFinish(s, i).line, call.repo, MarksOf(call)[0]);
  }

  lemma FinishIsSerial(s: System, i: nat)
    requires SerialOk(s) && Enabled(s, Finish(i))
    ensures SerialOk(DoFinish(s, i))
  {
    var s', call := DoFinish(s, i), s.calls[i];
    assert CallOk(s, call);
    forall j | 0 <= j < |s'.calls| ensures s'.calls[j] == s.calls[if j < i then j else j + 1] && s'.calls[j].repo != call.repo {}
    FinishedMarks(s, i);
    forall j | 0 <= j < |s'.calls| ensures CallOk(s', s'.calls[j]) {
      assert CallOk(s, s'.calls[j]);
      FinishedLine(s, i, s'.calls[j].repo);
      assert Of(s.line, s'.calls[j].repo) + [] == Of(s.line, s'.calls[j].repo);
    }
    forall repo | Free(s'.calls, repo) ensures Knows(s'.line, repo, CachedOf(s'.cache, repo)) {
      FinishedLine(s, i, repo);
      if repo != call.repo {
        FreeBefore(s, i, repo);
        assert Of(s.line, repo) + [] == Of(s.line, repo);
      } else if MarksOf(call) == [] {
        assert Of(s.line, repo) + [] == Of(s.line, repo);
      }
    }
  }

  lemma FinishedMarks(s: System, i: nat)
    requires SerialOk(s) && Enabled(s, Finish(i))
    ensures forall m :: m in DoFinish(s, i).line ==> m in s.line || (MarksOf(s.calls[i]) != [] && m == MarksOf(s.calls[i])[0])
  {
    if MarksOf(s.calls[i]) != [] {
      InsertMarkMembers(s.line, MarksOf(s.calls[i])[0]);
    }
  }

  /** A repository without a call after one finished had none before, or it was that one. */
  lemma FreeBefore(s: System, i: nat, repo: RepoId)
    requires i < |s.calls| && s.calls[i].stage.Updated? && s.calls[i].repo != repo
    requires Free(DoFinish(s, i).calls, repo)
    ensures Free(s.calls, repo)
  {
    var calls' := DoFinish(s, i).calls;
    forall j | 0 <= j < |s.calls| && j != i ensures s.calls[j].repo != repo {
      assert s.calls[j] == calls'[if j < i then j else j - 1];
    }
  }

  lemma ReadIsSerial(s: System, repo: RepoId, reading: Reading)
    requires SerialOk(s) && Free(s.calls, repo)
    ensures SerialOk(Apply(s, ReadRow(repo, reading)))
  {
    var s' := Apply(s, ReadRow(repo, reading));
    forall j | 0 <= j < |s'.calls| ensures CallOk(s', s'.calls[j]) {
      assert j < |s.calls| ==> CallOk(s, s.calls[j]);
    }
    forall r | Free(s'.calls, r) ensures Free(s.calls, r) {
      forall j | 0 <= j < |s.calls| ensures s.calls[j].repo != r {
        assert s'.calls[j] == s.calls[j];
      }
    }
  }

  /** A step of one call leaves what is known of the other repositories alone. */
  lemma CallStepIsSerial(s: System, s': System, i: nat)
    requires SerialOk(s) && i < |s.calls| && s'.line == s.line && s'.now == s.now
    requires |s'.calls| == |s.calls| && s'.calls[i].repo == s.calls[i].repo && CallOk(s', s'.calls[i])
    requires forall j :: 0 <= j < |s.calls| && j != i ==> s'.calls[j] == s.calls[j]
    requires forall r :: r != s.calls[i].repo ==> CachedOf(s'.cache, r) == CachedOf(s.cache, r)
    ensures SerialOk(s')
  {
    forall j | 0 <= j < |s'.calls| ensures CallOk(s', s'.calls[j]) {
      if j != i {
        assert CallOk(s, s.calls[j]);
        assert if j < i then s.calls[j].repo != s.calls[i].repo else s.calls[i].repo != s.calls[j].repo;
      }
    }
    forall r | Free(s'.calls, r) ensures Free(s.calls, r) && r != s.calls[i].repo {
      forall j | 0 <= j < |s.calls| ensures s.calls[j].repo != r {
        assert s'.calls[j].repo == s.calls[j].repo;
      }
    }
  }

  lemma OtherStepIsSerial(s: System, act: Action)
    requires SerialOk(s) && Enabled(s, act) && Apart(s, act) && !act.Finish?
    ensures SerialOk(Apply(s, act)) && Apply(s, act).line == s.line
  {
    match act
    case Tick(time) =>
      forall j | 0 <= j < |s.calls| ensures CallOk(Apply(s, act), s.calls[j]) {
        assert CallOk(s, s.calls[j]);
      }
    case ReadRow(repo, reading) => ReadIsSerial(s, repo, reading);
    case Stamp(i) =>
      assert CallOk(s, s.calls[i]);
      CallStepIsSerial(s, Apply(s, act), i);
    case Update(i) =>
      assert CallOk(s, s.calls[i]);
      CallStepIsSerial(s, Apply(s, act), i);
  }

  /** A schedule in which calls of one repository do not overlap. */
  predicate AllApart(s: System, acts: seq<Action>)
    requires Executes(s, acts)
    decreases |acts|
  {
    acts == [] || (Apart(s, acts[0]) && AllApart(Apply(s, acts[0]), acts[1..]))
  }

  predicate NoneMaskedCall(s: System, acts: seq<Action>)
    requires Executes(s, acts)
    decreases |acts|
  {
    acts == [] || (!MaskedCall(s, acts[0]) && NoneMaskedCall(Apply(s, acts[0]), acts[1..]))
  }

  /** At every moment of the schedule the history tells all sizes. */
  ghost predicate AlwaysRepeats(s: System, acts: seq<Action>)
    requires Executes(s, acts)
    decreases |acts|
  {
    (forall repo :: Repeats(s.line, repo)) && (acts == [] || AlwaysRepeats(Apply(s, acts[0]), acts[1..]))
  }

  /**
   Without overlapping calls of one repository, the history tells every size all
   the time if and only if no reading is masked.
   */
  lemma {:induction false} ApartLosslessIff(s: System, acts: seq<Action>)
    requires SerialOk(s) && Executes(s, acts) && AllApart(s, acts) && forall repo :: Repeats(s.line, repo)
    ensures AlwaysRepeats(s, acts) <==> NoneMaskedCall(s, acts)
    decreases |acts|
  {
    if acts != [] {
      var s1 := Apply(s, acts[0]);
      if acts[0].Finish? {
        FinishLosesIff(s, acts[0].index);
        FinishIsSerial(s, acts[0].index);
      } else {
        OtherStepIsSerial(s, acts[0]);
      }
      if forall repo :: Repeats(s1.line, repo) {
        ApartLosslessIff(s1, acts[1..]);
      } else {
        assert !AlwaysRepeats(s1, acts[1..]);
      }
    }
  }

  /** In particular from the start. */
  lemma {:induction false} ApartRunsLosslessIff(start: Time, acts: seq<Action>)
    requires Executes(NewSystem(start), acts) && AllApart(NewSystem(start), acts)
    ensures AlwaysRepeats(NewSystem(start), acts) <==> NoneMaskedCall(NewSystem(start), acts)
  {
    ApartLosslessIff(NewSystem(start), acts);
  }

  // --- Uninterrupted, and overlapping ---------------------------------------------------------------------

  lemma {:induction false} OneStep(s: System, act: Action)
    requires Enabled(s, act)
    ensures Executes(s, [act]) && After(s, [act]) == Apply(s, act)
  {
    assert [act][1..] == [];
    assert Executes(Apply(s, act), []);
  }

  lemma {:induction false} Concat(s: System, acts: seq<Action>, more: seq<Action>)
    requires Executes(s, acts) && Executes(After(s, acts), more)
    ensures Executes(s, acts + more) && After(s, acts + more) == After(After(s, acts), more)
    decreases |acts|
  {
    if acts == [] {
      assert acts + more == more;
    } else {
      Concat(Apply(s, acts[0]), acts[1..], more);
      assert (acts + more)[1..] == acts[1..] + more;
    }
  }

  lemma {:induction false} ThenStep(s: System, acts: seq<Action>, act: Action)
    requires Executes(s, acts) && Enabled(After(s, acts), act)
    ensures Executes(s, acts + [act]) && After(s, acts + [act]) == Apply(After(s, acts), act)
  {
    OneStep(After(s, acts), act);
    Concat(s, acts, [act]);
  }

  /** The state after a call under way went through its last three steps. */
  function Completed(s: System, i: nat): System
    requires i < |s.calls|
  {
    var call := s.calls[i].(stage := Updated(s.now));
    var marks := MarksOf(call);
    s.(cache := s.cache[call.repo := NextCached(CachedOf(s.cache, call.repo), call.reading, s.now)],
       calls := s.calls[..i] + s.calls[i + 1..],
       history := s.history + RowsOf(call),
       line := if marks == [] then s.line else InsertMark(s.line, marks[0]))
  }

  lemma Completes(s: System, i: nat) returns (acts: seq<Action>)
    requires i < |s.calls| && s.calls[i].stage.Begun?
    ensures Executes(s, acts) && After(s, acts) == Completed(s, i)
  {
    OneStep(s, Stamp(i));
    ThenStep(s, [Stamp(i)], Update(i));
    ThenStep(s, [Stamp(i)] + [Update(i)], Finish(i));
    acts := [Stamp(i)] + [Update(i)] + [Finish(i)];
    var s2 := After(s, [Stamp(i)] + [Update(i)]);
    assert s2.calls[i] == s.calls[i].(stage := Updated(s.now));
    assert s2.calls[..i] + s2.calls[i + 1..] == s.calls[..i] + s.calls[i + 1..];
  }

  /** Without steps of others in between, a call does what `RecordStats` does. */
  lemma RecordIsSchedule(s: System, repo: RepoId, reading: Reading) returns (acts: seq<Action>)
    ensures Executes(s, acts)
    ensures var s', r := After(s, acts), Record(State(s.cache, s.history), Event(repo, s.now, reading));
            s'.cache == r.cache && s'.history == r.history && s'.calls == s.calls && s'.now == s.now
    ensures var call := Call(repo, reading, CachedOf(s.cache, repo), Updated(s.now));
            After(s, acts).line == if MarksOf(call) == [] then s.line else InsertMark(s.line, MarksOf(call)[0])
  {
    var n, s1 := |s.calls|, Apply(s, ReadRow(repo, reading));
    OneStep(s, ReadRow(repo, reading));
    var rest := Completes(s1, n);
    Concat(s, [ReadRow(repo, reading)], rest);
    acts := [ReadRow(repo, reading)] + rest;
    assert s1.calls[..n] + s1.calls[n + 1..] == s.calls;
  }

  /**
   Overlapping calls do lose readings: with 5 in the columns, two calls read
   them, one records 7 and the other then 5. It sees no change, and the history
   goes on showing 7. All readings carry a size and none is masked.
   */
  lemma OverlapLosesReading() returns (acts: seq<Action>)
    ensures Executes(NewSystem(1), acts)
    ensures var s := After(NewSystem(1), acts);
            && s.calls == [] && s.history == [Point(0, 1, 5), Point(0, 2, 7)]
            && Points(s.line) == [Point(0, 1, 5), Point(0, 2, 7), Point(0, 3, 5)] && !Repeats(s.line, 0)
            && LatestAt(SortByTime(s.history), 0, 3) == Some(7) && LatestAt(Points(s.line), 0, 3) == Some(5)
  {
    var s0, five, seven := NewSystem(1), Reading(Some(5), Some(1)), Reading(Some(7), Some(1));
    acts := RecordIsSchedule(s0, 0, five);
    acts := BothRead(s0, acts, five, seven);
    var s2 := After(s0, acts);
    var second := Completes(s2, 0);
    Concat(s0, acts, second);
    acts := acts + second;
    ThenStep(s0, acts, Tick(3));
    acts := acts + [Tick(3)];
    var s3 := After(s0, acts);
    var third := Completes(s3, 0);
    Concat(s0, acts, third);
    acts := acts + third;
    var s := After(s0, acts);
    LostLine(s);
  }

  lemma BothRead(s0: System, acts: seq<Action>, five: Reading, seven: Reading) returns (more: seq<Action>)
    requires Executes(s0, acts) && After(s0, acts).now <= 2
    ensures Executes(s0, more)
    ensures var s := After(s0, acts);
            After(s0, more) == s.(now := 2, calls := s.calls + [Call(0, seven, CachedOf(s.cache, 0), Begun)] +
                                                              [Call(0, five, CachedOf(s.cache, 0), Begun)])
  {
    ThenStep(s0, acts, Tick(2));
    ThenStep(s0, acts + [Tick(2)], ReadRow(0, seven));
    ThenStep(s0, acts + [Tick(2)] + [ReadRow(0, seven)], ReadRow(0, five));
    more := acts + [Tick(2)] + [ReadRow(0, seven)] + [ReadRow(0, five)];
  }

  lemma LostLine(s: System)
    requires s.history == [Point(0, 1, 5), Point(0, 2, 7)]
    requires s.line == [Mark(Point(0, 1, 5), true), Mark(Point(0, 2, 7), true), Mark(Point(0, 3, 5), false)]
    ensures Points(s.line) == [Point(0, 1, 5), Point(0, 2, 7), Point(0, 3, 5)] && !Repeats(s.line, 0)
    ensures LatestAt(SortByTime(s.history), 0, 3) == Some(7) && LatestAt(Points(s.line), 0, 3) == Some(5)
  {
    var a, b, c := s.line[0], s.line[1], s.line[2];
    ThreeMarks(a, b, c);
    assert s.line == [a, b, c] && !Of(s.line, 0)[2].kept;
    SortLeavesSorted(s.history);
    LatestAppend([a.point], b.point, 0, 3);
    LatestAppend([a.point, b.point], c.point, 0, 3);
    assert [a.point] + [b.point] == s.history && [a.point, b.point] + [c.point] == Points(s.line);
  }

  lemma ThreeMarks(a: Mark, b: Mark, c: Mark)
    requires a.point.repo == b.point.repo == c.point.repo
    ensures Points([a, b, c]) == [a.point, b.point, c.point] && Of([a, b, c], a.point.repo) == [a, b, c]
  {
    OneMark(a);
    assert [a] + [b] == [a, b] && [a, b] + [c] == [a, b, c];
    PointsAppend([a], b);
    PointsAppend([a, b], c);
    OfAppend([a], b, a.point.repo);
    OfAppend([a, b], c, a.point.repo);
  }

  lemma OneMark(a: Mark)
    ensures Points([a]) == [a.point] && Of([a], a.point.repo) == [a]
  {
    assert [] + [a] == [a];
    PointsAppend([], a);
    OfAppend([], a, a.point.repo);
  }
}
