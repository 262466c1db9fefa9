/**
 Repository size readings: how they are cached and turned into a history that
 only keeps changes (server/src/repositories/repositories.service.ts,
 recordStats), and what that history still tells about the size at any time.
 */
module StorageHistory {
  import opened Wrappers

  type RepoId = nat
  type Time = int

  /** A stored reading of one repository. */
  datatype Point = Point(repo: RepoId, t: Time, size: nat)

  /** What restic (or an agent) reported; the size itself may be missing. */
  datatype Reading = Unread | Reading(size: Option<nat>, count: Option<nat>)

  /** The cached columns of a repository; `at` is when they were last written. */
  datatype Cached = Cached(size: Option<nat>, count: Option<nat>, at: Option<Time>, failing: bool)

  /** A reading of a repository at a time. */
  datatype Event = Event(repo: RepoId, t: Time, reading: Reading)

  const BLANK := Cached(None, None, None, false)

  /** The latest size of a repository at or before `at`, in a sequence ordered by time. */
  function LatestAt(points: seq<Point>, repo: RepoId, at: Time): Option<nat> {
    if points == [] then None
    else
      var last := points[|points| - 1];
      if last.repo == repo && last.t <= at then Some(last.size) else LatestAt(points[..|points| - 1], repo, at)
  }

  lemma {:induction false} LatestAppend(points: seq<Point>, p: Point, repo: RepoId, at: Time)
    ensures LatestAt(points + [p], repo, at) ==
            if p.repo == repo && p.t <= at then Some(p.size) else LatestAt(points, repo, at)
  {
  }

  /** JavaScript's `Number` of a bigint column: a missing size counts as 0. */
  function NumberOf(size: Option<nat>): nat {
    if size.Some? then size.value else 0
  }

  predicate Changed(cached: Cached, size: nat, count: Option<nat>) {
    cached.at.None? || NumberOf(cached.size) != size || cached.count != count
  }

  function CachedOf(cache: map<RepoId, Cached>, repo: RepoId): Cached {
    if repo in cache then cache[repo] else BLANK
  }

  /** The cached columns after a reading. A failed one keeps the figures. */
  function NextCached(cached: Cached, reading: Reading, now: Time): Cached {
    match reading
    case Unread => cached.(failing := true)
    case Reading(size, count) => Cached(size, count, Some(now), false)
  }

  /** The history row a reading adds, if any. */
  function NewRows(cached: Cached, repo: RepoId, reading: Reading, now: Time): seq<Point> {
    if reading.Reading? && reading.size.Some? && Changed(cached, reading.size.value, reading.count)
    then [Point(repo, now, reading.size.value)]
    else []
  }

  /** The statistics store: cached columns per repository and the history table. */
  class StatsStore {
    var cache: map<RepoId, Cached>
    var history: seq<Point>

    constructor ()
      ensures cache == map[] && history == []
    {
      cache, history := map[], [];
    }

    method RecordStats(repo: RepoId, reading: Reading, now: Time)
      modifies this
      ensures cache == old(cache)[repo := NextCached(CachedOf(old(cache), repo), reading, now)]
      ensures history == old(history) + NewRows(CachedOf(old(cache), repo), repo, reading, now)
      // History is added exactly for a size that is the first, or differs from the cached one in size or snapshot count.
      ensures var before := if repo in old(cache) then old(cache)[repo] else Cached(None, None, None, false);
              history == if reading.Reading? && reading.size.Some? &&
                            !(before.at.Some? && before.count == reading.count &&
                              (before.size == reading.size || (before.size.None? && reading.size == Some(0))))
                         then old(history) + [Point(repo, now, reading.size.value)] else old(history)
      ensures reading.Reading? ==>
                cache[repo].size == reading.size && cache[repo].count == reading.count && cache[repo].at == Some(now) && !cache[repo].failing
      ensures forall r :: r != repo ==> (r in cache <==> r in old(cache)) && (r in cache ==> cache[r] == old(cache)[r])
      // A failed reading changes no figure.
      ensures reading.Unread? ==>
                && history == old(history) && cache[repo].failing
                && (repo in old(cache) ==>
                      cache[repo].size == old(cache)[repo].size && cache[repo].count == old(cache)[repo].count &&
                      cache[repo].at == old(cache)[repo].at)
    {
      var before := if repo in cache then cache[repo] else BLANK;
      if reading.Unread? {
        cache := cache[repo := before.(failing := true)];
        return;
      }
      cache := cache[repo := Cached(reading.size, reading.count, Some(now), false)];
      var changed := before.at.None? || reading.size.None? || NumberOf(before.size) != reading.size.value ||
                     before.count != reading.count;
      if changed && reading.size.Some? {
        history := history + [Point(repo, now, reading.size.value)];
      }
    }
  }

  // --- Deduplication ------------------------------------------------------------------

  datatype State = State(cache: map<RepoId, Cached>, history: seq<Point>)

  function Record(s: State, e: Event): State {
    var cached := CachedOf(s.cache, e.repo);
    State(s.cache[e.repo := NextCached(cached, e.reading, e.t)], s.history + NewRows(cached, e.repo, e.reading, e.t))
  }

  /** All readings recorded in turn. */
  function RecordAll(events: seq<Event>): State {
    if events == [] then State(map[], [])
    else Record(RecordAll(events[..|events| - 1]), events[|events| - 1])
  }

  /** Keeping every reading that carries a size. */
  function KeepAll(events: seq<Event>): seq<Point> {
    if events == [] then []
    else Kept(KeepAll(events[..|events| - 1]), events[|events| - 1])
  }

  /** All readings, with the one of `e` added if it carries a size. */
  function Kept(all: seq<Point>, e: Event): seq<Point> {
    if e.reading.Reading? && e.reading.size.Some? then all + [Point(e.repo, e.t, e.reading.size.value)] else all
  }

  predicate InTimeOrder(events: seq<Event>) {
    forall i, j :: 0 <= i < j < |events| ==> events[i].t <= events[j].t
  }

  /**
   The one reading the history misses: an empty repository right after a reading
   without a size, with the same snapshot count, while the history shows
   another size. `Number(null)` is 0, so it looks unchanged.
   */
  predicate Masked(s: State, e: Event) {
    var cached := CachedOf(s.cache, e.repo);
    && e.reading.Reading? && e.reading.size == Some(0)
    && cached.at.Some? && cached.size.None? && cached.count == e.reading.count
    && LatestAt(s.history, e.repo, e.t) != Some(0)
  }

  predicate NoneMasked(events: seq<Event>) {
    forall n :: 0 <= n < |events| ==> !Masked(RecordAll(events[..n]), events[n])
  }

  /** The change-only history and the full one agree on every repository's size at every time. */
  ghost predicate SameSizes(history: seq<Point>, all: seq<Point>) {
    forall repo, at :: LatestAt(history, repo, at) == LatestAt(all, repo, at)
  }

  /** What the cache says about the readings so far. */
  ghost predicate CacheOk(s: State, all: seq<Point>, now: Time) {
    && (forall p :: p in all ==> p.t <= now)
    && (forall p :: p in s.history ==> p.t <= now)
    && (forall repo :: CachedOf(s.cache, repo).size.Some? ==>
          CachedOf(s.cache, repo).at.Some? && LatestAt(all, repo, now) == CachedOf(s.cache, repo).size)
  }

  /** The latest size is the same at all times after the last reading. */
  lemma {:induction false} LatestLater(points: seq<Point>, repo: RepoId, now: Time, at: Time)
    requires now <= at && forall p :: p in points ==> p.t <= now
    ensures LatestAt(points, repo, at) == LatestAt(points, repo, now)
  {
    if points != [] {
      assert points[|points| - 1] in points;
      LatestLater(points[..|points| - 1], repo, now, at);
    }
  }

  lemma CacheStep(s: State, all: seq<Point>, e: Event, before: Time)
    requires CacheOk(s, all, before) && before <= e.t
    ensures CacheOk(Record(s, e), Kept(all, e), e.t)
  {
    var s', all' := Record(s, e), Kept(all, e);
    forall repo | CachedOf(s'.cache, repo).size.Some?
      ensures CachedOf(s'.cache, repo).at.Some? && LatestAt(all', repo, e.t) == CachedOf(s'.cache, repo).size
    {
      LatestLater(all, repo, before, e.t);
      if all' != all {
        LatestAppend(all, all'[|all|], repo, e.t);
      }
    }
  }

  lemma SizesStep(s: State, all: seq<Point>, e: Event, before: Time)
    requires CacheOk(s, all, before) && before <= e.t && SameSizes(s.history, all)
    ensures SameSizes(Record(s, e).history, Kept(all, e)) <==> !Masked(s, e)
  {
    var s' := Record(s, e);
    if e.reading.Reading? && e.reading.size.Some? {
      var p := Point(e.repo, e.t, e.reading.size.value);
      if Changed(CachedOf(s.cache, e.repo), p.size, e.reading.count) {
        forall repo, at ensures LatestAt(s.history + [p], repo, at) == LatestAt(all + [p], repo, at) {
          LatestAppend(s.history, p, repo, at);
          LatestAppend(all, p, repo, at);
        }
      } else {
        assert s'.history == s.history;
        UnchangedReading(s, all, e, before);
      }
    } else {
      assert s'.history == s.history;
    }
  }

  lemma UnchangedReading(s: State, all: seq<Point>, e: Event, before: Time)
    requires CacheOk(s, all, before) && before <= e.t && SameSizes(s.history, all)
    requires e.reading.Reading? && e.reading.size.Some?
    requires !Changed(CachedOf(s.cache, e.repo), e.reading.size.value, e.reading.count)
    ensures SameSizes(s.history, all + [Point(e.repo, e.t, e.reading.size.value)]) <==> !Masked(s, e)
  {
    var p := Point(e.repo, e.t, e.reading.size.value);
    LatestLater(all, e.repo, before, e.t);
    LatestAppend(all, p, e.repo, e.t);
    assert Masked(s, e) <==> LatestAt(all, e.repo, e.t) != Some(p.size);
    if !Masked(s, e) {
      forall repo, at ensures LatestAt(s.history, repo, at) == LatestAt(all + [p], repo, at) {
        LatestAppend(all, p, repo, at);
        if p.repo == repo && p.t <= at {
          LatestLater(all, repo, e.t, at);
        }
      }
    } else {
      assert LatestAt(s.history, e.repo, e.t) != LatestAt(all + [p], e.repo, e.t);
    }
  }

  function LastTime(events: seq<Event>, from: Time): Time {
    if events == [] then from else events[|events| - 1].t
  }

  lemma {:induction false} RecordRun(events: seq<Event>, from: Time)
    requires InTimeOrder(events) && NoneMasked(events) && (events != [] ==> from <= events[0].t)
    ensures CacheOk(RecordAll(events), KeepAll(events), LastTime(events, from))
    ensures SameSizes(RecordAll(events).history, KeepAll(events))
    decreases |events|
  {
    if events != [] {
      var init := events[..|events| - 1];
      assert NoneMasked(init) by {
        forall n | 0 <= n < |init| ensures !Masked(RecordAll(init[..n]), init[n]) {
          assert init[..n] == events[..n] && init[n] == events[n];
        }
      }
      RecordRun(init, from);
      assert !Masked(RecordAll(events[..|events| - 1]), events[|events| - 1]);
      CacheStep(RecordAll(init), KeepAll(init), events[|events| - 1], LastTime(init, from));
      SizesStep(RecordAll(init), KeepAll(init), events[|events| - 1], LastTime(init, from));
    }
  }

  /**
   Deduplication is lossless exactly as long as no reading is masked: the
   change-only history then gives, after every prefix of the readings, the same
   size of every repository at every time as keeping all of them.
   */
  lemma DeduplicationLosslessIff(events: seq<Event>)
    requires InTimeOrder(events)
    ensures NoneMasked(events) <==>
            forall n :: 0 <= n <= |events| ==> SameSizes(RecordAll(events[..n]).history, KeepAll(events[..n]))
  {
    if NoneMasked(events) {
      forall n | 0 <= n <= |events| ensures SameSizes(RecordAll(events[..n]).history, KeepAll(events[..n])) {
        PrefixNoneMasked(events, n);
        RecordRun(events[..n], if events == [] then 0 else events[0].t);
      }
    } else {
      var n := FirstMasked(events);
      MaskedReadingIsLost(events, n);
    }
  }

  /** Right after a masked reading, the first one, the two histories differ. */
  lemma MaskedReadingIsLost(events: seq<Event>, n: nat)
    requires InTimeOrder(events) && n < |events| && NoneMasked(events[..n]) && Masked(RecordAll(events[..n]), events[n])
    ensures !SameSizes(RecordAll(events[..n + 1]).history, KeepAll(events[..n + 1]))
  {
    var init, e, from := events[..n], events[n], events[0].t;
    RecordRun(init, from);
    SizesStep(RecordAll(init), KeepAll(init), e, LastTime(init, from));
    assert events[..n + 1][..n] == init && events[..n + 1][n] == e;
  }

  lemma PrefixNoneMasked(events: seq<Event>, n: nat)
    requires n <= |events| && NoneMasked(events)
    ensures NoneMasked(events[..n])
  {
    forall m | 0 <= m < n ensures !Masked(RecordAll(events[..n][..m]), events[..n][m]) {
      assert events[..n][..m] == events[..m];
    }
  }

  lemma {:induction false} FirstMasked(events: seq<Event>) returns (n: nat)
    requires !NoneMasked(events)
    ensures n < |events| && Masked(RecordAll(events[..n]), events[n]) && NoneMasked(events[..n])
    decreases |events|
  {
    n :| 0 <= n < |events| && Masked(RecordAll(events[..n]), events[n]);
    if !NoneMasked(events[..n]) {
      var m := FirstMasked(events[..n]);
      assert events[..n][..m] == events[..m];
      n := m;
    }
  }

  /** Readings that all carry a size, or failed altogether, are never masked. */
  lemma {:induction false} SizedReadingsAreKept(events: seq<Event>)
    requires InTimeOrder(events)
    requires forall i :: 0 <= i < |events| && events[i].reading.Reading? ==> events[i].reading.size.Some?
    ensures SameSizes(RecordAll(events).history, KeepAll(events))
  {
    forall n | 0 <= n < |events| ensures !Masked(RecordAll(events[..n]), events[n]) {
      SizedCache(events[..n], events[n].repo);
    }
    RecordRun(events, if events == [] then 0 else events[0].t);
  }

  lemma {:induction false} SizedCache(events: seq<Event>, repo: RepoId)
    requires forall i :: 0 <= i < |events| && events[i].reading.Reading? ==> events[i].reading.size.Some?
    ensures var c := CachedOf(RecordAll(events).cache, repo); c.at.Some? ==> c.size.Some?
    decreases |events|
  {
    if events != [] {
      var init := events[..|events| - 1];
      assert forall i :: 0 <= i < |init| ==> init[i] == events[i];
      SizedCache(init, repo);
    }
  }

  /** It does happen: a size of 5, a reading without a size, then an empty repository, all with one snapshot. */
  lemma MaskedReadingExists()
    ensures var events := [Event(0, 1, Reading(Some(5), Some(1))), Event(0, 2, Reading(None, Some(1))),
                           Event(0, 3, Reading(Some(0), Some(1)))];
            InTimeOrder(events) && Masked(RecordAll(events[..2]), events[2])
  {
    var events := [Event(0, 1, Reading(Some(5), Some(1))), Event(0, 2, Reading(None, Some(1))),
                   Event(0, 3, Reading(Some(0), Some(1)))];
    assert events[..2][..1] == [events[0]] && [events[0]][..0] == [];
    var s0 := RecordAll([]);
    var s1 := Record(s0, events[0]);
    assert RecordAll([events[0]]) == s1;
    assert RecordAll(events[..2]) == Record(s1, events[1]);
    assert s1.history == [Point(0, 1, 5)];
  }
}
