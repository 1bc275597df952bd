/** One search over both tiers, and the report built on it.  */
module Search {
  import opened Prelude
  import opened ColdSearch
  import opened Paging

  // ---- which archived days, and whether to read them at all ----

  datatype Filter = Filter(from: Option<int>, to: Option<int>)

  // A day covers [d * 86400, (d + 1) * 86400).
  predicate Overlaps(d: Day, f: Filter) {
    && (f.from.Some? ==> (d + 1) * 86400 > f.from.value)
    && (f.to.Some? ==> d * 86400 <= f.to.value)
  }

  predicate InDay(d: Day, t: int) { d * 86400 <= t < (d + 1) * 86400 }

  predicate InWindow(f: Filter, t: int) { (f.from.Some? ==> f.from.value <= t) && (f.to.Some? ==> t <= f.to.value) }

  // Some moment of the day lies in the window.
  lemma OverlapsIff(d: Day, f: Filter)
    requires f.from.Some? && f.to.Some? ==> f.from.value <= f.to.value
    ensures Overlaps(d, f) <==> exists t :: InDay(d, t) && InWindow(f, t)
  {
    if Overlaps(d, f) {
      var start := d * DAY_SECONDS;
      var t := if f.from.Some? && f.from.value > start then f.from.value else start;
      assert InDay(d, t) && InWindow(f, t);
    }
  }

  function Pick(days: seq<Day>, want: Day -> bool): seq<Day> {
    if days == [] then []
    else Pick(days[..|days| - 1], want) + if want(days[|days| - 1]) then [days[|days| - 1]] else []
  }

  predicate Distinct(days: seq<Day>) { forall i, j | 0 <= i < j < |days| :: days[i] != days[j] }

  lemma {:induction false} Picked(days: seq<Day>, want: Day -> bool)
    ensures forall d :: d in Pick(days, want) <==> d in days && want(d)
    ensures Distinct(days) ==> Distinct(Pick(days, want))
    decreases |days|
  {
    if days != [] {
      var n := |days| - 1;
      Picked(days[..n], want);
      assert days == days[..n] + [days[n]];
    }
  }

  function Wanted(inHot: set<Day>, f: Filter): Day -> bool { (d: Day) => d !in inHot && Overlaps(d, f) }

  // Days still served from hot storage would count twice.
  method SelectArchivedDays(archived: seq<Day>, inHot: set<Day>, f: Filter) returns (out: seq<Day>)
    ensures out == Pick(archived, Wanted(inHot, f))
  {
    out := [];
    for i := 0 to |archived|
      invariant out == Pick(archived[..i], Wanted(inHot, f))
    {
      assert archived[..i + 1][..i] == archived[..i];
      if archived[i] !in inHot && Overlaps(archived[i], f) { out := out + [archived[i]]; }
    }
    assert archived[..|archived|] == archived;
  }

  const LIST_LIMIT := 4000

  // The days that a search reads from the archive if it reads it at all.  The list is cut to the newest
  // days; without it no day is read, and without the counts no day counts as hot.
  function DaysRead(archived: seq<Day>, hotDays: set<Day>, f: Filter, listFails: bool, countsFail: bool): seq<Day> {
    if listFails then [] else Pick(Take(LIST_LIMIT, archived), Wanted(if countsFail then {} else hotDays, f))
  }

  method ArchivedDaysInRange(archived: seq<Day>, hotDays: set<Day>, f: Filter, listFails: bool, countsFail: bool)
      returns (days: seq<Day>)
    ensures days == DaysRead(archived, hotDays, f, listFails, countsFail)
    ensures forall d :: d in days <==> !listFails && d in archived[..Min(4000, |archived|)]
                                       && (countsFail || d !in hotDays) && Overlaps(d, f)
  {
    if !listFails { Picked(Take(LIST_LIMIT, archived), Wanted(if countsFail then {} else hotDays, f)); }
    var listed := Take(LIST_LIMIT, archived);
    if listFails || listed == [] { return []; }
    var inHot := if countsFail then {} else hotDays;
    days := SelectArchivedDays(listed, inHot, f);
  }

  predicate Ordered(f: Filter) { f.from.Some? && f.to.Some? ==> f.from.value <= f.to.value }

  predicate Bounded(f: Filter) { f.from.Some? && f.to.Some? }

  // With an archive to search, a window must not end before it begins, and if it overlaps an archived day it must
  // have both ends or none.
  predicate Refuses(enabled: bool, f: Filter, days: seq<Day>) {
    enabled && (!Ordered(f) || (days != [] && (f.from.Some? <==> f.to == None)))
  }

  datatype Plan = UseCold | HotOnly | BadRange | NeedBoth

  function PlanColdSearch(f: Filter, days: seq<Day>, hotTotal: nat): Plan {
    if f.from.Some? && f.to.Some? && f.from.value > f.to.value then BadRange
    else if days == [] then HotOnly
    else if f.from == None && f.to == None then HotOnly
    else if f.from == None || f.to == None then NeedBoth
    else if hotTotal >= COUNT_CAP then HotOnly
    else UseCold
  }

  // ---- one page ----

  // Which of the hot reads of a search fail.
  datatype Reads = Reads(count: bool, page: bool, window: bool)

  datatype Outcome = Error | Found(rows: seq<Record>, total: nat, cold: bool, capped: bool)

  function Min(a: nat, b: nat): nat { if a < b then a else b }

  function Slice<T>(s: seq<T>, offset: nat, limit: nat): seq<T> {
    if offset >= |s| then [] else s[offset..Min(offset + limit, |s|)]
  }

  // How much of each tier is read: what the page needs, and within 5000 and 100001.
  function WindowOf(limit: nat, offset: nat): (w: nat)
    ensures w == if limit + offset > 100_001 then 100_001 else if limit + offset < 5000 then 5000 else limit + offset
  {
    var w := if limit + offset < SEARCH_LIMIT then SEARCH_LIMIT else limit + offset;
    Min(w, COUNT_CAP + 1)
  }

  // `part` is `whole` from the offset on, at most `limit` of it.
  predicate Page<T(==)>(part: seq<T>, whole: seq<T>, offset: nat, limit: nat) {
    && |part| == (if offset >= |whole| then 0 else if limit <= |whole| - offset then limit else |whole| - offset)
    && forall k | 0 <= k < |part| :: part[k] == whole[offset + k]
  }

  lemma SliceIsPage<T>(s: seq<T>, offset: nat, limit: nat, part: seq<T>)
    ensures Page(part, s, offset, limit) <==> part == Slice(s, offset, limit)
  {
  }

  lemma SliceLength<T>(s: seq<T>, offset: nat, limit: nat)
    ensures |Slice(s, offset, limit)| == if offset >= |s| then 0 else Min(limit, |s| - offset)
    ensures offset == 0 && |s| <= limit ==> Slice(s, offset, limit) == s
  {
  }

  lemma SliceOfTake<T>(s: seq<T>, w: nat, offset: nat, limit: nat)
    requires offset + limit <= w
    ensures Slice(Take(w, s), offset, limit) == Slice(s, offset, limit)
  {
    var a, b := Slice(Take(w, s), offset, limit), Slice(s, offset, limit);
    SliceLength(Take(w, s), offset, limit);
    SliceLength(s, offset, limit);
    assert forall i | 0 <= i < |a| :: a[i] == Take(w, s)[offset + i] == s[offset + i] == b[i];
  }

  lemma SliceTake<T>(a: seq<T>, b: seq<T>, w: nat, offset: nat, limit: nat)
    requires offset + limit <= w && Take(w, a) == Take(w, b)
    ensures Slice(a, offset, limit) == Slice(b, offset, limit)
  {
    SliceOfTake(a, w, offset, limit);
    SliceOfTake(b, w, offset, limit);
  }

  lemma TimesSlice(s: seq<Record>, offset: nat, limit: nat)
    ensures Times(Slice(s, offset, limit)) == Slice(Times(s), offset, limit)
  {
  }

  // The page has the times it would have in any arrangement of everything.
  ghost predicate PageOf(rows: seq<Record>, everything: multiset<Record>, offset: nat, limit: nat) {
    forall full | multiset(full) == everything && Descending(Times(full)) ::
      Page(Times(rows), Times(full), offset, limit)
  }

  lemma PageFound(w: nat, hot: seq<Record>, cold: seq<Record>, merged: seq<Record>, offset: nat, limit: nat,
                  rows: seq<Record>)
    requires Descending(Times(hot)) && Descending(Times(cold)) && Arranged(merged, Take(w, hot) + Take(w, cold))
    requires offset + limit <= w && rows == Slice(merged, offset, limit)
    ensures PageOf(rows, multiset(hot + cold), offset, limit)
  {
    forall full | multiset(full) == multiset(hot + cold) && Descending(Times(full))
      ensures Page(Times(rows), Times(full), offset, limit)
    {
      WindowSame(w, hot, cold, merged, full);
      SliceTake(Times(merged), Times(full), w, offset, limit);
      TimesSlice(merged, offset, limit);
      SliceIsPage(Times(full), offset, limit, Times(rows));
    }
  }

  // sort.Slice on the records' times.
  method SortByTime(s: seq<Record>) returns (r: seq<Record>)
    ensures Arranged(r, s)
  {
    var key := (x: Record) => x.time;
    r := Sort(s, key);
    assert forall i | 0 <= i < |r| :: key(r[i]) == Times(r)[i];
  }

  // The hot rows that match, newest first, and the archived days to consider.  `found` is what both
  // tiers hold.
  method SearchDays(hot: seq<Record>, days: seq<Day>, query: Query, enabled: bool, f: Filter, limit: nat,
                    offset: nat, fails: Reads, ghost rows: Rows)
    returns (out: Outcome, ordered: seq<Day>)
    requires Honest(query, rows) && Descending(Times(hot))
    ensures out.Found? && !out.cold ==>
      Page(out.rows, hot, offset, limit) && out.total == Min(|hot|, COUNT_CAP)
        && (out.capped <==> |hot| >= COUNT_CAP)
    ensures out.Found? ==> (out.cold <==> enabled && days != [] && Bounded(f) && |hot| < COUNT_CAP)
    ensures Refuses(enabled, f, days) ==> out.Error?
    ensures !Refuses(enabled, f, days) && !fails.count && !fails.page
            && !(enabled && days != [] && Bounded(f) && |hot| < COUNT_CAP) ==>
      out.Found?
    ensures out.Found? && out.cold ==> Newest(ordered) && multiset(ordered) == multiset(days)
    ensures out.Found? && out.cold && !out.capped ==> out.total == |hot + AllRows(rows, ordered)|
    ensures out.Found? && out.cold ==> var w := WindowOf(limit, offset);
      && out.total == Min(w, |hot|) + Min(w, |AllRows(rows, ordered)|)
      && (out.capped <==> |hot| >= w || |AllRows(rows, ordered)| >= w)
    ensures out.Found? && out.cold && DayRows(rows) && Distinct(days) && offset + limit <= COUNT_CAP + 1 ==>
      PageOf(out.rows, multiset(hot + AllRows(rows, ordered)), offset, limit)
    ensures out.Found? && out.cold && !out.capped && offset == 0 && out.total <= limit ==>
      multiset(out.rows) == multiset(hot + AllRows(rows, ordered))
    ensures out.Found? && out.cold && offset == 0 ==> |out.rows| == Min(limit, out.total)
    ensures out.Error? ==>
      Refuses(enabled, f, days) || fails.count || fails.page || fails.window || Unread(query, days)
  {
    out, ordered := Error, [];
    if fails.count { return; }
    var total := Min(|hot|, COUNT_CAP);
    if enabled {
      var plan := PlanColdSearch(f, days, total);
      if plan == BadRange || plan == NeedBoth { return; }
      if plan == UseCold {
        out, ordered := SearchBoth(hot, days, query, limit, offset, fails.window, rows);
        return;
      }
    }
    if fails.page { return; }
    out := Found(Slice(hot, offset, limit), total, false, total >= COUNT_CAP);
    SliceIsPage(hot, offset, limit, out.rows);
  }

  // The archive cannot be read for one of the days.
  ghost predicate Unread(query: Query, days: seq<Day>) {
    exists d, n: nat :: d in days && query(d, n) == None
  }

  // Both tiers, each bounded by the window, merged and paged in memory.
  method SearchBoth(hot: seq<Record>, days: seq<Day>, query: Query, limit: nat, offset: nat, windowFails: bool,
                    ghost rows: Rows) returns (out: Outcome, ordered: seq<Day>)
    requires Honest(query, rows) && Descending(Times(hot))
    ensures out.Found? ==> out.cold && Newest(ordered) && multiset(ordered) == multiset(days)
    ensures out.Found? && !out.capped ==> out.total == |hot + AllRows(rows, ordered)|
    ensures out.Found? ==> var w := WindowOf(limit, offset);
      && out.total == Min(w, |hot|) + Min(w, |AllRows(rows, ordered)|)
      && (out.capped <==> |hot| >= w || |AllRows(rows, ordered)| >= w)
    ensures out.Found? && DayRows(rows) && Distinct(days) && offset + limit <= COUNT_CAP + 1 ==>
      PageOf(out.rows, multiset(hot + AllRows(rows, ordered)), offset, limit)
    ensures out.Found? && !out.capped && offset == 0 && out.total <= limit ==>
      multiset(out.rows) == multiset(hot + AllRows(rows, ordered))
    ensures out.Found? && offset == 0 ==> |out.rows| == Min(limit, out.total)
    ensures out.Error? ==> windowFails || Unread(query, days)
  {
    out := Error;
    var w := WindowOf(limit, offset);
    var hotPart := Take(w, hot);
    var cr, scanned, coldCapped, coldFailed;
    cr, scanned, coldCapped, coldFailed, ordered := WalkColdDays(days, w, query, rows);
    if windowFails || coldFailed { return; }
    var merged := SortByTime(hotPart + cr);
    out := Found(Slice(merged, offset, limit), |merged|, true, |hotPart| == w || coldCapped);
    BothFound(w, hot, AllRows(rows, ordered), merged, offset, limit, out);
    if DayRows(rows) && Distinct(days) { WalkedInOrder(rows, days, ordered); }
  }

  // Distinct days, newest first, give their rows newest first.
  lemma WalkedInOrder(rows: Rows, days: seq<Day>, ordered: seq<Day>)
    requires DayRows(rows) && Distinct(days) && Newest(ordered) && multiset(ordered) == multiset(days)
    ensures Descending(Times(AllRows(rows, ordered)))
  {
    DistinctCounts(days);
    forall i, j | 0 <= i < j < |ordered| ensures ordered[i] > ordered[j] {
      if ordered[i] == ordered[j] { TwiceIn(ordered, i, j); }
    }
    DaysDescending(rows, ordered, if ordered == [] then 0 else ordered[0]);
  }

  lemma TwiceIn(s: seq<Day>, i: nat, j: nat)
    requires i < j < |s| && s[i] == s[j]
    ensures multiset(s)[s[i]] >= 2
  {
    var u, v, w := s[..i], s[i + 1..j], s[j + 1..];
    assert s == u + [s[i]] + v + [s[j]] + w;
  }

  lemma {:induction false} DistinctCounts(s: seq<Day>)
    requires Distinct(s)
    ensures forall d :: multiset(s)[d] <= 1
    decreases |s|
  {
    if s != [] {
      var n := |s| - 1;
      DistinctCounts(s[..n]);
      assert s == s[..n] + [s[n]];
      assert s[n] !in s[..n];
      assert s[n] !in multiset(s[..n]);
    }
  }

  lemma BothFound(w: nat, hot: seq<Record>, cold: seq<Record>, merged: seq<Record>, offset: nat, limit: nat,
                  out: Outcome)
    requires w == WindowOf(limit, offset) && Descending(Times(hot)) && Arranged(merged, Take(w, hot) + Take(w, cold))
    requires out == Found(Slice(merged, offset, limit), |merged|, true, |Take(w, hot)| == w || |cold| >= w)
    ensures !out.capped ==> out.total == |hot + cold|
    ensures out.total == Min(w, |hot|) + Min(w, |cold|) && (out.capped <==> |hot| >= w || |cold| >= w)
    ensures Descending(Times(cold)) && offset + limit <= COUNT_CAP + 1 ==>
      PageOf(out.rows, multiset(hot + cold), offset, limit)
    ensures !out.capped && offset == 0 && out.total <= limit ==> multiset(out.rows) == multiset(hot + cold)
    ensures offset == 0 ==> |out.rows| == Min(limit, out.total)
  {
    assert |merged| == |multiset(merged)| == |Take(w, hot) + Take(w, cold)|;
    SliceLength(merged, offset, limit);
    if Descending(Times(cold)) && offset + limit <= COUNT_CAP + 1 {
      PageFound(w, hot, cold, merged, offset, limit, out.rows);
    }
  }

  // ---- the report ----

  datatype Report = Refused | Failed | Exported(rows: seq<Record>)

  // The tables behind a search: matching hot rows, newest first, and the days that have any rows; the days
  // marked as archived, newest first.
  datatype Tiers = Tiers(hot: seq<Record>, hotDays: set<Day>, archived: seq<Day>)

  ghost predicate TiersOk(t: Tiers, query: Query, rows: Rows) {
    Honest(query, rows) && Descending(Times(t.hot)) && Distinct(t.archived)
  }

  function Overlapping(t: Tiers, f: Filter): seq<Day> { Pick(t.archived, (d: Day) => Overlaps(d, f)) }

  // Everything there is: the hot rows, and the rows of all overlapping archived days that are not among
  // them, so that a row that both tiers hold counts once.
  function Everything(t: Tiers, f: Filter, rows: Rows): multiset<Record> {
    multiset(t.hot) + (Bag(rows, Overlapping(t, f)) - multiset(t.hot))
  }

  // The exact condition: no row of a day that is read is hot, and all rows of a day that is not read are.
  ghost predicate Covered(t: Tiers, f: Filter, rows: Rows, read: seq<Day>) {
    forall d | d in t.archived && Overlaps(d, f) ::
      if d in read then multiset(rows(d)) !! multiset(t.hot) else multiset(rows(d)) <= multiset(t.hot)
  }

  // Main result: a page has the times it would have if everything were merged and sorted, and a total
  // that is not capped is exact, as long as the days read cover what hot storage does not hold.
  method SearchAll(t: Tiers, query: Query, enabled: bool, f: Filter, limit: nat, offset: nat, listFails: bool,
                   countsFail: bool, fails: Reads, ghost rows: Rows)
    returns (out: Outcome, days: seq<Day>, ordered: seq<Day>)
    requires TiersOk(t, query, rows)
    ensures days == DaysRead(t.archived, t.hotDays, f, listFails, countsFail)
    ensures out.Found? ==> (out.cold <==> enabled && days != [] && Bounded(f) && |t.hot| < 100_000)
    ensures Refuses(enabled, f, days) ==> out.Error?
    ensures !Refuses(enabled, f, days) && !fails.count && !fails.page
            && !(enabled && days != [] && Bounded(f) && |t.hot| < COUNT_CAP) ==>
      out.Found?
    ensures out.Found? && !out.cold ==> HotPage(t, offset, limit, out)
    ensures out.Found? && out.cold ==> var w := WindowOf(limit, offset);
      && out.total == Min(w, |t.hot|) + Min(w, |AllRows(rows, ordered)|)
      && (out.capped <==> |t.hot| >= w || |AllRows(rows, ordered)| >= w)
    ensures out.Found? && out.cold ==>
      multiset(ordered) == multiset(days) && (offset == 0 ==> |out.rows| == Min(limit, out.total))
    ensures out.Found? && out.cold && !out.capped && offset == 0 && out.total <= limit ==>
      multiset(out.rows) == multiset(t.hot + AllRows(rows, ordered))
    ensures out.Found? && DayRows(rows) && Covered(t, f, rows, if out.cold then days else []) ==>
      && (offset + limit <= COUNT_CAP + 1 ==> PageOf(out.rows, Everything(t, f, rows), offset, limit))
      && (!out.capped ==> out.total == |Everything(t, f, rows)|)
    ensures out.Error? ==>
      Refuses(enabled, f, days) || fails.count || fails.page || fails.window || Unread(query, days)
  {
    days := ArchivedDaysInRange(t.archived, t.hotDays, f, listFails, countsFail);
    ReadIsListed(t, f, listFails, countsFail, days);
    out, ordered := SearchDays(t.hot, days, query, enabled, f, limit, offset, fails, rows);
    if out.Found? && DayRows(rows) && Covered(t, f, rows, if out.cold then days else []) {
      if out.cold { ColdCovers(t, f, rows, days, ordered); } else { HotCovers(t, f, rows, offset, limit, out); }
    }
  }

  // The page when the archive is not read.
  predicate HotPage(t: Tiers, offset: nat, limit: nat, out: Outcome)
    requires out.Found?
  {
    Page(out.rows, t.hot, offset, limit) && out.total == Min(|t.hot|, 100_000)
      && (out.capped <==> |t.hot| >= 100_000)
  }

  lemma ReadIsListed(t: Tiers, f: Filter, listFails: bool, countsFail: bool, days: seq<Day>)
    requires Distinct(t.archived) && days == DaysRead(t.archived, t.hotDays, f, listFails, countsFail)
    ensures Distinct(days) && forall d | d in days :: d in t.archived && Overlaps(d, f)
  {
    if !listFails { Picked(Take(LIST_LIMIT, t.archived), Wanted(if countsFail then {} else t.hotDays, f)); }
  }

  lemma ColdCovers(t: Tiers, f: Filter, rows: Rows, days: seq<Day>, ordered: seq<Day>)
    requires DayRows(rows) && Distinct(t.archived) && Distinct(days) && Covered(t, f, rows, days)
    requires (forall d | d in days :: d in t.archived && Overlaps(d, f)) && multiset(ordered) == multiset(days)
    ensures multiset(t.hot + AllRows(rows, ordered)) == Everything(t, f, rows)
    ensures |t.hot + AllRows(rows, ordered)| == |Everything(t, f, rows)|
  {
    BagPermuted(rows, ordered, days);
    BagOf(rows, ordered);
    CoveredIff(t, f, rows, days, multiset(t.hot + AllRows(rows, ordered)));
    assert |multiset(t.hot + AllRows(rows, ordered))| == |t.hot + AllRows(rows, ordered)|;
  }

  lemma PageTimes(part: seq<Record>, whole: seq<Record>, offset: nat, limit: nat)
    requires Page(part, whole, offset, limit)
    ensures Page(Times(part), Times(whole), offset, limit)
  {
  }

  lemma HotCovers(t: Tiers, f: Filter, rows: Rows, offset: nat, limit: nat, out: Outcome)
    requires DayRows(rows) && Distinct(t.archived) && Covered(t, f, rows, []) && Descending(Times(t.hot))
    requires out.Found? && HotPage(t, offset, limit, out)
    ensures PageOf(out.rows, Everything(t, f, rows), offset, limit)
      && (!out.capped ==> out.total == |Everything(t, f, rows)|)
  {
    CoveredIff(t, f, rows, [], multiset(t.hot));
    assert |multiset(t.hot)| == |t.hot|;
    forall full | multiset(full) == multiset(t.hot) && Descending(Times(full))
      ensures Page(Times(out.rows), Times(full), offset, limit)
    {
      TimesRearranged(full, t.hot);
      SortedUnique(Times(full), Times(t.hot));
      PageTimes(out.rows, t.hot, offset, limit);
    }
  }

  // The search behind a report: one row more than a report may have.
  method SearchWhole(t: Tiers, query: Query, enabled: bool, f: Filter, listFails: bool, countsFail: bool,
                     fails: Reads, ghost rows: Rows)
    returns (out: Outcome, days: seq<Day>, ordered: seq<Day>)
    requires TiersOk(t, query, rows)
    ensures days == DaysRead(t.archived, t.hotDays, f, listFails, countsFail)
    ensures out.Found? && !out.capped ==> (out.cold <==> enabled && days != [] && f.from.Some? && f.to.Some?)
    ensures out.Found? && !out.capped && |out.rows| <= COUNT_CAP ==>
      if out.cold then multiset(ordered) == multiset(days)
        && multiset(out.rows) == multiset(t.hot + AllRows(rows, ordered)) else out.rows == t.hot
    ensures Ordered(f) && days == [] && !fails.count && !fails.page ==>
      out == Found(Take(COUNT_CAP + 1, t.hot), Min(|t.hot|, COUNT_CAP), false, |t.hot| >= COUNT_CAP)
    ensures out.Error? ==>
      Refuses(enabled, f, days) || fails.count || fails.page || fails.window || Unread(query, days)
    ensures out.Found? && (out.capped || |out.rows| > COUNT_CAP) ==>
      |t.hot| + |AllRows(rows, if out.cold then ordered else [])| >= 100_000
    ensures out.Found? && out.cold ==> enabled && multiset(ordered) == multiset(days)
  {
    out, days, ordered := SearchAll(t, query, enabled, f, COUNT_CAP + 1, 0, listFails, countsFail, fails, rows);
    if out.Found? { WholeFound(t, enabled, f, days, ordered, COUNT_CAP + 1, out, rows); }
  }

  lemma WholeFound(t: Tiers, enabled: bool, f: Filter, days: seq<Day>, ordered: seq<Day>, limit: nat,
                   out: Outcome, rows: Rows)
    requires out.Found? && limit == COUNT_CAP + 1
    requires out.cold <==> enabled && days != [] && Bounded(f) && |t.hot| < COUNT_CAP
    requires !out.cold ==> HotPage(t, 0, limit, out)
    requires out.cold ==> |out.rows| == Min(limit, out.total)
    requires out.cold && !out.capped && out.total <= limit ==>
      multiset(out.rows) == multiset(t.hot + AllRows(rows, ordered))
    ensures !out.capped ==> (out.cold <==> enabled && days != [] && f.from.Some? && f.to.Some?)
    ensures !out.capped && |out.rows| <= COUNT_CAP ==>
      if out.cold then multiset(out.rows) == multiset(t.hot + AllRows(rows, ordered)) else out.rows == t.hot
    ensures !out.cold ==> out == Found(Take(limit, t.hot), Min(|t.hot|, COUNT_CAP), false, |t.hot| >= COUNT_CAP)
  {
    SliceLength(t.hot, 0, limit);
  }

  // The days read for a report on a bounded window.
  function ReportDays(t: Tiers, f: Filter, enabled: bool, listFails: bool, countsFail: bool): seq<Day> {
    if enabled then DaysRead(t.archived, t.hotDays, f, listFails, countsFail) else []
  }

  // Main result: a report on a bounded window is refused, fails, or is exported; and an exported report
  // holds everything, each row once, exactly if the days read cover what hot storage does not hold.
  method ExportReport(t: Tiers, query: Query, enabled: bool, f: Filter, listFails: bool, countsFail: bool,
                      fails: Reads, ghost rows: Rows) returns (r: Report)
    requires TiersOk(t, query, rows)
    ensures r.Exported? ==> |r.rows| <= 100_000
    ensures r.Exported? && f.from.Some? && f.to.Some? && DayRows(rows) ==>
      (multiset(r.rows) == Everything(t, f, rows)
        <==> Covered(t, f, rows, ReportDays(t, f, enabled, listFails, countsFail)))
    ensures r.Exported? && (f.from == None || f.to == None) ==> r.rows == t.hot
    ensures r.Refused? ==> |t.hot| + |Bag(rows, ReportDays(t, f, enabled, listFails, countsFail))| >= 100_000
    ensures r.Failed? ==>
      || Refuses(enabled, f, DaysRead(t.archived, t.hotDays, f, listFails, countsFail))
      || fails.count || fails.page || fails.window
      || Unread(query, DaysRead(t.archived, t.hotDays, f, listFails, countsFail))
    ensures !fails.count && !fails.page && Ordered(f)
            && DaysRead(t.archived, t.hotDays, f, listFails, countsFail) == [] ==>
      r == if |t.hot| < COUNT_CAP then Exported(t.hot) else Refused
  {
    var out, days, ordered := SearchWhole(t, query, enabled, f, listFails, countsFail, fails, rows);
    if out.Error? { return Failed; }
    if out.capped || |out.rows| > COUNT_CAP {
      if out.cold { BagSize(rows, ordered, days); }
      return Refused;
    }
    r := Exported(out.rows);
    if f.from.Some? && f.to.Some? && DayRows(rows) {
      ReadIsListed(t, f, listFails, countsFail, days);
      ReportRows(t, f, rows, if enabled then days else [], ordered, out);
    }
  }

  lemma ReportRows(t: Tiers, f: Filter, rows: Rows, days: seq<Day>, ordered: seq<Day>, out: Outcome)
    requires DayRows(rows) && Distinct(t.archived) && Distinct(days)
      && forall d | d in days :: d in t.archived && Overlaps(d, f)
    requires out.Found? && (out.cold <==> days != [])
    requires if out.cold then multiset(ordered) == multiset(days)
      && multiset(out.rows) == multiset(t.hot + AllRows(rows, ordered))
             else out.rows == t.hot
    ensures multiset(out.rows) == Everything(t, f, rows) <==> Covered(t, f, rows, days)
  {
    if out.cold {
      BagPermuted(rows, ordered, days);
      BagOf(rows, ordered);
      assert multiset(t.hot + AllRows(rows, ordered)) == multiset(t.hot) + multiset(AllRows(rows, ordered));
    }
    CoveredIff(t, f, rows, days, multiset(out.rows));
  }

  // ---- the condition ----

  function DayOf(x: Record): int { x.time / DAY_SECONDS }

  lemma InItsDay(rows: Rows, d: Day, x: Record)
    requires DayRows(rows) && x in multiset(rows(d))
    ensures DayOf(x) == d
  {
    var i :| 0 <= i < |rows(d)| && rows(d)[i] == x;
    assert d * DAY_SECONDS <= x.time < (d + 1) * DAY_SECONDS;
  }

  // A record is in the bag only through its own day.
  lemma {:induction false} BagAt(rows: Rows, days: seq<Day>, x: Record)
    requires DayRows(rows) && Distinct(days)
    ensures forall d | d in days && DayOf(x) == d :: Bag(rows, days)[x] == multiset(rows(d))[x]
    ensures DayOf(x) !in days ==> Bag(rows, days)[x] == 0
    decreases |days|
  {
    if days != [] {
      BagAt(rows, days[1..], x);
      if x in multiset(rows(days[0])) { InItsDay(rows, days[0], x); }
      assert days[0] !in days[1..];
    }
  }

  lemma CoveredIff(t: Tiers, f: Filter, rows: Rows, read: seq<Day>, report: multiset<Record>)
    requires DayRows(rows) && Distinct(t.archived) && Distinct(read)
      && forall d | d in read :: d in t.archived && Overlaps(d, f)
    requires report == multiset(t.hot) + Bag(rows, read)
    ensures report == Everything(t, f, rows) <==> Covered(t, f, rows, read)
  {
    var all, hot := Overlapping(t, f), multiset(t.hot);
    Picked(t.archived, (d: Day) => Overlaps(d, f));
    if Covered(t, f, rows, read) {
      forall x ensures report[x] == Everything(t, f, rows)[x] { OneRecord(t, f, rows, read, all, x); }
    } else {
      var d :| d in t.archived && Overlaps(d, f)
        && !(if d in read then multiset(rows(d)) !! hot else multiset(rows(d)) <= hot);
      var x :| x in multiset(rows(d)) && if d in read then x in hot else multiset(rows(d))[x] > hot[x];
      InItsDay(rows, d, x);
      BagAt(rows, read, x);
      BagAt(rows, all, x);
      assert report[x] != Everything(t, f, rows)[x];
    }
  }

  lemma OneRecord(t: Tiers, f: Filter, rows: Rows, read: seq<Day>, all: seq<Day>, x: Record)
    requires DayRows(rows) && Distinct(read) && Distinct(all) && Covered(t, f, rows, read)
    requires forall d :: d in all <==> d in t.archived && Overlaps(d, f)
    requires forall d | d in read :: d in all
    ensures multiset(t.hot)[x] + Bag(rows, read)[x] == (multiset(t.hot) + (Bag(rows, all) - multiset(t.hot)))[x]
  {
    BagAt(rows, read, x);
    BagAt(rows, all, x);
  }

  // When everything is read, what remains to be asked for is that each day that is archived and also hot
  // is hot with all its rows.
  lemma SuccessCovers(t: Tiers, f: Filter, rows: Rows)
    requires DayRows(rows) && |t.archived| <= 4000
      && forall x | x in t.hot :: exists d :: d in t.hotDays && DayOf(x) == d
    ensures Covered(t, f, rows, DaysRead(t.archived, t.hotDays, f, false, false))
      <==> forall d | d in t.archived && Overlaps(d, f) && d in t.hotDays :: multiset(rows(d)) <= multiset(t.hot)
  {
    var read := DaysRead(t.archived, t.hotDays, f, false, false);
    Picked(t.archived, Wanted(t.hotDays, f));
    forall d | d in t.archived && Overlaps(d, f) ensures d in read <==> d !in t.hotDays { }
    forall d | d in read ensures multiset(rows(d)) !! multiset(t.hot) {
      forall x | x in multiset(rows(d)) && x in multiset(t.hot) ensures false { InItsDay(rows, d, x); }
    }
  }

  // The rows of some days, in no order.
  function Bag(rows: Rows, days: seq<Day>): multiset<Record> {
    if days == [] then multiset{} else multiset(rows(days[0])) + Bag(rows, days[1..])
  }

  lemma {:induction false} BagOf(rows: Rows, days: seq<Day>)
    ensures multiset(AllRows(rows, days)) == Bag(rows, days)
    decreases |days|
  {
    if days != [] { BagOf(rows, days[1..]); }
  }

  lemma {:induction false} BagConcat(rows: Rows, a: seq<Day>, b: seq<Day>)
    ensures Bag(rows, a + b) == Bag(rows, a) + Bag(rows, b)
    decreases |a|
  {
    if a == [] {
      assert a + b == b;
    } else {
      BagConcat(rows, a[1..], b);
      assert (a + b)[1..] == a[1..] + b;
    }
  }

  lemma BagSize(rows: Rows, a: seq<Day>, b: seq<Day>)
    requires multiset(a) == multiset(b)
    ensures |AllRows(rows, a)| == |Bag(rows, b)|
  {
    BagPermuted(rows, a, b);
    BagOf(rows, a);
    assert |multiset(AllRows(rows, a))| == |AllRows(rows, a)|;
  }

  lemma BagOne(rows: Rows, d: Day)
    ensures Bag(rows, [d]) == multiset(rows(d))
  {
    assert [d][1..] == [];
  }

  lemma BagOneOut(rows: Rows, b: seq<Day>, k: nat)
    requires k < |b|
    ensures Bag(rows, b) == multiset(rows(b[k])) + Bag(rows, b[..k] + b[k + 1..])
  {
    var u, v := b[..k], b[k + 1..];
    assert b == u + ([b[k]] + v);
    BagConcat(rows, u, [b[k]] + v);
    BagConcat(rows, [b[k]], v);
    BagConcat(rows, u, v);
    BagOne(rows, b[k]);
  }

  // The rows of days do not depend on the days' order.
  lemma {:induction false} BagPermuted(rows: Rows, a: seq<Day>, b: seq<Day>)
    requires multiset(a) == multiset(b)
    ensures Bag(rows, a) == Bag(rows, b)
    decreases |a|
  {
    if a == [] {
      assert |b| == |multiset(b)| == |multiset(a)| == 0;
    } else {
      assert a[0] in multiset(b);
      var k :| 0 <= k < |b| && b[k] == a[0];
      OneOut(a, b, k);
      BagPermuted(rows, a[1..], b[..k] + b[k + 1..]);
      BagOneOut(rows, b, k);
    }
  }

  // False of the code: "reporting must fail closed".  With one archived day and the list of archived days
  // unreadable, the report on that day is exported, empty, and not marked as truncated.
  method ListFailureOmits() returns (t: Tiers, f: Filter, r: Report, ghost rows: Rows)
    ensures r == Exported([]) && Everything(t, f, rows) == multiset{Record(5, 1)}
  {
    var query;
    t, f := Tiers([], {}, [0]), Filter(Some(0), Some(10));
    rows, query := OneArchivedRow(t, f);
    r := ExportReport(t, query, true, f, true, false, Reads(false, false, false), rows);
  }

  // Nor does it with every read successful: the day was archived and dropped, and then a late row landed
  // on it, so the day counts as hot and its archived rows are not read.
  method LateRowOmits() returns (t: Tiers, f: Filter, r: Report, ghost rows: Rows)
    ensures r == Exported([Record(7, 2)]) && Everything(t, f, rows) == multiset{Record(7, 2), Record(5, 1)}
  {
    var query;
    t, f := Tiers([Record(7, 2)], {0}, [0]), Filter(Some(0), Some(10));
    rows, query := OneArchivedRow(t, f);
    assert DaysRead([0], {0}, f, false, false) == [] by { assert [0][..0] == []; }
    r := ExportReport(t, query, true, f, false, false, Reads(false, false, false), rows);
  }

  // And with the day counts unreadable, a day that was marked and not yet dropped is read twice.
  lemma CountFailureDoubles() returns (t: Tiers, f: Filter, rows: Rows)
    ensures DayRows(rows) && Covered(t, f, rows, ReportDays(t, f, true, false, false))
    ensures !Covered(t, f, rows, ReportDays(t, f, true, false, true))
  {
    t, f := Tiers([Record(5, 1)], {0}, [0]), Filter(Some(0), Some(10));
    rows := (d: Day) => if d == 0 then [Record(5, 1)] else [];
    assert [0][..0] == [];
    assert ReportDays(t, f, true, false, true) == [0] && ReportDays(t, f, true, false, false) == [];
    assert Record(5, 1) in multiset(rows(0)) && Record(5, 1) in multiset(t.hot);
  }

  // Day 0 was archived with one row.
  method OneArchivedRow(t: Tiers, f: Filter) returns (ghost rows: Rows, query: Query)
    requires t.archived == [0] && f == Filter(Some(0), Some(10))
    ensures Honest(query, rows)
      && Everything(t, f, rows) == multiset(t.hot) + (multiset{Record(5, 1)} - multiset(t.hot))
  {
    rows := (d: Day) => if d == 0 then [Record(5, 1)] else [];
    query := (d: Day, n: nat) => Some(Take(n, if d == 0 then [Record(5, 1)] else []));
    assert Overlapping(t, f) == [0] by { assert [0][..0] == []; }
    BagOne(rows, 0);
    assert multiset([Record(5, 1)]) == multiset{Record(5, 1)};
  }
}
