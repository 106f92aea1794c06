/** The Washington report archive: ordering reports by publication date, merging the
    latest bulletin in by fingerprint, dropping reports that repeat their
    successor's period end, and deriving the published death rate of each report. */
module Archive {
  import opened Wrappers
  import opened Bulletin

  // ---------------------------------------------------------------------------
  // Ordering

  predicate SortedByDate(rs: seq<Report>) {
    forall i, j :: 0 <= i < j < |rs| ==> rs[i].reportDate <= rs[j].reportDate
  }

  /** Place `x` after every report not published later than it: inserting this way
      keeps reports of equal date in their original order. */
  function Insert(sorted: seq<Report>, x: Report): (r: seq<Report>)
    ensures |r| == |sorted| + 1
    ensures multiset(r) == multiset(sorted) + multiset{x}
    ensures forall y :: y in r <==> y in sorted || y == x
    ensures SortedByDate(sorted) ==> SortedByDate(r)
    decreases |sorted|
  {
    if |sorted| == 0 || sorted[|sorted| - 1].reportDate <= x.reportDate then sorted + [x]
    else
      var init, last := sorted[..|sorted| - 1], sorted[|sorted| - 1];
      assert sorted == init + [last];
      var ins := Insert(init, x);
      assert SortedByDate(sorted) ==> SortedByDate(ins + [last]) by {
        if SortedByDate(sorted) {
          InsertBeforeLast(sorted, x, ins);
        }
      }
      ins + [last]
  }

  /** When `x` goes before the last report of an ordered list, that report is no
      earlier than anything in the insertion into the rest. */
  lemma InsertBeforeLast(sorted: seq<Report>, x: Report, ins: seq<Report>)
    requires |sorted| > 0 && SortedByDate(sorted) && x.reportDate < sorted[|sorted| - 1].reportDate
    requires SortedByDate(ins)
    requires forall y :: y in ins <==> y in sorted[..|sorted| - 1] || y == x
    ensures SortedByDate(ins + [sorted[|sorted| - 1]])
  {
    var init, last := sorted[..|sorted| - 1], sorted[|sorted| - 1];
    forall i | 0 <= i < |ins| ensures ins[i].reportDate <= last.reportDate {
      var y := ins[i];
      assert y in ins;
      if y in init {
        var k :| 0 <= k < |init| && init[k] == y;
        assert sorted[k] == y;
      }
    }
  }

  /** `sorted(reports, key=report_date)`: a stable sort. */
  function SortByDate(rs: seq<Report>): (r: seq<Report>)
    ensures |r| == |rs|
    ensures multiset(r) == multiset(rs)
    ensures SortedByDate(r)
    decreases |rs|
  {
    if |rs| == 0 then []
    else
      assert rs == rs[..|rs| - 1] + [rs[|rs| - 1]];
      Insert(SortByDate(rs[..|rs| - 1]), rs[|rs| - 1])
  }

  /** A report no earlier than the last one goes at the end. */
  lemma InsertAtEnd(sorted: seq<Report>, x: Report)
    requires |sorted| == 0 || sorted[|sorted| - 1].reportDate <= x.reportDate
    ensures Insert(sorted, x) == sorted + [x]
  {
  }

  /** An ordered archive without its last report is still ordered, and that report
      is no earlier than the one before it. */
  lemma SortedInit(rs: seq<Report>)
    requires |rs| > 0 && SortedByDate(rs)
    ensures SortedByDate(rs[..|rs| - 1])
    ensures |rs| > 1 ==> rs[|rs| - 2].reportDate <= rs[|rs| - 1].reportDate
  {
    var init := rs[..|rs| - 1];
    forall i, j | 0 <= i < j < |init| ensures init[i].reportDate <= init[j].reportDate {
      assert init[i] == rs[i] && init[j] == rs[j];
    }
  }

  /** Sorting an already ordered archive leaves it as it is. */
  lemma {:induction false} SortSortedIdentity(rs: seq<Report>)
    requires SortedByDate(rs)
    ensures SortByDate(rs) == rs
    decreases |rs|
  {
    if |rs| > 0 {
      var init, last := rs[..|rs| - 1], rs[|rs| - 1];
      SortedInit(rs);
      calc {
        SortByDate(rs);
        Insert(SortByDate(init), last);
        { SortSortedIdentity(init); }
        Insert(init, last);
        { assert |init| == 0 || init[|init| - 1] == rs[|rs| - 2];
          InsertAtEnd(init, last); }
        init + [last];
        rs;
      }
    }
  }

  // ---------------------------------------------------------------------------
  // Merging the latest bulletin

  /** Some archived report has this fingerprint. */
  predicate Archived(rs: seq<Report>, fingerprint: string) {
    exists r :: r in rs && r.fingerprint == fingerprint
  }

  /** The archive after a merge, whether the latest report was new, and the time
      the merge reports: the last report's publication date. */
  datatype Merged = Merged(time: int, reports: seq<Report>, appended: bool)

  /** `refresh_breakthrough_data` after loading: order the archive by date and add
      the latest report at the end when its fingerprint is not archived yet. */
  function Merge(archive: seq<Report>, latest: Report): (m: Merged)
    ensures m.appended <==> !Archived(archive, latest.fingerprint)
    ensures m.reports == SortByDate(archive) + (if m.appended then [latest] else [])
    ensures |m.reports| > 0 && m.time == m.reports[|m.reports| - 1].reportDate
    ensures multiset(m.reports) == multiset(archive) + (if m.appended then multiset{latest} else multiset{})
  {
    var sorted := SortByDate(archive);
    assert forall r :: r in sorted <==> r in archive by {
      assert forall r :: r in sorted <==> r in multiset(sorted);
      assert forall r :: r in archive <==> r in multiset(archive);
    }
    assert Archived(sorted, latest.fingerprint) <==> Archived(archive, latest.fingerprint);
    var reports := if Archived(sorted, latest.fingerprint) then sorted else sorted + [latest];
    Merged(reports[|reports| - 1].reportDate, reports, !Archived(sorted, latest.fingerprint))
  }

  /** Merging a report that is already archived, into an archive already in date
      order, changes nothing. */
  lemma MergeKnownIsNoOp(archive: seq<Report>, latest: Report)
    requires SortedByDate(archive)
    requires Archived(archive, latest.fingerprint)
    ensures Merge(archive, latest).reports == archive
    ensures !Merge(archive, latest).appended
  {
    SortSortedIdentity(archive);
  }

  /** Repeating a merge with the same bulletin adds nothing the second time; when
      the new report is not older than the archive, the second merge returns the
      first one's archive and time unchanged. */
  lemma MergeIdempotent(archive: seq<Report>, latest: Report)
    requires forall r :: r in archive ==> r.reportDate <= latest.reportDate
    ensures var once := Merge(archive, latest);
            var twice := Merge(once.reports, latest);
      && !twice.appended && twice.reports == once.reports && twice.time == once.time
  {
    var once := Merge(archive, latest);
    var sorted := SortByDate(archive);
    assert SortedByDate(once.reports) && Archived(once.reports, latest.fingerprint) by {
      if once.appended {
        assert once.reports == sorted + [latest];
        forall i | 0 <= i < |sorted|
          ensures sorted[i].reportDate <= latest.reportDate
        {
          assert sorted[i] in multiset(archive);
        }
        SortedAppend(sorted, latest);
        assert latest == once.reports[|sorted|];
      } else {
        assert once.reports == sorted;
        var r :| r in archive && r.fingerprint == latest.fingerprint;
        assert r in multiset(sorted);
      }
    }
    MergeKnownIsNoOp(once.reports, latest);
  }

  /** A report no earlier than every sorted one can go at the end. */
  lemma SortedAppend(sorted: seq<Report>, x: Report)
    requires SortedByDate(sorted)
    requires forall i :: 0 <= i < |sorted| ==> sorted[i].reportDate <= x.reportDate
    ensures SortedByDate(sorted + [x])
  {
    var r := sorted + [x];
    forall i, j | 0 <= i < j < |r| ensures r[i].reportDate <= r[j].reportDate {
      assert r[i] == sorted[i];
      if j < |sorted| {
        assert r[j] == sorted[j];
      }
    }
  }

  /** When nothing new arrives the reported time is the newest publication date in
      the archive. */
  lemma MergeTimeIsNewest(archive: seq<Report>, latest: Report)
    requires Archived(archive, latest.fingerprint)
    ensures forall r :: r in archive ==> r.reportDate <= Merge(archive, latest).time
  {
    var m := Merge(archive, latest);
    forall r | r in archive
      ensures r.reportDate <= m.time
    {
      assert r in multiset(m.reports);
      var i :| 0 <= i < |m.reports| && m.reports[i] == r;
      assert i <= |m.reports| - 1;
    }
  }

  // ---------------------------------------------------------------------------
  // Dropping repeated periods

  /** Index `i` is dropped: not the first or last report, and its period ends when
      the next report's does (judged on the list as given). */
  predicate Removable(rs: seq<Report>, i: int) {
    1 <= i <= |rs| - 2 && rs[i].endDate == rs[i + 1].endDate
  }

  /** The reports from index `p` on that are not dropped, in order. */
  function KeptFrom(rs: seq<Report>, p: int): seq<Report>
    requires 0 <= p <= |rs|
    decreases |rs| - p
  {
    if p == |rs| then [] else (if Removable(rs, p) then [] else [rs[p]]) + KeptFrom(rs, p + 1)
  }

  /** The archive with repeated periods dropped. */
  function Dedup(rs: seq<Report>): seq<Report> {
    KeptFrom(rs, 0)
  }

  /** The source's two passes: collect the indices to drop, then delete them from
      the highest down so that earlier indices stay valid. */
  method RemoveDuplicates(rs: seq<Report>) returns (out: seq<Report>)
    ensures out == Dedup(rs)
  {
    var remove: seq<int> := [];
    var i := 0;
    while i < |rs|
      invariant 0 <= i <= |rs|
      invariant forall k :: k in remove <==> 0 <= k < i && Removable(rs, k)
    {
      if i != 0 && i != |rs| - 1 && rs[i].endDate == rs[i + 1].endDate {
        remove := remove + [i];
      }
      i := i + 1;
    }
    out := rs;
    var j := |rs|;
    assert out == rs[..j] + KeptFrom(rs, j);
    while j > 0
      invariant 0 <= j <= |rs|
      invariant out == rs[..j] + KeptFrom(rs, j)
    {
      assert rs[..j] == rs[..j - 1] + [rs[j - 1]];
      if j - 1 in remove {
        out := out[..j - 1] + out[j..];
      }
      j := j - 1;
    }
    assert rs[..0] == [];
  }

  /** No two neighbours share a period end. */
  predicate NeighboursDiffer(k: seq<Report>) {
    forall j :: 0 <= j < |k| - 1 ==> k[j].endDate != k[j + 1].endDate
  }

  /** From index `p >= 1` the kept reports start with one ending when report `p`
      ends, end with the last report, and never repeat a neighbour's period end. */
  lemma {:induction false} KeptFromShape(rs: seq<Report>, p: int)
    requires 1 <= p < |rs|
    ensures var k := KeptFrom(rs, p);
      && |k| > 0
      && k[0].endDate == rs[p].endDate
      && k[|k| - 1] == rs[|rs| - 1]
      && NeighboursDiffer(k)
    decreases |rs| - p
  {
    var k := KeptFrom(rs, p);
    if p == |rs| - 1 {
      assert !Removable(rs, p);
      assert KeptFrom(rs, p + 1) == [];
      assert k == [rs[p]];
      assert NeighboursDiffer(k);
    } else {
      KeptFromShape(rs, p + 1);
      var rest := KeptFrom(rs, p + 1);
      if Removable(rs, p) {
        assert k == rest;
        assert rest[0].endDate == rs[p + 1].endDate == rs[p].endDate;
      } else {
        assert k == [rs[p]] + rest;
        ConsDistinctNeighbours(rs[p], rest);
        assert k[|k| - 1] == rest[|rest| - 1];
      }
    }
  }

  /** Putting a report in front of a list whose neighbours differ in period end
      keeps them differing, when its own end differs from the list's first. */
  lemma ConsDistinctNeighbours(x: Report, rest: seq<Report>)
    requires |rest| > 0 && x.endDate != rest[0].endDate
    requires NeighboursDiffer(rest)
    ensures NeighboursDiffer([x] + rest)
  {
    var k := [x] + rest;
    forall j | 0 <= j < |k| - 1 ensures k[j].endDate != k[j + 1].endDate {
      if j == 0 {
        assert k[1] == rest[0];
      } else {
        assert k[j] == rest[j - 1] && k[j + 1] == rest[j];
      }
    }
  }

  /** The first and last reports always survive. */
  lemma DedupKeepsEnds(rs: seq<Report>)
    requires |rs| > 0
    ensures |Dedup(rs)| > 0
    ensures Dedup(rs)[0] == rs[0]
    ensures Dedup(rs)[|Dedup(rs)| - 1] == rs[|rs| - 1]
  {
    assert Dedup(rs) == [rs[0]] + KeptFrom(rs, 1);
    if |rs| > 1 {
      KeptFromShape(rs, 1);
    }
  }

  /** After dropping, neighbours share a period end only at the first two
      positions, since the first report is never dropped. */
  lemma DedupDistinctNeighbours(rs: seq<Report>)
    ensures forall j :: 1 <= j < |Dedup(rs)| - 1 ==> Dedup(rs)[j].endDate != Dedup(rs)[j + 1].endDate
  {
    if |rs| > 1 {
      KeptFromShape(rs, 1);
      assert Dedup(rs) == [rs[0]] + KeptFrom(rs, 1);
      var d, k := Dedup(rs), KeptFrom(rs, 1);
      forall j | 1 <= j < |d| - 1
        ensures d[j].endDate != d[j + 1].endDate
      {
        assert d[j] == k[j - 1] && d[j + 1] == k[j];
      }
    } else if |rs| == 1 {
      assert KeptFrom(rs, 1) == [];
      assert Dedup(rs) == [rs[0]];
    }
  }

  /** With nothing to drop from `p` on, the kept reports are the suffix itself. */
  lemma {:induction false} KeptAll(rs: seq<Report>, p: int)
    requires 0 <= p <= |rs|
    requires forall i :: p <= i < |rs| ==> !Removable(rs, i)
    ensures KeptFrom(rs, p) == rs[p..]
    decreases |rs| - p
  {
    if p < |rs| {
      KeptAll(rs, p + 1);
      assert rs[p..] == [rs[p]] + rs[p + 1..];
    }
  }

  /** Dropping twice drops nothing more. */
  lemma DedupIdempotent(rs: seq<Report>)
    ensures Dedup(Dedup(rs)) == Dedup(rs)
  {
    var d := Dedup(rs);
    DedupDistinctNeighbours(rs);
    KeptAll(d, 0);
  }

  // ---------------------------------------------------------------------------
  // Derived rates

  const SecondsPerDay: int := 86400

  /** Whole days between two instants: the day count of their difference, rounded
      down as a time difference's day count is. */
  function Days(from: int, to: int): int {
    (to - from) / SecondsPerDay
  }

  /** A published report: the report, its death rate, and its cumulative deaths. */
  datatype Derived = Derived(report: Report, rollingAverage: real, cumulativeDeaths: int)

  /** The day count each report's rate is divided by: the first report's own
      period, otherwise the days since the previous report's period end. */
  function Divisor(rs: seq<Report>, i: int): int
    requires 0 <= i < |rs|
  {
    if i == 0 then Days(rs[0].startDate, rs[0].endDate) else Days(rs[i - 1].endDate, rs[i].endDate)
  }

  function Max(a: int, b: int): int {
    if a >= b then a else b
  }

  /** The first report: deaths per week of its own period. Later reports: the
      increase in deaths since the previous report (never negative) per day,
      where the day count is negative when the period end moves backwards. */
  function Rate(rs: seq<Report>, i: int): (r: Result<real>)
    requires 0 <= i < |rs|
    ensures r.Err? <==> Divisor(rs, i) == 0
    ensures r.Err? ==> r.fault == ZeroDivision
    ensures i > 0 && r.Ok? && Divisor(rs, i) > 0 ==> r.value >= 0.0
    ensures i > 0 && r.Ok? && Divisor(rs, i) < 0 ==> r.value <= 0.0
  {
    var days := Divisor(rs, i);
    if days == 0 then Err(ZeroDivision)
    else if i == 0 then Ok(rs[0].deathCount as real / (days as real / 7.0))
    else Ok(Max(0, rs[i].deathCount - rs[i - 1].deathCount) as real / days as real)
  }

  /** The derivation loop from index `i` on, failing at the first zero divisor. */
  function DeriveFrom(rs: seq<Report>, i: int): (r: Result<seq<Derived>>)
    requires 0 <= i <= |rs|
    ensures r.Ok? <==> forall k :: i <= k < |rs| ==> Divisor(rs, k) != 0
    ensures r.Err? ==> r.fault == ZeroDivision
    ensures r.Ok? ==> (|r.value| == |rs| - i
      && forall k :: i <= k < |rs| ==> r.value[k - i] == Derived(rs[k], Rate(rs, k).value, rs[k].deathCount))
    decreases |rs| - i
  {
    if i == |rs| then Ok([])
    else
      var rate :- Rate(rs, i);
      var rest :- DeriveFrom(rs, i + 1);
      Ok([Derived(rs[i], rate, rs[i].deathCount)] + rest)
  }

  /** `_process_breakthrough_data` before serialisation: drop repeated periods,
      then derive every remaining report. */
  function Derive(rs: seq<Report>): Result<seq<Derived>> {
    DeriveFrom(Dedup(rs), 0)
  }

  /** The published fields of every kept report: the report unchanged, the
      cumulative deaths equal to its own death count, and the rate as the first or
      a later report's formula gives it. */
  lemma DeriveFields(rs: seq<Report>)
    requires Derive(rs).Ok?
    ensures var d := Dedup(rs);
            var out := Derive(rs).value;
      && |out| == |d|
      && forall k :: 0 <= k < |d| ==>
           && out[k].report == d[k]
           && out[k].cumulativeDeaths == d[k].deathCount
           && (k == 0 ==>
                 out[k].rollingAverage == d[0].deathCount as real / (Days(d[0].startDate, d[0].endDate) as real / 7.0))
           && (k > 0 ==>
                 out[k].rollingAverage == Max(0, d[k].deathCount - d[k - 1].deathCount) as real
                                          / Days(d[k - 1].endDate, d[k].endDate) as real)
  {
    var d := Dedup(rs);
    var out := Derive(rs).value;
    forall k | 0 <= k < |d|
      ensures out[k] == Derived(d[k], Rate(d, k).value, d[k].deathCount)
    {
      assert out[k - 0] == Derived(d[k], Rate(d, k).value, d[k].deathCount);
    }
  }

  /** The derivation fails exactly when a divisor is zero; after dropping repeats,
      a shared period end can only make the second report's divisor zero, and it
      always does. */
  lemma DeriveZeroDivision(rs: seq<Report>)
    ensures var d := Dedup(rs);
      && (Derive(rs).Err? <==> exists k :: 0 <= k < |d| && Divisor(d, k) == 0)
      && (Derive(rs).Err? ==> Derive(rs).fault == ZeroDivision)
      && (forall k :: 2 <= k < |d| ==> d[k - 1].endDate != d[k].endDate)
      && (|d| >= 2 && d[0].endDate == d[1].endDate ==> Derive(rs) == Err(ZeroDivision))
  {
    var d := Dedup(rs);
    DedupDistinctNeighbours(rs);
    forall k | 2 <= k < |d|
      ensures d[k - 1].endDate != d[k].endDate
    {
      assert 1 <= k - 1 < |d| - 1;
    }
    if |d| >= 2 && d[0].endDate == d[1].endDate {
      assert Divisor(d, 1) == 0;
    }
  }
}
