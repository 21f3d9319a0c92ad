/**
 * The aggregation behind the admin dashboard: the candidates selected by
 * the dashboard filters, percentages and period-over-period trends, the
 * birth-year cohorts, the function by industry table, the top cities, the
 * resume/video ratio and the drop-off counts.
 *
 * Percentages, trends and ratios are exact reals; the rounding to two
 * decimals is not modelled. Times are integers counting seconds.
 */
module DashboardController {
  import opened Wrappers
  import opened Strings
  import opened Seqs
  import opened RequestParams
  import opened CandidateModel

  const DAY: int := 86400

  // ---------------------------------------------------------------------
  // Percentages and trends

  /** `calculate_percentage` before rounding. */
  function Percentage(count: int, total: int): (r: real)
    ensures total == 0 ==> r == 0.0
    ensures total != 0 ==> r * total as real == 100.0 * count as real
  {
    if total == 0 then 0.0 else count as real / total as real * 100.0
  }

  /** A count out of a total is a percentage between 0 and 100, and all of it is 100. */
  lemma PercentageBounds(count: int, total: int)
    requires 0 <= count <= total
    ensures 0.0 <= Percentage(count, total) <= 100.0
    ensures 0 < total && count == total ==> Percentage(count, total) == 100.0
  {
    if total != 0 {
      var r := Percentage(count, total);
      var t := total as real;
      assert r * t == 100.0 * count as real;
      assert r * t <= 100.0 * t;
    }
  }

  /** `calculate_trend` before rounding. */
  function Trend(current: real, previous: real): (r: real)
    ensures previous == 0.0 ==> r == 0.0
    ensures previous != 0.0 ==> r * previous == (current - previous) * 100.0
  {
    if previous == 0.0 then 0.0 else (current - previous) / previous * 100.0
  }

  /** Against a positive previous value the trend is up, flat or down as the value is. */
  lemma TrendDirection(current: real, previous: real)
    requires previous > 0.0
    ensures Trend(current, previous) > 0.0 <==> current > previous
    ensures Trend(current, previous) == 0.0 <==> current == previous
    ensures Trend(current, previous) < 0.0 <==> current < previous
  {
    var r := Trend(current, previous);
    assert r * previous == (current - previous) * 100.0;
    if r > 0.0 {
      assert r * previous > 0.0;
    } else if r < 0.0 {
      assert r * previous < 0.0;
    }
  }

  // ---------------------------------------------------------------------
  // Birth-year cohorts

  datatype Generation = Alpha | GenZ | Millennials | GenX | BabyBoomers

  /** The name the query gives each cohort. */
  function GenerationName(g: Generation): string
  {
    match g
    case Alpha => "Alpha"
    case GenZ => "Gen Z"
    case Millennials => "Millennials"
    case GenX => "Gen X"
    case BabyBoomers => "Baby Boomers"
  }

  /** The cohort names are distinct, so keying the breakdown by cohort is keying it by name. */
  lemma GenerationNamesDistinct(g: Generation, h: Generation)
    requires g != h
    ensures GenerationName(g) != GenerationName(h)
  {
  }

  /** The first and last birth year of each cohort. */
  function YearRange(g: Generation): (int, int)
  {
    match g
    case Alpha => (2013, 2025)
    case GenZ => (1997, 2012)
    case Millennials => (1981, 1996)
    case GenX => (1965, 1980)
    case BabyBoomers => (1946, 1964)
  }

  predicate InRange(g: Generation, year: int)
  {
    YearRange(g).0 <= year <= YearRange(g).1
  }

  /** The `CASE ... END as generation` of the cohort query; NULL outside every range. */
  function Cohort(year: int): (r: Option<Generation>)
    ensures r.Some? ==> InRange(r.value, year)
  {
    if 2013 <= year <= 2025 then Some(Alpha)
    else if 1997 <= year <= 2012 then Some(GenZ)
    else if 1981 <= year <= 1996 then Some(Millennials)
    else if 1965 <= year <= 1980 then Some(GenX)
    else if 1946 <= year <= 1964 then Some(BabyBoomers)
    else None
  }

  /** The five ranges are disjoint, so the CASE order does not matter. */
  lemma CohortRangesDisjoint(g: Generation, h: Generation, year: int)
    requires g != h
    ensures !(InRange(g, year) && InRange(h, year))
  {
  }

  /** A year belongs to a cohort exactly when it lies in its range, and to none outside 1946..2025. */
  lemma CohortExact(year: int, g: Generation)
    ensures Cohort(year) == Some(g) <==> InRange(g, year)
    ensures Cohort(year).None? <==> year < 1946 || 2025 < year
  {
  }

  /** The generation of a candidate: NULL when `dob` is NULL or outside every range. */
  function GenerationOf(c: Candidate): Option<Generation>
  {
    if c.dobYear.None? then None else Cohort(c.dobYear.value)
  }

  /** Every group the query can produce; `None` is the NULL generation. */
  const GROUPS: seq<Option<Generation>> :=
    [Some(Alpha), Some(GenZ), Some(Millennials), Some(GenX), Some(BabyBoomers), None]

  datatype Bucket = Bucket(count: nat, percentage: real)

  function GroupCount(rows: seq<Candidate>, g: Option<Generation>): nat
  {
    Count(rows, c => GenerationOf(c) == g)
  }

  /** `generational_breakdown`: one bucket per group with a positive count, keyed by generation. */
  function GenerationalBreakdown(rows: seq<Candidate>): (r: map<Option<Generation>, Bucket>)
    ensures forall g :: g in r ==> 0 < r[g].count <= |rows| && r[g].percentage == Percentage(r[g].count, |rows|)
  {
    map g | g in GROUPS && GroupCount(rows, g) > 0 :: Bucket(GroupCount(rows, g), Percentage(GroupCount(rows, g), |rows|))
  }

  lemma InGroups(g: Option<Generation>)
    ensures g in GROUPS
  {
    match g
    case None => assert GROUPS[5] == g;
    case Some(x) =>
      match x
      case Alpha => assert GROUPS[0] == g;
      case GenZ => assert GROUPS[1] == g;
      case Millennials => assert GROUPS[2] == g;
      case GenX => assert GROUPS[3] == g;
      case BabyBoomers => assert GROUPS[4] == g;
  }

  /** A group is a key exactly when some row falls in it; its bucket holds its count and share. */
  lemma {:induction false} BreakdownKeys(rows: seq<Candidate>, g: Option<Generation>)
    ensures g in GenerationalBreakdown(rows) <==> exists i :: 0 <= i < |rows| && GenerationOf(rows[i]) == g
    ensures g in GenerationalBreakdown(rows) ==>
      GenerationalBreakdown(rows)[g] == Bucket(GroupCount(rows, g), Percentage(GroupCount(rows, g), |rows|))
  {
    InGroups(g);
    CountPositive(rows, c => GenerationOf(c) == g);
  }

  /** A row without a cohort is kept, under the NULL key. */
  lemma NullGenerationKept(rows: seq<Candidate>, i: int)
    requires 0 <= i < |rows|
    requires rows[i].dobYear.None? || rows[i].dobYear.value < 1946 || 2025 < rows[i].dobYear.value
    ensures None in GenerationalBreakdown(rows)
  {
    if rows[i].dobYear.Some? {
      CohortExact(rows[i].dobYear.value, Alpha);
    }
    BreakdownKeys(rows, None);
  }

  /** The groups partition the rows: their counts add up to the number of rows. */
  lemma {:induction false} BreakdownPartition(rows: seq<Candidate>)
    ensures GroupCount(rows, GROUPS[0]) + GroupCount(rows, GROUPS[1]) + GroupCount(rows, GROUPS[2])
      + GroupCount(rows, GROUPS[3]) + GroupCount(rows, GROUPS[4]) + GroupCount(rows, GROUPS[5]) == |rows|
  {
    if rows != [] {
      BreakdownPartition(rows[1..]);
    }
  }

  // ---------------------------------------------------------------------
  // Function by industry table

  /** One function's entry: its applicants and a counter per `"<industry>_applicants"` key. */
  datatype FunctionEntry = FunctionEntry(applicantsCount: nat, industries: map<string, nat>)

  /** A counter read from a `Hash.new(0)`. */
  function Lookup(m: map<string, nat>, k: string): nat
  {
    if k in m then m[k] else 0
  }

  function IndustryKey(industry: string): string
  {
    industry + "_applicants"
  }

  lemma IndustryKeyInjective(a: string, b: string)
    requires IndustryKey(a) == IndustryKey(b)
    ensures a == b
  {
    assert a == IndustryKey(a)[..|a|];
    assert b == IndustryKey(b)[..|b|];
  }

  /** The inner loop: one more for each non-blank tag. */
  function AddIndustry(m: map<string, nat>, industry: string): map<string, nat>
  {
    if Blank(industry) then m else m[IndustryKey(industry) := Lookup(m, IndustryKey(industry)) + 1]
  }

  function AddIndustries(m: map<string, nat>, tags: seq<string>): map<string, nat>
  {
    if tags == [] then m else AddIndustry(AddIndustries(m, tags[..|tags| - 1]), tags[|tags| - 1])
  }

  /** The outer loop body for one candidate. */
  function AddCandidate(d: map<string, FunctionEntry>, c: Candidate): map<string, FunctionEntry>
  {
    match FunctionName(c)
    case None => d
    case Some(f) =>
      var e := if f in d then d[f] else FunctionEntry(0, map[]);
      d[f := FunctionEntry(e.applicantsCount + 1, AddIndustries(e.industries, c.industries))]
  }

  /** The table after the loop has seen `rows`. */
  function Distribution(rows: seq<Candidate>): (r: map<string, FunctionEntry>)
    ensures forall f :: f in r ==> 0 < r[f].applicantsCount <= |rows|
  {
    if rows == [] then map[] else AddCandidate(Distribution(rows[..|rows| - 1]), rows[|rows| - 1])
  }

  lemma DistributionStep(rows: seq<Candidate>, i: nat)
    requires i < |rows|
    ensures Distribution(rows[..i + 1]) == AddCandidate(Distribution(rows[..i]), rows[i])
  {
    assert rows[..i + 1][..i] == rows[..i];
  }

  lemma AddIndustriesStep(m: map<string, nat>, tags: seq<string>, j: nat)
    requires j < |tags|
    ensures AddIndustries(m, tags[..j + 1]) == AddIndustry(AddIndustries(m, tags[..j]), tags[j])
  {
    assert tags[..j + 1][..j] == tags[..j];
  }

  /** The inner loop of `function_distribution`: one more per non-blank tag, on a `Hash.new(0)`. */
  method CountIndustries(counts: map<string, nat>, tags: seq<string>) returns (r: map<string, nat>)
    ensures r == AddIndustries(counts, tags)
  {
    r := counts;
    var j := 0;
    while j < |tags|
      invariant 0 <= j <= |tags|
      invariant r == AddIndustries(counts, tags[..j])
    {
      AddIndustriesStep(counts, tags, j);
      var industry := tags[j];
      if !Blank(industry) {
        var key := IndustryKey(industry);
        r := r[key := Lookup(r, key) + 1];
      }
      j := j + 1;
    }
    assert tags[..j] == tags;
  }

  /** `function_distribution`: the outer loop over the candidates' (industries, function) pairs. */
  method FunctionDistribution(rows: seq<Candidate>) returns (dist: map<string, FunctionEntry>)
    ensures dist == Distribution(rows)
  {
    dist := map[];
    var i := 0;
    while i < |rows|
      invariant 0 <= i <= |rows|
      invariant dist == Distribution(rows[..i])
    {
      var c := rows[i];
      DistributionStep(rows, i);
      var name := FunctionName(c);
      if name.Some? {
        var f := name.value;
        var e := if f in dist then dist[f] else FunctionEntry(0, map[]);
        var counts := CountIndustries(e.industries, c.industries);
        dist := dist[f := FunctionEntry(e.applicantsCount + 1, counts)];
      }
      i := i + 1;
    }
    assert rows[..i] == rows;
  }

  /** Occurrences of `industry` in the tags of the rows whose function is `f`. */
  function TagTotal(rows: seq<Candidate>, f: string, industry: string): nat
  {
    if rows == [] then 0
    else
      var last := rows[|rows| - 1];
      TagTotal(rows[..|rows| - 1], f, industry)
      + (if FunctionName(last) == Some(f) then multiset(last.industries)[industry] else 0)
  }

  /** Adding tags raises each non-blank industry's counter by its number of occurrences. */
  lemma {:induction false} AddIndustriesCounts(m: map<string, nat>, tags: seq<string>, industry: string)
    requires !Blank(industry)
    ensures Lookup(AddIndustries(m, tags), IndustryKey(industry)) == Lookup(m, IndustryKey(industry)) + multiset(tags)[industry]
  {
    if tags != [] {
      var init := tags[..|tags| - 1];
      var last := tags[|tags| - 1];
      assert tags == init + [last];
      AddIndustriesCounts(m, init, industry);
      if !Blank(last) && IndustryKey(last) == IndustryKey(industry) {
        IndustryKeyInjective(last, industry);
      }
    }
  }

  /** The table's functions are exactly the non-blank functions of the rows. */
  lemma {:induction false} DistributionKeys(rows: seq<Candidate>, f: string)
    ensures f in Distribution(rows) <==> exists i :: 0 <= i < |rows| && FunctionName(rows[i]) == Some(f)
  {
    if rows != [] {
      var init := rows[..|rows| - 1];
      DistributionKeys(init, f);
      if f in Distribution(init) {
        var i :| 0 <= i < |init| && FunctionName(init[i]) == Some(f);
        assert rows[i] == init[i];
      }
      if exists i :: 0 <= i < |rows| && FunctionName(rows[i]) == Some(f) {
        var i :| 0 <= i < |rows| && FunctionName(rows[i]) == Some(f);
        if i < |rows| - 1 {
          assert init[i] == rows[i];
        }
      }
    }
  }

  /** `applicants_count` of a function counts the rows with that function. */
  lemma {:induction false} DistributionApplicants(rows: seq<Candidate>, f: string)
    requires f in Distribution(rows)
    ensures Distribution(rows)[f].applicantsCount == Count(rows, c => FunctionName(c) == Some(f))
  {
    var init := rows[..|rows| - 1];
    var last := rows[|rows| - 1];
    assert rows == init + [last];
    CountSnoc(init, last, c => FunctionName(c) == Some(f));
    if f in Distribution(init) {
      DistributionApplicants(init, f);
    } else {
      DistributionKeys(init, f);
      CountPositive(init, c => FunctionName(c) == Some(f));
    }
  }

  /** Each non-blank industry counter under `f` counts that industry's tags on the rows with function `f`. */
  lemma {:induction false} DistributionIndustries(rows: seq<Candidate>, f: string, industry: string)
    requires !Blank(industry)
    ensures f in Distribution(rows) ==>
      Lookup(Distribution(rows)[f].industries, IndustryKey(industry)) == TagTotal(rows, f, industry)
    ensures f !in Distribution(rows) ==> TagTotal(rows, f, industry) == 0
  {
    if rows != [] {
      var init := rows[..|rows| - 1];
      var last := rows[|rows| - 1];
      DistributionIndustries(init, f, industry);
      if FunctionName(last) == Some(f) {
        var e := if f in Distribution(init) then Distribution(init)[f] else FunctionEntry(0, map[]);
        AddIndustriesCounts(e.industries, last.industries, industry);
      }
    }
  }

  /** An industry counter exists only for a non-blank tag among the tags added. */
  lemma {:induction false} AddIndustriesKeys(m: map<string, nat>, tags: seq<string>, k: string)
    requires k in AddIndustries(m, tags)
    ensures k in m || exists i :: 0 <= i < |tags| && !Blank(tags[i]) && k == IndustryKey(tags[i])
  {
    if tags != [] {
      var init := tags[..|tags| - 1];
      var last := tags[|tags| - 1];
      if k in AddIndustries(m, init) {
        AddIndustriesKeys(m, init, k);
        if k !in m {
          var i :| 0 <= i < |init| && !Blank(init[i]) && k == IndustryKey(init[i]);
          assert tags[i] == init[i];
        }
      } else {
        assert !Blank(last) && k == IndustryKey(last);
      }
    }
  }

  /** Every industry counter under `f` belongs to a non-blank tag that occurs among `f`'s rows. */
  lemma {:induction false} DistributionIndustryKeys(rows: seq<Candidate>, f: string, k: string)
    requires f in Distribution(rows) && k in Distribution(rows)[f].industries
    ensures exists t :: !Blank(t) && k == IndustryKey(t) && TagTotal(rows, f, t) > 0
  {
    var init := rows[..|rows| - 1];
    var last := rows[|rows| - 1];
    if FunctionName(last) == Some(f) {
      var e := if f in Distribution(init) then Distribution(init)[f] else FunctionEntry(0, map[]);
      AddIndustriesKeys(e.industries, last.industries, k);
      if k in e.industries {
        DistributionIndustryKeys(init, f, k);
        var t :| !Blank(t) && k == IndustryKey(t) && TagTotal(init, f, t) > 0;
        assert TagTotal(rows, f, t) >= TagTotal(init, f, t);
      } else {
        var i :| 0 <= i < |last.industries| && !Blank(last.industries[i]) && k == IndustryKey(last.industries[i]);
        var t := last.industries[i];
        assert t in multiset(last.industries);
        assert TagTotal(rows, f, t) >= multiset(last.industries)[t];
      }
    } else {
      DistributionIndustryKeys(init, f, k);
      var t :| !Blank(t) && k == IndustryKey(t) && TagTotal(init, f, t) > 0;
      assert TagTotal(rows, f, t) == TagTotal(init, f, t);
    }
  }

  // ---------------------------------------------------------------------
  // Top cities

  /** The grouping key `(city, latitude, longitude)`. */
  datatype CityKey = CityKey(city: string, latitude: Option<real>, longitude: Option<real>)

  datatype CityEntry = CityEntry(city: string, count: nat, percentage: real, coordinates: (Option<real>, Option<real>))

  function CityOf(c: Candidate): CityKey
  {
    CityKey(c.city, c.latitude, c.longitude)
  }

  function CityCount(rows: seq<Candidate>, k: CityKey): nat
  {
    Count(rows, c => CityOf(c) == k)
  }

  function CityEntryOf(rows: seq<Candidate>, k: CityKey): CityEntry
  {
    CityEntry(k.city, CityCount(rows, k), Percentage(CityCount(rows, k), |rows|), (k.latitude, k.longitude))
  }

  /** One entry per distinct key, as the grouped count yields them. */
  function CityGroups(rows: seq<Candidate>): (r: seq<CityEntry>)
    ensures |r| <= |rows|
    ensures forall e :: e in r ==> e.percentage == Percentage(e.count, |rows|)
  {
    Map(Distinct(Map(rows, CityOf)), k => CityEntryOf(rows, k))
  }

  function PercentageOf(e: CityEntry): real
  {
    e.percentage
  }

  predicate HasCoordinates(e: CityEntry)
  {
    e.coordinates.0.Some? && e.coordinates.1.Some?
  }

  /** `top_cities`: sorted by descending percentage, then entries with a nil coordinate rejected. */
  function TopCities(rows: seq<Candidate>): (r: seq<CityEntry>)
    ensures |r| <= |rows|
    ensures forall e :: e in r ==> HasCoordinates(e) && e.percentage == Percentage(e.count, |rows|)
  {
    var groups := CityGroups(rows);
    var sorted := SortDesc(groups, PercentageOf);
    assert forall e :: e in sorted ==> e in groups by {
      forall e | e in sorted ensures e in groups {
        assert e in multiset(sorted);
      }
    }
    Filter(sorted, HasCoordinates)
  }

  /** The list is in non-increasing order of percentage and every entry has both coordinates. */
  lemma TopCitiesOrderedWithCoordinates(rows: seq<Candidate>)
    ensures NonIncreasing(TopCities(rows), PercentageOf)
    ensures forall e :: e in TopCities(rows) ==> e.coordinates.0.Some? && e.coordinates.1.Some?
  {
    FilterNonIncreasing(SortDesc(CityGroups(rows), PercentageOf), HasCoordinates, PercentageOf);
  }

  /** Every entry is the group of some rows: its count is theirs and is positive. */
  lemma TopCitiesEntriesAreGroups(rows: seq<Candidate>, e: CityEntry)
    requires e in TopCities(rows)
    ensures exists i :: 0 <= i < |rows| && e == CityEntryOf(rows, CityOf(rows[i]))
    ensures e.count > 0
  {
    var sorted := SortDesc(CityGroups(rows), PercentageOf);
    assert e in sorted;
    assert e in multiset(sorted);
    var keys := Distinct(Map(rows, CityOf));
    var j :| 0 <= j < |keys| && CityGroups(rows)[j] == e;
    var k := keys[j];
    assert k in Map(rows, CityOf);
    var i :| 0 <= i < |rows| && Map(rows, CityOf)[i] == k;
    CountPositive(rows, c => CityOf(c) == k);
    assert (c => CityOf(c) == k)(rows[i]);
  }

  /** Every located row's city appears, with its group's count. */
  lemma TopCitiesComplete(rows: seq<Candidate>, i: int)
    requires 0 <= i < |rows|
    requires rows[i].latitude.Some? && rows[i].longitude.Some?
    ensures CityEntryOf(rows, CityOf(rows[i])) in TopCities(rows)
  {
    var k := CityOf(rows[i]);
    assert Map(rows, CityOf)[i] == k;
    var keys := Distinct(Map(rows, CityOf));
    assert k in keys;
    var j :| 0 <= j < |keys| && keys[j] == k;
    assert CityGroups(rows)[j] == CityEntryOf(rows, k);
    var sorted := SortDesc(CityGroups(rows), PercentageOf);
    assert CityEntryOf(rows, k) in multiset(sorted);
  }

  // ---------------------------------------------------------------------
  // Attachment counts and ratio

  /** `has_resume > 0`: the `resume` slot (not the captured resume image) is attached. */
  predicate HasResume(c: Candidate) { c.resume }

  /** `has_video > 0` */
  predicate HasVideo(c: Candidate) { c.introVideo }

  /** `is_complete == 1`: resume, video and photo all attached. */
  predicate IsComplete(c: Candidate) { c.resume && c.introVideo && c.photo }

  datatype AttachmentCounts = AttachmentCounts(resume: nat, video: nat, completed: nat)

  /** The counts `set_dashboard_counts` takes over the attachment rows. */
  function CountAttachments(rows: seq<Candidate>): (r: AttachmentCounts)
    ensures r.resume == Count(rows, HasResume) && r.video == Count(rows, HasVideo)
    ensures r.completed == Count(rows, IsComplete)
    ensures r.completed <= r.resume <= |rows| && r.completed <= r.video <= |rows|
  {
    CountMonotone(rows, IsComplete, HasResume);
    CountMonotone(rows, IsComplete, HasVideo);
    AttachmentCounts(Count(rows, HasResume), Count(rows, HasVideo), Count(rows, IsComplete))
  }

  /** `calculate_resume_to_video_ratio`: the shares of `total` and `video` in their sum. */
  function ResumeToVideoRatio(total: nat, video: nat): (r: (real, real))
    ensures total + video == 0 ==> r == (0.0, 0.0)
    ensures total + video != 0 ==>
      r.0 * (total + video) as real == 100.0 * total as real
      && r.1 * (total + video) as real == 100.0 * video as real
  {
    var parts := total + video;
    if parts == 0 then (0.0, 0.0)
    else (total as real / parts as real * 100.0, video as real / parts as real * 100.0)
  }

  /** When there is anything to share, the two sides add up to 100. */
  lemma RatioSumsToHundred(total: nat, video: nat)
    requires total + video > 0
    ensures ResumeToVideoRatio(total, video).0 + ResumeToVideoRatio(total, video).1 == 100.0
  {
    var r := ResumeToVideoRatio(total, video);
    var p := (total + video) as real;
    var t := total as real;
    var v := video as real;
    assert r == (t / p * 100.0, v / p * 100.0);
    assert t / p + v / p == (t + v) / p;
    assert (t + v) / p == 1.0;
  }

  // ---------------------------------------------------------------------
  // Filters, previous period and the whole payload

  /** Parsed `start_date` and `end_date`. */
  datatype DateRange = DateRange(start: int, end: int)

  datatype DashboardParams = DashboardParams(dates: Option<DateRange>, jobFunction: string, industry: ListParam)

  /** `beginning_of_day` in UTC. */
  function DayStart(t: int): (r: int)
    ensures r <= t < r + DAY
    ensures r % DAY == 0
  {
    t - t % DAY
  }

  predicate InDates(c: Candidate, d: DateRange)
  {
    DayStart(d.start) <= c.createdAt <= d.end
  }

  /** `filtered_candidates`: the date range, then the function, then the industry overlap. */
  function FilteredCandidates(all: seq<Candidate>, p: DashboardParams): (r: seq<Candidate>)
    ensures forall c :: c in r <==>
      c in all
      && (p.dates.Some? ==> InDates(c, p.dates.value))
      && (Present(p.jobFunction) ==> FunctionName(c) == Some(p.jobFunction))
      && (ListPresent(p.industry) ==> Overlaps(c.industries, AsList(p.industry)))
  {
    var byDate := if p.dates.Some? then Filter(all, (c: Candidate) => InDates(c, p.dates.value)) else all;
    var byFunction := if Present(p.jobFunction) then Filter(byDate, (c: Candidate) => FunctionName(c) == Some(p.jobFunction)) else byDate;
    if ListPresent(p.industry) then Filter(byFunction, (c: Candidate) => Overlaps(c.industries, AsList(p.industry))) else byFunction
  }

  /** `Candidate.minimum(:created_at)` */
  function MinCreatedAt(all: seq<Candidate>): (r: int)
    requires all != []
    ensures forall c :: c in all ==> r <= c.createdAt
    ensures exists c :: c in all && r == c.createdAt
  {
    if |all| == 1 then all[0].createdAt
    else
      var m := MinCreatedAt(all[1..]);
      assert forall c :: c in all ==> c == all[0] || c in all[1..];
      if all[0].createdAt <= m then all[0].createdAt else m
  }

  /** The previous period: from the day of the first candidate to the end of the day before `start_date`. */
  predicate InPreviousPeriod(all: seq<Candidate>, d: DateRange, c: Candidate)
    requires all != []
  {
    DayStart(MinCreatedAt(all)) <= c.createdAt <= DayStart(DayStart(d.start) - DAY) + DAY - 1
  }

  /** The candidates of the previous period (all candidates, without the function and industry filters). */
  function PreviousCandidates(all: seq<Candidate>, d: DateRange): seq<Candidate>
  {
    if all == [] then [] else Filter(all, c => InPreviousPeriod(all, d, c))
  }

  /** The previous period holds exactly the candidates created before the start day. */
  lemma PreviousPeriodIsEverythingBefore(all: seq<Candidate>, d: DateRange, c: Candidate)
    ensures c in PreviousCandidates(all, d) <==> c in all && c.createdAt < DayStart(d.start)
  {
    var s := DayStart(d.start);
    assert (s - DAY) % DAY == 0;
    assert DayStart(s - DAY) == s - DAY;
  }

  datatype Metric = Metric(value: real, trend: Option<real>)

  datatype Stage = Stage(count: nat, percentage: real)

  datatype DashboardData = DashboardData(
    totalApplicants: nat, totalTrend: Option<real>,
    resumeRate: Metric, videoRate: Metric, profileCompletion: Metric,
    generations: map<Option<Generation>, Bucket>,
    functions: map<string, FunctionEntry>,
    dropOff: seq<Stage>,
    topCities: seq<CityEntry>,
    resumeToVideoRatio: (real, real),
    dates: Option<DateRange>)

  /** The three attachment counts the dashboard reports. */
  datatype Kind = ResumeKind | VideoKind | CompletedKind

  function Pick(counts: AttachmentCounts, kind: Kind): nat
  {
    match kind
    case ResumeKind => counts.resume
    case VideoKind => counts.video
    case CompletedKind => counts.completed
  }

  /** The previous period's total and attachment counts, taken only when a date range is given. */
  function PreviousPeriod(all: seq<Candidate>, p: DashboardParams): (r: Option<(nat, AttachmentCounts)>)
    ensures r.Some? <==> p.dates.Some?
    ensures r.Some? ==> r.value.0 == |PreviousCandidates(all, p.dates.value)|
    ensures r.Some? ==> r.value.1 == CountAttachments(PreviousCandidates(all, p.dates.value))
  {
    if p.dates.Some? then
      var before := PreviousCandidates(all, p.dates.value);
      Some((|before|, CountAttachments(before)))
    else None
  }

  /** An upload rate, with its trend against the previous period only when there is one. */
  function Rate(kind: Kind, now: AttachmentCounts, total: nat, prev: Option<(nat, AttachmentCounts)>): (m: Metric)
    ensures m.value == Percentage(Pick(now, kind), total)
    ensures m.trend.Some? <==> prev.Some?
    ensures prev.Some? ==>
      m.trend.value == Trend(Percentage(Pick(now, kind), total), Percentage(Pick(prev.value.1, kind), prev.value.0))
  {
    var value := Percentage(Pick(now, kind), total);
    Metric(value, if prev.Some? then Some(Trend(value, Percentage(Pick(prev.value.1, kind), prev.value.0))) else None)
  }

  /** `drop_off_rate`: all applicants at 100, then the resume, video and completed stages. */
  function DropOff(total: nat, now: AttachmentCounts): (r: seq<Stage>)
    requires now.completed <= now.resume <= total && now.completed <= now.video <= total
    ensures |r| == 4 && r[0] == Stage(total, 100.0)
    ensures r[3].count <= r[1].count <= r[0].count && r[3].count <= r[2].count <= r[0].count
    ensures r[1].count == now.resume && r[2].count == now.video && r[3].count == now.completed
    ensures forall i :: 1 <= i < 4 ==> r[i].percentage == Percentage(r[i].count, total)
  {
    [Stage(total, 100.0),
     Stage(now.resume, Percentage(now.resume, total)),
     Stage(now.video, Percentage(now.video, total)),
     Stage(now.completed, Percentage(now.completed, total))]
  }

  /** `index`: the whole dashboard payload. */
  function Index(all: seq<Candidate>, p: DashboardParams): (data: DashboardData)
    ensures data.totalApplicants == |FilteredCandidates(all, p)|
    ensures data.totalTrend.Some? <==> p.dates.Some?
    ensures data.resumeRate.trend.Some? <==> p.dates.Some?
    ensures data.videoRate.trend.Some? <==> p.dates.Some?
    ensures data.profileCompletion.trend.Some? <==> p.dates.Some?
    ensures |data.dropOff| == 4 && data.dropOff[0] == Stage(data.totalApplicants, 100.0)
    ensures data.dropOff[3].count <= data.dropOff[1].count && data.dropOff[3].count <= data.dropOff[2].count
    ensures data.totalTrend.Some? ==>
      data.totalTrend.value == Trend(data.totalApplicants as real, |PreviousCandidates(all, p.dates.value)| as real)
    ensures data.resumeRate == Rate(ResumeKind, CountAttachments(FilteredCandidates(all, p)), data.totalApplicants, PreviousPeriod(all, p))
    ensures data.videoRate == Rate(VideoKind, CountAttachments(FilteredCandidates(all, p)), data.totalApplicants, PreviousPeriod(all, p))
    ensures data.profileCompletion == Rate(CompletedKind, CountAttachments(FilteredCandidates(all, p)), data.totalApplicants, PreviousPeriod(all, p))
    ensures data.dropOff == DropOff(data.totalApplicants, CountAttachments(FilteredCandidates(all, p)))
    ensures data.generations == GenerationalBreakdown(FilteredCandidates(all, p))
    ensures data.functions == Distribution(FilteredCandidates(all, p))
    ensures data.topCities == TopCities(FilteredCandidates(all, p))
    ensures data.resumeToVideoRatio == ResumeToVideoRatio(data.totalApplicants, CountAttachments(FilteredCandidates(all, p)).video)
    ensures data.dates.Some? <==> p.dates.Some?
    ensures data.dates.Some? ==>
      data.dates.value.start == DayStart(p.dates.value.start) && data.dates.value.start % DAY == 0
      && data.dates.value.end == p.dates.value.end
  {
    var rows := FilteredCandidates(all, p);
    var total := |rows|;
    var now := CountAttachments(rows);
    var prev := PreviousPeriod(all, p);
    DashboardData(
      total,
      if prev.Some? then Some(Trend(total as real, prev.value.0 as real)) else None,
      Rate(ResumeKind, now, total, prev),
      Rate(VideoKind, now, total, prev),
      Rate(CompletedKind, now, total, prev),
      GenerationalBreakdown(rows),
      Distribution(rows),
      DropOff(total, now),
      TopCities(rows),
      ResumeToVideoRatio(total, now.video),
      if p.dates.Some? then Some(DateRange(DayStart(p.dates.value.start), p.dates.value.end)) else None)
  }
}
