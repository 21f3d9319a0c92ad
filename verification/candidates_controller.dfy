/**
 * The candidate list behind the admin screens: the exact-match filter
 * map, the institute and city substring filters, the industry overlap,
 * newest-first ordering, the free-text search with `distinct`, the CSV
 * export projection, `sanitize_sql_like`, and the order of the checks in
 * `validate_email`.
 */
module CandidatesController {
  import opened Wrappers
  import opened Strings
  import opened Seqs
  import opened SqlLike
  import opened RequestParams
  import opened CandidateModel

  /** The query parameters `index` reads; a missing parameter is "". */
  datatype IndexParams = IndexParams(
    experience: string, jobFunction: string, expectedSalary: string,
    currentSalary: string, careerPhase: string,
    institute: string, city: string, industries: ListParam,
    search: string, exportFlag: string)

  // ---------------------------------------------------------------------
  // Exact-match conditions

  /** The keys `filter_conditions` may hold. */
  datatype ConditionKey = ExperienceKey | FunctionKey | ExpectedSalaryKey | CurrentSalaryKey | CareerPhaseKey

  function ParamFor(p: IndexParams, k: ConditionKey): string
  {
    match k
    case ExperienceKey => p.experience
    case FunctionKey => p.jobFunction
    case ExpectedSalaryKey => p.expectedSalary
    case CurrentSalaryKey => p.currentSalary
    case CareerPhaseKey => p.careerPhase
  }

  /** `filter_conditions`: one entry per present parameter, holding that parameter. */
  method FilterConditions(p: IndexParams) returns (conditions: map<ConditionKey, string>)
    ensures forall k :: k in conditions <==> Present(ParamFor(p, k))
    ensures forall k :: k in conditions ==> conditions[k] == ParamFor(p, k)
  {
    conditions := map[];
    if Present(p.experience) {
      conditions := conditions[ExperienceKey := p.experience];
    }
    if Present(p.jobFunction) {
      conditions := conditions[FunctionKey := p.jobFunction];
    }
    if Present(p.expectedSalary) {
      conditions := conditions[ExpectedSalaryKey := p.expectedSalary];
    }
    if Present(p.currentSalary) {
      conditions := conditions[CurrentSalaryKey := p.currentSalary];
    }
    if Present(p.careerPhase) {
      conditions := conditions[CareerPhaseKey := p.careerPhase];
    }
  }

  /** The `where` equality for one key; enum columns compare by label. */
  predicate MatchesCondition(c: Candidate, k: ConditionKey, v: string)
  {
    match k
    case ExperienceKey => ExperienceName(c) == Some(v)
    case FunctionKey => FunctionName(c) == Some(v)
    case ExpectedSalaryKey => c.expectedSalary == v
    case CurrentSalaryKey => c.currentSalary == v
    case CareerPhaseKey => c.careerPhase == v
  }

  /** `where(conditions)`: equal on every key the map holds. */
  predicate MatchesAll(c: Candidate, conditions: map<ConditionKey, string>)
  {
    forall k :: k in conditions ==> MatchesCondition(c, k, conditions[k])
  }

  // ---------------------------------------------------------------------
  // LIKE patterns

  predicate IsLikeSpecial(ch: char)
  {
    ch == '\\' || ch == '%' || ch == '_'
  }

  /** `gsub(/[\\%_]/) { |m| "\\#{m}" }` */
  function Escape(s: string): (r: string)
    ensures |r| >= |s|
  {
    if s == [] then []
    else (if IsLikeSpecial(s[0]) then ['\\', s[0]] else [s[0]]) + Escape(s[1..])
  }

  /** Removing every escaping backslash gives the input back. */
  function Unescape(r: string): string
  {
    if r == [] then []
    else if r[0] == '\\' && |r| >= 2 then [r[1]] + Unescape(r[2..])
    else [r[0]] + Unescape(r[1..])
  }

  lemma {:induction false} EscapeRoundTrip(s: string)
    ensures Unescape(Escape(s)) == s
  {
    if s != [] {
      EscapeRoundTrip(s[1..]);
      var e := Escape(s);
      if IsLikeSpecial(s[0]) {
        assert e[0] == '\\' && e[1] == s[0] && e[2..] == Escape(s[1..]);
      } else {
        assert e[0] == s[0] && e[1..] == Escape(s[1..]);
      }
    }
  }

  /** In the escaped string every special character is preceded by a backslash, and nothing else is added. */
  lemma {:induction false} EscapeShape(s: string)
    ensures |Escape(s)| == |s| + |Filter(s, IsLikeSpecial)|
  {
    if s != [] {
      EscapeShape(s[1..]);
    }
  }

  /** `sanitize_sql_like`: "" for a blank string, otherwise the escaped string. */
  function SanitizeSqlLike(s: string): (r: string)
    ensures Blank(s) ==> r == []
    ensures !Blank(s) ==> Unescape(r) == s
  {
    if Blank(s) then [] else EscapeRoundTrip(s); Escape(s)
  }

  lemma {:induction false} DowncaseCons(x: string, y: string)
    requires |x| == |y| > 0
    ensures Downcase(x) == Downcase(y) <==> Lower(x[0]) == Lower(y[0]) && Downcase(x[1..]) == Downcase(y[1..])
  {
    if Lower(x[0]) == Lower(y[0]) && Downcase(x[1..]) == Downcase(y[1..]) {
      forall i | 0 <= i < |x| ensures Downcase(x)[i] == Downcase(y)[i] {
        if i > 0 {
          assert Downcase(x[1..])[i - 1] == Downcase(y[1..])[i - 1];
        }
      }
    }
    if Downcase(x) == Downcase(y) {
      assert Downcase(x)[0] == Downcase(y)[0];
      forall i | 0 <= i < |x| - 1 ensures Downcase(x[1..])[i] == Downcase(y[1..])[i] {
        assert Downcase(x)[i + 1] == Downcase(y)[i + 1];
      }
    }
  }

  /** A literal character at the head of a pattern matches exactly that character, ignoring case. */
  lemma LiteralHead(s: string, c: char, rest: string)
    requires !IsLikeSpecial(c)
    ensures ILike(s, [c] + rest) <==> s != [] && Lower(s[0]) == Lower(c) && ILike(s[1..], rest)
  {
    var pat := [c] + rest;
    assert pat[0] == c && pat[1..] == rest;
  }

  /** A backslash-escaped character at the head of a pattern matches exactly that character, ignoring case. */
  lemma EscapedCharHead(s: string, c: char, rest: string)
    ensures ILike(s, ['\\', c] + rest) <==> s != [] && Lower(s[0]) == Lower(c) && ILike(s[1..], rest)
  {
    var pat := ['\\', c] + rest;
    assert |pat| >= 2 && pat[0] == '\\' && pat[1] == c && pat[2..] == rest;
  }

  /** The first escaped character of a pattern matches exactly that character, ignoring case. */
  lemma EscapedHead(s: string, p: string, q: string)
    requires p != []
    ensures ILike(s, Escape(p) + q) <==>
      s != [] && Lower(s[0]) == Lower(p[0]) && ILike(s[1..], Escape(p[1..]) + q)
  {
    var rest := Escape(p[1..]) + q;
    var head := if IsLikeSpecial(p[0]) then ['\\', p[0]] else [p[0]];
    assert Escape(p) == head + Escape(p[1..]);
    assert Escape(p) + q == head + rest;
    if IsLikeSpecial(p[0]) {
      EscapedCharHead(s, p[0], rest);
    } else {
      LiteralHead(s, p[0], rest);
    }
  }

  /** An escaped string at the head of a pattern matches exactly its own text, ignoring case. */
  lemma {:induction false} EscapedPrefix(s: string, p: string, q: string)
    ensures ILike(s, Escape(p) + q) <==>
      |p| <= |s| && Downcase(s[..|p|]) == Downcase(p) && ILike(s[|p|..], q)
  {
    if p == [] {
      assert Escape(p) + q == q;
      assert s[0..] == s;
    } else {
      EscapedHead(s, p, q);
      if s != [] {
        EscapedPrefix(s[1..], p[1..], q);
        if |p| <= |s| {
          DowncaseCons(s[..|p|], p);
          assert s[..|p|][1..] == s[1..][..|p| - 1];
          assert s[1..][|p| - 1..] == s[|p|..];
        }
      }
    }
  }

  /** `ILIKE '%<sanitized p>%'` is exactly a case-insensitive substring test. */
  lemma SanitizedContains(s: string, p: string)
    requires Present(p)
    ensures ILike(s, "%" + SanitizeSqlLike(p) + "%") <==> ContainsCI(s, p)
  {
    var rest := Escape(p) + "%";
    assert "%" + SanitizeSqlLike(p) + "%" == "%" + rest;
    LeadingPercent(s, rest);
    if ContainsCI(s, p) {
      var k :| 0 <= k <= |s| && OccursAt(s, p, k);
      EscapedMatchesAt(s, p, k);
    }
    if exists k :: 0 <= k <= |s| && ILike(s[k..], rest) {
      var k :| 0 <= k <= |s| && ILike(s[k..], rest);
      EscapedMatchesAt(s, p, k);
    }
  }

  /** The escaped text followed by `%` matches the suffix from `k` exactly when the text occurs at `k`. */
  lemma EscapedMatchesAt(s: string, p: string, k: nat)
    requires k <= |s|
    ensures ILike(s[k..], Escape(p) + "%") <==> OccursAt(s, p, k)
  {
    EscapedPrefix(s[k..], p, "%");
    if |p| <= |s[k..]| {
      assert s[k..][..|p|] == s[k..k + |p|];
      PercentMatchesAll(s[k..][|p|..]);
    }
  }

  // ---------------------------------------------------------------------
  // Text and industry filters

  /** The exact-match part of the selection: equal on every present parameter. */
  predicate ExactMatch(c: Candidate, p: IndexParams)
  {
    forall k :: Present(ParamFor(p, k)) ==> MatchesCondition(c, k, ParamFor(p, k))
  }

  /** A map built as `filter_conditions` builds it matches exactly the candidates equal on every present parameter. */
  lemma ConditionsMatchParams(p: IndexParams, conditions: map<ConditionKey, string>, c: Candidate)
    requires forall k :: k in conditions <==> Present(ParamFor(p, k))
    requires forall k :: k in conditions ==> conditions[k] == ParamFor(p, k)
    ensures MatchesAll(c, conditions) <==> ExactMatch(c, p)
  {
  }

  /** The institute and city part: each present parameter is a case-insensitive substring. */
  predicate TextMatch(c: Candidate, p: IndexParams)
  {
    (Present(p.institute) ==> ContainsCI(c.institute, p.institute))
    && (Present(p.city) ==> ContainsCI(c.city, p.city))
  }

  /** The industry part: when the parameter is present, some industry is shared. */
  predicate IndustryMatch(c: Candidate, p: IndexParams)
  {
    ListPresent(p.industries) ==> Overlaps(c.industries, AsList(p.industries))
  }

  /** The ordering key of `order(created_at: :desc)`. */
  function CreatedAt(c: Candidate): real
  {
    c.createdAt as real
  }

  /** `apply_text_search_filters` as written: the raw parameter goes into the pattern. */
  function TextSearchAsWritten(scope: seq<Candidate>, p: IndexParams): (r: seq<Candidate>)
    ensures forall c :: c in r <==>
      && c in scope
      && (Present(p.institute) ==> ILike(c.institute, "%" + p.institute + "%"))
      && (Present(p.city) ==> ILike(c.city, "%" + p.city + "%"))
  {
    var byInstitute := if Present(p.institute) then Filter(scope, (c: Candidate) => ILike(c.institute, "%" + p.institute + "%")) else scope;
    if Present(p.city) then Filter(byInstitute, (c: Candidate) => ILike(c.city, "%" + p.city + "%")) else byInstitute
  }

  /** A city search for "_" keeps a candidate from Lahore, whose city has no underscore in it. */
  lemma UnderscoreMatchesAnyCity()
    ensures var c := Candidate(1, "A", "B", "a@b.co", "1", Some(1990), Some(0), Some(0), "1", "x", "", "U",
                               false, "", "", None, "addr", "Lahore", "Punjab", ["other"], None, None, 0, 0,
                               true, false, true, false);
            var p := IndexParams("", "", "", "", "", "", "_", Absent, "", "");
            TextSearchAsWritten([c], p) == [c] && !ContainsCI(c.city, p.city)
  {
    UnderscorePatternMatchesNonEmpty("Lahore");
  }

  /** The pattern built from a bare "_" matches every non-empty string. */
  lemma UnderscorePatternMatchesNonEmpty(s: string)
    requires s != []
    ensures ILike(s, "%" + "_" + "%")
  {
    PercentMatchesAll(s[1..]);
    var pat := "%" + "_" + "%";
    assert pat[0] == '%' && pat[1..] == "_%";
    assert ILike(s, pat[1..]);
  }

  /** The corrected filters: the parameter is sanitised before it goes into the pattern. */
  method ApplyTextSearchFilters(scope: seq<Candidate>, p: IndexParams) returns (r: seq<Candidate>)
    ensures r == Filter(scope, (c: Candidate) => TextMatch(c, p))
    ensures forall c :: c in r <==> c in scope && TextMatch(c, p)
    ensures NonIncreasing(scope, CreatedAt) ==> NonIncreasing(r, CreatedAt)
  {
    r := scope;
    ghost var byInstitute := (c: Candidate) => Present(p.institute) ==> ContainsCI(c.institute, p.institute);
    if Present(p.institute) {
      forall c: Candidate ensures ILike(c.institute, "%" + SanitizeSqlLike(p.institute) + "%") <==> ContainsCI(c.institute, p.institute) {
        SanitizedContains(c.institute, p.institute);
      }
      if NonIncreasing(r, CreatedAt) {
        FilterNonIncreasing(r, (c: Candidate) => ILike(c.institute, "%" + SanitizeSqlLike(p.institute) + "%"), CreatedAt);
      }
      r := Filter(r, (c: Candidate) => ILike(c.institute, "%" + SanitizeSqlLike(p.institute) + "%"));
      FilterEquivalent(scope, (c: Candidate) => ILike(c.institute, "%" + SanitizeSqlLike(p.institute) + "%"), byInstitute);
    } else {
      FilterAll(scope, byInstitute);
    }
    assert r == Filter(scope, byInstitute);
    if Present(p.city) {
      forall c: Candidate ensures ILike(c.city, "%" + SanitizeSqlLike(p.city) + "%") <==> ContainsCI(c.city, p.city) {
        SanitizedContains(c.city, p.city);
      }
      if NonIncreasing(r, CreatedAt) {
        FilterNonIncreasing(r, (c: Candidate) => ILike(c.city, "%" + SanitizeSqlLike(p.city) + "%"), CreatedAt);
      }
      ghost var before := r;
      r := Filter(r, (c: Candidate) => ILike(c.city, "%" + SanitizeSqlLike(p.city) + "%"));
      FilterEquivalent(before, (c: Candidate) => ILike(c.city, "%" + SanitizeSqlLike(p.city) + "%"), (c: Candidate) => ContainsCI(c.city, p.city));
      FilterFilter(scope, byInstitute, (c: Candidate) => ContainsCI(c.city, p.city), (c: Candidate) => TextMatch(c, p));
    } else {
      FilterEquivalent(scope, byInstitute, (c: Candidate) => TextMatch(c, p));
    }
  }

  /** `apply_industry_filter`: keep the candidates sharing an industry with the parameter. */
  function IndustryFilter(scope: seq<Candidate>, p: IndexParams): (r: seq<Candidate>)
    ensures r == Filter(scope, (c: Candidate) => IndustryMatch(c, p))
    ensures forall c :: c in r <==> c in scope && IndustryMatch(c, p)
  {
    if !ListPresent(p.industries) then
      FilterAll(scope, (c: Candidate) => IndustryMatch(c, p));
      scope
    else
      FilterEquivalent(scope, (c: Candidate) => Overlaps(c.industries, AsList(p.industries)), (c: Candidate) => IndustryMatch(c, p));
      Filter(scope, (c: Candidate) => Overlaps(c.industries, AsList(p.industries)))
  }

  // ---------------------------------------------------------------------
  // The filtered, ordered list

  /** `order(created_at: :desc)` */
  function NewestFirst(all: seq<Candidate>): (r: seq<Candidate>)
    ensures NonIncreasing(r, CreatedAt)
    ensures multiset(r) == multiset(all)
  {
    SortDesc(all, CreatedAt)
  }

  /** What `filtered_candidates` keeps, stated per parameter. */
  predicate Selected(c: Candidate, p: IndexParams)
  {
    ExactMatch(c, p) && TextMatch(c, p) && IndustryMatch(c, p)
  }

  /**
   * `filtered_candidates`: newest first, then each filter in turn. The
   * result is the newest-first order restricted to the selected candidates,
   * each as often as in the table.
   */
  method FilteredCandidates(all: seq<Candidate>, p: IndexParams) returns (scope: seq<Candidate>)
    ensures scope == Filter(NewestFirst(all), (c: Candidate) => Selected(c, p))
    ensures multiset(scope) == multiset(Filter(all, (c: Candidate) => Selected(c, p)))
    ensures NonIncreasing(scope, CreatedAt)
    ensures forall c :: c in scope <==> c in all && Selected(c, p)
  {
    var sorted := NewestFirst(all);
    scope := sorted;
    assert forall c :: c in scope <==> c in all by {
      assert forall c :: c in scope <==> c in multiset(scope);
    }
    var conditions := FilterConditions(p);
    forall c ensures MatchesAll(c, conditions) <==> ExactMatch(c, p) {
      ConditionsMatchParams(p, conditions, c);
    }
    if |conditions| > 0 {
      FilterNonIncreasing(scope, (c: Candidate) => MatchesAll(c, conditions), CreatedAt);
      scope := Filter(scope, (c: Candidate) => MatchesAll(c, conditions));
      FilterEquivalent(sorted, (c: Candidate) => MatchesAll(c, conditions), (c: Candidate) => ExactMatch(c, p));
    } else {
      FilterAll(sorted, (c: Candidate) => ExactMatch(c, p));
    }
    ghost var exact := scope;
    assert exact == Filter(sorted, (c: Candidate) => ExactMatch(c, p));
    scope := ApplyTextSearchFilters(scope, p);
    ghost var text := scope;
    FilterFilter(sorted, (c: Candidate) => ExactMatch(c, p), (c: Candidate) => TextMatch(c, p),
                 (c: Candidate) => ExactMatch(c, p) && TextMatch(c, p));
    FilterNonIncreasing(scope, (c: Candidate) => IndustryMatch(c, p), CreatedAt);
    scope := IndustryFilter(scope, p);
    FilterFilter(sorted, (c: Candidate) => ExactMatch(c, p) && TextMatch(c, p), (c: Candidate) => IndustryMatch(c, p),
                 (c: Candidate) => Selected(c, p));
    FilterPermutation(sorted, all, (c: Candidate) => Selected(c, p));
  }

  // ---------------------------------------------------------------------
  // Search, export and the index response

  /** The ransack `..._cont` search over the eight text columns. */
  predicate MatchesSearch(c: Candidate, term: string)
  {
    ContainsCI(c.firstName, term) || ContainsCI(c.lastName, term) || ContainsCI(c.contactNumber, term)
    || ContainsCI(c.email, term) || ContainsCI(c.address, term) || ContainsCI(c.city, term)
    || ContainsCI(c.institute, term) || ContainsCI(c.currentEmployer, term)
  }

  /** A value in an exported row. */
  datatype Cell = Text(text: string) | Number(number: int) | Flag(flag: bool) | Decimal(decimal: real) | Tags(tags: seq<string>) | Null

  /** `Candidate.column_names`, in table order. */
  const COLUMN_NAMES: seq<string> := [
    "id", "first_name", "last_name", "email", "contact_number", "dob", "education", "experience",
    "expected_salary", "career_phase", "additional_notes", "institute", "currently_employed",
    "current_salary", "current_employer", "function", "address", "city", "state",
    "created_at", "updated_at", "industries", "latitude", "longitude"]

  /** The columns the export leaves out. */
  const EXCLUDED_COLUMNS: seq<string> := ["id", "created_at", "updated_at", "longitude", "latitude"]

  function OptionalNumber(v: Option<int>): Cell
  {
    if v.Some? then Number(v.value) else Null
  }

  function OptionalText(v: Option<string>): Cell
  {
    if v.Some? then Text(v.value) else Null
  }

  function OptionalDecimal(v: Option<real>): Cell
  {
    if v.Some? then Decimal(v.value) else Null
  }

  /** A record's values, one per entry of `COLUMN_NAMES`; enum columns render their labels. */
  function Cells(c: Candidate): (r: seq<Cell>)
    ensures |r| == |COLUMN_NAMES|
  {
    [Number(c.id), Text(c.firstName), Text(c.lastName), Text(c.email), Text(c.contactNumber),
     OptionalNumber(c.dobYear), OptionalText(EducationName(c)), OptionalText(ExperienceName(c)),
     Text(c.expectedSalary), Text(c.careerPhase), Text(c.additionalNotes), Text(c.institute),
     Flag(c.currentlyEmployed), Text(c.currentSalary), Text(c.currentEmployer), OptionalText(FunctionName(c)),
     Text(c.address), Text(c.city), Text(c.state), Number(c.createdAt), Number(c.updatedAt),
     Tags(c.industries), OptionalDecimal(c.latitude), OptionalDecimal(c.longitude)]
  }

  predicate Exported(column: (string, Cell))
  {
    column.0 !in EXCLUDED_COLUMNS
  }

  /** One CSV row: the record's columns minus the excluded ones, in table order. */
  function ExportRow(c: Candidate): (r: seq<(string, Cell)>)
    ensures forall e :: e in r ==> e.0 in COLUMN_NAMES && e.0 !in EXCLUDED_COLUMNS
  {
    var cells := Cells(c);
    Filter(seq(|COLUMN_NAMES|, i requires 0 <= i < |COLUMN_NAMES| => (COLUMN_NAMES[i], cells[i])), Exported)
  }

  /** An export row never holds an excluded column, and holds every other column with its value. */
  lemma ExportRowColumns(c: Candidate)
    ensures forall e :: e in ExportRow(c) ==> e.0 !in EXCLUDED_COLUMNS
    ensures forall i :: 0 <= i < |COLUMN_NAMES| && COLUMN_NAMES[i] !in EXCLUDED_COLUMNS ==>
      (COLUMN_NAMES[i], Cells(c)[i]) in ExportRow(c)
  {
    var cells := Cells(c);
    var all := seq(|COLUMN_NAMES|, i requires 0 <= i < |COLUMN_NAMES| => (COLUMN_NAMES[i], cells[i]));
    forall i | 0 <= i < |COLUMN_NAMES| && COLUMN_NAMES[i] !in EXCLUDED_COLUMNS
      ensures (COLUMN_NAMES[i], Cells(c)[i]) in ExportRow(c)
    {
      assert all[i] == (COLUMN_NAMES[i], cells[i]);
    }
  }

  /**
   * What `index` renders. `ExportRejected` is the 500 envelope for the
   * export of a search: the query becomes `SELECT DISTINCT <exported
   * columns> ... ORDER BY created_at DESC`, and PostgreSQL refuses an
   * ORDER BY expression of a SELECT DISTINCT that is not in its select list.
   */
  datatype IndexResponse = CsvData(rows: seq<seq<(string, Cell)>>) | Listing(candidates: seq<Candidate>) | ExportRejected

  /**
   * The selected candidates, restricted to the search term when there is
   * one; Ransack strips the term's surrounding whitespace first.
   */
  predicate Listed(c: Candidate, all: seq<Candidate>, p: IndexParams)
  {
    c in all && Selected(c, p) && (Present(p.search) ==> MatchesSearch(c, Strip(p.search)))
  }

  /**
   * The search step of `index`: the ransack `_cont` condition on the
   * stripped term over the filtered candidates, and `distinct` when a term
   * is present. Without a term every selected candidate stays, as often as
   * in the table.
   */
  method Search(all: seq<Candidate>, p: IndexParams) returns (result: seq<Candidate>)
    ensures forall c :: c in result <==> Listed(c, all, p)
    ensures NonIncreasing(result, CreatedAt)
    ensures Present(p.search) ==> NoDuplicates(result)
    ensures Blank(p.search) ==> multiset(result) == multiset(Filter(all, (c: Candidate) => Selected(c, p)))
  {
    result := FilteredCandidates(all, p);
    if Present(p.search) {
      var term := Strip(p.search);
      FilterNonIncreasing(result, (c: Candidate) => MatchesSearch(c, term), CreatedAt);
      DistinctNonIncreasing(Filter(result, (c: Candidate) => MatchesSearch(c, term)), CreatedAt);
      result := Distinct(Filter(result, (c: Candidate) => MatchesSearch(c, term)));
    }
  }

  /** `index`: search, then export or list. */
  method Index(all: seq<Candidate>, p: IndexParams) returns (response: IndexResponse)
    ensures response.CsvData? <==> Downcase(p.exportFlag) == "true" && Blank(p.search)
    ensures response.ExportRejected? <==> Downcase(p.exportFlag) == "true" && Present(p.search)
    ensures response.Listing? ==> NoDuplicates(response.candidates) || Blank(p.search)
    ensures response.Listing? ==> forall c :: c in response.candidates <==> Listed(c, all, p)
    ensures response.Listing? ==> NonIncreasing(response.candidates, CreatedAt)
    ensures response.Listing? && Blank(p.search) ==>
      multiset(response.candidates) == multiset(Filter(all, (c: Candidate) => Selected(c, p)))
    ensures response.CsvData? ==>
      exists listing :: response.rows == Map(listing, ExportRow)
        && NonIncreasing(listing, CreatedAt) && (forall c :: c in listing <==> Listed(c, all, p))
        && multiset(listing) == multiset(Filter(all, (c: Candidate) => Selected(c, p)))
    ensures response.CsvData? ==> forall row, e :: row in response.rows && e in row ==> e.0 !in EXCLUDED_COLUMNS
  {
    var result := Search(all, p);
    if Downcase(p.exportFlag) == "true" {
      if Present(p.search) {
        response := ExportRejected;
      } else {
        var rows := Map(result, ExportRow);
        forall row: seq<(string, Cell)>, e: (string, Cell) | row in rows && e in row ensures e.0 !in EXCLUDED_COLUMNS {
          var i :| 0 <= i < |result| && rows[i] == row;
          ExportRowColumns(result[i]);
        }
        response := CsvData(rows);
      }
    } else {
      response := Listing(result);
    }
  }

  // ---------------------------------------------------------------------
  // validate_email

  datatype EmailCheck = EmailRequired | EmailDoesNotExist | EmailAlreadyRegistered | EmailAvailable

  /**
   * `validate_email` as written: strip, reject blank, then the mailbox check
   * (`deliverable`, an external lookup), then an exact lookup of the stripped
   * string among the stored emails.
   */
  function ValidateEmailAsWritten(param: string, deliverable: string -> bool, stored: set<string>): (r: EmailCheck)
    ensures r == EmailRequired <==> Blank(Strip(param))
    ensures r == EmailDoesNotExist <==> !Blank(Strip(param)) && !deliverable(Strip(param))
    ensures r == EmailAlreadyRegistered <==> !Blank(Strip(param)) && deliverable(Strip(param)) && Strip(param) in stored
  {
    var email := Strip(param);
    if Blank(email) then EmailRequired
    else if !deliverable(email) then EmailDoesNotExist
    else if email in stored then EmailAlreadyRegistered
    else EmailAvailable
  }

  /** The corrected check: the existence lookup uses the normalised email, as stored. */
  function ValidateEmail(param: string, deliverable: string -> bool, stored: set<string>): (r: EmailCheck)
    ensures r == EmailRequired <==> Blank(Strip(param))
    ensures r == EmailDoesNotExist <==> !Blank(Strip(param)) && !deliverable(Strip(param))
    ensures r == EmailAlreadyRegistered <==>
      !Blank(Strip(param)) && deliverable(Strip(param)) && NormalizedEmail(param) in stored
  {
    var email := Strip(param);
    if Blank(email) then EmailRequired
    else if !deliverable(email) then EmailDoesNotExist
    else if NormalizedEmail(param) in stored then EmailAlreadyRegistered
    else EmailAvailable
  }

  /**
   * A stored email typed with an upper-case letter: the as-written check
   * reports it as available, while the corrected check finds it, and the
   * uniqueness validation of the save would reject it.
   */
  lemma AsWrittenMissesUppercaseDuplicate(param: string, deliverable: string -> bool, stored: set<string>)
    requires !Blank(Strip(param)) && deliverable(Strip(param))
    requires NormalizedEmail(param) in stored && Strip(param) !in stored
    ensures ValidateEmailAsWritten(param, deliverable, stored) == EmailAvailable
    ensures ValidateEmail(param, deliverable, stored) == EmailAlreadyRegistered
    ensures EmailAlreadyUsed in EmailErrors(NormalizedEmail(param), stored)
  {
  }

  /** An email the corrected check reports as available passes the model's uniqueness validation. */
  lemma AvailableEmailIsUnique(param: string, deliverable: string -> bool, stored: set<string>)
    requires ValidateEmail(param, deliverable, stored) == EmailAvailable
    ensures EmailAlreadyUsed !in EmailErrors(NormalizedEmail(param), stored)
  {
  }
}
