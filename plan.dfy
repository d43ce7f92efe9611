/**
  The job-recommendation page (`JobRecommendation`): how the comma-separated
  skills field becomes the list sent to the backend, and the helpers that
  turn one recommended job into what is shown for it: the match-colour
  bucket, the growth icon, the first-truthy field fallbacks and the
  digit-run salary estimate.
 */
module Plan {
  import opened JsText
  import opened JsArray

  // ---------------------------------------------------------------------------
  // skills.split(',').map(skill => skill.trim()).filter(skill => skill.length > 0)
  // ---------------------------------------------------------------------------

  const Comma: CodeUnit := ',' as int

  /** `s.split(sep)` for a one-unit separator: the pieces between separators,
      so a string with `k` separators has `k + 1` pieces (the empty string
      gives one empty piece). */
  function Split(s: JsString, sep: CodeUnit): (r: seq<JsString>)
    ensures |r| >= 1
    ensures forall i | 0 <= i < |r| :: sep !in r[i]
    decreases |s|
  {
    if s == [] then [[]]
    else
      var rest := Split(s[1..], sep);
      if s[0] == sep then [[]] + rest
      else [[s[0]] + rest[0]] + rest[1..]
  }

  /** `parts.join(sep)`. */
  function Join(parts: seq<JsString>, sep: CodeUnit): JsString
    requires |parts| >= 1
  {
    if |parts| == 1 then parts[0] else parts[0] + [sep] + Join(parts[1..], sep)
  }

  /** Joining the pieces with the separator gives back the string. */
  lemma {:induction false} JoinSplit(s: JsString, sep: CodeUnit)
    ensures Join(Split(s, sep), sep) == s
    decreases |s|
  {
    if s != [] {
      JoinSplit(s[1..], sep);
      var rest := Split(s[1..], sep);
      if s[0] == sep {
        assert s == [sep] + s[1..];
      } else {
        var head := [s[0]] + rest[0];
        if |rest| == 1 {
          assert s == [s[0]] + s[1..];
        } else {
          assert s == [s[0]] + s[1..];
          assert Join(rest, sep) == rest[0] + [sep] + Join(rest[1..], sep);
          assert ([head] + rest[1..])[1..] == rest[1..];
        }
      }
    }
  }

  /** Splitting a join of separator-free pieces gives back the pieces. */
  lemma {:induction false} SplitJoin(parts: seq<JsString>, sep: CodeUnit)
    requires |parts| >= 1
    requires forall i | 0 <= i < |parts| :: sep !in parts[i]
    ensures Split(Join(parts, sep), sep) == parts
    decreases |parts|, |parts[0]|
  {
    if |parts| == 1 {
      SplitSeparatorFree(parts[0], sep);
    } else {
      var tail := Join(parts[1..], sep);
      SplitJoin(parts[1..], sep);
      SplitAfterPrefix(parts[0], tail, sep);
    }
  }

  /** A string without the separator splits into itself. */
  lemma {:induction false} SplitSeparatorFree(s: JsString, sep: CodeUnit)
    requires sep !in s
    ensures Split(s, sep) == [s]
    decreases |s|
  {
    if s != [] {
      SplitSeparatorFree(s[1..], sep);
      assert [s[0]] + s[1..] == s;
    }
  }

  /** Splitting `p + [sep] + t` for a separator-free `p`: `p` is the first piece
      and the pieces of `t` follow. */
  lemma {:induction false} SplitAfterPrefix(p: JsString, t: JsString, sep: CodeUnit)
    requires sep !in p
    ensures Split(p + [sep] + t, sep) == [p] + Split(t, sep)
    decreases |p|
  {
    var s := p + [sep] + t;
    if p == [] {
      assert s == [sep] + t && s[1..] == t;
    } else {
      assert s[1..] == p[1..] + [sep] + t;
      SplitAfterPrefix(p[1..], t, sep);
      assert [p[0]] + p[1..] == p;
    }
  }

  /** Every piece after `trim`, in order. */
  function TrimAll(parts: seq<JsString>): (r: seq<JsString>)
    ensures |r| == |parts|
    ensures forall i | 0 <= i < |r| :: r[i] == Trim(parts[i])
  {
    seq(|parts|, i requires 0 <= i < |parts| => Trim(parts[i]))
  }

  /** The list of skills sent as `skills` in the request. */
  function ParseSkills(s: JsString): (r: seq<JsString>)
    ensures forall x | x in r :: x != [] && !IsWhiteSpace(x[0]) && !IsWhiteSpace(x[|x| - 1])
    ensures forall x | x in r :: Comma !in x
  {
    var pieces := Split(s, Comma);
    var trimmed := TrimAll(pieces);
    TrimmedPiecesShape(pieces);
    Filter(trimmed, x => |x| > 0)
  }

  /** Trimmed pieces without a comma have no comma and no white space at
      either end. */
  lemma TrimmedPiecesShape(pieces: seq<JsString>)
    requires forall p | p in pieces :: Comma !in p
    ensures forall x | x in TrimAll(pieces) ::
      Comma !in x && (x == [] || (!IsWhiteSpace(x[0]) && !IsWhiteSpace(x[|x| - 1])))
  {
    var trimmed := TrimAll(pieces);
    forall x | x in trimmed
      ensures Comma !in x && (x == [] || (!IsWhiteSpace(x[0]) && !IsWhiteSpace(x[|x| - 1])))
    {
      var i :| 0 <= i < |trimmed| && trimmed[i] == x;
      TrimmedCharsComeFromInput(pieces[i]);
      TrimSpec(pieces[i]);
    }
  }

  /** Every code unit of a trimmed piece was in the piece. */
  lemma TrimmedCharsComeFromInput(s: JsString)
    ensures forall c | c in Trim(s) :: c in s
  {
    var a := LeadingWhiteSpace(s);
    var r := Trim(s);
    TrimSpec(s);
    forall c | c in r ensures c in s {
      var k :| 0 <= k < |r| && r[k] == c;
      assert s[a + k] == c;
    }
  }

  /** The skills keep the order in which they were typed: they are the
      non-empty trimmed pieces, each as often as it was typed (a repeated
      skill is sent twice), none dropped but the empty ones. */
  lemma ParsedSkillsKeepOrder(s: JsString)
    ensures IsSubsequence(ParseSkills(s), TrimAll(Split(s, Comma)))
    ensures forall x | x in TrimAll(Split(s, Comma)) ::
      multiset(ParseSkills(s))[x] == if x != [] then multiset(TrimAll(Split(s, Comma)))[x] else 0
  {
    FilterIsSubsequence(TrimAll(Split(s, Comma)), x => |x| > 0);
  }

  /** Only commas and white space. */
  predicate OnlySeparators(s: JsString) {
    forall i | 0 <= i < |s| :: s[i] == Comma || IsWhiteSpace(s[i])
  }

  /** Every piece is blank. */
  predicate AllBlank(parts: seq<JsString>) {
    forall i | 0 <= i < |parts| :: IsBlank(parts[i])
  }

  /** The skills list is empty exactly when the field holds nothing but
      commas and white space. */
  lemma NoSkillsIffOnlySeparators(s: JsString)
    ensures ParseSkills(s) == [] <==> OnlySeparators(s)
  {
    var pieces := Split(s, Comma);
    var trimmed := TrimAll(pieces);
    PiecesBlankIffOnlySeparators(s);
    NoSkillsIffAllBlank(pieces);
  }

  lemma NoSkillsIffAllBlank(pieces: seq<JsString>)
    ensures Filter(TrimAll(pieces), x => |x| > 0) == [] <==> AllBlank(pieces)
  {
    var trimmed := TrimAll(pieces);
    var r := Filter(trimmed, x => |x| > 0);
    if r == [] {
      forall i | 0 <= i < |pieces| ensures IsBlank(pieces[i]) {
        assert trimmed[i] in trimmed;
      }
    } else {
      assert r[0] in r;
    }
  }

  lemma {:induction false} PiecesBlankIffOnlySeparators(s: JsString)
    ensures AllBlank(Split(s, Comma)) <==> OnlySeparators(s)
    decreases |s|
  {
    if s != [] {
      PiecesBlankIffOnlySeparators(s[1..]);
      var rest := Split(s[1..], Comma);
      OnlySeparatorsCons(s);
      if s[0] != Comma {
        BlankCons(s[0], rest[0]);
        AllBlankCons([s[0]] + rest[0], rest[1..]);
        AllBlankCons(rest[0], rest[1..]);
        assert [rest[0]] + rest[1..] == rest;
      } else {
        AllBlankCons([], rest);
      }
    }
  }

  lemma OnlySeparatorsCons(s: JsString)
    requires s != []
    ensures OnlySeparators(s) <==> (s[0] == Comma || IsWhiteSpace(s[0])) && OnlySeparators(s[1..])
  {
    if OnlySeparators(s) {
      forall i | 0 <= i < |s[1..]| ensures s[1..][i] == Comma || IsWhiteSpace(s[1..][i]) {
        assert s[1..][i] == s[i + 1];
      }
    }
  }

  lemma AllBlankCons(x: JsString, parts: seq<JsString>)
    ensures AllBlank([x] + parts) <==> IsBlank(x) && AllBlank(parts)
  {
    var xs := [x] + parts;
    assert xs[0] == x;
    assert forall i | 0 <= i < |parts| :: xs[i + 1] == parts[i];
    if IsBlank(x) && AllBlank(parts) {
      forall i | 0 <= i < |xs| ensures IsBlank(xs[i]) {
        if i > 0 {
          assert xs[i] == parts[i - 1];
        }
      }
    }
  }

  lemma BlankCons(c: CodeUnit, t: JsString)
    ensures IsBlank([c] + t) <==> IsWhiteSpace(c) && IsBlank(t)
  {
    var head := [c] + t;
    BlankIffAllWhiteSpace(head);
    BlankIffAllWhiteSpace(t);
    if AllWhiteSpace(head) {
      forall i | 0 <= i < |t| ensures IsWhiteSpace(t[i]) {
        assert t[i] == head[i + 1];
      }
    }
  }

  /** `disabled={loading || !skills.trim() || !targetRole.trim()}`, negated. */
  predicate FindJobsEnabled(loading: bool, skills: JsString, targetRole: JsString) {
    !loading && !IsBlank(skills) && !IsBlank(targetRole)
  }

  /** The button guard trims but does not split: a field of commas and white
      space with at least one comma (`","`, `" , , "`) enables the request,
      which then carries an empty skills list. */
  lemma SeparatorsOnlyPassGuard(skills: JsString, targetRole: JsString)
    requires OnlySeparators(skills) && Comma in skills
    requires !IsBlank(targetRole)
    ensures FindJobsEnabled(false, skills, targetRole)
    ensures ParseSkills(skills) == []
  {
    BlankIffAllWhiteSpace(skills);
    var k :| 0 <= k < |skills| && skills[k] == Comma;
    assert !IsWhiteSpace(skills[k]);
    NoSkillsIffOnlySeparators(skills);
  }

  // ---------------------------------------------------------------------------
  // getMatchColor
  // ---------------------------------------------------------------------------

  /** The four gradient classes of `getMatchColor`, from best to worst. */
  datatype MatchColor =
    | GreenToEmerald   // 'from-green-500 to-emerald-500'
    | YellowToOrange   // 'from-yellow-500 to-orange-500'
    | OrangeToRed      // 'from-orange-500 to-red-500'
    | RedToRose        // 'from-red-500 to-rose-500'

  /** Each bucket is the band of percents between consecutive thresholds
      80, 60 and 40, the lower threshold included. */
  function MatchColorOf(percent: real): (r: MatchColor)
    ensures r == GreenToEmerald <==> 80.0 <= percent
    ensures r == YellowToOrange <==> 60.0 <= percent < 80.0
    ensures r == OrangeToRed <==> 40.0 <= percent < 60.0
    ensures r == RedToRose <==> percent < 40.0
  {
    if percent >= 80.0 then GreenToEmerald
    else if percent >= 60.0 then YellowToOrange
    else if percent >= 40.0 then OrangeToRed
    else RedToRose
  }

  /** The rank of a bucket: 3 for the best, 0 for the worst. */
  function Rank(c: MatchColor): nat {
    match c
    case GreenToEmerald => 3
    case YellowToOrange => 2
    case OrangeToRed => 1
    case RedToRose => 0
  }

  /** A higher match never gets a worse colour. */
  lemma MatchColorMonotone(p: real, q: real)
    requires p <= q
    ensures Rank(MatchColorOf(p)) <= Rank(MatchColorOf(q))
  {
  }

  // ---------------------------------------------------------------------------
  // getGrowthIcon
  // ---------------------------------------------------------------------------

  datatype GrowthIcon =
    | ChartUp      // U+1F4C8
    | Rocket       // U+1F680
    | ArrowUp      // U+2197 U+FE0F
    | ArrowDown    // U+2198 U+FE0F
    | BarChart     // U+1F4CA

  /** `switch (outlook?.toLowerCase())` over strong / high / moderate / low. */
  function GrowthIconOf(outlook: Option<JsString>): (r: GrowthIcon)
    ensures r == BarChart <==>
      outlook.None? ||
      (ToLower(outlook.value) != Lit("strong") && ToLower(outlook.value) != Lit("high") &&
       ToLower(outlook.value) != Lit("moderate") && ToLower(outlook.value) != Lit("low"))
  {
    if outlook.None? then BarChart
    else if EqualsIgnoringCase(outlook.value, Lit("strong")) then ChartUp
    else if EqualsIgnoringCase(outlook.value, Lit("high")) then Rocket
    else if EqualsIgnoringCase(outlook.value, Lit("moderate")) then ArrowUp
    else if EqualsIgnoringCase(outlook.value, Lit("low")) then ArrowDown
    else BarChart
  }

  /** The icon lookup ignores ASCII case. */
  lemma GrowthIconIgnoresCase(s: JsString, t: JsString)
    requires |s| == |t|
    requires forall i | 0 <= i < |s| :: LowerUnit(s[i]) == LowerUnit(t[i])
    ensures GrowthIconOf(Some(s)) == GrowthIconOf(Some(t))
  {
    assert ToLower(s) == ToLower(t);
  }

  // ---------------------------------------------------------------------------
  // One recommended job
  // ---------------------------------------------------------------------------

  /** The fields of a job the page reads; JSON numbers as reals. */
  datatype Job = Job(
    matchPercent: Option<real>,
    matchScore: Option<real>,
    score: Option<real>,
    growthOutlook: Option<JsString>,
    outlook: Option<JsString>,
    salaryRangeUsd: Option<JsString>,
    salary: Option<JsString>)

  /** A number is truthy when it is not zero. */
  predicate NonZero(v: real) {
    v != 0.0
  }

  /** `job.match_percent || job.match_score || job.score || 0`. */
  function MatchPercent(job: Job): (r: real)
    ensures Truthy(job.matchPercent, NonZero) ==> r == job.matchPercent.value
    ensures !Truthy(job.matchPercent, NonZero) && Truthy(job.matchScore, NonZero) ==>
      r == job.matchScore.value
    ensures (!Truthy(job.matchPercent, NonZero) && !Truthy(job.matchScore, NonZero) &&
             Truthy(job.score, NonZero)) ==> r == job.score.value
    ensures (!Truthy(job.matchPercent, NonZero) && !Truthy(job.matchScore, NonZero) &&
             !Truthy(job.score, NonZero)) ==> r == 0.0
  {
    var fields := [job.matchPercent, job.matchScore, job.score];
    assert fields[0] == job.matchPercent && fields[1] == job.matchScore && fields[2] == job.score;
    FirstTruthy(fields, NonZero, 0.0)
  }

  /** A zero is falsy: an explicit `match_percent` of 0 falls through to the
      next field, exactly as an absent one does. */
  lemma ExplicitZeroFallsThrough(job: Job)
    requires job.matchPercent == Some(0.0)
    ensures MatchPercent(job) == MatchPercent(job.(matchPercent := None))
  {
    var a := [job.matchPercent, job.matchScore, job.score];
    var b := [None, job.matchScore, job.score];
    assert !Truthy(a[0], NonZero) && !Truthy(b[0], NonZero);
    assert a[1..] == b[1..];
    assert FirstTruthy(a, NonZero, 0.0) == FirstTruthy(a[1..], NonZero, 0.0);
    assert FirstTruthy(b, NonZero, 0.0) == FirstTruthy(b[1..], NonZero, 0.0);
  }

  /** `job.growth_outlook || job.outlook || 'moderate'`. */
  function Outlook(job: Job): (r: JsString)
    ensures r != []
    ensures Truthy(job.growthOutlook, NonEmpty) ==> r == job.growthOutlook.value
    ensures !Truthy(job.growthOutlook, NonEmpty) && Truthy(job.outlook, NonEmpty) ==>
      r == job.outlook.value
    ensures !Truthy(job.growthOutlook, NonEmpty) && !Truthy(job.outlook, NonEmpty) ==>
      r == Lit("moderate")
  {
    var fields := [job.growthOutlook, job.outlook];
    assert fields[0] == job.growthOutlook && fields[1] == job.outlook;
    FirstTruthy(fields, NonEmpty, Lit("moderate"))
  }

  /** A job that states no outlook is shown with the "moderate" arrow. */
  lemma MissingOutlookShowsModerate(job: Job)
    requires !Truthy(job.growthOutlook, NonEmpty) && !Truthy(job.outlook, NonEmpty)
    ensures GrowthIconOf(Some(Outlook(job))) == ArrowUp
  {
    var fields := [job.growthOutlook, job.outlook];
    assert fields[0] == job.growthOutlook && fields[1] == job.outlook;
    var m := Lit("moderate");
    assert m == ['m' as int, 'o' as int, 'd' as int, 'e' as int, 'r' as int, 'a' as int, 't' as int, 'e' as int];
    assert ToLower(m) == m;
  }

  // ---------------------------------------------------------------------------
  // Salary estimate: salaryStr.match(/\d+/g) || [0, 0]
  // ---------------------------------------------------------------------------

  predicate AllDigits(s: JsString) {
    forall i | 0 <= i < |s| :: IsDigit(s[i])
  }

  /** The longest prefix of `s` made of digits. */
  function LeadingDigits(s: JsString): (r: JsString)
    ensures |r| <= |s| && r == s[..|r|] && AllDigits(r)
    ensures |r| == |s| || !IsDigit(s[|r|])
  {
    if s == [] || !IsDigit(s[0]) then [] else [s[0]] + LeadingDigits(s[1..])
  }

  /** `s.match(/\d+/g)`: the maximal runs of digits, left to right (none when
      `match` returns null). */
  function DigitRuns(s: JsString): (r: seq<JsString>)
    ensures forall i | 0 <= i < |r| :: r[i] != [] && AllDigits(r[i])
    decreases |s|
  {
    if s == [] then []
    else if !IsDigit(s[0]) then DigitRuns(s[1..])
    else
      var run := LeadingDigits(s);
      [run] + DigitRuns(s[|run|..])
  }

  /** `parseInt` of a run of decimal digits; leading zeros do not count, so
      `"000"` reads as 0. */
  function DecimalValue(ds: JsString): (r: nat)
    requires AllDigits(ds)
    ensures |ds| == 1 ==> r == ds[0] - '0' as int
    ensures |ds| > 0 && ds[0] == '0' as int ==> r == DecimalValue(ds[1..])
  {
    if ds == [] then 0
    else
      var r := DecimalValue(ds[..|ds| - 1]) * 10 + (ds[|ds| - 1] - '0' as int);
      assert |ds| > 1 ==> ds[..|ds| - 1][1..] == ds[1..][..|ds| - 2];
      r
  }

  /** The decimal numeral of `n` (no leading zeros). */
  function Decimal(n: nat): (r: JsString)
    ensures r != [] && AllDigits(r)
  {
    if n < 10 then ['0' as int + n] else Decimal(n / 10) + ['0' as int + n % 10]
  }

  /** `parseInt` reads a numeral back as its number. */
  lemma {:induction false} DecimalRoundTrip(n: nat)
    ensures DecimalValue(Decimal(n)) == n
  {
    if n >= 10 {
      DecimalRoundTrip(n / 10);
      var d := Decimal(n);
      assert d[..|d| - 1] == Decimal(n / 10);
    }
  }

  /** `job.salary_range_usd || job.salary || '0-0'`. */
  function SalaryText(job: Job): (r: JsString)
    ensures r != []
    ensures Truthy(job.salaryRangeUsd, NonEmpty) ==> r == job.salaryRangeUsd.value
    ensures !Truthy(job.salaryRangeUsd, NonEmpty) && Truthy(job.salary, NonEmpty) ==>
      r == job.salary.value
    ensures !Truthy(job.salaryRangeUsd, NonEmpty) && !Truthy(job.salary, NonEmpty) ==>
      r == Lit("0-0")
  {
    var fields := [job.salaryRangeUsd, job.salary];
    assert fields[0] == job.salaryRangeUsd && fields[1] == job.salary;
    FirstTruthy(fields, NonEmpty, Lit("0-0"))
  }

  /** `(parseInt(nums[0] || 0) + parseInt(nums[1] || 0)) / 2`: the mean of the
      first two digit runs, a missing run counting as 0. */
  function SalaryMidpoint(s: JsString): (r: real)
    ensures r >= 0.0
    ensures DigitRuns(s) == [] ==> r == 0.0
    ensures |DigitRuns(s)| == 1 ==> r == DecimalValue(DigitRuns(s)[0]) as real / 2.0
    ensures |DigitRuns(s)| >= 2 ==>
      r == (DecimalValue(DigitRuns(s)[0]) + DecimalValue(DigitRuns(s)[1])) as real / 2.0
  {
    var runs := DigitRuns(s);
    var low := if |runs| > 0 then DecimalValue(runs[0]) else 0;
    var high := if |runs| > 1 then DecimalValue(runs[1]) else 0;
    (low + high) as real / 2.0
  }

  /** The estimate for one job: the midpoint of `salary_range_usd`, else of
      `salary`, else of `'0-0'`, which is 0. */
  function SalaryEstimate(job: Job): (r: real)
    ensures r >= 0.0
    ensures Truthy(job.salaryRangeUsd, NonEmpty) ==> r == SalaryMidpoint(job.salaryRangeUsd.value)
    ensures !Truthy(job.salaryRangeUsd, NonEmpty) && Truthy(job.salary, NonEmpty) ==>
      r == SalaryMidpoint(job.salary.value)
    ensures !Truthy(job.salaryRangeUsd, NonEmpty) && !Truthy(job.salary, NonEmpty) ==> r == 0.0
  {
    if !Truthy(job.salaryRangeUsd, NonEmpty) && !Truthy(job.salary, NonEmpty) then
      assert Lit("0-0") == Decimal(0) + ['-' as int] + Decimal(0);
      RangeMidpoint(0, 0, '-' as int);
      SalaryMidpoint(SalaryText(job))
    else
      SalaryMidpoint(SalaryText(job))
  }

  lemma {:induction false} LeadingDigitsOfRun(ds: JsString, rest: JsString)
    requires AllDigits(ds)
    requires rest == [] || !IsDigit(rest[0])
    ensures LeadingDigits(ds + rest) == ds
  {
    if ds != [] {
      assert (ds + rest)[1..] == ds[1..] + rest;
      LeadingDigitsOfRun(ds[1..], rest);
      assert [ds[0]] + ds[1..] == ds;
    }
  }

  /** A run of digits followed by a non-digit (or nothing) is the first run. */
  lemma DigitRunsAfterRun(ds: JsString, rest: JsString)
    requires ds != [] && AllDigits(ds)
    requires rest == [] || !IsDigit(rest[0])
    ensures DigitRuns(ds + rest) == [ds] + DigitRuns(rest)
  {
    LeadingDigitsOfRun(ds, rest);
    assert (ds + rest)[|ds|..] == rest;
  }

  /** A run of digits alone is one run. */
  lemma DigitRunsOfRun(ds: JsString)
    requires ds != [] && AllDigits(ds)
    ensures DigitRuns(ds) == [ds]
  {
    DigitRunsAfterRun(ds, []);
    assert ds + [] == ds;
  }

  /** When `a` has a non-digit, what follows `a` does not change its leading digits. */
  lemma {:induction false} LeadingDigitsWithin(a: JsString, t: JsString)
    requires |LeadingDigits(a)| < |a|
    ensures LeadingDigits(a + t) == LeadingDigits(a)
  {
    if IsDigit(a[0]) {
      assert (a + t)[1..] == a[1..] + t;
      LeadingDigitsWithin(a[1..], t);
    }
  }

  /** A non-digit separates runs: the runs of `a + [c] + b` are those of `a`
      followed by those of `b`. With `DigitRunsOfRun` and `DigitRuns([]) == []`
      this fixes the runs of every string. */
  lemma {:induction false} DigitRunsSplit(a: JsString, c: CodeUnit, b: JsString)
    requires !IsDigit(c)
    ensures DigitRuns(a + [c] + b) == DigitRuns(a) + DigitRuns(b)
    decreases |a|
  {
    var s := a + [c] + b;
    if a == [] {
      assert s == [c] + b && s[1..] == b;
    } else if !IsDigit(a[0]) {
      assert s[0] == a[0] && s[1..] == a[1..] + [c] + b;
      DigitRunsSplit(a[1..], c, b);
      assert DigitRuns(s) == DigitRuns(s[1..]);
      assert DigitRuns(a) == DigitRuns(a[1..]);
    } else {
      var run := LeadingDigits(a);
      assert s[0] == a[0];
      assert s == a + ([c] + b);
      if |run| < |a| {
        LeadingDigitsWithin(a, [c] + b);
        assert s[|run|..] == a[|run|..] + [c] + b;
        DigitRunsSplit(a[|run|..], c, b);
        assert DigitRuns(s) == [run] + DigitRuns(s[|run|..]);
        assert DigitRuns(a) == [run] + DigitRuns(a[|run|..]);
      } else {
        LeadingDigitsOfRun(a, [c] + b);
        assert s[|a|..] == [c] + b;
        assert ([c] + b)[0] == c && ([c] + b)[1..] == b;
        assert DigitRuns([c] + b) == DigitRuns(b);
        assert DigitRuns(s) == [a] + DigitRuns([c] + b);
        assert run == a[..|a|] == a;
        assert DigitRuns(a) == [run] + DigitRuns(a[|run|..]);
        assert a[|a|..] == [];
      }
    }
  }

  /** Leading non-digits (a currency sign, a space) are skipped. */
  lemma {:induction false} DigitRunsSkipNonDigits(p: JsString, t: JsString)
    requires forall i | 0 <= i < |p| :: !IsDigit(p[i])
    ensures DigitRuns(p + t) == DigitRuns(t)
  {
    if p != [] {
      assert (p + t)[0] == p[0] && (p + t)[1..] == p[1..] + t;
      assert DigitRuns(p + t) == DigitRuns(p[1..] + t);
      DigitRunsSkipNonDigits(p[1..], t);
    } else {
      assert p + t == t;
    }
  }

  /** Any text with at least two runs of digits: the estimate is the mean of
      the first two, whatever comes before, between and after them. */
  lemma SalaryFromFirstTwoRuns(p: JsString, da: JsString, q: JsString, db: JsString, t: JsString)
    requires forall i | 0 <= i < |p| :: !IsDigit(p[i])
    requires da != [] && AllDigits(da) && db != [] && AllDigits(db)
    requires q != [] && forall i | 0 <= i < |q| :: !IsDigit(q[i])
    requires t == [] || !IsDigit(t[0])
    ensures SalaryMidpoint(p + da + q + db + t) == (DecimalValue(da) + DecimalValue(db)) as real / 2.0
  {
    var runs := FirstTwoRuns(p, da, q, db, t);
    assert runs[0] == da && runs[1] == db;
  }

  lemma FirstTwoRuns(p: JsString, da: JsString, q: JsString, db: JsString, t: JsString)
    returns (runs: seq<JsString>)
    requires forall i | 0 <= i < |p| :: !IsDigit(p[i])
    requires da != [] && AllDigits(da) && db != [] && AllDigits(db)
    requires q != [] && forall i | 0 <= i < |q| :: !IsDigit(q[i])
    requires t == [] || !IsDigit(t[0])
    ensures runs == DigitRuns(p + da + q + db + t) && runs == [da, db] + DigitRuns(t)
  {
    assert p + da + q + db + t == p + (da + (q + (db + t)));
    DigitRunsSkipNonDigits(p, da + (q + (db + t)));
    DigitRunsAfterRun(da, q + (db + t));
    DigitRunsSkipNonDigits(q, db + t);
    DigitRunsAfterRun(db, t);
    runs := DigitRuns(p + da + q + db + t);
  }

  /** Text with exactly one run of digits is estimated at half of it. */
  lemma SalaryFromOnlyRun(p: JsString, da: JsString, t: JsString)
    requires forall i | 0 <= i < |p| :: !IsDigit(p[i])
    requires da != [] && AllDigits(da)
    requires forall i | 0 <= i < |t| :: !IsDigit(t[i])
    ensures SalaryMidpoint(p + da + t) == DecimalValue(da) as real / 2.0
  {
    assert p + da + t == p + (da + t);
    DigitRunsSkipNonDigits(p, da + t);
    DigitRunsAfterRun(da, t);
    NoDigitsGivesZero(t);
  }

  /** A thousands separator splits a number: `"$80,000 - $120,000"` reads as
      the runs 80 and 000, so the estimate is (80 + 0) / 2 = 40. */
  lemma ThousandsSeparatorExample()
    ensures SalaryMidpoint(Lit("$80,000 - $120,000")) == 40.0
  {
    var da := Lit("80");
    var db := Lit("000");
    RangeTextPieces();
    assert DecimalValue(da) == 80 by {
      assert da[..1] == ['8' as int];
    }
    assert DecimalValue(db) == 0 by {
      assert db[1..] == Lit("00") && Lit("00")[1..] == Lit("0");
    }
    SalaryFromFirstTwoRuns(Lit("$"), da, Lit(","), db, Lit(" - $120,000"));
  }

  lemma RangeTextPieces()
    ensures Lit("$80,000 - $120,000") == Lit("$") + Lit("80") + Lit(",") + Lit("000") + Lit(" - $120,000")
  {
  }

  /** A range written `a-b` (or with any other non-digit between) is
      estimated at the mean of its two ends. */
  lemma RangeMidpoint(a: nat, b: nat, sep: CodeUnit)
    requires !IsDigit(sep)
    ensures SalaryMidpoint(Decimal(a) + [sep] + Decimal(b)) == (a + b) as real / 2.0
  {
    var runs := RunsOfRange(Decimal(a), Decimal(b), sep);
    DecimalRoundTrip(a);
    DecimalRoundTrip(b);
    assert DecimalValue(runs[0]) == a && DecimalValue(runs[1]) == b;
  }

  /** Two runs of digits around a non-digit are the first two runs. */
  lemma RunsOfRange(da: JsString, db: JsString, sep: CodeUnit) returns (runs: seq<JsString>)
    requires da != [] && AllDigits(da) && db != [] && AllDigits(db) && !IsDigit(sep)
    ensures runs == DigitRuns(da + [sep] + db) && runs == [da, db]
  {
    DigitRunsAfterRun(db, []);
    assert db + [] == db;
    assert DigitRuns([sep] + db) == DigitRuns(db);
    DigitRunsAfterRun(da, [sep] + db);
    assert da + [sep] + db == da + ([sep] + db);
    runs := DigitRuns(da + [sep] + db);
  }

  /** A single number counts as a range from it to 0: `"50000"` gives 25000. */
  lemma SingleNumberHalved(a: nat)
    ensures SalaryMidpoint(Decimal(a)) == a as real / 2.0
  {
    DigitRunsAfterRun(Decimal(a), []);
    assert Decimal(a) + [] == Decimal(a);
    DecimalRoundTrip(a);
  }

  /** A salary without digits, such as "Competitive", is estimated at 0. */
  lemma {:induction false} NoDigitsGivesZero(s: JsString)
    requires forall i | 0 <= i < |s| :: !IsDigit(s[i])
    ensures DigitRuns(s) == []
    ensures SalaryMidpoint(s) == 0.0
  {
    if s != [] {
      NoDigitsGivesZero(s[1..]);
    }
  }
}
