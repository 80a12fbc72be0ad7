/**
 * The selection logic of the report server's HTML report (generateHTMLReport
 * in report.js): which values are shown, which fall back to fixed text, which
 * rows, cards and list items appear and in what order, and which CSS classes
 * and labels the verdicts get. The markup and styles around them are constant
 * text and are not modelled; the report is rendered to a structured list of
 * fragments instead of a string.
 */
module ReportRender {
  import opened JsText
  import opened Seqs

  // ---------------------------------------------------------------------------
  // The assessment the language model returns (the parsed JSON report)
  // ---------------------------------------------------------------------------

  datatype Duration = Duration(startDate: Option<string>, endDate: Option<string>)

  /** One JOB_EXPERIENCE entry; a missing `job_role` list is the empty list. */
  datatype Job = Job(jobTitle: Option<string>, company: Option<string>, duration: Duration, jobRole: seq<string>)

  /** One JOB_MATCHING value. */
  datatype Matching = Matching(criteria: Option<string>, status: Option<string>, notes: Option<string>)

  datatype PersonalDetails = PersonalDetails(
    organizationName: Option<string>,
    name: Option<string>,
    assessmentDate: Option<string>,
    address: Option<string>,
    phone: Option<string>,
    email: Option<string>
  )

  /** CALL_ANALYSIS; a missing `recommendations` list is the empty list. */
  datatype CallAnalysis = CallAnalysis(callSummary: Option<string>, recommendations: seq<string>, reasonForFit: Option<string>)

  /** The JSON value of CONCLUSION.score. */
  datatype Score = NoScore | Number(n: int) | Literal(s: string)

  datatype Conclusion = Conclusion(overallRecommendation: Option<string>, fitRecommendation: Option<string>, score: Score)

  /**
   * The whole assessment. JOB_MATCHING is an object; its entries are kept in
   * the order `Object.entries` lists them, as (key, value) pairs. A missing
   * JOB_EXPERIENCE or KEY_SKILLS list is the empty list.
   */
  datatype Assessment = Assessment(
    personalDetails: PersonalDetails,
    jobExperience: seq<Job>,
    keySkills: seq<string>,
    jobMatching: seq<(string, Matching)>,
    callAnalysis: CallAnalysis,
    conclusion: Conclusion
  )

  // ---------------------------------------------------------------------------
  // The rendered report, as fragments
  // ---------------------------------------------------------------------------

  /** A list section: its items, or the placeholder shown when none survive. */
  datatype Section<T> = Items(items: seq<T>) | Placeholder(text: string)

  datatype DurationLine = DurationLine(start: string, end: string)

  /** A job card; empty `responsibilities` means the card has no responsibilities line. */
  datatype JobCard = JobCard(title: string, company: string, duration: Option<DurationLine>, responsibilities: seq<string>)

  datatype MatchingRow = MatchingRow(criteria: string, statusClass: string, status: string, notes: string)

  datatype CoverRow = CoverRow(caption: string, value: string)

  /** The "Assessment Result" card. */
  datatype ResultCard = ResultCard(cardClass: string, fitText: string, overall: string, score: string)

  datatype Report = Report(
    cover: seq<CoverRow>,
    result: ResultCard,
    jobExperience: Section<JobCard>,
    keySkills: Section<string>,
    jobMatching: seq<MatchingRow>,
    callSummary: string,
    recommendations: Section<string>,
    reasonForFit: string
  )

  // ---------------------------------------------------------------------------
  // Fixed texts
  // ---------------------------------------------------------------------------

  const NotMentioned: string := "Not mentioned in the transcript"
  const NotApplicable: string := "Not Applicable"
  const NotAvailable: string := "N/A"

  const NoJobExperience: string := "No job experience information available."
  const NoKeySkills: string := "No key skills information available."
  const NoRecommendations: string := "No specific recommendations available from the call analysis."
  const NoNotes: string := "No additional notes"
  const NoCallSummary: string := "Call summary not available."
  const NoReasonForFit: string := "Assessment reasoning not available."

  // ---------------------------------------------------------------------------
  // Value helpers
  // ---------------------------------------------------------------------------

  /**
   * shouldDisplay: a value is shown when it is present, not empty, not one of
   * the three sentinels (compared exactly, before trimming) and not blank.
   */
  predicate ShouldDisplay(v: Option<string>) {
    && v.Some?
    && v.value != ""
    && v.value != NotMentioned
    && v.value != NotApplicable
    && v.value != NotAvailable
    && Trim(v.value) != ""
  }

  /** shouldDisplay on a list item. */
  predicate IsDisplayable(s: string) {
    ShouldDisplay(Some(s))
  }

  /** A value interpolated into the markup as it is (`undefined` when missing). */
  function TextOf(v: Option<string>): string {
    if v.Some? then v.value else "undefined"
  }

  /** getDisplayValue: the value itself when it is shown, the fallback otherwise. */
  function GetDisplayValue(v: Option<string>, fallback: string): (r: string)
    ensures ShouldDisplay(v) ==> r == v.value
    ensures !ShouldDisplay(v) ==> r == fallback
    ensures IsDisplayable(r) || r == fallback
  {
    if ShouldDisplay(v) then v.value else fallback
  }

  /** getStatusClass: the CSS class of a verdict. */
  function StatusClass(status: Option<string>): (r: string)
    ensures r == "status-pass" <==> status == Some("Pass")
    ensures r == "status-fail" <==> status == Some("Fail")
    ensures r == "status-conditional" <==> status == Some("Conditional Pass")
    ensures r == "status-na" <==> status == Some(NotApplicable) || status == Some(NotMentioned)
    ensures r in {"status-pass", "status-fail", "status-conditional", "status-na", ""}
  {
    if status == Some("Pass") then "status-pass"
    else if status == Some("Fail") then "status-fail"
    else if status == Some("Conditional Pass") then "status-conditional"
    else if status == Some(NotApplicable) || status == Some(NotMentioned) then "status-na"
    else ""
  }

  /** getFitDisplayText: the label of the overall fit category. */
  function FitDisplayText(fit: Option<string>): (r: string)
    ensures fit == Some("GOOD") ==> r == "Good Fit"
    ensures fit == Some("BAD") ==> r == "Poor Fit"
    ensures fit == Some("INCOMPLETE") ==> r == "Incomplete Assessment"
    ensures fit !in {Some("GOOD"), Some("BAD"), Some("INCOMPLETE")} ==>
              r == if fit.Some? && fit.value != "" then fit.value else "Unknown"
    ensures r != ""
  {
    if fit == Some("GOOD") then "Good Fit"
    else if fit == Some("BAD") then "Poor Fit"
    else if fit == Some("INCOMPLETE") then "Incomplete Assessment"
    else if fit.Some? && fit.value != "" then fit.value
    else "Unknown"
  }

  /** The class of the result card: only BAD and INCOMPLETE change it. */
  function CardClass(fit: Option<string>): (r: string)
    ensures StartsWith(r, "achievement_card")
    ensures r == "achievement_card _bad" <==> fit == Some("BAD")
    ensures r == "achievement_card _incomplete" <==> fit == Some("INCOMPLETE")
    ensures fit != Some("BAD") && fit != Some("INCOMPLETE") ==> r == "achievement_card"
  {
    if fit == Some("BAD") then "achievement_card _bad"
    else if fit == Some("INCOMPLETE") then "achievement_card _incomplete"
    else "achievement_card"
  }

  /** One decimal digit. */
  function Digit(d: nat): (c: char)
    requires d < 10
    ensures '0' <= c <= '9'
    ensures c as int - '0' as int == d
  {
    ('0' as int + d) as char
  }

  /** The number a string of decimal digits denotes, most significant digit first. */
  function DecimalValue(s: string): int
  {
    if s == [] then 0 else 10 * DecimalValue(s[..|s| - 1]) + (s[|s| - 1] as int - '0' as int)
  }

  /** The decimal text of a natural number: digits only, no leading zero, denoting `n`. */
  function NatToDecimal(n: nat): (r: string)
    ensures |r| >= 1
    ensures forall i :: 0 <= i < |r| ==> '0' <= r[i] <= '9'
    ensures r[0] == '0' <==> n == 0
    ensures r[0] == '0' ==> |r| == 1
    ensures DecimalValue(r) == n
  {
    if n < 10 then
      assert [Digit(n)][..0] == [];
      [Digit(n)]
    else
      var front := NatToDecimal(n / 10);
      var r := front + [Digit(n % 10)];
      assert r[..|r| - 1] == front;
      r
  }

  /** How a JavaScript integer prints: its magnitude in decimal, after a minus sign when negative. */
  function IntToDecimal(n: int): (r: string)
    ensures r != ""
    ensures r == "0" <==> n == 0
    ensures n >= 0 ==> DecimalValue(r) == n && forall i :: 0 <= i < |r| ==> '0' <= r[i] <= '9'
    ensures n < 0 ==> r[0] == '-' && DecimalValue(r[1..]) == -n && forall i :: 1 <= i < |r| ==> '0' <= r[i] <= '9'
  {
    if n < 0 then
      var r := "-" + NatToDecimal(-n);
      assert r[1..] == NatToDecimal(-n);
      r
    else NatToDecimal(n)
  }

  /** JavaScript falsiness of a score: missing, zero or the empty string. */
  predicate IsFalsyScore(score: Score) {
    score == NoScore || score == Number(0) || score == Literal("")
  }

  /** `score || '0'`. */
  function ScoreText(score: Score): (r: string)
    ensures IsFalsyScore(score) ==> r == "0"
    ensures score.Number? && score.n != 0 ==> r != "0" && r == IntToDecimal(score.n)
    ensures score.Number? && score.n > 0 ==> DecimalValue(r) == score.n
    ensures score.Number? && score.n < 0 ==> r[0] == '-' && DecimalValue(r[1..]) == -score.n
    ensures score.Literal? && score.s != "" ==> r == score.s
  {
    match score
    case NoScore => "0"
    case Number(n) => if n == 0 then "0" else IntToDecimal(n)
    case Literal(s) => if s == "" then "0" else s
  }

  // ---------------------------------------------------------------------------
  // What each section shows (the specification of the rendering loops)
  // ---------------------------------------------------------------------------

  /** A list section from its surviving items. */
  function ListSection<T>(items: seq<T>, placeholder: string): (s: Section<T>)
    ensures s.Placeholder? <==> items == []
    ensures s.Items? ==> s.items == items
    ensures s.Placeholder? ==> s.text == placeholder
  {
    if items == [] then Placeholder(placeholder) else Items(items)
  }

  /** A job is listed when both its title and its company are shown. */
  predicate IsListedJob(job: Job) {
    ShouldDisplay(job.jobTitle) && ShouldDisplay(job.company)
  }

  /** The duration line of a job card, present when either date is shown. */
  function DurationOf(d: Duration): (r: Option<DurationLine>)
    ensures r.Some? <==> ShouldDisplay(d.startDate) || ShouldDisplay(d.endDate)
    ensures r.Some? ==> && (ShouldDisplay(d.startDate) ==> r.value.start == d.startDate.value)
                        && (!ShouldDisplay(d.startDate) ==> r.value.start == "Unknown")
                        && (ShouldDisplay(d.endDate) ==> r.value.end == d.endDate.value)
                        && (!ShouldDisplay(d.endDate) ==> r.value.end == "Present")
  {
    if ShouldDisplay(d.startDate) || ShouldDisplay(d.endDate) then
      Some(DurationLine(GetDisplayValue(d.startDate, "Unknown"), GetDisplayValue(d.endDate, "Present")))
    else
      None
  }

  /** The card of a listed job. */
  function JobCardOf(job: Job): JobCard {
    JobCard(TextOf(job.jobTitle), TextOf(job.company), DurationOf(job.duration), Filter(job.jobRole, IsDisplayable))
  }

  function JobExperienceSection(jobs: seq<Job>): Section<JobCard> {
    ListSection(Map(Filter(jobs, IsListedJob), JobCardOf), NoJobExperience)
  }

  function KeySkillsSection(skills: seq<string>): Section<string> {
    ListSection(Filter(skills, IsDisplayable), NoKeySkills)
  }

  function RecommendationsSection(recommendations: seq<string>): Section<string> {
    ListSection(Filter(recommendations, IsDisplayable), NoRecommendations)
  }

  /** A JOB_MATCHING entry gets a row when its status is shown. */
  predicate HasShownStatus(entry: (string, Matching)) {
    ShouldDisplay(entry.1.status)
  }

  /** The row of a JOB_MATCHING entry with a shown status. */
  function RowOf(entry: (string, Matching)): MatchingRow {
    var m := entry.1;
    MatchingRow(TextOf(m.criteria), StatusClass(m.status), TextOf(m.status), GetDisplayValue(m.notes, NoNotes))
  }

  function MatchingRows(entries: seq<(string, Matching)>): seq<MatchingRow> {
    Map(Filter(entries, HasShownStatus), RowOf)
  }

  /** A cover row that appears only when its value is shown. */
  function OptionalRow(caption: string, v: Option<string>): (r: seq<CoverRow>)
    ensures |r| <= 1
  {
    if ShouldDisplay(v) then [CoverRow(caption, v.value)] else []
  }

  /** The cover rows that are always present. */
  function FixedRows(p: PersonalDetails): seq<CoverRow> {
    [ CoverRow("Name", GetDisplayValue(p.name, "")),
      CoverRow("Assessment Date", GetDisplayValue(p.assessmentDate, "")),
      CoverRow("Address", GetDisplayValue(p.address, "")) ]
  }

  /** The cover table: organisation, phone and email only when shown. */
  function CoverRows(p: PersonalDetails): seq<CoverRow> {
    OptionalRow("Organization Name", p.organizationName) + FixedRows(p)
    + OptionalRow("Phone", p.phone) + OptionalRow("Email", p.email)
  }

  function ResultCardOf(c: Conclusion): ResultCard {
    ResultCard(CardClass(c.fitRecommendation), FitDisplayText(c.fitRecommendation),
               GetDisplayValue(c.overallRecommendation, NotAvailable), ScoreText(c.score))
  }

  /** The whole report. */
  function ReportOf(a: Assessment): Report {
    Report(
      CoverRows(a.personalDetails),
      ResultCardOf(a.conclusion),
      JobExperienceSection(a.jobExperience),
      KeySkillsSection(a.keySkills),
      MatchingRows(a.jobMatching),
      GetDisplayValue(a.callAnalysis.callSummary, NoCallSummary),
      RecommendationsSection(a.callAnalysis.recommendations),
      GetDisplayValue(a.callAnalysis.reasonForFit, NoReasonForFit)
    )
  }

  // ---------------------------------------------------------------------------
  // The rendering loops
  // ---------------------------------------------------------------------------

  /** The job experience section: one card per listed job, in order. */
  method RenderJobExperience(jobs: seq<Job>) returns (section: Section<JobCard>)
    ensures section == JobExperienceSection(jobs)
  {
    section := Placeholder(NoJobExperience);
    if |jobs| > 0 {
      var valid := Filter(jobs, IsListedJob);
      if |valid| > 0 {
        var cards: seq<JobCard> := [];
        for i := 0 to |valid|
          invariant cards == Map(valid[..i], JobCardOf)
        {
          assert valid[..i + 1] == valid[..i] + [valid[i]];
          MapSnoc(valid[..i], valid[i], JobCardOf);
          cards := cards + [JobCardOf(valid[i])];
        }
        assert valid[..|valid|] == valid;
        section := Items(cards);
      }
    }
  }

  /** A list of strings rendered one item per shown value, in order. */
  method RenderList(values: seq<string>, placeholder: string) returns (section: Section<string>)
    ensures section == ListSection(Filter(values, IsDisplayable), placeholder)
  {
    section := Placeholder(placeholder);
    if |values| > 0 {
      var valid := Filter(values, IsDisplayable);
      if |valid| > 0 {
        var items: seq<string> := [];
        for i := 0 to |valid|
          invariant items == valid[..i]
        {
          assert valid[..i + 1] == valid[..i] + [valid[i]];
          items := items + [valid[i]];
        }
        assert valid[..|valid|] == valid;
        section := Items(items);
      }
    }
  }

  /** Appending one JOB_MATCHING entry appends its row, if it has one. */
  lemma MatchingRowsAppend(entries: seq<(string, Matching)>, e: (string, Matching))
    ensures MatchingRows(entries + [e]) == MatchingRows(entries) + (if HasShownStatus(e) then [RowOf(e)] else [])
  {
    FilterMapSnoc(entries, e, HasShownStatus, RowOf);
  }

  /** The job matching table: one row per entry whose status is shown, in entry order. */
  method RenderJobMatching(entries: seq<(string, Matching)>) returns (rows: seq<MatchingRow>)
    ensures rows == MatchingRows(entries)
  {
    rows := [];
    for i := 0 to |entries|
      invariant rows == MatchingRows(entries[..i])
    {
      assert entries[..i + 1] == entries[..i] + [entries[i]];
      MatchingRowsAppend(entries[..i], entries[i]);
      var status := entries[i].1.status;
      if status == Some(NotMentioned) || status == Some(NotApplicable) || !ShouldDisplay(status) {
        continue;
      }
      rows := rows + [RowOf(entries[i])];
    }
    assert entries[..|entries|] == entries;
  }

  /** generateHTMLReport, without the constant markup. */
  method GenerateReport(a: Assessment) returns (r: Report)
    ensures r == ReportOf(a)
  {
    var jobExperience := RenderJobExperience(a.jobExperience);
    var keySkills := RenderList(a.keySkills, NoKeySkills);
    var jobMatching := RenderJobMatching(a.jobMatching);
    var recommendations := RenderList(a.callAnalysis.recommendations, NoRecommendations);
    r := Report(
      CoverRows(a.personalDetails),
      ResultCardOf(a.conclusion),
      jobExperience,
      keySkills,
      jobMatching,
      GetDisplayValue(a.callAnalysis.callSummary, NoCallSummary),
      recommendations,
      GetDisplayValue(a.callAnalysis.reasonForFit, NoReasonForFit)
    );
  }

  // ---------------------------------------------------------------------------
  // Properties of the rendered report
  // ---------------------------------------------------------------------------

  /**
   * A present value is shown exactly when it is none of the three sentinels
   * and holds a character that is not white space.
   */
  lemma ShownIffNotBlank(s: string)
    ensures ShouldDisplay(Some(s)) <==> s != NotMentioned && s != NotApplicable && s != NotAvailable && !IsBlank(s)
  {
    TrimEmptyIff(s);
  }

  /**
   * shouldDisplay compares the sentinels before trimming: a sentinel is hidden,
   * but the same sentinel with white space in front of it is shown.
   */
  lemma PaddedSentinelShown(pad: string, sentinel: string)
    requires pad != [] && IsBlank(pad)
    requires sentinel == NotMentioned || sentinel == NotApplicable || sentinel == NotAvailable
    ensures !ShouldDisplay(Some(sentinel))
    ensures ShouldDisplay(Some(pad + sentinel))
  {
    var s := pad + sentinel;
    ShownIffNotBlank(s);
    assert s[0] == pad[0] && IsWhitespace(s[0]);
    assert s[|pad|] == sentinel[0] == 'N';
  }

  /** Missing and empty values, blank text and the exact sentinels are hidden. */
  lemma ShouldDisplayExamples()
    ensures !ShouldDisplay(None) && !ShouldDisplay(Some(""))
    ensures !ShouldDisplay(Some(NotMentioned)) && !ShouldDisplay(Some(NotApplicable)) && !ShouldDisplay(Some(NotAvailable))
    ensures forall s :: IsBlank(s) ==> !ShouldDisplay(Some(s))
  {
    forall s | IsBlank(s) ensures !ShouldDisplay(Some(s)) {
      ShownIffNotBlank(s);
    }
  }

  /** Every entry kept for the job matching table has a shown status. */
  lemma KeptEntriesAreShown(entries: seq<(string, Matching)>)
    ensures forall k :: 0 <= k < |Filter(entries, HasShownStatus)| ==> ShouldDisplay(Filter(entries, HasShownStatus)[k].1.status)
  {
    var kept := Filter(entries, HasShownStatus);
    forall k | 0 <= k < |kept| ensures HasShownStatus(kept[k]) {
      assert kept[k] in kept;
    }
  }

  /**
   * The job matching table has exactly one row per entry with a shown status,
   * in entry order; every row shows its status, its notes or the fallback,
   * and never gets the class `status-na`.
   */
  lemma MatchingRowsShape(entries: seq<(string, Matching)>)
    ensures |MatchingRows(entries)| == |Filter(entries, HasShownStatus)|
    ensures forall k :: 0 <= k < |MatchingRows(entries)| ==>
              var row := MatchingRows(entries)[k];
              var m := Filter(entries, HasShownStatus)[k].1;
              && ShouldDisplay(m.status)
              && row.status == m.status.value
              && row.statusClass != "status-na"
              && row.notes == (if ShouldDisplay(m.notes) then m.notes.value else NoNotes)
              && row.criteria == TextOf(m.criteria)
  {
    var kept := Filter(entries, HasShownStatus);
    KeptEntriesAreShown(entries);
    forall k | 0 <= k < |kept| ensures RowOf(kept[k]).statusClass != "status-na" {
      var st := kept[k].1.status;
      assert ShouldDisplay(st);
      assert st != Some(NotApplicable) && st != Some(NotMentioned);
    }
  }

  /** An entry whose status is missing, blank or a sentinel produces no row. */
  lemma {:induction false} HiddenStatusHasNoRow(entries: seq<(string, Matching)>, k: nat)
    requires k < |entries| && !ShouldDisplay(entries[k].1.status)
    ensures MatchingRows(entries) == MatchingRows(entries[..k]) + MatchingRows(entries[k + 1..])
  {
    assert entries == entries[..k] + ([entries[k]] + entries[k + 1..]);
    FilterAppend(entries[..k], [entries[k]] + entries[k + 1..], HasShownStatus);
    FilterAppend([entries[k]], entries[k + 1..], HasShownStatus);
    assert Filter([entries[k]], HasShownStatus) == [];
    assert [entries[k]] + entries[k + 1..] == [entries[k]] + entries[k + 1..];
    MapAppend(Filter(entries[..k], HasShownStatus), Filter(entries[k + 1..], HasShownStatus), RowOf);
  }

  /**
   * A list section shows every displayable value, as often as it occurs and
   * in its original order, and no other value; it falls back to its
   * placeholder exactly when no value is displayable.
   */
  lemma ListSectionShape(values: seq<string>, placeholder: string)
    ensures var s := ListSection(Filter(values, IsDisplayable), placeholder);
            && (s.Placeholder? <==> forall i :: 0 <= i < |values| ==> !IsDisplayable(values[i]))
            && (s.Placeholder? ==> s.text == placeholder)
            && (s.Items? ==> IsSubsequence(s.items, values) && forall x :: x in s.items ==> IsDisplayable(x))
            && (s.Items? ==> forall x :: multiset(s.items)[x] == if IsDisplayable(x) then multiset(values)[x] else 0)
  {
    FilterIsSubsequence(values, IsDisplayable);
    FilterCounts(values, IsDisplayable);
    FilterEmptyIff(values, IsDisplayable);
  }

  /** Every listed job has a shown title and company. */
  lemma ListedJobsAreShown(jobs: seq<Job>)
    ensures forall k :: 0 <= k < |Filter(jobs, IsListedJob)| ==>
              ShouldDisplay(Filter(jobs, IsListedJob)[k].jobTitle) && ShouldDisplay(Filter(jobs, IsListedJob)[k].company)
  {
    var kept := Filter(jobs, IsListedJob);
    forall k | 0 <= k < |kept| ensures IsListedJob(kept[k]) {
      assert kept[k] in kept;
    }
  }

  /**
   * Job cards: one per job whose title and company are both shown, in order;
   * the heading holds the title and company as given, and the placeholder
   * appears exactly when no job qualifies.
   */
  lemma JobExperienceShape(jobs: seq<Job>)
    ensures var s := JobExperienceSection(jobs);
            && (s.Placeholder? <==> forall i :: 0 <= i < |jobs| ==> !IsListedJob(jobs[i]))
            && (s.Placeholder? ==> s.text == NoJobExperience)
            && (s.Items? ==> |s.items| == |Filter(jobs, IsListedJob)|)
            && (s.Items? ==> forall k :: 0 <= k < |s.items| ==>
                  var job := Filter(jobs, IsListedJob)[k];
                  && ShouldDisplay(job.jobTitle) && ShouldDisplay(job.company)
                  && s.items[k].title == job.jobTitle.value
                  && s.items[k].company == job.company.value)
  {
    FilterEmptyIff(jobs, IsListedJob);
    ListedJobsAreShown(jobs);
  }

  /** The captions of the fixed rows differ from those of the optional rows. */
  lemma FixedCaptions(p: PersonalDetails, caption: string)
    requires caption in {"Organization Name", "Phone", "Email"}
    ensures forall x :: CoverRow(caption, x) !in FixedRows(p)
  {
    assert caption[0] in {'O', 'P', 'E'};
  }

  /**
   * The cover table always has the Name, Assessment Date and Address rows, in
   * that order, and at most three more.
   */
  lemma CoverRowsShape(p: PersonalDetails)
    ensures CoverRows(p)[|OptionalRow("Organization Name", p.organizationName)|..][..3] ==
              [ CoverRow("Name", GetDisplayValue(p.name, "")),
                CoverRow("Assessment Date", GetDisplayValue(p.assessmentDate, "")),
                CoverRow("Address", GetDisplayValue(p.address, "")) ]
    ensures 3 <= |CoverRows(p)| <= 6
  {
    RowsAfterOptional(OptionalRow("Organization Name", p.organizationName), FixedRows(p),
                      OptionalRow("Phone", p.phone), OptionalRow("Email", p.email));
  }

  /**
   * The cover table has a Phone row exactly when the phone is shown, and then
   * with the phone verbatim; likewise Email and Organization Name.
   */
  lemma CoverOptionalRows(p: PersonalDetails)
    ensures forall v :: CoverRow("Phone", v) in CoverRows(p) <==> ShouldDisplay(p.phone) && v == p.phone.value
    ensures forall v :: CoverRow("Email", v) in CoverRows(p) <==> ShouldDisplay(p.email) && v == p.email.value
    ensures forall v :: CoverRow("Organization Name", v) in CoverRows(p) <==>
              ShouldDisplay(p.organizationName) && v == p.organizationName.value
  {
    FixedCaptions(p, "Phone");
    FixedCaptions(p, "Email");
    FixedCaptions(p, "Organization Name");
    assert "Phone" != "Email" && "Phone" != "Organization Name" && "Email" != "Organization Name";
  }

  /** Three rows between optional ones start right after the first optional group. */
  lemma RowsAfterOptional(before: seq<CoverRow>, fixed: seq<CoverRow>, x: seq<CoverRow>, y: seq<CoverRow>)
    requires |before| <= 1 && |fixed| == 3 && |x| <= 1 && |y| <= 1
    ensures (before + fixed + x + y)[|before|..][..3] == fixed
    ensures 3 <= |before + fixed + x + y| <= 6
  {
    assert (before + fixed + x + y)[|before|..] == fixed + x + y;
  }

  /**
   * The result card: a falsy score shows "0"; BAD and INCOMPLETE, and only
   * they, add a modifier to the card class; GOOD, BAD and INCOMPLETE get their
   * labels and any other value is shown as itself, or "Unknown" when empty.
   */
  lemma ResultCardShape(c: Conclusion)
    ensures IsFalsyScore(c.score) ==> ResultCardOf(c).score == "0"
    ensures ResultCardOf(c).cardClass == "achievement_card" <==>
              c.fitRecommendation != Some("BAD") && c.fitRecommendation != Some("INCOMPLETE")
    ensures c.fitRecommendation == Some("GOOD") ==> ResultCardOf(c).fitText == "Good Fit"
    ensures c.fitRecommendation == None ==> ResultCardOf(c).fitText == "Unknown"
    ensures IsDisplayable(ResultCardOf(c).overall) || ResultCardOf(c).overall == NotAvailable
  {
  }
}
