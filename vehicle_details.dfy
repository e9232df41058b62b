/** The vehicle detail page for records of the current shape (`year_start`,
    `year_end`, `drivetrains`, flat `interval_miles`/`interval_months`,
    `issues`): everything it derives from the fetched record before rendering. */
module VehicleDetails {
  import opened Text
  import opened Js
  import opened Labels

  datatype Trim = Trim(trimName: Field<string>)

  datatype Engine = Engine(engineName: Field<string>)

  datatype MaintenanceItem = MaintenanceItem(
    name: Field<string>,
    details: Field<string>,
    intervalMiles: Field<int>,
    intervalMonths: Field<int>)

  datatype Issue = Issue(issue: Field<string>, severity: Field<string>, details: Field<string>)

  datatype Vehicle = Vehicle(
    yearStart: Field<int>,
    yearEnd: Field<int>,
    make: Field<string>,
    model: Field<string>,
    trims: Field<seq<Trim>>,
    engines: Field<seq<Engine>>,
    drivetrains: Field<seq<string>>,
    maintenance: Field<seq<MaintenanceItem>>,
    issues: Field<seq<Issue>>)

  // ---------------------------------------------------------------------------
  // Year label

  /** `year_start === year_end ? year_start : \`${year_start}-${year_end}\``,
      as the text it renders. */
  function YearLabel(yearStart: Field<int>, yearEnd: Field<int>): string {
    if yearStart == yearEnd then NumberText(yearStart)
    else NumberString(yearStart) + "-" + NumberString(yearEnd)
  }

  /** Position of the first '-' in `s`, or `|s|` when there is none. */
  function IndexOfDash(s: string): (k: nat)
    ensures k <= |s|
  {
    if s == [] then 0 else if s[0] == '-' then 0 else 1 + IndexOfDash(s[1..])
  }

  lemma {:induction false} IndexOfDashAfterDigits(digits: string, rest: string)
    requires AllDigits(digits)
    ensures IndexOfDash(digits + rest) == |digits| + IndexOfDash(rest)
  {
    if digits != [] {
      assert (digits + rest)[1..] == digits[1..] + rest;
      IndexOfDashAfterDigits(digits[1..], rest);
    } else {
      assert digits + rest == rest;
    }
  }

  /** Reads a year label of non-negative years back as its two years. */
  function ParseYearLabel(text: string): Option<(nat, nat)> {
    var k := IndexOfDash(text);
    if k == |text| then
      if text != "" && AllDigits(text) then Some((ParseNat(text), ParseNat(text))) else None
    else
      var first, second := text[..k], text[k + 1..];
      if first != "" && second != "" && AllDigits(first) && AllDigits(second)
      then Some((ParseNat(first), ParseNat(second)))
      else None
  }

  lemma ParseSingleYear(year: nat)
    ensures ParseYearLabel(NatString(year)) == Some((year, year))
  {
    var a := NatString(year);
    ParseNatString(year);
    IndexOfDashAfterDigits(a, "");
    assert a + "" == a;
  }

  lemma ParseYearRange(start: nat, end: nat)
    ensures ParseYearLabel(NatString(start) + "-" + NatString(end)) == Some((start, end))
  {
    var a, b := NatString(start), NatString(end);
    ParseNatString(start);
    ParseNatString(end);
    var text := a + "-" + b;
    var rest := "-" + b;
    assert text == a + rest;
    assert rest[0] == '-' && IndexOfDash(rest) == 0;
    IndexOfDashAfterDigits(a, rest);
    assert IndexOfDash(text) == |a| < |text|;
    assert text[..|a|] == a;
    assert text[|a| + 1..] == b;
    assert a != "" && b != "" && AllDigits(a) && AllDigits(b);
    assert ParseYearLabel(text) == Some((ParseNat(a), ParseNat(b)));
  }

  /** A single model year is shown alone and a range as "start-end"; either
      way the label reads back as the two years. */
  lemma YearLabelRoundTrip(start: nat, end: nat)
    ensures start == end ==> YearLabel(Present(start), Present(end)) == NatString(start)
    ensures start != end ==>
            YearLabel(Present(start), Present(end)) == NatString(start) + "-" + NatString(end)
    ensures ParseYearLabel(YearLabel(Present(start), Present(end))) == Some((start, end))
  {
    if start == end {
      ParseSingleYear(start);
    } else {
      ParseYearRange(start, end);
    }
  }

  /** A record that carries neither `year_start` nor `year_end` (the backend's
      detail record has only `year`) gets an empty year label, and one with a
      missing end year shows the word "undefined". */
  lemma YearLabelMissingFields(start: int)
    ensures YearLabel(Undefined, Undefined) == ""
    ensures YearLabel(Present(start), Undefined) == IntString(start) + "-undefined"
  {
  }

  // ---------------------------------------------------------------------------
  // Drivetrain row

  /** `{drivetrains.length > 0 && <span>{drivetrains.join(", ")}</span>}` */
  function DrivetrainRow(drivetrains: seq<string>): Option<string> {
    if |drivetrains| > 0 then Some(Join(drivetrains, ", ")) else None
  }

  /** The row is shown exactly when there is a drivetrain, and, for names
      without commas, splitting it at ", " gives the list back in order. */
  lemma DrivetrainRowSpec(drivetrains: seq<string>)
    ensures DrivetrainRow(drivetrains).Some? <==> |drivetrains| > 0
    ensures DrivetrainRow(drivetrains).Some? &&
            (forall k :: 0 <= k < |drivetrains| ==> CommaFree(drivetrains[k])) ==>
            SplitAtCommaSpace(DrivetrainRow(drivetrains).value) == drivetrains
  {
    if |drivetrains| > 0 && forall k :: 0 <= k < |drivetrains| ==> CommaFree(drivetrains[k]) {
      JoinSplitRoundTrip(drivetrains);
    }
  }

  // ---------------------------------------------------------------------------
  // Maintenance interval line

  /** The visible text of the interval line as React renders it:
      `{miles && <span/>}{miles && months && <span>•</span>}{months && <span/>}`.
      A zero value is itself rendered, as "0". */
  function IntervalSpansAsWritten(item: MaintenanceItem): seq<string> {
    var miles, months := item.intervalMiles, item.intervalMonths;
    NumberGuard(miles, MilesSpan(miles))
    + NumberGuard(miles, NumberGuard(months, [Separator]))
    + NumberGuard(months, MonthsSpan(months))
  }

  /** A zero mileage next to a month interval shows two stray zeros before
      the months clause. */
  lemma ZeroMilesShowsStrayZeros(item: MaintenanceItem, months: int)
    requires months != 0 && item.intervalMiles == Present(0) && item.intervalMonths == Present(months)
    ensures IntervalSpansAsWritten(item) == ["0", "0", MonthsClause(months)]
  {
  }

  /** The interval line with zero treated as absent, as the guards intend. */
  function IntervalSpans(item: MaintenanceItem): seq<string> {
    var miles, months := item.intervalMiles, item.intervalMonths;
    ShowIf(TruthyNumber(miles), MilesSpan(miles))
    + ShowIf(TruthyNumber(miles) && TruthyNumber(months), [Separator])
    + ShowIf(TruthyNumber(months), MonthsSpan(months))
  }

  /** Without zero values the line as written and as intended agree. */
  lemma IntervalSpansAgree(item: MaintenanceItem)
    requires ZeroFree(item)
    ensures IntervalSpansAsWritten(item) == IntervalSpans(item)
  {
  }

  /** The miles clause (grouped with commas) appears exactly when the mileage
      is truthy, the months clause exactly when the month count is, the
      separator exactly when both are, in that order, each at most once, and
      nothing else. */
  lemma IntervalSpansSpec(item: MaintenanceItem)
    ensures var spans := IntervalSpans(item);
            var miles := item.intervalMiles; var months := item.intervalMonths;
            ((exists s :: s in spans && IsMilesClause(s)) <==> TruthyNumber(miles)) &&
            ((exists s :: s in spans && IsMonthsClause(s)) <==> TruthyNumber(months)) &&
            (Separator in spans <==> TruthyNumber(miles) && TruthyNumber(months)) &&
            (TruthyNumber(miles) ==> spans[0] == MilesClause(miles.value)) &&
            (TruthyNumber(months) ==> spans[|spans| - 1] == MonthsClause(months.value)) &&
            (forall s :: s in spans ==> s == Separator || IsMilesClause(s) || IsMonthsClause(s)) &&
            |spans| == (if TruthyNumber(miles) then 1 else 0)
                       + (if TruthyNumber(miles) && TruthyNumber(months) then 1 else 0)
                       + (if TruthyNumber(months) then 1 else 0)
  {
    var miles, months := item.intervalMiles, item.intervalMonths;
    var m := if miles.Present? then miles.value else 0;
    var n := if months.Present? then months.value else 0;
    ClauseShapes(m, n);
    var spans := IntervalSpans(item);
    if TruthyNumber(miles) {
      assert spans[0] in spans && IsMilesClause(spans[0]);
    }
    if TruthyNumber(months) {
      assert spans[|spans| - 1] in spans && IsMonthsClause(spans[|spans| - 1]);
    }
  }

  // ---------------------------------------------------------------------------
  // The whole page

  datatype MaintenanceCard = MaintenanceCard(name: string, details: Option<string>, interval: seq<string>)

  datatype IssueCard = IssueCard(title: string, severity: string, tone: Tone, details: Option<string>)

  datatype Display = Display(
    yearLabel: string,
    make: string,
    model: string,
    drivetrainBadges: seq<string>,
    trimBadge: Option<string>,
    drivetrainRow: Option<string>,
    engines: seq<string>,
    trims: seq<string>,
    maintenance: seq<MaintenanceCard>,
    issues: seq<IssueCard>)

  /** The maintenance card as the page renders it. */
  function MaintenanceCardOf(item: MaintenanceItem): MaintenanceCard {
    MaintenanceCard(StringText(item.name), WhenString(item.details), IntervalSpansAsWritten(item))
  }

  /** The issue card as the page renders it; its tone is the style-table lookup. */
  function IssueCardOf(issue: Issue): IssueCard {
    IssueCard(StringText(issue.issue), SeverityLabel(issue.severity),
              ToneLookup(issue.severity), WhenString(issue.details))
  }

  /** The maintenance card with zero intervals treated as absent. */
  function MaintenanceCardIntended(item: MaintenanceItem): MaintenanceCard {
    MaintenanceCard(StringText(item.name), WhenString(item.details), IntervalSpans(item))
  }

  /** The issue card with only the style table's own three keys coloured. */
  function IssueCardIntended(issue: Issue): IssueCard {
    IssueCard(StringText(issue.issue), SeverityLabel(issue.severity),
              SeverityTone(issue.severity), WhenString(issue.details))
  }

  /** Everything the loaded page shows. Each collection the record lacks is
      read as empty, and each present one yields one entry per element, in
      order; the header carries the year label, the trim badge and the
      drivetrain row of the record. */
  function Derive(v: Vehicle): (d: Display)
    ensures d.yearLabel == YearLabel(v.yearStart, v.yearEnd)
    ensures d.make == StringText(v.make) && d.model == StringText(v.model)
    ensures d.drivetrainBadges == OrEmpty(v.drivetrains)
    ensures d.trimBadge == TrimBadge(|OrEmpty(v.trims)|)
    ensures d.drivetrainRow == DrivetrainRow(OrEmpty(v.drivetrains))
    ensures d.trimBadge.Some? <==> v.trims.Present? && |v.trims.value| > 0
    ensures d.drivetrainRow.Some? <==> v.drivetrains.Present? && |v.drivetrains.value| > 0
    ensures |d.trims| == |OrEmpty(v.trims)| &&
            forall i :: 0 <= i < |d.trims| ==> d.trims[i] == StringText(OrEmpty(v.trims)[i].trimName)
    ensures |d.engines| == |OrEmpty(v.engines)| &&
            forall i :: 0 <= i < |d.engines| ==> d.engines[i] == StringText(OrEmpty(v.engines)[i].engineName)
    ensures |d.maintenance| == |OrEmpty(v.maintenance)| &&
            forall i :: 0 <= i < |d.maintenance| ==> d.maintenance[i] == MaintenanceCardOf(OrEmpty(v.maintenance)[i])
    ensures |d.issues| == |OrEmpty(v.issues)| &&
            forall i :: 0 <= i < |d.issues| ==> d.issues[i] == IssueCardOf(OrEmpty(v.issues)[i])
  {
    var trims, engines := OrEmpty(v.trims), OrEmpty(v.engines);
    var drivetrains, maintenance, issues := OrEmpty(v.drivetrains), OrEmpty(v.maintenance), OrEmpty(v.issues);
    TrimBadgeSpec(|trims|);
    Display(
      YearLabel(v.yearStart, v.yearEnd),
      StringText(v.make),
      StringText(v.model),
      drivetrains,
      TrimBadge(|trims|),
      DrivetrainRow(drivetrains),
      seq(|engines|, i requires 0 <= i < |engines| => StringText(engines[i].engineName)),
      seq(|trims|, i requires 0 <= i < |trims| => StringText(trims[i].trimName)),
      seq(|maintenance|, i requires 0 <= i < |maintenance| => MaintenanceCardOf(maintenance[i])),
      seq(|issues|, i requires 0 <= i < |issues| => IssueCardOf(issues[i])))
  }

  /** The page as its guards intend it: the same header and lists, with the
      corrected interval line and tone on the cards. */
  function DeriveIntended(v: Vehicle): (d: Display)
    ensures d == Derive(v).(maintenance := d.maintenance, issues := d.issues)
    ensures |d.maintenance| == |OrEmpty(v.maintenance)| &&
            forall i :: 0 <= i < |d.maintenance| ==>
              d.maintenance[i] == MaintenanceCardIntended(OrEmpty(v.maintenance)[i])
    ensures |d.issues| == |OrEmpty(v.issues)| &&
            forall i :: 0 <= i < |d.issues| ==> d.issues[i] == IssueCardIntended(OrEmpty(v.issues)[i])
  {
    var maintenance, issues := OrEmpty(v.maintenance), OrEmpty(v.issues);
    Derive(v).(
      maintenance := seq(|maintenance|, i requires 0 <= i < |maintenance| => MaintenanceCardIntended(maintenance[i])),
      issues := seq(|issues|, i requires 0 <= i < |issues| => IssueCardIntended(issues[i])))
  }

  /** An item whose interval has no zero value. */
  predicate ZeroFree(item: MaintenanceItem) {
    item.intervalMiles != Present(0) && item.intervalMonths != Present(0)
  }

  /** On a record whose intervals have no zero and whose severities avoid the
      two inherited keys, the page as written is the page as intended. */
  lemma DeriveAgrees(v: Vehicle)
    requires forall item :: item in OrEmpty(v.maintenance) ==> ZeroFree(item)
    requires forall issue :: issue in OrEmpty(v.issues) ==> OwnSeverityKey(issue.severity)
    ensures Derive(v) == DeriveIntended(v)
  {
    var d, e := Derive(v), DeriveIntended(v);
    var maintenance, issues := OrEmpty(v.maintenance), OrEmpty(v.issues);
    forall i | 0 <= i < |maintenance|
      ensures d.maintenance[i] == e.maintenance[i]
    {
      assert maintenance[i] in maintenance;
      IntervalSpansAgree(maintenance[i]);
    }
    forall i | 0 <= i < |issues|
      ensures d.issues[i] == e.issues[i]
    {
      assert issues[i] in issues;
      ToneLookupAgrees(issues[i].severity);
    }
    assert d.maintenance == e.maintenance;
    assert d.issues == e.issues;
  }

  /** A record with no collections at all shows no badge, row or card. */
  lemma EmptyRecordShowsNoLists(v: Vehicle)
    requires !v.trims.Present? && !v.engines.Present? && !v.drivetrains.Present?
    requires !v.maintenance.Present? && !v.issues.Present?
    ensures var d := Derive(v);
            d.drivetrainBadges == [] && d.trimBadge == None && d.drivetrainRow == None &&
            d.engines == [] && d.trims == [] && d.maintenance == [] && d.issues == []
  {
  }
}
