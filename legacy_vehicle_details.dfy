/** The vehicle detail page for records of the older shape (`year`, a single
    `drivetrain`, `fluids`, nested `interval` objects, `common_issues`):
    everything it derives from the fetched record before rendering. */
module LegacyVehicleDetails {
  import opened Text
  import opened Js
  import opened Labels

  /** Trims are only counted on this page. */
  datatype Trim = Trim(name: Field<string>)

  datatype Engine = Engine(engineName: Field<string>, horsepower: Field<int>, torque: Field<int>)

  datatype Fluid = Fluid(
    system: Field<string>,
    capacityLiters: Field<real>,
    spec: Field<string>,
    notes: Field<string>)

  datatype Interval = Interval(milesEvery: Field<int>, monthsEvery: Field<int>)

  datatype MaintenanceItem = MaintenanceItem(
    name: Field<string>,
    code: Field<string>,
    severity: Field<string>,
    details: Field<string>,
    interval: Field<Interval>)

  datatype Issue = Issue(
    title: Field<string>,
    ts: Field<string>,
    description: Field<string>,
    severity: Field<string>)

  datatype Vehicle = Vehicle(
    year: Field<int>,
    make: Field<string>,
    model: Field<string>,
    drivetrain: Field<string>,
    bodyStyle: Field<string>,
    trims: Field<seq<Trim>>,
    engines: Field<seq<Engine>>,
    fluids: Field<seq<Fluid>>,
    maintenance: Field<seq<MaintenanceItem>>,
    commonIssues: Field<seq<Issue>>)

  // ---------------------------------------------------------------------------
  // Engine line

  /** `{hp} hp` */
  function HorsepowerSpan(horsepower: Field<int>): seq<string> {
    if horsepower.Present? then [IntString(horsepower.value) + " hp"] else []
  }

  /** `{torque} Nm` */
  function TorqueSpan(torque: Field<int>): seq<string> {
    if torque.Present? then [IntString(torque.value) + " Nm"] else []
  }

  /** The visible text of the engine line as React renders it:
      `{hp && <span/>}{hp && torque && <span>•</span>}{torque && <span/>}`.
      A zero value is itself rendered, as "0". */
  function EngineSpecsAsWritten(engine: Engine): seq<string> {
    var hp, torque := engine.horsepower, engine.torque;
    NumberGuard(hp, HorsepowerSpan(hp))
    + NumberGuard(hp, NumberGuard(torque, [Separator]))
    + NumberGuard(torque, TorqueSpan(torque))
  }

  /** An engine with some horsepower and a torque of 0 shows the horsepower
      followed by two stray zeros. */
  lemma ZeroTorqueShowsStrayZeros(name: Field<string>, hp: int)
    requires hp != 0
    ensures EngineSpecsAsWritten(Engine(name, Present(hp), Present(0))) ==
            [IntString(hp) + " hp", "0", "0"]
  {
  }

  /** The engine line with zero treated as absent, as the guards intend. */
  function EngineSpecs(engine: Engine): seq<string> {
    var hp, torque := engine.horsepower, engine.torque;
    ShowIf(TruthyNumber(hp), HorsepowerSpan(hp))
    + ShowIf(TruthyNumber(hp) && TruthyNumber(torque), [Separator])
    + ShowIf(TruthyNumber(torque), TorqueSpan(torque))
  }

  /** An engine with neither a zero horsepower nor a zero torque. */
  predicate ZeroFreeEngine(engine: Engine) {
    engine.horsepower != Present(0) && engine.torque != Present(0)
  }

  lemma EngineSpecsAgree(engine: Engine)
    requires ZeroFreeEngine(engine)
    ensures EngineSpecsAsWritten(engine) == EngineSpecs(engine)
  {
  }

  predicate EndsWith(s: string, suffix: string) {
    |suffix| <= |s| && s[|s| - |suffix|..] == suffix
  }

  /** "{hp} hp" appears exactly when the horsepower is truthy, "{torque} Nm"
      exactly when the torque is, and the separator exactly when both are,
      each at most once and in that order. */
  lemma EngineSpecsSpec(engine: Engine)
    ensures var spans := EngineSpecs(engine);
            var hp := engine.horsepower; var torque := engine.torque;
            ((exists s :: s in spans && EndsWith(s, " hp")) <==> TruthyNumber(hp)) &&
            ((exists s :: s in spans && EndsWith(s, " Nm")) <==> TruthyNumber(torque)) &&
            (Separator in spans <==> TruthyNumber(hp) && TruthyNumber(torque)) &&
            (TruthyNumber(hp) ==> spans[0] == IntString(hp.value) + " hp") &&
            (TruthyNumber(torque) ==> spans[|spans| - 1] == IntString(torque.value) + " Nm") &&
            |spans| == (if TruthyNumber(hp) then 1 else 0)
                       + (if TruthyNumber(hp) && TruthyNumber(torque) then 1 else 0)
                       + (if TruthyNumber(torque) then 1 else 0)
  {
    var spans := EngineSpecs(engine);
    var hp, torque := engine.horsepower, engine.torque;
    if TruthyNumber(hp) {
      var s := IntString(hp.value) + " hp";
      assert s[|s| - 3..] == " hp" && s[|s| - 1] == 'p';
      assert spans[0] == s && s in spans;
    }
    if TruthyNumber(torque) {
      var s := IntString(torque.value) + " Nm";
      assert s[|s| - 3..] == " Nm" && s[|s| - 1] == 'm';
      assert spans[|spans| - 1] == s && s in spans;
    }
    assert !EndsWith(Separator, " hp") && !EndsWith(Separator, " Nm");
  }

  // ---------------------------------------------------------------------------
  // Maintenance interval line

  /** `{m.interval && <div>{miles_every && <span/>}{months_every && <span/>}</div>}`
      as React renders it: no separator, and a zero value rendered as "0". */
  function IntervalSpansAsWritten(item: MaintenanceItem): Option<seq<string>> {
    if item.interval.Present? then
      var miles, months := item.interval.value.milesEvery, item.interval.value.monthsEvery;
      Some(NumberGuard(miles, MilesSpan(miles)) + NumberGuard(months, MonthsSpan(months)))
    else None
  }

  /** An interval of zero miles and some months shows a stray "0" before the
      months clause. */
  lemma ZeroMilesEveryShowsStrayZero(item: MaintenanceItem, months: int)
    requires months != 0 && item.interval == Present(Interval(Present(0), Present(months)))
    ensures IntervalSpansAsWritten(item) == Some(["0", MonthsClause(months)])
  {
    var miles := item.interval.value.milesEvery;
    assert NumberGuard(miles, MilesSpan(miles)) == ["0"];
    var months' := item.interval.value.monthsEvery;
    assert NumberGuard(months', MonthsSpan(months')) == [MonthsClause(months)];
    assert IntervalSpansAsWritten(item) ==
           Some(NumberGuard(miles, MilesSpan(miles)) + NumberGuard(months', MonthsSpan(months')));
    assert ["0"] + [MonthsClause(months)] == ["0", MonthsClause(months)];
  }

  /** The interval line with zero treated as absent, as the guards intend. */
  function IntervalSpans(item: MaintenanceItem): Option<seq<string>> {
    if item.interval.Present? then
      var miles, months := item.interval.value.milesEvery, item.interval.value.monthsEvery;
      Some(ShowIf(TruthyNumber(miles), MilesSpan(miles)) + ShowIf(TruthyNumber(months), MonthsSpan(months)))
    else None
  }

  /** An item whose interval object, if any, has no zero value. */
  predicate ZeroFreeInterval(item: MaintenanceItem) {
    item.interval.Present? ==>
      item.interval.value.milesEvery != Present(0) && item.interval.value.monthsEvery != Present(0)
  }

  lemma IntervalSpansAgree(item: MaintenanceItem)
    requires ZeroFreeInterval(item)
    ensures IntervalSpansAsWritten(item) == IntervalSpans(item)
  {
  }

  /** The line exists exactly when the item has an interval object; in it the
      miles clause appears exactly when `miles_every` is truthy, the months
      clause exactly when `months_every` is, in that order, and no separator. */
  lemma IntervalSpansSpec(item: MaintenanceItem)
    ensures IntervalSpans(item).Some? <==> item.interval.Present?
    ensures item.interval.Present? ==>
            var spans := IntervalSpans(item).value;
            var miles := item.interval.value.milesEvery; var months := item.interval.value.monthsEvery;
            ((exists s :: s in spans && IsMilesClause(s)) <==> TruthyNumber(miles)) &&
            ((exists s :: s in spans && IsMonthsClause(s)) <==> TruthyNumber(months)) &&
            Separator !in spans &&
            |spans| == (if TruthyNumber(miles) then 1 else 0) + (if TruthyNumber(months) then 1 else 0) &&
            (TruthyNumber(miles) ==> spans[0] == MilesClause(miles.value)) &&
            (TruthyNumber(months) ==> spans[|spans| - 1] == MonthsClause(months.value))
  {
    if item.interval.Present? {
      var miles, months := item.interval.value.milesEvery, item.interval.value.monthsEvery;
      var m := if miles.Present? then miles.value else 0;
      var n := if months.Present? then months.value else 0;
      ClauseShapes(m, n);
      var spans := IntervalSpans(item).value;
      if TruthyNumber(miles) {
        assert spans[0] in spans && IsMilesClause(spans[0]);
      }
      if TruthyNumber(months) {
        assert spans[|spans| - 1] in spans && IsMonthsClause(spans[|spans| - 1]);
      }
    }
  }

  // ---------------------------------------------------------------------------
  // Fluids and issues

  /** `{f.capacity_liters != null && ...}`: loose inequality with null also
      excludes undefined, but keeps 0. The number formatting is not modelled. */
  function CapacityShown(fluid: Fluid): Option<real> {
    if fluid.capacityLiters.Present? then Some(fluid.capacityLiters.value) else None
  }

  /** A capacity of zero litres is shown; notes are shown only when non-empty. */
  lemma FluidPresence(fluid: Fluid)
    ensures CapacityShown(fluid).Some? <==> fluid.capacityLiters != Null && fluid.capacityLiters != Undefined
    ensures fluid.capacityLiters == Present(0.0) ==> CapacityShown(fluid) == Some(0.0)
    ensures WhenString(fluid.notes).Some? <==> fluid.notes.Present? && fluid.notes.value != ""
  {
  }

  /** `{i.severity && <span>{i.severity} severity</span>}`, raw case kept. */
  function IssueSeverityLine(issue: Issue): Option<string> {
    if TruthyString(issue.severity) then Some(issue.severity.value + " severity") else None
  }

  /** The line appears exactly for a non-empty severity and starts with that
      severity exactly as written. */
  lemma IssueSeverityLineSpec(issue: Issue)
    ensures IssueSeverityLine(issue).Some? <==> TruthyString(issue.severity)
    ensures IssueSeverityLine(issue).Some? ==>
            var line := IssueSeverityLine(issue).value; var raw := issue.severity.value;
            |line| == |raw| + 9 && line[..|raw|] == raw && line[|raw|..] == " severity"
  {
  }

  // ---------------------------------------------------------------------------
  // The whole page

  datatype EngineCard = EngineCard(name: string, specs: seq<string>)

  datatype FluidCard = FluidCard(system: string, capacity: Option<real>, spec: string, notes: Option<string>)

  datatype MaintenanceCard = MaintenanceCard(
    name: string,
    code: Option<string>,
    severity: string,
    tone: Tone,
    details: Option<string>,
    interval: Option<seq<string>>)

  /** `dated` says whether the (unmodelled) report date is shown. */
  datatype IssueCard = IssueCard(title: string, dated: bool, description: string, severityLine: Option<string>)

  datatype Display = Display(
    year: string,
    make: string,
    model: string,
    drivetrainBadge: Option<string>,
    bodyStyleBadge: Option<string>,
    trimBadge: Option<string>,
    drivetrainRow: Option<string>,
    engines: seq<EngineCard>,
    fluids: seq<FluidCard>,
    maintenance: seq<MaintenanceCard>,
    issues: seq<IssueCard>)

  /** The engine card as the page renders it. */
  function EngineCardOf(engine: Engine): EngineCard {
    EngineCard(StringText(engine.engineName), EngineSpecsAsWritten(engine))
  }

  function FluidCardOf(fluid: Fluid): FluidCard {
    FluidCard(StringText(fluid.system), CapacityShown(fluid), StringText(fluid.spec), WhenString(fluid.notes))
  }

  /** The maintenance card as the page renders it: the tone is the
      style-table lookup and the interval line is the one written. */
  function MaintenanceCardOf(item: MaintenanceItem): MaintenanceCard {
    MaintenanceCard(StringText(item.name), WhenString(item.code), SeverityLabel(item.severity),
                    ToneLookup(item.severity), WhenString(item.details), IntervalSpansAsWritten(item))
  }

  function IssueCardOf(issue: Issue): IssueCard {
    IssueCard(StringText(issue.title), TruthyString(issue.ts), StringText(issue.description),
              IssueSeverityLine(issue))
  }

  /** The engine card with zero values treated as absent. */
  function EngineCardIntended(engine: Engine): EngineCard {
    EngineCard(StringText(engine.engineName), EngineSpecs(engine))
  }

  /** The maintenance card with zero intervals treated as absent and only the
      style table's own three keys coloured. */
  function MaintenanceCardIntended(item: MaintenanceItem): MaintenanceCard {
    MaintenanceCard(StringText(item.name), WhenString(item.code), SeverityLabel(item.severity),
                    SeverityTone(item.severity), WhenString(item.details), IntervalSpans(item))
  }

  /** Everything the loaded page shows. Issue cards come from
      `common_issues`; the current shape's `issues` field is not read here.
      Each collection the record lacks is read as empty, and each present one
      yields one card per element, in order; the header carries the year and
      the badges of the record. */
  function Derive(v: Vehicle): (d: Display)
    ensures d.year == NumberText(v.year)
    ensures d.make == StringText(v.make) && d.model == StringText(v.model)
    ensures d.trimBadge == TrimBadge(|OrEmpty(v.trims)|)
    ensures d.trimBadge.Some? <==> v.trims.Present? && |v.trims.value| > 0
    ensures d.drivetrainBadge == WhenString(v.drivetrain) && d.bodyStyleBadge == WhenString(v.bodyStyle)
    ensures d.drivetrainBadge.Some? <==> TruthyString(v.drivetrain)
    ensures d.drivetrainRow == d.drivetrainBadge
    ensures |d.engines| == |OrEmpty(v.engines)| &&
            forall i :: 0 <= i < |d.engines| ==> d.engines[i] == EngineCardOf(OrEmpty(v.engines)[i])
    ensures |d.fluids| == |OrEmpty(v.fluids)| &&
            forall i :: 0 <= i < |d.fluids| ==> d.fluids[i] == FluidCardOf(OrEmpty(v.fluids)[i])
    ensures |d.maintenance| == |OrEmpty(v.maintenance)| &&
            forall i :: 0 <= i < |d.maintenance| ==> d.maintenance[i] == MaintenanceCardOf(OrEmpty(v.maintenance)[i])
    ensures |d.issues| == |OrEmpty(v.commonIssues)| &&
            forall i :: 0 <= i < |d.issues| ==> d.issues[i] == IssueCardOf(OrEmpty(v.commonIssues)[i])
  {
    var trims, engines, fluids := OrEmpty(v.trims), OrEmpty(v.engines), OrEmpty(v.fluids);
    var maintenance, issues := OrEmpty(v.maintenance), OrEmpty(v.commonIssues);
    TrimBadgeSpec(|trims|);
    Display(
      NumberText(v.year),
      StringText(v.make),
      StringText(v.model),
      WhenString(v.drivetrain),
      WhenString(v.bodyStyle),
      TrimBadge(|trims|),
      WhenString(v.drivetrain),
      seq(|engines|, i requires 0 <= i < |engines| => EngineCardOf(engines[i])),
      seq(|fluids|, i requires 0 <= i < |fluids| => FluidCardOf(fluids[i])),
      seq(|maintenance|, i requires 0 <= i < |maintenance| => MaintenanceCardOf(maintenance[i])),
      seq(|issues|, i requires 0 <= i < |issues| => IssueCardOf(issues[i])))
  }

  /** The page as its guards intend it: the same header and lists, with the
      corrected engine line, interval line and tone on the cards. */
  function DeriveIntended(v: Vehicle): (d: Display)
    ensures d == Derive(v).(engines := d.engines, maintenance := d.maintenance)
    ensures |d.engines| == |OrEmpty(v.engines)| &&
            forall i :: 0 <= i < |d.engines| ==> d.engines[i] == EngineCardIntended(OrEmpty(v.engines)[i])
    ensures |d.maintenance| == |OrEmpty(v.maintenance)| &&
            forall i :: 0 <= i < |d.maintenance| ==>
              d.maintenance[i] == MaintenanceCardIntended(OrEmpty(v.maintenance)[i])
  {
    var engines, maintenance := OrEmpty(v.engines), OrEmpty(v.maintenance);
    Derive(v).(
      engines := seq(|engines|, i requires 0 <= i < |engines| => EngineCardIntended(engines[i])),
      maintenance := seq(|maintenance|, i requires 0 <= i < |maintenance| => MaintenanceCardIntended(maintenance[i])))
  }

  /** On a record whose engines and intervals have no zero value and whose
      maintenance severities avoid the two inherited keys, the page as
      written is the page as intended. */
  lemma DeriveAgrees(v: Vehicle)
    requires forall engine :: engine in OrEmpty(v.engines) ==> ZeroFreeEngine(engine)
    requires forall item :: item in OrEmpty(v.maintenance) ==>
               ZeroFreeInterval(item) && OwnSeverityKey(item.severity)
    ensures Derive(v) == DeriveIntended(v)
  {
    var d, e := Derive(v), DeriveIntended(v);
    var engines, maintenance := OrEmpty(v.engines), OrEmpty(v.maintenance);
    forall i | 0 <= i < |engines|
      ensures d.engines[i] == e.engines[i]
    {
      assert engines[i] in engines;
      EngineSpecsAgree(engines[i]);
    }
    forall i | 0 <= i < |maintenance|
      ensures d.maintenance[i] == e.maintenance[i]
    {
      assert maintenance[i] in maintenance;
      IntervalSpansAgree(maintenance[i]);
      ToneLookupAgrees(maintenance[i].severity);
    }
    assert d.engines == e.engines;
    assert d.maintenance == e.maintenance;
  }
}
