/** Labels that both vehicle-detail pages derive the same way: the severity
    badge (label and tone), the trim-count badge, and the two maintenance
    interval clauses. */
module Labels {
  import opened Text
  import opened Js

  // ---------------------------------------------------------------------------
  // Severity badge

  /** `(severity || "").toLowerCase()` */
  function SeverityKey(severity: Field<string>): string {
    Lower(StringText(severity))
  }

  /** `sev.charAt(0).toUpperCase() + sev.slice(1) || "Info"` */
  function SeverityLabel(severity: Field<string>): string {
    var key := SeverityKey(severity);
    if key == "" then "Info" else [UpperChar(key[0])] + key[1..]
  }

  /** Title-casing an already lower-case, non-empty string upper-cases only
      its first character, and lower-casing the result gives the string back. */
  lemma TitleCaseOfLower(key: string)
    requires key != "" && Lower(key) == key
    ensures var text := [UpperChar(key[0])] + key[1..];
            |text| == |key| && !('a' <= text[0] <= 'z') && text[1..] == key[1..] &&
            Lower(text) == key && (text == "Info" <==> key == "info")
  {
    var text := [UpperChar(key[0])] + key[1..];
    assert key[0] == LowerChar(key[0]);
    assert LowerChar(text[0]) == key[0];
    assert forall i :: 1 <= i < |key| ==> text[i] == key[i] && LowerChar(key[i]) == key[i];
    LowerIs(text, key);
    if text == "Info" {
      assert key[1..] == text[1..] == "nfo";
      assert key == [key[0]] + key[1..];
    }
    if key == "info" {
      assert key[1..] == "nfo";
    }
  }

  /** The badge title-cases whatever severity it is given and falls back to
      "Info" only for an empty or absent one (a severity spelled "info" in any
      case gives the same text). Lower-casing a non-default label gives back
      the lower-cased severity, so no information is lost. */
  lemma {:induction false} SeverityLabelSpec(severity: Field<string>)
    ensures SeverityLabel(severity) != ""
    ensures SeverityLabel(severity) == "Info" <==>
            SeverityKey(severity) == "" || SeverityKey(severity) == "info"
    ensures SeverityKey(severity) != "" ==>
            var key := SeverityKey(severity); var text := SeverityLabel(severity);
            |text| == |key| && !('a' <= text[0] <= 'z') &&
            text[1..] == key[1..] && Lower(text) == key
  {
    var key := SeverityKey(severity);
    LowerIsLower(StringText(severity));
    if key != "" {
      TitleCaseOfLower(key);
    }
  }

  /** Letter case of the severity does not matter, and any non-empty value is
      shown, not only the three known ones. */
  lemma SeverityLabelExamples()
    ensures SeverityLabel(Present("HIGH")) == "High"
    ensures SeverityLabel(Present("critical")) == "Critical"
  {
    LowerIs("HIGH", "high");
    LowerIs("critical", "critical");
  }

  /** The colour classes a severity badge receives. `Inherited(p)` stands for
      the text of a property `p` that the style table inherits from
      `Object.prototype` instead of defining it. */
  datatype Tone = Red | Amber | Emerald | Neutral | Inherited(property: string)

  /** `sevStyles[sev] || <neutral>`, as the pages evaluate it: the lookup also
      finds the two all-lower-case properties every object inherits,
      "constructor" and "__proto__", and both are truthy. */
  function ToneLookup(severity: Field<string>): Tone {
    var key := SeverityKey(severity);
    if key == "high" then Red
    else if key == "medium" then Amber
    else if key == "low" then Emerald
    else if key == "constructor" || key == "__proto__" then Inherited(key)
    else Neutral
  }

  /** The tone the style table is meant to give: only its own three keys. */
  function SeverityTone(severity: Field<string>): Tone {
    var key := SeverityKey(severity);
    if key == "high" then Red
    else if key == "medium" then Amber
    else if key == "low" then Emerald
    else Neutral
  }

  /** A severity "constructor" picks up an inherited property instead of the
      neutral style (so does "Constructor", which lower-cases to it). */
  lemma ConstructorSeverityNotNeutral()
    ensures ToneLookup(Present("constructor")) == Inherited("constructor")
    ensures SeverityTone(Present("constructor")) == Neutral
  {
    LowerIs("constructor", "constructor");
  }

  /** A severity whose key is none of the properties the style table inherits. */
  predicate OwnSeverityKey(severity: Field<string>) {
    SeverityKey(severity) != "constructor" && SeverityKey(severity) != "__proto__"
  }

  /** The lookup and the intended tone agree on every other severity. */
  lemma ToneLookupAgrees(severity: Field<string>)
    requires OwnSeverityKey(severity)
    ensures ToneLookup(severity) == SeverityTone(severity)
  {
  }

  /** Red, amber and emerald go to "high", "medium" and "low" in any letter
      case, and to nothing else; every other value, the empty one included,
      gets the neutral tone. */
  lemma SeverityToneIff(severity: Field<string>)
    ensures SeverityTone(severity) == Red <==> Lower(StringText(severity)) == "high"
    ensures SeverityTone(severity) == Amber <==> Lower(StringText(severity)) == "medium"
    ensures SeverityTone(severity) == Emerald <==> Lower(StringText(severity)) == "low"
    ensures SeverityTone(severity) == Neutral <==>
            Lower(StringText(severity)) !in {"high", "medium", "low"}
    ensures SeverityTone(severity) == SeverityTone(Present(Upper(StringText(severity))))
  {
    LowerOfUpper(StringText(severity));
  }

  // ---------------------------------------------------------------------------
  // Trim badge

  /** `{trims.length > 0 && <Badge>{n} trim{n > 1 ? "s" : ""}</Badge>}` */
  function TrimBadge(count: nat): Option<string> {
    if count > 0 then Some(NatString(count) + " trim" + (if count > 1 then "s" else "")) else None
  }

  /** The badge is shown only for a positive count; it starts with the count in
      decimal, which reads back as the count, and is plural exactly when the
      count exceeds one. */
  lemma TrimBadgeSpec(count: nat)
    ensures TrimBadge(count).Some? <==> count > 0
    ensures TrimBadge(count).Some? ==>
            var badge := TrimBadge(count).value; var digits := NatString(count);
            |digits| < |badge| && badge[..|digits|] == digits &&
            ParseNat(badge[..|digits|]) == count &&
            (badge[|badge| - 1] == 's' <==> count > 1) &&
            badge[|digits|..] == (if count == 1 then " trim" else " trims")
  {
    ParseNatString(count);
    if count > 0 {
      var badge, digits := TrimBadge(count).value, NatString(count);
      assert badge == digits + (if count == 1 then " trim" else " trims");
      assert badge[..|digits|] == digits;
    }
  }

  // ---------------------------------------------------------------------------
  // Interval clauses

  const Separator := "•"

  /** `Every {miles.toLocaleString()} mi` */
  function MilesClause(miles: int): string {
    "Every " + Grouped(miles) + " mi"
  }

  /** `Every {months} months` */
  function MonthsClause(months: int): string {
    "Every " + IntString(months) + " months"
  }

  /** The miles span of a present value (the guard decides whether it shows). */
  function MilesSpan(miles: Field<int>): seq<string> {
    if miles.Present? then [MilesClause(miles.value)] else []
  }

  /** The months span of a present value. */
  function MonthsSpan(months: Field<int>): seq<string> {
    if months.Present? then [MonthsClause(months.value)] else []
  }

  predicate IsMilesClause(s: string) {
    |s| >= 9 && s[..6] == "Every " && s[|s| - 3..] == " mi"
  }

  predicate IsMonthsClause(s: string) {
    |s| >= 13 && s[..6] == "Every " && s[|s| - 7..] == " months"
  }

  /** Each clause is recognisable by its shape, and never taken for the other
      clause, the separator, or a stray "0". */
  lemma ClauseShapes(miles: int, months: int)
    ensures IsMilesClause(MilesClause(miles)) && !IsMonthsClause(MilesClause(miles))
    ensures IsMonthsClause(MonthsClause(months)) && !IsMilesClause(MonthsClause(months))
    ensures !IsMilesClause(Separator) && !IsMonthsClause(Separator)
    ensures !IsMilesClause("0") && !IsMonthsClause("0")
  {
    var a, b := MilesClause(miles), MonthsClause(months);
    assert a[|a| - 1] == 'i' && b[|b| - 1] == 's';
    assert a[..6] == "Every ";
    assert b[..6] == "Every ";
    assert a[|a| - 3..] == " mi";
    assert b[|b| - 7..] == " months";
  }

  lemma MilesClauseExample()
    ensures MilesClause(5000) == "Every 5,000 mi"
  {
    assert NatString(50) == "50";
    assert NatString(500) == "500";
    assert NatString(5000) == "5000";
    assert GroupThousands("5000") == "5,000";
    assert MilesClause(5000) == "Every " + "5,000" + " mi";
  }
}
