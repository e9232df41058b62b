# Carstool presentation core in Dafny

Carstool is a small vehicle lookup app. A list page fetches every vehicle and
filters it with a search box. A detail page fetches one vehicle record and
shows its trims, engines, drivetrains, maintenance schedule and known issues.
There are two generations of the detail page:

- the current one (`frontend/src/pages/VehicleDetails.jsx`) reads records
  with `year_start`/`year_end`, `drivetrains`, flat
  `interval_miles`/`interval_months` and `issues`;
- the older one (`frontend_old/frontend/src/pages/VehicleDetails.jsx`) reads
  `year`, a single `drivetrain`, `fluids`, nested `interval` objects and
  `common_issues`.

This project models what these three pages compute before rendering, and
proves properties about it. That covers:

- the search filter and the count label;
- the collection defaults (`x || []`);
- the year label, trim badge and drivetrain row;
- the severity badge text and colour;
- the engine and interval lines;
- the fluid and issue lines;
- the load-and-render cycle of the detail page.

Modules:

- `Text` (`text.dfy`): the string operations the pages rely on. It covers
  ASCII `toLowerCase`/`toUpperCase`, `includes` as a substring test, and the
  decimal rendering of integers with its parser. It also has en-US thousands
  grouping for `toLocaleString` and `join(", ")` with its inverse.
- `Js` (`js.dfy`): JSON fields that may be missing, null or present
  (`Field<T>`). It also states the JavaScript and React rules the pages
  depend on:
  - truthiness;
  - `String(x)`;
  - `x || []`;
  - `{x && <span/>}`, which renders a numeric 0 as the text "0".
- `Labels` (`labels.dfy`): the parts both detail pages share. These are the
  severity label and tone, the trim badge, and the two interval clauses.
- `Home` (`home.dfy`): the list page.
- `VehicleDetails` (`vehicle_details.dfy`) and `LegacyVehicleDetails`
  (`legacy_vehicle_details.dfy`): what each detail page derives from its
  record.
- `DetailPage` (`detail_page.dfy`): the state shared by both detail pages.
  `Page` is a class whose fields are the page's `vehicle`, `loading` and
  `error` state. Its methods are the effect's setter sequence, and `View` is
  the render's choice between nothing, the loading line, the error line and
  the details. Both pages run the same sequence, at lines 35-81 of the
  current file and 36-81 of the older one.

The model follows the code. There is no normalisation layer: each page reads
its own record shape directly, and a field of the other shape is simply
absent. Some consequences:

- The search compares only the `year` field, converted with `String`. A
  record without `year` is found by the query "undefined".
- The severity label title-cases any non-empty value, not just
  high/medium/low, so "critical" reads "Critical". "Info" appears for an
  empty or absent severity, and also for "info" written in any letter case.
- The current detail page's year label is empty for a record that carries
  only `year`. That record shape is what `backend/app.py` returns.
- Nothing ties a fetch result to the id that requested it. A page whose
  `vehicleId` prop changes while it stays mounted can end up showing the
  previous id's record if the older fetch settles last
  (`DetailPage.StaleResponseShown`). This is a property of the page component
  on its own. In `frontend/src/App.jsx` (lines 14-20) the Back button
  unmounts the page and nothing changes the id of a mounted page, so the
  app as wired never reaches this case. The same holds for
  `DetailPage.FailureAfterSuccessShowsMessage` and
  `DetailPage.RetryAfterFailure`: each needs a parent that changes the prop.
- Each detail page's `Derive` computes what the page renders, including the
  stray "0"s and the inherited style-table entries listed under Findings.
  `DeriveIntended` is the page with those corrected, and `DeriveAgrees`
  proves that the two are equal on records without the offending values.

## Model

| member | source | states |
|---|---|---|
| Home.LoadedVehicles | frontend/src/pages/Home.jsx:11-17 | the list is the fetched array when one arrives; a null or undefined result, or a rejected request, leaves the empty list |
| Home.Search | frontend/src/pages/Home.jsx:19-26 | a vehicle is kept exactly when it is in the list and its lower-cased make, its lower-cased model or `String(year)` contains the lower-cased query; the result is never longer than the list |
| Home.SearchIsSubsequence | frontend/src/pages/Home.jsx:19-26 | the kept vehicles are a subsequence of the list, in list order, and none is duplicated (multiset inclusion) |
| Home.SearchAppend | frontend/src/pages/Home.jsx:19-26 | filtering a concatenation is the concatenation of the filtered parts, so relative order is kept |
| Home.SearchIgnoresCase | frontend/src/pages/Home.jsx:20-23 | two queries with the same lower-case form give identical results |
| Home.SearchUpperCaseQuery | frontend/src/pages/Home.jsx:20-23 | an upper-cased query finds the same vehicles as the original |
| Home.SearchEmptyQuery | frontend/src/pages/Home.jsx:19-26 | the empty query keeps every vehicle, because every year string contains "" |
| Home.AbsentNamesMatchOnlyByYear | frontend/src/pages/Home.jsx:22-24 | with make and model absent, a vehicle matches exactly when the lower-cased query occurs in `String(year)` |
| Home.YearSubstringMatches | frontend/src/pages/Home.jsx:24 | "20" and "018" both find a 2018 vehicle: the year test is a substring test |
| Home.MissingYearMatchesUndefined | frontend/src/pages/Home.jsx:24 | a vehicle without a year is found by "undefined", the text of `String(undefined)` |
| Home.CountLabelCountsResults | frontend/src/pages/Home.jsx:71 | the count label is decimal digits followed by " vehicles", and the digits read back as the number of kept vehicles |
| Home.Render | frontend/src/pages/Home.jsx:28-83 | while loading only the loading line shows; afterwards the cards are exactly the search result, one card per kept element in list order (so a subsequence of the list), with their count |
| Text.Lower | frontend/src/pages/Home.jsx:20 | the result has the input's length and no upper-case letter; each upper-case letter becomes the letter 32 code points further, and every other character stays in place |
| Text.LowerIsLower | frontend/src/pages/Home.jsx:20-23 | a lower-cased string has no upper-case letter, and lower-casing it again changes nothing |
| Text.LowerOfUpper | frontend/src/pages/Home.jsx:20-23 | lower-casing an upper-cased string gives the lower-cased original |
| Text.ContainsIff | frontend/src/pages/Home.jsx:22-24 | `includes` holds exactly when the query occurs at some position of the string |
| Text.ContainsEmpty | frontend/src/pages/Home.jsx:24 | every string includes the empty string |
| Text.IntStringSpec | frontend/src/pages/Home.jsx:24 | `String(n)` starts with '-' exactly for a negative number, and the digits after any sign read back as the magnitude |
| Text.NatString | frontend/src/pages/Home.jsx:71 | a count renders as a non-empty run of digits without a leading zero |
| Text.ParseNatString | frontend/src/pages/Home.jsx:71 | reading the rendered digits back gives the number |
| Text.GroupedIsDecimal | frontend/src/pages/VehicleDetails.jsx:235 | the grouped mileage with its commas removed is the plain decimal number |
| Text.GroupThousandsRoundTrip | frontend/src/pages/VehicleDetails.jsx:235 | inserting thousands separators into a digit string and removing them again gives the digits back |
| Text.GroupThousandsShape | frontend/src/pages/VehicleDetails.jsx:235 | grouping a non-empty digit string puts a comma exactly at the positions a multiple of four characters from the end, with digits everywhere else, so each group after a comma has three digits and the leading group one to three |
| Text.GroupedShape | frontend/src/pages/VehicleDetails.jsx:235 | `toLocaleString()` of a non-negative number has that en-US layout; a negative number is a minus sign followed by it |
| Text.GroupedExamples | frontend/src/pages/VehicleDetails.jsx:235 | 999, 5000 and 120000 group as "999", "5,000" and "120,000" |
| Text.JoinSplitRoundTrip | frontend/src/pages/VehicleDetails.jsx:153 | joining comma-free names with ", " and splitting at ", " gives the list back in order |
| Js.NumberGuardUnlessZero | frontend/src/pages/VehicleDetails.jsx:233-245 | `{x && <span/>}` on a number behaves like a truthiness test, except that 0 renders the text "0" |
| Labels.SeverityLabelSpec | frontend/src/pages/VehicleDetails.jsx:268-274 | the label is never empty; it is "Info" exactly for an empty, absent or "info" severity; otherwise it has the severity's length, an upper-cased first character and the lower-cased tail, and lower-cases back to the lower-cased severity |
| Labels.SeverityLabelExamples | frontend/src/pages/VehicleDetails.jsx:268-274 | "HIGH" shows as "High" and "critical" as "Critical" |
| Labels.SeverityToneIff | frontend/src/pages/VehicleDetails.jsx:269-286 | red, amber and emerald go exactly to high, medium and low in any letter case; every other value, the empty one included, is neutral; upper-casing the severity does not change the tone |
| Labels.ToneLookupAgrees | frontend/src/pages/VehicleDetails.jsx:269-286 | the style-table lookup as written gives the intended tone for every severity other than the two inherited property names |
| Labels.ConstructorSeverityNotNeutral | frontend/src/pages/VehicleDetails.jsx:286 | the severity "constructor" picks up an inherited property of the style table instead of the neutral style |
| Labels.TrimBadgeSpec | frontend/src/pages/VehicleDetails.jsx:117-121 | the badge shows only for a positive count; it starts with the count in decimal (which reads back as the count) and ends in " trim" for one and " trims" for more |
| Labels.ClauseShapes | frontend/src/pages/VehicleDetails.jsx:233-245 | the miles clause and the months clause each have a recognisable shape that the other clause, the separator and a stray "0" do not share |
| Labels.MilesClauseExample | frontend/src/pages/VehicleDetails.jsx:235 | 5000 miles reads "Every 5,000 mi" |
| VehicleDetails.YearLabelRoundTrip | frontend/src/pages/VehicleDetails.jsx:84-86 | equal start and end years show one year; different ones show "start-end"; either label reads back as the two years |
| VehicleDetails.YearLabelMissingFields | frontend/src/pages/VehicleDetails.jsx:84-86 | a record without `year_start` and `year_end` has an empty year label; a missing end year shows "start-undefined" |
| VehicleDetails.DrivetrainRowSpec | frontend/src/pages/VehicleDetails.jsx:150-155 | the row shows exactly when there is a drivetrain, and, for names without commas, its text splits back into the list in order |
| VehicleDetails.ZeroMilesShowsStrayZeros | frontend/src/pages/VehicleDetails.jsx:233-245 | as written, a zero mileage beside a month interval renders "0", "0" and then the months clause |
| VehicleDetails.IntervalSpansAgree | frontend/src/pages/VehicleDetails.jsx:233-245 | without zero values, the line as written equals the line with zero treated as absent |
| VehicleDetails.IntervalSpansSpec | frontend/src/pages/VehicleDetails.jsx:233-245 | the miles clause appears exactly for truthy miles and comes first; the months clause appears exactly for truthy months and comes last; the separator appears exactly when both do; nothing else appears, and the line holds one span per shown clause and separator, so none repeats |
| VehicleDetails.Derive | frontend/src/pages/VehicleDetails.jsx:88-92 | every absent collection is read as empty; each trim and engine name, maintenance card (with the interval line as written) and issue card (with the style-table lookup) appears once per element, in order; the header is the year label, the trim badge of the trim count and the drivetrain row of the list, with the badge and row shown exactly for non-empty lists |
| VehicleDetails.DeriveIntended | frontend/src/pages/VehicleDetails.jsx:214-298 | the page with zero intervals treated as absent and only high/medium/low coloured; every other part equals the rendered page |
| VehicleDetails.DeriveAgrees | frontend/src/pages/VehicleDetails.jsx:214-298 | on a record whose intervals have no zero value and whose severities avoid "constructor" and "__proto__", the rendered page equals the intended one |
| VehicleDetails.EmptyRecordShowsNoLists | frontend/src/pages/VehicleDetails.jsx:88-92 | a record without collections shows no badge, row or card |
| LegacyVehicleDetails.ZeroTorqueShowsStrayZeros | frontend_old/frontend/src/pages/VehicleDetails.jsx:172-174 | as written, an engine with a torque of 0 renders its horsepower followed by "0", "0" |
| LegacyVehicleDetails.EngineSpecsAgree | frontend_old/frontend/src/pages/VehicleDetails.jsx:172-174 | without zero values, the engine line as written equals the line with zero treated as absent |
| LegacyVehicleDetails.EngineSpecsSpec | frontend_old/frontend/src/pages/VehicleDetails.jsx:172-174 | "{hp} hp" appears exactly for truthy horsepower, first; "{torque} Nm" exactly for truthy torque, last; the separator exactly when both do; the line holds one span per shown part, so none repeats and nothing else fits |
| LegacyVehicleDetails.ZeroMilesEveryShowsStrayZero | frontend_old/frontend/src/pages/VehicleDetails.jsx:281-293 | as written, an interval of zero miles renders "0" before the months clause |
| LegacyVehicleDetails.IntervalSpansAgree | frontend_old/frontend/src/pages/VehicleDetails.jsx:281-293 | without zero values, the interval line as written equals the line with zero treated as absent |
| LegacyVehicleDetails.IntervalSpansSpec | frontend_old/frontend/src/pages/VehicleDetails.jsx:281-293 | the line exists exactly when the item has an interval object; the miles clause appears exactly for truthy `miles_every`, first; the months clause exactly for truthy `months_every`, last; there is no separator |
| LegacyVehicleDetails.FluidPresence | frontend_old/frontend/src/pages/VehicleDetails.jsx:205-218 | the capacity shows exactly when it is neither null nor undefined, so 0 L shows; notes show exactly when non-empty |
| LegacyVehicleDetails.IssueSeverityLineSpec | frontend_old/frontend/src/pages/VehicleDetails.jsx:336-340 | the line appears exactly for a non-empty severity and is that severity, in its original case, followed by " severity" |
| LegacyVehicleDetails.Derive | frontend_old/frontend/src/pages/VehicleDetails.jsx:83-87 | trims, engines, fluids, maintenance and `common_issues` default to empty; each present one gives one card per element, in order (engine lines and interval lines as written, tones from the style-table lookup); the header is `{year}` and the trim badge of the trim count; the drivetrain and body-style badges show exactly for non-empty values |
| LegacyVehicleDetails.DeriveIntended | frontend_old/frontend/src/pages/VehicleDetails.jsx:163-297 | the page with zero horsepower, torque and intervals treated as absent and only high/medium/low coloured; every other part equals the rendered page |
| LegacyVehicleDetails.DeriveAgrees | frontend_old/frontend/src/pages/VehicleDetails.jsx:163-297 | on a record whose engines and intervals have no zero value and whose maintenance severities avoid the two inherited keys, the rendered page equals the intended one |
| DetailPage.SelectView | frontend/src/pages/VehicleDetails.jsx:55-81 | nothing exactly without a truthy id; the loading line exactly while loading; a message exactly when there is an error or no record, reading the error or "Vehicle not found."; otherwise the record |
| DetailPage.Page.constructor | frontend/src/pages/VehicleDetails.jsx:31-40 | a mounted page starts with no record, loading and no error, and has a fetch outstanding exactly when its id is truthy |
| DetailPage.Page.Navigate | frontend/src/pages/VehicleDetails.jsx:35-40 | a changed truthy id sets loading, clears the error and starts a fetch; any other id change leaves the state alone; the old record is kept |
| DetailPage.Page.Settle | frontend/src/pages/VehicleDetails.jsx:42-51 | a settled fetch stores its result or sets the failure text, and ends loading either way; the invariant (the only error is the failure text, and a page with an id stops loading once no fetch is outstanding) is kept |
| DetailPage.Page.View | frontend/src/pages/VehicleDetails.jsx:55-81 | a message is always the failure text or "Vehicle not found.", and a page with no outstanding fetch never shows the loading line |
| DetailPage.FirstLoad | frontend_old/frontend/src/pages/VehicleDetails.jsx:36-81 | a page with an id shows the loading line, then the record, "Vehicle not found." for a null result, or the failure text for a throw |
| DetailPage.NoIdRendersNothing | frontend_old/frontend/src/pages/VehicleDetails.jsx:37-55 | a page without an id renders nothing |
| DetailPage.FailureAfterSuccessShowsMessage | frontend/src/pages/VehicleDetails.jsx:42-78 | when the id prop of a mounted page changes after a record was shown, a failed load of the new id shows the failure text although the old record is still in state |
| DetailPage.RetryAfterFailure | frontend_old/frontend/src/pages/VehicleDetails.jsx:36-51 | when the id prop of a mounted page changes after a failure, the error is cleared, the loading line shows, and then the new record |
| DetailPage.StaleResponseShown | frontend/src/pages/VehicleDetails.jsx:35-53 | when the id prop of a mounted page changes with its first fetch outstanding, the first fetch to settle already ends the loading line, and the one that settles last decides the record shown, even if it belongs to the previous id |

## Left out

- Text.Lower: maps only the ASCII letters A-Z, because JavaScript's full Unicode case mapping (and its length-changing cases) is not modelled. `Text.Upper` is limited in the same way.
- Text.Grouped: `toLocaleString()` is modelled as en-US grouping with commas every three digits, because the runtime locale is an input the pages do not fix.
- Numbers are integers: NaN, fractional mileages and fractional horsepower are not modelled. Fluid capacities are reals, and their `toFixed(1)` formatting is left out.
- The issue date's `toLocaleDateString` formatting is left out. The model records only whether a date is shown.
- `DetailPage.Page.Navigate` starts at the effect. The one render between a new `vehicleId` prop and its effect, which shows the previous state under the new id, is not modelled.
- Fetching is an input: each outcome (a value, `null`, or a throw) and the order in which fetches settle are parameters. The transport wrappers in `frontend/src/api/` and `frontend_old/frontend/src/api/` are not part of this model. The current `fetchVehicle` catches its own errors and returns `null`, so with it the current page reaches "Vehicle not found." rather than the failure text.
- The backend (`backend/app.py`) is not part of this model. Its database queries and ordering happen outside the pages.
- Console logging, CSS classes, icons, the `Badge` component's tone table, placeholder texts for empty sections, and the back button are not modelled.
- `Home.Render` takes the query as a parameter. The input box's state updates are not modelled.
- React compares effect dependencies with `Object.is`. The model uses equality of the field value, which agrees for integer ids.

## Findings

| source | as written | input that shows it | evidently intended | confidence | as-written member | corrected member |
|---|---|---|---|---|---|---|
| frontend/src/pages/VehicleDetails.jsx:233-245 | `{m.interval_miles && ...}` renders a numeric 0 as text, so the line shows "0" twice | `interval_miles: 0, interval_months: 6` shows "0", "0", "Every 6 months" | zero counts as absent: only "Every 6 months" | medium, not executed | VehicleDetails.IntervalSpansAsWritten, shown by VehicleDetails.ZeroMilesShowsStrayZeros | VehicleDetails.IntervalSpans, proved by VehicleDetails.IntervalSpansSpec; used by VehicleDetails.DeriveIntended, tied to the page by VehicleDetails.DeriveAgrees |
| frontend_old/frontend/src/pages/VehicleDetails.jsx:172-174 | `{e.torque && ...}` and `{e.horsepower && e.torque && ...}` render a numeric 0 | `horsepower: 150, torque: 0` shows "150 hp", "0", "0" | only "150 hp" | medium, not executed | LegacyVehicleDetails.EngineSpecsAsWritten, shown by LegacyVehicleDetails.ZeroTorqueShowsStrayZeros | LegacyVehicleDetails.EngineSpecs, proved by LegacyVehicleDetails.EngineSpecsSpec; used by LegacyVehicleDetails.DeriveIntended, tied to the page by LegacyVehicleDetails.DeriveAgrees |
| frontend_old/frontend/src/pages/VehicleDetails.jsx:281-293 | `{m.interval.miles_every && ...}` renders a numeric 0 | `interval: {miles_every: 0, months_every: 12}` shows "0", "Every 12 months" | only "Every 12 months" | medium, not executed | LegacyVehicleDetails.IntervalSpansAsWritten, shown by LegacyVehicleDetails.ZeroMilesEveryShowsStrayZero | LegacyVehicleDetails.IntervalSpans, proved by LegacyVehicleDetails.IntervalSpansSpec; used by LegacyVehicleDetails.DeriveIntended, tied to the page by LegacyVehicleDetails.DeriveAgrees |
| frontend/src/pages/VehicleDetails.jsx:286 | `sevStyles[sev]` also finds properties inherited from `Object.prototype` | severity "constructor" gives the inherited constructor function as the class text, not the neutral style | only high, medium and low are coloured; everything else is neutral | low, not executed | Labels.ToneLookup, shown by Labels.ConstructorSeverityNotNeutral | Labels.SeverityTone, proved by Labels.SeverityToneIff; used by both DeriveIntended functions |
