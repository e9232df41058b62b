/** The vehicle list page: the fetched list, the search filter over it and the
    count shown beside the search box. */
module Home {
  import opened Text
  import opened Js

  /** One element of the list the page fetches. */
  datatype Vehicle = Vehicle(id: Field<int>, make: Field<string>, model: Field<string>, year: Field<int>)

  /** How the list request ended. */
  datatype ListFetch = Resolved(data: Field<seq<Vehicle>>) | Rejected

  /** `setVehicles(data || [])` after the request; a rejected request never
      reaches the setter, so the list keeps its initial value `[]`. */
  function LoadedVehicles(outcome: ListFetch): (vehicles: seq<Vehicle>)
    ensures outcome.Resolved? && outcome.data.Present? ==> vehicles == outcome.data.value
    ensures !(outcome.Resolved? && outcome.data.Present?) ==> vehicles == []
  {
    match outcome
    case Resolved(data) => OrEmpty(data)
    case Rejected => []
  }

  /** `f?.toLowerCase().includes(q)`: an absent field yields undefined, which is falsy. */
  predicate FieldMatches(f: Field<string>, q: string) {
    f.Present? && Contains(Lower(f.value), q)
  }

  /** The filter callback: the query is lower-cased; make and model are
      lower-cased before the test, the year is only converted with `String`. */
  predicate Matches(v: Vehicle, query: string) {
    var q := Lower(query);
    FieldMatches(v.make, q) || FieldMatches(v.model, q) || Contains(NumberString(v.year), q)
  }

  /** `vehicles.filter(...)`: the vehicles the search keeps. */
  function Search(vehicles: seq<Vehicle>, query: string): (kept: seq<Vehicle>)
    ensures |kept| <= |vehicles|
    ensures forall v :: v in kept <==> v in vehicles && Matches(v, query)
  {
    if vehicles == [] then []
    else (if Matches(vehicles[0], query) then [vehicles[0]] else []) + Search(vehicles[1..], query)
  }

  /** `a` is `b` with some elements left out, the rest kept in order. */
  predicate IsSubsequence<T(==)>(a: seq<T>, b: seq<T>)
    decreases |b|
  {
    if a == [] then true
    else if b == [] then false
    else (a[0] == b[0] && IsSubsequence(a[1..], b[1..])) || IsSubsequence(a, b[1..])
  }

  /** The search only drops vehicles: what it keeps comes in the input order,
      and nothing is duplicated. */
  lemma {:induction false} SearchIsSubsequence(vehicles: seq<Vehicle>, query: string)
    ensures IsSubsequence(Search(vehicles, query), vehicles)
    ensures multiset(Search(vehicles, query)) <= multiset(vehicles)
  {
    if vehicles != [] {
      SearchIsSubsequence(vehicles[1..], query);
      assert vehicles == [vehicles[0]] + vehicles[1..];
      var rest := Search(vehicles[1..], query);
      if Matches(vehicles[0], query) {
        assert Search(vehicles, query) == [vehicles[0]] + rest;
        assert ([vehicles[0]] + rest)[1..] == rest;
      } else {
        assert Search(vehicles, query) == rest;
      }
    }
  }

  /** Searching a concatenation searches each part, so the result keeps the
      relative order of any two kept vehicles. */
  lemma {:induction false} SearchAppend(front: seq<Vehicle>, back: seq<Vehicle>, query: string)
    ensures Search(front + back, query) == Search(front, query) + Search(back, query)
  {
    if front == [] {
      assert front + back == back;
    } else {
      assert (front + back)[0] == front[0];
      assert (front + back)[1..] == front[1..] + back;
      SearchAppend(front[1..], back, query);
    }
  }

  /** Only the lower-case form of the query matters. */
  lemma {:induction false} SearchIgnoresCase(vehicles: seq<Vehicle>, query1: string, query2: string)
    requires Lower(query1) == Lower(query2)
    ensures Search(vehicles, query1) == Search(vehicles, query2)
  {
    if vehicles != [] {
      SearchIgnoresCase(vehicles[1..], query1, query2);
    }
  }

  /** Typing the query in capitals finds the same vehicles. */
  lemma SearchUpperCaseQuery(vehicles: seq<Vehicle>, query: string)
    ensures Search(vehicles, Upper(query)) == Search(vehicles, query)
  {
    LowerOfUpper(query);
    SearchIgnoresCase(vehicles, Upper(query), query);
  }

  /** The empty query keeps every vehicle, because the year string of every
      vehicle (even "undefined") contains the empty string. */
  lemma {:induction false} SearchEmptyQuery(vehicles: seq<Vehicle>)
    ensures Search(vehicles, "") == vehicles
  {
    if vehicles != [] {
      ContainsEmpty(NumberString(vehicles[0].year));
      SearchEmptyQuery(vehicles[1..]);
      assert [vehicles[0]] + vehicles[1..] == vehicles;
    }
  }

  /** A vehicle without make and model can only match through its year, and
      then exactly when the lower-cased query occurs in `String(year)`. */
  lemma AbsentNamesMatchOnlyByYear(v: Vehicle, query: string)
    requires !v.make.Present? && !v.model.Present?
    ensures Matches(v, query) <==> exists i :: OccursAt(NumberString(v.year), Lower(query), i)
  {
    ContainsIff(NumberString(v.year), Lower(query));
  }

  /** The year test is a substring test on the decimal year: "20" and "018"
      both find a 2018 vehicle. */
  lemma YearSubstringMatches(v: Vehicle)
    requires v.year == Present(2018)
    ensures Matches(v, "20") && Matches(v, "018")
  {
    assert NumberString(v.year) == "2018";
    LowerIs("20", "20");
    LowerIs("018", "018");
    assert OccursAt("2018", "20", 0);
    assert OccursAt("2018", "018", 1);
    ContainsIff("2018", "20");
    ContainsIff("2018", "018");
  }

  /** A vehicle without a year is found by the query "undefined", since
      `String(undefined)` is that word. */
  lemma MissingYearMatchesUndefined(v: Vehicle)
    requires v.year == Undefined
    ensures Matches(v, "undefined")
  {
    LowerIs("undefined", "undefined");
  }

  /** `{filtered.length} vehicles` */
  function CountLabel(shown: seq<Vehicle>): string {
    NatString(|shown|) + " vehicles"
  }

  /** The count label ends in " vehicles" and its leading digits read back as
      the number of vehicles the search kept (never pluralised away: one
      result reads "1 vehicles"). */
  lemma CountLabelCountsResults(vehicles: seq<Vehicle>, query: string)
    ensures var text := CountLabel(Search(vehicles, query));
            var n := |text| - |" vehicles"|;
            n > 0 && text[n..] == " vehicles" && AllDigits(text[..n]) &&
            ParseNat(text[..n]) == |Search(vehicles, query)|
  {
    var shown := Search(vehicles, query);
    var text := CountLabel(shown);
    assert text[..|text| - 9] == NatString(|shown|);
    ParseNatString(|shown|);
  }

  /** What the page shows. */
  datatype Screen = LoadingVehicles | Results(count: string, cards: seq<Vehicle>)

  /** While the list loads the page shows only the loading line; afterwards
      it shows one card per kept vehicle, in order, with the count of them. */
  function Render(loading: bool, vehicles: seq<Vehicle>, query: string): (screen: Screen)
    ensures screen.LoadingVehicles? <==> loading
    ensures screen.Results? ==> screen.cards == Search(vehicles, query)
    ensures screen.Results? ==>
              IsSubsequence(screen.cards, vehicles) &&
              (forall v :: v in screen.cards <==> v in vehicles && Matches(v, query)) &&
              screen.count == CountLabel(screen.cards)
  {
    if loading then LoadingVehicles
    else
      SearchIsSubsequence(vehicles, query);
      var shown := Search(vehicles, query);
      Results(CountLabel(shown), shown)
  }
}
