/** The load-and-render cycle that both vehicle-detail pages share: the page
    keeps `vehicle`, `loading` and `error` as state, the effect on
    `vehicleId` fetches the record and updates that state through setters,
    and each render picks one of four views from it. The record type `R` is
    whichever shape the page reads. */
module DetailPage {
  import opened Js

  const LoadFailed := "Unable to load vehicle details."
  const NotFound := "Vehicle not found."

  /** What a render returns: nothing (`null`), the loading line, the error
      line with a back button, or the detail view of a record. */
  datatype DetailView<R> = Nothing | LoadingVehicle | Message(text: string) | Details(vehicle: R)

  /** How one `fetchVehicle` call ended: it returned a value (`null` is
      `None`) or it threw. */
  datatype Outcome<R> = Returned(data: Option<R>) | Threw

  /** The render's choice of view:
      `if (!vehicleId) return null; if (loading) ...; if (error || !vehicle) ...`. */
  function SelectView<R>(vehicleId: Field<int>, loading: bool, error: string, vehicle: Option<R>): (v: DetailView<R>)
    ensures v.Nothing? <==> !TruthyNumber(vehicleId)
    ensures v.LoadingVehicle? <==> TruthyNumber(vehicleId) && loading
    ensures v.Message? <==> TruthyNumber(vehicleId) && !loading && (error != "" || vehicle.None?)
    ensures v.Message? ==> v.text != "" && (v.text == error || (error == "" && v.text == NotFound))
    ensures v.Details? ==> error == "" && vehicle == Some(v.vehicle)
  {
    if !TruthyNumber(vehicleId) then Nothing
    else if loading then LoadingVehicle
    else if error != "" || vehicle.None? then Message(if error != "" then error else NotFound)
    else Details(vehicle.value)
  }

  /** One mounted detail page. `pending` counts the fetches started by the
      effect that have not settled yet; nothing cancels them. */
  class Page<R> {
    var vehicleId: Field<int>
    var vehicle: Option<R>
    var loading: bool
    var error: string
    ghost var pending: nat

    /** The only error text is the load failure, and a page with an id is
        loading until a fetch settles: once none is outstanding, it is not. */
    ghost predicate Valid()
      reads this
    {
      (error == "" || error == LoadFailed) &&
      (TruthyNumber(vehicleId) && pending == 0 ==> !loading)
    }

    /** Mounting: the initial state (`null`, `true`, `""`), then the effect,
        which starts a fetch only for a truthy id and clears the error. */
    constructor(id: Field<int>)
      ensures Valid()
      ensures vehicleId == id && vehicle == None && loading && error == ""
      ensures pending == (if TruthyNumber(id) then 1 else 0)
    {
      vehicleId := id;
      vehicle := None;
      loading := true;
      error := "";
      pending := if TruthyNumber(id) then 1 else 0;
    }

    /** A new `vehicleId` prop. The effect runs only when the id changed, and
        does nothing for a falsy id; otherwise it sets `loading` and clears
        `error` before starting the fetch. The previous record is kept. */
    method Navigate(id: Field<int>)
      requires Valid()
      modifies this
      ensures Valid()
      ensures vehicleId == id && vehicle == old(vehicle)
      ensures id != old(vehicleId) && TruthyNumber(id) ==>
                loading && error == "" && pending == old(pending) + 1
      ensures !(id != old(vehicleId) && TruthyNumber(id)) ==>
                loading == old(loading) && error == old(error) && pending == old(pending)
    {
      var changed := id != vehicleId;
      vehicleId := id;
      if changed && TruthyNumber(id) {
        loading := true;
        error := "";
        pending := pending + 1;
      }
    }

    /** One outstanding fetch settles: `setVehicle(data)` on success,
        `setError(...)` on a throw, and `setLoading(false)` either way. */
    method Settle(outcome: Outcome<R>)
      requires Valid() && pending > 0
      modifies this
      ensures Valid()
      ensures !loading && pending == old(pending) - 1 && vehicleId == old(vehicleId)
      ensures outcome.Returned? ==> vehicle == outcome.data && error == old(error)
      ensures outcome.Threw? ==> vehicle == old(vehicle) && error == LoadFailed
    {
      match outcome {
        case Returned(data) =>
          vehicle := data;
        case Threw =>
          error := LoadFailed;
      }
      loading := false;
      pending := pending - 1;
    }

    /** What the page renders now. The message is always one of the page's
        two texts, and a page whose fetches have all settled never shows the
        loading line. */
    function View(): (v: DetailView<R>)
      reads this
      ensures Valid() && v.Message? ==> v.text == LoadFailed || v.text == NotFound
      ensures Valid() && pending == 0 ==> !v.LoadingVehicle?
    {
      SelectView(vehicleId, loading, error, vehicle)
    }
  }

  /** The view a page with a truthy id settles on after its one fetch. */
  function SettledView<R>(outcome: Outcome<R>): DetailView<R> {
    match outcome
    case Returned(Some(r)) => Details(r)
    case Returned(None) => Message(NotFound)
    case Threw => Message(LoadFailed)
  }

  /** Opening a page for a truthy id shows the loading line until the fetch
      settles, then the record, "Vehicle not found." for a `null` result, or
      the load-failure text when the fetch threw. */
  method FirstLoad<R(==)>(id: Field<int>, outcome: Outcome<R>) returns (during: DetailView<R>, after: DetailView<R>)
    requires TruthyNumber(id)
    ensures during == LoadingVehicle
    ensures after == SettledView(outcome)
    ensures after.Details? <==> outcome.Returned? && outcome.data.Some?
  {
    var page := new Page<R>(id);
    during := page.View();
    page.Settle(outcome);
    after := page.View();
  }

  /** A page opened without an id renders nothing and starts no fetch. */
  method NoIdRendersNothing<R(==)>(id: Field<int>) returns (shown: DetailView<R>)
    requires !TruthyNumber(id)
    ensures shown == Nothing
  {
    var page := new Page<R>(id);
    assert page.pending == 0;
    shown := page.View();
  }

  /** After a record was shown, a failed load of another id shows the
      failure text even though the old record is still held in state. */
  method FailureAfterSuccessShowsMessage<R(==)>(first: Field<int>, second: Field<int>, r: R)
    returns (held: Option<R>, shown: DetailView<R>)
    requires TruthyNumber(first) && TruthyNumber(second) && first != second
    ensures held == Some(r)
    ensures shown == Message(LoadFailed)
  {
    var page := new Page<R>(first);
    page.Settle(Returned(Some(r)));
    page.Navigate(second);
    page.Settle(Threw);
    held := page.vehicle;
    shown := page.View();
  }

  /** A failed load does not stick: moving to another id clears the error
      before its fetch, and a successful fetch then shows that record. */
  method RetryAfterFailure<R(==)>(first: Field<int>, second: Field<int>, r: R)
    returns (failed: DetailView<R>, during: DetailView<R>, after: DetailView<R>)
    requires TruthyNumber(first) && TruthyNumber(second) && first != second
    ensures failed == Message(LoadFailed)
    ensures during == LoadingVehicle
    ensures after == Details(r)
  {
    var page := new Page<R>(first);
    page.Settle(Threw);
    failed := page.View();
    page.Navigate(second);
    during := page.View();
    page.Settle(Returned(Some(r)));
    after := page.View();
  }

  /** Nothing ties a response to the id that requested it. When the page
      moves from one id to another and the first fetch settles last, the
      page ends up showing the first id's record under the second id; and
      the first fetch to settle already ends the loading line while the
      other is still outstanding. */
  method StaleResponseShown<R(==)>(first: Field<int>, second: Field<int>, a: R, b: R)
    returns (early: DetailView<R>, shown: DetailView<R>, id: Field<int>)
    requires TruthyNumber(first) && TruthyNumber(second) && first != second
    ensures early == Details(b)
    ensures id == second && shown == Details(a)
  {
    var page := new Page<R>(first);
    page.Navigate(second);
    page.Settle(Returned(Some(b)));
    early := page.View();
    page.Settle(Returned(Some(a)));
    shown := page.View();
    id := page.vehicleId;
  }
}
