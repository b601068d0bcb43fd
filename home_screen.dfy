/**
 * The search form of the home screen: origin, destination and number of
 * passengers, with the handlers that change them and the search button.
 */
module HomeScreen {
  import opened Feedback

  const MissingLocations: string := "Silakan pilih asal dan tujuan"

  /** A route offered under "popular routes". */
  datatype Route = Route(id: string, from: string, to: string, price: string, duration: string)

  const PopularRoutes: seq<Route> := [
    Route("1", "Banjarmasin", "Pulau Laut", "Rp 45.000", "2 jam"),
    Route("2", "Banjarmasin", "Kotabaru", "Rp 65.000", "3 jam"),
    Route("3", "Banjarmasin", "Sampit", "Rp 120.000", "5 jam")
  ]

  /** The parameters the search passes to the results screen. */
  datatype SearchParams = SearchParams(origin: string, destination: string, passengers: int)

  /** What pressing the search button does. */
  datatype SearchEffect = Show(toast: Toast) | NavigateToResults(params: SearchParams)

  /** The values the form holds. */
  datatype FormState = FormState(origin: string, destination: string, passengers: int)

  /** The form with origin and destination exchanged. */
  function Swapped(s: FormState): FormState {
    s.(origin := s.destination, destination := s.origin)
  }

  /** Swapping twice gives back the form as it was; swapping touches only the two places. */
  lemma SwapInvolutive(s: FormState)
    ensures Swapped(Swapped(s)) == s
    ensures Swapped(s).passengers == s.passengers
  {
  }

  function Max(a: int, b: int): int {
    if a >= b then a else b
  }

  class SearchForm {
    var origin: string
    var destination: string
    var passengers: int

    /** There is always at least one passenger. */
    ghost predicate Valid()
      reads this
    {
      passengers >= 1
    }

    function State(): FormState
      reads this
    {
      FormState(origin, destination, passengers)
    }

    /** No places chosen yet, one passenger. */
    constructor ()
      ensures Valid() && State() == FormState("", "", 1)
    {
      origin := "";
      destination := "";
      passengers := 1;
    }

    /** `swapLocations`. */
    method SwapLocations()
      requires Valid()
      modifies this
      ensures Valid() && State() == Swapped(old(State()))
    {
      var temp := origin;
      origin := destination;
      destination := temp;
    }

    /** The minus button: one passenger fewer, but never fewer than one. */
    method DecrementPassengers()
      requires Valid()
      modifies this
      ensures Valid() && State() == old(State()).(passengers := Max(1, old(passengers) - 1))
      ensures old(passengers) > 1 ==> passengers == old(passengers) - 1
      ensures old(passengers) == 1 ==> passengers == 1
    {
      passengers := Max(1, passengers - 1);
    }

    /** The plus button: exactly one passenger more. */
    method IncrementPassengers()
      requires Valid()
      modifies this
      ensures Valid() && State() == old(State()).(passengers := old(passengers) + 1)
    {
      passengers := passengers + 1;
    }

    /** The origin chosen on the location screen. */
    method SelectOrigin(place: string)
      requires Valid()
      modifies this
      ensures Valid() && State() == old(State()).(origin := place)
    {
      origin := place;
    }

    /** The destination chosen on the location screen. */
    method SelectDestination(place: string)
      requires Valid()
      modifies this
      ensures Valid() && State() == old(State()).(destination := place)
    {
      destination := place;
    }

    /** Tapping a popular route: its two places, the passengers untouched. */
    method SelectPopularRoute(route: Route)
      requires Valid()
      modifies this
      ensures Valid() && State() == old(State()).(origin := route.from, destination := route.to)
    {
      origin := route.from;
      destination := route.to;
    }

    /**
     * `handleSearch`: with both places chosen, go to the results with the
     * form's values as they are; otherwise show an error and stay.
     */
    method HandleSearch() returns (effect: SearchEffect)
      ensures effect.NavigateToResults? <==> origin != "" && destination != ""
      ensures effect.NavigateToResults? ==> effect.params == SearchParams(origin, destination, passengers)
      ensures effect.Show? ==> effect.toast == ErrorToast(MissingLocations)
    {
      if origin == "" || destination == "" {
        return Show(ErrorToast(MissingLocations));
      }
      effect := NavigateToResults(SearchParams(origin, destination, passengers));
    }
  }
}
