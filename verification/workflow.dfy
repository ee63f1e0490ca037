/** The four-step booking page: search (1), bus list (2), seat selection (3)
    and booking form (4). The page keeps the search fields, the current
    step, the chosen bus, the chosen seats and the last quoted price; each
    handler moves one step forward under its guard, and nothing ever moves
    back.

    Which step's controls exist is decided by rendering; `Enabled` states
    which events the rendered page can deliver, and `Next` applies a
    handler only to those. The price the quote components report is an
    input event, whichever bus reports it. */
module Workflow {
  import opened Builtins
  import SeatMap
  import Booking
  import Pricing

  /** The search form. The passenger count is kept as the text of the
      chosen option, as in the source. */
  datatype SearchData = SearchData(from: string, to: string, date: string, passengers: string)

  /** A bus of the catalog. */
  datatype Trip = Trip(id: int, operator: string, departure: string, busType: string,
                       basePrice: int, seatsAvailable: int, rating: real)

  datatype State = State(
    currentStep: int,
    search: SearchData,
    selectedBus: Option<Trip>,
    selectedSeats: seq<string>,
    predictedPrice: Option<int>)

  /** The options of the passenger drop-down, "1" to "6". */
  function PassengerOption(n: int): (s: string)
    requires 1 <= n <= 6
    ensures |s| == 1 && '1' <= s[0] <= '6'
  {
    [('0' as int + n) as char]
  }

  predicate IsPassengerOption(s: string)
  {
    |s| == 1 && '1' <= s[0] <= '6'
  }

  /** `parseInt` of a drop-down option. */
  function PassengerCount(s: string): (n: int)
    requires IsPassengerOption(s)
    ensures 1 <= n <= 6
    ensures PassengerOption(n) == s
  {
    s[0] as int - '0' as int
  }

  /** Choosing option n and parsing it back gives n. */
  lemma PassengerOptionRoundTrip(n: int)
    requires 1 <= n <= 6
    ensures PassengerCount(PassengerOption(n)) == n
  {
  }

  /** Step 1, empty search, one passenger, nothing chosen, no price yet. */
  const Initial := State(1, SearchData("", "", "", "1"), None, [], None)

  /** The search button's `disabled` flag. */
  predicate SearchDisabled(search: SearchData)
  {
    search.from == "" || search.to == "" || search.date == ""
  }

  /** `handleSearch`. */
  function HandleSearch(st: State): (r: State)
    ensures r.currentStep == 2 || r == st
    ensures SearchDisabled(st.search) ==> r == st
    ensures !SearchDisabled(st.search) ==> r.currentStep == 2 && r.(currentStep := st.currentStep) == st
  {
    if st.search.from != "" && st.search.to != "" && st.search.date != "" then st.(currentStep := 2) else st
  }

  /** On the search step, the button is enabled exactly when pressing it
      moves the page on, and disabled exactly when pressing it would change
      nothing. */
  lemma SearchButtonMatchesHandler(st: State)
    requires st.currentStep == 1
    ensures !SearchDisabled(st.search) <==> HandleSearch(st).currentStep == 2
    ensures SearchDisabled(st.search) <==> HandleSearch(st) == st
  {
  }

  /** `handleBusSelect`. */
  function HandleBusSelect(st: State, bus: Trip): (r: State)
    ensures r.selectedBus == Some(bus) && r.currentStep == 3
    ensures r.search == st.search && r.selectedSeats == st.selectedSeats && r.predictedPrice == st.predictedPrice
  {
    st.(selectedBus := Some(bus), currentStep := 3)
  }

  /** `handleSeatSelection`: the seats are always stored; the page moves on
      only when there is at least one. */
  function HandleSeatSelection(st: State, seats: seq<string>): (r: State)
    ensures r.selectedSeats == seats
    ensures r.currentStep == (if |seats| > 0 then 4 else st.currentStep)
    ensures r.search == st.search && r.selectedBus == st.selectedBus && r.predictedPrice == st.predictedPrice
  {
    var r := st.(selectedSeats := seats);
    if |seats| > 0 then r.(currentStep := 4) else r
  }

  /** The seat step's render guard. */
  predicate ShowsSeatStep(st: State)
  {
    st.currentStep == 3 && st.selectedBus.Some?
  }

  /** The booking step's render guard. */
  predicate ShowsBookingStep(st: State)
  {
    st.currentStep == 4 && st.selectedBus.Some? && |st.selectedSeats| > 0
  }

  datatype Event =
    | SetFrom(from: string)
    | SetTo(to: string)
    | SetDate(date: string)
    | SetPassengers(count: int)
    | Search
    | PriceCalculated(price: int)
    | SelectBus(bus: Trip)
    | SeatsConfirmed(seats: seq<string>)

  /** Whether the rendered page can deliver the event: the search inputs
      exist only at step 1 and the passenger drop-down offers 1..6; the
      search button only while enabled; the bus list, its quotes and its
      buttons only at step 2; the seat step's confirmation only while that
      step is shown, with one seat per passenger. */
  predicate Enabled(st: State, ev: Event)
  {
    match ev
    case SetFrom(_) => st.currentStep == 1
    case SetTo(_) => st.currentStep == 1
    case SetDate(_) => st.currentStep == 1
    case SetPassengers(n) => st.currentStep == 1 && 1 <= n <= 6
    case Search => st.currentStep == 1 && !SearchDisabled(st.search)
    case PriceCalculated(_) => st.currentStep == 2
    case SelectBus(_) => st.currentStep == 2
    case SeatsConfirmed(seats) =>
      ShowsSeatStep(st) && IsPassengerOption(st.search.passengers)
      && SeatMap.HandleConfirmSelection(seats, SeatLimit(st)) == Some(seats)
  }

  /** The seat cap handed to the seat step: the parsed passenger count. */
  function SeatLimit(st: State): (n: int)
    requires IsPassengerOption(st.search.passengers)
    ensures 1 <= n <= 6
    ensures PassengerOption(n) == st.search.passengers
  {
    PassengerCount(st.search.passengers)
  }

  /** The handler the event reaches. */
  function Handle(st: State, ev: Event): State
    requires Enabled(st, ev)
  {
    match ev
    case SetFrom(v) => st.(search := st.search.(from := v))
    case SetTo(v) => st.(search := st.search.(to := v))
    case SetDate(v) => st.(search := st.search.(date := v))
    case SetPassengers(n) => st.(search := st.search.(passengers := PassengerOption(n)))
    case Search => HandleSearch(st)
    case PriceCalculated(p) => st.(predictedPrice := Some(p))
    case SelectBus(b) => HandleBusSelect(st, b)
    case SeatsConfirmed(seats) => HandleSeatSelection(st, seats)
  }

  /** One event; an event the page cannot deliver changes nothing. Every
      step moves the page forward by at most one step. */
  function Next(st: State, ev: Event): (r: State)
    ensures r.currentStep == st.currentStep || r.currentStep == st.currentStep + 1
  {
    if Enabled(st, ev) then Handle(st, ev) else st
  }

  /** What holds of every state the page can reach. */
  predicate Inv(st: State)
  {
    && 1 <= st.currentStep <= 4
    && IsPassengerOption(st.search.passengers)
    && (st.currentStep >= 2 ==> !SearchDisabled(st.search))
    && (st.currentStep >= 3 ==> st.selectedBus.Some?)
    && (st.currentStep == 4 ==> |st.selectedSeats| == SeatLimit(st))
  }

  lemma InitialInv()
    ensures Inv(Initial)
  {
  }

  lemma NextKeepsInv(st: State, ev: Event)
    requires Inv(st)
    ensures Inv(Next(st, ev))
  {
  }

  /** In a reachable state the render guards of steps 3 and 4 always hold,
      so neither step ever shows a blank page. */
  lemma GuardsHoldInReachableStates(st: State)
    requires Inv(st)
    ensures st.currentStep == 3 ==> ShowsSeatStep(st)
    ensures st.currentStep == 4 ==> ShowsBookingStep(st)
    ensures ShowsSeatStep(st) ==> 1 <= SeatLimit(st) <= 6
  {
  }

  /** The booking form the last step opens has one passenger entry per
      passenger chosen in the search, and charges for that many seats. */
  lemma CheckoutMatchesSearch(st: State, price: int)
    requires Inv(st) && st.currentStep == 4
    ensures |Booking.InitialForm(|st.selectedSeats|).passengers| == SeatLimit(st)
    ensures Booking.ComputeFare(price, |st.selectedSeats|).totalPrice == price * SeatLimit(st)
  {
  }

  function Run(st: State, evs: seq<Event>): State
    decreases |evs|
  {
    if |evs| == 0 then st else Run(Next(st, evs[0]), evs[1..])
  }

  /** Along any run from a reachable state the invariant holds and the step
      never decreases. */
  lemma {:induction false} RunKeepsInv(st: State, evs: seq<Event>)
    requires Inv(st)
    ensures Inv(Run(st, evs))
    ensures st.currentStep <= Run(st, evs).currentStep
    decreases |evs|
  {
    if |evs| > 0 {
      NextKeepsInv(st, evs[0]);
      RunKeepsInv(Next(st, evs[0]), evs[1..]);
    }
  }

  /** Once the search is submitted, the search data never changes again:
      the booking step sees the criteria that were searched for. */
  lemma {:induction false} SearchFrozenAfterStep1(st: State, evs: seq<Event>)
    requires st.currentStep >= 2
    ensures Run(st, evs).search == st.search
    decreases |evs|
  {
    if |evs| > 0 {
      SearchFrozenAfterStep1(Next(st, evs[0]), evs[1..]);
    }
  }

  /** The events of the bus-list cards reporting their quotes, in list order. */
  function Reports(prices: seq<int>): (evs: seq<Event>)
    ensures |evs| == |prices|
    ensures forall i :: 0 <= i < |prices| ==> evs[i] == PriceCalculated(prices[i])
  {
    if |prices| == 0 then [] else [PriceCalculated(prices[0])] + Reports(prices[1..])
  }

  /** On the bus list, after every card has reported, the page holds the
      last card's quote and nothing else has changed: it is still on the
      bus list, with the same search, bus and seats. */
  lemma {:induction false} LastReportWins(st: State, prices: seq<int>)
    requires st.currentStep == 2 && |prices| > 0
    ensures Run(st, Reports(prices)) == st.(predictedPrice := Some(prices[|prices| - 1]))
    decreases |prices|
  {
    var evs := Reports(prices);
    var next := Next(st, evs[0]);
    assert next == st.(predictedPrice := Some(prices[0]));
    if |prices| == 1 {
      assert evs[1..] == [];
    } else {
      assert evs[1..] == Reports(prices[1..]);
      LastReportWins(next, prices[1..]);
    }
  }

  /** Running two sequences of events one after the other is running their
      concatenation. */
  lemma {:induction false} RunConcat(st: State, a: seq<Event>, b: seq<Event>)
    ensures Run(st, a + b) == Run(Run(st, a), b)
    decreases |a|
  {
    if |a| > 0 {
      assert (a + b)[0] == a[0] && (a + b)[1..] == a[1..] + b;
      RunConcat(Next(st, a[0]), a[1..], b);
    } else {
      assert a + b == b;
    }
  }

  /** The catalog of the bus-list step, usable as concrete data. */
  const Catalog: seq<Trip> := [
    Trip(1, "Premium Express", "06:00", "AC Sleeper", 1200, 15, 4.5),
    Trip(2, "City Connect", "09:15", "AC Semi-Sleeper", 950, 8, 4.2),
    Trip(3, "Night Rider", "22:30", "AC Sleeper", 1400, 22, 4.7)
  ]

  /** What a card hands to the quote: the trip's attributes, with the
      departure hour read off its "HH:MM" text. */
  function CardBus(t: Trip, hour: int): Pricing.Bus
  {
    Pricing.Bus(hour, t.seatsAvailable, t.busType, t.rating)
  }

  /** The three cards' quotes for a Monday ten days ahead, in list order. */
  lemma CatalogQuotes()
    ensures var monday := Pricing.Travel(1, 10);
      && Pricing.CalculatePrice(Catalog[0].basePrice, CardBus(Catalog[0], 6), monday).price == 1377
      && Pricing.CalculatePrice(Catalog[1].basePrice, CardBus(Catalog[1], 9), monday).price == 1142
      && Pricing.CalculatePrice(Catalog[2].basePrice, CardBus(Catalog[2], 22), monday).price == 1383
  {
    Pricing.MorningSleeperExample();
    Pricing.SemiSleeperExample();
    Pricing.LateSleeperExample();
  }

  const MondaySearch := SearchData("mumbai", "pune", "2025-07-21", "2")

  /** Filling in the search for two passengers on a Monday and searching
      reaches the bus list with nothing else chosen. */
  lemma SearchPhase()
    ensures Run(Initial, [SetFrom("mumbai"), SetTo("pune"), SetDate("2025-07-21"), SetPassengers(2), Search])
         == State(2, MondaySearch, None, [], None)
  {
    var evs := [SetFrom("mumbai"), SetTo("pune"), SetDate("2025-07-21"), SetPassengers(2), Search];
    var s1 := Next(Initial, evs[0]);
    var s2 := Next(s1, evs[1]);
    var s3 := Next(s2, evs[2]);
    var s4 := Next(s3, evs[3]);
    var s5 := Next(s4, evs[4]);
    assert s4.search == MondaySearch;
    assert s5 == State(2, MondaySearch, None, [], None);
    calc {
      Run(Initial, evs);
      Run(s1, evs[1..]);
      { assert evs[1..][1..] == evs[2..]; }
      Run(s2, evs[2..]);
      { assert evs[2..][1..] == evs[3..]; }
      Run(s3, evs[3..]);
      { assert evs[3..][1..] == evs[4..]; }
      Run(s4, evs[4..]);
      { assert evs[4..][1..] == evs[5..]; }
      Run(s5, evs[5..]);
      s5;
    }
  }

  /** From the bus list, picking the first bus and confirming two seats
      opens the booking step with the price the page already held. */
  lemma PickPhase(price: int)
    ensures Run(State(2, MondaySearch, None, [], Some(price)), [SelectBus(Catalog[0]), SeatsConfirmed(["A1", "A2"])])
         == State(4, MondaySearch, Some(Catalog[0]), ["A1", "A2"], Some(price))
  {
    var evs := [SelectBus(Catalog[0]), SeatsConfirmed(["A1", "A2"])];
    var s0 := State(2, MondaySearch, None, [], Some(price));
    var s1 := Next(s0, evs[0]);
    assert s1 == State(3, MondaySearch, Some(Catalog[0]), [], Some(price));
    assert SeatLimit(s1) == 2;
    var s2 := Next(s1, evs[1]);
    assert s2 == State(4, MondaySearch, Some(Catalog[0]), ["A1", "A2"], Some(price));
    calc {
      Run(s0, evs);
      Run(s1, evs[1..]);
      { assert evs[1..][1..] == []; }
      s2;
    }
  }

  /** A complete walk through the four steps on a Monday: search, let the
      three cards report their quotes in list order, pick the first bus,
      confirm two seats. The booking step opens with the last card's quote,
      not the chosen bus's. */
  lemma HappyPath()
    ensures var evs := [SetFrom("mumbai"), SetTo("pune"), SetDate("2025-07-21"), SetPassengers(2), Search,
                        PriceCalculated(1377), PriceCalculated(1142), PriceCalculated(1383),
                        SelectBus(Catalog[0]), SeatsConfirmed(["A1", "A2"])];
      var st := Run(Initial, evs);
      && st.currentStep == 4
      && ShowsBookingStep(st)
      && st.selectedBus == Some(Catalog[0])
      && st.selectedSeats == ["A1", "A2"]
      && st.predictedPrice == Some(1383)
  {
    var search := [SetFrom("mumbai"), SetTo("pune"), SetDate("2025-07-21"), SetPassengers(2), Search];
    var reports := Reports([1377, 1142, 1383]);
    var pick := [SelectBus(Catalog[0]), SeatsConfirmed(["A1", "A2"])];
    assert reports == [PriceCalculated(1377), PriceCalculated(1142), PriceCalculated(1383)];
    RunConcat(Initial, search + reports, pick);
    RunConcat(Initial, search, reports);
    SearchPhase();
    LastReportWins(State(2, MondaySearch, None, [], None), [1377, 1142, 1383]);
    PickPhase(1383);
    assert search + reports + pick == [SetFrom("mumbai"), SetTo("pune"), SetDate("2025-07-21"), SetPassengers(2), Search,
                                       PriceCalculated(1377), PriceCalculated(1142), PriceCalculated(1383),
                                       SelectBus(Catalog[0]), SeatsConfirmed(["A1", "A2"])];
  }
}
