/** The rule-based fare quote of the price-prediction component: six ordered
    rules (time of day, scarcity, bus type, day of week, advance booking,
    rating), each of which may multiply the base fare and report a labelled
    factor, followed by rounding to a whole currency unit.

    The clock and the parsing of the departure time are outside the model:
    the departure hour, the weekday (0 = Sunday .. 6 = Saturday) and the
    number of days until travel arrive as integers. Multipliers are exact
    rationals, so the model is the ideal arithmetic of the source. */
module Pricing {
  import opened Builtins

  /** The six rules, in the order the source evaluates them. */
  datatype Rule = TimeOfDay | Scarcity | BusType | DayOfWeek | Advance | Rating

  function RuleIndex(g: Rule): (k: nat)
    ensures k < 6
  {
    match g
    case TimeOfDay => 0
    case Scarcity => 1
    case BusType => 2
    case DayOfWeek => 3
    case Advance => 4
    case Rating => 5
  }

  datatype Direction = Increase | Decrease

  /** The factors the engine can report. Each carries the source's
      `{name, change, type}` record, the rule that produces it and the
      multiplier it applies. */
  datatype Factor =
    | MorningPeak | EveningPeak | NightTravel
    | HighDemand | LimitedSeats | GoodAvailability
    | SleeperPremium
    | Weekend | Sunday
    | EarlyBooking | LastMinute
    | PremiumService
  {
    function Name(): string
    {
      match this
      case MorningPeak => "Morning Peak"
      case EveningPeak => "Evening Peak"
      case NightTravel => "Night Travel"
      case HighDemand => "High Demand"
      case LimitedSeats => "Limited Seats"
      case GoodAvailability => "Good Availability"
      case SleeperPremium => "Sleeper Premium"
      case Weekend => "Weekend"
      case Sunday => "Sunday"
      case EarlyBooking => "Early Booking"
      case LastMinute => "Last Minute"
      case PremiumService => "Premium Service"
    }

    function Change(): string
    {
      match this
      case MorningPeak => "+15%"
      case EveningPeak => "+10%"
      case NightTravel => "-5%"
      case HighDemand => "+20%"
      case LimitedSeats => "+10%"
      case GoodAvailability => "-10%"
      case SleeperPremium => "+8%"
      case Weekend => "+12%"
      case Sunday => "+5%"
      case EarlyBooking => "-12%"
      case LastMinute => "+15%"
      case PremiumService => "+5%"
    }

    function Multiplier(): real
    {
      match this
      case MorningPeak => 1.15
      case EveningPeak => 1.10
      case NightTravel => 0.95
      case HighDemand => 1.20
      case LimitedSeats => 1.10
      case GoodAvailability => 0.90
      case SleeperPremium => 1.08
      case Weekend => 1.12
      case Sunday => 1.05
      case EarlyBooking => 0.88
      case LastMinute => 1.15
      case PremiumService => 1.05
    }

    /** The `type` tag the source attaches. */
    function Direction(): Direction
    {
      match this
      case NightTravel | GoodAvailability | EarlyBooking => Decrease
      case _ => Increase
    }

    function Rule(): Rule
    {
      match this
      case MorningPeak | EveningPeak | NightTravel => TimeOfDay
      case HighDemand | LimitedSeats | GoodAvailability => Scarcity
      case SleeperPremium => BusType
      case Weekend | Sunday => DayOfWeek
      case EarlyBooking | LastMinute => Advance
      case PremiumService => Rating
    }
  }

  /** The trip attributes the quote reads. */
  datatype Bus = Bus(departureHour: int, seatsAvailable: int, busType: string, rating: real)

  /** The travel context: weekday of the travel date and the rounded-up day
      difference between the travel date and now. */
  datatype Travel = Travel(weekday: int, daysUntilTravel: int)

  /** A computed quote: the rounded price and the ordered factor list. */
  datatype Quote = Quote(price: int, factors: seq<Factor>)

  /** A factor is tagged "increase" exactly when it raises the price and
      "decrease" exactly when it lowers it. */
  predicate WellTagged(f: Factor)
  {
    && (f.Direction() == Increase <==> f.Multiplier() > 1.0)
    && (f.Direction() == Decrease <==> f.Multiplier() < 1.0)
  }

  /** Rule 1. The hour bands are tested in order, so hour 22 falls in the
      evening band and the night band only catches 23 and later. */
  function TimeFactor(hour: int): (r: Option<Factor>)
    ensures r == Some(MorningPeak) <==> 6 <= hour <= 10
    ensures r == Some(EveningPeak) <==> 18 <= hour <= 22
    ensures r == Some(NightTravel) <==> hour >= 23 || hour <= 5
    ensures r == None <==> 11 <= hour <= 17
  {
    if 6 <= hour <= 10 then Some(MorningPeak)
    else if 18 <= hour <= 22 then Some(EveningPeak)
    else if hour >= 22 || hour <= 5 then Some(NightTravel)
    else None
  }

  /** Rule 2: scarcity pricing on the number of seats still available. */
  function ScarcityFactor(seats: int): (r: Option<Factor>)
    ensures r == Some(HighDemand) <==> seats <= 5
    ensures r == Some(LimitedSeats) <==> 6 <= seats <= 10
    ensures r == Some(GoodAvailability) <==> seats >= 20
    ensures r == None <==> 11 <= seats <= 19
  {
    if seats <= 5 then Some(HighDemand)
    else if seats <= 10 then Some(LimitedSeats)
    else if seats >= 20 then Some(GoodAvailability)
    else None
  }

  /** Rule 3: any bus type whose name contains "Sleeper" (which includes
      "Semi-Sleeper") carries the sleeper premium. */
  function TypeFactor(busType: string): (r: Option<Factor>)
    ensures r.Some? <==> Includes(busType, "Sleeper")
    ensures r.Some? ==> r == Some(SleeperPremium)
  {
    if Includes(busType, "Sleeper") then Some(SleeperPremium) else None
  }

  /** Rule 4: Friday and Saturday are weekend, Sunday has its own premium. */
  function DayFactor(weekday: int): (r: Option<Factor>)
    ensures r == Some(Weekend) <==> weekday == 5 || weekday == 6
    ensures r == Some(Sunday) <==> weekday == 0
    ensures r == None <==> weekday !in {0, 5, 6}
  {
    if weekday == 5 || weekday == 6 then Some(Weekend)
    else if weekday == 0 then Some(Sunday)
    else None
  }

  /** Rule 5: a week or more ahead is early, a day or less is last minute. */
  function AdvanceFactor(days: int): (r: Option<Factor>)
    ensures r == Some(EarlyBooking) <==> days >= 7
    ensures r == Some(LastMinute) <==> days <= 1
    ensures r == None <==> 2 <= days <= 6
  {
    if days >= 7 then Some(EarlyBooking)
    else if days <= 1 then Some(LastMinute)
    else None
  }

  /** Rule 6: operators rated 4.5 or more carry a service premium. */
  function RatingFactor(rating: real): (r: Option<Factor>)
    ensures r.Some? <==> rating >= 4.5
    ensures r.Some? ==> r == Some(PremiumService)
  {
    if rating >= 4.5 then Some(PremiumService) else None
  }

  /** The outcome of each rule, in evaluation order. */
  function RuleOutcomes(bus: Bus, travel: Travel): (os: seq<Option<Factor>>)
    ensures |os| == 6
  {
    [TimeFactor(bus.departureHour), ScarcityFactor(bus.seatsAvailable), TypeFactor(bus.busType),
     DayFactor(travel.weekday), AdvanceFactor(travel.daysUntilTravel), RatingFactor(bus.rating)]
  }

  /** The factors pushed onto the list: the triggered outcomes, in order. */
  function Triggered(os: seq<Option<Factor>>): (fs: seq<Factor>)
    ensures |fs| <= |os|
  {
    if |os| == 0 then []
    else
      match os[0]
      case Some(f) => [f] + Triggered(os[1..])
      case None => Triggered(os[1..])
  }

  /** A factor is reported exactly when some rule produced it. */
  lemma {:induction false} TriggeredMembers(os: seq<Option<Factor>>, f: Factor)
    ensures f in Triggered(os) <==> Some(f) in os
    decreases |os|
  {
    if |os| > 0 {
      TriggeredMembers(os[1..], f);
      assert Some(f) in os <==> os[0] == Some(f) || Some(f) in os[1..];
    }
  }

  /** Multiplier of one rule's outcome; an untriggered rule multiplies by 1. */
  function OutcomeMultiplier(o: Option<Factor>): (m: real)
    ensures m > 0.0
  {
    match o
    case Some(f) => f.Multiplier()
    case None => 1.0
  }

  /** The multipliers of a factor list, in order. */
  function Multipliers(fs: seq<Factor>): (ms: seq<real>)
    ensures |ms| == |fs|
    ensures forall i :: 0 <= i < |fs| ==> ms[i] == fs[i].Multiplier()
  {
    if |fs| == 0 then [] else [fs[0].Multiplier()] + Multipliers(fs[1..])
  }

  /** The multipliers of a sequence of rule outcomes, in order. */
  function OutcomeMultipliers(os: seq<Option<Factor>>): (ms: seq<real>)
    ensures |ms| == |os|
    ensures forall i :: 0 <= i < |os| ==> ms[i] == OutcomeMultiplier(os[i])
  {
    if |os| == 0 then [] else [OutcomeMultiplier(os[0])] + OutcomeMultipliers(os[1..])
  }

  /** Product of a sequence of multipliers. */
  function Product(ms: seq<real>): real
  {
    if |ms| == 0 then 1.0 else ms[0] * Product(ms[1..])
  }

  /** The source's running `finalPrice *= multiplier`, one multiplier at a time. */
  function Apply(price: real, ms: seq<real>): real
    decreases |ms|
  {
    if |ms| == 0 then price else Apply(price * ms[0], ms[1..])
  }

  /** Applying multipliers one at a time multiplies by their product. */
  lemma {:induction false} ApplyIsProduct(price: real, ms: seq<real>)
    ensures Apply(price, ms) == price * Product(ms)
    decreases |ms|
  {
    if |ms| > 0 {
      ApplyIsProduct(price * ms[0], ms[1..]);
      assert price * ms[0] * Product(ms[1..]) == price * (ms[0] * Product(ms[1..]));
    }
  }

  /** The multipliers that are present, in order. */
  function Present(xs: seq<Option<real>>): seq<real>
  {
    if |xs| == 0 then []
    else if xs[0].Some? then [xs[0].value] + Present(xs[1..])
    else Present(xs[1..])
  }

  /** Every entry's multiplier, with 1 for an absent one. */
  function OrOne(xs: seq<Option<real>>): (ms: seq<real>)
    ensures |ms| == |xs|
  {
    if |xs| == 0 then [] else [if xs[0].Some? then xs[0].value else 1.0] + OrOne(xs[1..])
  }

  /** Dropping absent multipliers is the same as multiplying by 1 for them. */
  lemma {:induction false} PresentProduct(xs: seq<Option<real>>)
    ensures Product(Present(xs)) == Product(OrOne(xs))
    decreases |xs|
  {
    if |xs| > 0 {
      PresentProduct(xs[1..]);
      assert OrOne(xs)[1..] == OrOne(xs[1..]);
      if xs[0].Some? {
        assert Present(xs)[1..] == Present(xs[1..]);
      }
    }
  }

  /** Each rule outcome's multiplier, if the rule triggered. */
  function Rates(os: seq<Option<Factor>>): (xs: seq<Option<real>>)
    ensures |xs| == |os|
  {
    if |os| == 0 then []
    else [if os[0].Some? then Some(os[0].value.Multiplier()) else None] + Rates(os[1..])
  }

  lemma {:induction false} TriggeredRates(os: seq<Option<Factor>>)
    ensures Multipliers(Triggered(os)) == Present(Rates(os))
    decreases |os|
  {
    if |os| > 0 {
      TriggeredRates(os[1..]);
      assert Rates(os)[1..] == Rates(os[1..]);
      if os[0].Some? {
        var t := Triggered(os[1..]);
        assert Triggered(os) == [os[0].value] + t;
        assert ([os[0].value] + t)[1..] == t;
      }
    }
  }

  lemma {:induction false} OutcomeRates(os: seq<Option<Factor>>)
    ensures OutcomeMultipliers(os) == OrOne(Rates(os))
    decreases |os|
  {
    if |os| > 0 {
      OutcomeRates(os[1..]);
      assert Rates(os)[1..] == Rates(os[1..]);
      assert OutcomeMultipliers(os)[1..] == OutcomeMultipliers(os[1..]);
    }
  }

  /** Skipping untriggered rules does not change the product. */
  lemma TriggeredProduct(os: seq<Option<Factor>>)
    ensures Product(Multipliers(Triggered(os))) == Product(OutcomeMultipliers(os))
  {
    TriggeredRates(os);
    OutcomeRates(os);
    PresentProduct(Rates(os));
  }

  /** `calculatePrice`: run the six rules in order, multiplying the running
      price as each one triggers, then round. */
  function CalculatePrice(basePrice: int, bus: Bus, travel: Travel): (q: Quote)
    ensures |q.factors| <= 6
  {
    var os := RuleOutcomes(bus, travel);
    var fs := Triggered(os);
    assert |fs| <= |os| == 6;
    Quote(RunningPrice(basePrice, fs), fs)
  }

  /** The rounded result of multiplying the running price by each factor in turn. */
  function RunningPrice(basePrice: int, fs: seq<Factor>): int
  {
    Round(Apply(basePrice as real, Multipliers(fs)))
  }

  /** The exact, unrounded price: the base fare times the product of the
      factors' multipliers. */
  function ExactPrice(basePrice: int, fs: seq<Factor>): real
  {
    basePrice as real * Product(Multipliers(fs))
  }

  /** The quoted price is the exact price of the reported factors, rounded. */
  lemma QuotePrice(basePrice: int, bus: Bus, travel: Travel)
    ensures var q := CalculatePrice(basePrice, bus, travel);
      q.price == Round(ExactPrice(basePrice, q.factors))
  {
    var q := CalculatePrice(basePrice, bus, travel);
    assert q.price == RunningPrice(basePrice, q.factors);
    RunningPriceIsExact(basePrice, q.factors);
  }

  lemma RunningPriceIsExact(basePrice: int, fs: seq<Factor>)
    ensures RunningPrice(basePrice, fs) == Round(ExactPrice(basePrice, fs))
  {
    var ms := Multipliers(fs);
    ApplyIsProduct(basePrice as real, ms);
    SameRound(Apply(basePrice as real, ms), ExactPrice(basePrice, fs));
  }

  lemma SameRound(x: real, y: real)
    requires x == y
    ensures Round(x) == Round(y)
  {
  }

  // ---------------------------------------------------------------------
  // Properties of the factor list

  /** The rules of a list strictly increase: at most one factor per rule,
      in the fixed evaluation order. */
  predicate InRuleOrder(fs: seq<Factor>)
  {
    forall i, j :: 0 <= i < j < |fs| ==> RuleIndex(fs[i].Rule()) < RuleIndex(fs[j].Rule())
  }

  /** Outcomes whose k-th entry (when present) comes from the k-th rule,
      starting at rule `from`. */
  predicate OutcomesFromRule(os: seq<Option<Factor>>, from: nat)
  {
    forall k :: 0 <= k < |os| && os[k].Some? ==> RuleIndex(os[k].value.Rule()) == from + k
  }

  lemma {:induction false} TriggeredInRuleOrder(os: seq<Option<Factor>>, from: nat)
    requires OutcomesFromRule(os, from)
    ensures InRuleOrder(Triggered(os))
    ensures forall f :: f in Triggered(os) ==> RuleIndex(f.Rule()) >= from
    decreases |os|
  {
    if |os| > 0 {
      assert OutcomesFromRule(os[1..], from + 1) by {
        forall k | 0 <= k < |os[1..]| && os[1..][k].Some?
          ensures RuleIndex(os[1..][k].value.Rule()) == from + 1 + k
        {
          assert os[1..][k] == os[k + 1];
        }
      }
      TriggeredInRuleOrder(os[1..], from + 1);
    }
  }

  lemma RuleOutcomesInOrder(bus: Bus, travel: Travel)
    ensures OutcomesFromRule(RuleOutcomes(bus, travel), 0)
  {
  }

  /** A factor can only come from its own rule's slot. */
  lemma FactorSlot(bus: Bus, travel: Travel, f: Factor)
    ensures var os := RuleOutcomes(bus, travel);
      Some(f) in os <==> os[RuleIndex(f.Rule())] == Some(f)
  {
    var os := RuleOutcomes(bus, travel);
    RuleOutcomesInOrder(bus, travel);
    if Some(f) in os {
      var k :| 0 <= k < |os| && os[k] == Some(f);
      assert RuleIndex(os[k].value.Rule()) == k;
    }
  }

  /** At most one factor per rule, reported in the order time of day,
      scarcity, bus type, day of week, advance booking, rating. */
  lemma QuoteFactorsInRuleOrder(basePrice: int, bus: Bus, travel: Travel)
    ensures InRuleOrder(CalculatePrice(basePrice, bus, travel).factors)
  {
    RuleOutcomesInOrder(bus, travel);
    TriggeredInRuleOrder(RuleOutcomes(bus, travel), 0);
  }

  /** In particular, never two time-of-day factors nor two scarcity factors. */
  lemma AtMostOneFactorPerRule(basePrice: int, bus: Bus, travel: Travel, i: int, j: int)
    requires var fs := CalculatePrice(basePrice, bus, travel).factors; 0 <= i < |fs| && 0 <= j < |fs|
    requires CalculatePrice(basePrice, bus, travel).factors[i].Rule() == CalculatePrice(basePrice, bus, travel).factors[j].Rule()
    ensures i == j
  {
    QuoteFactorsInRuleOrder(basePrice, bus, travel);
  }

  /** Every factor is tagged by the direction of its multiplier. */
  lemma FactorsWellTagged(f: Factor)
    ensures WellTagged(f)
  {
  }

  /** Each time-of-day factor is reported exactly for its hour band. */
  lemma TimeOfDayFactorIff(basePrice: int, bus: Bus, travel: Travel)
    ensures var fs := CalculatePrice(basePrice, bus, travel).factors;
      && (MorningPeak in fs <==> 6 <= bus.departureHour <= 10)
      && (EveningPeak in fs <==> 18 <= bus.departureHour <= 22)
      && (NightTravel in fs <==> bus.departureHour >= 23 || bus.departureHour <= 5)
  {
    var os := RuleOutcomes(bus, travel);
    TriggeredMembers(os, MorningPeak);
    FactorSlot(bus, travel, MorningPeak);
    TriggeredMembers(os, EveningPeak);
    FactorSlot(bus, travel, EveningPeak);
    TriggeredMembers(os, NightTravel);
    FactorSlot(bus, travel, NightTravel);
  }

  /** Each scarcity factor is reported exactly for its availability band. */
  lemma ScarcityFactorIff(basePrice: int, bus: Bus, travel: Travel)
    ensures var fs := CalculatePrice(basePrice, bus, travel).factors;
      && (HighDemand in fs <==> bus.seatsAvailable <= 5)
      && (LimitedSeats in fs <==> 6 <= bus.seatsAvailable <= 10)
      && (GoodAvailability in fs <==> bus.seatsAvailable >= 20)
  {
    var os := RuleOutcomes(bus, travel);
    TriggeredMembers(os, HighDemand);
    FactorSlot(bus, travel, HighDemand);
    TriggeredMembers(os, LimitedSeats);
    FactorSlot(bus, travel, LimitedSeats);
    TriggeredMembers(os, GoodAvailability);
    FactorSlot(bus, travel, GoodAvailability);
  }

  /** The bus-type and rating premiums, each exactly when triggered. */
  lemma PremiumFactorsIff(basePrice: int, bus: Bus, travel: Travel)
    ensures var fs := CalculatePrice(basePrice, bus, travel).factors;
      && (SleeperPremium in fs <==> Includes(bus.busType, "Sleeper"))
      && (PremiumService in fs <==> bus.rating >= 4.5)
  {
    var os := RuleOutcomes(bus, travel);
    TriggeredMembers(os, SleeperPremium);
    FactorSlot(bus, travel, SleeperPremium);
    TriggeredMembers(os, PremiumService);
    FactorSlot(bus, travel, PremiumService);
  }

  /** The weekday factors, each exactly for its days. */
  lemma DayFactorsIff(basePrice: int, bus: Bus, travel: Travel)
    ensures var fs := CalculatePrice(basePrice, bus, travel).factors;
      && (Weekend in fs <==> travel.weekday == 5 || travel.weekday == 6)
      && (Sunday in fs <==> travel.weekday == 0)
  {
    var os := RuleOutcomes(bus, travel);
    TriggeredMembers(os, Weekend);
    FactorSlot(bus, travel, Weekend);
    TriggeredMembers(os, Sunday);
    FactorSlot(bus, travel, Sunday);
  }

  /** The advance-booking factors, each exactly for its lead times. */
  lemma AdvanceFactorsIff(basePrice: int, bus: Bus, travel: Travel)
    ensures var fs := CalculatePrice(basePrice, bus, travel).factors;
      && (EarlyBooking in fs <==> travel.daysUntilTravel >= 7)
      && (LastMinute in fs <==> travel.daysUntilTravel <= 1)
  {
    var os := RuleOutcomes(bus, travel);
    TriggeredMembers(os, EarlyBooking);
    FactorSlot(bus, travel, EarlyBooking);
    TriggeredMembers(os, LastMinute);
    FactorSlot(bus, travel, LastMinute);
  }

  // ---------------------------------------------------------------------
  // Bounds on the quoted price

  /** Smallest possible product: night travel, good availability and early
      booking, 0.95 * 0.90 * 0.88. */
  const MinMultiplier: real := 0.7524
  /** Largest possible product: morning peak, high demand, sleeper, weekend,
      last minute and premium service, 1.15 * 1.20 * 1.08 * 1.12 * 1.15 * 1.05. */
  const MaxMultiplier: real := 2.01561696

  lemma MulMonotone(a: real, b: real, c: real, d: real)
    requires 0.0 < a <= b && 0.0 < c <= d
    ensures 0.0 < a * c <= b * d
  {
    assert a * c <= b * c;
    assert b * c <= b * d;
  }

  /** A product of positive multipliers grows with each of them. */
  lemma {:induction false} ProductGrows(ms: seq<real>, ns: seq<real>)
    requires |ms| == |ns|
    requires forall i :: 0 <= i < |ms| ==> 0.0 < ms[i] <= ns[i]
    ensures 0.0 < Product(ms) <= Product(ns)
    decreases |ms|
  {
    if |ms| > 0 {
      forall i | 0 <= i < |ms| - 1
        ensures 0.0 < ms[1..][i] <= ns[1..][i]
      {
        assert ms[1..][i] == ms[i + 1] && ns[1..][i] == ns[i + 1];
      }
      ProductGrows(ms[1..], ns[1..]);
      MulMonotone(ms[0], ns[0], Product(ms[1..]), Product(ns[1..]));
    }
  }

  /** A product of multipliers lies between the products of their bounds. */
  lemma ProductBetween(ms: seq<real>, lo: seq<real>, hi: seq<real>)
    requires |lo| == |ms| == |hi|
    requires forall i :: 0 <= i < |ms| ==> 0.0 < lo[i] <= ms[i] <= hi[i]
    ensures 0.0 < Product(lo) <= Product(ms) <= Product(hi)
  {
    ProductGrows(lo, ms);
    ProductGrows(ms, hi);
  }

  /** Lowest and highest multiplier of each rule, in rule order. */
  const LowMultipliers: seq<real> := [0.95, 0.90, 1.0, 1.0, 0.88, 1.0]
  const HighMultipliers: seq<real> := [1.15, 1.20, 1.08, 1.12, 1.15, 1.05]

  lemma ExtremeProducts()
    ensures Product(LowMultipliers) == MinMultiplier
    ensures Product(HighMultipliers) == MaxMultiplier
  {
    var lo := LowMultipliers;
    assert lo[1..][1..][1..][1..][1..][1..] == [];
    var hi := HighMultipliers;
    assert hi[1..][1..][1..][1..][1..][1..] == [];
  }

  lemma ProductBounds(bus: Bus, travel: Travel)
    ensures MinMultiplier <= Product(OutcomeMultipliers(RuleOutcomes(bus, travel))) <= MaxMultiplier
  {
    var os := RuleOutcomes(bus, travel);
    var ms := OutcomeMultipliers(os);
    var lo, hi := LowMultipliers, HighMultipliers;
    assert 0.0 < lo[0] <= ms[0] <= hi[0] by { assert os[0] == TimeFactor(bus.departureHour); }
    assert 0.0 < lo[1] <= ms[1] <= hi[1] by { assert os[1] == ScarcityFactor(bus.seatsAvailable); }
    assert 0.0 < lo[2] <= ms[2] <= hi[2] by { assert os[2] == TypeFactor(bus.busType); }
    assert 0.0 < lo[3] <= ms[3] <= hi[3] by { assert os[3] == DayFactor(travel.weekday); }
    assert 0.0 < lo[4] <= ms[4] <= hi[4] by { assert os[4] == AdvanceFactor(travel.daysUntilTravel); }
    assert 0.0 < lo[5] <= ms[5] <= hi[5] by { assert os[5] == RatingFactor(bus.rating); }
    ProductBetween(ms, lo, hi);
    ExtremeProducts();
  }

  lemma ScaleMonotone(b: real, x: real, y: real)
    requires b >= 0.0 && x <= y
    ensures b * x <= b * y
  {
  }

  /** The unrounded quote lies between the base fare at the cheapest and at
      the dearest combination of rules. */
  lemma RawQuoteBounds(basePrice: int, bus: Bus, travel: Travel)
    requires basePrice >= 0
    ensures var q := CalculatePrice(basePrice, bus, travel);
      basePrice as real * MinMultiplier <= ExactPrice(basePrice, q.factors) <= basePrice as real * MaxMultiplier
  {
    var os := RuleOutcomes(bus, travel);
    var p := Product(OutcomeMultipliers(os));
    var q := CalculatePrice(basePrice, bus, travel);
    assert q.factors == Triggered(os);
    ProductBounds(bus, travel);
    ExactPriceOfOutcomes(basePrice, os);
    ScaleBetween(basePrice as real, p, ExactPrice(basePrice, q.factors));
  }

  /** The exact price of the triggered factors is the base fare times the
      product over all six outcomes. */
  lemma ExactPriceOfOutcomes(basePrice: int, os: seq<Option<Factor>>)
    ensures ExactPrice(basePrice, Triggered(os)) == basePrice as real * Product(OutcomeMultipliers(os))
  {
    TriggeredProduct(os);
  }

  /** A non-negative base fare scaled by a multiplier within the extremes
      lies between the base fare scaled by each extreme. */
  lemma ScaleBetween(b: real, p: real, e: real)
    requires b >= 0.0 && MinMultiplier <= p <= MaxMultiplier && e == b * p
    ensures b * MinMultiplier <= e <= b * MaxMultiplier
  {
    ScaleMonotone(b, MinMultiplier, p);
    ScaleMonotone(b, p, MaxMultiplier);
    assert b * MinMultiplier <= b * p <= b * MaxMultiplier;
  }

  /** The quote lies between the base fare at the cheapest and at the
      dearest combination of rules, both rounded. */
  lemma QuoteBounds(basePrice: int, bus: Bus, travel: Travel)
    requires basePrice >= 0
    ensures var q := CalculatePrice(basePrice, bus, travel);
      Round(basePrice as real * MinMultiplier) <= q.price <= Round(basePrice as real * MaxMultiplier)
  {
    var q := CalculatePrice(basePrice, bus, travel);
    RawQuoteBounds(basePrice, bus, travel);
    QuotePrice(basePrice, bus, travel);
    RoundBetween(basePrice as real * MinMultiplier, ExactPrice(basePrice, q.factors), basePrice as real * MaxMultiplier);
  }

  /** A positive base fare always yields a positive price. */
  lemma QuotePositive(basePrice: int, bus: Bus, travel: Travel)
    requires basePrice > 0
    ensures CalculatePrice(basePrice, bus, travel).price > 0
  {
    var b := basePrice as real;
    QuoteBounds(basePrice, bus, travel);
    ScaleMonotone(MinMultiplier, 1.0, b);
    RoundMonotone(MinMultiplier, b * MinMultiplier);
    assert Round(MinMultiplier) == 1;
  }

  // ---------------------------------------------------------------------
  // The factor badges

  /** What the card shows: the first three factors and, when there are more,
      a "+n more factors" badge carrying n. */
  datatype FactorDisplay = FactorDisplay(shown: seq<Factor>, more: Option<nat>)

  function DisplayFactors(fs: seq<Factor>): (d: FactorDisplay)
    ensures |d.shown| == if |fs| < 3 then |fs| else 3
    ensures d.shown <= fs
    ensures d.more.Some? <==> |fs| > 3
    ensures d.more.Some? ==> |d.shown| + d.more.value == |fs| && fs == d.shown + fs[3..]
  {
    var shown := if |fs| < 3 then fs else fs[..3];
    if |fs| > 3 then FactorDisplay(shown, Some(|fs| - 3)) else FactorDisplay(shown, None)
  }

  // ---------------------------------------------------------------------
  // Worked examples on the catalog buses

  /** The 06:00 "AC Sleeper" bus (base 1200, 15 seats, rated 4.5) on a
      Monday ten days ahead: morning peak, sleeper premium, early booking
      and premium service, giving 1377. */
  lemma MorningSleeperExample()
    ensures var q := CalculatePrice(1200, Bus(6, 15, "AC Sleeper", 4.5), Travel(1, 10));
      q.factors == [MorningPeak, SleeperPremium, EarlyBooking, PremiumService] && q.price == 1377
  {
    IncludesAt("AC Sleeper", "Sleeper", 3);
    var os := RuleOutcomes(Bus(6, 15, "AC Sleeper", 4.5), Travel(1, 10));
    assert os == [Some(MorningPeak), None, Some(SleeperPremium), None, Some(EarlyBooking), Some(PremiumService)];
    assert os[1..][1..][1..][1..][1..][1..] == [];
    var ms := Multipliers([MorningPeak, SleeperPremium, EarlyBooking, PremiumService]);
    assert ms == [1.15, 1.08, 0.88, 1.05];
    assert ms[1..][1..][1..][1..] == [];
  }

  /** An "AC Standard" bus departing 06:00 with 15 seats and rating 4.5,
      on a Monday ten days ahead from a base of 800, is quoted 850. */
  lemma StandardMorningExample()
    ensures var q := CalculatePrice(800, Bus(6, 15, "AC Standard", 4.5), Travel(1, 10));
      q.factors == [MorningPeak, EarlyBooking, PremiumService] && q.price == 850
  {
    assert !Includes("AC Standard", "Sleeper") by {
      forall i | 0 <= i <= |"AC Standard"| - |"Sleeper"|
        ensures !OccursAt("AC Standard", "Sleeper", i)
      {
        assert "AC Standard"[i..i + 7][0] != 'S' || "AC Standard"[i..i + 7][1] != 'l';
      }
    }
    var os := RuleOutcomes(Bus(6, 15, "AC Standard", 4.5), Travel(1, 10));
    assert os == [Some(MorningPeak), None, None, None, Some(EarlyBooking), Some(PremiumService)];
    assert os[1..][1..][1..][1..][1..][1..] == [];
    var ms := Multipliers([MorningPeak, EarlyBooking, PremiumService]);
    assert ms == [1.15, 0.88, 1.05];
    assert ms[1..][1..][1..] == [];
  }

  /** The 09:15 "AC Semi-Sleeper" bus (base 950, 8 seats, rated 4.2) on the
      same Monday: the semi-sleeper also matches "Sleeper", giving 1142. */
  lemma SemiSleeperExample()
    ensures var q := CalculatePrice(950, Bus(9, 8, "AC Semi-Sleeper", 4.2), Travel(1, 10));
      q.factors == [MorningPeak, LimitedSeats, SleeperPremium, EarlyBooking] && q.price == 1142
  {
    IncludesAt("AC Semi-Sleeper", "Sleeper", 8);
    var os := RuleOutcomes(Bus(9, 8, "AC Semi-Sleeper", 4.2), Travel(1, 10));
    assert os == [Some(MorningPeak), Some(LimitedSeats), Some(SleeperPremium), None, Some(EarlyBooking), None];
    assert os[1..][1..][1..][1..][1..][1..] == [];
    var ms := Multipliers([MorningPeak, LimitedSeats, SleeperPremium, EarlyBooking]);
    assert ms == [1.15, 1.10, 1.08, 0.88];
    assert ms[1..][1..][1..][1..] == [];
  }

  /** The 22:30 "AC Sleeper" bus (base 1400, 22 seats, rated 4.7) on the
      same Monday: hour 22 is evening peak, giving 1383. */
  lemma LateSleeperExample()
    ensures var q := CalculatePrice(1400, Bus(22, 22, "AC Sleeper", 4.7), Travel(1, 10));
      q.factors == [EveningPeak, GoodAvailability, SleeperPremium, EarlyBooking, PremiumService] && q.price == 1383
  {
    IncludesAt("AC Sleeper", "Sleeper", 3);
    var os := RuleOutcomes(Bus(22, 22, "AC Sleeper", 4.7), Travel(1, 10));
    assert os == [Some(EveningPeak), Some(GoodAvailability), Some(SleeperPremium), None, Some(EarlyBooking), Some(PremiumService)];
    assert os[1..][1..][1..][1..][1..][1..] == [];
    var ms := Multipliers([EveningPeak, GoodAvailability, SleeperPremium, EarlyBooking, PremiumService]);
    assert ms == [1.10, 0.90, 1.08, 0.88, 1.05];
    assert ms[1..][1..][1..][1..][1..] == [];
  }
}
