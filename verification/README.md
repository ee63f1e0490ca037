# smart-ticket-forecast booking pipeline in Dafny

The app is a four-step bus booking flow. This project models it as pure functions over immutable data and proves the properties the code promises.

1. **Fare quote** (`Pricing`, `pricing.dfy`) models the price-prediction component's `calculatePrice`.
   - Six ordered rules, in this order: time of day, scarcity, bus type, day of week, advance booking and rating.
   - Each rule may multiply the running price and append a labelled factor.
   - The result is rounded with `Math.round`.
   - The card shows the first three factors and a "+n more factors" badge.
2. **Seat map and selection** (`SeatMap`, `seats.dfy`) models the seat-selection component.
   - The 40-seat, 2 + aisle + 2 layout: seat names, positions, sleeper flag and price tiers.
   - The rendered rows.
   - The click handler, which toggles seats under the passenger cap.
   - The confirm guard, the "Remaining" count and the running total.
3. **Booking form** (`Booking`, `booking.dfy`) models the booking form.
   - One passenger entry per seat, and the index-local field update.
   - The fare: subtotal, 7.5% VAT rounded, and a ₦100 fee.
   - The completeness check.
   - The `isBooking`/`isBooked` flags behind the pay button, and whole event runs over the form.
4. **Step machine** (`Workflow`, `workflow.dfy`) models the index page.
   - Search, bus list, seats and booking form, as steps 1 to 4.
   - The handlers `handleSearch`, `handleBusSelect` and `handleSeatSelection`, plus the search-field setters.
   - The render guards of steps 3 and 4.
   - An `Enabled`/`Next` pair that admits only the events the rendered page can deliver.

`Builtins` (`builtins.dfy`) models `Math.round` as `Floor(x + 1/2)` and `String.prototype.includes`, and provides `Option` for `null`.

Abstractions:
- Multipliers are exact reals. The model is the ideal arithmetic of the code, without IEEE-754 rounding.
- Inputs that the code reads from the clock, from `Math.random` or by parsing become plain parameters:
  - the departure hour;
  - the weekday, 0 = Sunday;
  - the whole days until travel;
  - the set of occupied seat indices.

Facts about the code worth knowing before reading the model:
- **Form checks.** `isFormValid` checks only that fields are non-empty: an age of "0" passes (`Booking.AgeIsNotRangeChecked`), and the email is not checked for shape.
- **Steps.** No handler lowers `currentStep`; the confirmation is the `isBooked` flag and nothing more.
- **Hour 22.** The code's night test reads `hour >= 22 || hour <= 5`. Hour 22 is already taken by the evening band, so night travel means hours 23 and later, or 5 and earlier.
- **Semi-sleeper buses.** "AC Semi-Sleeper" also contains "Sleeper", so those buses get the Sleeper Premium and the sleeper flag too.
- **Shared price.** Every card of the bus list reports its quote to the one `setPredictedPrice`, in list order, so the booking step receives the last listed bus's quote, whichever bus was chosen (`Workflow.HappyPath`).

## Model

| member | source | states |
|---|---|---|
| Builtins.Round | src/components/PricePrediction.tsx:88 | `Math.round` lands within half a unit of its argument, with halves going up |
| Builtins.RoundMonotone | src/components/PricePrediction.tsx:88 | rounding preserves order, so bounds on the exact price carry over to the quote |
| Builtins.IncludesAt | src/components/PricePrediction.tsx:53 | an occurrence at some position makes `includes` true |
| Pricing.TimeFactor | src/components/PricePrediction.tsx:24-38 | Morning Peak iff hour in 6–10; Evening Peak iff 18–22 (hour 22 is evening); Night Travel iff ≥23 or ≤5; nothing iff 11–17 |
| Pricing.ScarcityFactor | src/components/PricePrediction.tsx:40-50 | High Demand iff seats ≤5; Limited Seats iff 6–10; Good Availability iff ≥20; nothing iff 11–19 |
| Pricing.TypeFactor | src/components/PricePrediction.tsx:52-56 | Sleeper Premium is produced iff the bus type contains "Sleeper", and it is the only factor this rule can produce |
| Pricing.DayFactor | src/components/PricePrediction.tsx:58-69 | Weekend iff weekday is 5 or 6; Sunday iff weekday is 0; nothing on the other days |
| Pricing.AdvanceFactor | src/components/PricePrediction.tsx:71-80 | Early Booking iff ≥7 days ahead; Last Minute iff ≤1 day; nothing for 2–6 days |
| Pricing.RatingFactor | src/components/PricePrediction.tsx:82-86 | Premium Service iff rating ≥4.5 |
| Pricing.FactorsWellTagged | src/components/PricePrediction.tsx:29-85 | every factor is tagged "increase" exactly when its multiplier exceeds 1, and "decrease" exactly when it is below 1 |
| Pricing.TriggeredMembers | src/components/PricePrediction.tsx:20-86 | a factor is in the list iff its rule produced it |
| Pricing.CalculatePrice | src/components/PricePrediction.tsx:18-92 | the quote reports at most six factors |
| Pricing.ApplyIsProduct | src/components/PricePrediction.tsx:19-86 | multiplying the running price one factor at a time gives the base times the product of the multipliers |
| Pricing.TriggeredProduct | src/components/PricePrediction.tsx:20-86 | skipping untriggered rules gives the same product as multiplying by 1 for each of them |
| Pricing.RunningPriceIsExact | src/components/PricePrediction.tsx:19-88 | rounding the running price equals rounding base × product of the factors' multipliers |
| Pricing.QuotePrice | src/components/PricePrediction.tsx:19-91 | the quoted price is round(base × product of the multipliers of exactly the reported factors) |
| Pricing.FactorSlot | src/components/PricePrediction.tsx:24-86 | a factor can appear among the rule outcomes only in its own rule's slot |
| Pricing.QuoteFactorsInRuleOrder | src/components/PricePrediction.tsx:20-86 | the factors appear in the fixed rule order: time, scarcity, type, day, advance, rating |
| Pricing.AtMostOneFactorPerRule | src/components/PricePrediction.tsx:24-86 | no two reported factors come from the same rule, e.g. never two time-of-day factors |
| Pricing.TimeOfDayFactorIff | src/components/PricePrediction.tsx:25-38 | in a full quote, each time-of-day factor is reported exactly for its hour band |
| Pricing.ScarcityFactorIff | src/components/PricePrediction.tsx:41-50 | in a full quote, each scarcity factor is reported exactly for its availability band |
| Pricing.PremiumFactorsIff | src/components/PricePrediction.tsx:53-86 | in a full quote, Sleeper Premium is reported iff the type contains "Sleeper", and Premium Service iff rating ≥4.5 |
| Pricing.DayFactorsIff | src/components/PricePrediction.tsx:59-69 | in a full quote, Weekend is reported iff the weekday is 5 or 6, and Sunday iff it is 0 |
| Pricing.AdvanceFactorsIff | src/components/PricePrediction.tsx:73-80 | in a full quote, Early Booking is reported iff ≥7 days ahead, and Last Minute iff ≤1 day |
| Pricing.ExtremeProducts | src/components/PricePrediction.tsx:24-86 | the cheapest combination multiplies by 0.95·0.90·0.88 = 0.7524; the dearest by 1.15·1.20·1.08·1.12·1.15·1.05 = 2.01561696 |
| Pricing.ProductBounds | src/components/PricePrediction.tsx:24-86 | for every bus and trip, the product of the six rule multipliers lies between those two extremes |
| Pricing.RawQuoteBounds | src/components/PricePrediction.tsx:19-86 | the unrounded price lies between base × 0.7524 and base × 2.01561696 |
| Pricing.QuoteBounds | src/components/PricePrediction.tsx:19-88 | the quote lies between round(base × 0.7524) and round(base × 2.01561696) |
| Pricing.QuotePositive | src/components/PricePrediction.tsx:19-88 | a positive base fare always gives a positive quote |
| Pricing.DisplayFactors | src/components/PricePrediction.tsx:120-137 | shows the first min(3, n) factors in order; the "+n more" badge appears iff n > 3 and counts the rest |
| Pricing.MorningSleeperExample | src/components/PricePrediction.tsx:18-92 | an AC Sleeper at 06:00 with 15 seats, rating 4.5, Monday, ten days ahead, base 1200: factors Morning Peak, Sleeper Premium, Early Booking, Premium Service; price 1377 |
| Pricing.StandardMorningExample | src/components/PricePrediction.tsx:18-92 | the same trip on an AC Standard bus from base 800 gives Morning Peak, Early Booking, Premium Service and price 850 |
| Pricing.SemiSleeperExample | src/components/PricePrediction.tsx:18-92 | the 09:15 AC Semi-Sleeper (base 950, 8 seats, rating 4.2) on that Monday gets Morning Peak, Limited Seats, Sleeper Premium and Early Booking; price 1142 |
| Pricing.LateSleeperExample | src/components/PricePrediction.tsx:18-92 | the 22:30 AC Sleeper (base 1400, 22 seats, rating 4.7) on that Monday gets Evening Peak, Good Availability, Sleeper Premium, Early Booking and Premium Service; price 1383 |
| SeatMap.SeatName | src/components/SeatSelection.tsx:26 | seat i is named by a row letter A–J and a column digit 1–4 |
| SeatMap.SeatIndex | src/components/SeatSelection.tsx:26 | reading a name back yields an index only for a real seat name, and naming that index gives the name again |
| SeatMap.SeatNameRoundTrip | src/components/SeatSelection.tsx:25-26 | naming seat i and reading the name back gives i |
| SeatMap.SeatNamesDistinct | src/components/SeatSelection.tsx:25-26 | different seats have different names |
| SeatMap.Layout | src/components/SeatSelection.tsx:17-36 | 40 seats; seat k+1 at index k; position in 0..3; occupied iff its index is in the occupied set; sleeper iff the type contains "Sleeper" |
| SeatMap.LayoutNamesDistinct | src/components/SeatSelection.tsx:25-34 | the generated map has pairwise distinct seat names |
| SeatMap.LayoutPriceTiers | src/components/SeatSelection.tsx:32 | seat price is base + 50·⌊(i−1)/8⌋, never decreasing towards the back, from base up to base + 200 |
| SeatMap.RowsCoverSeats | src/components/SeatSelection.tsx:93-121 | the ten rendered rows of 2 + aisle + 2 show every seat exactly once, in order |
| SeatMap.LayoutRows | src/components/SeatSelection.tsx:93-121 | each rendered row holds positions 0 and 1 left of the aisle and 2 and 3 right of it, all with that row's letter |
| SeatMap.FindSeat | src/components/SeatSelection.tsx:41 | `find` returns the first seat with the name (no earlier seat carries it), and nothing iff no seat has it |
| SeatMap.FindInLayout | src/components/SeatSelection.tsx:41 | looking a seat up by its name on the generated map finds that seat |
| SeatMap.Without | src/components/SeatSelection.tsx:45 | `filter` drops every copy of the name and keeps the count of every other name |
| SeatMap.WithoutUnique | src/components/SeatSelection.tsx:45 | removing a seat selected once cuts exactly that entry and keeps the others in order |
| SeatMap.HandleSeatClick | src/components/SeatSelection.tsx:40-49 | occupied: no change; selected: deselected; otherwise appended iff fewer than `passengers` are selected, else no change |
| SeatMap.ClickPreservesValid | src/components/SeatSelection.tsx:40-49 | a click keeps the selection within the cap, free of duplicates and free of occupied seats |
| SeatMap.ClicksStayValid | src/components/SeatSelection.tsx:40-49 | any run of clicks from a valid (for instance empty) selection keeps it valid |
| SeatMap.ClickTwiceUndoes | src/components/SeatSelection.tsx:44-47 | clicking a free, unselected seat twice, with room for it, restores the selection |
| SeatMap.HandleConfirmSelection | src/components/SeatSelection.tsx:64-68 | the selection is passed on iff it holds exactly `passengers` seats, and then unchanged |
| SeatMap.ConfirmEnabledIff | src/components/SeatSelection.tsx:185 | the confirm button is enabled exactly when confirming passes the selection on |
| SeatMap.Remaining | src/components/SeatSelection.tsx:158 | remaining + selected = passengers, and remaining is never negative for a valid selection |
| SeatMap.TotalAfterAdd | src/components/SeatSelection.tsx:57-62 | selecting a seat adds its price to the total |
| SeatMap.TotalOfConcat | src/components/SeatSelection.tsx:57-62 | the total over two runs of seats is the sum of their totals |
| SeatMap.TotalAfterRemove | src/components/SeatSelection.tsx:57-62 | deselecting a seat takes exactly its price off the total |
| SeatMap.LayoutTotalBounds | src/components/SeatSelection.tsx:57-62 | n seats of the map cost between n × base and n × (base + 200) |
| Booking.InitialPassengers | src/components/BookingForm.tsx:24-30 | one blank entry (empty name, age and gender) per selected seat |
| Booking.HandlePassengerChange | src/components/BookingForm.tsx:58-62 | sets the one field of the one entry; the length, the other fields and the other entries are unchanged |
| Booking.ComputeFare | src/components/BookingForm.tsx:64-67 | subtotal = price × seats; taxes within half a unit of 7.5% of it; fee 100; final = subtotal + taxes + 100 |
| Booking.TaxesInIntegers | src/components/BookingForm.tsx:65 | the rounded VAT equals (75·subtotal + 500) div 1000 |
| Booking.FareExample | src/components/BookingForm.tsx:64-67 | 893 × 2 seats gives 1786 + 134 + 100 = 2020 |
| Booking.FareGrowsWithSeats | src/components/BookingForm.tsx:64-67 | one more seat never lowers the final amount |
| Booking.AllCompleteIff | src/components/BookingForm.tsx:70 | `every` holds iff each passenger has non-empty name, age and gender |
| Booking.FormValidIffNoBlanks | src/components/BookingForm.tsx:69-72 | the form is valid iff no passenger field, email or phone is blank |
| Booking.AgeIsNotRangeChecked | src/components/BookingForm.tsx:69-72 | an age of "0" passes: the code checks only for non-empty fields |
| Booking.HandleBooking | src/components/BookingForm.tsx:74-77 | an invalid form changes nothing; a valid one sets `isBooking` and leaves `isBooked` |
| Booking.FinishBooking | src/components/BookingForm.tsx:82-83 | on completion `isBooked` is set and `isBooking` cleared |
| Booking.Step | src/components/BookingForm.tsx:74-89 | the entry count is kept; a confirmed booking stays confirmed; Pay while in flight, or on an invalid form, changes nothing |
| Booking.StepKeepsFlagsOk | src/components/BookingForm.tsx:74-89 | `isBooking` and `isBooked` are never both set |
| Booking.NoStartAfterSubmit | src/components/BookingForm.tsx:306 | once a booking is in flight or confirmed, no further booking starts |
| Booking.AtMostOneSubmission | src/components/BookingForm.tsx:305-306 | any run of events from an unconfirmed form starts at most one booking |
| Booking.BookedIsFinal | src/components/BookingForm.tsx:91 | once confirmed, every later state is confirmed |
| Workflow.PassengerOption | src/pages/Index.tsx:180-181 | the drop-down offers the one-character strings "1" to "6" |
| Workflow.PassengerCount | src/pages/Index.tsx:283 | `parseInt` of an option gives a count in 1..6 whose option is the string parsed |
| Workflow.SeatLimit | src/pages/Index.tsx:283 | the cap handed to the seat step is the parsed passenger count, in 1..6 |
| Workflow.HandleSearch | src/pages/Index.tsx:66-70 | the page moves to step 2 iff from, to and date are all non-empty, and nothing else changes; otherwise the state is unchanged |
| Workflow.SearchButtonMatchesHandler | src/pages/Index.tsx:191 | on step 1 the button is disabled exactly when pressing it would change nothing |
| Workflow.HandleBusSelect | src/pages/Index.tsx:72-75 | stores the bus and sets step 3; search, seats and price are untouched |
| Workflow.HandleSeatSelection | src/pages/Index.tsx:77-82 | always stores the seats; moves to step 4 iff there is at least one |
| Workflow.Next | src/pages/Index.tsx:66-82 | every event leaves the step where it is or moves it forward by exactly one |
| Workflow.InitialInv | src/pages/Index.tsx:15-25 | the initial state (step 1, passengers "1", no bus, no seats, no price) satisfies the page invariant |
| Workflow.NextKeepsInv | src/pages/Index.tsx:66-82 | every event preserves: step in 1..4; from step 2 the search is complete; from step 3 a bus is set; at step 4 there is one seat per passenger |
| Workflow.GuardsHoldInReachableStates | src/pages/Index.tsx:280-289 | in every reachable state, steps 3 and 4 always pass their render guards |
| Workflow.RunKeepsInv | src/pages/Index.tsx:66-82 | along any run the invariant holds and the step never decreases |
| Workflow.SearchFrozenAfterStep1 | src/pages/Index.tsx:121-198 | after the search is submitted, the search data never changes again |
| Workflow.CheckoutMatchesSearch | src/pages/Index.tsx:289-295 | the booking form of step 4 has one entry per passenger searched for and charges for that many seats |
| Workflow.LastReportWins | src/pages/Index.tsx:258-263 | when the bus-list cards report their quotes in list order, the page keeps the last card's quote and nothing else changes: still the bus list, same search, bus and seats |
| Workflow.CatalogQuotes | src/pages/Index.tsx:27-64 | for a Monday ten days ahead the three catalog buses are quoted 1377, 1142 and 1383, in list order |
| Workflow.HappyPath | src/pages/Index.tsx:66-82 | a Monday search, the three cards' reports, picking the first bus and confirming two seats reaches the booking step with that bus, those seats and the last card's quote 1383, not the chosen bus's 1377 |

## Left out

- Rendering: JSX, CSS classes, icons, the step indicator, seat colours, and `toLocaleString`/`toLocaleDateString` formatting are presentation only.
- Occupancy: the code draws 5 to 14 random seat numbers and redraws them on every render. The model takes a fixed set of occupied indices, so "no occupied seat is ever selected" holds for that fixed set only.
- The clock and date parsing: `new Date`, `getDay`, the day difference from now, and `parseInt` of "HH:MM". The model takes the weekday, the whole days until travel and the departure hour as integers.
- Floating point: the model uses exact multipliers and an exact 7.5% rate, not IEEE-754. So a product that lands within rounding error of a half may round differently in the code.
- Price difference: `percentageChange` and its `toFixed` are float formatting for display. The up/down arrow on the price card is left out for the same reason.
- Side effects: the two-second `setTimeout` becomes the `Settle` event. The toast, `window.location.reload` and the `Date.now()` booking id are left out.
- Price reporting: the reported price is the `PriceCalculated` event's input, not recomputed inside the page model. The cards report in list order, so the page ends up with the last listed bus's quote (`Workflow.LastReportWins`); the booking fare takes that price as a parameter.
- Static data: the bus catalog appears only as test data (`Workflow.Catalog`). The city lists of the search and booking forms are left out.
- Booking.HandlePassengerChange: requires an index within the list, because the code only calls it from the rendered list. An out-of-range index, which would make JavaScript grow the array, is not modelled.
- Workflow.Next: the seat step can deliver its confirmation only with one seat per passenger, because it invokes the page's handler only then. The page handler itself (`HandleSeatSelection`) is modelled for every input.
