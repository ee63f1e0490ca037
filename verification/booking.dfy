/** The booking form: one passenger record per selected seat, the fare
    arithmetic (subtotal, 7.5% VAT rounded to the nearest naira, a flat
    convenience fee), the completeness check on the form, and the two flags
    `isBooking` / `isBooked` that drive the pay button and the confirmation
    screen.

    The two-second simulated payment delay becomes a separate `Settle`
    event; the toast, the page reload and the time-stamped booking id are
    side effects outside the model. */
module Booking {
  import opened Builtins

  /** A passenger entry. Every field is the raw text of its input, as in the
      source: the age is a string and nothing checks its range. */
  datatype Passenger = Passenger(name: string, age: string, gender: string)

  datatype Field = Name | Age | Gender

  datatype Contact = Contact(email: string, phone: string)

  const BlankPassenger := Passenger("", "", "")

  /** One blank passenger per selected seat. */
  function InitialPassengers(seatCount: nat): (ps: seq<Passenger>)
    ensures |ps| == seatCount
    ensures forall i :: 0 <= i < |ps| ==> ps[i].name == "" && ps[i].age == "" && ps[i].gender == ""
  {
    seq(seatCount, _ => BlankPassenger)
  }

  function FieldOf(p: Passenger, f: Field): string
  {
    match f
    case Name => p.name
    case Age => p.age
    case Gender => p.gender
  }

  /** `{ ...p, [field]: value }`. */
  function WithField(p: Passenger, f: Field, value: string): Passenger
  {
    match f
    case Name => p.(name := value)
    case Age => p.(age := value)
    case Gender => p.(gender := value)
  }

  /** `handlePassengerChange(index, field, value)`: sets one field of one
      entry. The index always comes from the rendered list of entries. */
  function HandlePassengerChange(ps: seq<Passenger>, index: int, f: Field, value: string): (r: seq<Passenger>)
    requires 0 <= index < |ps|
    ensures |r| == |ps|
    ensures FieldOf(r[index], f) == value
    ensures forall g :: g != f ==> FieldOf(r[index], g) == FieldOf(ps[index], g)
    ensures forall j :: 0 <= j < |ps| && j != index ==> r[j] == ps[j]
  {
    ps[index := WithField(ps[index], f, value)]
  }

  // ---------------------------------------------------------------------
  // Fare arithmetic

  /** VAT rate 7.5%. */
  const VatRate: real := 0.075
  /** Flat convenience fee in naira. */
  const ConvenienceFee: int := 100

  datatype Fare = Fare(totalPrice: int, taxes: int, convenience: int, finalAmount: int)

  /** `totalPrice`, `taxes`, `convenience` and `finalAmount`. */
  function ComputeFare(predictedPrice: int, seatCount: nat): (f: Fare)
    ensures f.totalPrice == predictedPrice * seatCount
    ensures 1000 * f.taxes - 500 <= 75 * f.totalPrice < 1000 * f.taxes + 500
    ensures f.convenience == ConvenienceFee
    ensures f.finalAmount == f.totalPrice + f.taxes + ConvenienceFee
  {
    var total := predictedPrice * seatCount;
    var taxes := Round(total as real * VatRate);
    Fare(total, taxes, ConvenienceFee, total + taxes + ConvenienceFee)
  }

  /** The rounded VAT in integer arithmetic alone: 7.5% of `t`, rounded half
      up, is (75 t + 500) div 1000. */
  lemma TaxesInIntegers(predictedPrice: int, seatCount: nat)
    ensures var f := ComputeFare(predictedPrice, seatCount);
      f.taxes == (75 * f.totalPrice + 500) / 1000
  {
    var f := ComputeFare(predictedPrice, seatCount);
    var t := f.totalPrice;
    var q := (75 * t + 500) / 1000;
    assert 1000 * q <= 75 * t + 500 < 1000 * q + 1000;
  }

  /** Two seats at 893 cost 1786 + 134 VAT + 100 fee = 2020. */
  lemma FareExample()
    ensures ComputeFare(893, 2) == Fare(1786, 134, 100, 2020)
  {
    assert Round(1786.0 * VatRate) == 134;
  }

  /** A further seat never makes the booking cheaper. */
  lemma FareGrowsWithSeats(predictedPrice: int, seatCount: nat)
    requires predictedPrice >= 0
    ensures ComputeFare(predictedPrice, seatCount).finalAmount <= ComputeFare(predictedPrice, seatCount + 1).finalAmount
  {
    var t := predictedPrice * seatCount;
    assert predictedPrice * (seatCount + 1) == t + predictedPrice;
    RoundMonotone(t as real * VatRate, (t + predictedPrice) as real * VatRate);
  }

  // ---------------------------------------------------------------------
  // Completeness of the form

  /** Truthiness of `p.name && p.age && p.gender`. */
  predicate Complete(p: Passenger)
  {
    p.name != "" && p.age != "" && p.gender != ""
  }

  /** `passengers.every(...)`, walked front to back. */
  predicate AllComplete(ps: seq<Passenger>)
  {
    |ps| == 0 || (Complete(ps[0]) && AllComplete(ps[1..]))
  }

  /** `isFormValid`: every passenger filled in, and both contact fields
      non-empty. Nothing else is checked: no age range, no email shape. */
  predicate IsFormValid(ps: seq<Passenger>, contact: Contact)
  {
    AllComplete(ps) && contact.email != "" && contact.phone != ""
  }

  /** A blank input of the form. */
  datatype Slot = PassengerSlot(index: int, field: Field) | EmailSlot | PhoneSlot

  /** Every blank input of the form. */
  function BlankSlots(ps: seq<Passenger>, contact: Contact): set<Slot>
  {
    (set i, f | 0 <= i < |ps| && f in {Name, Age, Gender} && FieldOf(ps[i], f) == "" :: PassengerSlot(i, f))
    + (if contact.email == "" then {EmailSlot} else {})
    + (if contact.phone == "" then {PhoneSlot} else {})
  }

  lemma {:induction false} AllCompleteIff(ps: seq<Passenger>)
    ensures AllComplete(ps) <==> forall i :: 0 <= i < |ps| ==> Complete(ps[i])
    decreases |ps|
  {
    if |ps| > 0 {
      AllCompleteIff(ps[1..]);
      assert forall i :: 1 <= i < |ps| ==> ps[i] == ps[1..][i - 1];
    }
  }

  /** The form is valid exactly when no input is blank. */
  lemma FormValidIffNoBlanks(ps: seq<Passenger>, contact: Contact)
    ensures IsFormValid(ps, contact) <==> BlankSlots(ps, contact) == {}
  {
    AllCompleteIff(ps);
    if !AllComplete(ps) {
      var i :| 0 <= i < |ps| && !Complete(ps[i]);
      var f := if ps[i].name == "" then Name else if ps[i].age == "" then Age else Gender;
      assert PassengerSlot(i, f) in BlankSlots(ps, contact);
    } else if contact.email == "" {
      assert EmailSlot in BlankSlots(ps, contact);
    } else if contact.phone == "" {
      assert PhoneSlot in BlankSlots(ps, contact);
    }
  }

  /** An age of "0" passes: the form does no range check. */
  lemma AgeIsNotRangeChecked()
    ensures IsFormValid([Passenger("Ada", "0", "female")], Contact("ada", "080"))
  {
    assert [Passenger("Ada", "0", "female")][1..] == [];
  }

  // ---------------------------------------------------------------------
  // Booking flags

  datatype Flags = Flags(isBooking: bool, isBooked: bool)

  const InitialFlags := Flags(false, false)

  /** The pay button's `disabled` flag. */
  predicate PayDisabled(valid: bool, flags: Flags)
  {
    !valid || flags.isBooking
  }

  /** `handleBooking` up to its `await`: an invalid form returns at once,
      otherwise the booking goes in flight. */
  function HandleBooking(flags: Flags, valid: bool): (r: Flags)
    ensures !valid ==> r == flags
    ensures valid ==> r.isBooking && r.isBooked == flags.isBooked
  {
    if !valid then flags else flags.(isBooking := true)
  }

  /** The code after the `await`: the booking is confirmed. */
  function FinishBooking(flags: Flags): (r: Flags)
    ensures r.isBooked && !r.isBooking
  {
    flags.(isBooked := true, isBooking := false)
  }

  /** The whole form's state. */
  datatype Form = Form(passengers: seq<Passenger>, contact: Contact, flags: Flags)

  function InitialForm(seatCount: nat): Form
  {
    Form(InitialPassengers(seatCount), Contact("", ""), InitialFlags)
  }

  datatype FormEvent =
    | EditPassenger(index: int, field: Field, value: string)
    | EditEmail(email: string)
    | EditPhone(phone: string)
    | Pay
    | Settle

  /** Whether the rendered page can deliver the event: the inputs and the
      pay button exist only until the booking is confirmed, the pay button
      only while it is enabled, and a settlement only while a booking is in
      flight. */
  predicate Enabled(form: Form, ev: FormEvent)
  {
    match ev
    case EditPassenger(i, _, _) => !form.flags.isBooked && 0 <= i < |form.passengers|
    case EditEmail(_) => !form.flags.isBooked
    case EditPhone(_) => !form.flags.isBooked
    case Pay => !form.flags.isBooked && !PayDisabled(IsFormValid(form.passengers, form.contact), form.flags)
    case Settle => form.flags.isBooking
  }

  function Apply(form: Form, ev: FormEvent): Form
    requires Enabled(form, ev)
  {
    match ev
    case EditPassenger(i, f, v) => form.(passengers := HandlePassengerChange(form.passengers, i, f, v))
    case EditEmail(e) => form.(contact := form.contact.(email := e))
    case EditPhone(p) => form.(contact := form.contact.(phone := p))
    case Pay => form.(flags := HandleBooking(form.flags, IsFormValid(form.passengers, form.contact)))
    case Settle => form.(flags := FinishBooking(form.flags))
  }

  /** One user or timer event; an event the page cannot deliver changes nothing. */
  function Step(form: Form, ev: FormEvent): (r: Form)
    ensures |r.passengers| == |form.passengers|
    ensures form.flags.isBooked ==> r.flags.isBooked
    ensures form.flags.isBooking && ev == Pay ==> r == form
    ensures !IsFormValid(form.passengers, form.contact) && ev == Pay ==> r == form
  {
    if Enabled(form, ev) then Apply(form, ev) else form
  }

  /** The flags are never both set. */
  predicate FlagsOk(flags: Flags)
  {
    !(flags.isBooking && flags.isBooked)
  }

  lemma StepKeepsFlagsOk(form: Form, ev: FormEvent)
    requires FlagsOk(form.flags)
    ensures FlagsOk(Step(form, ev).flags)
  {
  }

  /** A booking goes in flight on this step. */
  predicate Starts(form: Form, ev: FormEvent)
  {
    !form.flags.isBooking && Step(form, ev).flags.isBooking
  }

  function Run(form: Form, evs: seq<FormEvent>): Form
    decreases |evs|
  {
    if |evs| == 0 then form else Run(Step(form, evs[0]), evs[1..])
  }

  /** How many times a booking goes in flight along a run. */
  function StartCount(form: Form, evs: seq<FormEvent>): nat
    decreases |evs|
  {
    if |evs| == 0 then 0
    else (if Starts(form, evs[0]) then 1 else 0) + StartCount(Step(form, evs[0]), evs[1..])
  }

  /** Once a booking is in flight or confirmed, no further booking starts. */
  lemma {:induction false} NoStartAfterSubmit(form: Form, evs: seq<FormEvent>)
    requires FlagsOk(form.flags) && (form.flags.isBooking || form.flags.isBooked)
    ensures StartCount(form, evs) == 0
    decreases |evs|
  {
    if |evs| > 0 {
      var next := Step(form, evs[0]);
      assert !Starts(form, evs[0]);
      assert next.flags.isBooking || next.flags.isBooked;
      NoStartAfterSubmit(next, evs[1..]);
    }
  }

  /** From a fresh form, any sequence of events submits at most one booking. */
  lemma {:induction false} AtMostOneSubmission(form: Form, evs: seq<FormEvent>)
    requires FlagsOk(form.flags) && !form.flags.isBooked
    ensures StartCount(form, evs) <= 1
    decreases |evs|
  {
    if |evs| > 0 {
      var next := Step(form, evs[0]);
      StepKeepsFlagsOk(form, evs[0]);
      if next.flags.isBooking || next.flags.isBooked {
        NoStartAfterSubmit(next, evs[1..]);
      } else {
        AtMostOneSubmission(next, evs[1..]);
      }
    }
  }

  /** Along any run the booking stays confirmed once it is. */
  lemma {:induction false} BookedIsFinal(form: Form, evs: seq<FormEvent>)
    requires form.flags.isBooked
    ensures Run(form, evs).flags.isBooked
    decreases |evs|
  {
    if |evs| > 0 {
      BookedIsFinal(Step(form, evs[0]), evs[1..]);
    }
  }
}
