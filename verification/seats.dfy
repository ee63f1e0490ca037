/** The seat map and seat-selection rule of the seat-selection component: a
    fixed 40-seat bus in ten rows of 2 + aisle + 2, seats named by row letter
    and column digit, prices rising by a tier every two rows, and a click
    handler that toggles seats under a passenger-count cap.

    Occupancy is an input: the set of seat indices (1..40) that are taken.
    The source draws it at random on every render; here it is fixed for the
    whole selection session. */
module SeatMap {
  import opened Builtins

  const TotalSeats: int := 40
  const SeatsPerRow: int := 4
  const Rows: int := 10
  /** Price added for every block of eight seats (two rows) from the front. */
  const TierStep: int := 50

  /** One seat of the map, as the component builds it. */
  datatype Seat = Seat(number: string, position: int, isOccupied: bool, isSleeper: bool, price: int)

  // ---------------------------------------------------------------------
  // Seat names

  /** Name of seat `i` (1-based): row letter 'A' + (i-1)/4, then column
      digit (i-1)%4 + 1, so seat 1 is "A1" and seat 40 is "J4". */
  function SeatName(i: int): (name: string)
    requires 1 <= i <= TotalSeats
    ensures |name| == 2 && 'A' <= name[0] <= 'J' && '1' <= name[1] <= '4'
  {
    [(65 + (i - 1) / 4) as char, ('0' as int + (i - 1) % 4 + 1) as char]
  }

  /** Reads a seat name back to its index; `None` for anything that is not
      the name of one of the 40 seats. */
  function SeatIndex(name: string): (r: Option<int>)
    ensures r.Some? ==> 1 <= r.value <= TotalSeats && SeatName(r.value) == name
  {
    if |name| == 2 && 'A' <= name[0] <= 'J' && '1' <= name[1] <= '4' then
      var i := 4 * (name[0] as int - 'A' as int) + (name[1] as int - '0' as int);
      assert SeatName(i) == name by {
        assert (i - 1) / 4 == name[0] as int - 'A' as int;
        assert (i - 1) % 4 == name[1] as int - '1' as int;
      }
      Some(i)
    else None
  }

  /** Naming a seat and reading the name back gives the seat again. */
  lemma SeatNameRoundTrip(i: int)
    requires 1 <= i <= TotalSeats
    ensures SeatIndex(SeatName(i)) == Some(i)
  {
    var name := SeatName(i);
    var row, col := (i - 1) / 4, (i - 1) % 4;
    assert name[0] as int - 'A' as int == row;
    assert name[1] as int - '0' as int == col + 1;
    assert 4 * row + col + 1 == i;
  }

  /** No two seats share a name. */
  lemma SeatNamesDistinct(i: int, j: int)
    requires 1 <= i <= TotalSeats && 1 <= j <= TotalSeats
    requires SeatName(i) == SeatName(j)
    ensures i == j
  {
    SeatNameRoundTrip(i);
    SeatNameRoundTrip(j);
  }

  // ---------------------------------------------------------------------
  // The layout

  /** Price tier of seat `i`: the base fare plus one step per eight seats. */
  function TierPrice(basePrice: int, i: int): int
  {
    basePrice + (i - 1) / 8 * TierStep
  }

  function MakeSeat(busType: string, basePrice: int, occupied: set<int>, i: int): Seat
    requires 1 <= i <= TotalSeats
  {
    Seat(SeatName(i), (i - 1) % 4, i in occupied, Includes(busType, "Sleeper"), TierPrice(basePrice, i))
  }

  /** `generateSeats`, with the occupied seat indices given. */
  function Layout(busType: string, basePrice: int, occupied: set<int>): (seats: seq<Seat>)
    ensures |seats| == TotalSeats
    ensures forall k :: 0 <= k < |seats| ==> SeatIndex(seats[k].number) == Some(k + 1)
    ensures forall k :: 0 <= k < |seats| ==> 0 <= seats[k].position < SeatsPerRow
    ensures forall k :: 0 <= k < |seats| ==> (seats[k].isOccupied <==> k + 1 in occupied)
    ensures forall k :: 0 <= k < |seats| ==> (seats[k].isSleeper <==> Includes(busType, "Sleeper"))
  {
    var seats := seq(TotalSeats, k requires 0 <= k < TotalSeats => MakeSeat(busType, basePrice, occupied, k + 1));
    assert forall k :: 0 <= k < |seats| ==> SeatIndex(seats[k].number) == Some(k + 1) by {
      forall k | 0 <= k < |seats|
        ensures SeatIndex(seats[k].number) == Some(k + 1)
      {
        SeatNameRoundTrip(k + 1);
      }
    }
    seats
  }

  /** The seats of the layout have pairwise distinct names. */
  lemma LayoutNamesDistinct(busType: string, basePrice: int, occupied: set<int>, j: int, k: int)
    requires 0 <= j < TotalSeats && 0 <= k < TotalSeats && j != k
    ensures Layout(busType, basePrice, occupied)[j].number != Layout(busType, basePrice, occupied)[k].number
  {
  }

  /** Prices never fall towards the back, and stay within four tiers of the
      base fare: seat 1 costs the base fare, seat 40 the base fare + 200. */
  lemma LayoutPriceTiers(busType: string, basePrice: int, occupied: set<int>, j: int, k: int)
    requires 0 <= j <= k < TotalSeats
    ensures var seats := Layout(busType, basePrice, occupied);
      && basePrice <= seats[j].price <= seats[k].price <= basePrice + 4 * TierStep
      && seats[j].price == basePrice + 50 * (j / 8)
  {
    var seats := Layout(busType, basePrice, occupied);
    assert seats[j] == MakeSeat(busType, basePrice, occupied, j + 1);
    assert seats[k] == MakeSeat(busType, basePrice, occupied, k + 1);
    TierMonotone(basePrice, j + 1, k + 1);
  }

  /** Later seats never sit in a cheaper tier, and the last tier is the fifth. */
  lemma TierMonotone(basePrice: int, i: int, n: int)
    requires 1 <= i <= n <= TotalSeats
    ensures basePrice <= TierPrice(basePrice, i) <= TierPrice(basePrice, n) <= basePrice + 4 * TierStep
  {
    assert 0 <= (i - 1) / 8 <= (n - 1) / 8 <= 4;
  }

  /** One rendered row: the two seats left of the aisle and the two right of it. */
  datatype Row = Row(left: seq<Seat>, right: seq<Seat>)

  /** The rendering's split of the map into ten rows of 2 + aisle + 2. */
  function RowsOf(seats: seq<Seat>): (rows: seq<Row>)
    requires |seats| == TotalSeats
    ensures |rows| == Rows
  {
    seq(Rows, r requires 0 <= r < Rows => Row(seats[4 * r .. 4 * r + 2], seats[4 * r + 2 .. 4 * r + 4]))
  }

  /** Seats of a run of rows, row by row, left block before right block. */
  function Flatten(rows: seq<Row>): seq<Seat>
  {
    if |rows| == 0 then [] else rows[0].left + rows[0].right + Flatten(rows[1..])
  }

  /** The rows of the map show every seat exactly once, in order. */
  lemma {:induction false} RowsCoverSeats(seats: seq<Seat>)
    requires |seats| == TotalSeats
    ensures Flatten(RowsOf(seats)) == seats
  {
    RowsSuffixCover(seats, 0);
  }

  lemma {:induction false} RowsSuffixCover(seats: seq<Seat>, r: int)
    requires |seats| == TotalSeats && 0 <= r <= Rows
    ensures Flatten(RowsOf(seats)[r..]) == seats[4 * r..]
    decreases Rows - r
  {
    var rows := RowsOf(seats);
    if r < Rows {
      RowsSuffixCover(seats, r + 1);
      assert rows[r..][1..] == rows[r + 1..];
      assert seats[4 * r..] == seats[4 * r .. 4 * r + 2] + seats[4 * r + 2 .. 4 * r + 4] + seats[4 * r + 4..];
    }
  }

  /** In the layout, each row's four seats share its letter; the left block
      holds positions 0 and 1 and the right block positions 2 and 3. */
  lemma LayoutRows(busType: string, basePrice: int, occupied: set<int>, r: int)
    requires 0 <= r < Rows
    ensures var row := RowsOf(Layout(busType, basePrice, occupied))[r];
      && |row.left| == 2 && |row.right| == 2
      && row.left[0].position == 0 && row.left[1].position == 1
      && row.right[0].position == 2 && row.right[1].position == 3
      && forall s :: s in row.left + row.right ==> s.number[0] == (65 + r) as char
  {
    var seats := Layout(busType, basePrice, occupied);
    var row := RowsOf(seats)[r];
    RowColumn(r, 0);
    RowColumn(r, 1);
    RowColumn(r, 2);
    RowColumn(r, 3);
    assert row.left == [seats[4 * r], seats[4 * r + 1]];
    assert row.right == [seats[4 * r + 2], seats[4 * r + 3]];
  }

  lemma RowColumn(r: int, c: int)
    requires 0 <= r && 0 <= c < 4
    ensures (4 * r + c) / 4 == r && (4 * r + c) % 4 == c
  {
  }

  // ---------------------------------------------------------------------
  // Looking seats up

  /** `seats.find(s => s.number === name)`: the first seat with that name. */
  function FindSeat(seats: seq<Seat>, name: string): (r: Option<Seat>)
    ensures r.None? <==> forall k :: 0 <= k < |seats| ==> seats[k].number != name
    ensures r.Some? ==> exists k :: 0 <= k < |seats| && seats[k] == r.value && r.value.number == name
                                  && forall j :: 0 <= j < k ==> seats[j].number != name
  {
    if |seats| == 0 then None
    else if seats[0].number == name then Some(seats[0])
    else
      var r := FindSeat(seats[1..], name);
      assert forall k :: 1 <= k < |seats| ==> seats[k] == seats[1..][k - 1];
      r
  }

  /** When names are distinct, looking up a seat's name finds that seat. */
  lemma {:induction false} FindDistinct(seats: seq<Seat>, k: int)
    requires 0 <= k < |seats|
    requires forall i, j :: 0 <= i < j < |seats| ==> seats[i].number != seats[j].number
    ensures FindSeat(seats, seats[k].number) == Some(seats[k])
    decreases k
  {
    if k > 0 {
      assert seats[0].number != seats[k].number;
      assert seats[1..][k - 1] == seats[k];
      FindDistinct(seats[1..], k - 1);
    }
  }

  /** Looking seat `i` up by name in the layout finds seat `i`. */
  lemma FindInLayout(busType: string, basePrice: int, occupied: set<int>, i: int)
    requires 1 <= i <= TotalSeats
    ensures var seats := Layout(busType, basePrice, occupied);
      FindSeat(seats, SeatName(i)) == Some(seats[i - 1])
  {
    var seats := Layout(busType, basePrice, occupied);
    FindDistinct(seats, i - 1);
  }

  /** `seat?.isOccupied`: a name that is not on the map counts as free. */
  predicate IsOccupied(seats: seq<Seat>, name: string)
  {
    var s := FindSeat(seats, name);
    s.Some? && s.value.isOccupied
  }

  /** `seat?.price || 0`. */
  function PriceOf(seats: seq<Seat>, name: string): int
  {
    match FindSeat(seats, name)
    case Some(s) => s.price
    case None => 0
  }

  // ---------------------------------------------------------------------
  // Selection

  /** `selected.filter(s => s !== name)`. */
  function Without(selected: seq<string>, name: string): (r: seq<string>)
    ensures multiset(r) == multiset(selected)[name := 0]
    ensures |r| <= |selected|
  {
    if |selected| == 0 then []
    else
      var rest := Without(selected[1..], name);
      assert selected == [selected[0]] + selected[1..];
      if selected[0] == name then rest else [selected[0]] + rest
  }

  predicate NoDuplicates(s: seq<string>)
  {
    forall i, j :: 0 <= i < j < |s| ==> s[i] != s[j]
  }

  lemma NoDuplicatesTail(s: seq<string>)
    requires |s| > 0 && NoDuplicates(s)
    ensures NoDuplicates(s[1..]) && s[0] !in s[1..]
  {
    var tail := s[1..];
    forall i, j | 0 <= i < j < |tail| ensures tail[i] != tail[j] {
      assert tail[i] == s[i + 1] && tail[j] == s[j + 1];
    }
    forall j | 0 <= j < |tail| ensures tail[j] != s[0] {
      assert tail[j] == s[j + 1];
    }
  }

  /** Removing a seat that appears once cuts it out and keeps the others in order. */
  lemma {:induction false} WithoutUnique(selected: seq<string>, k: int)
    requires 0 <= k < |selected| && NoDuplicates(selected)
    ensures Without(selected, selected[k]) == selected[..k] + selected[k + 1..]
    decreases k
  {
    var name := selected[k];
    var tail := selected[1..];
    NoDuplicatesTail(selected);
    if k == 0 {
      WithoutAbsent(tail, name);
    } else {
      WithoutUniqueStep(selected, k);
    }
  }

  lemma {:induction false} WithoutUniqueStep(selected: seq<string>, k: int)
    requires 0 < k < |selected| && NoDuplicates(selected)
    ensures Without(selected, selected[k]) == selected[..k] + selected[k + 1..]
    decreases k, 0
  {
    var name := selected[k];
    var tail := selected[1..];
    NoDuplicatesTail(selected);
    assert tail[k - 1] == name;
    WithoutUnique(tail, k - 1);
    assert selected[0] != name by {
      assert selected[0] == selected[..k][0];
    }
    WithoutKeepsHead(selected, name);
    CutAfterHead(selected, k);
  }

  /** A head that is not the removed seat stays in front. */
  lemma WithoutKeepsHead(selected: seq<string>, name: string)
    requires |selected| > 0 && selected[0] != name
    ensures Without(selected, name) == [selected[0]] + Without(selected[1..], name)
  {
  }

  /** Cutting position k out of the tail, then putting the head back, cuts
      position k out of the whole. */
  lemma CutAfterHead(s: seq<string>, k: int)
    requires 0 < k < |s|
    ensures [s[0]] + (s[1..][..k - 1] + s[1..][k..]) == s[..k] + s[k + 1..]
  {
    assert s[1..][..k - 1] == s[1..k];
    assert s[1..][k..] == s[k + 1..];
    assert s[..k] == [s[0]] + s[1..k];
  }

  /** Removing a seat that is not there changes nothing. */
  lemma {:induction false} WithoutAbsent(selected: seq<string>, name: string)
    requires name !in selected
    ensures Without(selected, name) == selected
    decreases |selected|
  {
    if |selected| > 0 {
      WithoutAbsent(selected[1..], name);
    }
  }

  /** `handleSeatClick`: occupied seats ignore clicks; a selected seat is
      deselected; a free seat is added only while fewer than `passengers`
      are selected. */
  function HandleSeatClick(seats: seq<Seat>, selected: seq<string>, passengers: int, name: string): (r: seq<string>)
    ensures IsOccupied(seats, name) ==> r == selected
    ensures !IsOccupied(seats, name) && name in selected ==>
      name !in r && multiset(r) == multiset(selected)[name := 0]
    ensures !IsOccupied(seats, name) && name !in selected ==>
      r == (if |selected| < passengers then selected + [name] else selected)
  {
    if IsOccupied(seats, name) then selected
    else if name in selected then
      var r := Without(selected, name);
      assert multiset(r)[name] == 0;
      r
    else if |selected| < passengers then selected + [name]
    else selected
  }

  /** What the selection always satisfies: within the passenger cap, no
      seat twice, no occupied seat. */
  predicate ValidSelection(seats: seq<Seat>, selected: seq<string>, passengers: int)
  {
    && |selected| <= passengers
    && NoDuplicates(selected)
    && forall k :: 0 <= k < |selected| ==> !IsOccupied(seats, selected[k])
  }

  /** Every click keeps the selection valid. */
  lemma ClickPreservesValid(seats: seq<Seat>, selected: seq<string>, passengers: int, name: string)
    requires ValidSelection(seats, selected, passengers)
    ensures ValidSelection(seats, HandleSeatClick(seats, selected, passengers, name), passengers)
  {
    if IsOccupied(seats, name) {
    } else if name in selected {
      var k :| 0 <= k < |selected| && selected[k] == name;
      RemovePreservesValid(seats, selected, passengers, k);
    } else if |selected| < passengers {
      AddPreservesValid(seats, selected, passengers, name);
    }
  }

  lemma RemovePreservesValid(seats: seq<Seat>, selected: seq<string>, passengers: int, k: int)
    requires ValidSelection(seats, selected, passengers) && 0 <= k < |selected|
    ensures ValidSelection(seats, Without(selected, selected[k]), passengers)
  {
    WithoutUnique(selected, k);
    CutKeepsValid(seats, selected, passengers, k);
  }

  /** Cutting one entry out of a valid selection leaves a valid selection. */
  lemma CutKeepsValid(seats: seq<Seat>, selected: seq<string>, passengers: int, k: int)
    requires ValidSelection(seats, selected, passengers) && 0 <= k < |selected|
    ensures ValidSelection(seats, selected[..k] + selected[k + 1..], passengers)
  {
    var r := selected[..k] + selected[k + 1..];
    forall i | 0 <= i < |r|
      ensures r[i] == selected[if i < k then i else i + 1]
    {
    }
    forall i, j | 0 <= i < j < |r|
      ensures r[i] != r[j]
    {
      assert r[i] == selected[if i < k then i else i + 1];
      assert r[j] == selected[if j < k then j else j + 1];
    }
    forall i | 0 <= i < |r|
      ensures !IsOccupied(seats, r[i])
    {
      assert r[i] == selected[if i < k then i else i + 1];
    }
  }

  lemma AddPreservesValid(seats: seq<Seat>, selected: seq<string>, passengers: int, name: string)
    requires ValidSelection(seats, selected, passengers)
    requires !IsOccupied(seats, name) && name !in selected && |selected| < passengers
    ensures ValidSelection(seats, selected + [name], passengers)
  {
    var r := selected + [name];
    assert forall i :: 0 <= i < |selected| ==> r[i] == selected[i];
  }

  /** The selection after a sequence of clicks. */
  function Clicks(seats: seq<Seat>, selected: seq<string>, passengers: int, names: seq<string>): seq<string>
    decreases |names|
  {
    if |names| == 0 then selected
    else Clicks(seats, HandleSeatClick(seats, selected, passengers, names[0]), passengers, names[1..])
  }

  /** Starting from no selection, any sequence of clicks keeps the
      selection within the cap, free of duplicates and of occupied seats. */
  lemma {:induction false} ClicksStayValid(seats: seq<Seat>, selected: seq<string>, passengers: int, names: seq<string>)
    requires ValidSelection(seats, selected, passengers)
    ensures ValidSelection(seats, Clicks(seats, selected, passengers, names), passengers)
    decreases |names|
  {
    if |names| > 0 {
      ClickPreservesValid(seats, selected, passengers, names[0]);
      ClicksStayValid(seats, HandleSeatClick(seats, selected, passengers, names[0]), passengers, names[1..]);
    }
  }

  /** Clicking a free, unselected seat twice (with room for it) undoes the
      first click. */
  lemma ClickTwiceUndoes(seats: seq<Seat>, selected: seq<string>, passengers: int, name: string)
    requires !IsOccupied(seats, name) && name !in selected && |selected| < passengers
    ensures HandleSeatClick(seats, HandleSeatClick(seats, selected, passengers, name), passengers, name) == selected
  {
    var once := selected + [name];
    assert HandleSeatClick(seats, selected, passengers, name) == once;
    assert once[|selected|] == name;
    assert name in once;
    WithoutLast(selected, name);
    assert HandleSeatClick(seats, once, passengers, name) == Without(once, name);
  }

  lemma {:induction false} WithoutLast(selected: seq<string>, name: string)
    requires name !in selected
    ensures Without(selected + [name], name) == selected
    decreases |selected|
  {
    if |selected| == 0 {
      assert [name][1..] == [];
    } else {
      assert (selected + [name])[1..] == selected[1..] + [name];
      WithoutLast(selected[1..], name);
    }
  }

  /** `handleConfirmSelection`: the callback receives the selection exactly
      when it holds one seat per passenger. */
  function HandleConfirmSelection(selected: seq<string>, passengers: int): (r: Option<seq<string>>)
    ensures r.Some? <==> |selected| == passengers
    ensures r.Some? ==> r.value == selected
  {
    if |selected| == passengers then Some(selected) else None
  }

  /** The confirm button's `disabled` flag. */
  predicate ConfirmDisabled(selected: seq<string>, passengers: int)
  {
    |selected| != passengers
  }

  /** The button is enabled exactly when confirming passes the selection on. */
  lemma ConfirmEnabledIff(selected: seq<string>, passengers: int)
    ensures !ConfirmDisabled(selected, passengers) <==> HandleConfirmSelection(selected, passengers).Some?
  {
  }

  /** "Remaining" in the summary: seats still to pick, never negative for a
      valid selection. */
  function Remaining(seats: seq<Seat>, selected: seq<string>, passengers: int): (n: int)
    ensures ValidSelection(seats, selected, passengers) ==> n >= 0
    ensures n + |selected| == passengers
  {
    passengers - |selected|
  }

  /** `getTotalPrice`: the selected seats' prices summed left to right. */
  function TotalPrice(seats: seq<Seat>, selected: seq<string>): int
  {
    if |selected| == 0 then 0
    else TotalPrice(seats, selected[..|selected| - 1]) + PriceOf(seats, selected[|selected| - 1])
  }

  /** Adding a seat to the selection adds its price to the total. */
  lemma TotalAfterAdd(seats: seq<Seat>, selected: seq<string>, name: string)
    ensures TotalPrice(seats, selected + [name]) == TotalPrice(seats, selected) + PriceOf(seats, name)
  {
    assert (selected + [name])[..|selected|] == selected;
  }

  /** The total over a concatenation is the sum of the totals. */
  lemma {:induction false} TotalOfConcat(seats: seq<Seat>, a: seq<string>, b: seq<string>)
    ensures TotalPrice(seats, a + b) == TotalPrice(seats, a) + TotalPrice(seats, b)
    decreases |b|
  {
    if |b| > 0 {
      var b' := b[..|b| - 1];
      assert (a + b)[..|a + b| - 1] == a + b';
      TotalOfConcat(seats, a, b');
    } else {
      assert a + b == a;
    }
  }

  /** Deselecting a seat takes exactly its price off the total. */
  lemma TotalAfterRemove(seats: seq<Seat>, selected: seq<string>, k: int)
    requires 0 <= k < |selected| && NoDuplicates(selected)
    ensures TotalPrice(seats, Without(selected, selected[k])) == TotalPrice(seats, selected) - PriceOf(seats, selected[k])
  {
    WithoutUnique(selected, k);
    assert selected == selected[..k] + [selected[k]] + selected[k + 1..];
    TotalOfConcat(seats, selected[..k] + [selected[k]], selected[k + 1..]);
    TotalOfConcat(seats, selected[..k], selected[k + 1..]);
    TotalAfterAdd(seats, selected[..k], selected[k]);
  }

  lemma MulSucc(a: int, n: int)
    ensures a * (n + 1) == a * n + a
  {
  }

  /** On the generated map, a selection of seats of the map costs between
      the base fare and the dearest tier for each seat. */
  lemma {:induction false} LayoutTotalBounds(busType: string, basePrice: int, occupied: set<int>, selected: seq<string>)
    requires forall k :: 0 <= k < |selected| ==> SeatIndex(selected[k]).Some?
    ensures var seats := Layout(busType, basePrice, occupied);
      basePrice * |selected| <= TotalPrice(seats, selected) <= (basePrice + 4 * TierStep) * |selected|
    decreases |selected|
  {
    if |selected| > 0 {
      var seats := Layout(busType, basePrice, occupied);
      var init := selected[..|selected| - 1];
      var last := selected[|selected| - 1];
      LayoutTotalBounds(busType, basePrice, occupied, init);
      var i := SeatIndex(last).value;
      FindInLayout(busType, basePrice, occupied, i);
      LayoutPriceTiers(busType, basePrice, occupied, i - 1, i - 1);
      var p := PriceOf(seats, last);
      assert p == seats[i - 1].price;
      assert selected == init + [last];
      TotalAfterAdd(seats, init, last);
      MulSucc(basePrice, |init|);
      MulSucc(basePrice + 4 * TierStep, |init|);
    }
  }
}
