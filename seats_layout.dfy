/**
 * The seating chart renderer (src/pages/SeatsLayout.jsx): a flat array of
 * seats is cut into sixteen consecutive rows by a fixed table of row
 * lengths, drawn as an upper block of eleven rows and a lower block of five,
 * and every seat is drawn with a display class chosen by a fixed priority.
 */
module SeatsLayout {
  import opened Js

  /** The fields of one seat that the renderer reads. */
  datatype Seat = Seat(seat_id: int, selected: bool, reserved: bool, availability: bool, isUserSelection: bool)

  /** Number of seats in each row of the hall, front to back. */
  const RowSeatCounts: seq<nat> := [24, 28, 28, 30, 30, 31, 30, 28, 25, 20, 19, 16, 25, 20, 19, 16]

  /** Row labels; `charAt` past its end gives "". */
  const SeatLabels: string := "ABCDEFG"

  /** Where the upper block ends and the lower one begins. */
  const UpperBlockRows: nat := 11

  /** The number of seats the table lays out. */
  const TotalSeats: nat := 389

  // ---------------------------------------------------------------------
  // Row bounds
  // ---------------------------------------------------------------------

  /** `xs.reduce((a, b) => a + b, 0)`: a left fold. */
  function Sum(xs: seq<nat>): nat
  {
    if xs == [] then 0 else Sum(xs[..|xs| - 1]) + xs[|xs| - 1]
  }

  /** `rowSeatCounts.slice(0, k).reduce((a, b) => a + b, 0)`: the index of the first seat of global row `k`. */
  function RowBound(k: nat): nat
  {
    Sum(Slice(RowSeatCounts, 0, k))
  }

  lemma RowBoundStep(k: nat)
    requires k < |RowSeatCounts|
    ensures RowBound(k + 1) == RowBound(k) + RowSeatCounts[k]
  {
    var pre := Slice(RowSeatCounts, 0, k + 1);
    assert pre == RowSeatCounts[..k + 1];
    assert pre[..|pre| - 1] == Slice(RowSeatCounts, 0, k);
  }

  /** The bounds of all seventeen row boundaries, ending at the 389 seats of the hall. */
  lemma RowBoundTable()
    ensures RowBound(0) == 0 && RowBound(1) == 24 && RowBound(2) == 52 && RowBound(3) == 80
    ensures RowBound(4) == 110 && RowBound(5) == 140 && RowBound(6) == 171 && RowBound(7) == 201
    ensures RowBound(8) == 229 && RowBound(9) == 254 && RowBound(10) == 274 && RowBound(11) == 293
    ensures RowBound(12) == 309 && RowBound(13) == 334 && RowBound(14) == 354 && RowBound(15) == 373
    ensures RowBound(16) == TotalSeats
  {
    assert Slice(RowSeatCounts, 0, 0) == [];
    RowBoundStep(0); RowBoundStep(1); RowBoundStep(2); RowBoundStep(3);
    RowBoundStep(4); RowBoundStep(5); RowBoundStep(6); RowBoundStep(7);
    RowBoundStep(8); RowBoundStep(9); RowBoundStep(10); RowBoundStep(11);
    RowBoundStep(12); RowBoundStep(13); RowBoundStep(14); RowBoundStep(15);
  }

  /** Row boundaries never decrease. */
  lemma {:induction false} RowBoundMonotone(a: nat, b: nat)
    requires a <= b <= |RowSeatCounts|
    ensures RowBound(a) <= RowBound(b)
  {
    if a < b {
      RowBoundStep(b - 1);
      RowBoundMonotone(a, b - 1);
    }
  }

  /** The seats of global row `k` (0 to 15), clamped to the seats that exist. */
  function RowSeats(seats: seq<Seat>, k: nat): seq<Seat>
  {
    Slice(seats, RowBound(k), RowBound(k + 1))
  }

  /**
   * Row `k` holds exactly the seats whose indices run from `RowBound(k)` to
   * `RowBound(k + 1)`, as far as the array reaches: a full row when the
   * array is long enough, nothing when it ends before the row starts.
   */
  lemma RowSeatsAre(seats: seq<Seat>, k: nat)
    requires k < |RowSeatCounts|
    ensures |RowSeats(seats, k)| == if |seats| <= RowBound(k) then 0 else Min(|seats|, RowBound(k + 1)) - RowBound(k)
    ensures forall j :: 0 <= j < |RowSeats(seats, k)| ==> RowSeats(seats, k)[j] == seats[RowBound(k) + j]
    ensures |seats| >= RowBound(k + 1) ==> |RowSeats(seats, k)| == RowSeatCounts[k]
    ensures |seats| <= RowBound(k) ==> RowSeats(seats, k) == []
  {
    RowBoundStep(k);
  }

  /**
   * The row a seat index belongs to: the one row whose bounds contain it.
   */
  function RowOf(j: nat, from: nat): (k: nat)
    requires from <= |RowSeatCounts| && RowBound(from) <= j < TotalSeats
    ensures from <= k < |RowSeatCounts|
    ensures RowBound(k) <= j < RowBound(k + 1)
    decreases |RowSeatCounts| - from
  {
    RowBoundTable();
    RowBoundStep(from);
    if j < RowBound(from + 1) then from else RowOf(j, from + 1)
  }

  /** No seat index lies in two rows. */
  lemma RowsAreDisjoint(j: nat, k1: nat, k2: nat)
    requires k1 < |RowSeatCounts| && k2 < |RowSeatCounts|
    requires RowBound(k1) <= j < RowBound(k1 + 1)
    requires RowBound(k2) <= j < RowBound(k2 + 1)
    ensures k1 == k2
  {
    if k1 < k2 {
      RowBoundMonotone(k1 + 1, k2);
    } else if k2 < k1 {
      RowBoundMonotone(k2 + 1, k1);
    }
  }

  /** Every seat index below 389 lies in some row. */
  lemma ShownSeatHasRow(j: nat)
    requires j < TotalSeats
    ensures exists k :: 0 <= k < |RowSeatCounts| && RowBound(k) <= j < RowBound(k + 1)
  {
    assert Slice(RowSeatCounts, 0, 0) == [];
    var k := RowOf(j, 0);
  }

  /** No seat index from 389 on lies in any row, so those seats are never drawn. */
  lemma HiddenSeatHasNoRow(j: nat, k: nat)
    requires j >= TotalSeats && k < |RowSeatCounts|
    ensures !(RowBound(k) <= j < RowBound(k + 1))
  {
    RowBoundMonotone(k + 1, |RowSeatCounts|);
    RowBoundTable();
  }

  // ---------------------------------------------------------------------
  // Seat display class
  // ---------------------------------------------------------------------

  datatype SeatClass = UserSelection | SelectedByOther | Reserved | Available | Unavailable

  /** The nested conditional that picks a seat's class. */
  function ClassOf(seat: Seat): SeatClass
  {
    if seat.selected then
      (if seat.isUserSelection then UserSelection else SelectedByOther)
    else if seat.reserved then Reserved
    else if seat.availability then Available
    else Unavailable
  }

  function ClassName(c: SeatClass): string
  {
    match c
    case UserSelection => "user-selection"
    case SelectedByOther => "selected"
    case Reserved => "reserved"
    case Available => "available"
    case Unavailable => "unavailable"
  }

  /**
   * The priority of the flags: `selected` decides alone (split by whose
   * selection it is); otherwise `reserved` decides; otherwise
   * `availability`. Each class holds exactly when its condition does.
   */
  lemma ClassPriority(seat: Seat)
    ensures ClassOf(seat) == UserSelection <==> seat.selected && seat.isUserSelection
    ensures ClassOf(seat) == SelectedByOther <==> seat.selected && !seat.isUserSelection
    ensures ClassOf(seat) == Reserved <==> !seat.selected && seat.reserved
    ensures ClassOf(seat) == Available <==> !seat.selected && !seat.reserved && seat.availability
    ensures ClassOf(seat) == Unavailable <==> !seat.selected && !seat.reserved && !seat.availability
  {
  }

  /** A flag of lower priority never changes the class of a seat that a higher one decides. */
  lemma LowerFlagsIgnored(seat: Seat, reserved: bool, availability: bool, mine: bool)
    ensures seat.selected ==> ClassOf(seat.(reserved := reserved, availability := availability)) == ClassOf(seat)
    ensures !seat.selected ==> ClassOf(seat.(isUserSelection := mine)) == ClassOf(seat)
    ensures !seat.selected && seat.reserved ==> ClassOf(seat.(availability := availability)) == ClassOf(seat)
  {
  }

  /** The five class names are distinct, so the drawn class determines the seat's state. */
  lemma ClassNamesDistinct(c1: SeatClass, c2: SeatClass)
    ensures ClassName(c1) == ClassName(c2) <==> c1 == c2
  {
  }

  // ---------------------------------------------------------------------
  // Rendering
  // ---------------------------------------------------------------------

  /** One drawn seat: its React key, its CSS class, and the seat id its click handler passes on. */
  datatype SeatCell = SeatCell(key: int, className: string, onClickSeatId: int)

  /** One drawn row: its React key, its CSS class, its label and its seats. */
  datatype RowView = RowView(key: nat, className: string, rowLabel: string, cells: seq<SeatCell>)

  datatype HallView = HallView(upper: seq<RowView>, lower: seq<RowView>)

  function RenderSeat(seat: Seat): SeatCell
  {
    SeatCell(seat.seat_id, "seat " + ClassName(ClassOf(seat)), seat.seat_id)
  }

  function RenderSeats(row: seq<Seat>): seq<SeatCell>
  {
    seq(|row|, j requires 0 <= j < |row| => RenderSeat(row[j]))
  }

  /** Row `rowIndex` of the upper block; row 5 carries the extra gap class. */
  function UpperRow(seats: seq<Seat>, rowIndex: nat): RowView
  {
    RowView(rowIndex,
            "seats-row " + (if rowIndex == 5 then "horizontal-gap" else ""),
            CharAt(SeatLabels, rowIndex),
            RenderSeats(Slice(seats, RowBound(rowIndex), RowBound(rowIndex + 1))))
  }

  /** Row `rowIndex` of the lower block, i.e. global row `rowIndex + 11`. */
  function LowerRow(seats: seq<Seat>, rowIndex: nat): RowView
  {
    RowView(rowIndex + 11,
            "seats-row",
            CharAt(SeatLabels, rowIndex + 11),
            RenderSeats(Slice(seats, RowBound(rowIndex + 11), RowBound(rowIndex + 12))))
  }

  /** The whole chart: `rowSeatCounts.slice(0, 11)` and `rowSeatCounts.slice(11)`, each mapped to rows. */
  function Render(seats: seq<Seat>): HallView
  {
    var upperCounts := Slice(RowSeatCounts, 0, UpperBlockRows);
    var lowerCounts := Slice(RowSeatCounts, UpperBlockRows, |RowSeatCounts|);
    HallView(seq(|upperCounts|, i requires 0 <= i < |upperCounts| => UpperRow(seats, i)),
             seq(|lowerCounts|, i requires 0 <= i < |lowerCounts| => LowerRow(seats, i)))
  }

  /** The rows top to bottom, upper block first. */
  function AllRows(view: HallView): seq<RowView>
  {
    view.upper + view.lower
  }

  /** The cells of a list of rows, row after row. */
  function Cells(rows: seq<RowView>): seq<SeatCell>
  {
    if rows == [] then [] else Cells(rows[..|rows| - 1]) + rows[|rows| - 1].cells
  }

  /**
   * The upper block has 11 rows keyed 0-10 and the lower 5 keyed 11-15, and
   * the row at global position `k` draws exactly the seats of global row `k`.
   */
  lemma RenderRows(seats: seq<Seat>)
    ensures |Render(seats).upper| == 11 && |Render(seats).lower| == 5
    ensures |AllRows(Render(seats))| == |RowSeatCounts|
    ensures forall k :: 0 <= k < |RowSeatCounts| ==>
              AllRows(Render(seats))[k].key == k &&
              AllRows(Render(seats))[k].cells == RenderSeats(RowSeats(seats, k))
  {
  }

  /**
   * The labels come from "ABCDEFG": the first seven rows are labelled A to
   * G and every later row, including the whole lower block, gets "".
   */
  lemma RowLabels(seats: seq<Seat>)
    ensures forall k :: 0 <= k < 7 ==> AllRows(Render(seats))[k].rowLabel == [SeatLabels[k]]
    ensures forall k :: 7 <= k < |RowSeatCounts| ==> AllRows(Render(seats))[k].rowLabel == ""
    ensures forall i :: 0 <= i < |Render(seats).lower| ==> Render(seats).lower[i].rowLabel == ""
  {
    RenderRows(seats);
  }

  /** Only upper row 5 carries "horizontal-gap". */
  lemma OnlyRowFiveHasGap(seats: seq<Seat>)
    ensures forall k :: 0 <= k < |RowSeatCounts| ==>
              (AllRows(Render(seats))[k].className == "seats-row horizontal-gap" <==> k == 5)
  {
    RenderRows(seats);
    var rows := AllRows(Render(seats));
    forall k | 0 <= k < |RowSeatCounts| && k != 5
      ensures rows[k].className != "seats-row horizontal-gap"
    {
      if k < 11 {
        assert rows[k].className == "seats-row ";
      } else {
        assert |rows[k].className| != |"seats-row horizontal-gap"|;
      }
    }
  }

  /**
   * Within every row, the cell at position `j` is seat `RowBound(k) + j`:
   * it is keyed by that seat's id, drawn with that seat's class, and its
   * click dispatches that seat's own id.
   */
  lemma CellsMatchSeats(seats: seq<Seat>, k: nat, j: nat)
    requires k < |RowSeatCounts|
    requires j < |AllRows(Render(seats))[k].cells|
    ensures RowBound(k) + j < |seats|
    ensures AllRows(Render(seats))[k].cells[j] == RenderSeat(seats[RowBound(k) + j])
    ensures AllRows(Render(seats))[k].cells[j].onClickSeatId == seats[RowBound(k) + j].seat_id
    ensures AllRows(Render(seats))[k].cells[j].className == "seat " + ClassName(ClassOf(seats[RowBound(k) + j]))
  {
    RenderRows(seats);
    RowSeatsAre(seats, k);
  }

  lemma RenderSeatsAppend(a: seq<Seat>, b: seq<Seat>)
    ensures RenderSeats(a + b) == RenderSeats(a) + RenderSeats(b)
  {
  }

  /** Extending a clamped prefix by the clamped slice that follows it. */
  lemma PrefixThenSlice(seats: seq<Seat>, lo: nat, hi: nat)
    requires lo <= hi
    ensures seats[..Min(|seats|, lo)] + Slice(seats, lo, hi) == seats[..Min(|seats|, hi)]
  {
  }

  /** The first `k` global rows, concatenated, are the seats before `RowBound(k)`. */
  lemma {:induction false} FirstRowsArePrefix(seats: seq<Seat>, k: nat)
    requires k <= |RowSeatCounts|
    ensures Cells(AllRows(Render(seats))[..k]) == RenderSeats(seats[..Min(|seats|, RowBound(k))])
  {
    RenderRows(seats);
    var rows := AllRows(Render(seats));
    if k == 0 {
      assert Slice(RowSeatCounts, 0, 0) == [];
      assert seats[..0] == [];
    } else {
      FirstRowsArePrefix(seats, k - 1);
      assert rows[..k][..k - 1] == rows[..k - 1];
      RowBoundStep(k - 1);
      PrefixThenSlice(seats, RowBound(k - 1), RowBound(k));
      RenderSeatsAppend(seats[..Min(|seats|, RowBound(k - 1))], RowSeats(seats, k - 1));
    }
  }

  /**
   * The partition: the sixteen rows, upper block then lower block, draw
   * the first 389 seats (or all of them when there are fewer) once each, in
   * array order, with no gap and no overlap; later seats are not drawn.
   */
  lemma RowsPartitionSeats(seats: seq<Seat>)
    ensures Cells(AllRows(Render(seats))) == RenderSeats(seats[..Min(|seats|, TotalSeats)])
  {
    RenderRows(seats);
    RowBoundTable();
    FirstRowsArePrefix(seats, |RowSeatCounts|);
    assert AllRows(Render(seats))[..|RowSeatCounts|] == AllRows(Render(seats));
  }
}
