/** The boarding passes (src/bin/2020-05.rs): a pass names its row with seven letters and its
    column with three, each letter halving the remaining range; a seat's ID is its row times
    eight plus its column. Where the source panics because no seat is missing, the result
    here is `None`. Seat numbers are `usize`, modelled as `nat`. */
module Seats {
  import opened Wrappers
  import opened Sorting

  /** The letters that take the upper half of the range. */
  predicate Upper(c: char)
  {
    c == 'B' || c == 'R'
  }

  /** What the letters of `seat` add up to when the first one is worth `step` and every later
      one half of the one before, rounded down. */
  function Partition(seat: string, step: nat): (num: nat)
    ensures num == 0 || num < 2 * step
  {
    if seat == [] then 0
    else (if Upper(seat[0]) then step else 0) + Partition(seat[1..], step / 2)
  }

  /** `binary_space_partition`: walk the letters, adding the current step for every upper
      letter and halving the step after every letter; the result never exceeds `space`. */
  method BinarySpacePartition(seat: string, space: nat) returns (num: nat)
    ensures num == Partition(seat, (space + 1) / 2)
    ensures num <= space
  {
    num := 0;
    var step: nat := (space + 1) / 2;
    for i := 0 to |seat|
      invariant num + Partition(seat[i..], step) == Partition(seat, (space + 1) / 2)
    {
      assert seat[i..] == [seat[i]] + seat[i + 1..];
      if Upper(seat[i]) {
        num := num + step;
      }
      step := step / 2;
    }
    assert seat[|seat|..] == [];
  }

  function Pow2(k: nat): (p: nat)
    ensures p >= 1
  {
    if k == 0 then 1 else 2 * Pow2(k - 1)
  }

  /** The letters read as a binary number, most significant first, with B and R as ones. */
  function BinaryValue(seat: string): (v: nat)
    ensures v < Pow2(|seat|)
  {
    if seat == [] then 0
    else (if Upper(seat[0]) then Pow2(|seat| - 1) else 0) + BinaryValue(seat[1..])
  }

  /** With a range of `2^k` seats (`space` = `2^k - 1`) and `k` letters, the partition is the
      letters read as a binary number. */
  lemma {:induction false} PartitionBinary(seat: string)
    ensures Partition(seat, Pow2(|seat|) / 2) == BinaryValue(seat)
  {
    if seat != [] {
      PartitionBinary(seat[1..]);
      assert Pow2(|seat|) / 2 == Pow2(|seat| - 1);
    }
  }

  /** `decode_seat`: the row from the first seven letters over 128 rows and the column from
      the rest over 8 columns. The source slices the pass and panics when it is shorter than
      seven letters. */
  function DecodeSeat(seat: string): (r: (nat, nat))
    requires |seat| >= 7
    ensures r.0 <= 127 && r.1 <= 7
  {
    (Partition(seat[..7], 64), Partition(seat[7..], 4))
  }

  /** A pass of ten letters decodes to its row and column letters read in binary. */
  lemma DecodeSeatBinary(seat: string)
    requires |seat| == 10
    ensures DecodeSeat(seat) == (BinaryValue(seat[..7]), BinaryValue(seat[7..]))
  {
    PartitionBinary(seat[..7]);
    PartitionBinary(seat[7..]);
  }

  /** `seat_id`: eight seats to a row. */
  function SeatId(row: nat, column: nat): (id: nat)
    ensures column < 8 ==> id / 8 == row && id % 8 == column
  {
    row * 8 + column
  }

  /** Rows and columns in range give distinct IDs: the seat ID names the seat. */
  lemma SeatIdInjective(row: nat, column: nat, row': nat, column': nat)
    requires column < 8 && column' < 8
    requires SeatId(row, column) == SeatId(row', column')
    ensures row == row' && column == column'
  {
  }

  /** The ID of a ten-letter pass is the whole pass read as one binary number. */
  lemma {:induction false} SeatIdBinary(seat: string)
    requires |seat| == 10
    ensures var (row, column) := DecodeSeat(seat); SeatId(row, column) == BinaryValue(seat)
  {
    DecodeSeatBinary(seat);
    BinaryAppend(seat[..7], seat[7..]);
    assert seat[..7] + seat[7..] == seat;
  }

  /** Writing letters after a binary number shifts it left by their count. */
  lemma {:induction false} BinaryAppend(a: string, b: string)
    ensures BinaryValue(a + b) == BinaryValue(a) * Pow2(|b|) + BinaryValue(b)
  {
    if a != [] {
      assert (a + b)[1..] == a[1..] + b;
      BinaryAppend(a[1..], b);
      PowAdd(|a| - 1, |b|);
      var (high, low, shift) := (Pow2(|a| - 1), BinaryValue(a[1..]), Pow2(|b|));
      if Upper(a[0]) {
        assert BinaryValue(a) == high + low;
        assert BinaryValue(a + b) == high * shift + (low * shift + BinaryValue(b));
        Distribute(high, low, shift);
      }
    } else {
      assert a + b == b;
    }
  }

  lemma Distribute(x: nat, y: nat, z: nat)
    ensures (x + y) * z == x * z + y * z
  {
  }

  lemma {:induction false} PowAdd(m: nat, n: nat)
    ensures Pow2(m + n) == Pow2(m) * Pow2(n)
  {
    if m > 0 {
      PowAdd(m - 1, n);
    }
  }

  /** The IDs of the passes, in their order. */
  function SeatIds(seats: seq<string>): (ids: seq<int>)
    requires forall k :: 0 <= k < |seats| ==> |seats[k]| >= 7
    ensures |ids| == |seats|
    ensures forall k :: 0 <= k < |seats| ==> ids[k] == SeatId(DecodeSeat(seats[k]).0, DecodeSeat(seats[k]).1)
  {
    if seats == [] then []
    else SeatIds(seats[..|seats| - 1]) + [SeatId(DecodeSeat(seats[|seats| - 1]).0, DecodeSeat(seats[|seats| - 1]).1)]
  }

  /** Position `i` of the sorted IDs has neighbours on both sides that are not two apart. */
  predicate GapAt(ids: seq<int>, i: int)
  {
    0 < i < |ids| - 1 && ids[i + 1] - ids[i - 1] != 2
  }

  /** What `find_missing_value` answers, as written, on the sorted IDs: one more than the ID
      at the first interior position whose neighbours are not two apart, and `None` exactly
      when there is no such position. */
  ghost predicate FirstGapAnswer(ids: seq<int>, r: Option<int>)
  {
    (r.Some? ==> exists i :: GapAt(ids, i) && (forall j :: 0 < j < i ==> !GapAt(ids, j)) && r.value == ids[i] + 1)
    && (r.None? <==> forall i :: !GapAt(ids, i))
  }

  /** `find_missing_value` as written: sort the IDs and scan them for the first gap. */
  method FindMissingValue(seats: seq<string>) returns (r: Option<int>)
    requires forall k :: 0 <= k < |seats| ==> |seats[k]| >= 7
    ensures FirstGapAnswer(Sort(SeatIds(seats)), r)
  {
    var ids := Sort(SeatIds(seats));
    r := FirstGap(ids);
  }

  /** The loop of `find_missing_value` over the sorted IDs. */
  method FirstGap(ids: seq<int>) returns (r: Option<int>)
    ensures FirstGapAnswer(ids, r)
  {
    for index := 0 to |ids|
      invariant forall j :: 0 < j < index ==> !GapAt(ids, j)
    {
      if index > 0 {
        if index < |ids| - 1 {
          if ids[index + 1] - ids[index - 1] != 2 {
            assert GapAt(ids, index);
            return Some(ids[index] + 1);
          }
        }
      }
    }
    r := None;
  }

  /** The seat `x` is free while the seats on both sides of it are taken. */
  predicate IsMissing(ids: seq<int>, x: int)
  {
    x !in ids && x - 1 in ids && x + 1 in ids
  }

  /** Two sorted neighbours two apart leave the seat between them free. */
  lemma GapIsMissing(ids: seq<int>, i: nat)
    requires Sorted(ids) && i + 1 < |ids| && ids[i + 1] == ids[i] + 2
    ensures IsMissing(ids, ids[i] + 1)
  {
    forall k | 0 <= k < |ids| ensures ids[k] != ids[i] + 1 {
      if k <= i {
        assert ids[k] <= ids[i];
      } else {
        assert ids[k] >= ids[i + 1];
      }
    }
  }

  /** A free seat between two taken ones sits between two sorted neighbours two apart; the
      search starts from a position holding the seat below. */
  lemma {:induction false} MissingIsGap(ids: seq<int>, x: int, a: nat, b: nat)
    requires Sorted(ids) && IsMissing(ids, x)
    requires a < |ids| && ids[a] == x - 1 && b < |ids| && ids[b] == x + 1
    ensures exists i :: 0 <= i < |ids| - 1 && ids[i] == x - 1 && ids[i + 1] == x + 1
    decreases b - a
  {
    if a < b {
      if ids[a + 1] == x - 1 {
        MissingIsGap(ids, x, a + 1, b);
      } else {
        assert ids[a] <= ids[a + 1] <= ids[b];
        assert ids[a + 1] != x;
      }
    }
  }

  /** A sequence and any permutation of it leave the same seats free. */
  lemma MissingPermutation(ids: seq<int>, original: seq<int>, x: int)
    requires multiset(ids) == multiset(original)
    ensures IsMissing(ids, x) <==> IsMissing(original, x)
  {
    assert forall y :: y in ids <==> y in multiset(ids);
    assert forall y :: y in original <==> y in multiset(original);
  }

  /** The first pair of sorted IDs two apart gives the lowest free seat. */
  lemma FirstGapLeast(ids: seq<int>, index: nat, y: int)
    requires Sorted(ids) && index + 1 < |ids| && ids[index + 1] == ids[index] + 2
    requires forall j :: 0 <= j < index ==> ids[j + 1] != ids[j] + 2
    requires IsMissing(ids, y)
    ensures ids[index] + 1 <= y
  {
    var a :| 0 <= a < |ids| && ids[a] == y - 1;
    var b :| 0 <= b < |ids| && ids[b] == y + 1;
    MissingIsGap(ids, y, a, b);
    var i :| 0 <= i < |ids| - 1 && ids[i] == y - 1 && ids[i + 1] == y + 1;
    assert ids[index] <= ids[i];
  }

  /** Sorted IDs with no two neighbours two apart leave no free seat between taken ones. */
  lemma NoGapNoneMissing(ids: seq<int>, y: int)
    requires Sorted(ids) && forall j :: 0 <= j < |ids| - 1 ==> ids[j + 1] != ids[j] + 2
    ensures !IsMissing(ids, y)
  {
    if IsMissing(ids, y) {
      var a :| 0 <= a < |ids| && ids[a] == y - 1;
      var b :| 0 <= b < |ids| && ids[b] == y + 1;
      MissingIsGap(ids, y, a, b);
    }
  }

  /** `find_missing_value` as its comment intends it: the lowest free seat whose neighbours
      on both sides are taken, found as the first pair of sorted IDs two apart. */
  method FindMissingSeat(seats: seq<string>) returns (r: Option<int>)
    requires forall k :: 0 <= k < |seats| ==> |seats[k]| >= 7
    ensures var ids := SeatIds(seats);
      r.Some? ==> IsMissing(ids, r.value) && forall y :: IsMissing(ids, y) ==> r.value <= y
    ensures var ids := SeatIds(seats); r.None? <==> forall y :: !IsMissing(ids, y)
  {
    var original := SeatIds(seats);
    var ids := Sort(original);
    var index := 0;
    while index + 1 < |ids|
      invariant forall j :: 0 <= j < index && j + 1 < |ids| ==> ids[j + 1] != ids[j] + 2
    {
      if ids[index + 1] == ids[index] + 2 {
        GapIsMissing(ids, index);
        MissingPermutation(ids, original, ids[index] + 1);
        forall y | IsMissing(original, y) ensures ids[index] + 1 <= y {
          MissingPermutation(ids, original, y);
          FirstGapLeast(ids, index, y);
        }
        return Some(ids[index] + 1);
      }
      index := index + 1;
    }
    forall y ensures !IsMissing(original, y) {
      MissingPermutation(ids, original, y);
      NoGapNoneMissing(ids, y);
    }
    r := None;
  }

  /** The unit tests of `seat_id`, `binary_space_partition` and `decode_seat`. */
  method Examples()
  {
    assert SeatId(1, 1) == 9 && SeatId(8, 7) == 71;
    var row := BinarySpacePartition("BFFFBBF", 127);
    RowExample();
    assert row == 70;
    var column := BinarySpacePartition("RRR", 7);
    ColumnExample();
    assert column == 7;
    DecodeExample();
  }

  lemma RowExample()
    ensures Partition("BFFFBBF", 64) == 70
  {
    assert Partition("F", 1) == 0;
    assert Partition("BF", 2) == 2;
    assert Partition("BBF", 4) == 6;
    assert Partition("FBBF", 8) == 6;
    assert Partition("FFBBF", 16) == 6;
    assert Partition("FFFBBF", 32) == 6;
  }

  lemma ColumnExample()
    ensures Partition("RRR", 4) == 7
  {
    assert Partition("R", 1) == 1;
    assert Partition("RR", 2) == 3;
  }

  lemma DecodeExample()
    ensures DecodeSeat("BFFFBBFRRR") == (70, 7)
  {
    var seat := "BFFFBBFRRR";
    assert seat[..7] == "BFFFBBF" && seat[7..] == "RRR";
    RowExample();
    ColumnExample();
  }

  /** The four passes of the `find_missing_value` unit test. */
  function SamplePasses(): seq<string>
  {
    ["RLLRLRRRRL", "RLLRLRRRRL", "RLLRRLLLLL", "RLLRRLLLLR"]
  }

  lemma SamplePassesLong()
    ensures forall k :: 0 <= k < |SamplePasses()| ==> |SamplePasses()[k]| >= 7
  {
  }

  lemma Row75()
    ensures Partition("RLLRLRR", 64) == 75
  {
    assert Partition("R", 1) == 1;
    assert Partition("RR", 2) == 3;
    assert Partition("LRR", 4) == 3;
    assert Partition("RLRR", 8) == 11;
    assert Partition("LRLRR", 16) == 11;
    assert Partition("LLRLRR", 32) == 11;
  }

  lemma Row76()
    ensures Partition("RLLRRLL", 64) == 76
  {
    assert Partition("L", 1) == 0;
    assert Partition("LL", 2) == 0;
    assert Partition("RLL", 4) == 4;
    assert Partition("RRLL", 8) == 12;
    assert Partition("LRRLL", 16) == 12;
    assert Partition("LLRRLL", 32) == 12;
  }

  lemma Columns()
    ensures Partition("RRL", 4) == 6 && Partition("LLL", 4) == 0 && Partition("LLR", 4) == 1
  {
    assert Partition("L", 1) == 0 && Partition("R", 1) == 1;
    assert Partition("RL", 2) == 2 && Partition("LL", 2) == 0 && Partition("LR", 2) == 1;
  }

  lemma SampleIds()
    ensures SeatIds(SamplePasses()) == [606, 606, 608, 609]
  {
    var p := SamplePasses();
    Row75();
    Row76();
    Columns();
    assert p[0][..7] == "RLLRLRR" && p[0][7..] == "RRL";
    assert p[1] == p[0];
    assert p[2][..7] == "RLLRRLL" && p[2][7..] == "LLL";
    assert p[3][..7] == "RLLRRLL" && p[3][7..] == "LLR";
  }

  /** The IDs of the sample, already in ascending order. */
  lemma SampleSorted()
    ensures Sort([606, 606, 608, 609]) == [606, 606, 608, 609]
  {
    var ids := [606, 606, 608, 609];
    assert Sorted(ids) by {
      forall i, j | 0 <= i < j < 4 ensures ids[i] <= ids[j] {
      }
    }
    SortSorted(ids);
  }

  /** Among the sample IDs the only interior position whose neighbours are not two apart is
      position 2, holding 608. */
  lemma SampleGap(i: int)
    ensures GapAt([606, 606, 608, 609], i) <==> i == 2
  {
  }

  /** Of the sample IDs, only 607 is free between two taken seats. */
  lemma SampleMissing(x: int)
    ensures IsMissing([606, 606, 608, 609], x) <==> x == 607
  {
    var ids := [606, 606, 608, 609];
    if IsMissing(ids, x) {
      assert x - 1 == 606 || x - 1 == 608 || x - 1 == 609;
      assert x != 609 && x != 610;
    }
  }

  /** What the as-written search promises on the sample IDs pins its result to 609. */
  lemma AsWrittenSample(r: Option<int>)
    requires FirstGapAnswer([606, 606, 608, 609], r)
    ensures r == Some(609)
  {
    SampleGap(2);
    var i :| GapAt([606, 606, 608, 609], i) && r.value == [606, 606, 608, 609][i] + 1;
    SampleGap(i);
  }

  /** What the intended search promises on the sample IDs pins its result to 607. */
  lemma IntendedSample(r: Option<int>)
    requires r.Some? ==> IsMissing([606, 606, 608, 609], r.value)
    requires r.None? <==> forall y :: !IsMissing([606, 606, 608, 609], y)
    ensures r == Some(607)
  {
    GapIsMissing([606, 606, 608, 609], 1);
    SampleMissing(r.value);
  }

  lemma AsWrittenOnPasses(passes: seq<string>, r: Option<int>)
    requires passes == SamplePasses()
    requires forall k :: 0 <= k < |passes| ==> |passes[k]| >= 7
    requires FirstGapAnswer(Sort(SeatIds(passes)), r)
    ensures r == Some(609) && SeatIds(passes)[3] == 609
  {
    SampleIds();
    SampleSorted();
    AsWrittenSample(r);
  }

  lemma IntendedOnPasses(passes: seq<string>, r: Option<int>)
    requires passes == SamplePasses()
    requires forall k :: 0 <= k < |passes| ==> |passes[k]| >= 7
    requires var ids := SeatIds(passes);
      r.Some? ==> IsMissing(ids, r.value) && forall y :: IsMissing(ids, y) ==> r.value <= y
    requires var ids := SeatIds(passes); r.None? <==> forall y :: !IsMissing(ids, y)
    ensures r == Some(607)
  {
    SampleIds();
    IntendedSample(r);
  }

  /** On the unit test's passes the as-written search returns 609, which is a taken seat. */
  method MissingValueExample(passes: seq<string>)
    requires passes == SamplePasses()
  {
    SamplePassesLong();
    var asWritten := FindMissingValue(passes);
    AsWrittenOnPasses(passes, asWritten);
    assert asWritten == Some(609) && SeatIds(passes)[3] == 609;
  }

  /** On the same passes the intended search returns 607, free between 606 and 608. */
  method MissingSeatExample(passes: seq<string>)
    requires passes == SamplePasses()
  {
    SamplePassesLong();
    var intended := FindMissingSeat(passes);
    IntendedOnPasses(passes, intended);
    assert intended == Some(607);
  }
}
