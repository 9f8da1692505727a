/** Reversing PNG row filters (packages/core/src/agent/computer-vision.ts, lines 87 to 123;
    sections 6.1 to 6.6 of RFC 2083).

    A byte is an integer below 256. */
module Png {
  import opened Common

  predicate Bytes(s: seq<int>) {
    forall i | 0 <= i < |s| :: 0 <= s[i] < 256
  }

  /** `paethPredictor`, lines 87 to 93 */
  function PaethPredictor(a: int, b: int, c: int): int {
    var p := a + b - c;
    var pa, pb, pc := Abs(p - a), Abs(p - b), Abs(p - c);
    if pa <= pb && pa <= pc then a else if pb <= pc then b else c
  }

  /** It is the one of left, above and upper left nearest to their linear estimate; of equally near ones
      left comes before above, and above before upper left. */
  lemma PaethIsNearest(a: int, b: int, c: int)
    ensures var p, r := a + b - c, PaethPredictor(a, b, c);
      && r in {a, b, c}
      && Abs(p - r) <= Abs(p - a) && Abs(p - r) <= Abs(p - b) && Abs(p - r) <= Abs(p - c)
      && (Abs(p - r) == Abs(p - a) ==> r == a)
      && (Abs(p - r) == Abs(p - b) && r != a ==> r == b)
  {
  }

  /** What a filter predicts from the left, the upper and the upper left byte; any type beyond 4 counts as
      none. */
  function Predicted(filterType: int, left: int, up: int, upLeft: int): int {
    match filterType
    case 1 => left
    case 2 => up
    case 3 => (left + up) / 2
    case 4 => PaethPredictor(left, up, upLeft)
    case _ => 0
  }

  function LeftOf(row: seq<int>, x: int, bpp: nat): int
    requires 0 <= x && x - bpp < |row|
  {
    if x >= bpp then row[x - bpp] else 0
  }

  // ---- The filters of RFC 2083 ----

  /** One byte filtered: sections 6.2 to 6.6; any type beyond 4 counts as none. */
  function FilterByte(filterType: int, value: int, left: int, up: int, upLeft: int): int {
    match filterType
    case 1 => (value - left) % 256
    case 2 => (value - up) % 256
    case 3 => (value - (left + up) / 2) % 256
    case 4 => (value - PaethPredictor(left, up, upLeft)) % 256
    case _ => value % 256
  }

  /** A filtered row: each byte by its neighbours one pixel to the left, above, and above that, in the original bytes; what
      lies left of the row is zero. */
  function FilterRow(filterType: int, row: seq<int>, prior: seq<int>, bpp: nat): seq<int>
    requires |prior| == |row| && bpp > 0
  {
    seq(|row|, x requires 0 <= x < |row| =>
      FilterByte(filterType, row[x], if x < bpp then 0 else row[x - bpp], prior[x], if x < bpp then 0 else prior[x - bpp]))
  }

  /** Filtered image data: every row preceded by its filter type; the row above the first is all zeros. */
  function Encode(types: seq<int>, rows: seq<seq<int>>, rowBytes: nat, bpp: nat): seq<int>
    requires |types| == |rows| && bpp > 0 && forall y | 0 <= y < |rows| :: |rows[y]| == rowBytes
  {
    if rows == [] then []
    else Encode(Init(types), Init(rows), rowBytes, bpp) + [Last(types)] + FilterRow(Last(types), Last(rows), Prior(rows, rowBytes), bpp)
  }

  /** The row above the last one. */
  function Prior(rows: seq<seq<int>>, rowBytes: nat): (r: seq<int>)
    requires rows != [] && forall y | 0 <= y < |rows| :: |rows[y]| == rowBytes
    ensures |r| == rowBytes
  {
    if |rows| == 1 then seq(rowBytes, _ => 0) else rows[|rows| - 2]
  }

  // ---- Reversing them ----

  /** Where row y starts, in rows of that size. */
  function Offset(y: nat, size: nat): nat {
    if y == 0 then 0 else Offset(y - 1, size) + size
  }

  lemma {:induction false} OffsetIsProduct(y: nat, size: nat)
    ensures Offset(y, size) == y * size
  {
    if y > 0 {
      OffsetIsProduct(y - 1, size);
    }
  }

  lemma {:induction false} RowEnds(y: nat, height: nat, size: nat)
    requires y < height
    ensures Offset(y, size) + size == Offset(y + 1, size) <= Offset(height, size)
  {
    if y + 1 < height {
      RowEnds(y, height - 1, size);
    }
  }

  const MISSING := -1

  /** `raw[i]`: reading past the end gives `undefined`, and whatever is computed from it is stored as 0. */
  function ByteAt(raw: seq<int>, i: nat): int {
    if i < |raw| then raw[i] else MISSING
  }

  function Unfiltered(filterType: int, value: int, left: int, up: int, upLeft: int): int {
    if value == MISSING then 0 else (value + Predicted(filterType, left, up, upLeft)) % 256
  }

  /** The first n bytes of a row, from the row's offset in the data and the row above. */
  function DecodedPrefix(raw: seq<int>, start: nat, prior: seq<int>, bpp: nat, n: nat): (r: seq<int>)
    requires n <= |prior| && bpp > 0
    ensures |r| == n && Bytes(r)
  {
    if n == 0 then []
    else
      var before := DecodedPrefix(raw, start, prior, bpp, n - 1);
      before + [Unfiltered(ByteAt(raw, start), ByteAt(raw, start + n),
                           LeftOf(before, n - 1, bpp), prior[n - 1], LeftOf(prior, n - 1, bpp))]
  }

  /** Row y of the image. */
  function DecodedRow(raw: seq<int>, rowBytes: nat, bpp: nat, y: nat): (r: seq<int>)
    requires bpp > 0
    ensures |r| == rowBytes && Bytes(r)
    decreases y, 1
  {
    DecodedPrefix(raw, Offset(y, 1 + rowBytes), RowAbove(raw, rowBytes, bpp, y), bpp, rowBytes)
  }

  /** The row above row y: zeros above the first. */
  function RowAbove(raw: seq<int>, rowBytes: nat, bpp: nat, y: nat): (r: seq<int>)
    requires bpp > 0
    ensures |r| == rowBytes
    decreases y, 0
  {
    if y == 0 then seq(rowBytes, _ => 0) else DecodedRow(raw, rowBytes, bpp, y - 1)
  }

  function Decoded(raw: seq<int>, rowBytes: nat, bpp: nat, height: nat): (r: seq<int>)
    requires bpp > 0
    ensures |r| == Offset(height, rowBytes) && Bytes(r)
  {
    if height == 0 then [] else Decoded(raw, rowBytes, bpp, height - 1) + DecodedRow(raw, rowBytes, bpp, height - 1)
  }

  lemma {:induction false} DecodedRowAt(raw: seq<int>, rowBytes: nat, bpp: nat, height: nat, y: nat)
    requires bpp > 0 && y < height
    ensures Offset(y, rowBytes) + rowBytes <= Offset(height, rowBytes)
    ensures Decoded(raw, rowBytes, bpp, height)[Offset(y, rowBytes)..Offset(y, rowBytes) + rowBytes] == DecodedRow(raw, rowBytes, bpp, y)
  {
    var before, last := Decoded(raw, rowBytes, bpp, height - 1), DecodedRow(raw, rowBytes, bpp, height - 1);
    assert Decoded(raw, rowBytes, bpp, height) == before + last;
    RowEnds(height - 1, height, rowBytes);
    if y < height - 1 {
      DecodedRowAt(raw, rowBytes, bpp, height - 1, y);
      SliceBefore(before, last, Offset(y, rowBytes), rowBytes);
    } else {
      SliceAfter(before, last);
    }
  }

  lemma SliceBefore(before: seq<int>, last: seq<int>, from: nat, size: nat)
    requires from + size <= |before|
    ensures (before + last)[from..from + size] == before[from..from + size]
  {
  }

  lemma SliceMiddle(before: seq<int>, one: int, rest: seq<int>)
    ensures var s := before + [one] + rest;
      s[|before|] == one && s[|before| + 1..|before| + 1 + |rest|] == rest && |s| == |before| + 1 + |rest|
  {
  }

  lemma SliceAfter(before: seq<int>, last: seq<int>)
    ensures (before + last)[|before|..|before| + |last|] == last
  {
  }

  // ---- The left inverse ----

  lemma Undone(value: int, predicted: int)
    requires 0 <= value < 256
    ensures ((value - predicted) % 256 + predicted) % 256 == value && (value - predicted) % 256 != MISSING
  {
  }

  lemma FilterUndone(filterType: int, value: int, left: int, up: int, upLeft: int)
    requires 0 <= value < 256
    ensures (FilterByte(filterType, value, left, up, upLeft) + Predicted(filterType, left, up, upLeft)) % 256 == value
    ensures FilterByte(filterType, value, left, up, upLeft) != MISSING
  {
    match filterType
    case 1 => Undone(value, left);
    case 2 => Undone(value, up);
    case 3 => Undone(value, (left + up) / 2);
    case 4 => Undone(value, PaethPredictor(left, up, upLeft));
    case _ => Undone(value, 0);
  }

  lemma {:induction false} RowComesBack(raw: seq<int>, start: nat, filterType: int, row: seq<int>, prior: seq<int>, bpp: nat, n: nat,
                                        f: seq<int>)
    requires |prior| == |row| && n <= |row| && bpp > 0 && Bytes(row)
    requires f == FilterRow(filterType, row, prior, bpp)
    requires start + |row| < |raw| && raw[start] == filterType && 0 <= filterType
    requires raw[start + 1..start + 1 + |row|] == f
    ensures DecodedPrefix(raw, start, prior, bpp, n) == row[..n]
  {
    if n > 0 {
      var x := n - 1;
      RowComesBack(raw, start, filterType, row, prior, bpp, x, f);
      var left, up, upLeft := LeftOf(row, x, bpp), prior[x], LeftOf(prior, x, bpp);
      assert raw[start + n] == raw[start + 1..start + 1 + |row|][x];
      assert LeftOf(row[..x], x, bpp) == left;
      FilterUndone(filterType, row[x], left, up, upLeft);
    }
  }

  lemma {:induction false} EncodedLength(types: seq<int>, rows: seq<seq<int>>, rowBytes: nat, bpp: nat)
    requires |types| == |rows| && bpp > 0 && forall y | 0 <= y < |rows| :: |rows[y]| == rowBytes
    ensures |Encode(types, rows, rowBytes, bpp)| == Offset(|rows|, 1 + rowBytes)
  {
    if rows != [] {
      EncodedLength(Init(types), Init(rows), rowBytes, bpp);
    }
  }

  /** A row only depends on the data up to its own end. */
  lemma {:induction false} DecodedPrefixOfPrefix(raw: seq<int>, more: seq<int>, start: nat, prior: seq<int>, bpp: nat, n: nat)
    requires n <= |prior| && bpp > 0 && start + n < |raw|
    ensures DecodedPrefix(raw + more, start, prior, bpp, n) == DecodedPrefix(raw, start, prior, bpp, n)
  {
    if n > 0 {
      DecodedPrefixOfPrefix(raw, more, start, prior, bpp, n - 1);
    }
  }

  lemma {:induction false} DecodedRowOfPrefix(raw: seq<int>, more: seq<int>, rowBytes: nat, bpp: nat, height: nat, y: nat)
    requires bpp > 0 && y < height && |raw| == Offset(height, 1 + rowBytes)
    ensures DecodedRow(raw + more, rowBytes, bpp, y) == DecodedRow(raw, rowBytes, bpp, y)
  {
    if y > 0 {
      DecodedRowOfPrefix(raw, more, rowBytes, bpp, height, y - 1);
    }
    RowEnds(y, height, 1 + rowBytes);
    DecodedPrefixOfPrefix(raw, more, Offset(y, 1 + rowBytes), RowAbove(raw, rowBytes, bpp, y), bpp, rowBytes);
  }

  /** The last row of filtered data, given that the row above it comes back. */
  lemma LastRowComesBack(before: seq<int>, filterType: int, row: seq<int>, prior: seq<int>, bpp: nat, f: seq<int>)
    requires |prior| == |row| && bpp > 0 && Bytes(row) && 0 <= filterType
    requires f == FilterRow(filterType, row, prior, bpp)
    ensures DecodedPrefix(before + [filterType] + f, |before|, prior, bpp, |row|) == row
  {
    assert |f| == |row|;
    SliceMiddle(before, filterType, f);
    RowComesBack(before + [filterType] + f, |before|, filterType, row, prior, bpp, |row|, f);
    assert row[..|row|] == row;
  }

  predicate Rows(types: seq<int>, rows: seq<seq<int>>, rowBytes: nat) {
    && |types| == |rows|
    && (forall y | 0 <= y < |rows| :: |rows[y]| == rowBytes && Bytes(rows[y]))
    && (forall y | 0 <= y < |types| :: 0 <= types[y])
  }

  lemma FewerRowsAreRows(types: seq<int>, rows: seq<seq<int>>, rowBytes: nat)
    requires Rows(types, rows, rowBytes) && rows != []
    ensures Rows(Init(types), Init(rows), rowBytes)
  {
  }

  lemma FewerRows(types: seq<int>, rows: seq<seq<int>>, rowBytes: nat, bpp: nat)
    requires Rows(types, rows, rowBytes) && bpp > 0 && rows != []
    ensures Rows(Init(types), Init(rows), rowBytes)
    ensures var before := Encode(Init(types), Init(rows), rowBytes, bpp);
      && |before| == Offset(|rows| - 1, 1 + rowBytes)
      && Encode(types, rows, rowBytes, bpp)
         == before + [Last(types)] + FilterRow(Last(types), Last(rows), Prior(rows, rowBytes), bpp)
  {
    FewerRowsAreRows(types, rows, rowBytes);
    EncodedLength(Init(types), Init(rows), rowBytes, bpp);
    EncodeLast(types, rows, rowBytes, bpp);
  }

  lemma EncodeLast(types: seq<int>, rows: seq<seq<int>>, rowBytes: nat, bpp: nat)
    requires |types| == |rows| && rows != [] && bpp > 0 && forall y | 0 <= y < |rows| :: |rows[y]| == rowBytes
    ensures Encode(types, rows, rowBytes, bpp) == Encode(Init(types), Init(rows), rowBytes, bpp) + [Last(types)]
      + FilterRow(Last(types), Last(rows), Prior(rows, rowBytes), bpp)
  {
  }

  /** Every row of filtered data decodes to the row that was filtered. */
  lemma {:induction false} RowsComeBack(types: seq<int>, rows: seq<seq<int>>, rowBytes: nat, bpp: nat, y: nat)
    requires Rows(types, rows, rowBytes) && bpp > 0 && y < |rows|
    ensures DecodedRow(Encode(types, rows, rowBytes, bpp), rowBytes, bpp, y) == rows[y]
    decreases |rows|
  {
    FewerRows(types, rows, rowBytes, bpp);
    if y < |rows| - 1 {
      EarlierRowComesBack(types, rows, rowBytes, bpp, y);
    } else {
      if y > 0 {
        EarlierRowComesBack(types, rows, rowBytes, bpp, y - 1);
      }
      var f := FilterRow(Last(types), rows[y], Prior(rows, rowBytes), bpp);
      LastRowComesBack(Encode(Init(types), Init(rows), rowBytes, bpp), Last(types), rows[y], Prior(rows, rowBytes), bpp, f);
    }
  }

  lemma {:induction false} EarlierRowComesBack(types: seq<int>, rows: seq<seq<int>>, rowBytes: nat, bpp: nat, y: nat)
    requires Rows(types, rows, rowBytes) && bpp > 0 && y < |rows| - 1
    ensures DecodedRow(Encode(types, rows, rowBytes, bpp), rowBytes, bpp, y) == rows[y]
    decreases |rows|, 0
  {
    FewerRowsAreRows(types, rows, rowBytes);
    RowsComeBack(Init(types), Init(rows), rowBytes, bpp, y);
    var more := EncodeExtends(types, rows, rowBytes, bpp);
    DecodedRowOfPrefix(Encode(Init(types), Init(rows), rowBytes, bpp), more, rowBytes, bpp, |rows| - 1, y);
  }

  /** The data of fewer rows is a prefix. */
  lemma EncodeExtends(types: seq<int>, rows: seq<seq<int>>, rowBytes: nat, bpp: nat) returns (more: seq<int>)
    requires Rows(types, rows, rowBytes) && bpp > 0 && rows != []
    ensures Rows(Init(types), Init(rows), rowBytes)
    ensures |Encode(Init(types), Init(rows), rowBytes, bpp)| == Offset(|rows| - 1, 1 + rowBytes)
    ensures Encode(types, rows, rowBytes, bpp) == Encode(Init(types), Init(rows), rowBytes, bpp) + more
  {
    FewerRows(types, rows, rowBytes, bpp);
    var f := FilterRow(Last(types), Last(rows), Prior(rows, rowBytes), bpp);
    more := [Last(types)] + f;
    Associates(Encode(Init(types), Init(rows), rowBytes, bpp), [Last(types)], f);
  }

  function Flat(rows: seq<seq<int>>): seq<int> {
    if rows == [] then [] else Flat(Init(rows)) + Last(rows)
  }

  lemma {:induction false} DecodedIsFlat(raw: seq<int>, rows: seq<seq<int>>, rowBytes: nat, bpp: nat)
    requires bpp > 0 && forall y | 0 <= y < |rows| :: DecodedRow(raw, rowBytes, bpp, y) == rows[y]
    ensures Decoded(raw, rowBytes, bpp, |rows|) == Flat(rows)
  {
    if rows != [] {
      DecodedIsFlat(raw, Init(rows), rowBytes, bpp);
    }
  }

  /** Reversing is a left inverse of filtering, for every width, height, number of bytes per pixel and pixel
      data, and any choice of filter type per row. */
  lemma UnfilterUndoesFilter(types: seq<int>, rows: seq<seq<int>>, rowBytes: nat, bpp: nat)
    requires Rows(types, rows, rowBytes) && bpp > 0
    ensures Decoded(Encode(types, rows, rowBytes, bpp), rowBytes, bpp, |rows|) == Flat(rows)
  {
    forall y | 0 <= y < |rows|
      ensures DecodedRow(Encode(types, rows, rowBytes, bpp), rowBytes, bpp, y) == rows[y]
    {
      RowsComeBack(types, rows, rowBytes, bpp, y);
    }
    DecodedIsFlat(Encode(types, rows, rowBytes, bpp), rows, rowBytes, bpp);
  }

  // ---- In place ----

  /** The byte that the switch computes is the next one of the row. */
  lemma NextByte(raw: seq<int>, rowStart: nat, prior: seq<int>, bpp: nat, x: nat, before: seq<int>)
    requires bpp > 0 && Bytes(raw) && x < |prior| && before == DecodedPrefix(raw, rowStart, prior, bpp, x)
    ensures DecodedPrefix(raw, rowStart, prior, bpp, x + 1)
         == before + [Step(ByteAt(raw, rowStart), ByteAt(raw, rowStart + 1 + x), LeftOf(before, x, bpp), prior[x], LeftOf(prior, x, bpp))]
  {
    assert rowStart + (x + 1) == rowStart + 1 + x;
  }

  /** The buffer holds what stands above a row, then the part of the row that is done. */
  ghost predicate Stands(buffer: seq<int>, above: seq<int>, done: seq<int>) {
    && |above| + |done| <= |buffer|
    && buffer[..|above|] == above && buffer[|above|..|above| + |done|] == done
  }

  lemma StandsOneMore(buffer: seq<int>, above: seq<int>, done: seq<int>, byte: int)
    requires Stands(buffer, above, done) && |above| + |done| < |buffer|
    ensures Stands(buffer[|above| + |done| := byte], above, done + [byte])
  {
  }

  /** The byte to the left, in the same row. */
  lemma LeftInPlace(buffer: seq<int>, above: seq<int>, done: seq<int>, k: nat)
    requires Stands(buffer, above, done) && k < |done|
    ensures buffer[|above| + k] == done[k]
  {
    assert buffer[|above|..|above| + |done|][k] == buffer[|above| + k];
  }

  /** A byte of the row above, which ends where this row starts. */
  lemma UpInPlace(buffer: seq<int>, above: seq<int>, done: seq<int>, prior: seq<int>, k: nat)
    requires Stands(buffer, above, done) && |prior| <= |above| && above[|above| - |prior|..] == prior && k < |prior|
    ensures buffer[|above| - |prior| + k] == prior[k]
  {
    assert buffer[..|above|][|above| - |prior| + k] == above[|above| - |prior|..][k];
  }

  /** The row above: zeros for the first row, else what stands right before this row in the buffer. */
  ghost predicate IsPrior(prior: seq<int>, above: seq<int>, rowBytes: nat, first: bool) {
    && |prior| == rowBytes
    && if first then prior == seq(rowBytes, _ => 0) else rowBytes <= |above| && above[|above| - rowBytes..] == prior
  }

  /** Lines 109 to 111: the left, the upper and the upper left byte, from the buffer. */
  method ReadNeighbours(out: array<int>, outOff: nat, rowBytes: nat, bpp: nat, first: bool, x: nat,
                        ghost above: seq<int>, ghost prior: seq<int>, ghost done: seq<int>)
    returns (left: int, up: int, upLeft: int)
    requires bpp > 0 && |above| == outOff && outOff + rowBytes <= out.Length && |done| == x < rowBytes
    requires IsPrior(prior, above, rowBytes, first) && Stands(out[..], above, done)
    ensures left == LeftOf(done, x, bpp) && up == prior[x] && upLeft == LeftOf(prior, x, bpp)
  {
    left := if x >= bpp then out[outOff + x - bpp] else 0;
    up := if !first then out[outOff - rowBytes + x] else 0;
    upLeft := if !first && x >= bpp then out[outOff - rowBytes + x - bpp] else 0;
    if x >= bpp { LeftInPlace(out[..], above, done, x - bpp); }
    if !first {
      UpInPlace(out[..], above, done, prior, x);
      if x >= bpp { UpInPlace(out[..], above, done, prior, x - bpp); }
    }
  }

  /** Lines 108 to 119: one byte, from its neighbours in the buffer. */
  method ReverseByte(raw: seq<int>, out: array<int>, rowStart: nat, outOff: nat, rowBytes: nat, bpp: nat, first: bool, x: nat,
                     ghost above: seq<int>, ghost prior: seq<int>)
    returns (byte: int)
    requires bpp > 0 && Bytes(raw) && |above| == outOff && outOff + rowBytes <= out.Length && x < rowBytes
    requires IsPrior(prior, above, rowBytes, first)
    requires Stands(out[..], above, DecodedPrefix(raw, rowStart, prior, bpp, x))
    ensures DecodedPrefix(raw, rowStart, prior, bpp, x + 1) == DecodedPrefix(raw, rowStart, prior, bpp, x) + [byte]
  {
    ghost var done := DecodedPrefix(raw, rowStart, prior, bpp, x);
    var left, up, upLeft := ReadNeighbours(out, outOff, rowBytes, bpp, first, x, above, prior, done);
    byte := Step(ByteAt(raw, rowStart), ByteAt(raw, rowStart + 1 + x), left, up, upLeft);
    NextByte(raw, rowStart, prior, bpp, x, done);
  }

  /** One row, lines 103 to 120. */
  method ReverseRow(raw: seq<int>, out: array<int>, rowStart: nat, outOff: nat, rowBytes: nat, bpp: nat, first: bool,
                    ghost above: seq<int>, ghost prior: seq<int>)
    requires bpp > 0 && Bytes(raw) && |above| == outOff && outOff + rowBytes <= out.Length
    requires IsPrior(prior, above, rowBytes, first) && out[..outOff] == above
    modifies out
    ensures Stands(out[..], above, DecodedPrefix(raw, rowStart, prior, bpp, rowBytes))
  {
    for x := 0 to rowBytes
      invariant Stands(out[..], above, DecodedPrefix(raw, rowStart, prior, bpp, x))
    {
      var byte := ReverseByte(raw, out, rowStart, outOff, rowBytes, bpp, first, x, above, prior);
      StandsOneMore(out[..], above, DecodedPrefix(raw, rowStart, prior, bpp, x), byte);
      ghost var before := out[..];
      out[outOff + x] := byte;
      assert out[..] == before[outOff + x := byte];
    }
  }

  /** The switch on the filter type, lines 112 to 119. */
  function Step(filterType: int, value: int, left: int, up: int, upLeft: int): (r: int)
    ensures -1 <= value < 256 ==> r == Unfiltered(filterType, value, left, up, upLeft)
  {
    if value == MISSING then 0
    else
      match filterType
      case 0 => value
      case 1 => (value + left) % 256
      case 2 => (value + up) % 256
      case 3 => (value + (left + up) / 2) % 256
      case 4 => (value + PaethPredictor(left, up, upLeft)) % 256
      case _ => value
  }

  lemma AboveInPlace(raw: seq<int>, rowBytes: nat, bpp: nat, y: nat)
    requires bpp > 0
    ensures IsPrior(RowAbove(raw, rowBytes, bpp, y), Decoded(raw, rowBytes, bpp, y), rowBytes, y == 0)
  {
    if y > 0 {
      SliceAfter(Decoded(raw, rowBytes, bpp, y - 1), DecodedRow(raw, rowBytes, bpp, y - 1));
    }
  }

  lemma StandsWhole(buffer: seq<int>, above: seq<int>, done: seq<int>)
    requires Stands(buffer, above, done)
    ensures buffer[..|above| + |done|] == above + done
  {
  }

  method ReverseRowAt(raw: seq<int>, out: array<int>, rowBytes: nat, bpp: nat, y: nat)
    requires bpp > 0 && Bytes(raw) && Offset(y, rowBytes) + rowBytes <= out.Length
    requires out[..Offset(y, rowBytes)] == Decoded(raw, rowBytes, bpp, y)
    modifies out
    ensures Offset(y + 1, rowBytes) <= out.Length
    ensures out[..Offset(y + 1, rowBytes)] == Decoded(raw, rowBytes, bpp, y + 1)
  {
    OffsetIsProduct(y, rowBytes);
    OffsetIsProduct(y, 1 + rowBytes);
    var rowStart, outOff := y * (1 + rowBytes), y * rowBytes;
    ghost var above, prior := Decoded(raw, rowBytes, bpp, y), RowAbove(raw, rowBytes, bpp, y);
    AboveInPlace(raw, rowBytes, bpp, y);
    ReverseRow(raw, out, rowStart, outOff, rowBytes, bpp, y == 0, above, prior);
    StandsWhole(out[..], above, DecodedRow(raw, rowBytes, bpp, y));
    assert out[..][..outOff + rowBytes] == out[..outOff + rowBytes];
  }

  /** `reversePngFilters`, lines 99 to 123 */
  method ReversePngFilters(raw: seq<int>, width: nat, height: nat, bpp: nat) returns (out: array<int>)
    requires bpp > 0 && Bytes(raw)
    ensures fresh(out) && out[..] == Decoded(raw, width * bpp, bpp, height)
  {
    var rowBytes := width * bpp;
    OffsetIsProduct(height, rowBytes);
    out := new int[height * rowBytes](_ => 0);
    for y := 0 to height
      invariant Offset(y, rowBytes) <= out.Length == Offset(height, rowBytes)
      invariant out[..Offset(y, rowBytes)] == Decoded(raw, rowBytes, bpp, y)
      invariant fresh(out)
    {
      RowEnds(y, height, rowBytes);
      ReverseRowAt(raw, out, rowBytes, bpp, y);
    }
    assert out[..] == out[..out.Length];
  }
}
