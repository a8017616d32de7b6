/** The edit distance computed over a circular buffer of two rows and three cells, with an exit once a row is too
    far off. */
module EditBuffer {
  import opened EditDistance

  const MIN_DIST := 7
  const STORE := 1000
  const STRLENTHRESHOLD := (STORE - 3) / 2

  // ----- places in a circular buffer

  /** Where the value number `p` goes in a buffer of `radix` cells. */
  function Slot(p: nat, radix: nat): (s: nat)
    requires 0 < radix
    ensures s < radix
  {
    if p < radix then p else Slot(p - radix, radix)
  }

  lemma {:induction false} SlotBack(p: nat, j: nat, radix: nat)
    requires 0 < radix && j <= radix && j <= p
    ensures Slot(p - j, radix) == if j <= Slot(p, radix) then Slot(p, radix) - j else Slot(p, radix) + radix - j
  {
    if radix <= p - j {
      SlotBack(p - radix, j, radix);
    } else if radix <= p {
      assert Slot(p, radix) == Slot(p - radix, radix) == p - radix;
    }
  }

  lemma SmallMod(x: nat, radix: nat)
    requires 0 < radix && x < 2 * radix
    ensures x % radix == if x < radix then x else x - radix
  {
  }

  /** The cell found `j` places back, going forward around the buffer. */
  lemma ForwardIsBack(p: nat, j: nat, radix: nat)
    requires 0 < j < radix && j <= p
    ensures (Slot(p, radix) + radix - j) % radix == Slot(p - j, radix) != Slot(p, radix)
  {
    SlotBack(p, j, radix);
    SmallMod(Slot(p, radix) + radix - j, radix);
  }

  lemma SlotNext(p: nat, radix: nat)
    requires 1 < radix
    ensures (Slot(p, radix) + 1) % radix == Slot(p + 1, radix)
  {
    SlotBack(p + 1, 1, radix);
    SmallMod(Slot(p, radix) + 1, radix);
  }

  /** All but one of the places hold the last values that were computed. */
  predicate Window(buffer: seq<nat>, radix: nat, cells: seq<nat>)
    requires 0 < radix <= |buffer|
  {
    forall q :: 0 <= q < |cells| && |cells| - q < radix ==> buffer[Slot(q, radix)] == cells[q]
  }

  /** The value `j` places back. */
  lemma LookBack(buffer: seq<nat>, radix: nat, cells: seq<nat>, j: nat)
    requires 0 < radix <= |buffer| && Window(buffer, radix, cells) && 0 < j < radix && j <= |cells|
    ensures buffer[(Slot(|cells|, radix) + radix - j) % radix] == cells[|cells| - j]
  {
    ForwardIsBack(|cells|, j, radix);
  }

  /** A value put at the next place leaves the others where they are. */
  lemma Written(buffer: seq<nat>, radix: nat, cells: seq<nat>, v: nat)
    requires 1 < radix <= |buffer| && Window(buffer, radix, cells)
    ensures var now := buffer[Slot(|cells|, radix) := v]; Window(now, radix, cells) && Window(now, radix, cells + [v])
  {
    forall q | 0 <= q < |cells| && |cells| - q < radix ensures Slot(q, radix) != Slot(|cells|, radix) {
      ForwardIsBack(|cells|, |cells| - q, radix);
    }
  }

  /** Reading forward by `len + 3` finds the cell one row back exactly when the buffer has two rows and three cells. */
  lemma WindowFits(p: nat, len: nat, radix: nat)
    requires 0 < len && len + 3 < radix && len <= p
    ensures (Slot(p, radix) + len + 3) % radix == Slot(p - len, radix) <==> radix == 2 * len + 3
  {
    SlotBack(p, len, radix);
    SmallMod(Slot(p, radix) + len + 3, radix);
  }

  /** The operands are swapped only when the first is both longer and too long for the static buffer. */
  predicate Swapped(from: string, to: string) {
    |to| < |from| && STRLENTHRESHOLD < |from|
  }

  /** The operands in use after that. */
  function InUse(from: string, to: string): (string, string) {
    if Swapped(from, to) then (to, from) else (from, to)
  }

  /** The radix is computed before the operands are swapped, so the window is right exactly when they are not. */
  lemma WindowIsRight(p: nat, from: string, to: string)
    requires from != "" && to != "" && |InUse(from, to).0| <= p
    ensures var len, radix := |InUse(from, to).0|, 2 * |from| + 3;
      (Slot(p, radix) + len + 3) % radix == Slot(p - len, radix) <==> !Swapped(from, to)
  {
    WindowFits(p, |InUse(from, to).0|, 2 * |from| + 3);
  }

  // ----- a cleared buffer with too large a radix

  /** A bound on the value number `q` of a matrix of `len` columns and `height` rows. */
  function Cap(q: nat, len: nat, height: nat): nat
    requires 0 < height
  {
    if q < height then len else Cap(q - height, len, height) + 1
  }

  lemma {:induction false} CapRises(q: nat, p: nat, len: nat, height: nat)
    requires 0 < height && q <= p
    ensures Cap(q, len, height) <= Cap(p, len, height)
    ensures q + height <= p ==> Cap(q, len, height) + 1 <= Cap(p, len, height)
  {
    if height <= q {
      CapRises(q - height, p - height, len, height);
    } else if height <= p {
      CapLeast(p - height, len, height);
    }
  }

  lemma {:induction false} CapLeast(q: nat, len: nat, height: nat)
    requires 0 < height
    ensures len <= Cap(q, len, height)
  {
    if height <= q { CapLeast(q - height, len, height); }
  }

  lemma {:induction false} CapAtEnd(q: nat, rounds: nat, len: nat, height: nat)
    requires 0 < height && q < rounds * height
    ensures Cap(q, len, height) < len + rounds
  {
    if height <= q {
      assert q - height < (rounds - 1) * height;
      CapAtEnd(q - height, rounds - 1, len, height);
    } else if rounds == 0 {
      assert false;
    }
  }

  predicate AllZero(buffer: seq<nat>) {
    forall i :: 0 <= i < |buffer| ==> buffer[i] == 0
  }

  /** The cells not reached yet are 0, and the values so far are small. */
  ghost predicate Cleared(buffer: seq<nat>, radix: nat, cells: seq<nat>, len: nat, height: nat) {
    && 0 < len < height && radix == 2 * height + 3
    && (forall s :: |cells| <= s < |buffer| ==> buffer[s] == 0)
    && (forall q :: 0 <= q < |cells| ==> cells[q] <= Cap(q, len, height))
  }

  lemma {:induction false} SlotSmall(p: nat, radix: nat)
    requires 0 < radix
    ensures Slot(p, radix) <= p
  {
    if radix <= p { SlotSmall(p - radix, radix); }
  }

  /** What is found ahead is a 0 or a value of more than a column's height ago. */
  lemma AheadIsSmall(buffer: seq<nat>, radix: nat, cells: seq<nat>, len: nat, height: nat)
    requires 0 < radix <= |buffer| && Window(buffer, radix, cells) && Cleared(buffer, radix, cells, len, height)
    ensures buffer[(Slot(|cells|, radix) + len + 3) % radix] + 1 <= Cap(|cells|, len, height)
  {
    hide Window;
    var n, back := |cells|, radix - len - 3;
    if back <= n {
      LookBack(buffer, radix, cells, back);
      CapRises(n - back, n, len, height);
    } else {
      SmallMod(n + len + 3, radix);
      CapLeast(n, len, height);
    }
  }

  lemma StaysCleared(buffer: seq<nat>, radix: nat, cells: seq<nat>, len: nat, height: nat, v: nat)
    requires 0 < radix <= |buffer| && Cleared(buffer, radix, cells, len, height) && v <= Cap(|cells|, len, height)
    ensures Cleared(buffer[Slot(|cells|, radix) := v], radix, cells + [v], len, height)
  {
    SlotSmall(|cells|, radix);
  }

  // ----- rows

  /** The cells from `at` on are the first `upto` columns of row `r`. */
  ghost predicate RowAt(cells: seq<nat>, at: nat, from: string, to: string, r: nat, upto: nat)
    requires r <= |to| && upto <= |from| && at + upto <= |cells|
  {
    forall c :: 1 <= c <= upto ==> cells[at + c - 1] == Dist(from, to, r, c)
  }

  /** The cells computed so far end with the rows before `row + 1` that are still needed, and the first `col` of
      that row. */
  ghost predicate Rows(cells: seq<nat>, from: string, to: string, row: nat, col: nat)
    requires 1 <= row < |to| && col <= |from|
  {
    var at := |cells| - col;
    && |from| <= at && RowAt(cells, at - |from|, from, to, row, |from|) && RowAt(cells, at, from, to, row + 1, col)
    && (2 <= row ==> 2 * |from| <= at && RowAt(cells, at - 2 * |from|, from, to, row - 1, |from|))
  }

  lemma RowsNext(cells: seq<nat>, v: nat, from: string, to: string, row: nat, col: nat)
    requires 1 <= row < |to| && col < |from| && Rows(cells, from, to, row, col) && v == Dist(from, to, row + 1, col + 1)
    ensures Rows(cells + [v], from, to, row, col + 1)
  {
    hide Dist;
  }

  /** The macro ar: row 0 and column 0 are not stored. */
  function Ar(x: nat, y: nat, buffer: array<nat>, index: nat, radix: nat): nat
    requires 0 < radix <= buffer.Length
    reads buffer
  {
    if x == 0 then y else if y == 0 then x else buffer[index % radix]
  }

  function Differ(a: char, b: char): nat {
    if a == b then 0 else 1
  }

  /** The four cells around a new one are those of the right row and column. */
  lemma Around(buffer: array<nat>, radix: nat, cells: seq<nat>, from: string, to: string, row: nat, col: nat)
    requires radix == 2 * |from| + 3 <= buffer.Length && Window(buffer[..], radix, cells)
    requires 1 <= row < |to| && col < |from| && Rows(cells, from, to, row, col)
    ensures var index := Slot(|cells|, radix);
      && Ar(row, col, buffer, index + |from| + 2, radix) == Dist(from, to, row, col)
      && Ar(row, col + 1, buffer, index + |from| + 3, radix) == Dist(from, to, row, col + 1)
      && Ar(row + 1, col, buffer, index + radix - 1, radix) == Dist(from, to, row + 1, col)
      && (0 < col ==> Ar(row - 1, col - 1, buffer, index + 1, radix) == Dist(from, to, row - 1, col - 1))
  {
    hide Dist, Window, Slot;
    var n := |from|;
    Edges(from, to, row, col);
    Edges(from, to, row + 1, col);
    LookBack(buffer[..], radix, cells, n);
    if 0 < col {
      LookBack(buffer[..], radix, cells, n + 1);
      LookBack(buffer[..], radix, cells, 1);
      Edges(from, to, row - 1, col - 1);
      if 1 < row && 1 < col { LookBack(buffer[..], radix, cells, 2 * n + 2); }
    }
  }

  /** The recurrence for the cell of the string indices `row` and `col`. */
  lemma CellValue(from: string, to: string, row: nat, col: nat)
    requires 1 <= row < |to| && col < |from|
    ensures var best := Min(Min(Dist(from, to, row, col) + Differ(from[col], to[row]),
      Dist(from, to, row, col + 1) + 1),
                            Dist(from, to, row + 1, col) + 1);
      Dist(from, to, row + 1, col + 1) ==
        if from[col] == to[row - 1] && col > 0 && from[col - 1] == to[row]
          then Min(best, Dist(from, to, row - 1, col - 1) + 1)
        else best
  {
    hide Min;
  }

  /** One cell of the matrix. */
  method Cell(from: string, to: string, radix: nat, buffer: array<nat>, index: nat, row: nat, col: nat,
      ghost cells: seq<nat>)
    requires 2 * |from| + 3 <= radix <= buffer.Length && Window(buffer[..], radix, cells)
      && index == Slot(|cells|, radix)
    requires 1 <= row < |to| && col < |from| && (radix == 2 * |from| + 3 ==> Rows(cells, from, to, row, col))
    modifies buffer
    ensures radix == 2 * |from| + 3 ==> buffer[index] == Dist(from, to, row + 1, col + 1)
    ensures Window(buffer[..], radix, cells + [buffer[index]])
    ensures Cleared(old(buffer[..]), radix, cells, |from|, |to|) ==>
      Cleared(buffer[..], radix, cells + [buffer[index]], |from|, |to|)
  {
    hide Slot, Window, Rows, RowAt, Dist, Differ, Cleared, Cap;
    if radix == 2 * |from| + 3 {
      CellValue(from, to, row, col);
      Around(buffer, radix, cells, from, to, row, col);
    }
    ghost var was := buffer[..];
    buffer[index] := Min(Min(
      Ar(row, col, buffer, index + |from| + 2, radix) + Differ(from[col], to[row]),
      Ar(row, col + 1, buffer, index + |from| + 3, radix) + 1),
      Ar(row + 1, col, buffer, index + radix - 1, radix) + 1);
    assert buffer[index] <= was[(index + |from| + 3) % radix] + 1;
    Written(was, radix, cells, buffer[index]);
    assert buffer[..] == was[index := buffer[index]];
    if radix == 2 * |from| + 3 { Around(buffer, radix, cells, from, to, row, col); }
    if from[col] == to[row - 1] && col > 0 && from[col - 1] == to[row] {
      buffer[index] := Min(buffer[index], Ar(row - 1, col - 1, buffer, index + 1, radix) + 1);
    }
    Written(was, radix, cells, buffer[index]);
    assert buffer[..] == was[index := buffer[index]];
    if Cleared(was, radix, cells, |from|, |to|) {
      AheadIsSmall(was, radix, cells, |from|, |to|);
      StaysCleared(was, radix, cells, |from|, |to|, buffer[index]);
    }
  }

  /** The first row of the matrix, and the least of its values. */
  method FirstRow(from: string, to: string, radix: nat, buffer: array<nat>)
      returns (index: nat, low: nat, ghost cells: seq<nat>)
    requires from != "" && to != "" && 2 * |from| + 3 <= radix <= buffer.Length
    modifies buffer
    ensures index == |from| == |cells| == Slot(|cells|, radix) && Window(buffer[..], radix, cells)
    ensures RowAt(cells, 0, from, to, 1, |from|)
    ensures Cleared(old(buffer[..]), radix, [], |from|, |to|) ==> Cleared(buffer[..], radix, cells, |from|, |to|)
  {
    hide Dist, Cap;
    FirstValue(from, to, 1);
    index := 0;
    buffer[index] := Min(2, Differ(from[0], to[0]));
    index := index + 1;
    low := buffer[(index + radix - 1) % radix];
    cells := [buffer[0]];
    for col := 1 to |from|
      invariant index == col == |cells|
      invariant forall i :: 0 <= i < col ==> buffer[i] == cells[i]
      invariant RowAt(cells, 0, from, to, 1, col)
      invariant forall i :: 0 <= i < col ==> cells[i] <= i + 1
      invariant forall i :: col <= i < buffer.Length ==> buffer[i] == old(buffer[i])
    {
      FirstValue(from, to, col + 1);
      buffer[index] := Min(Min(col + Differ(from[col], to[0]), (col + 1) + 1), buffer[index - 1] + 1);
      if buffer[index] < low { low := buffer[index]; }
      cells := cells + [buffer[index]];
      index := index + 1;
    }
    forall q | 0 <= q < |cells| ensures 0 < |to| ==> cells[q] <= Cap(q, |from|, |to|) { CapLeast(q, |from|, |to|); }
  }

  lemma FirstValue(from: string, to: string, c: nat)
    requires 1 <= c <= |from| && to != ""
    ensures Dist(from, to, 1, c) ==
      if c == 1 then Min(2, Differ(from[0], to[0]))
      else Min(Min((c - 1) + Differ(from[c - 1], to[0]), c + 1), Dist(from, to, 1, c - 1) + 1)
  {
  }

  /** No value of the row up to column `upto` is below `low`. */
  ghost predicate RowLow(from: string, to: string, r: nat, upto: nat, low: nat)
    requires r <= |to| && upto <= |from|
  {
    forall c :: 1 <= c <= upto ==> low <= Dist(from, to, r, c)
  }

  /** One row of the matrix, and the least of its values. */
  method Row(from: string, to: string, radix: nat, buffer: array<nat>, start: nat, row: nat, ghost before: seq<nat>)
    returns (index: nat, low: nat, ghost cells: seq<nat>)
    requires 2 * |from| + 3 <= radix <= buffer.Length && Window(buffer[..], radix, before)
      && start == Slot(|before|, radix)
    requires from != "" && 1 <= row < |to| && (radix == 2 * |from| + 3 ==> Rows(before, from, to, row, 0))
    modifies buffer
    ensures index == Slot(|cells|, radix) && Window(buffer[..], radix, cells) && |cells| == |before| + |from|
    ensures radix == 2 * |from| + 3 ==>
      Rows(cells, from, to, row, |from|) && RowLow(from, to, row + 1, |from|, low)
    ensures Cleared(old(buffer[..]), radix, before, |from|, |to|) ==> Cleared(buffer[..], radix, cells, |from|, |to|)
  {
    hide Dist, Slot, Window, Rows, Cleared;
    index, low, cells := start, 0, before;
    for col := 0 to |from|
      invariant index == Slot(|cells|, radix) && Window(buffer[..], radix, cells) && |cells| == |before| + col
      invariant radix == 2 * |from| + 3 ==>
        Rows(cells, from, to, row, col) && RowLow(from, to, row + 1, col, low)
      invariant Cleared(old(buffer[..]), radix, before, |from|, |to|) ==>
        Cleared(buffer[..], radix, cells, |from|, |to|)
    {
      Cell(from, to, radix, buffer, index, row, col, cells);
      if radix == 2 * |from| + 3 { RowsNext(cells, buffer[index], from, to, row, col); }
      if buffer[index] < low || col == 0 { low := buffer[index]; }
      SlotNext(|cells|, radix);
      cells := cells + [buffer[index]];
      index := (index + 1) % radix;
    }
  }

  /** The exit taken after a row leaves both the value at the end of that row and the distance above the bound. */
  lemma ExitIsExact(from: string, to: string, r: nat, low: nat)
    requires 1 <= r <= |to| && from != "" && RowLow(from, to, r, |from|, low) && MIN_DIST < low
    ensures MIN_DIST < Distance(from, to) && MIN_DIST < Dist(from, to, r, |from|)
  {
    hide Dist;
    RowBefore(from, to, r, MIN_DIST);
    RowsAfter(from, to, r, |to|, MIN_DIST);
    assert MIN_DIST + 1 <= Dist(from, to, |to|, |from|);
  }

  lemma WholeStrings(from: string, to: string)
    ensures Distance(from, to) == Dist(from, to, |to|, |from|)
  {
  }

  /** What the caller is promised: up to the bound the distance, above it a number above the bound. */
  predicate AsPromised(from: string, to: string, d: nat) {
    if Distance(from, to) <= MIN_DIST then d == Distance(from, to) else MIN_DIST < d
  }

  /**
   * edit_distn. Unless the operands are swapped, the number returned is as promised, and it is the distance itself
   * when the exit is not taken. With swapped operands the radix is too large, and a static buffer that is clear gives a
   * number below twice the length of the shorter operand. `store` is the static buffer, with as much of the memory
   * behind it as that radix lets the code reach.
   */
  method EditDistN(from: string, to: string, store: array<nat>) returns (d: nat, ghost early: bool)
    requires STORE <= store.Length && (Swapped(from, to) ==> 2 * |from| + 3 <= store.Length)
    modifies store
    ensures !Swapped(from, to) || to == "" ==> AsPromised(from, to, d) && (!early ==> d == Distance(from, to))
    ensures early && !Swapped(from, to) ==> MIN_DIST < d && MIN_DIST < Distance(from, to)
    ensures Swapped(from, to) && 0 < |to| <= STRLENTHRESHOLD && old(AllZero(store[..])) ==> d < 2 * |to|
  {
    hide Dist, Distance, Slot, Window, Rows, RowAt, RowLow, Cleared, Cap, AllZero;
    WholeStrings(from, to);
    Edges(from, to, |to|, |from|);
    early := false;
    if from == "" {
      if to == "" { return 0, false; }
      return |to|, false;
    }
    if to == "" { return |from|, false; }
    var radix := 2 * |from| + 3;
    var a, b := from, to;
    if |a| > |b| && |a| > STRLENTHRESHOLD { a, b := b, a; }
    var buffer := store;
    if |a| > STRLENTHRESHOLD { buffer := new nat[radix]; }
    ghost var clear := |a| < |b| && radix == 2 * |b| + 3 && AllZero(buffer[..]);
    if clear { StartsClear(buffer[..], radix, |a|, |b|); }
    var index, low, cells := FirstRow(a, b, radix, buffer);
    var row := 1;
    FirstRows(cells, a, b);
    while row < |b|
      invariant 1 <= row <= |b| && index == Slot(|cells|, radix) && Window(buffer[..], radix, cells)
      invariant |cells| == row * |a| && |a| <= |cells|
      invariant radix == 2 * |a| + 3 ==>
        cells[|cells| - 1] == Dist(a, b, row, |a|) && (row < |b| ==> Rows(cells, a, b, row, 0))
      invariant clear ==> Cleared(buffer[..], radix, cells, |a|, |b|)
      decreases |b| - row
    {
      index, low, cells := Row(a, b, radix, buffer, index, row, cells);
      assert |cells| == (row + 1) * |a|;
      if radix == 2 * |a| + 3 { RowEnds(cells, a, b, row); }
      row := row + 1;
      if low > MIN_DIST {
        early := true;
        if radix == 2 * |a| + 3 { ExitIsExact(a, b, row, low); }
        break;
      }
    }
    LookBack(buffer[..], radix, cells, 1);
    if clear { EndsSmall(buffer[..], radix, cells, |a|, |b|, row); }
    d := buffer[(index + radix - 1) % radix];
  }

  lemma StartsClear(buffer: seq<nat>, radix: nat, len: nat, height: nat)
    requires 0 < len < height && radix == 2 * height + 3 && AllZero(buffer)
    ensures Cleared(buffer, radix, [], len, height)
  {
  }

  lemma EndsSmall(buffer: seq<nat>, radix: nat, cells: seq<nat>, len: nat, height: nat, row: nat)
    requires Cleared(buffer, radix, cells, len, height) && 0 < |cells| == row * len && row <= height
    ensures cells[|cells| - 1] < 2 * len
  {
    hide Cap;
    RowsFit(row, len, height);
    CapAtEnd(|cells| - 1, len, len, height);
  }

  lemma RowsFit(row: nat, len: nat, height: nat)
    requires row <= height
    ensures row * len <= len * height
  {
    assert len * height - row * len == len * (height - row);
  }

  /** Such a number is not the distance when one operand is three times as long, and not as promised when the other has
      four characters at most. */
  lemma SwapBreaks(from: string, to: string, d: nat)
    requires Swapped(from, to) && d < 2 * |to|
    ensures 3 * |to| <= |from| ==> d < Distance(from, to)
    ensures |to| <= 4 ==> !AsPromised(from, to, d)
  {
    hide Dist;
    LengthGap(from, to, |to|, |from|);
  }

  /** 499 characters against another one. */
  lemma SwapExample(d: nat)
    ensures var from := seq(499, _ => 'a'); Swapped(from, "b") && (d < 2 ==> !AsPromised(from, "b", d))
  {
    if d < 2 { SwapBreaks(seq(499, _ => 'a'), "b", d); }
  }

  lemma FirstRows(cells: seq<nat>, from: string, to: string)
    requires from != "" && to != "" && |cells| == |from| && RowAt(cells, 0, from, to, 1, |from|)
    ensures 1 < |to| ==> Rows(cells, from, to, 1, 0)
    ensures cells[|cells| - 1] == Dist(from, to, 1, |from|)
  {
    hide Dist;
  }

  lemma RowEnds(cells: seq<nat>, from: string, to: string, row: nat)
    requires from != "" && 1 <= row < |to| && |from| <= |cells| && Rows(cells, from, to, row, |from|)
    ensures row + 1 < |to| ==> Rows(cells, from, to, row + 1, 0)
    ensures cells[|cells| - 1] == Dist(from, to, row + 1, |from|)
  {
    hide Dist;
  }
}
