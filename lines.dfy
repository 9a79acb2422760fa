/** One line of the 2048 board (a row or a column) and how a move collapses it.

    The pure functions here are the specification; `CollapseLineLeft` and
    `CollapseLineRight` are the two splice loops of `moveTiles`, proved to
    compute them. */
module Lines {

  /** Number of cells in a row or a column. */
  const SIZE: nat := 4

  /** A tile value is a power of two that is at least 2. */
  predicate IsPowerOfTwo(v: int)
    decreases v
  {
    v == 2 || (v > 2 && v % 2 == 0 && IsPowerOfTwo(v / 2))
  }

  /** A cell holds 0 (empty) or a tile. */
  predicate IsTile(v: int) {
    v == 0 || IsPowerOfTwo(v)
  }

  predicate AllTiles(s: seq<int>) {
    forall i :: 0 <= i < |s| ==> IsTile(s[i])
  }

  /** The tiles of a line in order, the empty cells dropped (`line.filter(v => v !== 0)`). */
  function NonZero(s: seq<int>): (r: seq<int>)
    ensures |r| <= |s|
  {
    if s == [] then [] else (if s[0] != 0 then [s[0]] else []) + NonZero(s[1..])
  }

  /** The filter keeps only tiles, each taken from the line. */
  lemma {:induction false} NonZeroElements(s: seq<int>)
    ensures forall i :: 0 <= i < |NonZero(s)| ==> NonZero(s)[i] != 0 && NonZero(s)[i] in s
  {
    if s != [] {
      NonZeroElements(s[1..]);
      var head := if s[0] != 0 then [s[0]] else [];
      forall i | 0 <= i < |NonZero(s)|
        ensures NonZero(s)[i] != 0 && NonZero(s)[i] in s
      {
        if i >= |head| {
          assert NonZero(s)[i] == NonZero(s[1..])[i - |head|];
          assert NonZero(s)[i] in s[1..];
        }
      }
    }
  }

  /** Number of non-empty cells of a line. */
  function Count(s: seq<int>): nat {
    |NonZero(s)|
  }

  function Sum(s: seq<int>): int {
    if s == [] then 0 else s[0] + Sum(s[1..])
  }

  function Zeros(n: nat): (r: seq<int>)
    ensures |r| == n && forall i :: 0 <= i < n ==> r[i] == 0
  {
    seq(n, _ => 0)
  }

  /** One scan of the compacted tiles from index 0: an adjacent equal pair becomes
      one tile of twice the value, and a tile made by a merge is not compared again. */
  function Merge(t: seq<int>): (r: seq<int>)
    ensures |r| <= |t|
  {
    if |t| < 2 then t
    else if t[0] == t[1] then [2 * t[0]] + Merge(t[2..])
    else [t[0]] + Merge(t[1..])
  }

  /** The points a `Merge` scan adds to the score: the sum of the merged results. */
  function MergeGain(t: seq<int>): int {
    if |t| < 2 then 0
    else if t[0] == t[1] then 2 * t[0] + MergeGain(t[2..])
    else MergeGain(t[1..])
  }

  /** A line moved toward index 0: tiles compacted, merged once, zeros padded on the trailing side. */
  function CollapseLeft(line: seq<int>): (r: seq<int>)
    ensures |r| == |line|
  {
    var m := Merge(NonZero(line));
    m + Zeros(|line| - |m|)
  }

  function LeftGain(line: seq<int>): int {
    MergeGain(NonZero(line))
  }

  function Reverse(s: seq<int>): (r: seq<int>)
    ensures |r| == |s|
  {
    if s == [] then [] else [s[|s| - 1]] + Reverse(s[..|s| - 1])
  }

  /** A line moved toward its last index: the mirror image of the left collapse. */
  function CollapseRight(line: seq<int>): (r: seq<int>)
    ensures |r| == |line|
  {
    Reverse(CollapseLeft(Reverse(line)))
  }

  function RightGain(line: seq<int>): int {
    LeftGain(Reverse(line))
  }

  predicate NoEqualNeighbours(s: seq<int>) {
    forall i, j :: 0 <= i < |s| && 0 <= j < |s| && j == i + 1 ==> s[i] != s[j]
  }

  predicate Full(s: seq<int>) {
    forall i :: 0 <= i < |s| ==> s[i] != 0
  }

  // ---------------------------------------------------------------------------
  // The two splice loops of moveTiles

  /** The `left` (and `up`) branch for one line: filter out the empty cells,
      merge by `splice` on the shrinking line, then `push` zeros up to 4 cells. */
  method CollapseLineLeft(line: seq<int>) returns (row: seq<int>, gain: int)
    requires |line| == SIZE
    ensures row == CollapseLeft(line)
    ensures gain == LeftGain(line)
  {
    row, gain := MergeScanLeft(NonZero(line));
    row := PadBack(row);
  }

  /** `while (row.length < 4) row.push(0)` */
  method PadBack(tiles: seq<int>) returns (row: seq<int>)
    requires |tiles| <= SIZE
    ensures row == tiles + Zeros(SIZE - |tiles|)
  {
    row := tiles;
    while |row| < SIZE
      invariant |tiles| <= |row| <= SIZE
      invariant row == tiles + Zeros(|row| - |tiles|)
    {
      ZerosGrow(|row| - |tiles|);
      row := row + [0];
    }
  }

  /** `while (row.length < 4) row.unshift(0)` */
  method PadFront(tiles: seq<int>) returns (row: seq<int>)
    requires |tiles| <= SIZE
    ensures row == Zeros(SIZE - |tiles|) + tiles
  {
    row := tiles;
    while |row| < SIZE
      invariant |tiles| <= |row| <= SIZE
      invariant row == Zeros(|row| - |tiles|) + tiles
    {
      ZerosGrow(|row| - |tiles|);
      row := [0] + row;
    }
  }

  /** The ascending merge loop: at a pair, `row[i] *= 2` and `row.splice(i + 1, 1)`;
      the loop bound `row.length - 1` is read again after every splice. */
  method MergeScanLeft(tiles: seq<int>) returns (row: seq<int>, gain: int)
    ensures row == Merge(tiles)
    ensures gain == MergeGain(tiles)
  {
    row := tiles;
    gain := 0;
    var i := 0;
    while i < |row| - 1
      invariant 0 <= i <= |row|
      invariant row[..i] + Merge(row[i..]) == Merge(tiles)
      invariant gain + MergeGain(row[i..]) == MergeGain(tiles)
      decreases |row| - i
    {
      if row[i] == row[i + 1] {
        ghost var before := row;
        row := row[i := row[i] * 2];
        gain := gain + row[i];
        row := row[..i + 1] + row[i + 2..];
        LeftStepMerge(before, i);
        assert row[..i + 1] == before[..i] + [2 * before[i]];
        assert row[i + 1..] == before[i + 2..];
      } else {
        LeftStepKeep(row, i);
      }
      i := i + 1;
    }
    assert row == row[..i] + row[i..];
  }

  /** The `right` (and `down`) branch for one line: filter out the empty cells,
      merge from the last index down, then `unshift` zeros up to 4 cells. */
  method CollapseLineRight(line: seq<int>) returns (row: seq<int>, gain: int)
    requires |line| == SIZE
    ensures row == CollapseRight(line)
    ensures gain == RightGain(line)
  {
    row, gain := MergeScanRight(NonZero(line));
    row := PadFront(row);
    RightByMirror(line);
  }

  /** The descending merge loop: at a pair, `row[i] *= 2`, `row.splice(i - 1, 1)`
      and an extra `i--`, so the merged tile is not compared again. */
  method MergeScanRight(tiles: seq<int>) returns (row: seq<int>, gain: int)
    ensures row == Reverse(Merge(Reverse(tiles)))
    ensures gain == MergeGain(Reverse(tiles))
  {
    row := tiles;
    gain := 0;
    var i := |row| - 1;
    assert row[..i + 1] == row && row[i + 1..] == [];
    while i > 0
      invariant RightScanned(tiles, row, i, gain)
      decreases i
    {
      if row[i] == row[i - 1] {
        ghost var before := row;
        row := row[i := row[i] * 2];
        gain := gain + row[i];
        row := row[..i - 1] + row[i..];
        assert row == before[..i - 1] + ([2 * before[i]] + before[i + 1..]);
        RightMergeKeepsScan(tiles, before, i, gain - 2 * before[i]);
        i := i - 1;
      } else {
        RightKeepKeepsScan(tiles, row, i, gain);
      }
      i := i - 1;
    }
    RightScanDone(tiles, row, i, gain);
  }

  /** The invariant of the descending loop: the part left of `i + 1`, merged
      from its right end, followed by the part already scanned, is the
      result, and `gain` plus what is left to gain is the total. */
  ghost predicate RightScanned(tiles: seq<int>, row: seq<int>, i: int, gain: int) {
    -1 <= i < |row| &&
    Reverse(Merge(Reverse(row[..i + 1]))) + row[i + 1..] == Reverse(Merge(Reverse(tiles))) &&
    gain + MergeGain(Reverse(row[..i + 1])) == MergeGain(Reverse(tiles))
  }

  lemma RightMergeKeepsScan(tiles: seq<int>, row: seq<int>, i: int, gain: int)
    requires RightScanned(tiles, row, i, gain) && 0 < i && row[i] == row[i - 1]
    ensures RightScanned(tiles, row[..i - 1] + ([2 * row[i]] + row[i + 1..]), i - 2, gain + 2 * row[i])
  {
    var after := row[..i - 1] + ([2 * row[i]] + row[i + 1..]);
    RightStepMerge(row, i);
    assert after[..i - 1] == row[..i - 1];
    assert after[i - 1..] == [2 * row[i]] + row[i + 1..];
  }

  lemma RightKeepKeepsScan(tiles: seq<int>, row: seq<int>, i: int, gain: int)
    requires RightScanned(tiles, row, i, gain) && 0 < i && row[i] != row[i - 1]
    ensures RightScanned(tiles, row, i - 1, gain)
  {
    RightStepKeep(row, i);
  }

  lemma RightScanDone(tiles: seq<int>, row: seq<int>, i: int, gain: int)
    requires RightScanned(tiles, row, i, gain) && i <= 0
    ensures row == Reverse(Merge(Reverse(tiles)))
    ensures gain == MergeGain(Reverse(tiles))
  {
    assert |row[..i + 1]| <= 1;
    assert Reverse(row[..i + 1]) == row[..i + 1];
    assert row == row[..i + 1] + row[i + 1..];
  }

  // ---------------------------------------------------------------------------
  // Facts about sequences used by the proofs

  /** One step of the ascending loop when `row[i]` and `row[i + 1]` differ. */
  lemma LeftStepKeep(row: seq<int>, i: int)
    requires 0 <= i < |row| - 1 && row[i] != row[i + 1]
    ensures row[..i] + Merge(row[i..]) == row[..i + 1] + Merge(row[i + 1..])
    ensures MergeGain(row[i..]) == MergeGain(row[i + 1..])
  {
    assert row[i..][1..] == row[i + 1..];
    assert row[..i + 1] == row[..i] + [row[i]];
  }

  /** One step of the ascending loop that doubles `row[i]` and splices out `row[i + 1]`. */
  lemma LeftStepMerge(row: seq<int>, i: int)
    requires 0 <= i < |row| - 1 && row[i] == row[i + 1]
    ensures row[..i] + Merge(row[i..]) == (row[..i] + [2 * row[i]]) + Merge(row[i + 2..])
    ensures MergeGain(row[i..]) == 2 * row[i] + MergeGain(row[i + 2..])
  {
    assert row[i..][2..] == row[i + 2..];
  }

  /** One step of the descending loop when `row[i]` and `row[i - 1]` differ. */
  lemma RightStepKeep(row: seq<int>, i: int)
    requires 0 < i < |row| && row[i] != row[i - 1]
    ensures Reverse(Merge(Reverse(row[..i + 1]))) + row[i + 1..]
         == Reverse(Merge(Reverse(row[..i]))) + row[i..]
    ensures MergeGain(Reverse(row[..i + 1])) == MergeGain(Reverse(row[..i]))
  {
    var rest := Reverse(row[..i]);
    assert row[..i + 1] == row[..i] + [row[i]];
    ReverseSnoc(row[..i], row[i]);
    assert row[..i] == row[..i - 1] + [row[i - 1]];
    ReverseSnoc(row[..i - 1], row[i - 1]);
    var t := [row[i]] + rest;
    assert Reverse(row[..i + 1]) == t;
    assert t[0] == row[i] && t[1] == row[i - 1] && t[1..] == rest;
    assert Merge(t) == [row[i]] + Merge(rest);
    ReverseCons(row[i], Merge(rest));
    assert row[i..] == [row[i]] + row[i + 1..];
  }

  /** One step of the descending loop that merges `row[i - 1]` into `row[i]`
      and splices out index `i - 1`. */
  lemma RightStepMerge(row: seq<int>, i: int)
    requires 0 < i < |row| && row[i] == row[i - 1]
    ensures Reverse(Merge(Reverse(row[..i + 1]))) + row[i + 1..]
         == Reverse(Merge(Reverse(row[..i - 1]))) + ([2 * row[i]] + row[i + 1..])
    ensures MergeGain(Reverse(row[..i + 1])) == 2 * row[i] + MergeGain(Reverse(row[..i - 1]))
  {
    var rest := Reverse(row[..i - 1]);
    assert row[..i + 1] == (row[..i - 1] + [row[i - 1]]) + [row[i]];
    ReverseSnoc(row[..i - 1] + [row[i - 1]], row[i]);
    ReverseSnoc(row[..i - 1], row[i - 1]);
    var t := [row[i]] + ([row[i - 1]] + rest);
    assert Reverse(row[..i + 1]) == t;
    assert t[0] == row[i] && t[1] == row[i - 1] && t[2..] == rest;
    assert Merge(t) == [2 * row[i]] + Merge(rest);
    ReverseCons(2 * row[i], Merge(rest));
  }

  lemma ReverseCons(x: int, s: seq<int>)
    ensures Reverse([x] + s) == Reverse(s) + [x]
  {
    ReverseConcat([x], s);
    assert Reverse([x]) == [x] + Reverse([]);
  }

  lemma ZerosGrow(n: nat)
    ensures [0] + Zeros(n) == Zeros(n + 1) == Zeros(n) + [0]
  {
  }

  lemma {:induction false} ReverseSnoc(s: seq<int>, x: int)
    ensures Reverse(s + [x]) == [x] + Reverse(s)
  {
    assert (s + [x])[..|s|] == s;
  }

  lemma {:induction false} ReverseAt(s: seq<int>, k: nat)
    requires k < |s|
    ensures Reverse(s)[k] == s[|s| - 1 - k]
  {
    if k > 0 {
      ReverseAt(s[..|s| - 1], k - 1);
    }
  }

  lemma ReverseReverse(s: seq<int>)
    ensures Reverse(Reverse(s)) == s
  {
    forall k | 0 <= k < |s|
      ensures Reverse(Reverse(s))[k] == s[k]
    {
      ReverseAt(Reverse(s), k);
      ReverseAt(s, |s| - 1 - k);
    }
  }

  lemma {:induction false} ReverseConcat(a: seq<int>, b: seq<int>)
    ensures Reverse(a + b) == Reverse(b) + Reverse(a)
  {
    if b == [] {
      assert a + b == a;
    } else {
      var init := b[..|b| - 1];
      assert a + b == (a + init) + [b[|b| - 1]];
      assert b == init + [b[|b| - 1]];
      ReverseSnoc(a + init, b[|b| - 1]);
      ReverseSnoc(init, b[|b| - 1]);
      ReverseConcat(a, init);
    }
  }

  lemma {:induction false} ReverseZeros(n: nat)
    ensures Reverse(Zeros(n)) == Zeros(n)
  {
    forall k | 0 <= k < n
      ensures Reverse(Zeros(n))[k] == 0
    {
      ReverseAt(Zeros(n), k);
    }
  }

  lemma {:induction false} NonZeroConcat(a: seq<int>, b: seq<int>)
    ensures NonZero(a + b) == NonZero(a) + NonZero(b)
  {
    if a != [] {
      assert (a + b)[1..] == a[1..] + b;
      NonZeroConcat(a[1..], b);
    } else {
      assert a + b == b;
    }
  }

  lemma {:induction false} NonZeroReverse(s: seq<int>)
    ensures NonZero(Reverse(s)) == Reverse(NonZero(s))
  {
    if s != [] {
      var init, last := s[..|s| - 1], s[|s| - 1];
      var kept := if last != 0 then [last] else [];
      assert s == init + [last];
      NonZeroConcat(init, [last]);
      assert NonZero([last]) == kept;
      NonZeroConcat([last], Reverse(init));
      NonZeroReverse(init);
      ReverseConcat(NonZero(init), kept);
      assert Reverse(kept) == kept;
    }
  }

  lemma {:induction false} NonZeroOfZeros(n: nat)
    ensures NonZero(Zeros(n)) == []
  {
    if n > 0 {
      assert Zeros(n)[1..] == Zeros(n - 1);
      NonZeroOfZeros(n - 1);
    }
  }

  lemma {:induction false} NonZeroOfFull(s: seq<int>)
    requires Full(s)
    ensures NonZero(s) == s
  {
    if s != [] {
      NonZeroOfFull(s[1..]);
    }
  }

  lemma {:induction false} MergeFull(t: seq<int>)
    requires Full(t)
    ensures Full(Merge(t))
  {
    if |t| >= 2 {
      if t[0] == t[1] {
        MergeFull(t[2..]);
      } else {
        MergeFull(t[1..]);
      }
    }
  }

  /** The tiles of a collapsed line are exactly the merged tiles. */
  lemma NonZeroOfCollapse(line: seq<int>)
    ensures NonZero(CollapseLeft(line)) == Merge(NonZero(line))
  {
    var m := Merge(NonZero(line));
    NonZeroElements(line);
    MergeFull(NonZero(line));
    NonZeroConcat(m, Zeros(|line| - |m|));
    NonZeroOfFull(m);
    NonZeroOfZeros(|line| - |m|);
  }

  /** The right collapse written out: zeros in front of the mirrored merge of the tiles. */
  lemma RightByMirror(line: seq<int>)
    ensures CollapseRight(line)
         == Zeros(|line| - |Merge(Reverse(NonZero(line)))|) + Reverse(Merge(Reverse(NonZero(line))))
    ensures RightGain(line) == MergeGain(Reverse(NonZero(line)))
  {
    var m := Merge(NonZero(Reverse(line)));
    NonZeroReverse(line);
    ReverseConcat(m, Zeros(|line| - |m|));
    ReverseZeros(|line| - |m|);
  }

  lemma {:induction false} SumConcat(a: seq<int>, b: seq<int>)
    ensures Sum(a + b) == Sum(a) + Sum(b)
  {
    if a != [] {
      assert (a + b)[1..] == a[1..] + b;
      SumConcat(a[1..], b);
    } else {
      assert a + b == b;
    }
  }

  lemma {:induction false} SumZeros(n: nat)
    ensures Sum(Zeros(n)) == 0
  {
    if n > 0 {
      assert Zeros(n)[1..] == Zeros(n - 1);
      SumZeros(n - 1);
    }
  }

  lemma {:induction false} SumNonZero(s: seq<int>)
    ensures Sum(NonZero(s)) == Sum(s)
  {
    if s != [] {
      SumNonZero(s[1..]);
      SumConcat(if s[0] != 0 then [s[0]] else [], NonZero(s[1..]));
    }
  }

  lemma {:induction false} SumMerge(t: seq<int>)
    ensures Sum(Merge(t)) == Sum(t)
  {
    if |t| >= 2 {
      assert t[1..][1..] == t[2..];
      if t[0] == t[1] {
        SumMerge(t[2..]);
        SumConcat([2 * t[0]], Merge(t[2..]));
      } else {
        SumMerge(t[1..]);
        SumConcat([t[0]], Merge(t[1..]));
      }
    }
  }

  lemma {:induction false} SumReverse(s: seq<int>)
    ensures Sum(Reverse(s)) == Sum(s)
  {
    if s != [] {
      var init := s[..|s| - 1];
      assert s == init + [s[|s| - 1]];
      SumReverse(init);
      SumConcat(init, [s[|s| - 1]]);
    }
  }

  // ---------------------------------------------------------------------------
  // Properties of the collapse

  /** Moving a line neither creates nor destroys value: merges only add pairs together. */
  lemma CollapseLeftSum(line: seq<int>)
    ensures Sum(CollapseLeft(line)) == Sum(line)
  {
    var m := Merge(NonZero(line));
    SumConcat(m, Zeros(|line| - |m|));
    SumZeros(|line| - |m|);
    SumMerge(NonZero(line));
    SumNonZero(line);
  }

  lemma CollapseRightSum(line: seq<int>)
    ensures Sum(CollapseRight(line)) == Sum(line)
  {
    SumReverse(CollapseLeft(Reverse(line)));
    CollapseLeftSum(Reverse(line));
    SumReverse(line);
  }

  /** A move never adds tiles to a line; it removes one per merge. */
  lemma CollapseLeftCount(line: seq<int>)
    ensures Count(CollapseLeft(line)) <= Count(line)
    ensures Count(CollapseLeft(line)) == Count(line) ==> LeftGain(line) == 0
  {
    NonZeroOfCollapse(line);
    if |Merge(NonZero(line))| == |NonZero(line)| {
      MergeKeepsLength(NonZero(line));
    }
  }

  lemma CollapseRightCount(line: seq<int>)
    ensures Count(CollapseRight(line)) <= Count(line)
    ensures Count(CollapseRight(line)) == Count(line) ==> RightGain(line) == 0
  {
    NonZeroReverse(CollapseLeft(Reverse(line)));
    NonZeroReverse(line);
    CollapseLeftCount(Reverse(line));
  }

  /** A scan that merges nothing leaves its tiles as they are and scores nothing. */
  lemma {:induction false} MergeKeepsLength(t: seq<int>)
    requires |Merge(t)| == |t|
    ensures Merge(t) == t && MergeGain(t) == 0
  {
    if |t| >= 2 && t[0] != t[1] {
      MergeKeepsLength(t[1..]);
    }
  }

  /** A line that does not change scores nothing, so an unmoved board keeps its score. */
  lemma UnchangedLeftScoresNothing(line: seq<int>)
    requires CollapseLeft(line) == line
    ensures LeftGain(line) == 0
  {
    CollapseLeftCount(line);
  }

  lemma UnchangedRightScoresNothing(line: seq<int>)
    requires CollapseRight(line) == line
    ensures RightGain(line) == 0
  {
    CollapseRightCount(line);
  }

  lemma {:induction false} DoubleIsPowerOfTwo(v: int)
    requires IsPowerOfTwo(v)
    ensures IsPowerOfTwo(2 * v)
  {
    assert (2 * v) / 2 == v;
  }

  lemma {:induction false} MergePowers(t: seq<int>)
    requires forall i :: 0 <= i < |t| ==> IsPowerOfTwo(t[i])
    ensures forall i :: 0 <= i < |Merge(t)| ==> IsPowerOfTwo(Merge(t)[i])
  {
    if |t| >= 2 {
      if t[0] == t[1] {
        DoubleIsPowerOfTwo(t[0]);
        MergePowers(t[2..]);
      } else {
        MergePowers(t[1..]);
      }
    }
  }

  /** Every cell of a moved line is still empty or a power of two at least 2. */
  lemma CollapseLeftTiles(line: seq<int>)
    requires AllTiles(line)
    ensures AllTiles(CollapseLeft(line))
  {
    var nz := NonZero(line);
    NonZeroElements(line);
    forall i | 0 <= i < |nz|
      ensures IsPowerOfTwo(nz[i])
    {
      assert nz[i] in line;
    }
    MergePowers(nz);
  }

  lemma CollapseRightTiles(line: seq<int>)
    requires AllTiles(line)
    ensures AllTiles(CollapseRight(line))
  {
    var rev := Reverse(line);
    forall k | 0 <= k < |rev|
      ensures IsTile(rev[k])
    {
      ReverseAt(line, k);
    }
    CollapseLeftTiles(rev);
    var c := CollapseLeft(rev);
    forall k | 0 <= k < |c|
      ensures IsTile(Reverse(c)[k])
    {
      ReverseAt(c, k);
    }
  }

  lemma {:induction false} MergeGainNonNegative(t: seq<int>)
    requires forall i :: 0 <= i < |t| ==> t[i] >= 0
    ensures MergeGain(t) >= 0
  {
    if |t| >= 2 {
      if t[0] == t[1] {
        MergeGainNonNegative(t[2..]);
      } else {
        MergeGainNonNegative(t[1..]);
      }
    }
  }

  /** Merging tiles never lowers the score. */
  lemma GainNonNegative(line: seq<int>)
    requires AllTiles(line)
    ensures LeftGain(line) >= 0 && RightGain(line) >= 0
  {
    var nz := NonZero(line);
    NonZeroElements(line);
    forall i | 0 <= i < |nz|
      ensures nz[i] >= 0
    {
      assert nz[i] in line;
    }
    MergeGainNonNegative(nz);
    NonZeroReverse(line);
    var rz := Reverse(nz);
    forall i | 0 <= i < |rz|
      ensures rz[i] >= 0
    {
      ReverseAt(nz, i);
    }
    MergeGainNonNegative(rz);
  }

  lemma {:induction false} MergeNoNeighbours(t: seq<int>)
    requires NoEqualNeighbours(t)
    ensures Merge(t) == t
  {
    if |t| >= 2 {
      MergeNoNeighbours(t[1..]);
    }
  }

  /** A line with no empty cell and no equal neighbours cannot move either way. */
  lemma FullLineIsFixed(line: seq<int>)
    requires Full(line) && NoEqualNeighbours(line)
    ensures CollapseLeft(line) == line
    ensures CollapseRight(line) == line
  {
    FullLineIsFixedLeft(line);
    var rev := Reverse(line);
    ReverseKeepsFull(line);
    FullLineIsFixedLeft(rev);
    ReverseReverse(line);
  }

  lemma FullLineIsFixedLeft(line: seq<int>)
    requires Full(line) && NoEqualNeighbours(line)
    ensures CollapseLeft(line) == line
  {
    NonZeroOfFull(line);
    MergeNoNeighbours(line);
    assert Zeros(0) == [];
  }

  lemma ReverseKeepsFull(line: seq<int>)
    requires Full(line) && NoEqualNeighbours(line)
    ensures Full(Reverse(line)) && NoEqualNeighbours(Reverse(line))
  {
    var rev := Reverse(line);
    forall k | 0 <= k < |rev|
      ensures rev[k] != 0
    {
      ReverseAt(line, k);
    }
    forall k | 0 <= k < |rev| - 1
      ensures rev[k] != rev[k + 1]
    {
      ReverseAt(line, k);
      ReverseAt(line, k + 1);
    }
  }

  /** The examples of classic 2048, for tiles of any value `a`: a chain of
      three merges its leading pair, four equal tiles make two merges and
      never one tile of four times the value, and a tile made by a merge is
      not merged again in the same move. */
  lemma ChainExample(a: int)
    requires a != 0
    ensures CollapseLeft([a, a, a, 0]) == [2 * a, a, 0, 0]
    ensures LeftGain([a, a, a, 0]) == 2 * a
  {
    assert [a, a, a, 0][1..] == [a, a, 0];
    assert [a, a, 0][1..] == [a, 0];
    assert [a, 0][1..] == [0];
    assert NonZero([a, 0]) == [a];
    assert NonZero([a, a, a, 0]) == [a, a, a];
    assert [a, a, a][2..] == [a];
    assert Merge([a, a, a]) == [2 * a, a];
    assert MergeGain([a, a, a]) == 2 * a;
    assert Zeros(2) == [0, 0];
  }

  lemma NoDoubleMergeExample(a: int)
    requires a != 0
    ensures CollapseLeft([a, a, a, a]) == [2 * a, 2 * a, 0, 0]
    ensures LeftGain([a, a, a, a]) == 4 * a
  {
    assert [a, a, a, a][1..] == [a, a, a];
    assert [a, a, a][1..] == [a, a];
    assert [a, a][1..] == [a];
    assert NonZero([a, a]) == [a, a];
    assert NonZero([a, a, a, a]) == [a, a, a, a];
    assert [a, a, a, a][2..] == [a, a];
    assert [a, a][2..] == [];
    assert Merge([a, a, a, a]) == [2 * a, 2 * a];
    assert MergeGain([a, a]) == 2 * a;
    assert MergeGain([a, a, a, a]) == 4 * a;
    assert Zeros(2) == [0, 0];
  }

  lemma MergedTileNotRemergedExample(a: int)
    requires a != 0
    ensures CollapseLeft([a, a, 2 * a, 0]) == [2 * a, 2 * a, 0, 0]
    ensures LeftGain([a, a, 2 * a, 0]) == 2 * a
  {
    assert [a, a, 2 * a, 0][1..] == [a, 2 * a, 0];
    assert [a, 2 * a, 0][1..] == [2 * a, 0];
    assert [2 * a, 0][1..] == [0];
    assert NonZero([2 * a, 0]) == [2 * a];
    assert NonZero([a, a, 2 * a, 0]) == [a, a, 2 * a];
    assert [a, a, 2 * a][2..] == [2 * a];
    assert Merge([a, a, 2 * a]) == [2 * a, 2 * a];
    assert MergeGain([a, a, 2 * a]) == 2 * a;
    assert Zeros(2) == [0, 0];
  }

  /** Moving right merges the pair nearest the right edge. */
  lemma RightChainExample(a: int)
    requires a != 0
    ensures CollapseRight([a, a, a, 0]) == [0, 0, a, 2 * a]
    ensures RightGain([a, a, a, 0]) == 2 * a
  {
    var rev := [0, a, a, a];
    assert [a, a, a, 0][..3] == [a, a, a];
    assert [a, a, a][..2] == [a, a];
    assert [a, a][..1] == [a];
    assert Reverse([a, a]) == [a, a];
    assert Reverse([a, a, a, 0]) == rev;
    assert rev[1..] == [a, a, a];
    assert [a, a, a][1..] == [a, a];
    assert [a, a][1..] == [a];
    assert NonZero([a, a]) == [a, a];
    assert NonZero(rev) == [a, a, a];
    assert [a, a, a][2..] == [a];
    assert Merge([a, a, a]) == [2 * a, a];
    assert MergeGain([a, a, a]) == 2 * a;
    assert Zeros(2) == [0, 0];
    var left := [2 * a, a, 0, 0];
    assert CollapseLeft(rev) == left;
    assert left[..3] == [2 * a, a, 0];
    assert [2 * a, a, 0][..2] == [2 * a, a];
    assert [2 * a, a][..1] == [2 * a];
    assert Reverse([2 * a, a]) == [a, 2 * a];
    assert Reverse([2 * a, a, 0]) == [0, a, 2 * a];
  }
}
