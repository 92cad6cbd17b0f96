/**
 key_green: make the green screen around a figure transparent.

 A queue-driven flood fill from the border marks the background, two rounds of dilation mark its
 surroundings, and a per-pixel pass keys out the background and removes green spill next to it.
 The methods keep the source's arrays and queue; what they compute is stated by paths and
 distances on the grid.
 */
module Keying {
  import opened Grid

  type Byte = n: int | 0 <= n < 256

  datatype Pixel = Pixel(r: Byte, g: Byte, b: Byte, a: Byte)

  datatype RawImage = RawImage(w: nat, h: nat, pixels: seq<Pixel>)

  type Image = i: RawImage | |i.pixels| == i.w * i.h witness RawImage(0, 0, [])

  predicate IsGreen(p: Pixel) {
    p.a != 0 && p.g >= 95 && p.g - p.r >= 22 && p.g - p.b >= 22
  }

  function Candidates(pixels: seq<Pixel>): (c: seq<bool>)
    ensures |c| == |pixels| && forall i :: 0 <= i < |c| ==> c[i] == IsGreen(pixels[i])
  {
    seq(|pixels|, i requires 0 <= i < |pixels| => IsGreen(pixels[i]))
  }

  // ----- The background, by paths -----------------------------------------------------------

  /** A 4-connected path of candidate pixels that starts on the border. */
  ghost predicate BorderPath(w: nat, h: nat, cand: seq<bool>, p: seq<nat>) {
    && p != []
    && (forall k :: 0 <= k < |p| ==> p[k] < |cand| && cand[p[k]])
    && w > 0 && Border(w, h, p[0])
    && (forall k :: 0 < k < |p| ==> Dist(w, p[k - 1], p[k]) == 1)
  }

  /** The pixels the flood fill is meant to mark. */
  ghost predicate Background(w: nat, h: nat, cand: seq<bool>, i: nat) {
    exists p :: BorderPath(w, h, cand, p) && p[|p| - 1] == i
  }

  lemma BackgroundIsCandidate(w: nat, h: nat, cand: seq<bool>, i: nat)
    requires Background(w, h, cand, i)
    ensures i < |cand| && cand[i] && w > 0
  {
  }

  lemma BorderIsBackground(w: nat, h: nat, cand: seq<bool>, i: nat)
    requires w > 0 && i < |cand| && cand[i] && Border(w, h, i)
    ensures Background(w, h, cand, i)
  {
    assert BorderPath(w, h, cand, [i]);
  }

  lemma BackgroundSpreads(w: nat, h: nat, cand: seq<bool>, i: nat, j: nat)
    requires Background(w, h, cand, i)
    requires w > 0 && j < |cand| && cand[j] && Dist(w, i, j) == 1
    ensures Background(w, h, cand, j)
  {
    var p :| BorderPath(w, h, cand, p) && p[|p| - 1] == i;
    var longer := p + [j];
    forall k | 0 < k < |longer| ensures Dist(w, longer[k - 1], longer[k]) == 1 {
      assert longer[k - 1] == p[k - 1];
    }
    assert BorderPath(w, h, cand, longer);
  }

  /** Any marking that holds the border candidates and is closed under steps holds the background. */
  lemma {:induction false} ClosedHoldsPath(w: nat, h: nat, cand: seq<bool>, marked: seq<bool>, p: seq<nat>, k: nat)
    requires |marked| == |cand| && BorderPath(w, h, cand, p) && k < |p|
    requires forall i :: 0 <= i < |cand| && cand[i] && Border(w, h, i) ==> marked[i]
    requires forall i, j :: 0 <= i < |cand| && 0 <= j < |cand| && marked[i] && cand[j] && Dist(w, i, j) == 1 ==> marked[j]
    ensures marked[p[k]]
  {
    if k > 0 {
      ClosedHoldsPath(w, h, cand, marked, p, k - 1);
    }
  }

  // ----- The flood fill ---------------------------------------------------------------------

  predicate Distinct(s: seq<int>) {
    forall i, j :: 0 <= i < j < |s| ==> s[i] != s[j]
  }

  /** Distinct numbers below `n` are at most `n` many. */
  lemma {:induction false} PigeonHole(s: seq<int>, n: nat)
    requires Distinct(s) && forall i :: 0 <= i < |s| ==> 0 <= s[i] < n
    ensures |s| <= n
  {
    var below := Below(n);
    DistinctSize(s);
    assert (set x | x in s) <= below;
    SubsetSize((set x | x in s), below);
  }

  function Below(n: nat): (r: set<int>)
    ensures |r| == n && forall x :: x in r <==> 0 <= x < n
  {
    if n == 0 then {} else Below(n - 1) + {n - 1}
  }

  lemma {:induction false} DistinctSize(s: seq<int>)
    requires Distinct(s)
    ensures |set x | x in s| == |s|
  {
    if s != [] {
      DistinctSize(s[1..]);
      assert (set x | x in s) == (set x | x in s[1..]) + {s[0]};
      assert s[0] !in s[1..];
    }
  }

  lemma {:induction false} SubsetSize(a: set<int>, b: set<int>)
    requires a <= b
    ensures |a| <= |b|
  {
    assert b == a + (b - a);
    assert |a + (b - a)| == |a| + |b - a|;
  }

  /**
   What the fill keeps: `queued` lists every pixel ever queued, the queue is its tail, and only
   pixels of `ground` are marked.
   */
  ghost predicate FillOk(cand: seq<bool>, bg: seq<bool>, ground: set<int>, queued: seq<int>, q: seq<int>) {
    && |bg| == |cand|
    && Distinct(queued)
    && |q| <= |queued| && q == queued[|queued| - |q|..]
    && (forall k :: 0 <= k < |queued| ==> 0 <= queued[k] < |bg| && bg[queued[k]])
    && (forall i :: 0 <= i < |bg| && bg[i] ==> i in queued && i in ground)
  }

  /** The index `i` may be seeded: it is outside the image, no candidate, or in `ground`. */
  predicate Fillable(cand: seq<bool>, ground: set<int>, i: int) {
    0 <= i < |cand| && cand[i] ==> i in ground
  }

  /** No mark is taken back. */
  predicate Grows(before: seq<bool>, after: seq<bool>) {
    |before| == |after| && forall j :: 0 <= j < |before| && before[j] ==> after[j]
  }

  /** The index `i` is marked if it is that of a candidate. */
  predicate Marked(cand: seq<bool>, bg: seq<bool>, i: int)
    requires |bg| == |cand|
  {
    0 <= i < |cand| && cand[i] ==> bg[i]
  }

  /** Mark and queue the pixel `i` if it is an unmarked candidate; any other index is ignored. */
  method Seed(cand: seq<bool>, background: array<bool>, i: int, q: seq<int>, ghost queued: seq<int>, ghost ground: set<int>)
    returns (q': seq<int>, ghost queued': seq<int>)
    requires FillOk(cand, background[..], ground, queued, q)
    requires Fillable(cand, ground, i)
    modifies background
    ensures FillOk(cand, background[..], ground, queued', q')
    ensures Grows(old(background[..]), background[..])
    ensures Marked(cand, background[..], i)
    ensures queued <= queued' && |queued'| - |q'| == |queued| - |q|
  {
    q', queued' := q, queued;
    if 0 <= i < |cand| && cand[i] && !background[i] {
      assert i !in queued by {
        assert forall k :: 0 <= k < |queued| ==> background[..][queued[k]];
      }
      background[i] := true;
      q', queued' := q + [i], queued + [i];
      assert i == queued'[|queued|] && i in queued';
      forall k | 0 <= k < |background[..]| && background[..][k] ensures k in queued' {
        assert k == i || old(background[..])[k];
      }
    }
  }

  /** Two seeds, each under its coordinate guard. */
  method SeedBoth(cand: seq<bool>, background: array<bool>, iOk: bool, i: int, jOk: bool, j: int,
                  q: seq<int>, ghost queued: seq<int>, ghost ground: set<int>)
    returns (q': seq<int>, ghost queued': seq<int>)
    requires FillOk(cand, background[..], ground, queued, q)
    requires (iOk ==> Fillable(cand, ground, i)) && (jOk ==> Fillable(cand, ground, j))
    modifies background
    ensures FillOk(cand, background[..], ground, queued', q')
    ensures Grows(old(background[..]), background[..])
    ensures (iOk ==> Marked(cand, background[..], i)) && (jOk ==> Marked(cand, background[..], j))
    ensures queued <= queued' && |queued'| - |q'| == |queued| - |q|
  {
    q', queued' := q, queued;
    if iOk {
      q', queued' := Seed(cand, background, i, q', queued', ground);
    }
    if jOk {
      q', queued' := Seed(cand, background, j, q', queued', ground);
    }
  }

  /** The candidates of the first and last row, in the first `n` columns, are marked. */
  predicate RowsSeeded(w: nat, h: nat, cand: seq<bool>, bg: seq<bool>, n: int)
    requires |bg| == |cand|
  {
    forall i :: 0 <= i < |cand| && cand[i] && w > 0 && (Y(w, i) == 0 || Y(w, i) == h - 1) && X(w, i) < n ==> bg[i]
  }

  /** The candidates of the first and last column, in the first `n` rows, are marked. */
  predicate ColumnsSeeded(w: nat, h: nat, cand: seq<bool>, bg: seq<bool>, n: int)
    requires |bg| == |cand|
  {
    forall i :: 0 <= i < |cand| && cand[i] && w > 0 && (X(w, i) == 0 || X(w, i) == w - 1) && Y(w, i) < n ==> bg[i]
  }

  /** Every border candidate is in `set`. */
  predicate HoldsBorder(w: nat, h: nat, cand: seq<bool>, ground: set<int>) {
    forall i :: 0 <= i < |cand| && cand[i] && w > 0 && Border(w, h, i) ==> i in ground
  }

  lemma RowCell(w: nat, i: nat, y: int, first: int)
    requires w > 0 && first == y * w
    ensures Y(w, i) == y ==> i == first + X(w, i)
  {
    assert i == Y(w, i) * w + X(w, i);
  }

  lemma RowsStep(w: nat, h: nat, cand: seq<bool>, before: seq<bool>, after: seq<bool>, x: nat, lastRow: int)
    requires lastRow == (h - 1) * w
    requires |before| == |cand| && RowsSeeded(w, h, cand, before, x) && Grows(before, after)
    requires Marked(cand, after, x) && Marked(cand, after, lastRow + x)
    ensures RowsSeeded(w, h, cand, after, x + 1)
  {
    forall i | 0 <= i < |cand| && cand[i] && w > 0 && (Y(w, i) == 0 || Y(w, i) == h - 1) && X(w, i) < x + 1
      ensures after[i]
    {
      RowCell(w, i, 0, 0);
      RowCell(w, i, h - 1, lastRow);
    }
  }

  lemma ColumnsStep(w: nat, h: nat, cand: seq<bool>, before: seq<bool>, after: seq<bool>, y: nat, first: int)
    requires first == y * w
    requires |before| == |cand| && ColumnsSeeded(w, h, cand, before, y) && Grows(before, after)
    requires Marked(cand, after, first) && Marked(cand, after, first + w - 1)
    ensures ColumnsSeeded(w, h, cand, after, y + 1)
  {
    forall i | 0 <= i < |cand| && cand[i] && w > 0 && (X(w, i) == 0 || X(w, i) == w - 1) && Y(w, i) < y + 1
      ensures after[i]
    {
      RowCell(w, i, y, first);
    }
  }

  /** The index computed for a border coordinate is a border pixel, or lies outside the image. */
  lemma SeedIsBorder(w: nat, h: nat, cand: seq<bool>, ground: set<int>, x: int, y: int)
    requires |cand| == w * h && HoldsBorder(w, h, cand, ground) && 0 <= x < w
    requires x == 0 || x == w - 1 || y == 0 || y == h - 1
    ensures Fillable(cand, ground, y * w + x)
  {
    if 0 <= y * w + x < |cand| && cand[y * w + x] {
      var i := y * w + x;
      Coordinates(w, h, i);
      SameCell(w, x, y, X(w, i), Y(w, i));
    }
  }

  /** Seed the first and last row. */
  method SeedRows(w: nat, h: nat, cand: seq<bool>, background: array<bool>, ghost ground: set<int>)
    returns (q: seq<int>, ghost queued: seq<int>)
    requires |cand| == w * h && background.Length == |cand| && HoldsBorder(w, h, cand, ground)
    requires forall i :: 0 <= i < background.Length ==> !background[i]
    modifies background
    ensures FillOk(cand, background[..], ground, queued, q) && |q| == |queued|
    ensures RowsSeeded(w, h, cand, background[..], w)
  {
    q, queued := [], [];
    var lastRow := (h - 1) * w;
    for x := 0 to w
      invariant FillOk(cand, background[..], ground, queued, q) && |q| == |queued|
      invariant RowsSeeded(w, h, cand, background[..], x)
    {
      SeedIsBorder(w, h, cand, ground, x, 0);
      SeedIsBorder(w, h, cand, ground, x, h - 1);
      ghost var before := background[..];
      q, queued := SeedBoth(cand, background, true, x, true, lastRow + x, q, queued, ground);
      RowsStep(w, h, cand, before, background[..], x, lastRow);
    }
  }

  /** Seed the first and last column. */
  method SeedColumns(w: nat, h: nat, cand: seq<bool>, background: array<bool>,
                     q0: seq<int>, ghost queued0: seq<int>, ghost ground: set<int>)
    returns (q: seq<int>, ghost queued: seq<int>)
    requires |cand| == w * h && HoldsBorder(w, h, cand, ground)
    requires FillOk(cand, background[..], ground, queued0, q0) && |q0| == |queued0|
    modifies background
    ensures FillOk(cand, background[..], ground, queued, q) && |q| == |queued|
    ensures Grows(old(background[..]), background[..])
    ensures ColumnsSeeded(w, h, cand, background[..], h)
  {
    q, queued := q0, queued0;
    for y := 0 to h
      invariant FillOk(cand, background[..], ground, queued, q) && |q| == |queued|
      invariant Grows(old(background[..]), background[..])
      invariant ColumnsSeeded(w, h, cand, background[..], y)
    {
      q, queued := SeedRowEnds(w, h, cand, background, y, q, queued, ground);
    }
  }

  /** Seed the first and last pixel of the row `y`. */
  method SeedRowEnds(w: nat, h: nat, cand: seq<bool>, background: array<bool>, y: nat,
                     q: seq<int>, ghost queued: seq<int>, ghost ground: set<int>)
    returns (q': seq<int>, ghost queued': seq<int>)
    requires |cand| == w * h && HoldsBorder(w, h, cand, ground) && y < h
    requires FillOk(cand, background[..], ground, queued, q) && ColumnsSeeded(w, h, cand, background[..], y)
    modifies background
    ensures FillOk(cand, background[..], ground, queued', q')
    ensures Grows(old(background[..]), background[..]) && ColumnsSeeded(w, h, cand, background[..], y + 1)
    ensures |queued'| - |q'| == |queued| - |q|
  {
    var first := y * w;
    if w > 0 {
      SeedIsBorder(w, h, cand, ground, 0, y);
      SeedIsBorder(w, h, cand, ground, w - 1, y);
    }
    q', queued' := SeedBoth(cand, background, true, first, true, first + w - 1, q, queued, ground);
    ColumnsStep(w, h, cand, old(background[..]), background[..], y, first);
  }

  /** Seed every border pixel, as the two source loops do. */
  method SeedBorder(w: nat, h: nat, cand: seq<bool>, background: array<bool>, ghost ground: set<int>)
    returns (q: seq<int>, ghost queued: seq<int>)
    requires |cand| == w * h && background.Length == |cand| && HoldsBorder(w, h, cand, ground)
    requires forall i :: 0 <= i < background.Length ==> !background[i]
    modifies background
    ensures FillOk(cand, background[..], ground, queued, q) && |q| == |queued|
    ensures BorderMarked(w, h, cand, background[..])
  {
    q, queued := SeedRows(w, h, cand, background, ground);
    ghost var rows := background[..];
    q, queued := SeedColumns(w, h, cand, background, q, queued, ground);
    BorderSeeded(w, h, cand, rows, background[..]);
  }

  /** Every border candidate is marked. */
  predicate BorderMarked(w: nat, h: nat, cand: seq<bool>, bg: seq<bool>)
    requires |bg| == |cand|
  {
    forall i :: 0 <= i < |cand| && cand[i] && w > 0 && Border(w, h, i) ==> bg[i]
  }

  lemma BorderStaysMarked(w: nat, h: nat, cand: seq<bool>, before: seq<bool>, after: seq<bool>)
    requires |before| == |cand| && Grows(before, after) && BorderMarked(w, h, cand, before)
    ensures BorderMarked(w, h, cand, after)
  {
  }

  lemma BorderSeeded(w: nat, h: nat, cand: seq<bool>, rows: seq<bool>, bg: seq<bool>)
    requires |cand| == w * h == |rows| && Grows(rows, bg)
    requires RowsSeeded(w, h, cand, rows, w) && ColumnsSeeded(w, h, cand, bg, h)
    ensures BorderMarked(w, h, cand, bg)
  {
    forall i | 0 <= i < |cand| && cand[i] && w > 0 && Border(w, h, i) ensures bg[i] {
      Coordinates(w, h, i);
    }
  }

  /** The candidates next to the pixel `i` are marked. */
  predicate Spread(w: nat, cand: seq<bool>, bg: seq<bool>, i: int)
    requires w > 0 && |bg| == |cand|
  {
    forall j :: 0 <= i && 0 <= j < |cand| && cand[j] && Dist(w, i, j) == 1 ==> bg[j]
  }

  /** The first `n` pixels queued have been spread from. */
  predicate PoppedSpread(w: nat, cand: seq<bool>, bg: seq<bool>, queued: seq<int>, n: nat)
    requires |bg| == |cand|
  {
    forall k :: 0 <= k < n && k < |queued| ==> w > 0 && Spread(w, cand, bg, queued[k])
  }

  /** The candidates next to `ground` belong to it. */
  predicate ClosedGround(w: nat, cand: seq<bool>, ground: set<int>) {
    && (forall i :: i in ground ==> 0 <= i < |cand| && w > 0)
    && (forall i, j :: i in ground && 0 <= j < |cand| && cand[j] && Dist(w, i, j) == 1 ==> j in ground)
  }

  lemma StaysMarked(cand: seq<bool>, before: seq<bool>, after: seq<bool>, ok: bool, i: int)
    requires |before| == |cand| && Grows(before, after) && (ok ==> Marked(cand, before, i))
    ensures ok ==> Marked(cand, after, i)
  {
  }

  /** Seed the neighbours of the pixel just taken off the queue, each under its coordinate guard. */
  method SpreadFrom(w: nat, h: nat, cand: seq<bool>, background: array<bool>, i: nat,
                    q: seq<int>, ghost queued: seq<int>, ghost ground: set<int>)
    returns (q': seq<int>, ghost queued': seq<int>)
    requires |cand| == w * h && ClosedGround(w, cand, ground) && i in ground
    requires FillOk(cand, background[..], ground, queued, q)
    modifies background
    ensures FillOk(cand, background[..], ground, queued', q')
    ensures Grows(old(background[..]), background[..]) && w > 0 && Spread(w, cand, background[..], i)
    ensures queued <= queued' && |queued'| - |q'| == |queued| - |q|
  {
    var x, y := i % w, i / w;
    NeighboursFillable(w, h, cand, ground, i);
    q', queued' := SeedNeighbours(w, h, cand, background, i, x, y, q, queued, ground);
    SpreadStep(w, h, cand, i, background[..]);
  }

  /** The four guarded seeds around the pixel `i` at column `x` and row `y`. */
  method SeedNeighbours(w: nat, h: nat, cand: seq<bool>, background: array<bool>, i: nat, x: int, y: int,
                        q: seq<int>, ghost queued: seq<int>, ghost ground: set<int>)
    returns (q': seq<int>, ghost queued': seq<int>)
    requires FillOk(cand, background[..], ground, queued, q)
    requires (x > 0 ==> Fillable(cand, ground, i - 1)) && (x + 1 < w ==> Fillable(cand, ground, i + 1))
    requires (y > 0 ==> Fillable(cand, ground, i - w)) && (y + 1 < h ==> Fillable(cand, ground, i + w))
    modifies background
    ensures FillOk(cand, background[..], ground, queued', q')
    ensures Grows(old(background[..]), background[..])
    ensures queued <= queued' && |queued'| - |q'| == |queued| - |q|
    ensures (x > 0 ==> Marked(cand, background[..], i - 1)) && (x + 1 < w ==> Marked(cand, background[..], i + 1))
    ensures (y > 0 ==> Marked(cand, background[..], i - w)) && (y + 1 < h ==> Marked(cand, background[..], i + w))
  {
    q', queued' := SeedBoth(cand, background, x > 0, i - 1, x + 1 < w, i + 1, q, queued, ground);
    ghost var sides := background[..];
    q', queued' := SeedBoth(cand, background, y > 0, i - w, y + 1 < h, i + w, q', queued', ground);
    StaysMarked(cand, sides, background[..], x > 0, i - 1);
    StaysMarked(cand, sides, background[..], x + 1 < w, i + 1);
  }

  lemma NeighboursFillable(w: nat, h: nat, cand: seq<bool>, ground: set<int>, i: nat)
    requires |cand| == w * h && ClosedGround(w, cand, ground) && i in ground
    ensures X(w, i) > 0 ==> Fillable(cand, ground, i - 1)
    ensures X(w, i) + 1 < w ==> Fillable(cand, ground, i + 1)
    ensures Y(w, i) > 0 ==> Fillable(cand, ground, i - w)
    ensures Y(w, i) + 1 < h ==> Fillable(cand, ground, i + w)
  {
    forall j | Step(w, h, i, j) ensures Fillable(cand, ground, j) {
      StepIsAdjacent(w, h, i, j);
    }
  }

  /** After its four guarded seeds, a pixel has been spread from. */
  lemma SpreadStep(w: nat, h: nat, cand: seq<bool>, i: nat, bg: seq<bool>)
    requires w > 0 && |cand| == w * h == |bg| && i < |cand|
    requires X(w, i) > 0 ==> Marked(cand, bg, i - 1)
    requires X(w, i) + 1 < w ==> Marked(cand, bg, i + 1)
    requires Y(w, i) > 0 ==> Marked(cand, bg, i - w)
    requires Y(w, i) + 1 < h ==> Marked(cand, bg, i + w)
    ensures Spread(w, cand, bg, i)
  {
    forall j | 0 <= j < |cand| && cand[j] && Dist(w, i, j) == 1 ensures bg[j] {
      StepIffAdjacent(w, h, i, j);
    }
  }

  lemma PoppedStep(w: nat, cand: seq<bool>, before: seq<bool>, after: seq<bool>,
                   queued: seq<int>, queued': seq<int>, popped: nat)
    requires w > 0 && |cand| == |before| && Grows(before, after)
    requires popped < |queued| && queued <= queued'
    requires PoppedSpread(w, cand, before, queued, popped) && Spread(w, cand, after, queued[popped])
    ensures PoppedSpread(w, cand, after, queued', popped + 1)
  {
    forall k | 0 <= k < popped + 1 ensures Spread(w, cand, after, queued'[k]) {
      assert queued'[k] == queued[k];
      if k < popped {
        assert Spread(w, cand, before, queued[k]);
      }
    }
  }

  ghost function BackgroundSet(w: nat, h: nat, cand: seq<bool>): set<int> {
    set i | 0 <= i < |cand| && Background(w, h, cand, i)
  }

  lemma BackgroundSetIsClosed(w: nat, h: nat, cand: seq<bool>)
    ensures HoldsBorder(w, h, cand, BackgroundSet(w, h, cand)) && ClosedGround(w, cand, BackgroundSet(w, h, cand))
  {
    var ground := BackgroundSet(w, h, cand);
    forall i | 0 <= i < |cand| && cand[i] && w > 0 && Border(w, h, i) ensures i in ground {
      BorderIsBackground(w, h, cand, i);
    }
    forall i | i in ground ensures 0 <= i < |cand| && w > 0 {
      BackgroundIsCandidate(w, h, cand, i);
    }
    forall i, j | i in ground && 0 <= j < |cand| && cand[j] && Dist(w, i, j) == 1 ensures j in ground {
      BackgroundSpreads(w, h, cand, i, j);
    }
  }

  /** Take the next pixel off the queue and spread from it. */
  method SpreadNext(w: nat, h: nat, cand: seq<bool>, background: array<bool>, q: seq<int>, ghost queued: seq<int>, ghost ground: set<int>)
    returns (q': seq<int>, ghost queued': seq<int>)
    requires |cand| == w * h && ClosedGround(w, cand, ground) && q != []
    requires FillOk(cand, background[..], ground, queued, q) && BorderMarked(w, h, cand, background[..])
    requires PoppedSpread(w, cand, background[..], queued, |queued| - |q|)
    modifies background
    ensures FillOk(cand, background[..], ground, queued', q') && BorderMarked(w, h, cand, background[..])
    ensures |queued'| - |q'| == |queued| - |q| + 1
    ensures PoppedSpread(w, cand, background[..], queued', |queued'| - |q'|)
  {
    var i := q[0];
    ghost var popped := |queued| - |q|;
    assert queued[popped] == i && background[..][i];
    q', queued' := SpreadFrom(w, h, cand, background, i, q[1..], queued, ground);
    PoppedStep(w, cand, old(background[..]), background[..], queued, queued', popped);
    BorderStaysMarked(w, h, cand, old(background[..]), background[..]);
  }

  /** The flood fill marks exactly the background, queues each pixel at most once, and ends. */
  method FloodFill(w: nat, h: nat, cand: seq<bool>) returns (background: array<bool>, ghost queued: seq<int>)
    requires |cand| == w * h
    ensures fresh(background) && background.Length == |cand|
    ensures forall i :: 0 <= i < |cand| ==> (background[i] <==> Background(w, h, cand, i))
    ensures Distinct(queued) && forall i :: i in queued <==> 0 <= i < |cand| && background[i]
  {
    background := new bool[|cand|](_ => false);
    ghost var ground := BackgroundSet(w, h, cand);
    BackgroundSetIsClosed(w, h, cand);
    var q;
    q, queued := SeedBorder(w, h, cand, background, ground);
    while q != []
      invariant FillOk(cand, background[..], ground, queued, q)
      invariant BorderMarked(w, h, cand, background[..])
      invariant PoppedSpread(w, cand, background[..], queued, |queued| - |q|)
      decreases |cand| - (|queued| - |q|)
    {
      PigeonHole(queued, |cand|);
      q, queued := SpreadNext(w, h, cand, background, q, queued, ground);
    }
    FillIsExact(w, h, cand, background[..], ground, queued);
  }

  /** A finished fill that started from the border has marked exactly the background. */
  lemma FillIsExact(w: nat, h: nat, cand: seq<bool>, bg: seq<bool>, ground: set<int>, queued: seq<int>)
    requires |cand| == w * h && ground == BackgroundSet(w, h, cand)
    requires FillOk(cand, bg, ground, queued, []) && PoppedSpread(w, cand, bg, queued, |queued|)
    requires BorderMarked(w, h, cand, bg)
    ensures forall i :: 0 <= i < |cand| ==> (bg[i] <==> Background(w, h, cand, i))
    ensures forall i :: i in queued <==> 0 <= i < |cand| && bg[i]
  {
    forall i | 0 <= i < |cand| && Background(w, h, cand, i) ensures bg[i] {
      var p :| BorderPath(w, h, cand, p) && p[|p| - 1] == i;
      AllSpread(w, cand, bg, ground, queued);
      ClosedHoldsPath(w, h, cand, bg, p, |p| - 1);
    }
  }

  lemma AllSpread(w: nat, cand: seq<bool>, bg: seq<bool>, ground: set<int>, queued: seq<int>)
    requires w > 0 && FillOk(cand, bg, ground, queued, []) && PoppedSpread(w, cand, bg, queued, |queued|)
    ensures forall i, j :: 0 <= i < |cand| && 0 <= j < |cand| && bg[i] && cand[j] && Dist(w, i, j) == 1 ==> bg[j]
  {
    forall i, j | 0 <= i < |cand| && 0 <= j < |cand| && bg[i] && cand[j] && Dist(w, i, j) == 1 ensures bg[j] {
      assert i in queued;
      var k :| 0 <= k < |queued| && queued[k] == i;
      assert Spread(w, cand, bg, queued[k]);
    }
  }

  // ----- Dilation ---------------------------------------------------------------------------

  /** The pixel `j` is within distance `d` of a marked pixel. */
  ghost predicate Within(w: nat, marks: seq<bool>, j: nat, d: nat)
    requires w > 0
  {
    exists i :: 0 <= i < |marks| && marks[i] && Dist(w, i, j) <= d
  }

  /** The four guarded writes around the pixel `i` at column `x` and row `y`. */
  method MarkNeighbours(w: nat, h: nat, expanded: array<bool>, i: nat, x: int, y: int)
    requires i < expanded.Length == w * h && w > 0 && x == X(w, i) && y == Y(w, i)
    modifies expanded
    ensures forall j :: 0 <= j < expanded.Length ==> (expanded[j] <==> old(expanded[j]) || Step(w, h, i, j))
  {
    GuardedWrites(w, h, i);
    if x > 0 {
      expanded[i - 1] := true;
    }
    if x + 1 < w {
      expanded[i + 1] := true;
    }
    if y > 0 {
      expanded[i - w] := true;
    }
    if y + 1 < h {
      expanded[i + w] := true;
    }
  }

  /** One round: a copy of the marks in which every neighbour of a mark is marked too. */
  method Dilate(w: nat, h: nat, near: array<bool>) returns (expanded: array<bool>)
    requires near.Length == w * h
    ensures fresh(expanded) && expanded.Length == near.Length
    ensures forall j :: 0 <= j < near.Length ==> w > 0 && (expanded[j] <==> Within(w, near[..], j, 1))
  {
    expanded := new bool[near.Length](i requires 0 <= i < near.Length reads near => near[i]);
    for i := 0 to near.Length
      invariant forall j :: 0 <= j < near.Length ==> w > 0 && (expanded[j] <==> DilatedBy(w, near[..], j, i))
    {
      ghost var before := expanded[..];
      if near[i] {
        var x, y := i % w, i / w;
        MarkNeighbours(w, h, expanded, i, x, y);
      }
      DilatedStep(w, h, near[..], before, expanded[..], i);
    }
    forall j | 0 <= j < near.Length ensures w > 0 && (expanded[j] <==> Within(w, near[..], j, 1)) {
      DilatedAll(w, near[..], j);
    }
  }

  /** The marks after the first `n` pixels have been spread from. */
  ghost predicate DilatedBy(w: nat, near: seq<bool>, j: nat, n: nat)
    requires w > 0 && j < |near| && n <= |near|
  {
    near[j] || exists i :: 0 <= i < n && near[i] && Dist(w, i, j) == 1
  }

  lemma GuardedWrites(w: nat, h: nat, i: nat)
    requires i < w * h
    ensures w > 0
    ensures X(w, i) > 0 ==> 0 <= i - 1
    ensures X(w, i) + 1 < w ==> i + 1 < w * h
    ensures Y(w, i) > 0 ==> 0 <= i - w
    ensures Y(w, i) + 1 < h ==> i + w < w * h
  {
    assert w > 0;
    forall j | Step(w, h, i, j) ensures 0 <= j < w * h {
      StepIsAdjacent(w, h, i, j);
    }
    assert Step(w, h, i, i + 1) || X(w, i) + 1 >= w;
    assert Step(w, h, i, i + w) || Y(w, i) + 1 >= h;
    assert Step(w, h, i, i - w) || Y(w, i) <= 0;
    assert Step(w, h, i, i - 1) || X(w, i) <= 0;
  }

  lemma DilatedStep(w: nat, h: nat, near: seq<bool>, before: seq<bool>, after: seq<bool>, i: nat)
    requires w > 0 && |near| == w * h == |before| == |after| && i < |near|
    requires forall j :: 0 <= j < |near| ==> (before[j] <==> DilatedBy(w, near, j, i))
    requires near[i] ==> forall j :: 0 <= j < |near| ==> (after[j] <==> before[j] || Step(w, h, i, j))
    requires !near[i] ==> after == before
    ensures forall j :: 0 <= j < |near| ==> (after[j] <==> DilatedBy(w, near, j, i + 1))
  {
    forall j | 0 <= j < |near| ensures after[j] <==> DilatedBy(w, near, j, i + 1) {
      StepIffAdjacent(w, h, i, j);
      if DilatedBy(w, near, j, i + 1) && !near[j] {
        var k :| 0 <= k < i + 1 && near[k] && Dist(w, k, j) == 1;
        assert k < i ==> DilatedBy(w, near, j, i);
      }
    }
  }

  lemma DilatedAll(w: nat, near: seq<bool>, j: nat)
    requires w > 0 && j < |near|
    ensures DilatedBy(w, near, j, |near|) <==> Within(w, near, j, 1)
  {
    if near[j] {
      SameIndex(w, j, j);
    }
    if Within(w, near, j, 1) {
      var i :| 0 <= i < |near| && near[i] && Dist(w, i, j) <= 1;
      SameIndex(w, i, j);
    }
  }

  /** Two rounds of dilation reach exactly the pixels within Manhattan distance two. */
  lemma TwoRounds(w: nat, h: nat, marks: seq<bool>, once: seq<bool>, j: nat)
    requires w > 0 && |marks| == w * h == |once| && j < |marks|
    requires forall i :: 0 <= i < |marks| ==> (once[i] <==> Within(w, marks, i, 1))
    ensures Within(w, once, j, 1) <==> Within(w, marks, j, 2)
  {
    if Within(w, once, j, 1) {
      var m :| 0 <= m < |once| && once[m] && Dist(w, m, j) <= 1;
      var i :| 0 <= i < |marks| && marks[i] && Dist(w, i, m) <= 1;
      assert Dist(w, i, j) <= 2;
    }
    if Within(w, marks, j, 2) {
      var i :| 0 <= i < |marks| && marks[i] && Dist(w, i, j) <= 2;
      SameIndex(w, i, i);
      SameIndex(w, j, j);
      if Dist(w, i, j) == 2 {
        var m := HalfWay(w, h, i, j);
        assert once[m];
      } else {
        assert once[j];
      }
    }
  }

  // ----- The per-pixel pass -----------------------------------------------------------------

  function Max(a: int, b: int): int {
    if a >= b then a else b
  }

  function Min(a: int, b: int): int {
    if a <= b then a else b
  }

  /** The pixel written for `p`, given what the earlier passes found out about its place. */
  function OutPixel(p: Pixel, background: bool, candidate: bool, near: bool): Pixel {
    if background then p.(a := 0)
    else if candidate then p
    else if near && p.a != 0 then
      var maxRb := Max(p.r, p.b);
      var dominance := p.g - maxRb;
      if p.g >= 120 && dominance >= 80 then p.(a := 0)
      else if dominance > 8 then p.(g := Min(255, maxRb + 8))
      else p
    else p
  }

  /** The image key_green returns, by paths and distances. */
  ghost function Keyed(img: Image): (r: Image)
    ensures r.w == img.w && r.h == img.h
  {
    var cand := Candidates(img.pixels);
    RawImage(img.w, img.h, seq(|img.pixels|, i requires 0 <= i < |img.pixels| =>
      OutPixel(img.pixels[i], Background(img.w, img.h, cand, i), cand[i], NearBackground(img.w, img.h, cand, i))))
  }

  /** The pixel `j` is within Manhattan distance two of the background. */
  ghost predicate NearBackground(w: nat, h: nat, cand: seq<bool>, j: nat) {
    w > 0 && exists i :: 0 <= i < |cand| && Background(w, h, cand, i) && Dist(w, i, j) <= 2
  }

  method KeyGreen(img: Image) returns (r: Image)
    ensures r == Keyed(img)
  {
    var w, h, pixels := img.w, img.h, img.pixels;
    var candidate := Candidates(pixels);
    var background, _ := FloodFill(w, h, candidate);
    var once := Dilate(w, h, background);
    var near := Dilate(w, h, once);
    var out := WritePixels(pixels, background, candidate, near);
    KeyedBy(img, background[..], once[..], near[..]);
    assert out == Keyed(img).pixels;
    r := RawImage(w, h, out);
  }

  /** The per-pixel pass. */
  method WritePixels(pixels: seq<Pixel>, background: array<bool>, candidate: seq<bool>, near: array<bool>)
    returns (out: seq<Pixel>)
    requires |pixels| == |candidate| == background.Length == near.Length
    ensures |out| == |pixels|
    ensures forall k :: 0 <= k < |out| ==> out[k] == OutPixel(pixels[k], background[..][k], candidate[k], near[..][k])
  {
    out := [];
    for i := 0 to |pixels|
      invariant |out| == i
      invariant forall k :: 0 <= k < i ==> out[k] == OutPixel(pixels[k], background[k], candidate[k], near[k])
    {
      out := out + [OutPixel(pixels[i], background[i], candidate[i], near[i])];
    }
  }

  /** The marks the passes compute are the ones the image is keyed by. */
  lemma KeyedBy(img: Image, bg: seq<bool>, once: seq<bool>, near: seq<bool>)
    requires |bg| == |once| == |near| == |img.pixels|
    requires forall i :: 0 <= i < |bg| ==> (bg[i] <==> Background(img.w, img.h, Candidates(img.pixels), i))
    requires forall j :: 0 <= j < |bg| ==> img.w > 0 && (once[j] <==> Within(img.w, bg, j, 1))
    requires forall j :: 0 <= j < |bg| ==> img.w > 0 && (near[j] <==> Within(img.w, once, j, 1))
    ensures forall j :: 0 <= j < |bg| ==>
              Keyed(img).pixels[j] == OutPixel(img.pixels[j], bg[j], Candidates(img.pixels)[j], near[j])
  {
    forall j | 0 <= j < |bg| ensures near[j] <==> NearBackground(img.w, img.h, Candidates(img.pixels), j) {
      TwoRounds(img.w, img.h, bg, once, j);
    }
  }

  /** A candidate is opaque, has at least 95 green, and at least 22 more green than the larger of red and blue. */
  lemma GreenIs(p: Pixel)
    ensures IsGreen(p) <==> p.a > 0 && p.g >= 95 && p.g >= Max(p.r, p.b) + 22
  {
  }

  // ----- What keying means ------------------------------------------------------------------

  /**
   Red and blue never change; alpha is cleared exactly on the background, and kept elsewhere, so the
   pass's own key-out branch never fires; a candidate that no path joins to the border is kept, and so is
   a transparent pixel.
   */
  lemma KeyedPixel(img: Image, i: nat)
    requires i < |img.pixels|
    ensures
      var cand := Candidates(img.pixels);
      var p, q := img.pixels[i], Keyed(img).pixels[i];
      && q.r == p.r && q.b == p.b && q.g <= p.g
      && (Background(img.w, img.h, cand, i) ==> q == p.(a := 0))
      && (!Background(img.w, img.h, cand, i) ==> q.a == p.a)
      && (!Background(img.w, img.h, cand, i) && cand[i] ==> q == p)
      && (!NearBackground(img.w, img.h, cand, i) ==> q == p)
      && (p.a == 0 ==> q == p)
  {
    var cand := Candidates(img.pixels);
    if Background(img.w, img.h, cand, i) {
      BackgroundIsCandidate(img.w, img.h, cand, i);
      SameIndex(img.w, i, i);
    }
  }

  /** Next to the background every opaque pixel that is kept and is no candidate has lost its spill. */
  lemma SpillIsBounded(img: Image, i: nat)
    requires i < |img.pixels|
    ensures
      var p, q := img.pixels[i], Keyed(img).pixels[i];
      NearBackground(img.w, img.h, Candidates(img.pixels), i) && q.a != 0 && !IsGreen(p) ==> q.g == Min(p.g, Max(p.r, p.b) + 8)
  {
    var p, q := img.pixels[i], Keyed(img).pixels[i];
    if NearBackground(img.w, img.h, Candidates(img.pixels), i) && q.a != 0 && !IsGreen(p) {
      KeyedPixel(img, i);
      Despilled(p);
      assert q == OutPixel(p, false, false, true);
    }
  }

  lemma Despilled(p: Pixel)
    requires p.a != 0 && !IsGreen(p)
    ensures OutPixel(p, false, false, true) == p.(g := Min(p.g, Max(p.r, p.b) + 8))
  {
  }

  /** What is left to key after keying: the candidates that were not background. */
  lemma KeyedCandidates(img: Image, i: nat)
    requires i < |img.pixels|
    ensures IsGreen(Keyed(img).pixels[i]) <==>
            IsGreen(img.pixels[i]) && !Background(img.w, img.h, Candidates(img.pixels), i)
  {
  }

  /** No path of leftover candidates starts on the border. */
  lemma KeyedHasNoBackground(img: Image, i: nat)
    ensures !Background(img.w, img.h, Candidates(Keyed(img).pixels), i)
  {
    var cand, again := Candidates(img.pixels), Candidates(Keyed(img).pixels);
    if Background(img.w, img.h, again, i) {
      var p :| BorderPath(img.w, img.h, again, p) && p[|p| - 1] == i;
      KeyedCandidates(img, p[0]);
      BorderIsBackground(img.w, img.h, cand, p[0]);
      assert false;
    }
  }

  /** Keying a keyed image changes nothing. */
  lemma KeyingIsIdempotent(img: Image)
    ensures Keyed(Keyed(img)) == Keyed(img)
  {
    var once := Keyed(img);
    var cand := Candidates(once.pixels);
    forall i | 0 <= i < |once.pixels| ensures Keyed(once).pixels[i] == once.pixels[i] {
      KeyedHasNoBackground(img, i);
      if NearBackground(img.w, img.h, cand, i) {
        var j :| 0 <= j < |cand| && Background(img.w, img.h, cand, j) && Dist(img.w, j, i) <= 2;
        KeyedHasNoBackground(img, j);
        assert false;
      }
    }
    assert Keyed(once).pixels == once.pixels;
  }
}
