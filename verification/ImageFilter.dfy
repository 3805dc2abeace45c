/** The filtered image, its division into columns among the threads, and the loops of one thread. */
module ImageFilter {
  import opened Arithmetic

  datatype Task = Task(input: seq<seq<int>>, filter: seq<seq<real>>, width: nat, height: nat, threads: nat)

  predicate Valid(t: Task) {
    && t.threads >= 1
    && |t.input| == t.height && (forall x :: 0 <= x < t.height ==> |t.input[x]| == t.width)
    && forall i :: 0 <= i < |t.filter| ==> |t.filter[i]| == |t.filter|
  }

  // ---------------------------------------------------------------- one pixel

  /** Half the size of the filter, rounded up. */
  function Centre(t: Task): nat {
    (|t.filter| + 1) / 2
  }

  /** The share of filter cell (i, j) in pixel (x, y): cells before the first row or column repeat it,
      cells behind the last one count nothing. All four count from 1. */
  function Term(t: Task, x: int, y: int, i: nat, j: nat): real
    requires Valid(t) && 1 <= i <= |t.filter| && 1 <= j <= |t.filter|
  {
    var row, column := Max(1, x - Centre(t) + i) - 1, Max(1, y - Centre(t) + j) - 1;
    if row < t.height && column < t.width then t.input[row][column] as real * t.filter[i - 1][j - 1] else 0.0
  }

  function RowSum(t: Task, x: int, y: int, i: nat, j: nat): real
    requires Valid(t) && 1 <= i <= |t.filter| && j <= |t.filter|
  {
    if j == 0 then 0.0 else RowSum(t, x, y, i, j - 1) + Term(t, x, y, i, j)
  }

  function Sum(t: Task, x: int, y: int, i: nat): real
    requires Valid(t) && i <= |t.filter|
  {
    if i == 0 then 0.0 else Sum(t, x, y, i - 1) + RowSum(t, x, y, i, |t.filter|)
  }

  /** To the nearest number, halves away from zero. */
  function Round(r: real): (k: int)
    ensures -0.5 <= k as real - r <= 0.5
    ensures k as real - r == 0.5 ==> r > 0.0
    ensures k as real - r == -0.5 ==> r < 0.0
  {
    if r >= 0.0 then (r + 0.5).Floor else -((0.5 - r).Floor)
  }

  function Pixel(t: Task, x: int, y: int): int
    requires Valid(t)
  {
    Round(Sum(t, x, y, |t.filter|))
  }

  // ---------------------------------------------------------------- which cell goes with which pixel

  /** The image continued beyond its edges: its first row and column repeat without end, and behind the
      last ones everything is 0.  Rows and columns count from 1. */
  function Beyond(t: Task, row: int, column: int): int
    requires Valid(t)
  {
    if row > t.height || column > t.width || t.height == 0 || t.width == 0 then 0
    else if row < 1 && column < 1 then t.input[0][0]
    else if row < 1 then t.input[0][column - 1]
    else if column < 1 then t.input[row - 1][0]
    else t.input[row - 1][column - 1]
  }

  /** One in row p and column q, and zero elsewhere. */
  predicate HasOneCell(filter: seq<seq<real>>, p: nat, q: nat) {
    && 1 <= p <= |filter| && 1 <= q <= |filter|
    && forall i, j :: 0 <= i < |filter| && 0 <= j < |filter[i]| ==>
         filter[i][j] == if i + 1 == p && j + 1 == q then 1.0 else 0.0
  }

  lemma CellTerm(t: Task, x: int, y: int, i: nat, j: nat, p: nat, q: nat)
    requires Valid(t) && HasOneCell(t.filter, p, q) && 1 <= i <= |t.filter| && 1 <= j <= |t.filter|
    ensures Term(t, x, y, i, j) ==
            if i == p && j == q then Beyond(t, x + p - Centre(t), y + q - Centre(t)) as real else 0.0
  {
    var f := t.filter[i - 1][j - 1];
    if i == p && j == q {
      assert f == 1.0;
    } else {
      assert f == 0.0;
    }
  }

  lemma {:induction false} CellRow(t: Task, x: int, y: int, i: nat, j: nat, p: nat, q: nat)
    requires Valid(t) && HasOneCell(t.filter, p, q) && 1 <= i <= |t.filter| && j <= |t.filter|
    ensures RowSum(t, x, y, i, j) ==
            if i == p && j >= q then Beyond(t, x + p - Centre(t), y + q - Centre(t)) as real else 0.0
  {
    if j > 0 {
      CellRow(t, x, y, i, j - 1, p, q);
      CellTerm(t, x, y, i, j, p, q);
    }
  }

  lemma {:induction false} CellSum(t: Task, x: int, y: int, i: nat, p: nat, q: nat)
    requires Valid(t) && HasOneCell(t.filter, p, q) && i <= |t.filter|
    ensures Sum(t, x, y, i) == if i >= p then Beyond(t, x + p - Centre(t), y + q - Centre(t)) as real else 0.0
  {
    if i > 0 {
      CellSum(t, x, y, i - 1, p, q);
      CellRow(t, x, y, i, |t.filter|, p, q);
    }
  }

  /** A filter of a single one in row p and column q moves the image: the pixel comes from p - c rows
      below and q - c columns to the right, c being half the size rounded up. */
  lemma CellMoves(t: Task, x: int, y: int, p: nat, q: nat)
    requires Valid(t) && HasOneCell(t.filter, p, q)
    ensures Pixel(t, x, y) == Beyond(t, x + p - (|t.filter| + 1) / 2, y + q - (|t.filter| + 1) / 2)
  {
    CellSum(t, x, y, |t.filter|, p, q);
  }

  /** With the one in its centre it gives back the image, at its edges too, for filters of odd and even
      size. */
  lemma IdentityKeeps(t: Task, x: int, y: int)
    requires Valid(t) && HasOneCell(t.filter, Centre(t), Centre(t)) && 1 <= x <= t.height && 1 <= y <= t.width
    ensures Pixel(t, x, y) == t.input[x - 1][y - 1]
  {
    CellMoves(t, x, y, Centre(t), Centre(t));
  }

  /** h is a times f plus b times g, cell by cell. */
  predicate Combines(h: seq<seq<real>>, a: real, f: seq<seq<real>>, b: real, g: seq<seq<real>>) {
    && |h| == |f| == |g|
    && (forall i :: 0 <= i < |h| ==> |h[i]| == |f[i]| == |g[i]|)
    && forall i, j :: 0 <= i < |h| && 0 <= j < |h[i]| ==> h[i][j] == a * f[i][j] + b * g[i][j]
  }

  lemma Distributes(v: real, a: real, f: real, b: real, g: real)
    ensures v * (a * f + b * g) == a * (v * f) + b * (v * g)
  {
    assert v * (a * f) == a * (v * f) && v * (b * g) == b * (v * g);
  }

  predicate IsMix(h: real, a: real, f: real, b: real, g: real) {
    h == a * f + b * g
  }

  lemma MixesAddUp(h: real, h': real, a: real, f: real, f': real, b: real, g: real, g': real)
    requires IsMix(h, a, f, b, g) && IsMix(h', a, f', b, g')
    ensures IsMix(h + h', a, f + f', b, g + g')
  {
    assert a * (f + f') == a * f + a * f' && b * (g + g') == b * g + b * g';
  }

  lemma LinearTerm(t: Task, a: real, f: seq<seq<real>>, b: real, g: seq<seq<real>>, x: int, y: int, i: nat, j: nat)
    requires Valid(t) && Combines(t.filter, a, f, b, g) && 1 <= i <= |t.filter| && 1 <= j <= |t.filter|
    ensures Valid(t.(filter := f)) && Valid(t.(filter := g))
    ensures IsMix(Term(t, x, y, i, j), a, Term(t.(filter := f), x, y, i, j), b, Term(t.(filter := g), x, y, i, j))
  {
    var row, column := Max(1, x - Centre(t) + i) - 1, Max(1, y - Centre(t) + j) - 1;
    if row < t.height && column < t.width {
      Distributes(t.input[row][column] as real, a, f[i - 1][j - 1], b, g[i - 1][j - 1]);
    }
  }

  lemma {:induction false} LinearRow(t: Task, a: real, f: seq<seq<real>>, b: real, g: seq<seq<real>>,
                                     x: int, y: int, i: nat, j: nat)
    requires Valid(t) && Combines(t.filter, a, f, b, g) && 1 <= i <= |t.filter| && j <= |t.filter|
    ensures Valid(t.(filter := f)) && Valid(t.(filter := g))
    ensures IsMix(RowSum(t, x, y, i, j),
                  a, RowSum(t.(filter := f), x, y, i, j), b, RowSum(t.(filter := g), x, y, i, j))
  {
    var tf, tg := t.(filter := f), t.(filter := g);
    if j > 0 {
      LinearRow(t, a, f, b, g, x, y, i, j - 1);
      LinearTerm(t, a, f, b, g, x, y, i, j);
      MixesAddUp(RowSum(t, x, y, i, j - 1), Term(t, x, y, i, j), a, RowSum(tf, x, y, i, j - 1), Term(tf, x, y, i, j),
                 b, RowSum(tg, x, y, i, j - 1), Term(tg, x, y, i, j));
    }
  }

  /** The sum is linear in the filter; with the single cells this fixes it for every filter. */
  lemma {:induction false} LinearSum(t: Task, a: real, f: seq<seq<real>>, b: real, g: seq<seq<real>>,
                                     x: int, y: int, i: nat)
    requires Valid(t) && Combines(t.filter, a, f, b, g) && i <= |t.filter|
    ensures Valid(t.(filter := f)) && Valid(t.(filter := g))
    ensures IsMix(Sum(t, x, y, i), a, Sum(t.(filter := f), x, y, i), b, Sum(t.(filter := g), x, y, i))
  {
    var tf, tg, n := t.(filter := f), t.(filter := g), |t.filter|;
    if i > 0 {
      LinearSum(t, a, f, b, g, x, y, i - 1);
      LinearRow(t, a, f, b, g, x, y, i, n);
      MixesAddUp(Sum(t, x, y, i - 1), RowSum(t, x, y, i, n), a, Sum(tf, x, y, i - 1), RowSum(tf, x, y, i, n),
                 b, Sum(tg, x, y, i - 1), RowSum(tg, x, y, i, n));
    }
  }

  // ---------------------------------------------------------------- the columns of a thread

  /** Thread k has the columns behind Lo(k) up to Hi(k). */
  function Lo(t: Task, k: nat): nat
    requires t.threads >= 1
  {
    k * t.width / t.threads
  }

  function Hi(t: Task, k: nat): nat
    requires t.threads >= 1
  {
    if k + 1 != t.threads then (k + 1) * t.width / t.threads else t.width
  }

  /** Each thread begins where the one before it ends; the first begins at 0, the last ends at the
      width. */
  lemma Adjacent(t: Task, k: nat)
    requires t.threads >= 1 && k < t.threads
    ensures Lo(t, 0) == 0 && Lo(t, k) <= Hi(t, k) == Lo(t, k + 1) <= t.width
    ensures Lo(t, t.threads) == t.width
  {
    var w, n := t.width, t.threads;
    Multiple(n * w, n, w);
    Multiple(0, n, 0);
    assert (k + 1) * w == k * w + w;
    QuotientsAscend(k * w, (k + 1) * w, n);
    if w > 0 { Order(k + 1, n, w); }
    QuotientsAscend((k + 1) * w, n * w, n);
  }

  lemma {:induction false} Ascending(t: Task, k: nat, m: nat)
    requires t.threads >= 1 && k <= m <= t.threads
    ensures Lo(t, k) <= Lo(t, m)
  {
    if k < m {
      Ascending(t, k, m - 1);
      Adjacent(t, m - 1);
    }
  }

  /** The segments are as even as can be: each begins at its share of the width, rounded down, and no two
      differ by more than one column. */
  lemma Balanced(t: Task, k: nat)
    requires t.threads >= 1 && k < t.threads
    ensures Lo(t, k) * t.threads <= k * t.width < (Lo(t, k) + 1) * t.threads
    ensures t.width / t.threads <= Hi(t, k) - Lo(t, k) <= t.width / t.threads + 1
  {
    var w, n := t.width, t.threads;
    Adjacent(t, k);
    Multiple(n * w, n, w);
    ShareOf(k * w, n, Lo(t, k));
    ShareOf((k + 1) * w, n, Hi(t, k));
    assert (k + 1) * w == k * w + w;
    Widths(k * w, w, n, Lo(t, k), Hi(t, k));
  }

  lemma ShareOf(v: int, n: nat, share: int)
    requires n >= 1 && share == v / n
    ensures share * n <= v < (share + 1) * n
  {
    Quotient(v, n, share);
    Quotient(v, n, share + 1);
  }

  lemma Widths(v: int, w: int, n: nat, lo: int, hi: int)
    requires n >= 1 && lo * n <= v < (lo + 1) * n && hi * n <= v + w < (hi + 1) * n
    ensures w / n <= hi - lo <= w / n + 1
  {
    var d := hi - lo;
    Quotient(w, n, d - 1);
    Quotient(w, n, d + 1);
    assert (lo + 1) * n == lo * n + n && (hi + 1) * n == hi * n + n;
    assert (d - 1) * n == hi * n - lo * n - n && (d + 1) * n == hi * n - lo * n + n;
  }

  predicate Has(t: Task, k: nat, y: int)
    requires t.threads >= 1
  {
    Lo(t, k) < y <= Hi(t, k)
  }

  /** The thread that has column y, among the first m. */
  function Search(t: Task, y: int, m: nat): (k: nat)
    requires 1 <= t.threads && m <= t.threads && 1 <= y <= Lo(t, m)
    ensures k < m && Has(t, k, y)
  {
    Adjacent(t, 0);
    assert m > 0;
    Adjacent(t, m - 1);
    if Lo(t, m - 1) < y then m - 1 else Search(t, y, m - 1)
  }

  function Owner(t: Task, y: int): (k: nat)
    requires t.threads >= 1 && 1 <= y <= t.width
    ensures k < t.threads && Has(t, k, y)
  {
    Adjacent(t, 0);
    Search(t, y, t.threads)
  }

  /** Each column of the image has exactly one thread, and no thread has a column outside of it. */
  lemma OneOwner(t: Task, k: nat, y: int)
    requires t.threads >= 1 && k < t.threads
    ensures Has(t, k, y) <==> 1 <= y <= t.width && k == Owner(t, y)
  {
    Adjacent(t, k);
    if Has(t, k, y) {
      var o := Owner(t, y);
      Adjacent(t, o);
      if o < k { Ascending(t, o + 1, k); }
      if k < o { Ascending(t, k + 1, o); }
    }
  }

  // ---------------------------------------------------------------- the loops

  /** The innermost loop. */
  method ConvolveRow(t: Task, x: int, y: int, i: nat, start: real) returns (result: real)
    requires Valid(t) && 1 <= i <= |t.filter|
    ensures result == start + RowSum(t, x, y, i, |t.filter|)
  {
    var c := (|t.filter| + 1) / 2;
    result := start;
    var j: nat := 1;
    while j <= |t.filter|
      invariant 1 <= j <= |t.filter| + 1 && result == start + RowSum(t, x, y, i, j - 1)
    {
      var row := (if 1 >= x - c + i then 1 else x - c + i) - 1;
      var column := (if 1 >= y - c + j then 1 else y - c + j) - 1;
      result := result + if row < t.height && column < t.width
                         then t.input[row][column] as real * t.filter[i - 1][j - 1] else 0.0;
      j := j + 1;
    }
  }

  /** The two inner loops. */
  method Convolve(t: Task, x: int, y: int) returns (result: real)
    requires Valid(t)
    ensures result == Sum(t, x, y, |t.filter|)
  {
    result := 0.0;
    var i: nat := 1;
    while i <= |t.filter|
      invariant 1 <= i <= |t.filter| + 1 && result == Sum(t, x, y, i - 1)
    {
      result := ConvolveRow(t, x, y, i, result);
      i := i + 1;
    }
  }

  /** One thread alone: its columns get the filtered pixels, the others keep theirs, and only its own
      flag is raised. */
  method Calculate(t: Task, segment: nat, output: array2<int>, finished: array<bool>)
    requires Valid(t) && segment < t.threads == finished.Length
    requires output.Length0 == t.height && output.Length1 == t.width
    modifies output, finished
    ensures forall a, b :: 0 <= a < t.height && 0 <= b < t.width ==>
              output[a, b] == if Has(t, segment, b + 1) then Pixel(t, a + 1, b + 1) else old(output[a, b])
    ensures finished[..] == old(finished[..])[segment := true]
  {
    Adjacent(t, segment);
    var maxWidth := if segment + 1 != t.threads then (segment + 1) * t.width / t.threads else t.width;
    var x := 1;
    while x <= t.height
      invariant 1 <= x <= t.height + 1
      invariant forall a, b :: 0 <= a < t.height && 0 <= b < t.width ==>
                  output[a, b] ==
                    if a + 1 < x && Has(t, segment, b + 1) then Pixel(t, a + 1, b + 1) else old(output[a, b])
      invariant finished[..] == old(finished[..])
    {
      var y := segment * t.width / t.threads + 1;
      while y <= maxWidth
        invariant Lo(t, segment) + 1 <= y <= maxWidth + 1
        invariant forall a, b :: 0 <= a < t.height && 0 <= b < t.width ==>
                    output[a, b] ==
                      if (a + 1 < x || (a + 1 == x && b + 1 < y)) && Has(t, segment, b + 1)
                      then Pixel(t, a + 1, b + 1) else old(output[a, b])
        invariant finished[..] == old(finished[..])
      {
        var result := Convolve(t, x, y);
        output[x - 1, y - 1] := Round(result);
        y := y + 1;
      }
      x := x + 1;
    }
    finished[segment] := true;
  }
}
