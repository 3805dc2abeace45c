/** The insertion sort on a flat file of records, in place, through two record buffers. */
module RecordFile {
  import opened Arithmetic
  import opened StableSort
  import opened Words

  // ---------------------------------------------------------------- records in a file

  /** The first n records of `size` bytes. */
  function Records(bytes: seq<Byte>, size: nat, n: nat): (rs: seq<Record>)
    requires size >= 1 && size * n <= |bytes|
    ensures |rs| == n
  {
    if n == 0 then [] else
      assert size * n == size * (n - 1) + size;
      Records(bytes, size, n - 1) + [bytes[size * (n - 1)..size * n]]
  }

  lemma Fits(size: nat, k: nat, n: nat)
    requires k <= n
    ensures size * k <= size * n
    ensures size * (k + 1) == size * k + size
  {
    if size > 0 { Order(k, n, size); }
  }

  lemma {:induction false} RecordAt(bytes: seq<Byte>, size: nat, n: nat, k: nat)
    requires size >= 1 && size * n <= |bytes| && k < n
    ensures size * k + size <= size * n
    ensures Records(bytes, size, n)[k] == bytes[size * k..size * k + size]
  {
    Fits(size, k, n);
    Fits(size, k + 1, n);
    Fits(size, n - 1, n);
    if k < n - 1 {
      RecordAt(bytes, size, n - 1, k);
    }
  }

  /** The file with record k overwritten. */
  function Overwritten(bytes: seq<Byte>, at: nat, b: seq<Byte>): (r: seq<Byte>)
    requires at + |b| <= |bytes|
    ensures |r| == |bytes|
  {
    bytes[..at] + b + bytes[at + |b|..]
  }

  lemma OtherRecord(bytes: seq<Byte>, size: nat, k: nat, m: nat, b: Record)
    requires |b| == size && size * k + size <= |bytes| && size * m + size <= |bytes|
    ensures Overwritten(bytes, size * k, b)[size * m..size * m + size] ==
            if m == k then b else bytes[size * m..size * m + size]
  {
    if m < k {
      Fits(size, m + 1, k);
    } else if m > k {
      Fits(size, k + 1, m);
      Fits(size, k, k);
    }
    Fits(size, m, m);
  }

  lemma OverwrittenRecord(bytes: seq<Byte>, after: seq<Byte>, size: nat, n: nat, k: nat, b: Record, m: nat)
    requires |b| == size && size * n <= |bytes| && k < n && m < n && size * k + size <= size * n
    requires after == Overwritten(bytes, size * k, b)
    ensures Records(after, size, n)[m] == if m == k then b else Records(bytes, size, n)[m]
  {
    RecordAt(bytes, size, n, m);
    RecordAt(after, size, n, m);
    OtherRecord(bytes, size, k, m, b);
  }

  /** Overwriting record k changes that record and nothing else. */
  lemma OverwriteIsUpdate(bytes: seq<Byte>, size: nat, n: nat, k: nat, b: Record)
    requires |b| == size && size * n <= |bytes| && k < n && size * k + size <= size * n
    ensures Records(Overwritten(bytes, size * k, b), size, n) == Records(bytes, size, n)[k := b]
    ensures Rest(Overwritten(bytes, size * k, b), size * n) == Rest(bytes, size * n)
  {
    forall m: nat | m < n
      ensures Records(Overwritten(bytes, size * k, b), size, n)[m] == if m == k then b else Records(bytes, size, n)[m]
    {
      OverwrittenRecord(bytes, Overwritten(bytes, size * k, b), size, n, k, b, m);
    }
    RestOfOverwritten(bytes, size * k, b, size * n);
  }

  /** What stands behind the records. */
  function Rest(bytes: seq<Byte>, end: nat): seq<Byte>
    requires end <= |bytes|
  {
    bytes[end..]
  }

  lemma RestOfOverwritten(bytes: seq<Byte>, at: nat, b: seq<Byte>, end: nat)
    requires at + |b| <= end <= |bytes|
    ensures Rest(Overwritten(bytes, at, b), end) == Rest(bytes, end)
  {
  }

  // ---------------------------------------------------------------- reading and writing

  /** A file on disk; it grows when something is written behind its end. */
  class File {
    var bytes: seq<Byte>

    constructor (image: seq<Byte>)
      ensures bytes == image
    {
      bytes := image;
    }
  }

  /** What a read of `size` bytes gets: less at the end of the file, nothing behind it. */
  function Got(bytes: seq<Byte>, at: nat, size: nat): (r: seq<Byte>)
    ensures |r| <= size && (at + |r| < |bytes| ==> |r| == size)
    ensures if at >= |bytes| then r == [] else at + |r| <= |bytes| && r == bytes[at..at + |r|]
  {
    if at >= |bytes| then [] else if at + size <= |bytes| then bytes[at..at + size] else bytes[at..]
  }

  /** What a write leaves: a gap behind the end is filled with zeros. */
  function Put(bytes: seq<Byte>, at: nat, b: seq<Byte>): (r: seq<Byte>)
    ensures |r| == Max(|bytes|, at + |b|)
    ensures at + |b| <= |bytes| ==> r == Overwritten(bytes, at, b)
  {
    if at + |b| <= |bytes| then Overwritten(bytes, at, b)
    else if at <= |bytes| then bytes[..at] + b
    else bytes + seq(at - |bytes|, _ => 0) + b
  }

  /** Byte by byte: what was written, what was there, and zeros in a gap. */
  lemma PutIs(bytes: seq<Byte>, at: nat, b: seq<Byte>, i: nat)
    requires i < Max(|bytes|, at + |b|)
    ensures Put(bytes, at, b)[i] == if at <= i < at + |b| then b[i - at] else if i < |bytes| then bytes[i] else 0
  {
  }

  /** A short read leaves the rest of the buffer as it was. */
  method Read(file: File, at: nat, buffer: array<Byte>)
    modifies buffer
    ensures var got := Got(file.bytes, at, buffer.Length); buffer[..] == got + old(buffer[..])[|got|..]
  {
    var got := Got(file.bytes, at, buffer.Length);
    forall t | 0 <= t < |got| {
      buffer[t] := got[t];
    }
  }

  method Write(file: File, at: nat, buffer: array<Byte>)
    modifies file
    ensures file.bytes == Put(old(file.bytes), at, buffer[..])
  {
    file.bytes := Put(file.bytes, at, buffer[..]);
  }

  /** The file holds n records. */
  predicate Holds(bytes: seq<Byte>, size: nat, n: nat) {
    size >= 1 && size * n <= |bytes|
  }

  /** Seek to record k and read it. */
  method ReadRecord(file: File, size: nat, k: nat, buffer: array<Byte>, ghost n: nat)
    requires buffer.Length == size >= 1
    modifies buffer
    ensures var got := Got(file.bytes, size * k, size); buffer[..] == got + old(buffer[..])[|got|..]
    ensures Holds(file.bytes, size, n) && k < n ==> buffer[..] == Records(file.bytes, size, n)[k]
  {
    if Holds(file.bytes, size, n) && k < n { RecordAt(file.bytes, size, n, k); }
    Read(file, size * k, buffer);
  }

  /** The file after record k was written. */
  function PutAt(bytes: seq<Byte>, size: nat, k: nat, b: seq<Byte>): seq<Byte> {
    Put(bytes, size * k, b)
  }

  /** If the file holds n records, the write replaces the k-th of them and nothing else. */
  lemma PutRecord(was: seq<Byte>, size: nat, n: nat, k: nat, b: Record)
    requires Holds(was, size, n) && |b| == size && k < n
    ensures var bytes := PutAt(was, size, k, b);
            && Holds(bytes, size, n)
            && Records(bytes, size, n) == Records(was, size, n)[k := b]
            && Rest(bytes, size * n) == Rest(was, size * n)
  {
    RecordAt(was, size, n, k);
    OverwriteIsUpdate(was, size, n, k, b);
  }

  /** Seek to record k and write it. */
  method WriteRecord(file: File, size: nat, k: nat, buffer: array<Byte>, ghost n: nat)
    requires buffer.Length == size >= 1
    modifies file
    ensures file.bytes == PutAt(old(file.bytes), size, k, buffer[..])
    ensures Holds(old(file.bytes), size, n) && k < n ==>
              && Holds(file.bytes, size, n)
              && Records(file.bytes, size, n) == Records(old(file.bytes), size, n)[k := buffer[..]]
              && Rest(file.bytes, size * n) == Rest(old(file.bytes), size * n)
  {
    if Holds(file.bytes, size, n) && k < n { PutRecord(file.bytes, size, n, k, buffer[..]); }
    Write(file, size * k, buffer);
  }

  // ---------------------------------------------------------------- the sort

  /** The records while those from q up to i have been moved one place up. */
  function Shifted(rs: seq<Record>, q: nat, i: nat): seq<Record>
    requires q <= i < |rs|
  {
    rs[..q + 1] + rs[q..i] + rs[i + 1..]
  }

  lemma ShiftStep(rs: seq<Record>, q: nat, i: nat)
    requires 0 < q <= i < |rs|
    ensures Shifted(rs, q, i)[q := rs[q - 1]] == Shifted(rs, q - 1, i)
    ensures Shifted(rs, q, i)[q - 1] == rs[q - 1]
  {
  }

  lemma ShiftEnd(rs: seq<Record>, q: nat, i: nat)
    requires q <= i < |rs|
    requires forall k :: q <= k < i ==> Key(rs[i]) < Key(rs[k])
    requires q > 0 ==> Key(rs[q - 1]) <= Key(rs[i])
    ensures Shifted(rs, q, i)[q := rs[i]] == Insert(rs[..i], rs[i]) + rs[i + 1..]
  {
    InsertAt(rs[..i], rs[i], q);
  }

  lemma {:induction false} InsertAt(s: seq<Record>, x: Record, q: nat)
    requires q <= |s|
    requires forall k :: q <= k < |s| ==> Key(x) < Key(s[k])
    requires q > 0 ==> Key(s[q - 1]) <= Key(x)
    ensures Insert(s, x) == s[..q] + [x] + s[q..]
  {
    if q < |s| {
      InsertAt(s[..|s| - 1], x, q);
    }
  }

  /** The records as the inner loop leaves them, and the bytes behind them. */
  ghost predicate Shifting(bytes: seq<Byte>, was: seq<Byte>, size: nat, n: nat, i: nat, q: nat) {
    Holds(was, size, n) && i < n ==>
      && Holds(bytes, size, n) && q <= i
      && Records(bytes, size, n) == Shifted(Records(was, size, n), q, i)
      && Rest(bytes, size * n) == Rest(was, size * n)
  }

  /** Between the bytes there were and those of i + 1 records. */
  predicate Bounded(bytes: seq<Byte>, was: seq<Byte>, size: nat, i: nat) {
    |was| <= |bytes| <= Max(|was|, size * i + size)
  }

  lemma PutBounded(bytes: seq<Byte>, was: seq<Byte>, size: nat, i: nat, k: nat, b: seq<Byte>)
    requires Bounded(bytes, was, size, i) && k <= i && |b| == size
    ensures Bounded(PutAt(bytes, size, k, b), was, size, i)
  {
    Fits(size, k, i);
  }

  lemma ShiftingWrite(bytes: seq<Byte>, was: seq<Byte>, size: nat, n: nat, i: nat, q: nat, b: Record)
    requires 0 < q <= i < n && Holds(was, size, n) && Shifting(bytes, was, size, n, i, q)
    requires b == Records(was, size, n)[q - 1] && |b| == size
    ensures Shifting(PutAt(bytes, size, q, b), was, size, n, i, q - 1)
  {
    PutRecord(bytes, size, n, q, b);
    ShiftStep(Records(was, size, n), q, i);
  }

  /** Record i belongs before those from q on. */
  predicate Precedes(rs: seq<Record>, i: nat, q: nat) {
    q <= i < |rs| && forall k :: q <= k < i ==> Key(rs[i]) < Key(rs[k])
  }

  lemma PrecedesOneMore(rs: seq<Record>, i: nat, q: nat)
    requires Precedes(rs, i, q) && q > 0 && Key(rs[i]) < Key(rs[q - 1])
    ensures Precedes(rs, i, q - 1)
  {
  }

  lemma ShiftingEnd(bytes: seq<Byte>, was: seq<Byte>, size: nat, n: nat, i: nat, q: nat, b: Record)
    requires i < n && Holds(was, size, n) && Shifting(bytes, was, size, n, i, q)
    requires Precedes(Records(was, size, n), i, q) && b == Records(was, size, n)[i] && |b| == size
    requires q > 0 ==> Key(Records(was, size, n)[q - 1]) <= Key(b)
    ensures Inserted(PutAt(bytes, size, q, b), was, size, n, i)
  {
    PutRecord(bytes, size, n, q, b);
    ShiftEnd(Records(was, size, n), q, i);
  }

  /** If there were n records, record i has gone to its place among those before it and nothing else
      has changed. */
  ghost predicate Inserted(bytes: seq<Byte>, was: seq<Byte>, size: nat, n: nat, i: nat) {
    Holds(was, size, n) && i < n ==>
      && Holds(bytes, size, n)
      && (var rs := Records(was, size, n); Records(bytes, size, n) == Insert(rs[..i], rs[i]) + rs[i + 1..])
      && Rest(bytes, size * n) == Rest(was, size * n)
  }

  /** One round of the outer loop: record i goes to its place among those before it. */
  method InsertRecord(file: File, size: nat, i: nat, buffer1: array<Byte>, buffer2: array<Byte>, ghost n: nat)
    requires buffer1 != buffer2 && buffer1.Length == buffer2.Length == size >= 1 && 1 <= i
    modifies file, buffer1, buffer2
    ensures Bounded(file.bytes, old(file.bytes), size, i)
    ensures Inserted(file.bytes, old(file.bytes), size, n, i)
  {
    ghost var was := file.bytes;
    ghost var full := Holds(was, size, n) && i < n;
    ghost var rs := if full then Records(was, size, n) else [];
    ReadRecord(file, size, i, buffer1, n);
    var j := i - 1;
    var again := true;
    ghost var q: nat := i;
    while again
      invariant q <= i && (again ==> 0 <= j && q == j + 1)
      invariant !again ==> -1 <= j < i - 1 && q == if buffer1[0] < buffer2[0] then j + 1 else j + 2
      invariant !again && buffer1[0] < buffer2[0] ==> j == -1
      invariant full && !again && buffer1[0] >= buffer2[0] ==> q > 0 && Key(rs[q - 1]) <= Key(rs[i])
      invariant full ==> Precedes(rs, i, q) && buffer1[..] == rs[i]
      invariant Shifting(file.bytes, was, size, n, i, q) && Bounded(file.bytes, was, size, i)
      decreases again, j
    {
      ReadRecord(file, size, j, buffer2, n);
      if full { ShiftStep(rs, q, i); }
      if buffer1[0] < buffer2[0] {
        PutBounded(file.bytes, was, size, i, j + 1, buffer2[..]);
        if full {
          ShiftingWrite(file.bytes, was, size, n, i, q, buffer2[..]);
          PrecedesOneMore(rs, i, q);
        }
        WriteRecord(file, size, j + 1, buffer2, n);
        q := j;
      }
      j := j - 1;
      again := buffer1[0] < buffer2[0] && j >= 0;
    }
    if full { ShiftingEnd(file.bytes, was, size, n, i, q, buffer1[..]); }
    PutBounded(file.bytes, was, size, i, q, buffer1[..]);
    var place := if buffer1[0] >= buffer2[0] then j + 2 else j + 1;
    WriteRecord(file, size, place, buffer1, n);
  }

  /** The records after the rounds before i. */
  function Rounds(rs: seq<Record>, i: nat): seq<Record>
    requires i <= |rs|
  {
    Sorted(rs[..i]) + rs[i..]
  }

  lemma RoundsStep(rs: seq<Record>, i: nat)
    requires i < |rs|
    ensures var now := Rounds(rs, i);
            Insert(now[..i], now[i]) + now[i + 1..] == Rounds(rs, i + 1)
  {
    var now := Rounds(rs, i);
    assert now[..i] == Sorted(rs[..i]) && now[i] == rs[i] && now[i + 1..] == rs[i + 1..];
    assert rs[..i + 1][..i] == rs[..i];
  }

  lemma RoundsStart(rs: seq<Record>)
    ensures rs != [] ==> Rounds(rs, 1) == rs
  {
    if rs != [] { assert rs[..1][..0] == [] && Sorted(rs[..1]) == rs[..1]; }
  }

  lemma RoundsDone(rs: seq<Record>)
    ensures Rounds(rs, |rs|) == Sorted(rs)
  {
    assert rs[..|rs|] == rs;
  }

  /** The records after the rounds before i, and the bytes behind them. */
  ghost predicate Sorting(bytes: seq<Byte>, was: seq<Byte>, size: nat, n: nat, i: nat) {
    Holds(was, size, n) && i <= n ==>
      && Holds(bytes, size, n)
      && Records(bytes, size, n) == Rounds(Records(was, size, n), i)
      && Rest(bytes, size * n) == Rest(was, size * n)
  }

  lemma SortingStep(bytes: seq<Byte>, before: seq<Byte>, was: seq<Byte>, size: nat, n: nat, i: nat)
    requires i < n && Sorting(before, was, size, n, i) && Inserted(bytes, before, size, n, i)
    ensures Sorting(bytes, was, size, n, i + 1)
  {
    if Holds(was, size, n) { RoundsStep(Records(was, size, n), i); }
  }

  lemma SortingStart(bytes: seq<Byte>, size: nat, n: nat)
    ensures n > 0 ==> Sorting(bytes, bytes, size, n, 1)
    ensures n == 0 ==> Sorting(bytes, bytes, size, n, 0)
  {
    if Holds(bytes, size, n) { RoundsStart(Records(bytes, size, n)); }
  }

  predicate Extended(bytes: seq<Byte>, was: seq<Byte>, size: nat, n: nat) {
    |was| <= |bytes| <= Max(|was|, size * n)
  }

  lemma ExtendedStep(bytes: seq<Byte>, before: seq<Byte>, was: seq<Byte>, size: nat, n: nat, i: nat)
    requires i < n && Extended(before, was, size, n) && Bounded(bytes, before, size, i)
    ensures Extended(bytes, was, size, n)
  {
    Fits(size, i + 1, n);
    Fits(size, i, n);
  }

  /** If the file holds the records, they end up stably sorted by first byte and the bytes behind them
      are as they were; a shorter file is never cut, and extended to at most n records. */
  method Sort(file: File, n: nat, size: nat)
    requires size >= 1
    modifies file
    ensures Holds(old(file.bytes), size, n) ==>
              && Holds(file.bytes, size, n)
              && Records(file.bytes, size, n) == Sorted(Records(old(file.bytes), size, n))
              && Rest(file.bytes, size * n) == Rest(old(file.bytes), size * n)
    ensures Extended(file.bytes, old(file.bytes), size, n)
  {
    ghost var was := file.bytes;
    var buffer1 := new Byte[size](_ => 0);
    var buffer2 := new Byte[size](_ => 0);
    var i: nat := 1;
    SortingStart(was, size, n);
    while i < n
      invariant 1 <= i && (n > 0 ==> i <= n)
      invariant Sorting(file.bytes, was, size, n, if n == 0 then 0 else i)
      invariant Extended(file.bytes, was, size, n)
    {
      ghost var before := file.bytes;
      InsertRecord(file, size, i, buffer1, buffer2, n);
      SortingStep(file.bytes, before, was, size, n, i);
      ExtendedStep(file.bytes, before, was, size, n, i);
      i := i + 1;
    }
    if Holds(was, size, n) { RoundsDone(Records(was, size, n)); }
  }

  /** Every record of the file is a record of the sorted file, ordered by first byte, equal ones in
      their order; a file already so is not changed. */
  lemma SortedFile(bytes: seq<Byte>, size: nat, n: nat)
    requires size >= 1 && size * n <= |bytes|
    ensures var rs, t := Records(bytes, size, n), Sorted(Records(bytes, size, n));
            && Ordered(t) && multiset(t) == multiset(rs) && SameByKey(t, rs)
            && (forall i, j :: 0 <= i < j < n ==> t[i][0] <= t[j][0])
            && (Ordered(rs) <==> t == rs)
  {
    var rs := Records(bytes, size, n);
    SortedIsStable(rs);
    if Ordered(rs) { StableSortIsUnique(Sorted(rs), rs); }
  }
}
