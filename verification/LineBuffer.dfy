/** The ring of lines between the producers and the consumers: the parts of `addToBuffer` and
    `removeFromBuffer` that run under the lock, in both versions of the program. */
module LineBuffer {
  import opened Counting

  datatype Line = Line(text: string, number: nat)

  datatype Conf = Conf(bufferLength: nat, stringLength: int, searchMode: int, timeout: int)

  /** The globals; `source` is what the file still holds, `printed` what went to the output. */
  datatype Ring = Ring(buffer: seq<Line>, consumerPos: nat, producerPos: nat, elements: nat,
                       lineNumber: nat, source: seq<string>, endOfFile: bool, printed: seq<Line>)

  /** What a call does next: it waits, returns 0 or returns -1; `wake` says that it wakes the other
      side. */
  datatype Code = Wait | Again | Stop
  datatype Result = Result(ring: Ring, code: Code, wake: bool)

  // ---------------------------------------------------------------- selection

  /** How many values a size_t has. */
  const SIZE_RANGE := 0x1_0000_0000_0000_0000

  /** strlen(text) - 1 and the configured length, both as unsigned 64-bit numbers. */
  function Length(text: string): nat {
    if text == "" then SIZE_RANGE - 1 else |text| - 1
  }

  function Wanted(c: Conf): int {
    if c.stringLength < 0 then c.stringLength + SIZE_RANGE else c.stringLength
  }

  predicate Selected(c: Conf, l: Line) {
    || (Length(l.text) == Wanted(c) && c.searchMode == 0)
    || (Length(l.text) < Wanted(c) && c.searchMode == 1)
    || (Length(l.text) > Wanted(c) && c.searchMode == 2)
  }

  function Selection(c: Conf, ls: seq<Line>): seq<Line> {
    if ls == [] then []
    else Selection(c, ls[..|ls| - 1]) + if Selected(c, ls[|ls| - 1]) then [ls[|ls| - 1]] else []
  }

  /** A chunk of n characters, its line end among them, against the configured length. */
  predicate LengthFits(c: Conf, n: nat) {
    || (c.searchMode == 0 && n == c.stringLength + 1)
    || (c.searchMode == 1 && n <= c.stringLength)
    || (c.searchMode == 2 && n > c.stringLength + 1)
  }

  /** Mode 0 selects the lines of the configured length, 1 the shorter ones, 2 the longer ones, and no
      other mode selects any. */
  lemma SelectedByLength(c: Conf, l: Line)
    requires l.text != "" && 0 <= c.stringLength < SIZE_RANGE
    ensures Selected(c, l) <==> LengthFits(c, |l.text|)
  {
  }

  /** A negative length of a 32-bit int is converted to a number above every length, and so is the length
      of an empty chunk. */
  lemma SelectedOutside(c: Conf, l: Line)
    requires -0x8000_0000 <= c.stringLength < 0x8000_0000 && |l.text| < 0x8000_0000
    ensures c.stringLength < 0 && l.text != "" ==> (Selected(c, l) <==> c.searchMode == 1)
    ensures l.text == "" && c.stringLength != -1 ==> (Selected(c, l) <==> c.searchMode == 2)
    ensures l.text == "" && c.stringLength == -1 ==> (Selected(c, l) <==> c.searchMode == 0)
  {
  }

  // ---------------------------------------------------------------- the operations

  function Advance(p: nat, c: Conf): nat {
    if p + 1 == c.bufferLength then 0 else p + 1
  }

  predicate Shaped(r: Ring, c: Conf) {
    && |r.buffer| == c.bufferLength
    && r.elements <= c.bufferLength
    && if c.bufferLength == 0 then r.consumerPos == r.producerPos == 0
       else && r.consumerPos < c.bufferLength && r.producerPos < c.bufferLength
            && r.producerPos == Wrap(r.consumerPos + r.elements, c)
  }

  function Wrap(p: nat, c: Conf): int {
    if p < c.bufferLength then p else p - c.bufferLength
  }

  function Add(r: Ring, c: Conf): Result
    requires Shaped(r, c)
  {
    if r.elements == c.bufferLength then Result(r, Wait, false)
    else if r.source != [] then
      var line := Line(r.source[0], r.lineNumber + 1);
      var r' := r.(buffer := r.buffer[r.producerPos := line], lineNumber := r.lineNumber + 1,
                   source := r.source[1..], elements := r.elements + 1, producerPos := Advance(r.producerPos, c));
      Result(r', Again, r'.elements == 1)
    else if c.timeout == 0 then Result(r.(endOfFile := true), Stop, true)
    else Result(r, Again, r.elements == 1)
  }

  function Remove(r: Ring, c: Conf): Result
    requires Shaped(r, c)
  {
    if r.elements == 0 then Result(r, if r.endOfFile then Stop else Wait, false)
    else
      var line := r.buffer[r.consumerPos];
      var r' := r.(consumerPos := Advance(r.consumerPos, c), elements := r.elements - 1,
                   printed := if Selected(c, line) then r.printed + [line] else r.printed);
      Result(r', Again, r'.elements == c.bufferLength - 1)
  }

  // ---------------------------------------------------------------- the operations in place

  /** The globals as the threads update them under the lock. */
  class Globals {
    var buffer: array<Line>
    var consumerPos: nat
    var producerPos: nat
    var elements: nat
    var lineNumber: nat
    var source: seq<string>
    var endOfFile: bool
    var printed: seq<Line>
    const conf: Conf

    function View(): Ring
      reads this, buffer
    {
      Ring(buffer[..], consumerPos, producerPos, elements, lineNumber, source, endOfFile, printed)
    }

    constructor (file: seq<string>, c: Conf)
      ensures View() == Start(file, c) && conf == c && fresh(buffer)
    {
      buffer := new Line[c.bufferLength](_ => Line("", 0));
      consumerPos, producerPos, elements, lineNumber := 0, 0, 0, 0;
      source, endOfFile, printed := file, false, [];
      conf := c;
      new;
      assert buffer[..] == Start(file, c).buffer;
    }

    method AddToBuffer() returns (code: Code, wake: bool)
      requires Shaped(View(), conf)
      modifies this, buffer
      ensures buffer == old(buffer) && Result(View(), code, wake) == Add(old(View()), conf)
    {
      if elements == conf.bufferLength { return Wait, false; }
      if source != [] {
        lineNumber := lineNumber + 1;
        buffer[producerPos] := Line(source[0], lineNumber);
        source := source[1..];
        elements := elements + 1;
        producerPos := producerPos + 1;
        if producerPos == conf.bufferLength { producerPos := 0; }
      } else if conf.timeout == 0 {
        endOfFile := true;
        return Stop, true;
      }
      return Again, elements == 1;
    }

    method RemoveFromBuffer() returns (code: Code, wake: bool)
      requires Shaped(View(), conf)
      modifies this
      ensures buffer == old(buffer) && Result(View(), code, wake) == Remove(old(View()), conf)
    {
      if elements == 0 && !endOfFile { return Wait, false; }
      if endOfFile && elements == 0 { return Stop, false; }
      var line := buffer[consumerPos];
      if Selected(conf, line) { printed := printed + [line]; }
      consumerPos := consumerPos + 1;
      if consumerPos == conf.bufferLength { consumerPos := 0; }
      elements := elements - 1;
      return Again, elements == conf.bufferLength - 1;
    }
  }

  // ---------------------------------------------------------------- one abstract queue

  function Start(file: seq<string>, c: Conf): Ring {
    Ring(seq(c.bufferLength, _ => Line("", 0)), 0, 0, 0, 0, file, false, [])
  }

  /** The lines of the file with their numbers. */
  function Numbered(file: seq<string>): (ls: seq<Line>)
    ensures |ls| == |file|
  {
    seq(|file|, i requires 0 <= i < |file| => Line(file[i], i + 1))
  }

  /** What the ring holds, oldest first. */
  function Contents(r: Ring, c: Conf): (ls: seq<Line>)
    requires Shaped(r, c)
    ensures |ls| == r.elements
    ensures forall i :: 0 <= i < |ls| ==> ls[i] == r.buffer[Wrap(r.consumerPos + i, c)]
  {
    seq(r.elements, i requires 0 <= i < r.elements => r.buffer[Wrap(r.consumerPos + i, c)])
  }

  /** The ring is a queue over the file: `taken` lines have left it, the next ones are in it, and the
      selected ones among those taken have been printed. */
  predicate Queues(r: Ring, c: Conf, file: seq<string>, taken: nat) {
    && Shaped(r, c)
    && taken + r.elements == r.lineNumber <= |file|
    && Contents(r, c) == Numbered(file)[taken..r.lineNumber]
    && r.source == file[r.lineNumber..]
    && r.printed == Selection(c, Numbered(file)[..taken])
    && (r.endOfFile ==> r.source == [] && c.timeout == 0)
  }

  lemma StartQueues(file: seq<string>, c: Conf)
    ensures Queues(Start(file, c), c, file, 0)
  {
  }

  lemma AddAppends(r: Ring, c: Conf)
    requires Shaped(r, c) && r.elements < c.bufferLength && r.source != []
    ensures Shaped(Add(r, c).ring, c)
    ensures Contents(Add(r, c).ring, c) == Contents(r, c) + [Line(r.source[0], r.lineNumber + 1)]
  {
    var r' := Add(r, c).ring;
    var ls := Contents(r', c);
    forall i | 0 <= i < r.elements
      ensures ls[i] == Contents(r, c)[i]
    {
      assert Wrap(r.consumerPos + i, c) != r.producerPos;
    }
    assert ls[r.elements] == r'.buffer[r.producerPos];
  }

  lemma RemoveDrops(r: Ring, c: Conf)
    requires Shaped(r, c) && r.elements > 0
    ensures Shaped(Remove(r, c).ring, c)
    ensures r.buffer[r.consumerPos] == Contents(r, c)[0]
    ensures Contents(Remove(r, c).ring, c) == Contents(r, c)[1..]
  {
    assert Wrap(r.consumerPos, c) == r.consumerPos;
    var r' := Remove(r, c).ring;
    forall i | 0 <= i < r'.elements
      ensures Contents(r', c)[i] == Contents(r, c)[i + 1]
    {
      assert Wrap(r'.consumerPos + i, c) == Wrap(r.consumerPos + (i + 1), c);
    }
  }

  lemma AddQueues(r: Ring, c: Conf, file: seq<string>, taken: nat)
    requires Queues(r, c, file, taken)
    ensures Queues(Add(r, c).ring, c, file, taken)
  {
    if r.elements < c.bufferLength && r.source != [] {
      AddAppends(r, c);
      var n := r.lineNumber;
      assert r.source[0] == file[n] && r.source[1..] == file[n + 1..];
      assert Numbered(file)[taken..n] + [Numbered(file)[n]] == Numbered(file)[taken..n + 1];
    }
  }

  lemma RemoveQueues(r: Ring, c: Conf, file: seq<string>, taken: nat)
    requires Queues(r, c, file, taken)
    ensures Queues(Remove(r, c).ring, c, file, taken + if r.elements > 0 then 1 else 0)
  {
    if r.elements > 0 {
      RemoveDrops(r, c);
      var ls := Numbered(file);
      assert ls[taken..r.lineNumber][1..] == ls[taken + 1..r.lineNumber];
      assert ls[..taken + 1][..taken] == ls[..taken];
    }
  }

  /** The same with the number of lines taken read off the ring itself. */
  predicate IsQueue(r: Ring, c: Conf, file: seq<string>) {
    r.elements <= r.lineNumber && Queues(r, c, file, r.lineNumber - r.elements)
  }

  lemma AddKeepsQueue(r: Ring, c: Conf, file: seq<string>)
    requires IsQueue(r, c, file)
    ensures IsQueue(Add(r, c).ring, c, file)
  {
    AddQueues(r, c, file, r.lineNumber - r.elements);
  }

  lemma RemoveKeepsQueue(r: Ring, c: Conf, file: seq<string>)
    requires IsQueue(r, c, file)
    ensures IsQueue(Remove(r, c).ring, c, file)
  {
    RemoveQueues(r, c, file, r.lineNumber - r.elements);
  }

  // ---------------------------------------------------------------- whom a call wakes, and who waits

  /** A producer waits exactly at a full ring, and is told to stop only once the end of the file is
      known.  Adding wakes the consumers when the ring stops being empty and at the end of the file (and, with a
      timeout, at the end of the file only while one line is left). */
  lemma AddWakes(r: Ring, c: Conf)
    requires Shaped(r, c)
    ensures var a := Add(r, c);
            a.wake <==> if a.ring.lineNumber > r.lineNumber then Contents(r, c) == []
                        else a.code == Stop || (a.code == Again && |Contents(r, c)| == 1)
    ensures var a := Add(r, c);
            && (a.code == Wait <==> |Contents(r, c)| == c.bufferLength)
            && (a.code == Stop ==> a.ring.endOfFile && r.source == [])
  {
  }

  /** A consumer waits exactly at an empty ring before the end of the file.  Removing wakes the producers
      when the ring stops being full. */
  lemma RemoveWakes(r: Ring, c: Conf)
    requires Shaped(r, c)
    ensures Remove(r, c).wake <==> |Contents(r, c)| == c.bufferLength && |Contents(r, c)| > 0
    ensures Remove(r, c).code == if Contents(r, c) != [] then Again else if r.endOfFile then Stop else Wait
  {
  }

  // ---------------------------------------------------------------- what has been printed

  lemma {:induction false} SelectionIs(c: Conf, ls: seq<Line>)
    ensures forall l :: l in Selection(c, ls) <==> l in ls && Selected(c, l)
  {
    if ls != [] {
      SelectionIs(c, ls[..|ls| - 1]);
      assert ls == ls[..|ls| - 1] + [ls[|ls| - 1]];
    }
  }

  predicate InOrder(ls: seq<Line>) {
    forall i, j :: 0 <= i < j < |ls| ==> ls[i].number < ls[j].number
  }

  lemma {:induction false} SelectionInOrder(c: Conf, ls: seq<Line>)
    requires InOrder(ls)
    ensures InOrder(Selection(c, ls))
  {
    if ls != [] {
      var before, last := ls[..|ls| - 1], ls[|ls| - 1];
      SelectionInOrder(c, before);
      SelectionIs(c, before);
      forall i | 0 <= i < |Selection(c, before)|
        ensures Selection(c, before)[i].number < last.number
      {
        assert Selection(c, before)[i] in before;
      }
    }
  }

  /** In terms of the file: every chunk whose length fits is in the output with its number, no other
      is, and they come in the order of the file. */
  predicate Prints(c: Conf, file: seq<string>, printed: seq<Line>) {
    && InOrder(printed)
    && (forall l :: l in printed ==> 1 <= l.number <= |file| && l.text == file[l.number - 1])
    && forall i :: 0 <= i < |file| && file[i] != "" && 0 <= c.stringLength < SIZE_RANGE ==>
         (Line(file[i], i + 1) in printed <==> LengthFits(c, |file[i]|))
  }

  lemma SelectionPrints(c: Conf, file: seq<string>)
    ensures Prints(c, file, Selection(c, Numbered(file)))
  {
    var ls := Numbered(file);
    SelectionIs(c, ls);
    SelectionInOrder(c, ls);
    forall i | 0 <= i < |file| && file[i] != "" && 0 <= c.stringLength < SIZE_RANGE
      ensures Line(file[i], i + 1) in Selection(c, ls) <==> LengthFits(c, |file[i]|)
    {
      assert ls[i] in ls;
      SelectedByLength(c, ls[i]);
    }
  }

  // ---------------------------------------------------------------- what is left to do

  /** Lines to read, lines to take and threads to end, whatever stages the threads go through. */
  function ToDo<T(==)>(r: Ring, producers: seq<T>, consumers: seq<T>, done: T): int {
    2 * |r.source| + r.elements + |producers| + |consumers| - Number(producers, done) - Number(consumers, done)
  }

  lemma ToDoIsNatural<T>(r: Ring, producers: seq<T>, consumers: seq<T>, done: T)
    ensures ToDo(r, producers, consumers, done) >= 0
  {
    Bounded(producers, done);
    Bounded(consumers, done);
  }

  predicate AllAre<T(==)>(producers: seq<T>, consumers: seq<T>, done: T) {
    (forall t :: t in producers ==> t == done) && (forall t :: t in consumers ==> t == done)
  }

  /** An empty ring behind the end of the file: the whole file went through it, and exactly the
      selected lines were printed, in the order of the file. */
  lemma WholeFilePrinted(r: Ring, c: Conf, file: seq<string>)
    requires IsQueue(r, c, file) && r.endOfFile && r.elements == 0
    ensures r.lineNumber == |file| && r.printed == Selection(c, Numbered(file))
    ensures Prints(c, file, r.printed)
  {
    SelectionPrints(c, file);
    assert Numbered(file)[..|file|] == Numbered(file);
  }
}
