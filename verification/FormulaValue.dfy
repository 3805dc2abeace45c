/** The variable list `foo`, the substitution `mapuj`, the stack machine `value`, the generator
    `gen` and the deciders `isTautology` and `areTheSame`. */
module FormulaValue {
  import opened FormulaSyntax
  import opened FormulaText

  // ---------------------------------------------------------------- foo

  function Letters(w: string): set<char> {
    set c | c in w && IsLetter(c)
  }

  /** The letters of `s` with codes from `from` on, in increasing order. */
  function Ascending(s: set<char>, from: nat): (r: string)
    requires from <= 123
    ensures forall c :: c in r <==> c in s && from <= c as int < 123
    ensures forall i :: 0 <= i < |r| ==> from <= r[i] as int
    ensures forall i, j :: 0 <= i < j < |r| ==> r[i] < r[j]
    decreases 123 - from
  {
    if from == 123 then ""
    else (if from as char in s then [from as char] else "") + Ascending(s, from + 1)
  }

  /** The variables of a text, sorted and without repetition. */
  function Foo(w: string): (zm: string)
    ensures forall c :: c in zm <==> c in w && IsLetter(c)
    ensures forall i, j :: 0 <= i < j < |zm| ==> zm[i] < zm[j]
  {
    Ascending(Letters(w), 0)
  }

  lemma SameLettersSameFoo(u: string, w: string)
    requires Letters(u) == Letters(w)
    ensures Foo(u) == Foo(w)
  {
  }

  lemma FooDecidesLetters(u: string, w: string)
    ensures Foo(u) == Foo(w) <==> Letters(u) == Letters(w)
  {
    forall c | Foo(u) == Foo(w)
      ensures c in Letters(u) <==> c in Letters(w)
    {
      assert c in Foo(u) <==> c in Foo(w);
    }
  }

  // ---------------------------------------------------------------- mapuj

  function IndexOf(zm: string, c: char): (p: nat)
    requires c in zm
    ensures p < |zm| && zm[p] == c && c !in zm[..p]
  {
    if zm[0] == c then 0 else 1 + IndexOf(zm[1..], c)
  }

  /** The variable has no digit in the row. */
  predicate Lacks(c: char, zm: string, val: string) {
    c in zm && IndexOf(zm, c) >= |val|
  }

  predicate LacksSome(w: string, zm: string, val: string) {
    exists c :: c in w && Lacks(c, zm, val)
  }

  function Substitute(c: char, zm: string, val: string): char {
    if c in zm && IndexOf(zm, c) < |val| then val[IndexOf(zm, c)] else c
  }

  function Mapuj(w: string, zm: string, val: string): (l: string)
    ensures |l| == |w|
    ensures forall i :: 0 <= i < |w| ==> l[i] == Substitute(w[i], zm, val)
  {
    seq(|w|, i requires 0 <= i < |w| => Substitute(w[i], zm, val))
  }

  method MapujLoop(wyr: string, zm: string, val: string) returns (r: Outcome<string>)
    ensures r == if LacksSome(wyr, zm, val) then IndexError else Ok(Mapuj(wyr, zm, val))
  {
    var l := wyr;
    for i := 0 to |l|
      invariant |l| == |wyr|
      invariant forall k :: 0 <= k < i ==> !Lacks(wyr[k], zm, val)
      invariant forall k :: 0 <= k < i ==> l[k] == Substitute(wyr[k], zm, val)
      invariant forall k :: i <= k < |l| ==> l[k] == wyr[k]
    {
      if wyr[i] in zm {
        var p := IndexOf(zm, wyr[i]);
        if p >= |val| {
          assert Lacks(wyr[i], zm, val);
          return IndexError;
        }
        l := l[i := val[p]];
      }
    }
    assert l == Mapuj(wyr, zm, val);
    return Ok(l);
  }

  /** All variables of a text are looked up, so a row fails exactly when it is too short. */
  lemma ShortRow(w: string, val: string)
    ensures LacksSome(w, Foo(w), val) <==> |val| < |Foo(w)|
  {
    var zm := Foo(w);
    if |val| < |zm| {
      var c := zm[|zm| - 1];
      assert zm[IndexOf(zm, c)] == c && c in w;
      assert Lacks(c, zm, val);
    }
  }

  lemma MapujConcat(u: string, w: string, zm: string, val: string)
    ensures Mapuj(u + w, zm, val) == Mapuj(u, zm, val) + Mapuj(w, zm, val)
  {
  }

  // ---------------------------------------------------------------- the stack machine

  /** The value at which an operator's right operand settles the result, which is that value. */
  function Decisive(op: Op): bool {
    op != And
  }

  /** The result when the right operand does not settle it, from the next value on the stack. */
  function FromNext(op: Op, x: bool): bool {
    if op == Imp then !x else x
  }

  /** One operator on a stack whose top is at its end: both operands are popped as meant, the left
      one only when needed as written. */
  function Combine(op: Op, st: seq<bool>, v: Version): Outcome<seq<bool>> {
    if st == [] then IndexError
    else
      var y, rest := st[|st| - 1], st[..|st| - 1];
      if v == AsWritten && y == Decisive(op) then Ok(rest + [y])
      else if rest == [] then IndexError
      else
        var x := rest[|rest| - 1];
        Ok(rest[..|rest| - 1] + [if y == Decisive(op) then y else FromNext(op, x)])
  }

  function Step(st: seq<bool>, z: char, v: Version): Outcome<seq<bool>> {
    if z == '0' then Ok(st + [false])
    else if z == '1' then Ok(st + [true])
    else if IsOp(z) then Combine(OperatorOf(z), st, v)
    else Ok(st)
  }

  function Run(st: seq<bool>, w: string, v: Version): Outcome<seq<bool>>
    decreases w
  {
    if w == "" then Ok(st) else
      var st' :- Step(st, w[0], v);
      Run(st', w[1..], v)
  }

  function Top(r: Outcome<seq<bool>>): Outcome<bool> {
    match r
    case TypeError => TypeError
    case IndexError => IndexError
    case Ok(st) => if st == [] then IndexError else Ok(st[|st| - 1])
  }

  function Value(wyr: string, val: string, v: Version): Outcome<bool> {
    var zm := Foo(wyr);
    if |val| < |zm| then IndexError else Top(Run([], Mapuj(wyr, zm, val), v))
  }

  method ValueLoop(wyr: string, val: string, v: Version) returns (r: Outcome<bool>)
    ensures r == Value(wyr, val, v)
  {
    var zm := Foo(wyr);
    ShortRow(wyr, val);
    var m := MapujLoop(wyr, zm, val);
    if !m.Ok? { return m.PropagateFailure(); }
    var l := m.value;
    var st: seq<bool> := [];
    for i := 0 to |l|
      invariant Run([], l, v) == Run(st, l[i..], v)
    {
      var z := l[i];
      assert l[i..][0] == z && l[i..][1..] == l[i + 1..];
      var s := Step(st, z, v);
      if !s.Ok? { return s.PropagateFailure(); }
      st := s.value;
    }
    if st == [] { return IndexError; }
    return Ok(st[|st| - 1]);
  }

  lemma {:induction false} RunConcat(st: seq<bool>, u: string, w: string, v: Version)
    requires Run(st, u, v).Ok?
    ensures Run(st, u + w, v) == Run(Run(st, u, v).value, w, v)
    decreases u
  {
    if u == "" {
      assert u + w == w;
    } else {
      assert (u + w)[1..] == u[1..] + w;
      RunConcat(Step(st, u[0], v).value, u[1..], w, v);
    }
  }

  lemma RunOne(st: seq<bool>, z: char, v: Version)
    ensures Run(st, [z], v) == Step(st, z, v)
  {
    assert [z][1..] == "";
  }

  /** The characters the machine acts on. */
  function Code(w: string): string {
    if w == "" then "" else (if w[0] == '0' || w[0] == '1' || IsOp(w[0]) then [w[0]] else "") + Code(w[1..])
  }

  /** All others, blanks and parentheses among them, change nothing. */
  lemma {:induction false} RunIgnoresOthers(st: seq<bool>, w: string, v: Version)
    ensures Run(st, w, v) == Run(st, Code(w), v)
    decreases w
  {
    if w != "" {
      var next := Step(st, w[0], v);
      if next.Ok? { RunIgnoresOthers(next.value, w[1..], v); }
      if w[0] == '0' || w[0] == '1' || IsOp(w[0]) {
        assert Code(w)[1..] == Code(w[1..]);
      } else {
        assert Code(w) == Code(w[1..]);
      }
    }
  }

  // ---------------------------------------------------------------- running postfix code

  predicate Bits(val: string) {
    forall i :: 0 <= i < |val| ==> val[i] == '0' || val[i] == '1'
  }

  /** The assignment that a row of the truth table stands for. */
  function Assignment(zm: string, val: string): map<char, bool>
    requires |zm| <= |val|
  {
    map c | c in zm :: val[IndexOf(zm, c)] == '1'
  }

  /** The meaning of a tree on the machine: the values it leaves on any stack, its result last. */
  function Leave(e: Expr, a: map<char, bool>, v: Version): (r: seq<bool>)
    requires Vars(e) <= a.Keys
    ensures r != []
  {
    match e
    case Leaf(c) => [a[c]]
    case Node(op, l, r) =>
      var x, y := Leave(l, a, v), Leave(r, a, v);
      var st := x + y;
      Combine(op, st, v).value
  }

  predicate Proper(e: Expr) {
    match e
    case Leaf(c) => IsLetter(c)
    case Node(_, l, r) => Proper(l) && Proper(r)
  }

  /** An operator looks at no more than the two topmost values. */
  lemma CombineAbove(op: Op, base: seq<bool>, st: seq<bool>, v: Version)
    requires |st| > 1
    ensures Combine(op, st, v).Ok? && Combine(op, base + st, v) == Ok(base + Combine(op, st, v).value)
  {
    var n := |st|;
    assert (base + st)[..|base| + n - 1] == base + st[..n - 1];
    assert (base + st[..n - 1])[..|base| + n - 2] == base + st[..n - 1][..n - 2];
    assert forall z: bool :: base + st[..n - 1] + [z] == base + (st[..n - 1] + [z]);
    assert forall z: bool :: base + st[..n - 1][..n - 2] + [z] == base + (st[..n - 1][..n - 2] + [z]);
  }

  /** A binary node runs its operands and then its operator. */
  lemma RunNode(st: seq<bool>, u: string, w: string, op: Op, x: seq<bool>, y: seq<bool>, v: Version)
    requires Run(st, u, v) == Ok(st + x) && Run(st + x, w, v) == Ok(st + x + y)
    requires x != [] && y != []
    ensures Run(st, u + w + [Sign(op)], v) == Ok(st + Combine(op, x + y, v).value)
  {
    RunConcat(st, u, w, v);
    RunConcat(st, u + w, [Sign(op)], v);
    RunOne(st + x + y, Sign(op), v);
    assert st + x + y == st + (x + y);
    CombineAbove(op, st, x + y, v);
  }

  /** The machine computes `Leave`, whatever lies beneath on the stack. */
  lemma {:induction false} RunPostfix(e: Expr, zm: string, val: string, st: seq<bool>, v: Version)
    requires Proper(e) && |zm| <= |val| && Bits(val)
    requires forall c :: c in Vars(e) ==> c in zm
    requires forall c :: c in zm ==> IsLetter(c)
    ensures Run(st, Mapuj(Postfix(e), zm, val), v) == Ok(st + Leave(e, Assignment(zm, val), v))
  {
    var a := Assignment(zm, val);
    match e
    case Leaf(c) =>
      assert Mapuj(Postfix(e), zm, val) == [Substitute(c, zm, val)];
      RunOne(st, Substitute(c, zm, val), v);
    case Node(op, l, r) =>
      var s := [Sign(op)];
      assert Mapuj(s, zm, val) == s;
      MapujConcat(Postfix(l), Postfix(r), zm, val);
      MapujConcat(Postfix(l) + Postfix(r), s, zm, val);
      RunPostfix(l, zm, val, st, v);
      RunPostfix(r, zm, val, st + Leave(l, a, v), v);
      RunNode(st, Mapuj(Postfix(l), zm, val), Mapuj(Postfix(r), zm, val), op, Leave(l, a, v), Leave(r, a, v), v);
  }

  lemma CombineAsMeant(op: Op, x: bool, y: bool)
    ensures Combine(op, [x] + [y], AsMeant) == Ok([Apply(op, x, y)])
  {
    assert ([x] + [y])[..1] == [x];
    assert [x][..0] + [Apply(op, x, y)] == [Apply(op, x, y)];
  }

  /** With both operands popped the machine leaves exactly the value of the tree. */
  lemma {:induction false} LeaveAsMeant(e: Expr, a: map<char, bool>)
    requires Vars(e) <= a.Keys
    ensures Leave(e, a, AsMeant) == [Eval(e, a)]
  {
    if e.Node? {
      LeaveAsMeant(e.l, a);
      LeaveAsMeant(e.r, a);
      CombineAsMeant(e.op, Eval(e.l, a), Eval(e.r, a));
    }
  }

  /** The value the machine reports for a tree. */
  function Reported(e: Expr, a: map<char, bool>, v: Version): bool
    requires Vars(e) <= a.Keys
  {
    var r := Leave(e, a, v);
    r[|r| - 1]
  }

  lemma {:induction false} LettersOfPostfix(e: Expr)
    requires Proper(e)
    ensures Letters(Postfix(e)) == Vars(e)
  {
    match e
    case Leaf(c) =>
    case Node(op, l, r) =>
      LettersOfPostfix(l);
      LettersOfPostfix(r);
      assert forall c :: c in Postfix(e) <==> c in Postfix(l) || c in Postfix(r) || c == Sign(op);
      assert forall c :: c in Letters(Postfix(l)) <==> c in Postfix(l) && IsLetter(c);
      assert forall c :: c in Letters(Postfix(r)) <==> c in Postfix(r) && IsLetter(c);
  }

  lemma {:induction false} LettersOfText(f: Form)
    requires Lettered(f)
    ensures Letters(Text(f)) == Vars(Tree(f)) && Proper(Tree(f))
  {
    match f
    case Var(c) =>
    case Paren(g) =>
      LettersOfText(g);
      assert forall c :: c in Text(f) <==> c in Text(g) || c == '(' || c == ')';
      assert forall c :: c in Letters(Text(g)) <==> c in Text(g) && IsLetter(c);
    case Bin(op, l, r) =>
      LettersOfText(l);
      LettersOfText(r);
      assert forall c :: c in Text(f) <==> c in Text(l) || c in Text(r) || c == Sign(op);
      assert forall c :: c in Letters(Text(l)) <==> c in Text(l) && IsLetter(c);
      assert forall c :: c in Letters(Text(r)) <==> c in Text(r) && IsLetter(c);
  }

  lemma FooOfPostfix(e: Expr)
    requires Proper(e)
    ensures forall c :: c in Foo(Postfix(e)) <==> c in Vars(e)
    ensures forall c :: c in Foo(Postfix(e)) ==> IsLetter(c)
  {
    LettersOfPostfix(e);
    assert forall c :: c in Letters(Postfix(e)) <==> c in Postfix(e) && IsLetter(c);
  }

  lemma RunAlone(e: Expr, zm: string, val: string, v: Version)
    requires Proper(e) && |zm| <= |val| && Bits(val)
    requires forall c :: c in Vars(e) ==> c in zm
    requires forall c :: c in zm ==> IsLetter(c)
    ensures Top(Run([], Mapuj(Postfix(e), zm, val), v)) == Ok(Reported(e, Assignment(zm, val), v))
  {
    RunPostfix(e, zm, val, [], v);
    var left := Leave(e, Assignment(zm, val), v);
    assert [] + left == left;
  }

  /** Running the compiled text of a tree reports the value of its tree. */
  lemma ValueOfPostfix(e: Expr, w: string, zm: string, val: string, a: map<char, bool>, v: Version)
    requires Proper(e) && w == Postfix(e) && zm == Foo(w) && |zm| <= |val| && Bits(val) && a == Assignment(zm, val)
    ensures Vars(e) <= a.Keys
    ensures Value(w, val, v) == Ok(Reported(e, a, v))
  {
    FooOfPostfix(e);
    RunAlone(e, zm, val, v);
  }
}
