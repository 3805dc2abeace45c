/** The stack machine as written pops the left operand of an operator only when the right one does
    not settle the result.  This module gives the exact class of formulas on which it is right. */
module FormulaLazy {
  import opened FormulaSyntax
  import opened FormulaText
  import opened FormulaCompile
  import opened FormulaValue
  import opened FormulaDecide

  /** The results that a formula can leave on top of an operand that nobody popped. */
  function Litter(e: Expr): set<bool> {
    match e
    case Leaf(_) => {}
    case Node(op, l, _) => {Decisive(op)} + set g | g in Litter(l) :: FromNext(op, g)
  }

  /** No right operand can leave an unpopped operand under a result that does not settle its
      operator. */
  predicate Safe(e: Expr) {
    match e
    case Leaf(_) => true
    case Node(op, l, r) => Safe(l) && Safe(r) && !Decisive(op) !in Litter(r)
  }

  predicate RightOperandsAreVariables(e: Expr) {
    match e
    case Leaf(_) => true
    case Node(_, l, r) => RightOperandsAreVariables(l) && r.Leaf?
  }

  /** No variable occurs twice. */
  predicate ReadOnce(e: Expr) {
    match e
    case Leaf(_) => true
    case Node(_, l, r) => ReadOnce(l) && ReadOnce(r) && Vars(l) !! Vars(r)
  }

  function Lazy(e: Expr, a: map<char, bool>): (s: seq<bool>)
    requires Vars(e) <= a.Keys
    ensures s != []
  {
    Leave(e, a, AsWritten)
  }

  function Last(s: seq<bool>): bool
    requires s != []
  {
    s[|s| - 1]
  }

  lemma {:induction false} VariablesOnTheRightAreSafe(e: Expr)
    requires RightOperandsAreVariables(e)
    ensures Safe(e)
  {
    if e.Node? { VariablesOnTheRightAreSafe(e.l); }
  }

  // ---------------------------------------------------------------- witnesses for read-once formulas

  /** The right operand settles the result: nothing else is popped. */
  lemma Settled(op: Op, x: seq<bool>, y: seq<bool>)
    requires y != [] && Last(y) == Decisive(op)
    ensures Combine(op, x + y, AsWritten) == Ok(x + y)
  {
    var st := x + y;
    assert Last(st) == Last(y) && st[..|st| - 1] + [Last(y)] == st;
  }

  /** The value under an unsettling right operand is used, whether it is the left operand or litter. */
  lemma Unsettled(op: Op, st: seq<bool>)
    requires |st| > 1 && Last(st) == !Decisive(op)
    ensures Combine(op, st, AsWritten) == Ok(st[..|st| - 2] + [FromNext(op, st[|st| - 2])])
  {
    assert st[..|st| - 1][..|st| - 2] == st[..|st| - 2];
  }

  lemma LazyNode(e: Expr, a: map<char, bool>, x: seq<bool>, y: seq<bool>)
    requires e.Node? && Vars(e) <= a.Keys && x == Lazy(e.l, a) && y == Lazy(e.r, a)
    ensures Lazy(e, a) == if Last(y) == Decisive(e.op) then x + y
                          else (x + y)[..|x + y| - 2] + [FromNext(e.op, (x + y)[|x + y| - 2])]
  {
    assert Last(x + y) == Last(y);
    if Last(y) == Decisive(e.op) {
      Settled(e.op, x, y);
    } else {
      Unsettled(e.op, x + y);
    }
  }

  /** On a safe formula the machine reports its value, and what lies under that value is accounted
      for by `Litter`. */
  lemma {:induction false} SafeIsRight(e: Expr, a: map<char, bool>)
    requires Safe(e) && Vars(e) <= a.Keys
    ensures Last(Lazy(e, a)) == Eval(e, a)
    ensures |Lazy(e, a)| > 1 ==> Eval(e, a) in Litter(e)
  {
    if e.Node? {
      SafeIsRight(e.l, a);
      SafeIsRight(e.r, a);
      var x, y := Lazy(e.l, a), Lazy(e.r, a);
      LazyNode(e, a, x, y);
      assert Decisive(e.op) in Litter(e);
      assert forall g :: g in Litter(e.l) ==> FromNext(e.op, g) in Litter(e);
      if Last(y) != Decisive(e.op) {
        assert |y| == 1 && (x + y)[|x + y| - 2] == Last(x);
      }
    }
  }

  /** A node whose operands get separate assignments. */
  lemma Join(e: Expr, al: map<char, bool>, ar: map<char, bool>) returns (a: map<char, bool>)
    requires e.Node? && ReadOnce(e) && al.Keys == Vars(e.l) && ar.Keys == Vars(e.r)
    ensures a.Keys == Vars(e)
    ensures Eval(e, a) == Apply(e.op, Eval(e.l, al), Eval(e.r, ar))
    ensures var x, y := Lazy(e.l, al), Lazy(e.r, ar);
            Lazy(e, a) == if Last(y) == Decisive(e.op) then x + y
            else (x + y)[..|x + y| - 2] + [FromNext(e.op, (x + y)[|x + y| - 2])]
  {
    a := al + ar;
    LeaveFrame(e.l, a, al, AsWritten);
    LeaveFrame(e.r, a, ar, AsWritten);
    EvalFrame(e.l, a, al);
    EvalFrame(e.r, a, ar);
    LazyNode(e, a, Lazy(e.l, al), Lazy(e.r, ar));
  }

  lemma {:induction false} EvalFrame(e: Expr, a: map<char, bool>, b: map<char, bool>)
    requires Vars(e) <= a.Keys && Vars(e) <= b.Keys
    requires forall c :: c in Vars(e) ==> a[c] == b[c]
    ensures Eval(e, a) == Eval(e, b)
  {
    if e.Node? {
      EvalFrame(e.l, a, b);
      EvalFrame(e.r, a, b);
    }
  }

  /** A read-once formula can take either value and leave nothing but it. */
  lemma {:induction false} Clean(e: Expr, b: bool) returns (a: map<char, bool>)
    requires ReadOnce(e)
    ensures a.Keys == Vars(e) && Lazy(e, a) == [b] && Eval(e, a) == b
  {
    match e
    case Leaf(c) =>
      a := map[c := b];
    case Node(op, l, r) =>
      var al := Clean(l, FromNext(op, b));
      var ar := Clean(r, !Decisive(op));
      a := Join(e, al, ar);
      assert [FromNext(op, b)] + [!Decisive(op)] == [FromNext(op, b), !Decisive(op)];
  }

  /** The stack ends in a value with another one under it. */
  predicate EndsIn(s: seq<bool>, under: bool, top: bool) {
    |s| > 1 && s[|s| - 2] == under && s[|s| - 1] == top
  }

  /** Everything in `Litter` happens, with either value underneath. */
  lemma {:induction false} Littered(e: Expr, v: bool, g: bool) returns (a: map<char, bool>)
    requires ReadOnce(e) && v in Litter(e)
    ensures a.Keys == Vars(e) && Eval(e, a) == v
    ensures EndsIn(Lazy(e, a), g, v)
  {
    var op := e.op;
    if v == Decisive(op) {
      var al := Clean(e.l, g);
      var ar := Clean(e.r, v);
      a := Join(e, al, ar);
    } else {
      var al := Littered(e.l, FromNext(op, v), g);
      var ar := Clean(e.r, !Decisive(op));
      a := Join(e, al, ar);
    }
  }

  /** Litter under the right operand is taken for the left operand. */
  lemma WrongAtNode(e: Expr) returns (a: map<char, bool>)
    requires ReadOnce(e) && e.Node? && !Decisive(e.op) in Litter(e.r)
    ensures a.Keys == Vars(e) && Last(Lazy(e, a)) != Eval(e, a) == !Decisive(e.op)
  {
    var x := FromNext(e.op, !Decisive(e.op));
    var al := Clean(e.l, x);
    var ar := Littered(e.r, !Decisive(e.op), !x);
    a := Join(e, al, ar);
  }

  /** An error in the left operand shows when the right one does not settle the result. */
  lemma WrongOnTheLeft(e: Expr, al: map<char, bool>) returns (a: map<char, bool>)
    requires ReadOnce(e) && e.Node? && al.Keys == Vars(e.l) && Last(Lazy(e.l, al)) != Eval(e.l, al)
    ensures a.Keys == Vars(e) && Last(Lazy(e, a)) != Eval(e, a) == FromNext(e.op, Eval(e.l, al))
  {
    var ar := Clean(e.r, !Decisive(e.op));
    a := Join(e, al, ar);
  }

  /** A right operand that wrongly settles the result shows. */
  lemma WrongOnTheRight(e: Expr, ar: map<char, bool>) returns (a: map<char, bool>)
    requires ReadOnce(e) && e.Node? && ar.Keys == Vars(e.r)
    requires Last(Lazy(e.r, ar)) == Decisive(e.op) != Eval(e.r, ar)
    ensures a.Keys == Vars(e) && Last(Lazy(e, a)) != Eval(e, a) == !Decisive(e.op)
  {
    var al := Clean(e.l, FromNext(e.op, !Decisive(e.op)));
    a := Join(e, al, ar);
  }

  lemma LitterOfLeft(e: Expr)
    requires e.Node? && e.l.Node? && !Decisive(e.op) !in Litter(e)
    ensures !Decisive(e.l.op) !in Litter(e.l)
    ensures FromNext(e.op, !Decisive(e.l.op)) == !Decisive(e.op)
  {
    assert forall g :: g in Litter(e.l) ==> FromNext(e.op, g) in Litter(e);
    assert Decisive(e.l.op) in Litter(e.l);
  }

  /** On an unsafe formula without repeated variables some assignment makes the machine wrong. */
  lemma {:induction false} UnsafeIsWrong(e: Expr) returns (a: map<char, bool>)
    requires ReadOnce(e) && !Safe(e)
    ensures a.Keys == Vars(e) && Last(Lazy(e, a)) != Eval(e, a)
    ensures !Decisive(e.op) !in Litter(e) ==> Eval(e, a) == !Decisive(e.op)
  {
    if !Decisive(e.op) in Litter(e.r) {
      a := WrongAtNode(e);
    } else if !Safe(e.r) {
      assert Decisive(e.r.op) in Litter(e.r);
      var ar := UnsafeIsWrong(e.r);
      a := WrongOnTheRight(e, ar);
    } else {
      var al := UnsafeIsWrong(e.l);
      a := WrongOnTheLeft(e, al);
      if !Decisive(e.op) !in Litter(e) {
        LitterOfLeft(e);
      }
    }
  }

  ghost predicate RightUnder(e: Expr, v: Version) {
    forall a: map<char, bool> :: Assigns(a, Vars(e)) ==> Reported(e, a, v) == Eval(e, a)
  }

  /** The machine as written is right on every safe formula, and a formula in which no variable is
      repeated has to be safe for that. */
  lemma MachineAsWritten(e: Expr)
    ensures Safe(e) ==> RightUnder(e, AsWritten)
    ensures ReadOnce(e) && RightUnder(e, AsWritten) ==> Safe(e)
  {
    if Safe(e) {
      forall a: map<char, bool> | Assigns(a, Vars(e))
        ensures Reported(e, a, AsWritten) == Eval(e, a)
      {
        SafeIsRight(e, a);
      }
    } else if ReadOnce(e) {
      var a := UnsafeIsWrong(e);
      assert Assigns(a, Vars(e));
    }
  }

  /** With a repeated variable safety is not necessary: c|(c&c) is not safe, and the machine as written
      is right on it. */
  lemma RightByCoincidence(c: char)
    ensures var e := Node(Or, Leaf(c), Node(And, Leaf(c), Leaf(c)));
            !Safe(e) && !ReadOnce(e) && RightUnder(e, AsWritten)
  {
    var inner := Node(And, Leaf(c), Leaf(c));
    var e := Node(Or, Leaf(c), inner);
    assert !Decisive(Or) in Litter(inner);
    assert c in Vars(Leaf(c)) && c in Vars(e);
    forall a: map<char, bool> | Assigns(a, Vars(e))
      ensures Reported(e, a, AsWritten) == Eval(e, a)
    {
      RepeatedReports(c, inner, e, a);
    }
  }

  lemma RepeatedReports(c: char, inner: Expr, e: Expr, a: map<char, bool>)
    requires inner == Node(And, Leaf(c), Leaf(c)) && e == Node(Or, Leaf(c), inner) && c in a
    ensures Reported(e, a, AsWritten) == Eval(e, a)
  {
    var x := [a[c]];
    assert Eval(inner, a) == a[c];
    LazyNode(inner, a, x, x);
    if a[c] {
      assert x + x == [true, true] && Lazy(inner, a) == [true];
    } else {
      assert x + x == [false, false] == Lazy(inner, a);
    }
    LazyNode(e, a, x, Lazy(inner, a));
  }

  /** p|(q&r) is not safe: with p and r 0 and q 1 the machine as written reports 1. */
  lemma LazyIsWrong(p: char, q: char, r: char, inner: Expr, e: Expr, a: map<char, bool>)
    requires inner == Node(And, Leaf(q), Leaf(r)) && e == Node(Or, Leaf(p), inner)
    requires {p, q, r} <= a.Keys && !a[p] && a[q] && !a[r]
    ensures !Safe(e) && Vars(e) <= a.Keys
    ensures Reported(e, a, AsWritten) && !Eval(e, a)
  {
    assert !Eval(inner, a);
    LazyNode(inner, a, [a[q]], [a[r]]);
    assert [true] + [false] == [true, false] == Lazy(inner, a);
    LazyNode(e, a, [a[p]], [true, false]);
    assert [false] + [true, false] == [false, true, false];
  }
}
