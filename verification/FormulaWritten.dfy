/** The deciders as they are written: when they raise, where they are right, and inputs on which each
    of them errs in either direction. */
module FormulaWritten {
  import opened FormulaSyntax
  import opened FormulaText
  import opened FormulaCompile
  import opened FormulaValue
  import opened FormulaDecide
  import opened FormulaLazy

  // ---------------------------------------------------------------- isTautology

  /** No formula without repeated variables is a tautology, and the decider as written says so, whether
      or not the formula is safe. */
  lemma ReadOnceIsRefuted(f: Form)
    requires Legal(f) && Depth(f) < 2 && ReadOnce(Tree(f))
    ensures IsTautology(Text(f), AsWritten) == Ok(false) && !Tautology(Tree(f))
  {
    TautologyReported(f, AsWritten);
    var e := Tree(f);
    var a := Clean(e, false);
    assert Assigns(a, Vars(e)) && !Eval(e, a);
    assert !Answers(e, AsWritten)(a);
  }

  lemma SafeAlways(e: Expr)
    requires Safe(e)
    ensures Always(Answers(e, AsWritten), Vars(e)) <==> Tautology(e)
  {
    forall a: map<char, bool> | Assigns(a, Vars(e))
      ensures Answers(e, AsWritten)(a) == Eval(e, a)
    {
      SafeIsRight(e, a);
    }
  }

  /** As written, `isTautology` is right on every safe formula and on every formula without repeated
      variables, if its text does not put parentheses inside parentheses. */
  lemma TautologyAsWritten(f: Form)
    requires Legal(f) && Depth(f) < 2 && (Safe(Tree(f)) || ReadOnce(Tree(f)))
    ensures IsTautology(Text(f), AsWritten).Ok?
    ensures IsTautology(Text(f), AsWritten).value <==> Tautology(Tree(f))
  {
    if ReadOnce(Tree(f)) {
      ReadOnceIsRefuted(f);
    } else {
      TautologyReported(f, AsWritten);
      SafeAlways(Tree(f));
    }
  }

  // ---------------------------------------------------------------- areTheSame

  /** As written, `areTheSame` raises exactly when the variables agree, so that the formulas are
      compiled, and one of the texts nests parentheses twice. */
  lemma SameRaises(f: Form, g: Form)
    requires Legal(f) && Legal(g)
    ensures AreTheSame(Text(f), Text(g), AsWritten) == TypeError <==>
            Vars(Tree(f)) == Vars(Tree(g)) && (Depth(f) >= 2 || Depth(g) >= 2)
  {
    LegalIsLettered(f);
    LegalIsLettered(g);
    LettersOfText(f);
    LettersOfText(g);
    FooDecidesLetters(Text(f), Text(g));
    if Depth(f) < 2 && Depth(g) < 2 {
      SameReported(f, g, AsWritten);
    } else if Foo(Text(f)) == Foo(Text(g)) {
      FirstRowRaises(f, g);
    }
  }

  lemma FirstRowRaises(f: Form, g: Form)
    requires Legal(f) && Legal(g) && (Depth(f) >= 2 || Depth(g) >= 2) && Foo(Text(f)) == Foo(Text(g))
    ensures AreTheSame(Text(f), Text(g), AsWritten) == TypeError
  {
    var rows := Gen(|Foo(Text(f))|);
    var c1, c2 := Column(Text(f), rows, AsWritten), Column(Text(g), rows, AsWritten);
    if Depth(f) >= 2 {
      OnpRaises(f);
      assert c1[0] == TypeError;
    } else {
      OnpRaises(g);
      FirstValue(f, rows, c1);
      assert c1[0].Ok? && c2[0] == TypeError;
    }
    assert Compare(c1, c2)[0] == TypeError;
  }

  lemma FirstValue(f: Form, rows: seq<string>, c: seq<Outcome<bool>>)
    requires Legal(f) && Depth(f) < 2
    requires rows == Gen(|Foo(Text(f))|) && c == Column(Text(f), rows, AsWritten)
    ensures |c| > 0 && c[0].Ok?
  {
    ColumnOfText(f, Foo(Text(f)), rows, c, AsWritten);
  }

  /** As written, `areTheSame` is right on two safe formulas. */
  lemma SameAsWritten(f: Form, g: Form)
    requires Legal(f) && Legal(g) && Depth(f) < 2 && Depth(g) < 2 && Safe(Tree(f)) && Safe(Tree(g))
    ensures AreTheSame(Text(f), Text(g), AsWritten).Ok?
    ensures AreTheSame(Text(f), Text(g), AsWritten).value <==>
            Vars(Tree(f)) == Vars(Tree(g)) && Equivalent(Tree(f), Tree(g))
  {
    SameReported(f, g, AsWritten);
    if Vars(Tree(f)) == Vars(Tree(g)) {
      SafeAnswers(Tree(f), Tree(g));
    }
  }

  lemma SafeAnswers(d: Expr, e: Expr)
    requires Safe(d) && Safe(e) && Vars(d) == Vars(e)
    ensures SameAnswers(Answers(d, AsWritten), Answers(e, AsWritten), Vars(d)) <==> Equivalent(d, e)
  {
    forall a: map<char, bool> | Assigns(a, Vars(d))
      ensures Answers(d, AsWritten)(a) == Eval(d, a) && Answers(e, AsWritten)(a) == Eval(e, a)
    {
      SafeIsRight(d, a);
      SafeIsRight(e, a);
    }
  }

  /** Comparing with a safe formula needs safety: an unsafe formula without repeated variables is
      told apart from every safe formula that is equivalent to it. */
  lemma UnsafeIsToldApart(f: Form, g: Form)
    requires Legal(f) && Legal(g) && Depth(f) < 2 && Depth(g) < 2
    requires ReadOnce(Tree(f)) && !Safe(Tree(f)) && Safe(Tree(g))
    requires Vars(Tree(f)) == Vars(Tree(g)) && Equivalent(Tree(f), Tree(g))
    ensures AreTheSame(Text(f), Text(g), AsWritten) == AreTheSame(Text(g), Text(f), AsWritten) == Ok(false)
  {
    var d, e := Tree(f), Tree(g);
    SameReported(f, g, AsWritten);
    SameReported(g, f, AsWritten);
    var a := UnsafeIsWrong(d);
    SafeIsRight(e, a);
    assert Assigns(a, Vars(d)) && Assigns(a, Vars(e));
    assert Answers(d, AsWritten)(a) != Answers(e, AsWritten)(a);
  }

  // ---------------------------------------------------------------- inputs on which they err

  ghost predicate AlwaysOne(e: Expr, v: Version) {
    forall a: map<char, bool> :: Assigns(a, Vars(e)) ==> Reported(e, a, v)
  }

  lemma Found(f: Form, v: Version)
    requires Compilable(f, v) && AlwaysOne(Tree(f), v)
    ensures IsTautology(Text(f), v) == Ok(true)
  {
    TautologyReported(f, v);
  }

  lemma FoundSame(f: Form, g: Form, v: Version)
    requires Compilable(f, v) && Compilable(g, v) && Vars(Tree(f)) == Vars(Tree(g))
    requires AlwaysOne(Tree(f), v) && AlwaysOne(Tree(g), v)
    ensures AreTheSame(Text(f), Text(g), v) == Ok(true)
  {
    SameReported(f, g, v);
  }

  /** One assignment refutes, in either version. */
  lemma Refuted(f: Form, v: Version, a: map<char, bool>)
    requires Compilable(f, v) && Vars(Tree(f)) <= a.Keys && !Reported(Tree(f), a, v)
    ensures IsTautology(Text(f), v) == Ok(false)
  {
    TautologyReported(f, v);
    assert Assigns(a, Vars(Tree(f))) && !Answers(Tree(f), v)(a);
  }

  /** One assignment tells two formulas apart, in either version. */
  lemma ToldApart(f: Form, g: Form, v: Version, a: map<char, bool>)
    requires Compilable(f, v) && Compilable(g, v) && Vars(Tree(f)) == Vars(Tree(g)) <= a.Keys
    requires Reported(Tree(f), a, v) != Reported(Tree(g), a, v)
    ensures AreTheSame(Text(f), Text(g), v) == Ok(false)
  {
    SameReported(f, g, v);
    assert Assigns(a, Vars(Tree(f))) && Answers(Tree(f), v)(a) != Answers(Tree(g), v)(a);
  }

  /** p>q&q, on which the machine as written always reports 1. */
  function Assumed(p: char, q: char): Form {
    Bin(Imp, Var(p), Bin(And, Var(q), Var(q)))
  }

  lemma AssumedTree(p: char, q: char)
    ensures Tree(Assumed(p, q)) == Node(Imp, Leaf(p), Node(And, Leaf(q), Leaf(q)))
  {
    assert Tree(Bin(And, Var(q), Var(q))) == Node(And, Tree(Var(q)), Tree(Var(q)));
  }

  lemma AssumedMachine(p: char, q: char, inner: Expr, e: Expr, a: map<char, bool>)
    requires inner == Node(And, Leaf(q), Leaf(q)) && e == Node(Imp, Leaf(p), inner) && {p, q} <= a.Keys
    ensures Vars(e) == {p, q} && Reported(e, a, AsWritten) && Eval(e, a) == (a[p] ==> a[q])
  {
    var x, y := [a[p]], [a[q]];
    assert Lazy(Leaf(p), a) == x && Lazy(Leaf(q), a) == y;
    assert Eval(inner, a) == a[q];
    LazyNode(inner, a, y, y);
    if a[q] {
      assert y + y == [true, true] && Lazy(inner, a) == [true];
    } else {
      assert y + y == [false, false] == Lazy(inner, a);
    }
    LazyNode(e, a, x, Lazy(inner, a));
  }

  lemma AssumedReports(p: char, q: char, a: map<char, bool>)
    requires {p, q} <= a.Keys
    ensures Vars(Tree(Assumed(p, q))) == {p, q} && Reported(Tree(Assumed(p, q)), a, AsWritten)
    ensures Eval(Tree(Assumed(p, q)), a) == (a[p] ==> a[q])
  {
    AssumedTree(p, q);
    AssumedMachine(p, q, Node(And, Leaf(q), Leaf(q)), Tree(Assumed(p, q)), a);
  }

  lemma AssumedText(p: char, q: char)
    requires IsLetter(p) && IsLetter(q)
    ensures Legal(Assumed(p, q)) && Depth(Assumed(p, q)) == 0
    ensures Text(Assumed(p, q)) == [p, '>', q, '&', q]
  {
    var inner := Bin(And, Var(q), Var(q));
    assert Text(inner) == [q, '&', q] && Depth(inner) == 0;
  }

  lemma AssumedIsOne(p: char, q: char, e: Expr)
    requires e == Tree(Assumed(p, q))
    ensures Vars(e) == {p, q} && AlwaysOne(e, AsWritten)
  {
    AssumedReports(p, q, map[p := true, q := true]);
    forall a: map<char, bool> | Assigns(a, Vars(e))
      ensures Reported(e, a, AsWritten)
    {
      AssumedReports(p, q, a);
    }
  }

  /** isTautology('a>b&b') is True, and the formula is 0 at a = 1, b = 0. */
  lemma TautologyWronglyFound()
    ensures IsTautology("a>b&b", AsWritten) == Ok(true) && IsTautology("a>b&b", AsMeant) == Ok(false)
  {
    var f, a := Assumed('a', 'b'), map['a' := true, 'b' := false];
    AssumedText('a', 'b');
    AssumedIsOne('a', 'b', Tree(f));
    Found(f, AsWritten);
    AssumedReports('a', 'b', a);
    LeaveAsMeant(Tree(f), a);
    Refuted(f, AsMeant, a);
  }

  /** areTheSame('a>b&b', 'b>a&a') is True, and the formulas differ at a = 1, b = 0. */
  lemma SameWronglyFound()
    ensures AreTheSame("a>b&b", "b>a&a", AsWritten) == Ok(true)
    ensures AreTheSame("a>b&b", "b>a&a", AsMeant) == Ok(false)
  {
    var f, g, a := Assumed('a', 'b'), Assumed('b', 'a'), map['a' := true, 'b' := false];
    AssumedText('a', 'b');
    AssumedText('b', 'a');
    AssumedIsOne('a', 'b', Tree(f));
    AssumedIsOne('b', 'a', Tree(g));
    FoundSame(f, g, AsWritten);
    AssumedReports('a', 'b', a);
    AssumedReports('b', 'a', a);
    LeaveAsMeant(Tree(f), a);
    LeaveAsMeant(Tree(g), a);
    ToldApart(f, g, AsMeant, a);
  }

  /** a&b>b&a. */
  function Swapped(): Form {
    Bin(Imp, Bin(And, Var('a'), Var('b')), Bin(And, Var('b'), Var('a')))
  }

  lemma SwappedText()
    ensures Legal(Swapped()) && Depth(Swapped()) == 0 && Text(Swapped()) == "a&b>b&a"
  {
    assert Text(Bin(And, Var('a'), Var('b'))) == "a&b" && Text(Bin(And, Var('b'), Var('a'))) == "b&a";
  }

  lemma SwappedReports(a: map<char, bool>)
    requires a == map['a' := false, 'b' := true]
    ensures Vars(Tree(Swapped())) == {'a', 'b'} && !Reported(Tree(Swapped()), a, AsWritten)
  {
    var l, r := Node(And, Leaf('a'), Leaf('b')), Node(And, Leaf('b'), Leaf('a'));
    assert Tree(Swapped()) == Node(Imp, l, r);
    LazyNode(l, a, [false], [true]);
    LazyNode(r, a, [true], [false]);
    assert [false] + [true] == [false, true] && [true] + [false] == [true, false];
    assert Lazy(l, a) == [false] && Lazy(r, a) == [true, false];
    LazyNode(Tree(Swapped()), a, [false], [true, false]);
    assert [false] + [true, false] == [false, true, false];
  }

  lemma SwappedHolds(a: map<char, bool>)
    requires {'a', 'b'} <= a.Keys
    ensures Vars(Tree(Swapped())) == {'a', 'b'} && Eval(Tree(Swapped()), a)
  {
    var l, r := Node(And, Leaf('a'), Leaf('b')), Node(And, Leaf('b'), Leaf('a'));
    assert Tree(Swapped()) == Node(Imp, l, r) && Eval(l, a) == Eval(r, a);
  }

  /** isTautology('a&b>b&a') is False, and the formula is a tautology. */
  lemma TautologyMissed()
    ensures IsTautology("a&b>b&a", AsWritten) == Ok(false) && IsTautology("a&b>b&a", AsMeant) == Ok(true)
  {
    var f, a := Swapped(), map['a' := false, 'b' := true];
    SwappedText();
    SwappedReports(a);
    Refuted(f, AsWritten, a);
    TautologyDecided(f);
    forall b: map<char, bool> | Assigns(b, Vars(Tree(f)))
      ensures Eval(Tree(f), b)
    {
      SwappedHolds(b);
    }
  }

  /** p|(q&r). */
  function Unsafe(): Form {
    Bin(Or, Var('p'), Paren(Bin(And, Var('q'), Var('r'))))
  }

  lemma UnsafeText()
    ensures Legal(Unsafe()) && Depth(Unsafe()) == 1 && Text(Unsafe()) == "p|(q&r)"
    ensures Tree(Unsafe()) == Node(Or, Leaf('p'), Node(And, Leaf('q'), Leaf('r')))
    ensures Postfix(Tree(Unsafe())) == "pqr&|"
    ensures ReadOnce(Tree(Unsafe())) && !Safe(Tree(Unsafe()))
  {
    var inner := Bin(And, Var('q'), Var('r'));
    assert Text(inner) == "q&r" && Text(Paren(inner)) == "(q&r)";
    assert Postfix(Tree(inner)) == "qr&";
  }

  /** areTheSame('p|(q&r)', 'q&r|p') is False, and the formulas are equivalent. */
  lemma SameMissed()
    ensures AreTheSame("p|(q&r)", "q&r|p", AsWritten) == Ok(false)
    ensures AreTheSame("p|(q&r)", "q&r|p", AsMeant) == Ok(true)
  {
    var f, inner := Unsafe(), Bin(And, Var('q'), Var('r'));
    var g := Bin(Or, inner, Var('p'));
    UnsafeText();
    assert Text(inner) == "q&r" && Text(g) == "q&r|p";
    assert Tree(g) == Node(Or, Node(And, Leaf('q'), Leaf('r')), Leaf('p'));
    assert Equivalent(Tree(f), Tree(g));
    UnsafeIsToldApart(f, g);
    SameDecided(f, g);
  }

  // ---------------------------------------------------------------- the same on the program's own input

  predicate Rising(w: string) {
    forall i, j :: 0 <= i < j < |w| ==> w[i] < w[j]
  }

  predicate SameLetters(u: string, w: string) {
    forall c :: c in u <==> c in w
  }

  lemma WithoutLast(w: string)
    requires Rising(w) && w != ""
    ensures forall c :: c in w[..|w| - 1] <==> c in w && c != w[|w| - 1]
    ensures forall c :: c in w ==> c <= w[|w| - 1]
  {
    assert w == w[..|w| - 1] + [w[|w| - 1]];
  }

  lemma SameLast(u: string, w: string)
    requires Rising(u) && Rising(w) && u != "" && SameLetters(u, w)
    ensures w != "" && u[|u| - 1] == w[|w| - 1]
  {
    assert u[0] in w;
    WithoutLast(u);
    WithoutLast(w);
    var x, y := u[|u| - 1], w[|w| - 1];
    assert x in u && y in w;
    assert x <= y && y <= x;
  }

  lemma SameRest(u: string, w: string)
    requires Rising(u) && Rising(w) && u != "" && SameLetters(u, w)
    ensures w != "" && u == u[..|u| - 1] + [u[|u| - 1]] && w == w[..|w| - 1] + [u[|u| - 1]]
    ensures Rising(u[..|u| - 1]) && Rising(w[..|w| - 1])
    ensures SameLetters(u[..|u| - 1], w[..|w| - 1])
  {
    SameLast(u, w);
    WithoutLast(u);
    WithoutLast(w);
    var u', w' := u[..|u| - 1], w[..|w| - 1];
    forall c
      ensures c in u' <==> c in w'
    {
      assert c in u' <==> c in u && c != u[|u| - 1];
    }
  }

  lemma {:induction false} RisingIsUnique(u: string, w: string)
    requires Rising(u) && Rising(w) && SameLetters(u, w)
    ensures u == w
  {
    assert w != "" ==> w[0] in u;
    if u != "" {
      SameRest(u, w);
      RisingIsUnique(u[..|u| - 1], w[..|w| - 1]);
    }
  }

  lemma FooOfUnsafe(w: string, zm: string)
    requires w == "pqr&|" && zm == "pqr"
    ensures Foo(w) == zm
  {
    assert w == zm + "&|";
    forall c
      ensures c in Foo(w) <==> c in zm
    {
      assert c in "&|" ==> IsOp(c);
      assert c in zm ==> IsLetter(c);
    }
    RisingIsUnique(Foo(w), zm);
  }

  lemma UnsafeReported(a: map<char, bool>)
    requires a == Assignment("pqr", "010")
    ensures Vars(Tree(Unsafe())) <= a.Keys
    ensures Reported(Tree(Unsafe()), a, AsWritten) && !Reported(Tree(Unsafe()), a, AsMeant)
  {
    UnsafeText();
    RowOfPqr(a);
    LazyIsWrong('p', 'q', 'r', Node(And, Leaf('q'), Leaf('r')), Tree(Unsafe()), a);
    LeaveAsMeant(Tree(Unsafe()), a);
  }

  /** onp('p|(q&r)') is 'pqr&|', and value('pqr&|', '010') is 1 where it should be 0. */
  lemma ValueIsWrong()
    ensures Onp("p|(q&r)", AsWritten) == Ok("pqr&|") == Onp("p|(q&r)", AsMeant)
    ensures Value("pqr&|", "010", AsWritten) == Ok(true) && Value("pqr&|", "010", AsMeant) == Ok(false)
  {
    UnsafeText();
    OnpCompiles(Unsafe(), AsWritten);
    OnpCompiles(Unsafe(), AsMeant);
    var e, w, zm, val := Tree(Unsafe()), "pqr&|", "pqr", "010";
    UnsafeIsProper();
    FooOfUnsafe(w, zm);
    UnsafeReported(Assignment(zm, val));
    ZerosAndOnes(val);
    ValueOfPostfix(e, w, zm, val, Assignment(zm, val), AsWritten);
    ValueOfPostfix(e, w, zm, val, Assignment(zm, val), AsMeant);
  }

  lemma UnsafeIsProper()
    ensures Proper(Tree(Unsafe()))
  {
    UnsafeText();
    LegalIsLettered(Unsafe());
    LettersOfText(Unsafe());
  }

  lemma ZerosAndOnes(val: string)
    requires val == "010"
    ensures Bits(val)
  {
  }

  lemma RowOfPqr(a: map<char, bool>)
    requires a == Assignment("pqr", "010")
    ensures {'p', 'q', 'r'} <= a.Keys && !a['p'] && a['q'] && !a['r']
  {
    assert "pqr"[0] == 'p' && "pqr"[1] == 'q' && "pqr"[2] == 'r';
    assert IndexOf("pqr", 'p') == 0 && IndexOf("pqr", 'q') == 1 && IndexOf("pqr", 'r') == 2;
  }
}
