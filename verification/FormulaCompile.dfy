/** What `check` and `onp` do on formulas: `check` recognises the grammar, and `onp` is a compiler
    from every legal text of a tree to the postfix form of that tree. */
module FormulaCompile {
  import opened FormulaSyntax
  import opened FormulaText

  // ---------------------------------------------------------------- onp

  /** The contents of the parenthesis a text starts with. */
  function Opening(f: Form): Form
    requires Lettered(f) && Text(f)[0] == '('
  {
    match f
    case Var(_) => f
    case Paren(g) => g
    case Bin(_, l, _) => TextBalanced(l); Opening(l)
  }

  lemma {:induction false} OpeningGroup(f: Form) returns (rest: string)
    requires Lettered(f) && Text(f)[0] == '('
    ensures Lettered(Opening(f))
    ensures Text(f) == "(" + Text(Opening(f)) + ")" + rest
    ensures f.Bin? ==> rest != ""
    ensures Depth(Opening(f)) < Depth(f)
  {
    match f
    case Paren(g) =>
      rest := "";
    case Bin(op, l, r) =>
      TextBalanced(l);
      var rest' := OpeningGroup(l);
      rest := rest' + [Sign(op)] + Text(r);
  }

  /** When the outer parentheses of a text do not match each other, the test at the head of `onp`
      notices, or, as written, raises on a parenthesis inside the first group. */
  lemma CheckInsideBin(f: Form, v: Version)
    requires Lettered(f) && f.Bin? && Wrapped(Text(f))
    ensures Depth(Opening(f)) < Depth(f)
    ensures Check(Text(f)[1..|Text(f)| - 1], v) ==
            if v == AsWritten && Depth(Opening(f)) > 0 then TypeError else Ok(false)
  {
    var w := Text(f);
    var rest := OpeningGroup(f);
    var u := Text(Opening(f));
    var tail := rest[..|rest| - 1];
    assert w[1..|w| - 1] == (u + ")") + tail;
    ScanText(Opening(f), 0, v);
    ScanSnoc(Going(0, true), u, ')', v);
    ScanConcat(Going(0, true), u + ")", tail, v);
    ScanStops(ScanAll(Going(0, true), u + ")", v), tail, v);
  }

  lemma CheckText(f: Form, v: Version)
    requires Lettered(f)
    ensures Check(Text(f), v) == if v == AsWritten && Depth(f) > 0 then TypeError else Ok(true)
  {
    ScanText(f, 0, v);
  }

  /** The loop of `onp` removes exactly the outer parentheses that match each other. */
  lemma {:induction false} StripText(f: Form, v: Version)
    requires Legal(f)
    requires v == AsWritten ==> Depth(f) < 2
    ensures Strip(Text(f), v) == Ok(Text(Core(f)))
  {
    LegalIsLettered(f);
    TextBalanced(f);
    match f
    case Var(_) =>
    case Paren(g) =>
      assert Text(f)[1..|Text(f)| - 1] == Text(g);
      CheckText(g, v);
      TextBalanced(g);
      StripText(g, v);
    case Bin(_, _, _) =>
      if Wrapped(Text(f)) {
        var _ := OpeningGroup(f);
        CheckInsideBin(f, v);
      }
  }

  lemma CoreFacts(f: Form)
    ensures !Core(f).Paren? && Tree(Core(f)) == Tree(f)
    ensures Legal(f) ==> Legal(Core(f))
    ensures Depth(Core(f)) <= Depth(f)
  {
  }

  /** On a text that strips to a binary formula `onp` compiles the operands. */
  lemma OnpOfBin(w: string, g: Form, v: Version)
    requires Legal(g) && g.Bin? && Strip(w, v) == Ok(Text(g))
    ensures Onp(w, v) == Glue(Onp(Text(g.l), v), Onp(Text(g.r), v), Sign(g.op))
  {
    BalOfBin(g);
    LegalIsLettered(g);
    TextBalanced(g.l);
    var u, p := Text(g), |Text(g.l)|;
    assert Cut(u) == p;
    assert u[..p] == Text(g.l) && u[p + 1..] == Text(g.r) && u[p] == Sign(g.op);
  }

  lemma OnpOfVar(w: string, g: Form, v: Version)
    requires Legal(g) && g.Var? && Strip(w, v) == Ok(Text(g))
    ensures Onp(w, v) == Ok(Text(g))
  {
    BalOfAtom(g);
    assert Cut(Text(g)) == -1;
  }

  /** `onp` compiles every legal text to the postfix form of its tree. */
  lemma {:induction false} OnpCompiles(f: Form, v: Version)
    requires Legal(f)
    requires v == AsWritten ==> Depth(f) < 2
    ensures Onp(Text(f), v) == Ok(Postfix(Tree(f)))
    decreases |Text(f)|
  {
    StripText(f, v);
    CoreFacts(f);
    CoreShorter(f);
    var g := Core(f);
    if g.Var? {
      OnpOfVar(Text(f), g, v);
    } else {
      OnpOfBin(Text(f), g, v);
      OnpCompiles(g.l, v);
      OnpCompiles(g.r, v);
    }
  }

  lemma CoreShorter(f: Form)
    ensures |Text(Core(f))| <= |Text(f)|
  {
  }

  /** The head of `onp` on a text that nests parentheses twice: it raises or removes nothing. */
  lemma StripDeep(f: Form)
    requires Legal(f) && Depth(f) >= 2
    ensures Strip(Text(f), AsWritten) == TypeError || (f.Bin? && Strip(Text(f), AsWritten) == Ok(Text(f)))
  {
    LegalIsLettered(f);
    TextBalanced(f);
    if f.Paren? {
      assert Text(f)[1..|Text(f)| - 1] == Text(f.f);
      CheckText(f.f, AsWritten);
    } else if Wrapped(Text(f)) {
      CheckInsideBin(f, AsWritten);
    }
  }

  /** As written, `onp` raises on every text that nests parentheses twice. */
  lemma {:induction false} OnpRaises(f: Form)
    requires Legal(f) && Depth(f) >= 2
    ensures Onp(Text(f), AsWritten) == TypeError
    decreases |Text(f)|
  {
    StripDeep(f);
    if Strip(Text(f), AsWritten).Ok? {
      OnpOfBin(Text(f), f, AsWritten);
      if Depth(f.l) >= 2 {
        OnpRaises(f.l);
      } else {
        OnpCompiles(f.l, AsWritten);
        OnpRaises(f.r);
      }
    }
  }

  /** The exact condition under which the compiler as written works. */
  lemma OnpAsWritten(f: Form)
    requires Legal(f)
    ensures Onp(Text(f), AsWritten) == if Depth(f) < 2 then Onp(Text(f), AsMeant) else TypeError
  {
    OnpCompiles(f, AsMeant);
    if Depth(f) < 2 {
      OnpCompiles(f, AsWritten);
    } else {
      OnpRaises(f);
    }
  }

  /** ((a)) is a sentence that the compiler as written does not compile. */
  lemma RaisesHere()
    ensures Onp("((a))", AsMeant) == Ok("a")
    ensures Onp("((a))", AsWritten) == TypeError
  {
    var f := Paren(Paren(Var('a')));
    assert Text(f) == "((a))";
    OnpCompiles(f, AsMeant);
    OnpRaises(f);
  }

  // ---------------------------------------------------------------- unique reading

  /** A text has at most one legal reading. */
  lemma {:induction false} UniqueReading(f: Form, g: Form)
    requires Legal(f) && Legal(g) && Text(f) == Text(g)
    ensures f == g
  {
    LegalIsLettered(f);
    LegalIsLettered(g);
    if f.Bin? && g.Bin? {
      BalOfBin(f);
      BalOfBin(g);
      TextBalanced(f.l);
      var w, p := Text(f), |Text(f.l)|;
      assert |Text(g.l)| == p;
      assert w[..p] == Text(f.l) == Text(g.l);
      assert w[p + 1..] == Text(f.r) == Text(g.r);
      assert w[p] == Sign(f.op) == Sign(g.op);
      UniqueReading(f.l, g.l);
      UniqueReading(f.r, g.r);
    } else if f.Bin? {
      BalOfBin(f);
      BalOfAtom(g);
    } else if g.Bin? {
      BalOfBin(g);
      BalOfAtom(f);
    } else if f.Paren? && g.Paren? {
      assert Text(f.f) == Text(f)[1..|Text(f)| - 1];
      assert Text(g.f) == Text(g)[1..|Text(g)| - 1];
      UniqueReading(f.f, g.f);
    } else {
      assert Text(f)[0] == Text(g)[0];
    }
  }
}
