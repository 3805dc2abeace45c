/** `check` recognises exactly the grammar E ::= letter | (E) | E op E. */
module FormulaGrammar {
  import opened FormulaSyntax
  import opened FormulaText
  import opened FormulaCompile

  predicate Accepted(w: string) {
    ScanAll(Going(0, true), w, AsMeant) == Going(0, false)
  }

  lemma {:induction false} ScanDepth(depth: nat, operand: bool, w: string)
    requires ScanAll(Going(depth, operand), w, AsMeant).Going?
    ensures ScanAll(Going(depth, operand), w, AsMeant).depth == depth + Balance(w)
    ensures depth + Balance(w) >= 0
    decreases w
  {
    if w != "" {
      var s := ScanStep(Going(depth, operand), w[0], AsMeant);
      ScanStops(s, w[1..], AsMeant);
      ScanDepth(s.depth, s.operand, w[1..]);
    }
  }

  lemma ScanPrefix(depth: nat, operand: bool, w: string, i: nat)
    requires i <= |w| && ScanAll(Going(depth, operand), w, AsMeant).Going?
    ensures ScanAll(Going(depth, operand), w[..i], AsMeant).Going?
    ensures ScanAll(Going(depth, operand), w[..i], AsMeant).depth == depth + Balance(w[..i]) >= 0
    ensures ScanAll(Going(depth, operand), w, AsMeant) ==
            ScanAll(ScanAll(Going(depth, operand), w[..i], AsMeant), w[i..], AsMeant)
  {
    assert w == w[..i] + w[i..];
    ScanConcat(Going(depth, operand), w[..i], w[i..], AsMeant);
    ScanStops(ScanAll(Going(depth, operand), w[..i], AsMeant), w[i..], AsMeant);
    ScanDepth(depth, operand, w[..i]);
  }

  /** Cutting a sentence at a split gives two sentences. */
  lemma CutAccepted(w: string, p: nat)
    requires Accepted(w) && p < |w| && IsOp(w[p]) && Balance(w[p + 1..]) == 0
    ensures Accepted(w[..p]) && Accepted(w[p + 1..])
  {
    var s := Going(0, true);
    ScanPrefix(0, true, w, p);
    var m := ScanAll(s, w[..p], AsMeant);
    var n := ScanStep(m, w[p], AsMeant);
    assert w[p..][1..] == w[p + 1..];
    assert ScanAll(m, w[p..], AsMeant) == ScanAll(n, w[p + 1..], AsMeant);
    ScanStops(n, w[p + 1..], AsMeant);
    ScanDepth(n.depth, n.operand, w[p + 1..]);
  }

  /** The same scan one level down, if it never needs that level. */
  lemma {:induction false} ScanLower(depth: nat, operand: bool, u: string)
    requires forall j :: 0 <= j <= |u| ==> depth + Balance(u[..j]) >= 0
    requires ScanAll(Going(depth + 1, operand), u, AsMeant).Going?
    ensures var s := ScanAll(Going(depth + 1, operand), u, AsMeant);
            ScanAll(Going(depth, operand), u, AsMeant) == Going(s.depth - 1, s.operand)
    decreases u
  {
    if u != "" {
      var s := ScanStep(Going(depth + 1, operand), u[0], AsMeant);
      ScanStops(s, u[1..], AsMeant);
      assert u[..1] == [u[0]] && u[..1][1..] == "";
      assert depth + Balance(u[..1]) >= 0;
      forall j | 0 <= j <= |u| - 1
        ensures s.depth - 1 + Balance(u[1..][..j]) >= 0
      {
        assert u[..j + 1][1..] == u[1..][..j];
      }
      ScanLower(s.depth - 1, s.operand, u[1..]);
    }
  }

  lemma BalanceSnoc(w: string, i: nat)
    requires i < |w|
    ensures Balance(w[..i + 1]) == Balance(w[..i]) + Turn(w[i])
  {
    assert w[..i + 1] == w[..i] + [w[i]];
    assert [w[i]][1..] == "";
    BalanceConcat(w[..i], [w[i]]);
  }

  /** The parenthesis that closes the first one. */
  lemma Closing(w: string) returns (k: nat)
    requires w != "" && w[0] == '(' && Balance(w) == 0
    ensures 0 < k < |w| && w[k] == ')' && Balance(w[..k + 1]) == 0
    ensures forall j :: 0 < j <= k ==> Balance(w[..j]) > 0
  {
    k := 0;
    assert w[..0] == "";
    BalanceSnoc(w, 0);
    assert w[..|w|] == w;
    while Balance(w[..k + 1]) != 0
      invariant 0 <= k < |w|
      invariant forall j :: 0 < j <= k ==> Balance(w[..j]) > 0
      invariant k > 0 && Balance(w[..k + 1]) == 0 ==> w[k] == ')'
      invariant Balance(w[..k + 1]) >= 0 && (k == 0 ==> Balance(w[..k + 1]) > 0)
      decreases |w| - k
    {
      k := k + 1;
      BalanceSnoc(w, k);
    }
  }

  /** A sentence without a split is a letter or a sentence in parentheses. */
  lemma AtomAccepted(w: string)
    requires Accepted(w) && forall c :: c in w ==> InAlphabet(c)
    requires forall k :: 0 < k < |w| && IsOp(w[k]) ==> Balance(w[k + 1..]) != 0
    ensures (|w| == 1 && IsLetter(w[0])) || (Wrapped(w) && Accepted(w[1..|w| - 1]))
  {
    ScanDepth(0, true, w);
    var s := Going(0, true);
    var s1 := ScanStep(s, w[0], AsMeant);
    ScanStops(s1, w[1..], AsMeant);
    assert w[0] in w;
    if IsLetter(w[0]) {
      if |w| > 1 {
        assert w[1] in w && w[1..][1..] == w[2..];
        ScanStops(ScanStep(s1, w[1], AsMeant), w[2..], AsMeant);
      }
    } else {
      var k := Closing(w);
      var u := w[1..k];
      ScanPrefix(0, true, w, k);
      ScanPrefix(0, true, w, k + 1);
      assert w[..k + 1] == w[..k] + [')'];
      ScanSnoc(s, w[..k], ')', AsMeant);
      assert w[..k] == [w[0]] + u && w[..k][1..] == u;
      assert ScanAll(s1, u, AsMeant) == ScanAll(s, w[..k], AsMeant);
      forall j | 0 <= j <= |u|
        ensures Balance(u[..j]) >= 0
      {
        assert w[..j + 1][1..] == u[..j];
      }
      ScanLower(0, true, u);
      if k + 1 < |w| {
        AfterGroup(w, k);
      }
    }
  }

  /** What follows a closed group is an operator with a balanced right side. */
  lemma AfterGroup(w: string, k: nat)
    requires k + 1 < |w| && InAlphabet(w[k + 1])
    requires ScanAll(Going(0, true), w[..k + 1], AsMeant) == Going(0, false)
    requires Accepted(w)
    ensures IsOp(w[k + 1]) && Balance(w[k + 2..]) == 0
  {
    ScanPrefix(0, true, w, k + 1);
    var n := ScanStep(Going(0, false), w[k + 1], AsMeant);
    assert w[k + 1..][1..] == w[k + 2..];
    ScanStops(n, w[k + 2..], AsMeant);
    ScanDepth(n.depth, n.operand, w[k + 2..]);
  }

  lemma {:induction false} TopOpsOfLegal(f: Form)
    requires Legal(f)
    ensures Imp in TopOps(f) <==> f.Bin? && f.op == Imp
    ensures TopOps(f) == {} <==> !f.Bin?
  {
    if f.Bin? { assert f.op in TopOps(f); }
  }

  lemma NoCutNoSplit(w: string)
    requires Bal(w, LOOSE) < 0 && Bal(w, TIGHT) < 0
    ensures forall k :: 0 < k < |w| && IsOp(w[k]) ==> Balance(w[k + 1..]) != 0
  {
    forall k | 0 < k < |w| && IsOp(w[k])
      ensures Balance(w[k + 1..]) != 0
    {
      assert !IsSplit(w, k, LOOSE) && !IsSplit(w, k, TIGHT);
    }
  }

  /** Every sentence has a legal reading. */
  lemma {:induction false} Reading(w: string) returns (f: Form)
    requires Accepted(w) && forall c :: c in w ==> InAlphabet(c)
    ensures Legal(f) && Text(f) == w
    decreases |w|
  {
    var i := Cut(w);
    if i < 0 {
      NoCutNoSplit(w);
      AtomAccepted(w);
      if |w| == 1 {
        f := Var(w[0]);
      } else {
        var g := Reading(w[1..|w| - 1]);
        f := Paren(g);
      }
    } else {
      assert IsOp(w[i]) && Balance(w[i + 1..]) == 0;
      CutAccepted(w, i);
      var l := Reading(w[..i]);
      var r := Reading(w[i + 1..]);
      f := Bin(OperatorOf(w[i]), l, r);
      assert Text(f) == w[..i] + [w[i]] + w[i + 1..] == w;
      ReadingIsLegal(w, i, f);
    }
  }

  /** Cutting where `onp` does gives operands of the right levels. */
  lemma ReadingIsLegal(w: string, i: nat, f: Form)
    requires f.Bin? && Legal(f.l) && Legal(f.r) && Text(f) == w && |Text(f.l)| == i
    requires f.op == Imp ==> Bal(w, LOOSE) == i
    requires f.op != Imp ==> Bal(w, LOOSE) == -1 && Bal(w, TIGHT) == i
    ensures Legal(f)
  {
    TopOpsOfLegal(f.l);
    TopOpsOfLegal(f.r);
    LegalIsLettered(f.l);
    LegalIsLettered(f.r);
    if f.r.Bin? {
      SplitInRight(f);
    }
    if f.l.Bin? && f.l.op == Imp && f.op != Imp {
      SplitInLeft(f);
    }
  }

  lemma SplitInRight(f: Form)
    requires Lettered(f) && f.Bin? && f.r.Bin? && Legal(f.r)
    ensures IsSplit(Text(f), |Text(f.l)| + 1 + |Text(f.r.l)|, if f.r.op == Imp then LOOSE else TIGHT)
  {
    BalOfBin(f.r);
    SuffixOfBin(f, |Text(f.l)| + 1 + |Text(f.r.l)|);
  }

  lemma SplitInLeft(f: Form)
    requires Lettered(f) && f.Bin? && f.l.Bin? && Legal(f.l) && f.l.op == Imp
    ensures IsSplit(Text(f), |Text(f.l.l)|, LOOSE)
  {
    BalOfBin(f.l);
    SuffixOfBin(f, |Text(f.l.l)|);
  }

  /** The characters of `w` that `check` does not pass over. */
  function Relevant(w: string): string {
    if w == "" then "" else (if InAlphabet(w[0]) then [w[0]] else "") + Relevant(w[1..])
  }

  lemma {:induction false} ScanRelevant(s: Scan, w: string)
    requires s.Going? ==> s.depth >= 0
    ensures ScanAll(s, w, AsMeant) == ScanAll(s, Relevant(w), AsMeant)
    ensures forall c :: c in Relevant(w) ==> InAlphabet(c)
    decreases w
  {
    if w != "" {
      ScanRelevant(ScanStep(s, w[0], AsMeant), w[1..]);
      if InAlphabet(w[0]) {
        assert Relevant(w)[1..] == Relevant(w[1..]);
      } else {
        assert Relevant(w) == Relevant(w[1..]);
        ScanStops(s, Relevant(w), AsMeant);
      }
    }
  }

  /** For every string: `check` accepts it iff its letters, operators and parentheses spell a
      sentence of the grammar, and then they have a legal reading. */
  lemma CheckIsGrammar(w: string)
    ensures Check(w, AsMeant) == Ok(true) <==> exists f :: Lettered(f) && Text(f) == Relevant(w)
    ensures Check(w, AsMeant) == Ok(true) <==> exists f :: Legal(f) && Text(f) == Relevant(w)
    ensures Check(w, AsMeant).Ok?
  {
    var u := Relevant(w);
    ScanRelevant(Going(0, true), w);
    if Check(w, AsMeant) == Ok(true) {
      var f := Reading(u);
      LegalIsLettered(f);
    }
    forall f | Lettered(f) && Text(f) == u
      ensures Check(w, AsMeant) == Ok(true)
    {
      CheckText(f, AsMeant);
    }
    forall f | Legal(f) && Text(f) == u
      ensures Check(w, AsMeant) == Ok(true)
    {
      LegalIsLettered(f);
    }
    NoRaise(Going(0, true), w);
  }

  lemma {:induction false} NoRaise(s: Scan, w: string)
    requires s != Raise
    ensures ScanAll(s, w, AsMeant) != Raise
    decreases w
  {
    if w != "" { NoRaise(ScanStep(s, w[0], AsMeant), w[1..]); }
  }

  /** As written, `check` either raises or gives the verdict that is meant. */
  lemma {:induction false} ScanAgrees(s: Scan, w: string)
    ensures ScanAll(s, w, AsWritten) in {Raise, ScanAll(s, w, AsMeant)}
    decreases w
  {
    if w != "" {
      var t := ScanStep(s, w[0], AsWritten);
      if t == Raise {
        ScanStops(t, w[1..], AsWritten);
      } else {
        ScanAgrees(t, w[1..]);
      }
    }
  }

  /** At i the text closes an operand and goes on with something that is no operator and does not close
      more than was opened. */
  predicate Stumbles(w: string, i: nat) {
    && i < |w| && !IsOp(w[i])
    && var s := ScanAll(Going(0, true), w[..i], AsMeant);
       s.Going? && !s.operand && s.depth + Turn(w[i]) >= 0
  }

  lemma StumbleRaises(w: string, i: nat)
    requires Stumbles(w, i) && forall k: nat :: k < i ==> !Stumbles(w, k)
    ensures Check(w, AsWritten) == TypeError
  {
    UntilStumble(w, i);
    var s := ScanAll(Going(0, true), w[..i], AsWritten);
    assert w == w[..i] + w[i..] && w[i..][0] == w[i];
    ScanConcat(Going(0, true), w[..i], w[i..], AsWritten);
    ScanStops(Raise, w[i + 1..], AsWritten);
    assert w[i..][1..] == w[i + 1..];
  }

  lemma {:induction false} UntilStumble(w: string, i: nat)
    requires i <= |w| && forall k: nat :: k < i ==> !Stumbles(w, k)
    ensures ScanAll(Going(0, true), w[..i], AsWritten) == ScanAll(Going(0, true), w[..i], AsMeant)
  {
    if i > 0 {
      UntilStumble(w, i - 1);
      assert w[..i] == w[..i - 1] + [w[i - 1]];
      ScanSnoc(Going(0, true), w[..i - 1], w[i - 1], AsWritten);
      ScanSnoc(Going(0, true), w[..i - 1], w[i - 1], AsMeant);
      assert !Stumbles(w, i - 1);
    }
  }

  lemma FirstStumble(w: string, i: nat) returns (j: nat)
    requires Stumbles(w, i)
    ensures Stumbles(w, j) && forall k: nat :: k < j ==> !Stumbles(w, k)
  {
    if k: nat :| k < i && Stumbles(w, k) {
      j := FirstStumble(w, k);
    } else {
      j := i;
    }
  }

  /** For every string: as written `check` raises exactly if it stumbles, and otherwise gives the intended
      verdict. */
  lemma CheckAsWritten(w: string)
    ensures Check(w, AsWritten) ==
            if exists i: nat :: Stumbles(w, i) then TypeError else Check(w, AsMeant)
  {
    if i: nat :| Stumbles(w, i) {
      var j := FirstStumble(w, i);
      StumbleRaises(w, j);
    } else {
      UntilStumble(w, |w|);
      assert w[..|w|] == w;
    }
  }

  lemma CheckAgrees(w: string)
    ensures Check(w, AsWritten) == TypeError || Check(w, AsWritten) == Check(w, AsMeant)
  {
    ScanAgrees(Going(0, true), w);
  }
}
