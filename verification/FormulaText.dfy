/** The recogniser `check`, the splitter `bal` and the infix-to-postfix compiler `onp`. */
module FormulaText {
  import opened FormulaSyntax

  /** Two readings of the program: as it is written, and as it is evidently meant.  As written, line
      25 adds a string to a list, and lines 66-68 pop the left operand only when it is needed. */
  datatype Version = AsWritten | AsMeant

  datatype Outcome<+T> = Ok(value: T) | TypeError | IndexError {
    predicate IsFailure() { !Ok? }

    function PropagateFailure<U>(): Outcome<U>
      requires !Ok?
    {
      if TypeError? then TypeError else IndexError
    }

    function Extract(): T
      requires Ok?
    {
      value
    }
  }

  // ---------------------------------------------------------------- check

  /** Where `check` stands: `operand` is its variable `state`, `depth` its `ln`. */
  datatype Scan = Going(depth: int, operand: bool) | Reject | Raise

  function Turn(z: char): int {
    if z == '(' then 1 else if z == ')' then -1 else 0
  }

  function ScanStep(s: Scan, z: char, v: Version): Scan {
    match s
    case Reject => Reject
    case Raise => Raise
    case Going(depth, operand) =>
      var ln := depth + Turn(z);
      if ln < 0 then Reject
      else if operand then
        if IsLetter(z) then Going(ln, false)
        else if z == ')' || IsOp(z) then Reject
        else Going(ln, true)
      else if IsOp(z) then Going(ln, true)
      else if v == AsWritten then Raise
      else if z == '(' || IsLetter(z) then Reject
      else Going(ln, false)
  }

  function ScanAll(s: Scan, w: string, v: Version): Scan
    decreases w
  {
    if w == "" then s else ScanAll(ScanStep(s, w[0], v), w[1..], v)
  }

  function Verdict(s: Scan): Outcome<bool> {
    match s
    case Reject => Ok(false)
    case Raise => TypeError
    case Going(depth, operand) => Ok(depth == 0 && !operand)
  }

  function Check(w: string, v: Version): Outcome<bool> {
    Verdict(ScanAll(Going(0, true), w, v))
  }

  method CheckLoop(exp: string, v: Version) returns (r: Outcome<bool>)
    ensures r == Check(exp, v)
  {
    var ln, state := 0, true;
    for i := 0 to |exp|
      invariant ScanAll(Going(0, true), exp, v) == ScanAll(Going(ln, state), exp[i..], v)
    {
      var z := exp[i];
      ghost var before := Going(ln, state);
      assert exp[i..][0] == z && exp[i..][1..] == exp[i + 1..];
      ScanStops(ScanStep(before, z, v), exp[i + 1..], v);
      if z == '(' { ln := ln + 1; }
      if z == ')' { ln := ln - 1; }
      if ln < 0 { return Ok(false); }
      if state {
        if IsLetter(z) {
          state := false;
        } else if z == ')' || IsOp(z) {
          return Ok(false);
        }
      } else {
        if IsOp(z) {
          state := true;
        } else if v == AsWritten {
          return TypeError;
        } else if z == '(' || IsLetter(z) {
          return Ok(false);
        }
      }
    }
    if ln != 0 { return Ok(false); }
    return Ok(!state);
  }

  lemma ScanStops(s: Scan, w: string, v: Version)
    ensures !s.Going? ==> ScanAll(s, w, v) == s
    decreases w
  {
    if w != "" { ScanStops(ScanStep(s, w[0], v), w[1..], v); }
  }

  lemma {:induction false} ScanConcat(s: Scan, a: string, b: string, v: Version)
    ensures ScanAll(s, a + b, v) == ScanAll(ScanAll(s, a, v), b, v)
    decreases a
  {
    if a == "" {
      assert a + b == b;
    } else {
      assert (a + b)[1..] == a[1..] + b;
      ScanConcat(ScanStep(s, a[0], v), a[1..], b, v);
    }
  }

  lemma ScanSnoc(s: Scan, a: string, z: char, v: Version)
    ensures ScanAll(s, a + [z], v) == ScanStep(ScanAll(s, a, v), z, v)
  {
    ScanConcat(s, a, [z], v);
    assert [z][1..] == "";
    assert ScanAll(ScanAll(s, a, v), [z], v) == ScanAll(ScanStep(ScanAll(s, a, v), z, v), "", v);
  }

  /** What scanning a formula does: as meant it consumes one operand; as written it raises at the
      first closing parenthesis. */
  lemma {:induction false} ScanText(f: Form, depth: nat, v: Version)
    requires Lettered(f)
    ensures ScanAll(Going(depth, true), Text(f), v) ==
            if v == AsWritten && Depth(f) > 0 then Raise else Going(depth, false)
  {
    var s := Going(depth, true);
    match f
    case Var(c) =>
      assert Text(f) == "" + [c];
      ScanSnoc(s, "", c, v);
    case Paren(g) =>
      ScanSnoc(s, "", '(', v);
      ScanText(g, depth + 1, v);
      assert "" + ['('] == "(";
      ScanConcat(s, "(", Text(g), v);
      ScanSnoc(s, "(" + Text(g), ')', v);
      ScanStops(Raise, ")", v);
    case Bin(op, l, r) =>
      ScanText(l, depth, v);
      ScanText(r, depth, v);
      ScanSnoc(s, Text(l), Sign(op), v);
      ScanConcat(s, Text(l) + [Sign(op)], Text(r), v);
      ScanStops(Raise, Text(r), v);
  }

  // ---------------------------------------------------------------- balance and bal

  function Balance(w: string): int {
    if w == "" then 0 else Turn(w[0]) + Balance(w[1..])
  }

  lemma {:induction false} BalanceConcat(a: string, b: string)
    ensures Balance(a + b) == Balance(a) + Balance(b)
  {
    if a == "" {
      assert a + b == b;
    } else {
      assert (a + b)[1..] == a[1..] + b;
      BalanceConcat(a[1..], b);
    }
  }

  /** Position `i` holds one of `ops` and the text from it on is balanced; an operator itself does not
      count. */
  predicate IsSplit(w: string, i: int, ops: string) {
    0 < i < |w| && w[i] in ops && Turn(w[i]) + Balance(w[i + 1..]) == 0
  }

  /** The rightmost split of `w`, or -1. */
  function RightmostSplit(w: string, ops: string, i: int): (p: int)
    requires i < |w|
    ensures p == -1 || (p <= i && IsSplit(w, p, ops))
    ensures forall k :: p < k <= i ==> !IsSplit(w, k, ops)
  {
    if i <= 0 then -1 else if IsSplit(w, i, ops) then i else RightmostSplit(w, ops, i - 1)
  }

  function Bal(w: string, ops: string): (p: int)
    ensures p == -1 || IsSplit(w, p, ops)
    ensures forall k :: p < k < |w| ==> !IsSplit(w, k, ops)
  {
    RightmostSplit(w, ops, |w| - 1)
  }

  lemma BalIs(w: string, ops: string, p: int)
    requires p == -1 || IsSplit(w, p, ops)
    requires forall k :: p < k < |w| ==> !IsSplit(w, k, ops)
    ensures Bal(w, ops) == p
  {
    var q := Bal(w, ops);
    assert q != -1 ==> IsSplit(w, q, ops);
  }

  method BalLoop(w: string, ops: string) returns (p: int)
    ensures p == Bal(w, ops)
  {
    var ln := 0;
    var i := |w| - 1;
    if w != "" { assert w[i + 1..] == ""; }
    while i > 0
      invariant i == -1 || 0 <= i < |w|
      invariant i >= 0 ==> ln == Balance(w[i + 1..])
      invariant forall k :: i < k < |w| ==> !IsSplit(w, k, ops)
    {
      if w[i] == '(' { ln := ln + 1; }
      if w[i] == ')' { ln := ln - 1; }
      assert w[i..][1..] == w[i + 1..];
      assert ln == Balance(w[i..]);
      if w[i] in ops && ln == 0 {
        BalIs(w, ops, i);
        return i;
      }
      i := i - 1;
    }
    BalIs(w, ops, -1);
    return -1;
  }

  // ---------------------------------------------------------------- texts of formulas under bal

  lemma {:induction false} TextBalanced(f: Form)
    requires Lettered(f)
    ensures Balance(Text(f)) == 0
    ensures |Text(f)| > 0
  {
    match f
    case Var(c) =>
      assert Text(f)[1..] == "";
    case Paren(g) =>
      TextBalanced(g);
      BalanceConcat("(", Text(g));
      BalanceConcat("(" + Text(g), ")");
      assert "("[1..] == "" && ")"[1..] == "";
    case Bin(op, l, r) =>
      TextBalanced(l);
      TextBalanced(r);
      assert [Sign(op)][1..] == "";
      BalanceConcat(Text(l), [Sign(op)]);
      BalanceConcat(Text(l) + [Sign(op)], Text(r));
  }

  lemma SuffixLeft(a: string, b: string, i: nat)
    requires i < |a|
    ensures (a + b)[i] == a[i]
    ensures Balance((a + b)[i + 1..]) == Balance(a[i + 1..]) + Balance(b)
  {
    assert (a + b)[i + 1..] == a[i + 1..] + b;
    BalanceConcat(a[i + 1..], b);
  }

  lemma SuffixRight(a: string, b: string, i: nat)
    requires |a| <= i < |a| + |b|
    ensures (a + b)[i] == b[i - |a|]
    ensures (a + b)[i + 1..] == b[i - |a| + 1..]
  {
  }

  lemma BalanceOne(c: char)
    ensures Balance([c]) == Turn(c)
  {
    assert [c][1..] == "";
  }

  /** To the right of any position of a formula there are at least as many closing parentheses as
      opening ones, and the operators with a balanced right side are the top ones. */
  lemma {:induction false} SuffixOfText(f: Form, i: nat)
    requires Lettered(f) && i < |Text(f)|
    ensures Balance(Text(f)[i + 1..]) <= (if Text(f)[i] == '(' then -1 else 0)
    ensures Balance(Text(f)[i + 1..]) == 0 && IsOp(Text(f)[i]) ==> OperatorOf(Text(f)[i]) in TopOps(f)
  {
    match f
    case Var(c) =>
      assert Text(f)[i + 1..] == "";
    case Paren(g) =>
      SuffixOfParen(g, Text(f), i);
      if 0 < i <= |Text(g)| { SuffixOfText(g, i - 1); }
    case Bin(op, l, r) =>
      SuffixOfBin(f, i);
      if i < |Text(l)| {
        SuffixOfText(l, i);
      } else if i > |Text(l)| {
        SuffixOfText(r, i - |Text(l)| - 1);
      }
  }

  lemma SuffixOfParen(g: Form, w: string, i: nat)
    requires Lettered(g) && w == "(" + Text(g) + ")" && i < |w|
    ensures i == 0 ==> w[i] == '(' && Balance(w[i + 1..]) == -1
    ensures 0 < i <= |Text(g)| ==> w[i] == Text(g)[i - 1] && Balance(w[i + 1..]) == Balance(Text(g)[i..]) - 1
    ensures i > |Text(g)| ==> w[i] == ')' && Balance(w[i + 1..]) == 0
  {
    TextBalanced(g);
    BalanceOne(')');
    if i == 0 {
      assert w[1..] == Text(g) + ")";
      BalanceConcat(Text(g), ")");
    } else if i <= |Text(g)| {
      assert w[i + 1..] == (Text(g) + ")")[i..];
      SuffixLeft(Text(g), ")", i - 1);
    } else {
      assert w[i + 1..] == "";
    }
  }

  lemma SuffixOfBin(f: Form, i: nat)
    requires Lettered(f) && f.Bin? && i < |Text(f)|
    ensures var a, b := Text(f.l), Text(f.r);
            if i < |a| then Text(f)[i] == a[i] && Balance(Text(f)[i + 1..]) == Balance(a[i + 1..])
            else if i == |a| then Text(f)[i] == Sign(f.op) && Text(f)[i + 1..] == b && Balance(b) == 0
            else Text(f)[i] == b[i - |a| - 1] && Text(f)[i + 1..] == b[i - |a|..]
  {
    var a, c, b := Text(f.l), [Sign(f.op)], Text(f.r);
    TextBalanced(f.r);
    if i < |a| {
      SuffixLeft(a + c, b, i);
      SuffixLeft(a, c, i);
      BalanceOne(Sign(f.op));
    } else {
      if i > |a| { SuffixRight(a + c, b, i); }
    }
  }

  const LOOSE := ">"
  const TIGHT := "&|"

  lemma NoSplit(f: Form, ops: string)
    requires Lettered(f)
    requires (ops == LOOSE && Imp !in TopOps(f)) || (ops == TIGHT && TopOps(f) <= {Imp})
    ensures forall k :: !IsSplit(Text(f), k, ops)
  {
    forall k | IsSplit(Text(f), k, ops)
      ensures false
    {
      SuffixOfText(f, k);
    }
  }

  lemma SplitOfBin(f: Form, ops: string, k: int)
    requires Lettered(f) && f.Bin? && |Text(f.l)| < k
    requires (ops == LOOSE && Imp !in TopOps(f.r)) || (ops == TIGHT && TopOps(f.r) <= {Imp})
    ensures !IsSplit(Text(f), k, ops)
  {
    if IsSplit(Text(f), k, ops) {
      SuffixOfBin(f, k);
      SuffixOfText(f.r, k - |Text(f.l)| - 1);
    }
  }

  /** `bal` finds the main operator of a formula: the last one of the loosest level outside all
      parentheses. */
  lemma BalOfBin(f: Form)
    requires Legal(f) && f.Bin?
    ensures f.op == Imp ==> Bal(Text(f), LOOSE) == |Text(f.l)|
    ensures f.op != Imp ==> Bal(Text(f), LOOSE) == -1 && Bal(Text(f), TIGHT) == |Text(f.l)|
  {
    LegalIsLettered(f);
    var w, n := Text(f), |Text(f.l)|;
    var ops := if f.op == Imp then LOOSE else TIGHT;
    TextBalanced(f.l);
    TextBalanced(f.r);
    assert w[n + 1..] == Text(f.r);
    forall k | n < k < |w|
      ensures !IsSplit(w, k, ops)
    {
      SplitOfBin(f, ops, k);
    }
    BalIs(w, ops, n);
    if f.op != Imp {
      NoSplit(f, LOOSE);
      BalIs(w, LOOSE, -1);
    }
  }

  lemma BalOfAtom(f: Form)
    requires Legal(f) && !f.Bin?
    ensures Bal(Text(f), LOOSE) == -1 && Bal(Text(f), TIGHT) == -1
  {
    LegalIsLettered(f);
    NoSplit(f, LOOSE);
    NoSplit(f, TIGHT);
    BalIs(Text(f), LOOSE, -1);
    BalIs(Text(f), TIGHT, -1);
  }

  // ---------------------------------------------------------------- onp

  predicate Wrapped(w: string) {
    |w| > 1 && w[0] == '(' && w[|w| - 1] == ')'
  }

  /** The loop at the head of `onp`. */
  function Strip(w: string, v: Version): (r: Outcome<string>)
    ensures r.Ok? ==> 0 < |r.value| <= |w|
  {
    if w == "" then IndexError
    else if Wrapped(w) then
      var inner :- Check(w[1..|w| - 1], v);
      if inner then Strip(w[1..|w| - 1], v) else Ok(w)
    else Ok(w)
  }

  /** Where `onp` cuts a text: the loose operator if there is one, else the last tight one. */
  function Cut(u: string): (p: int)
    ensures p == -1 || 0 < p < |u|
  {
    var p := Bal(u, LOOSE);
    if p >= 0 then p else Bal(u, TIGHT)
  }

  /** The text of a binary formula from the results for its operands; the left one fails first. */
  function Glue(x: Outcome<string>, y: Outcome<string>, c: char): Outcome<string> {
    if !x.Ok? then x else if !y.Ok? then y else Ok(x.value + y.value + [c])
  }

  function Onp(w: string, v: Version): Outcome<string>
    decreases |w|
  {
    var s := Strip(w, v);
    if !s.Ok? || Cut(s.value) < 0 then s else
      var u, p := s.value, Cut(s.value);
      Glue(Onp(u[..p], v), Onp(u[p + 1..], v), u[p])
  }

  method StripLoop(w: string, v: Version) returns (r: Outcome<string>)
    ensures r == Strip(w, v)
  {
    if w == "" { return IndexError; }
    var u := w;
    while u[0] == '(' && u[|u| - 1] == ')'
      invariant 0 < |u|
      invariant Strip(u, v) == Strip(w, v)
      decreases |u|
    {
      var c := CheckLoop(u[1..|u| - 1], v);
      if !c.Ok? { return c.PropagateFailure(); }
      if !c.value { return Ok(u); }
      u := u[1..|u| - 1];
    }
    return Ok(u);
  }

  method OnpLoop(w: string, v: Version) returns (r: Outcome<string>)
    ensures r == Onp(w, v)
    decreases |w|
  {
    var s := StripLoop(w, v);
    if !s.Ok? { return s; }
    var u := s.value;
    var p := BalLoop(u, LOOSE);
    if p < 0 { p := BalLoop(u, TIGHT); }
    OnpCuts(w, v, u, p);
    if p < 0 { return s; }
    var x := OnpLoop(u[..p], v);
    if !x.Ok? { return x; }
    var y := OnpLoop(u[p + 1..], v);
    return Glue(x, y, u[p]);
  }

  lemma OnpCuts(w: string, v: Version, u: string, p: int)
    requires Strip(w, v) == Ok(u) && p == if Bal(u, LOOSE) < 0 then Bal(u, TIGHT) else Bal(u, LOOSE)
    ensures p < |u| && |u| <= |w|
    ensures p < 0 ==> Onp(w, v) == Ok(u)
    ensures p >= 0 ==> Onp(w, v) == Glue(Onp(u[..p], v), Onp(u[p + 1..], v), u[p])
  {
    assert Cut(u) == p;
  }
}
