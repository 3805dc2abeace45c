/** The truth-table generator `gen` and the deciders `isTautology` and `areTheSame`. */
module FormulaDecide {
  import opened FormulaSyntax
  import opened FormulaText
  import opened FormulaCompile
  import opened FormulaValue

  // ---------------------------------------------------------------- gen

  function Pow2(n: nat): (p: nat)
    ensures p > 0
  {
    if n == 0 then 1 else 2 * Pow2(n - 1)
  }

  function Digit(d: nat): char
    requires d < 2
  {
    if d == 0 then '0' else '1'
  }

  /** bin(i) without its prefix. */
  function Binary(i: nat): string {
    if i < 2 then [Digit(i)] else Binary(i / 2) + [Digit(i % 2)]
  }

  function RightJustified(s: string, n: nat): string {
    if |s| >= n then s else seq(n - |s|, _ => '0') + s
  }

  function Gen(n: nat): seq<string> {
    seq(Pow2(n), i requires 0 <= i < Pow2(n) => RightJustified(Binary(i), n))
  }

  function Number(b: string): nat {
    if b == "" then 0
    else 2 * Number(b[..|b| - 1]) + if b[|b| - 1] == '1' then 1 else 0
  }

  lemma JustifiedStep(i: nat, n: nat)
    requires n > 1 && |Binary(i / 2)| <= n - 1
    ensures RightJustified(Binary(i), n) == RightJustified(Binary(i / 2), n - 1) + [Digit(i % 2)]
    ensures |Binary(i)| <= n
  {
    if i < 2 {
      assert Binary(i / 2) == "0" && Digit(i % 2) == Digit(i);
    } else {
      assert Binary(i) == Binary(i / 2) + [Digit(i % 2)];
    }
  }

  lemma {:induction false} RowIsNumeral(i: nat, n: nat)
    requires n > 0 && i < Pow2(n)
    ensures var r := RightJustified(Binary(i), n); |r| == n && Bits(r) && Number(r) == i
    ensures |Binary(i)| <= n
  {
    var r := RightJustified(Binary(i), n);
    if n == 1 {
      assert Pow2(1) == 2 && Number("") == 0;
      assert r == [Digit(i)] && r[..0] == "";
    } else {
      RowIsNumeral(i / 2, n - 1);
      JustifiedStep(i, n);
      assert r[..n - 1] == RightJustified(Binary(i / 2), n - 1);
    }
  }

  lemma {:induction false} NumeralIsRow(b: string)
    requires b != "" && Bits(b)
    ensures Number(b) < Pow2(|b|)
    ensures RightJustified(Binary(Number(b)), |b|) == b
  {
    var n := |b|;
    var c := b[..n - 1];
    assert b == c + [b[n - 1]];
    if n == 1 {
      assert c == "" && Number(c) == 0 && Pow2(1) == 2;
    } else {
      NumeralIsRow(c);
      RowIsNumeral(Number(c), n - 1);
      assert Number(b) / 2 == Number(c);
      JustifiedStep(Number(b), n);
    }
  }

  /** `gen` lists every row of n bits, and each of them once. */
  lemma GenIsExact(n: nat)
    requires n > 0
    ensures forall b :: b in Gen(n) <==> Bits(b) && |b| == n
    ensures forall i, j :: 0 <= i < j < |Gen(n)| ==> Gen(n)[i] != Gen(n)[j]
  {
    forall i | 0 <= i < |Gen(n)|
      ensures |Gen(n)[i]| == n && Bits(Gen(n)[i]) && Number(Gen(n)[i]) == i
    {
      RowIsNumeral(i, n);
    }
    forall b: string | Bits(b) && |b| == n
      ensures b in Gen(n)
    {
      NumeralIsRow(b);
      assert Gen(n)[Number(b)] == b;
    }
  }

  /** The table of no variables still has one row, of one bit. */
  lemma GenOfNone()
    ensures Gen(0) == ["0"]
  {
  }

  // ---------------------------------------------------------------- the deciders

  function ValueOf(p: Outcome<string>, val: string, v: Version): Outcome<bool> {
    match p
    case TypeError => TypeError
    case IndexError => IndexError
    case Ok(w) => Value(w, val, v)
  }

  /** The first answer that is not 1, or 1: what a loop with an early return reports. */
  function FirstFailure(rs: seq<Outcome<bool>>): Outcome<bool> {
    if rs == [] then Ok(true) else if rs[0] != Ok(true) then rs[0] else FirstFailure(rs[1..])
  }

  predicate AllHold(rs: seq<Outcome<bool>>) {
    forall i :: 0 <= i < |rs| ==> rs[i] == Ok(true)
  }

  lemma {:induction false} FirstFailureIs(rs: seq<Outcome<bool>>)
    requires forall i :: 0 <= i < |rs| ==> rs[i].Ok?
    ensures FirstFailure(rs).Ok? && (FirstFailure(rs).value <==> AllHold(rs))
  {
    if rs != [] && rs[0] == Ok(true) {
      FirstFailureIs(rs[1..]);
      assert forall i :: 0 < i < |rs| ==> rs[i] == rs[1..][i - 1];
    }
  }

  function Column(expr: string, rows: seq<string>, v: Version): (rs: seq<Outcome<bool>>)
    ensures |rs| == |rows|
    ensures forall i :: 0 <= i < |rows| ==> rs[i] == ValueOf(Onp(expr, v), rows[i], v)
  {
    var p := Onp(expr, v);
    seq(|rows|, i requires 0 <= i < |rows| => ValueOf(p, rows[i], v))
  }

  function IsTautology(expr: string, v: Version): Outcome<bool> {
    FirstFailure(Column(expr, Gen(|Foo(expr)|), v))
  }

  function Alike(r1: Outcome<bool>, r2: Outcome<bool>): Outcome<bool> {
    if !r1.Ok? then r1 else if !r2.Ok? then r2 else Ok(r1.value == r2.value)
  }

  function Compare(c1: seq<Outcome<bool>>, c2: seq<Outcome<bool>>): (rs: seq<Outcome<bool>>)
    requires |c1| == |c2|
    ensures |rs| == |c1|
    ensures forall i :: 0 <= i < |rs| ==> rs[i] == Alike(c1[i], c2[i])
  {
    seq(|c1|, i requires 0 <= i < |c1| => Alike(c1[i], c2[i]))
  }

  function AreTheSame(expr1: string, expr2: string, v: Version): Outcome<bool> {
    var rows := Gen(|Foo(expr1)|);
    if Foo(expr1) != Foo(expr2) then Ok(false)
    else FirstFailure(Compare(Column(expr1, rows, v), Column(expr2, rows, v)))
  }

  method IsTautologyLoop(expr: string, v: Version) returns (r: Outcome<bool>)
    ensures r == IsTautology(expr, v)
  {
    var rows := Gen(|Foo(expr)|);
    ghost var rs := Column(expr, rows, v);
    for i := 0 to |rows|
      invariant IsTautology(expr, v) == FirstFailure(rs[i..])
    {
      assert rs[i..][0] == rs[i] && rs[i..][1..] == rs[i + 1..];
      var p := OnpLoop(expr, v);
      if !p.Ok? { return p.PropagateFailure(); }
      var x := ValueLoop(p.value, rows[i], v);
      if x != Ok(true) { return x; }
    }
    return Ok(true);
  }

  /** The comparison of the two formulas on one row. */
  method CompareOn(expr1: string, expr2: string, val: string, v: Version) returns (r: Outcome<bool>)
    ensures r == Alike(ValueOf(Onp(expr1, v), val, v), ValueOf(Onp(expr2, v), val, v))
  {
    var p := OnpLoop(expr1, v);
    if !p.Ok? { return p.PropagateFailure(); }
    var x := ValueLoop(p.value, val, v);
    if !x.Ok? { return x; }
    var q := OnpLoop(expr2, v);
    if !q.Ok? { return q.PropagateFailure(); }
    var y := ValueLoop(q.value, val, v);
    return Alike(x, y);
  }

  method AreTheSameLoop(expr1: string, expr2: string, v: Version) returns (r: Outcome<bool>)
    ensures r == AreTheSame(expr1, expr2, v)
  {
    if Foo(expr1) != Foo(expr2) { return Ok(false); }
    var rows := Gen(|Foo(expr1)|);
    ghost var rs := Compare(Column(expr1, rows, v), Column(expr2, rows, v));
    assert AreTheSame(expr1, expr2, v) == FirstFailure(rs);
    r := CompareRows(expr1, expr2, rows, rs, v);
  }

  method CompareRows(expr1: string, expr2: string, rows: seq<string>, ghost rs: seq<Outcome<bool>>, v: Version)
    returns (r: Outcome<bool>)
    requires |rs| == |rows|
    requires forall i :: 0 <= i < |rs| ==>
               rs[i] == Alike(ValueOf(Onp(expr1, v), rows[i], v), ValueOf(Onp(expr2, v), rows[i], v))
    ensures r == FirstFailure(rs)
  {
    for i := 0 to |rows|
      invariant FirstFailure(rs) == FirstFailure(rs[i..])
    {
      assert rs[i..][0] == rs[i] && rs[i..][1..] == rs[i + 1..];
      var c := CompareOn(expr1, expr2, rows[i], v);
      if c != Ok(true) { return c; }
    }
    return Ok(true);
  }

  // ---------------------------------------------------------------- rows and assignments

  lemma {:induction false} LeaveFrame(e: Expr, a: map<char, bool>, b: map<char, bool>, v: Version)
    requires Vars(e) <= a.Keys && Vars(e) <= b.Keys
    requires forall c :: c in Vars(e) ==> a[c] == b[c]
    ensures Leave(e, a, v) == Leave(e, b, v)
  {
    if e.Node? {
      LeaveFrame(e.l, a, b, v);
      LeaveFrame(e.r, a, b, v);
    }
  }

  /** The row of the table that agrees with an assignment. */
  function RowOf(zm: string, a: map<char, bool>): string
    requires forall c :: c in zm ==> c in a
  {
    seq(|zm|, i requires 0 <= i < |zm| => if a[zm[i]] then '1' else '0')
  }

  lemma RowOfAgrees(zm: string, a: map<char, bool>)
    requires forall c :: c in zm ==> c in a
    ensures |RowOf(zm, a)| == |zm| && Bits(RowOf(zm, a))
    ensures forall c :: c in zm ==> Assignment(zm, RowOf(zm, a))[c] == a[c]
  {
    forall c | c in zm
      ensures Assignment(zm, RowOf(zm, a))[c] == a[c]
    {
      assert zm[IndexOf(zm, c)] == c;
    }
  }

  lemma {:induction false} FirstVar(e: Expr) returns (c: char)
    ensures c in Vars(e)
  {
    if e.Leaf? { c := e.c; } else { c := FirstVar(e.l); }
  }

  /** The condition under which `onp` succeeds: no condition as meant. */
  predicate Compilable(f: Form, v: Version) {
    Legal(f) && (v == AsWritten ==> Depth(f) < 2)
  }

  lemma ValueOfText(f: Form, zm: string, val: string, a: map<char, bool>, v: Version)
    requires Compilable(f, v) && zm == Foo(Text(f)) && Bits(val) && |val| == |zm| && a == Assignment(zm, val)
    ensures Vars(Tree(f)) <= a.Keys
    ensures ValueOf(Onp(Text(f), v), val, v) == Ok(Reported(Tree(f), a, v))
  {
    LegalIsLettered(f);
    LettersOfText(f);
    OnpCompiles(f, v);
    LettersOfPostfix(Tree(f));
    SameLettersSameFoo(Text(f), Postfix(Tree(f)));
    ValueOfPostfix(Tree(f), Postfix(Tree(f)), zm, val, a, v);
  }

  lemma FooNonEmpty(f: Form)
    requires Legal(f)
    ensures Foo(Text(f)) != ""
  {
    LegalIsLettered(f);
    LettersOfText(f);
    var c := FirstVar(Tree(f));
    assert c in Letters(Text(f));
    assert c in Foo(Text(f));
  }

  /** A question about assignments; as a value, so that tables can be reasoned about apart from the
      machine that fills them. */
  type Report = map<char, bool> -> bool

  function Answers(e: Expr, v: Version): Report {
    (a: map<char, bool>) => Vars(e) <= a.Keys && Reported(e, a, v)
  }

  ghost predicate Agree(vars: set<char>, a: map<char, bool>, b: map<char, bool>) {
    vars <= a.Keys && vars <= b.Keys && forall c :: c in vars ==> a[c] == b[c]
  }

  ghost predicate DependsOn(report: Report, vars: set<char>) {
    forall a: map<char, bool>, b: map<char, bool> :: Agree(vars, a, b) ==> report(a) == report(b)
  }

  predicate Assigns(a: map<char, bool>, vars: set<char>) {
    vars <= a.Keys
  }

  ghost predicate Always(report: Report, vars: set<char>) {
    forall a: map<char, bool> :: Assigns(a, vars) ==> report(a)
  }

  ghost predicate SameAnswers(r1: Report, r2: Report, vars: set<char>) {
    forall a: map<char, bool> :: Assigns(a, vars) ==> r1(a) == r2(a)
  }

  /** `rs` is the column of a report in the truth table with variables `zm` and rows `rows`. */
  ghost predicate IsColumn(report: Report, vars: set<char>, zm: string, rows: seq<string>, rs: seq<Outcome<bool>>) {
    && |rs| == |rows|
    && forall i :: 0 <= i < |rs| ==>
         && |zm| <= |rows[i]| && vars <= Assignment(zm, rows[i]).Keys
         && rs[i] == Ok(report(Assignment(zm, rows[i])))
  }

  /** Every assignment has a row. */
  ghost predicate Covers(vars: set<char>, zm: string, rows: seq<string>) {
    forall a: map<char, bool> :: Assigns(a, vars) ==>
      exists i :: 0 <= i < |rows| && |zm| <= |rows[i]| && Agree(vars, Assignment(zm, rows[i]), a)
  }

  lemma ColumnHolds(report: Report, vars: set<char>, zm: string, rows: seq<string>, rs: seq<Outcome<bool>>)
    requires IsColumn(report, vars, zm, rows, rs) && Always(report, vars)
    ensures AllHold(rs)
  {
    forall i | 0 <= i < |rs|
      ensures rs[i] == Ok(true)
    {
      assert Assigns(Assignment(zm, rows[i]), vars);
    }
  }

  lemma ReportHolds(report: Report, vars: set<char>, zm: string, rows: seq<string>, rs: seq<Outcome<bool>>,
                    a: map<char, bool>)
    requires IsColumn(report, vars, zm, rows, rs) && Covers(vars, zm, rows) && DependsOn(report, vars)
    requires AllHold(rs) && Assigns(a, vars)
    ensures report(a)
  {
    var i :| 0 <= i < |rows| && |zm| <= |rows[i]| && Agree(vars, Assignment(zm, rows[i]), a);
    assert rs[i] == Ok(true);
  }

  lemma TableDecides(report: Report, vars: set<char>, zm: string, rows: seq<string>, rs: seq<Outcome<bool>>)
    requires IsColumn(report, vars, zm, rows, rs) && Covers(vars, zm, rows) && DependsOn(report, vars)
    ensures FirstFailure(rs).Ok? && (FirstFailure(rs).value <==> Always(report, vars))
  {
    FirstFailureIs(rs);
    if AllHold(rs) {
      forall a: map<char, bool> | Assigns(a, vars)
        ensures report(a)
      {
        ReportHolds(report, vars, zm, rows, rs, a);
      }
    } else if Always(report, vars) {
      ColumnHolds(report, vars, zm, rows, rs);
    }
  }

  /** The comparison of two columns is the column of the comparison. */
  lemma TableCompares(r1: Report, r2: Report, vars: set<char>, zm: string, rows: seq<string>,
                      c1: seq<Outcome<bool>>, c2: seq<Outcome<bool>>)
    requires IsColumn(r1, vars, zm, rows, c1) && IsColumn(r2, vars, zm, rows, c2)
    requires Covers(vars, zm, rows) && DependsOn(r1, vars) && DependsOn(r2, vars)
    ensures FirstFailure(Compare(c1, c2)).Ok?
    ensures FirstFailure(Compare(c1, c2)).value <==> SameAnswers(r1, r2, vars)
  {
    var same: Report := (a: map<char, bool>) => r1(a) == r2(a);
    assert IsColumn(same, vars, zm, rows, Compare(c1, c2));
    assert DependsOn(same, vars);
    TableDecides(same, vars, zm, rows, Compare(c1, c2));
    assert Always(same, vars) <==> SameAnswers(r1, r2, vars);
  }

  /** `gen` covers every assignment to some variables. */
  lemma GenCovers(vars: set<char>, zm: string, rows: seq<string>)
    requires zm != "" && rows == Gen(|zm|)
    requires forall c :: c in zm <==> c in vars
    ensures Covers(vars, zm, rows)
  {
    forall a: map<char, bool> | Assigns(a, vars)
      ensures exists i :: 0 <= i < |rows| && |zm| <= |rows[i]| && Agree(vars, Assignment(zm, rows[i]), a)
    {
      GenIsExact(|zm|);
      RowOfAgrees(zm, a);
      assert RowOf(zm, a) in rows;
      var i :| 0 <= i < |rows| && rows[i] == RowOf(zm, a);
      assert Agree(vars, Assignment(zm, rows[i]), a);
    }
  }

  lemma FooIsVars(f: Form)
    requires Legal(f)
    ensures Foo(Text(f)) != "" && forall c :: c in Foo(Text(f)) <==> c in Vars(Tree(f))
  {
    FooNonEmpty(f);
    LegalIsLettered(f);
    LettersOfText(f);
    assert forall c :: c in Letters(Text(f)) <==> c in Text(f) && IsLetter(c);
  }

  lemma AnswersDepend(e: Expr, v: Version)
    ensures DependsOn(Answers(e, v), Vars(e))
  {
    forall a: map<char, bool>, b: map<char, bool> | Agree(Vars(e), a, b)
      ensures Answers(e, v)(a) == Answers(e, v)(b)
    {
      LeaveFrame(e, a, b, v);
    }
  }

  lemma ColumnOfText(f: Form, zm: string, rows: seq<string>, rs: seq<Outcome<bool>>, v: Version)
    requires Compilable(f, v)
    requires zm == Foo(Text(f)) && rows == Gen(|zm|) && rs == Column(Text(f), rows, v)
    ensures IsColumn(Answers(Tree(f), v), Vars(Tree(f)), zm, rows, rs)
  {
    FooNonEmpty(f);
    GenIsExact(|zm|);
    forall i | 0 <= i < |rows|
      ensures |rows[i]| == |zm| && Vars(Tree(f)) <= Assignment(zm, rows[i]).Keys
      ensures rs[i] == Ok(Answers(Tree(f), v)(Assignment(zm, rows[i])))
    {
      assert rows[i] in rows;
      ValueOfText(f, zm, rows[i], Assignment(zm, rows[i]), v);
    }
  }

  /** `isTautology` answers whether the machine reports 1 under every assignment. */
  lemma TautologyReported(f: Form, v: Version)
    requires Compilable(f, v)
    ensures IsTautology(Text(f), v).Ok?
    ensures IsTautology(Text(f), v).value <==> Always(Answers(Tree(f), v), Vars(Tree(f)))
  {
    var zm := Foo(Text(f));
    var rows := Gen(|zm|);
    var rs := Column(Text(f), rows, v);
    var report, vars := Answers(Tree(f), v), Vars(Tree(f));
    ColumnOfText(f, zm, rows, rs, v);
    FooIsVars(f);
    GenCovers(Vars(Tree(f)), zm, rows);
    AnswersDepend(Tree(f), v);
    TableDecides(report, vars, zm, rows, rs);
  }

  /** As written, `isTautology` raises exactly on texts that nest parentheses twice. */
  lemma TautologyRaises(f: Form)
    requires Legal(f)
    ensures IsTautology(Text(f), AsWritten) == TypeError <==> Depth(f) >= 2
  {
    if Depth(f) >= 2 {
      OnpRaises(f);
      assert Column(Text(f), Gen(|Foo(Text(f))|), AsWritten)[0] == TypeError;
    } else {
      TautologyReported(f, AsWritten);
    }
  }

  ghost predicate Tautology(e: Expr) {
    forall a: map<char, bool> :: Assigns(a, Vars(e)) ==> Eval(e, a)
  }

  ghost predicate Equivalent(d: Expr, e: Expr) {
    forall a: map<char, bool> :: Assigns(a, Vars(d)) && Assigns(a, Vars(e)) ==> Eval(d, a) == Eval(e, a)
  }

  lemma AnswersAsMeant(e: Expr, a: map<char, bool>)
    requires Vars(e) <= a.Keys
    ensures Answers(e, AsMeant)(a) == Eval(e, a)
  {
    LeaveAsMeant(e, a);
  }

  /** As meant, `isTautology` decides validity of every formula. */
  lemma TautologyDecided(f: Form)
    requires Legal(f)
    ensures IsTautology(Text(f), AsMeant).Ok?
    ensures IsTautology(Text(f), AsMeant).value <==> Tautology(Tree(f))
  {
    TautologyReported(f, AsMeant);
    forall a: map<char, bool> | Assigns(a, Vars(Tree(f)))
      ensures Answers(Tree(f), AsMeant)(a) == Eval(Tree(f), a)
    {
      AnswersAsMeant(Tree(f), a);
    }
  }

  lemma SameColumns(f: Form, g: Form, v: Version)
    requires Compilable(f, v) && Compilable(g, v)
    requires Foo(Text(f)) == Foo(Text(g)) && Vars(Tree(f)) == Vars(Tree(g))
    ensures AreTheSame(Text(f), Text(g), v).Ok?
    ensures AreTheSame(Text(f), Text(g), v).value <==>
            SameAnswers(Answers(Tree(f), v), Answers(Tree(g), v), Vars(Tree(f)))
  {
    var zm := Foo(Text(f));
    var rows := Gen(|zm|);
    var c1, c2 := Column(Text(f), rows, v), Column(Text(g), rows, v);
    var r1, r2, vars := Answers(Tree(f), v), Answers(Tree(g), v), Vars(Tree(f));
    ColumnOfText(f, zm, rows, c1, v);
    ColumnOfText(g, zm, rows, c2, v);
    FooIsVars(f);
    GenCovers(Vars(Tree(f)), zm, rows);
    AnswersDepend(Tree(f), v);
    AnswersDepend(Tree(g), v);
    TableCompares(r1, r2, vars, zm, rows, c1, c2);
  }

  /** `areTheSame` answers whether the variables agree and the machine always reports the same. */
  lemma SameReported(f: Form, g: Form, v: Version)
    requires Compilable(f, v) && Compilable(g, v)
    ensures AreTheSame(Text(f), Text(g), v).Ok?
    ensures AreTheSame(Text(f), Text(g), v).value <==>
            && Vars(Tree(f)) == Vars(Tree(g))
            && SameAnswers(Answers(Tree(f), v), Answers(Tree(g), v), Vars(Tree(f)))
  {
    LegalIsLettered(f);
    LegalIsLettered(g);
    LettersOfText(f);
    LettersOfText(g);
    FooDecidesLetters(Text(f), Text(g));
    if Foo(Text(f)) == Foo(Text(g)) {
      SameColumns(f, g, v);
    }
  }

  lemma SameAsMeant(d: Expr, e: Expr)
    requires Vars(d) == Vars(e)
    ensures SameAnswers(Answers(d, AsMeant), Answers(e, AsMeant), Vars(d)) <==> Equivalent(d, e)
  {
    forall a: map<char, bool> | Assigns(a, Vars(d))
      ensures Answers(d, AsMeant)(a) == Eval(d, a) && Answers(e, AsMeant)(a) == Eval(e, a)
    {
      AnswersAsMeant(d, a);
      AnswersAsMeant(e, a);
    }
  }

  /** As meant, `areTheSame` decides equivalence of formulas over the same variables. */
  lemma SameDecided(f: Form, g: Form)
    requires Legal(f) && Legal(g)
    ensures AreTheSame(Text(f), Text(g), AsMeant).Ok?
    ensures AreTheSame(Text(f), Text(g), AsMeant).value <==>
            Vars(Tree(f)) == Vars(Tree(g)) && Equivalent(Tree(f), Tree(g))
  {
    SameReported(f, g, AsMeant);
    if Vars(Tree(f)) == Vars(Tree(g)) {
      SameAsMeant(Tree(f), Tree(g));
    }
  }
}
