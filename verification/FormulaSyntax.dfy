/** Formulas of the propositional calculator: trees, the texts that denote them and their
    postfix form.  A `Form` records where a text puts its parentheses; an `Expr` forgets them. */
module FormulaSyntax {

  datatype Op = Imp | And | Or

  function Sign(op: Op): char {
    match op
    case Imp => '>'
    case And => '&'
    case Or => '|'
  }

  predicate IsOp(c: char) {
    c == '&' || c == '>' || c == '|'
  }

  /** The operator that a sign stands for. */
  function OperatorOf(c: char): (op: Op)
    ensures IsOp(c) ==> Sign(op) == c
  {
    if c == '>' then Imp else if c == '&' then And else Or
  }

  predicate IsLetter(c: char) {
    'a' <= c <= 'z' || 'A' <= c <= 'Z'
  }

  /** The characters a formula is written with. */
  predicate InAlphabet(c: char) {
    IsLetter(c) || IsOp(c) || c == '(' || c == ')'
  }

  datatype Expr = Leaf(c: char) | Node(op: Op, l: Expr, r: Expr)

  function Vars(e: Expr): set<char> {
    match e
    case Leaf(c) => {c}
    case Node(_, l, r) => Vars(l) + Vars(r)
  }

  function Postfix(e: Expr): string {
    match e
    case Leaf(c) => [c]
    case Node(op, l, r) => Postfix(l) + Postfix(r) + [Sign(op)]
  }

  /** What an operator computes once both operands are known. */
  function Apply(op: Op, x: bool, y: bool): bool {
    match op
    case Imp => !x || y
    case And => x && y
    case Or => x || y
  }

  function Eval(e: Expr, a: map<char, bool>): bool
    requires Vars(e) <= a.Keys
  {
    match e
    case Leaf(c) => a[c]
    case Node(op, l, r) => Apply(op, Eval(l, a), Eval(r, a))
  }

  /** A derivation of E ::= letter | (E) | E op E. */
  datatype Form = Var(c: char) | Paren(f: Form) | Bin(op: Op, l: Form, r: Form)

  function Text(f: Form): string {
    match f
    case Var(c) => [c]
    case Paren(g) => "(" + Text(g) + ")"
    case Bin(op, l, r) => Text(l) + [Sign(op)] + Text(r)
  }

  function Tree(f: Form): Expr {
    match f
    case Var(c) => Leaf(c)
    case Paren(g) => Tree(g)
    case Bin(op, l, r) => Node(op, Tree(l), Tree(r))
  }

  /** Every variable is a letter; operators may associate in any way. */
  predicate Lettered(f: Form) {
    match f
    case Var(c) => IsLetter(c)
    case Paren(g) => Lettered(g)
    case Bin(_, l, r) => Lettered(l) && Lettered(r)
  }

  /** The operators that stand outside all parentheses. */
  function TopOps(f: Form): set<Op> {
    match f
    case Var(_) => {}
    case Paren(_) => {}
    case Bin(op, l, r) => TopOps(l) + {op} + TopOps(r)
  }

  /** The reading the calculator gives a text: '>' binds loosest, '&' and '|' share one level, and
      every operator associates to the left. */
  predicate Legal(f: Form) {
    match f
    case Var(c) => IsLetter(c)
    case Paren(g) => Legal(g)
    case Bin(op, l, r) =>
      && Legal(l) && Legal(r)
      && (op == Imp ==> Imp !in TopOps(r))
      && (op != Imp ==> Imp !in TopOps(l) && TopOps(r) == {})
  }

  /** How deep parentheses nest. */
  function Depth(f: Form): nat {
    match f
    case Var(_) => 0
    case Paren(g) => 1 + Depth(g)
    case Bin(_, l, r) => if Depth(l) < Depth(r) then Depth(r) else Depth(l)
  }

  function Core(f: Form): Form {
    if f.Paren? then Core(f.f) else f
  }

  lemma LegalIsLettered(f: Form)
    requires Legal(f)
    ensures Lettered(f)
  {
  }
}
