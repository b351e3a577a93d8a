// Tokens and expression trees, and when a tree is the reading of a run of tokens.
module Syntax {
  import opened Wrappers
  import opened Folding

  datatype Keyword =
    | AND | OR | NOT | IS | IN | BETWEEN | LIKE | ILIKE | NULL | COLLATE | TRUE | FALSE
    | EXISTS | CAST | CASE | WHEN | THEN | ELSE | END | AS | DISTINCT | SELECT | WITH
    | BOOL | BOOLEAN | INT | INT4 | INTEGER | BIGINT | INT8 | FLOAT8 | DOUBLE | PRECISION
    | TEXT | VARCHAR | TIMESTAMP | TIMESTAMPTZ | UUID | JSON | JSONB
    | Noise(spelling: string) | Reserved(spelling: string)

  datatype Token =
    | Word(kw: Keyword) | Ident(name: string) | Number(text: string) | StringLit(text: string) | Param(n: nat)
    | Comma | Semi | LParen | RParen | Dot | Star | Plus | Minus | Slash | Percent | Concat
    | Eq | NotEq | Lt | LtEq | Gt | GtEq | Eof

  // The engine drops parentheses around an expression; here they stay as `Grouped`, so that a
  // tree spells exactly the tokens it was read from.
  datatype Sql =
    | Constant(token: Token)
    | Column(parts: seq<Token>)
    | Unary(op: Token, arg: Sql)
    | Binary(op: Token, left: Sql, right: Sql)
    | IsNull(arg: Sql, negated: bool)
    | Between(arg: Sql, negated: bool, low: Sql, high: Sql)
    | Like(arg: Sql, negated: bool, folding: bool, pattern: Sql)
    | InList(arg: Sql, negated: bool, list: seq<Sql>)
    | Collate(arg: Sql, collation: Token)
    | Cast(arg: Sql, ty: seq<Token>)
    | CallStar(name: Token)
    | Call(name: Token, distinct: bool, args: seq<Sql>)
    | Case(operand: Option<Sql>, branches: seq<Branch>, otherwise: Option<Sql>)
    | Grouped(inner: Sql)

  datatype Branch = Branch(condition: Sql, result: Sql)

  datatype ParseError =
    | TooDeep | Unexpected(token: Token) | BadNumber | LongName | QualifiedCall | EmptyDistinct | HasSubquery

  // ---------------------------------------------------------------- tokens

  // A keyword that may also be a name.
  predicate Unreserved(kw: Keyword) {
    kw.Noise? || kw.PRECISION? || kw.DOUBLE? || kw.VARCHAR? || IsType(kw)
  }

  // A keyword that is a type by itself, without more words.
  predicate IsType(kw: Keyword) {
    || kw.BOOL? || kw.BOOLEAN? || kw.INT? || kw.INT4? || kw.INTEGER? || kw.BIGINT? || kw.INT8? || kw.FLOAT8? || kw.TEXT?
    || kw.TIMESTAMP? || kw.TIMESTAMPTZ? || kw.UUID? || kw.JSON? || kw.JSONB?
  }

  predicate IsName(t: Token) { t.Ident? || (t.Word? && Unreserved(t.kw)) }

  predicate IsConstant(t: Token) {
    t.Number? || t.StringLit? || t.Param? || (t.Word? && (t.kw.NULL? || t.kw.TRUE? || t.kw.FALSE?))
  }

  predicate IsTypeName(ts: seq<Token>) {
    || (|ts| == 1 && ts[0].Word? && (IsType(ts[0].kw) || ts[0].kw.VARCHAR?))
    || ts == [Word(DOUBLE), Word(PRECISION)]
    || (|ts| == 4 && ts[0] == Word(VARCHAR) && ts[1] == LParen && ts[2].Number? && ts[3] == RParen)
  }

  predicate IsTest(kw: Keyword) { kw.IN? || kw.BETWEEN? || kw.LIKE? || kw.ILIKE? }

  predicate IsRun(t: Token) { t.Word? && (t.kw.AND? || t.kw.OR?) }

  // How tightly an operator that continues an expression binds; zero if the token is none.
  function Precedence(t: Token, next: Token): (p: nat)
    ensures p <= 9
  {
    if t.Word? then
      if t.kw.OR? then 1
      else if t.kw.AND? then 2
      else if t.kw.IS? || IsTest(t.kw) || (t.kw.NOT? && next.Word? && IsTest(next.kw)) then 4
      else if t.kw.COLLATE? then 9
      else 0
    else OperatorPrecedence(t)
  }

  function OperatorPrecedence(t: Token): (p: nat)
    ensures p <= 8
  {
    if t.Eq? || t.NotEq? || t.Lt? || t.LtEq? || t.Gt? || t.GtEq? then 5
    else if t.Concat? then 6
    else if t.Plus? || t.Minus? then 7
    else if t.Star? || t.Slash? || t.Percent? then 8
    else 0
  }

  predicate IsSign(t: Token) { t.Plus? || t.Minus? || t == Word(NOT) }

  predicate StartsQuery(t: Token) { t.Word? && (t.kw.SELECT? || t.kw.WITH?) }

  predicate IsOperator(t: Token) { IsRun(t) || OperatorPrecedence(t) > 0 }

  // ------------------------------------------------------------- spelling

  function Negation(negated: bool): seq<Token> { if negated then [Word(NOT)] else [] }

  // The tokens of a tree, in order.
  function Words(e: Sql): seq<Token>
    decreases e
  {
    match e
    case Constant(t) => [t]
    case Column(parts) => Dotted(parts)
    case Unary(op, x) => [op] + Words(x)
    case Binary(op, l, r) => Words(l) + [op] + Words(r)
    case IsNull(x, negated) => Words(x) + [Word(IS)] + Negation(negated) + [Word(NULL)]
    case Between(x, negated, low, high) =>
      Words(x) + (Negation(negated) + [Word(BETWEEN)] + Words(low) + [Word(AND)] + Words(high))
    case Like(x, negated, folding, pattern) =>
      Words(x) + (Negation(negated) + [Word(if folding then ILIKE else LIKE)] + Words(pattern))
    case InList(x, negated, list) => Words(x) + (Negation(negated) + [Word(IN)] + [LParen] + Commas(list) + [RParen])
    case Collate(x, collation) => Words(x) + [Word(COLLATE), collation]
    case Cast(x, ty) => [Word(CAST), LParen] + Words(x) + [Word(AS)] + ty + [RParen]
    case CallStar(name) => [name, LParen, Star, RParen]
    case Call(name, distinct, args) => [name, LParen] + (if distinct then [Word(DISTINCT)] else []) + Commas(args)
      + [RParen]
    case Case(operand, branches, otherwise) =>
      [Word(CASE)] + (if operand.Some? then Words(operand.value) else []) + WhenWords(branches)
      + (if otherwise.Some? then [Word(ELSE)] + Words(otherwise.value) else []) + [Word(END)]
    case Grouped(x) => [LParen] + Words(x) + [RParen]
  }

  function Dotted(parts: seq<Token>): seq<Token> {
    if |parts| <= 1 then parts else Dotted(parts[..|parts| - 1]) + [Dot, parts[|parts| - 1]]
  }

  function Commas(es: seq<Sql>): seq<Token>
    decreases es
  {
    if es == [] then []
    else if |es| == 1 then Words(es[0])
    else Commas(es[..|es| - 1]) + [Comma] + Words(es[|es| - 1])
  }

  function WhenWords(branches: seq<Branch>): seq<Token>
    decreases branches
  {
    if branches == [] then [] else WhenWords(branches[..|branches| - 1]) + BranchWords(branches[|branches| - 1])
  }

  function BranchWords(b: Branch): seq<Token>
    decreases b
  {
    [Word(WHEN)] + Words(b.condition) + [Word(THEN)] + Words(b.result)
  }

  function OperandWords(operand: Option<Sql>): seq<Token> { if operand.Some? then Words(operand.value) else [] }

  function ElseWords(otherwise: Option<Sql>): seq<Token> {
    if otherwise.Some? then [Word(ELSE)] + Words(otherwise.value) else []
  }

  // ------------------------------------------------------------- grouping

  function Least(a: nat, b: nat): nat { if a < b then a else b }

  // What a prefix operator lets its operand be read down to.
  function SignBelow(op: Token): nat { if op == Word(NOT) then 3 else 8 }

  // The tightest operator that may follow a tree without having been read into it: each operator
  // on its right edge has a say.
  function Reach(e: Sql): nat
    decreases e
  {
    match e
    case Unary(op, x) => Least(SignBelow(op), Reach(x))
    case Binary(op, _, r) => Least(Precedence(op, Eof), Reach(r))
    case Between(_, _, _, high) => Least(5, Reach(high))
    case Like(_, _, _, pattern) => Least(4, Reach(pattern))
    case _ => 9
  }

  const NONE_LOOSE: nat := 10

  // The loosest operator down the left edge of a tree grouped as the precedences say, to the left
  // among equals; zero for any other tree. AND and OR may nest on either side of their own kind.
  function Loosest(e: Sql): (p: nat)
    ensures p <= NONE_LOOSE
    decreases e, 0
  {
    match e
    case Constant(t) => Grouping(IsConstant(t))
    case Column(parts) => Grouping(1 <= |parts| <= 2 && forall i :: 0 <= i < |parts| ==> IsName(parts[i]))
    case Unary(op, x) => Grouping(IsSign(op) && Loosest(x) > SignBelow(op))
    case Binary(op, l, r) =>
      var p := Precedence(op, Eof);
      if IsOperator(op) && Loosest(r) > RightAbove(p) then After(l, p) else 0
    case IsNull(x, _) => After(x, 4)
    case Between(x, _, low, high) => if Loosest(low) > 5 && Loosest(high) > 5 then After(x, 4) else 0
    case Like(x, _, _, pattern) => if Loosest(pattern) > 4 then After(x, 4) else 0
    case InList(x, _, list) => if forall i :: 0 <= i < |list| ==> Loosest(list[i]) > 0 then After(x, 4) else 0
    case Collate(x, collation) => if IsName(collation) then After(x, 9) else 0
    case Cast(x, ty) => Grouping(Loosest(x) > 0 && IsTypeName(ty))
    case CallStar(name) => Grouping(name.Ident?)
    case Call(name, distinct, args) =>
      Grouping(name.Ident? && (distinct ==> args != []) && forall i :: 0 <= i < |args| ==> Loosest(args[i]) > 0)
    case Case(operand, branches, otherwise) =>
      Grouping(&& (operand.Some? ==> Loosest(operand.value) > 0) && (otherwise.Some? ==> Loosest(otherwise.value) > 0)
               && branches != [] && forall i :: 0 <= i < |branches| ==> BranchGrouped(branches[i]))
    case Grouped(x) => Grouping(Loosest(x) > 0)
  }

  predicate BranchGrouped(b: Branch)
    decreases b, 0
  {
    Loosest(b.condition) > 0 && Loosest(b.result) > 0
  }

  function Grouping(right: bool): nat { if right then NONE_LOOSE else 0 }

  // A tree on the left of an operator of precedence `p`.
  function After(x: Sql, p: nat): (q: nat)
    ensures q <= p
    decreases x, 1
  {
    if p > Reach(x) then 0 else if Loosest(x) < p then Loosest(x) else p
  }

  function RightAbove(p: nat): nat { if 1 <= p <= 2 then p - 1 else p }

  // --------------------------------------------------------------- height

  function Height(e: Sql): nat
    decreases e
  {
    match e
    case Constant(_) => 1
    case Column(_) => 1
    case CallStar(_) => 1
    case Unary(_, x) => 1 + Height(x)
    case Binary(_, l, r) => 1 + Larger(Height(l), Height(r))
    case IsNull(x, _) => 1 + Height(x)
    case Between(x, _, low, high) => 1 + Larger(Height(x), Larger(Height(low), Height(high)))
    case Like(x, _, _, pattern) => 1 + Larger(Height(x), Height(pattern))
    case InList(x, _, list) => 1 + Larger(Height(x), Tallest(list))
    case Collate(x, _) => 1 + Height(x)
    case Cast(x, _) => 1 + Height(x)
    case Call(_, _, args) => 1 + Tallest(args)
    case Case(operand, branches, otherwise) => 1
      + Larger(Larger(OptionalHeight(operand), OptionalHeight(otherwise)), TallestBranch(branches))
    case Grouped(x) => Height(x)
  }

  function OptionalHeight(e: Option<Sql>): nat
    decreases e
  {
    if e.Some? then Height(e.value) else 0
  }

  function Tallest(es: seq<Sql>): nat
    decreases es
  {
    if es == [] then 0 else Larger(Tallest(es[..|es| - 1]), Height(es[|es| - 1]))
  }

  function TallestBranch(bs: seq<Branch>): nat
    decreases bs
  {
    if bs == [] then 0 else Larger(TallestBranch(bs[..|bs| - 1]), BranchHeight(bs[|bs| - 1]))
  }

  function BranchHeight(b: Branch): nat
    decreases b
  {
    Larger(Height(b.condition), Height(b.result))
  }

  // --------------------------------------------------------------- bounds

  const MAX_DEPTH: nat := 100

  // The doublings that reach `n`: its logarithm, rounded up.
  function Levels(n: nat): nat { if n <= 1 then 0 else 1 + Levels((n + 1) / 2) }

  lemma {:induction false} LevelsReach(n: nat)
    ensures n <= Pow2(Levels(n))
  {
    if n > 1 {
      LevelsReach((n + 1) / 2);
    }
  }

  // The height an expression can reach with `budget` levels of recursion left.
  function Bound(budget: int, levels: nat): nat {
    if budget < 2 then 0 else Bound(budget - 2, levels) + budget + 2 * levels
  }

  // Without the AND and OR runs of its own level, which only a low enough `min` lets in.
  function Limit(min: nat, budget: int, levels: nat): nat
    requires budget >= 2
  {
    Bound(budget - 2, levels) + budget + (if min == 0 then 2 * levels else if min == 1 then levels else 0)
  }

  lemma {:induction false} BoundStep(budget: int, levels: nat)
    ensures Bound(budget, levels) <= Bound(budget + 1, levels)
  {
    if budget >= 2 {
      BoundStep(budget - 2, levels);
    }
  }

  lemma {:induction false} BoundGrows(a: int, b: int, levels: nat)
    requires a <= b
    ensures Bound(a, levels) <= Bound(b, levels)
    decreases b - a
  {
    if a < b {
      BoundGrows(a, b - 1, levels);
      BoundStep(b - 1, levels);
    }
  }

  lemma {:induction false} BoundClosed(n: nat, levels: nat)
    ensures Bound(2 * n, levels) == n * (n + 1) + 2 * n * levels
  {
    if n > 0 {
      BoundClosed(n - 1, levels);
      assert Bound(2 * n, levels) == Bound(2 * (n - 1), levels) + 2 * n + 2 * levels;
      assert (n - 1) * n + 2 * n == n * (n + 1);
      assert 2 * (n - 1) * levels + 2 * levels == 2 * n * levels;
    }
  }
}
