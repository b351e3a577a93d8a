// Tokens determine the tree that spells them, up to how runs of AND and of OR are nested: a tree
// is read back off its own spelling, left to right.
module Reading {
  import opened Wrappers
  import opened Syntax

  // ------------------------------------------------------- runs nested to the left

  // `left op right`, a run of `op` on the right being taken apart.
  function Graft(op: Token, left: Sql, right: Sql): Sql
    decreases right
  {
    if right.Binary? && right.op == op then Binary(op, Graft(op, left, right.left), right.right)
    else Binary(op, left, right)
  }

  lemma {:induction false} GraftStep(op: Token, left: Sql, l: Sql, r: Sql)
    ensures Graft(op, left, Binary(op, l, r)) == Binary(op, Graft(op, left, l), r)
  {
  }

  lemma {:induction false} GraftAssociates(op: Token, a: Sql, b: Sql, c: Sql)
    ensures Graft(op, Graft(op, a, b), c) == Graft(op, a, Graft(op, b, c))
    decreases c
  {
    if c.Binary? && c.op == op {
      GraftAssociates(op, a, b, c.left);
      GraftStep(op, a, Graft(op, b, c.left), c.right);
    } else {
      GraftStep(op, a, b, c);
    }
  }

  // The tree with every run of AND and of OR nested to the left.
  function Leftmost(e: Sql): Sql
    decreases e
  {
    match e
    case Constant(_) => e
    case Column(_) => e
    case CallStar(_) => e
    case Unary(op, x) => Unary(op, Leftmost(x))
    case Binary(op, l, r) => if IsRun(op) then Graft(op, Leftmost(l), Leftmost(r))
      else Binary(op, Leftmost(l), Leftmost(r))
    case IsNull(x, negated) => IsNull(Leftmost(x), negated)
    case Between(x, negated, low, high) => Between(Leftmost(x), negated, Leftmost(low), Leftmost(high))
    case Like(x, negated, folding, pattern) => Like(Leftmost(x), negated, folding, Leftmost(pattern))
    case InList(x, negated, list) => InList(Leftmost(x), negated, LeftmostAll(list))
    case Collate(x, collation) => Collate(Leftmost(x), collation)
    case Cast(x, ty) => Cast(Leftmost(x), ty)
    case Call(name, distinct, args) => Call(name, distinct, LeftmostAll(args))
    case Case(operand, branches, otherwise) =>
      Case(LeftmostIn(operand), LeftmostBranches(branches), LeftmostIn(otherwise))
    case Grouped(x) => Grouped(Leftmost(x))
  }

  function LeftmostIn(e: Option<Sql>): Option<Sql>
    decreases e
  {
    if e.Some? then Some(Leftmost(e.value)) else None
  }

  function LeftmostAll(es: seq<Sql>): seq<Sql>
    decreases es
  {
    if es == [] then [] else [Leftmost(es[0])] + LeftmostAll(es[1..])
  }

  function LeftmostBranches(bs: seq<Branch>): seq<Branch>
    decreases bs
  {
    if bs == [] then [] else [LeftmostBranch(bs[0])] + LeftmostBranches(bs[1..])
  }

  function LeftmostBranch(b: Branch): Branch
    decreases b
  {
    Branch(Leftmost(b.condition), Leftmost(b.result))
  }

  // ----------------------------------------------------------------- the reader

  datatype Read<T> = Got(value: T, rest: seq<Token>) | Stuck

  function At(ts: seq<Token>, i: nat): Token { if i < |ts| then ts[i] else Eof }

  function Ahead(ts: seq<Token>): nat { Precedence(At(ts, 0), At(ts, 1)) }

  function Drop(ts: seq<Token>, n: nat): (r: seq<Token>)
    ensures |r| <= |ts| && (0 < n && ts != [] ==> |r| < |ts|)
  {
    if n <= |ts| then ts[n..] else []
  }

  function ReadExpr(ts: seq<Token>, min: nat): (r: Read<Sql>)
    ensures r.Got? ==> |r.rest| < |ts|
    decreases |ts|, 3
  {
    var head := ReadPrefix(ts);
    if head.Stuck? then Stuck else ReadOn(head.value, head.rest, min)
  }

  // The operators that bind tighter than `min`.
  function ReadOn(left: Sql, ts: seq<Token>, min: nat): (r: Read<Sql>)
    ensures r.Got? ==> |r.rest| <= |ts|
    decreases |ts|, 2
  {
    if Ahead(ts) <= min then Got(left, ts)
    else
      var next := ReadInfix(left, ts);
      if next.Stuck? then Stuck else ReadOn(next.value, next.rest, min)
  }

  function ReadInfix(left: Sql, ts: seq<Token>): (r: Read<Sql>)
    requires Ahead(ts) > 0
    ensures r.Got? ==> |r.rest| < |ts|
    decreases |ts|, 1
  {
    var t := ts[0];
    if IsOperator(t) then
      var right := ReadExpr(ts[1..], Ahead(ts));
      if right.Stuck? then Stuck else Got(Binary(t, left, right.value), right.rest)
    else if t == Word(COLLATE) then Got(Collate(left, At(ts, 1)), Drop(ts, 2))
    else if t == Word(IS) then
      var negated := At(ts, 1) == Word(NOT);
      Got(IsNull(left, negated), Drop(ts, if negated then 3 else 2))
    else if t == Word(NOT) then ReadTest(left, true, ts[1..])
    else ReadTest(left, false, ts)
  }

  function ReadTest(left: Sql, negated: bool, ts: seq<Token>): (r: Read<Sql>)
    ensures r.Got? ==> |r.rest| < |ts|
    decreases |ts|, 0
  {
    if ts == [] then Stuck
    else if ts[0] == Word(BETWEEN) then
      var low := ReadExpr(ts[1..], 5);
      if low.Stuck? then Stuck
      else
        var high := ReadExpr(Drop(low.rest, 1), 5);
        if high.Stuck? then Stuck else Got(Between(left, negated, low.value, high.value), high.rest)
    else if ts[0] == Word(IN) then
      var list := ReadList(Drop(ts, 2));
      if list.Stuck? then Stuck else Got(InList(left, negated, list.value), list.rest)
    else
      var pattern := ReadExpr(ts[1..], 4);
      if pattern.Stuck? then Stuck else Got(Like(left, negated, ts[0] == Word(ILIKE), pattern.value), pattern.rest)
  }

  // The rest of a list, with its closing parenthesis.
  function ReadList(ts: seq<Token>): (r: Read<seq<Sql>>)
    ensures r.Got? ==> |r.rest| <= |ts|
    decreases |ts|, 5
  {
    if At(ts, 0) == RParen then Got([], ts[1..]) else ReadItems(ts)
  }

  function ReadItems(ts: seq<Token>): (r: Read<seq<Sql>>)
    ensures r.Got? ==> |r.rest| <= |ts|
    decreases |ts|, 4
  {
    var first := ReadExpr(ts, 0);
    if first.Stuck? then Stuck
    else if At(first.rest, 0) != Comma then Got([first.value], Drop(first.rest, 1))
    else
      var more := ReadItems(first.rest[1..]);
      if more.Stuck? then Stuck else Got([first.value] + more.value, more.rest)
  }

  function ReadPrefix(ts: seq<Token>): (r: Read<Sql>)
    ensures r.Got? ==> |r.rest| < |ts|
    decreases |ts|, 1
  {
    var t := At(ts, 0);
    if ts == [] then Stuck
    else if IsSign(t) then
      var arg := ReadExpr(ts[1..], SignBelow(t));
      if arg.Stuck? then Stuck else Got(Unary(t, arg.value), arg.rest)
    else if t == LParen then
      var inner := ReadExpr(ts[1..], 0);
      if inner.Stuck? then Stuck else Got(Grouped(inner.value), Drop(inner.rest, 1))
    else if t == Word(CAST) then ReadCast(ts)
    else if t == Word(CASE) then ReadCase(ts)
    else if IsConstant(t) then Got(Constant(t), ts[1..])
    else if At(ts, 1) == LParen then ReadCall(ts)
    else if At(ts, 1) == Dot then Got(Column([t, At(ts, 2)]), Drop(ts, 3))
    else Got(Column([t]), ts[1..])
  }

  function TypeLength(ts: seq<Token>): nat {
    if At(ts, 0) == Word(DOUBLE) then 2 else if At(ts, 0) == Word(VARCHAR) && At(ts, 1) == LParen then 4 else 1
  }

  function ReadCast(ts: seq<Token>): (r: Read<Sql>)
    requires ts != []
    ensures r.Got? ==> |r.rest| < |ts|
    decreases |ts|, 0
  {
    var arg := ReadExpr(Drop(ts, 2), 0);
    if arg.Stuck? then Stuck
    else
      var more := Drop(arg.rest, 1);
      var n := TypeLength(more);
      if n <= |more| then Got(Cast(arg.value, more[..n]), Drop(more, n + 1)) else Stuck
  }

  function ReadCall(ts: seq<Token>): (r: Read<Sql>)
    requires |ts| >= 2
    ensures r.Got? ==> |r.rest| < |ts|
    decreases |ts|, 0
  {
    if At(ts, 2) == Star then Got(CallStar(ts[0]), Drop(ts, 4))
    else
      var distinct := At(ts, 2) == Word(DISTINCT);
      var list := ReadList(Drop(ts, if distinct then 3 else 2));
      if list.Stuck? then Stuck else Got(Call(ts[0], distinct, list.value), list.rest)
  }

  function ReadCase(ts: seq<Token>): (r: Read<Sql>)
    requires ts != []
    ensures r.Got? ==> |r.rest| < |ts|
    decreases |ts|, 0
  {
    var operand := ReadOperand(ts[1..]);
    if operand.Stuck? then Stuck
    else
      var branches := ReadBranches(operand.rest);
      if branches.Stuck? then Stuck
      else
        var otherwise := ReadElse(branches.rest);
        if otherwise.Stuck? then Stuck
        else Got(Case(operand.value, branches.value, otherwise.value), Drop(otherwise.rest, 1))
  }

  function ReadOperand(ts: seq<Token>): (r: Read<Option<Sql>>)
    ensures r.Got? ==> |r.rest| <= |ts|
    decreases |ts|, 5
  {
    if At(ts, 0) == Word(WHEN) then Got(None, ts) else ReadSome(ts)
  }

  function ReadElse(ts: seq<Token>): (r: Read<Option<Sql>>)
    ensures r.Got? ==> |r.rest| <= |ts|
    decreases |ts|, 4
  {
    if At(ts, 0) == Word(ELSE) then ReadSome(ts[1..]) else Got(None, ts)
  }

  function ReadSome(ts: seq<Token>): (r: Read<Option<Sql>>)
    ensures r.Got? ==> |r.rest| <= |ts|
    decreases |ts|, 4
  {
    var e := ReadExpr(ts, 0);
    if e.Stuck? then Stuck else Got(Some(e.value), e.rest)
  }

  function ReadBranches(ts: seq<Token>): (r: Read<seq<Branch>>)
    ensures r.Got? ==> |r.rest| <= |ts|
    decreases |ts|, 4
  {
    if At(ts, 0) != Word(WHEN) then Got([], ts)
    else
      var condition := ReadExpr(ts[1..], 0);
      if condition.Stuck? then Stuck
      else
        var result := ReadExpr(Drop(condition.rest, 1), 0);
        if result.Stuck? then Stuck
        else
          var more := ReadBranches(result.rest);
          if more.Stuck? then Stuck else Got([Branch(condition.value, result.value)] + more.value, more.rest)
  }

  // ---------------------------------------------------------- the edges of a tree

  // What has nothing looser than AND or OR on its left edge lets nothing looser follow.
  lemma {:induction false} ReachAbove(e: Sql, m: nat)
    requires m <= 2 && Loosest(e) > m
    ensures Reach(e) > m
    decreases e
  {
    match e
    case Unary(_, x) => ReachAbove(x, m);
    case Binary(op, _, r) => ReachAbove(r, m);
    case Between(_, _, _, high) => ReachAbove(high, m);
    case Like(_, _, _, pattern) => ReachAbove(pattern, m);
    case _ =>
  }

  // Where a tighter operator may follow, the left edge has none looser.
  lemma {:induction false} EdgeAbove(e: Sql, q: nat)
    requires Loosest(e) > 0 && q <= 4 && q <= Reach(e)
    ensures q <= Loosest(e)
    decreases e
  {
    if Trails(e) {
      EdgeAbove(Host(e), q);
    }
  }

  // A tree whose operator comes after its first operand.
  predicate Trails(e: Sql) { e.Binary? || e.IsNull? || e.Between? || e.Like? || e.InList? || e.Collate? }

  function Host(e: Sql): Sql
    requires Trails(e)
  {
    if e.Binary? then e.left else e.arg
  }

  function Binds(e: Sql): nat
    requires Trails(e)
  {
    if e.Binary? then Precedence(e.op, Eof) else if e.Collate? then 9 else 4
  }

  // What follows the first operand, up to the end.
  function Tail(e: Sql, ts: seq<Token>): seq<Token>
    requires Trails(e)
  {
    match e
    case Binary(op, _, r) => [op] + (Words(r) + ts)
    case IsNull(_, negated) => [Word(IS)] + (Negation(negated) + ([Word(NULL)] + ts))
    case Between(_, negated, low, high) =>
      Negation(negated) + ([Word(BETWEEN)] + (Words(low) + ([Word(AND)] + (Words(high) + ts))))
    case Like(_, negated, folding, pattern) =>
      Negation(negated) + ([Word(if folding then ILIKE else LIKE)] + (Words(pattern) + ts))
    case InList(_, negated, list) =>
      Negation(negated) + ([Word(IN)] + ([LParen] + (Commas(list) + ([RParen] + ts))))
    case Collate(_, collation) => [Word(COLLATE)] + ([collation] + ts)
  }

  lemma {:induction false} Regrouped(u: seq<Token>, v: seq<Token>, w: seq<Token>)
    ensures u + v + w == u + (v + w)
  {
  }

  lemma {:induction false} Nested(a: seq<Token>, b: seq<Token>, c: seq<Token>, d: seq<Token>, e: seq<Token>,
                                  ts: seq<Token>)
    ensures a + b + c + d + e + ts == a + (b + (c + (d + (e + ts))))
  {
    Regrouped(a + b + c + d, e, ts);
    Regrouped(a + b + c, d, e + ts);
    Regrouped(a + b, c, d + (e + ts));
    Regrouped(a, b, c + (d + (e + ts)));
  }

  lemma {:induction false} Divided(e: Sql, ts: seq<Token>)
    requires Trails(e)
    ensures Words(e) + ts == Words(Host(e)) + Tail(e, ts)
  {
    if e.Between? {
      DividedBetween(e, ts);
    } else if e.Like? {
      DividedLike(e, ts);
    } else if e.InList? {
      DividedMembers(e, ts);
    } else if e.Binary? {
      assert Words(e) + ts == Words(e.left) + ([e.op] + (Words(e.right) + ts));
    } else if e.IsNull? {
      assert Words(e) + ts == Words(e.arg) + ([Word(IS)] + (Negation(e.negated) + ([Word(NULL)] + ts)));
    } else {
      assert Words(e) + ts == Words(e.arg) + ([Word(COLLATE)] + ([e.collation] + ts));
    }
  }

  lemma {:induction false} DividedBetween(e: Sql, ts: seq<Token>)
    requires e.Between?
    ensures Words(e) + ts == Words(e.arg) + Tail(e, ts)
  {
    var tail := Negation(e.negated) + [Word(BETWEEN)] + Words(e.low) + [Word(AND)] + Words(e.high);
    Regrouped(Words(e.arg), tail, ts);
    Nested(Negation(e.negated), [Word(BETWEEN)], Words(e.low), [Word(AND)], Words(e.high), ts);
  }

  lemma {:induction false} DividedLike(e: Sql, ts: seq<Token>)
    requires e.Like?
    ensures Words(e) + ts == Words(e.arg) + Tail(e, ts)
  {
    var not, like := Negation(e.negated), [Word(if e.folding then ILIKE else LIKE)];
    Regrouped(Words(e.arg), not + like + Words(e.pattern), ts);
    Regrouped(not + like, Words(e.pattern), ts);
    Regrouped(not, like, Words(e.pattern) + ts);
  }

  lemma {:induction false} DividedMembers(e: Sql, ts: seq<Token>)
    requires e.InList?
    ensures Words(e) + ts == Words(e.arg) + Tail(e, ts)
  {
    var tail := Negation(e.negated) + [Word(IN)] + [LParen] + Commas(e.list) + [RParen];
    Regrouped(Words(e.arg), tail, ts);
    Nested(Negation(e.negated), [Word(IN)], [LParen], Commas(e.list), [RParen], ts);
  }

  lemma {:induction false} HostBinds(e: Sql)
    requires Trails(e) && Loosest(e) > 0
    ensures Loosest(e) == After(Host(e), Binds(e)) && Binds(e) <= Reach(Host(e)) && Loosest(e) <= Loosest(Host(e))
    ensures Loosest(e) <= Binds(e)
  {
  }

  // What may follow a tree without being read into it.
  predicate Ends(ts: seq<Token>, reach: nat) { Ahead(ts) <= reach && At(ts, 0) != LParen && At(ts, 0) != Dot }

  lemma {:induction false} TailAhead(e: Sql, ts: seq<Token>)
    requires Trails(e) && Loosest(e) > 0
    ensures Ahead(Tail(e, ts)) == Binds(e) && Ends(Tail(e, ts), Binds(e))
  {
  }

  predicate Opens(t: Token) {
    IsSign(t) || t == LParen || t == Word(CAST) || t == Word(CASE) || IsConstant(t) || IsName(t)
  }

  lemma {:induction false} TwoParts(parts: seq<Token>)
    requires 1 <= |parts| <= 2
    ensures Dotted(parts) == if |parts| == 1 then parts else [parts[0], Dot, parts[1]]
  {
    assert Dotted(parts[..1]) == [parts[0]];
  }

  lemma {:induction false} FirstWord(e: Sql)
    requires Loosest(e) > 0
    ensures Words(e) != [] && Opens(Words(e)[0])
    decreases e
  {
    if Trails(e) {
      Divided(e, []);
      FirstWord(Host(e));
      assert Words(e) + [] == Words(e);
    } else if e.Column? {
      TwoParts(e.parts);
    }
  }

  // ----------------------------------------------------------------- reading back

  lemma {:induction false} Next(t: Token, ts: seq<Token>)
    ensures ([t] + ts)[1..] == ts && Drop([t] + ts, 1) == ts && At([t] + ts, 0) == t && At([t] + ts, 1) == At(ts, 0)
  {
  }

  lemma {:induction false} OperatorBinds(op: Token, next: Token)
    requires IsOperator(op)
    ensures Precedence(op, next) == Precedence(op, Eof) > 0
  {
  }

  lemma {:induction false} SameHead(e: Sql)
    ensures Leftmost(e).Binary? <==> e.Binary?
    ensures e.Binary? ==> Leftmost(e).op == e.op
  {
  }

  lemma {:induction false} OtherBinds(op: Token, e: Sql)
    requires IsRun(op) && Trails(e) && Loosest(e) > 0 && Precedence(op, Eof) <= Binds(e) && !(e.Binary? && e.op == op)
    ensures Precedence(op, Eof) < Binds(e)
  {
  }

  // What is no run of `op` binds tighter than one.
  lemma {:induction false} OtherRun(op: Token, e: Sql)
    requires IsRun(op) && Loosest(e) >= Precedence(op, Eof) && !(e.Binary? && e.op == op)
    ensures Loosest(e) > Precedence(op, Eof)
  {
    if Trails(e) {
      HostBinds(e);
      OtherBinds(op, e);
      EdgeAbove(Host(e), Precedence(op, Eof) + 1);
    }
  }

  lemma {:induction false} OperatorBack(op: Token, left: Sql, more: seq<Token>, right: Sql, ts: seq<Token>)
    requires IsOperator(op) && ReadExpr(more, Precedence(op, Eof)) == Got(right, ts)
    ensures Ahead([op] + more) == Precedence(op, Eof) > 0
            && ReadInfix(left, [op] + more) == Got(Binary(op, left, right), ts)
  {
    Next(op, more);
    OperatorBinds(op, At(more, 0));
  }

  lemma {:induction false} RunBack(op: Token, left: Sql, e: Sql, ts: seq<Token>, min: nat)
    requires IsRun(op) && min < Precedence(op, Eof) <= Loosest(e) && Ends(ts, Least(Precedence(op, Eof), Reach(e)))
    ensures ReadOn(left, [op] + (Words(e) + ts), min) == ReadOn(Graft(op, left, Leftmost(e)), ts, min)
    decreases e, 4
  {
    if e.Binary? && e.op == op {
      RunsBack(op, left, e, ts, min);
    } else {
      OtherRun(op, e);
      SameHead(e);
      StopsBack(e, ts, Precedence(op, Eof));
      OperatorBack(op, left, Words(e) + ts, Leftmost(e), ts);
    }
  }

  lemma {:induction false} RunsBack(op: Token, left: Sql, e: Sql, ts: seq<Token>, min: nat)
    requires IsRun(op) && e.Binary? && e.op == op && min < Precedence(op, Eof) <= Loosest(e)
    requires Ends(ts, Least(Precedence(op, Eof), Reach(e)))
    ensures ReadOn(left, [op] + (Words(e) + ts), min) == ReadOn(Graft(op, left, Leftmost(e)), ts, min)
    decreases e, 3
  {
    Divided(e, ts);
    HostBinds(e);
    TailAhead(e, ts);
    RunBack(op, left, e.left, Tail(e, ts), min);
    RunBack(op, Graft(op, left, Leftmost(e.left)), e.right, ts, min);
    GraftAssociates(op, left, Leftmost(e.left), Leftmost(e.right));
  }

  // A tree is read back off its spelling.
  lemma {:induction false} ReadsBack(e: Sql, ts: seq<Token>, min: nat)
    requires Loosest(e) > min && Ends(ts, Reach(e))
    ensures ReadExpr(Words(e) + ts, min) == ReadOn(Leftmost(e), ts, min)
    decreases e, 2
  {
    if Trails(e) {
      Divided(e, ts);
      HostBinds(e);
      TailAhead(e, ts);
      ReadsBack(Host(e), Tail(e, ts), min);
      if e.Binary? && IsRun(e.op) {
        RunBack(e.op, Leftmost(e.left), e.right, ts, min);
      } else {
        TailBack(e, ts);
      }
    } else {
      PrefixBack(e, ts);
    }
  }

  lemma {:induction false} StopsBack(e: Sql, ts: seq<Token>, min: nat)
    requires Loosest(e) > min && Ends(ts, Least(min, Reach(e)))
    ensures ReadExpr(Words(e) + ts, min) == Got(Leftmost(e), ts)
    decreases e, 3
  {
    ReadsBack(e, ts, min);
  }

  // Up to a word or a mark that is no operator.
  lemma {:induction false} ClosedBack(e: Sql, ts: seq<Token>)
    requires Loosest(e) > 0 && Ends(ts, 0)
    ensures ReadExpr(Words(e) + ts, 0) == Got(Leftmost(e), ts)
    decreases e, 4
  {
    StopsBack(e, ts, 0);
  }

  lemma {:induction false} TailBack(e: Sql, ts: seq<Token>)
    requires Trails(e) && Loosest(e) > 0 && !(e.Binary? && IsRun(e.op)) && Ends(ts, Reach(e))
    ensures Ahead(Tail(e, ts)) > 0 && ReadInfix(Leftmost(Host(e)), Tail(e, ts)) == Got(Leftmost(e), ts)
    decreases e, 1
  {
    if e.Binary? {
      StopsBack(e.right, ts, Precedence(e.op, Eof));
      OperatorBack(e.op, Leftmost(e.left), Words(e.right) + ts, Leftmost(e.right), ts);
    } else if e.IsNull? {
      IsNullBack(Leftmost(e.arg), e.negated, ts);
    } else if e.Collate? {
      CollateBack(Leftmost(e.arg), e.collation, ts);
    } else if e.Between? {
      BetweenBack(e, ts);
    } else if e.Like? {
      LikeBack(e, ts);
    } else {
      MembersBack(e, ts);
    }
  }

  lemma {:induction false} IsNullBack(left: Sql, negated: bool, ts: seq<Token>)
    ensures var all := [Word(IS)] + (Negation(negated) + ([Word(NULL)] + ts));
            Ahead(all) > 0 && ReadInfix(left, all) == Got(IsNull(left, negated), ts)
  {
    var all := [Word(IS)] + (Negation(negated) + ([Word(NULL)] + ts));
    assert Drop(all, if negated then 3 else 2) == ts;
  }

  lemma {:induction false} CollateBack(left: Sql, collation: Token, ts: seq<Token>)
    ensures var all := [Word(COLLATE)] + ([collation] + ts);
            Ahead(all) > 0 && ReadInfix(left, all) == Got(Collate(left, collation), ts)
  {
    assert Drop([Word(COLLATE)] + ([collation] + ts), 2) == ts;
  }

  lemma {:induction false} NotBack(left: Sql, test: seq<Token>, e: Sql, ts: seq<Token>)
    requires |test| > 0 && test[0].Word? && IsTest(test[0].kw) && ReadTest(left, true, test) == Got(e, ts)
    ensures Ahead([Word(NOT)] + test) > 0 && ReadInfix(left, [Word(NOT)] + test) == Got(e, ts)
  {
    Next(Word(NOT), test);
  }

  lemma {:induction false} PlainBack(left: Sql, test: seq<Token>, e: Sql, ts: seq<Token>)
    requires |test| > 0 && test[0].Word? && IsTest(test[0].kw) && ReadTest(left, false, test) == Got(e, ts)
    ensures Ahead(test) > 0 && ReadInfix(left, test) == Got(e, ts)
  {
  }

  lemma {:induction false} TestBack(left: Sql, negated: bool, test: seq<Token>, e: Sql, ts: seq<Token>)
    requires |test| > 0 && test[0].Word? && IsTest(test[0].kw) && ReadTest(left, negated, test) == Got(e, ts)
    ensures Ahead(Negation(negated) + test) > 0 && ReadInfix(left, Negation(negated) + test) == Got(e, ts)
  {
    if negated {
      NotBack(left, test, e, ts);
    } else {
      PlainBack(left, test, e, ts);
      assert [] + test == test;
    }
  }

  lemma {:induction false} LikeRead(left: Sql, negated: bool, folding: bool, more: seq<Token>, pattern: Sql,
                                    ts: seq<Token>)
    requires ReadExpr(more, 4) == Got(pattern, ts)
    ensures ReadTest(left, negated, [Word(if folding then ILIKE else LIKE)] + more)
         == Got(Like(left, negated, folding, pattern), ts)
  {
    Next(Word(if folding then ILIKE else LIKE), more);
  }

  lemma {:induction false} LikeBack(e: Sql, ts: seq<Token>)
    requires e.Like? && Loosest(e) > 0 && Ends(ts, Reach(e))
    ensures Ahead(Tail(e, ts)) > 0 && ReadInfix(Leftmost(Host(e)), Tail(e, ts)) == Got(Leftmost(e), ts)
    decreases e, 0
  {
    var more := Words(e.pattern) + ts;
    StopsBack(e.pattern, ts, 4);
    LikeRead(Leftmost(e.arg), e.negated, e.folding, more, Leftmost(e.pattern), ts);
    TestBack(Leftmost(e.arg), e.negated, [Word(if e.folding then ILIKE else LIKE)] + more, Leftmost(e), ts);
  }

  lemma {:induction false} BetweenRead(left: Sql, negated: bool, all: seq<Token>, low: Sql, more: seq<Token>, high: Sql,
                                       ts: seq<Token>)
    requires ReadExpr(all, 5) == Got(low, [Word(AND)] + more) && ReadExpr(more, 5) == Got(high, ts)
    ensures ReadTest(left, negated, [Word(BETWEEN)] + all) == Got(Between(left, negated, low, high), ts)
  {
    Next(Word(BETWEEN), all);
    Next(Word(AND), more);
  }

  lemma {:induction false} BetweenBack(e: Sql, ts: seq<Token>)
    requires e.Between? && Loosest(e) > 0 && Ends(ts, Reach(e))
    ensures Ahead(Tail(e, ts)) > 0 && ReadInfix(Leftmost(Host(e)), Tail(e, ts)) == Got(Leftmost(e), ts)
    decreases e, 0
  {
    var more := Words(e.high) + ts;
    var all := Words(e.low) + ([Word(AND)] + more);
    ReachAbove(e.low, 2);
    Next(Word(AND), more);
    StopsBack(e.low, [Word(AND)] + more, 5);
    StopsBack(e.high, ts, 5);
    BetweenRead(Leftmost(e.arg), e.negated, all, Leftmost(e.low), more, Leftmost(e.high), ts);
    TestBack(Leftmost(e.arg), e.negated, [Word(BETWEEN)] + all, Leftmost(e), ts);
  }

  lemma {:induction false} MembersBack(e: Sql, ts: seq<Token>)
    requires e.InList? && Loosest(e) > 0 && Ends(ts, Reach(e))
    ensures Ahead(Tail(e, ts)) > 0 && ReadInfix(Leftmost(Host(e)), Tail(e, ts)) == Got(Leftmost(e), ts)
    decreases e, 0
  {
    var all := Commas(e.list) + ([RParen] + ts);
    ListBack(e.list, ts);
    assert Drop([Word(IN)] + ([LParen] + all), 2) == all;
    TestBack(Leftmost(e.arg), e.negated, [Word(IN)] + ([LParen] + all), Leftmost(e), ts);
  }

  // ------------------------------------------------------------------------ lists

  lemma {:induction false} CommasCons(es: seq<Sql>)
    requires |es| >= 2
    ensures Commas(es) == Words(es[0]) + [Comma] + Commas(es[1..])
    decreases |es|
  {
    var n := |es| - 1;
    if n == 1 {
      assert es[..1] == [es[0]] && es[1..] == [es[1]];
    } else {
      CommasCons(es[..n]);
      assert es[..n][1..] == es[1..][..n - 1] && es[1..][n - 1] == es[n];
    }
  }

  lemma {:induction false} CommasOn(es: seq<Sql>, ts: seq<Token>)
    requires |es| >= 2
    ensures Commas(es) + ts == Words(es[0]) + ([Comma] + (Commas(es[1..]) + ts))
  {
    CommasCons(es);
    Regrouped(Words(es[0]) + [Comma], Commas(es[1..]), ts);
    Regrouped(Words(es[0]), [Comma], Commas(es[1..]) + ts);
  }

  lemma {:induction false} ListBack(es: seq<Sql>, ts: seq<Token>)
    requires forall i :: 0 <= i < |es| ==> Loosest(es[i]) > 0
    ensures ReadList(Commas(es) + ([RParen] + ts)) == Got(LeftmostAll(es), ts)
    decreases es, 1
  {
    if es == [] {
      assert Commas(es) + ([RParen] + ts) == [RParen] + ts;
      Next(RParen, ts);
    } else {
      ItemsOpen(es);
      ItemsBack(es, ts);
    }
  }

  lemma {:induction false} ItemsOpen(es: seq<Sql>)
    requires es != [] && Loosest(es[0]) > 0
    ensures Commas(es) != [] && Opens(Commas(es)[0])
  {
    FirstWord(es[0]);
    if |es| >= 2 {
      CommasCons(es);
    }
  }

  lemma {:induction false} LastRead(all: seq<Token>, e: Sql, ts: seq<Token>)
    requires ReadExpr(all, 0) == Got(e, [RParen] + ts)
    ensures ReadItems(all) == Got([e], ts)
  {
    Next(RParen, ts);
  }

  lemma {:induction false} ItemRead(all: seq<Token>, e: Sql, more: seq<Token>, es: seq<Sql>, ts: seq<Token>)
    requires ReadExpr(all, 0) == Got(e, [Comma] + more) && ReadItems(more) == Got(es, ts)
    ensures ReadItems(all) == Got([e] + es, ts)
  {
    Next(Comma, more);
  }

  lemma {:induction false} ItemsBack(es: seq<Sql>, ts: seq<Token>)
    requires es != [] && forall i :: 0 <= i < |es| ==> Loosest(es[i]) > 0
    ensures ReadItems(Commas(es) + ([RParen] + ts)) == Got(LeftmostAll(es), ts)
    decreases es, 0
  {
    if |es| == 1 {
      ClosedBack(es[0], [RParen] + ts);
      LastRead(Words(es[0]) + ([RParen] + ts), Leftmost(es[0]), ts);
      LeftmostOne(es);
    } else {
      CommasOn(es, [RParen] + ts);
      ClosedBack(es[0], [Comma] + (Commas(es[1..]) + ([RParen] + ts)));
      ItemsBack(es[1..], ts);
      ItemRead(Commas(es) + ([RParen] + ts), Leftmost(es[0]), Commas(es[1..]) + ([RParen] + ts), LeftmostAll(es[1..]),
        ts);
    }
  }

  lemma {:induction false} LeftmostOne(es: seq<Sql>)
    requires |es| == 1
    ensures LeftmostAll(es) == [Leftmost(es[0])]
  {
    assert LeftmostAll(es[1..]) == [];
  }

  // --------------------------------------------------------------------- operands

  lemma {:induction false} PrefixBack(e: Sql, ts: seq<Token>)
    requires Loosest(e) > 0 && !Trails(e) && Ends(ts, Reach(e))
    ensures ReadPrefix(Words(e) + ts) == Got(Leftmost(e), ts)
    decreases e, 1
  {
    if e.Unary? {
      StopsBack(e.arg, ts, SignBelow(e.op));
      SignRead(e.op, Words(e.arg) + ts, Leftmost(e.arg), ts);
      Regrouped([e.op], Words(e.arg), ts);
    } else if e.Grouped? {
      GroupBack(e, ts);
    } else if e.Cast? {
      CastBack(e, ts);
    } else if e.Case? {
      CaseBack(e, ts);
    } else if e.Constant? {
      Next(e.token, ts);
    } else if e.Column? {
      ColumnBack(e.parts, ts);
    } else if e.Call? {
      CallBack(e, ts);
    } else {
      StarBack(e.name, ts);
    }
  }

  lemma {:induction false} SignRead(op: Token, more: seq<Token>, arg: Sql, ts: seq<Token>)
    requires IsSign(op) && ReadExpr(more, SignBelow(op)) == Got(arg, ts)
    ensures ReadPrefix([op] + more) == Got(Unary(op, arg), ts)
  {
    Next(op, more);
  }

  lemma {:induction false} GroupRead(more: seq<Token>, inner: Sql, ts: seq<Token>)
    requires ReadExpr(more, 0) == Got(inner, [RParen] + ts)
    ensures ReadPrefix([LParen] + more) == Got(Grouped(inner), ts)
  {
    Next(LParen, more);
    Next(RParen, ts);
  }

  lemma {:induction false} GroupBack(e: Sql, ts: seq<Token>)
    requires e.Grouped? && Loosest(e) > 0
    ensures ReadPrefix(Words(e) + ts) == Got(Leftmost(e), ts)
    decreases e, 0
  {
    ClosedBack(e.inner, [RParen] + ts);
    GroupRead(Words(e.inner) + ([RParen] + ts), Leftmost(e.inner), ts);
    Regrouped([LParen] + Words(e.inner), [RParen], ts);
    Regrouped([LParen], Words(e.inner), [RParen] + ts);
  }

  lemma {:induction false} TypeBack(ty: seq<Token>, ts: seq<Token>)
    requires IsTypeName(ty)
    ensures TypeLength(ty + ([RParen] + ts)) == |ty|
  {
  }

  lemma {:induction false} CastTaken(all: seq<Token>, arg: Sql, rest: seq<Token>, ty: seq<Token>, ts: seq<Token>)
    requires all != [] && ReadExpr(Drop(all, 2), 0) == Got(arg, [Word(AS)] + rest)
    requires TypeLength(rest) == |ty| <= |rest| && rest[..|ty|] == ty && Drop(rest, |ty| + 1) == ts
    ensures ReadCast(all) == Got(Cast(arg, ty), ts)
  {
    Next(Word(AS), rest);
  }

  lemma {:induction false} CastRead(more: seq<Token>, arg: Sql, ty: seq<Token>, ts: seq<Token>)
    requires IsTypeName(ty) && ReadExpr(more, 0) == Got(arg, [Word(AS)] + (ty + ([RParen] + ts)))
    ensures ReadCast([Word(CAST), LParen] + more) == Got(Cast(arg, ty), ts)
  {
    var all, rest := [Word(CAST), LParen] + more, ty + ([RParen] + ts);
    assert Drop(all, 2) == more;
    TypeBack(ty, ts);
    assert rest[..|ty|] == ty && Drop(rest, |ty| + 1) == ts;
    CastTaken(all, arg, rest, ty, ts);
  }

  lemma {:induction false} CastBack(e: Sql, ts: seq<Token>)
    requires e.Cast? && Loosest(e) > 0
    ensures ReadPrefix(Words(e) + ts) == Got(Leftmost(e), ts)
    decreases e, 0
  {
    var rest := [Word(AS)] + (e.ty + ([RParen] + ts));
    ClosedBack(e.arg, rest);
    CastRead(Words(e.arg) + rest, Leftmost(e.arg), e.ty, ts);
    Nested([Word(CAST), LParen], Words(e.arg), [Word(AS)], e.ty, [RParen], ts);
  }

  lemma {:induction false} NameBack(name: Token, ts: seq<Token>)
    requires IsName(name) && Ends(ts, 9)
    ensures ReadPrefix([name] + ts) == Got(Column([name]), ts)
  {
    Next(name, ts);
  }

  lemma {:induction false} QualifiedBack(outer: Token, name: Token, ts: seq<Token>)
    requires IsName(outer)
    ensures ReadPrefix([outer, Dot, name] + ts) == Got(Column([outer, name]), ts)
  {
    assert Drop([outer, Dot, name] + ts, 3) == ts;
  }

  lemma {:induction false} ColumnBack(parts: seq<Token>, ts: seq<Token>)
    requires 1 <= |parts| <= 2 && IsName(parts[0]) && Ends(ts, 9)
    ensures ReadPrefix(Dotted(parts) + ts) == Got(Column(parts), ts)
  {
    TwoParts(parts);
    if |parts| == 1 {
      NameBack(parts[0], ts);
      assert parts == [parts[0]];
    } else {
      QualifiedBack(parts[0], parts[1], ts);
      assert parts == [parts[0], parts[1]];
    }
  }

  lemma {:induction false} CallRead(name: Token, distinct: bool, more: seq<Token>, args: seq<Sql>, ts: seq<Token>)
    requires name.Ident? && ReadList(more) == Got(args, ts)
    requires At(more, 0) != Star && At(more, 0) != Word(DISTINCT)
    ensures ReadPrefix([name, LParen] + ((if distinct then [Word(DISTINCT)] else []) + more))
         == Got(Call(name, distinct, args), ts)
  {
    var all := [name, LParen] + ((if distinct then [Word(DISTINCT)] else []) + more);
    assert Drop(all, if distinct then 3 else 2) == more;
  }

  lemma {:induction false} StarBack(name: Token, ts: seq<Token>)
    requires name.Ident?
    ensures ReadPrefix([name, LParen, Star, RParen] + ts) == Got(CallStar(name), ts)
  {
    assert Drop([name, LParen, Star, RParen] + ts, 4) == ts;
  }

  lemma {:induction false} CallSpelling(e: Sql, ts: seq<Token>)
    requires e.Call?
    ensures Words(e) + ts
         == [e.name, LParen] + ((if e.distinct then [Word(DISTINCT)] else []) + (Commas(e.args) + ([RParen] + ts)))
  {
    var mark := if e.distinct then [Word(DISTINCT)] else [];
    Regrouped([e.name, LParen] + mark + Commas(e.args), [RParen], ts);
    Regrouped([e.name, LParen] + mark, Commas(e.args), [RParen] + ts);
    Regrouped([e.name, LParen], mark, Commas(e.args) + ([RParen] + ts));
  }

  lemma {:induction false} CallBack(e: Sql, ts: seq<Token>)
    requires e.Call? && Loosest(e) > 0
    ensures ReadPrefix(Words(e) + ts) == Got(Leftmost(e), ts)
    decreases e, 0
  {
    ListBack(e.args, ts);
    ListOpens(e.args, ts);
    CallRead(e.name, e.distinct, Commas(e.args) + ([RParen] + ts), LeftmostAll(e.args), ts);
    CallSpelling(e, ts);
  }

  lemma {:induction false} ListOpens(es: seq<Sql>, ts: seq<Token>)
    requires es != [] ==> Loosest(es[0]) > 0
    ensures var t := At(Commas(es) + ([RParen] + ts), 0); t != Star && t != Word(DISTINCT)
  {
    if es != [] {
      ItemsOpen(es);
    }
  }

  // ------------------------------------------------------------------------- CASE

  lemma {:induction false} WhenCons(bs: seq<Branch>)
    requires bs != []
    ensures WhenWords(bs) == BranchWords(bs[0]) + WhenWords(bs[1..])
    decreases |bs|
  {
    var n := |bs| - 1;
    if n == 0 {
      assert bs[..0] == [] && bs[1..] == [];
    } else {
      WhenCons(bs[..n]);
      assert bs[..n][1..] == bs[1..][..n - 1] && bs[1..][n - 1] == bs[n];
      Regrouped(BranchWords(bs[0]), WhenWords(bs[1..][..n - 1]), BranchWords(bs[n]));
    }
  }

  lemma {:induction false} WhenOn(bs: seq<Branch>, ts: seq<Token>)
    requires bs != []
    ensures WhenWords(bs) + ts == [Word(WHEN)]
                                  + (Words(bs[0].condition)
                                     + ([Word(THEN)] + (Words(bs[0].result) + (WhenWords(bs[1..]) + ts))))
  {
    WhenCons(bs);
    Regrouped(BranchWords(bs[0]), WhenWords(bs[1..]), ts);
    Nested([], [Word(WHEN)], Words(bs[0].condition), [Word(THEN)], Words(bs[0].result), WhenWords(bs[1..]) + ts);
  }

  lemma {:induction false} BranchRead(all: seq<Token>, condition: Sql, more: seq<Token>, result: Sql, rest: seq<Token>,
                                      bs: seq<Branch>, ts: seq<Token>)
    requires ReadExpr(all, 0) == Got(condition, [Word(THEN)] + more) && ReadExpr(more, 0) == Got(result, rest)
    requires ReadBranches(rest) == Got(bs, ts)
    ensures ReadBranches([Word(WHEN)] + all) == Got([Branch(condition, result)] + bs, ts)
  {
    Next(Word(WHEN), all);
    Next(Word(THEN), more);
  }

  // What may follow the branches.
  predicate AfterBranches(ts: seq<Token>) { At(ts, 0) == Word(ELSE) || At(ts, 0) == Word(END) }

  lemma {:induction false} BranchesEnd(bs: seq<Branch>, ts: seq<Token>)
    requires AfterBranches(ts)
    ensures var all := WhenWords(bs) + ts; Ends(all, 0) && At(all, 0) == if bs == [] then At(ts, 0) else Word(WHEN)
  {
    if bs == [] {
      assert WhenWords(bs) + ts == ts;
    } else {
      WhenOn(bs, ts);
    }
  }

  lemma {:induction false} BranchesBack(bs: seq<Branch>, ts: seq<Token>)
    requires AfterBranches(ts) && forall i :: 0 <= i < |bs| ==> BranchGrouped(bs[i])
    ensures ReadBranches(WhenWords(bs) + ts) == Got(LeftmostBranches(bs), ts)
    decreases bs
  {
    if bs == [] {
      assert WhenWords(bs) + ts == ts;
    } else {
      BranchesBack(bs[1..], ts);
      BranchesEnd(bs[1..], ts);
      WhenOn(bs, ts);
      BranchBack(bs[0], WhenWords(bs[1..]) + ts, LeftmostBranches(bs[1..]), ts);
    }
  }

  lemma {:induction false} BranchBack(b: Branch, rest: seq<Token>, bs: seq<Branch>, ts: seq<Token>)
    requires BranchGrouped(b) && Ends(rest, 0) && ReadBranches(rest) == Got(bs, ts)
    ensures var all := Words(b.condition) + ([Word(THEN)] + (Words(b.result) + rest));
            ReadBranches([Word(WHEN)] + all) == Got([LeftmostBranch(b)] + bs, ts)
    decreases b
  {
    var more := Words(b.result) + rest;
    ClosedBack(b.condition, [Word(THEN)] + more);
    ClosedBack(b.result, rest);
    BranchRead(Words(b.condition) + ([Word(THEN)] + more), Leftmost(b.condition), more, Leftmost(b.result), rest, bs,
      ts);
  }

  lemma {:induction false} OperandRead(all: seq<Token>, e: Sql, ts: seq<Token>)
    requires ReadExpr(all, 0) == Got(e, ts) && At(all, 0) != Word(WHEN)
    ensures ReadOperand(all) == Got(Some(e), ts)
  {
  }

  lemma {:induction false} OpensWith(e: Sql, ts: seq<Token>)
    requires Loosest(e) > 0
    ensures At(Words(e) + ts, 0) != Word(WHEN)
  {
    FirstWord(e);
  }

  lemma {:induction false} OperandBack(operand: Option<Sql>, ts: seq<Token>)
    requires (operand.Some? ==> Loosest(operand.value) > 0) && At(ts, 0) == Word(WHEN)
    ensures ReadOperand(OperandWords(operand) + ts) == Got(LeftmostIn(operand), ts)
    decreases operand
  {
    if operand.Some? {
      var e := operand.value;
      OpensWith(e, ts);
      ClosedBack(e, ts);
      OperandRead(Words(e) + ts, Leftmost(e), ts);
    } else {
      assert OperandWords(operand) + ts == ts;
    }
  }

  lemma {:induction false} ElseBack(otherwise: Option<Sql>, ts: seq<Token>)
    requires (otherwise.Some? ==> Loosest(otherwise.value) > 0) && At(ts, 0) == Word(END)
    ensures ReadElse(ElseWords(otherwise) + ts) == Got(LeftmostIn(otherwise), ts)
    decreases otherwise
  {
    if otherwise.Some? {
      ClosedBack(otherwise.value, ts);
      Next(Word(ELSE), Words(otherwise.value) + ts);
      Regrouped([Word(ELSE)], Words(otherwise.value), ts);
    } else {
      assert ElseWords(otherwise) + ts == ts;
    }
  }

  lemma {:induction false} CaseRead(all: seq<Token>, operand: Option<Sql>, more: seq<Token>, bs: seq<Branch>,
                                    rest: seq<Token>, otherwise: Option<Sql>, ts: seq<Token>)
    requires ReadOperand(all) == Got(operand, more) && ReadBranches(more) == Got(bs, rest)
    requires ReadElse(rest) == Got(otherwise, [Word(END)] + ts)
    ensures ReadPrefix([Word(CASE)] + all) == Got(Case(operand, bs, otherwise), ts)
  {
    Next(Word(CASE), all);
    Next(Word(END), ts);
  }

  lemma {:induction false} CaseBack(e: Sql, ts: seq<Token>)
    requires e.Case? && Loosest(e) > 0
    ensures ReadPrefix(Words(e) + ts) == Got(Leftmost(e), ts)
    decreases e, 0
  {
    var rest := ElseWords(e.otherwise) + ([Word(END)] + ts);
    var more := WhenWords(e.branches) + rest;
    ElseBack(e.otherwise, [Word(END)] + ts);
    BranchesEnd(e.branches, rest);
    BranchesBack(e.branches, rest);
    OperandBack(e.operand, more);
    CaseRead(OperandWords(e.operand) + more, LeftmostIn(e.operand), more, LeftmostBranches(e.branches), rest,
             LeftmostIn(e.otherwise), ts);
    Nested([Word(CASE)], OperandWords(e.operand), WhenWords(e.branches), ElseWords(e.otherwise), [Word(END)], ts);
  }

  // Two well-grouped trees with one spelling differ at most in how runs of AND and of OR nest.
  lemma {:induction false} Unambiguous(a: Sql, b: Sql)
    requires Loosest(a) > 0 && Loosest(b) > 0 && Words(a) == Words(b)
    ensures Leftmost(a) == Leftmost(b)
  {
    ClosedBack(a, []);
    ClosedBack(b, []);
  }
}
