// The expression parser: precedence climbing, with recursion and left-deep folds charged to one
// depth budget and runs of AND and OR folded by halving.
module Parsing {
  import opened Wrappers
  import opened Folding
  import opened Syntax
  import opened Reading

  // ------------------------------------------------------------ runs of one operator

  function JoinBy(op: Token): (Sql, Sql) -> Sql { (l, r) => Binary(op, l, r) }

  ghost function Around(op: Token): (seq<Token>, seq<Token>) -> seq<Token> { (a, b) => a + [op] + b }

  ghost function WordsOf(): Sql -> seq<Token> { e => Words(e) }

  ghost function HeightOf(): Sql -> nat { e => Height(e) }

  // What may stand between two of a run's operators.
  ghost predicate Operand(e: Sql, p: nat) { Loosest(e) >= p && Reach(e) >= p }

  ghost function IsOperand(p: nat): Sql -> bool { e => Operand(e, p) }

  lemma {:induction false} RunWords(op: Token, ts: seq<Sql>)
    requires ts != []
    ensures Words(Fold(ts, JoinBy(op))) == Chain(Mapped(ts, WordsOf()), Around(op))
  {
    assert Associative(Around(op)) by {
      forall a: seq<Token>, b: seq<Token>, c: seq<Token>
        ensures Around(op)(Around(op)(a, b), c) == Around(op)(a, Around(op)(b, c))
      {
        assert a + [op] + b + [op] + c == a + [op] + (b + [op] + c);
      }
    }
    FoldCarries(ts, JoinBy(op), WordsOf(), Around(op));
    FoldIsChain(Mapped(ts, WordsOf()), Around(op));
  }

  lemma {:induction false} RunGrows(op: Token, ts: seq<Sql>, e: Sql)
    requires ts != []
    ensures Chain(Mapped(ts + [e], WordsOf()), Around(op)) == Chain(Mapped(ts, WordsOf()), Around(op)) + [op] + Words(e)
  {
    var ms := Mapped(ts + [e], WordsOf());
    assert ms[..|ts|] == Mapped(ts, WordsOf());
  }

  lemma {:induction false} RunSpelt(s: seq<Token>, first: Sql, op: Token, start: nat, from: nat, end: nat,
                                    ts: seq<Sql>, e: Sql)
    requires start <= from < end <= |s| && s[from] == op && s[from + 1..end] == Words(e) && ts != []
    requires Words(first) + s[start..from] == Chain(Mapped(ts, WordsOf()), Around(op))
    ensures Words(first) + s[start..end] == Chain(Mapped(ts + [e], WordsOf()), Around(op))
  {
    RunGrows(op, ts, e);
    Joined(s, from, from + 1, end, [op], Words(e));
    Joined(s, start, from, end, s[start..from], [op] + Words(e));
    Regrouped(Words(first), s[start..from], [op] + Words(e));
    Regrouped(Words(first) + s[start..from], [op], Words(e));
  }

  lemma {:induction false} RunBinds(op: Token, ts: seq<Sql>)
    requires ts != [] && IsRun(op) && forall i :: 0 <= i < |ts| ==> Operand(ts[i], Precedence(op, Eof))
    ensures Operand(Fold(ts, JoinBy(op)), Precedence(op, Eof))
  {
    var p := Precedence(op, Eof);
    forall a: Sql, b: Sql | Operand(a, p) && Operand(b, p) ensures IsOperand(p)(JoinBy(op)(a, b)) {
      assert After(a, p) == p && Loosest(b) > RightAbove(p);
      assert Operand(Binary(op, a, b), p);
    }
    FoldKeeps(ts, JoinBy(op), IsOperand(p));
  }

  lemma {:induction false} RunHeight(op: Token, ts: seq<Sql>, h: nat, n: nat)
    requires 0 < |ts| <= n && forall i :: 0 <= i < |ts| ==> Height(ts[i]) <= h
    ensures Height(Fold(ts, JoinBy(op))) <= h + Levels(n)
  {
    LevelsReach(n);
    assert Climbs(HeightOf(), JoinBy(op));
    LogarithmicHeight(ts, JoinBy(op), HeightOf(), Levels(n), h);
  }

  lemma {:induction false} Joined(s: seq<Token>, a: nat, b: nat, c: nat, u: seq<Token>, v: seq<Token>)
    requires a <= b <= c <= |s| && s[a..b] == u && s[b..c] == v
    ensures s[a..c] == u + v
  {
  }

  lemma {:induction false} CaseSpelt(s: seq<Token>, start: nat, a: nat, b: nat, c: nat, end: nat,
                                     operand: Option<Sql>, branches: seq<Branch>, otherwise: Option<Sql>)
    requires start <= a <= b <= c <= end <= |s| && s[start..a] == [Word(CASE)] && s[a..b] == OperandWords(operand)
    requires s[b..c] == WhenWords(branches) && s[c..end] == ElseWords(otherwise) + [Word(END)]
    ensures s[start..end] == Words(Case(operand, branches, otherwise))
  {
    var head := [Word(CASE)];
    Joined(s, start, a, b, head, OperandWords(operand));
    Joined(s, start, b, c, head + OperandWords(operand), WhenWords(branches));
    Joined(s, start, c, end, head + OperandWords(operand) + WhenWords(branches), ElseWords(otherwise) + [Word(END)]);
    Regrouped(head + OperandWords(operand) + WhenWords(branches), ElseWords(otherwise), [Word(END)]);
  }

  // A symbol binds alike whatever comes after it.
  lemma {:induction false} SymbolBinds(op: Token, next: Token)
    requires IsOperator(op) && !IsRun(op)
    ensures Precedence(op, next) == Precedence(op, Eof) >= 5
  {
  }

  lemma {:induction false} BinaryStands(s: seq<Token>, start: nat, end: nat, op: Token, left: Sql, right: Sql)
    requires IsOperator(op) && !IsRun(op) && Loosest(right) > Precedence(op, Eof)
    requires start < end <= |s| && s[start] == op && s[start + 1..end] == Words(right)
    ensures var e := Binary(op, left, right);
            && Words(e) == Words(left) + s[start..end] && Loosest(e) == After(left, Precedence(op, Eof))
            && Reach(e) == Least(Precedence(op, Eof), Reach(right))
              && Height(e) == 1 + Larger(Height(left), Height(right))
  {
    Joined(s, start, start + 1, end, [op], Words(right));
    Regrouped(Words(left), [op], Words(right));
  }

  lemma {:induction false} CaseStands(operand: Option<Sql>, branches: seq<Branch>, otherwise: Option<Sql>, room: nat)
    requires branches != [] && TallestBranch(branches) <= room && forall i :: 0 <= i < |branches| ==>
             BranchGrouped(branches[i])
    requires OptionalHeight(operand) <= room && (operand.Some? ==> Loosest(operand.value) > 0)
    requires OptionalHeight(otherwise) <= room && (otherwise.Some? ==> Loosest(otherwise.value) > 0)
    ensures Loosest(Case(operand, branches, otherwise)) == NONE_LOOSE
            && Height(Case(operand, branches, otherwise)) <= 1 + room
  {
  }

  lemma {:induction false} MembersStand(left: Sql, negated: bool, list: seq<Sql>, room: nat)
    requires Tallest(list) <= room && forall i :: 0 <= i < |list| ==> Loosest(list[i]) > 0
    ensures Loosest(InList(left, negated, list)) == After(left, 4) && Reach(InList(left, negated, list)) == 9
    ensures Height(InList(left, negated, list)) <= 1 + Larger(Height(left), room)
  {
  }

  lemma {:induction false} MembersSpelt(s: seq<Token>, start: nat, a: nat, b: nat, c: nat, end: nat, left: Sql,
                                        negated: bool, list: seq<Sql>)
    requires start <= a <= b <= c <= end <= |s| && s[start..a] == Negation(negated) + [Word(IN)] && s[a..b] == [LParen]
    requires s[b..c] == Commas(list) && s[c..end] == [RParen]
    ensures Words(InList(left, negated, list)) == Words(left) + s[start..end]
  {
    var head := Negation(negated) + [Word(IN)];
    Joined(s, start, a, b, head, [LParen]);
    Joined(s, start, b, c, head + [LParen], Commas(list));
    Joined(s, start, c, end, head + [LParen] + Commas(list), [RParen]);
  }

  lemma {:induction false} CastSpelt(s: seq<Token>, start: nat, a: nat, b: nat, end: nat, arg: Sql, ty: seq<Token>)
    requires start <= a <= b <= end <= |s| && s[start..a] == [Word(CAST), LParen] && s[a..b] == Words(arg)
    requires s[b..end] == [Word(AS)] + ty + [RParen]
    ensures s[start..end] == Words(Cast(arg, ty))
  {
    var head := [Word(CAST), LParen];
    Joined(s, start, a, b, head, Words(arg));
    Joined(s, start, b, end, head + Words(arg), [Word(AS)] + ty + [RParen]);
    Regrouped(head + Words(arg), [Word(AS)] + ty, [RParen]);
    Regrouped(head + Words(arg), [Word(AS)], ty);
  }

  lemma {:induction false} CallStands(name: Token, distinct: bool, args: seq<Sql>, room: nat)
    requires name.Ident? && (distinct ==> args != []) && Tallest(args) <= room && forall i :: 0 <= i < |args| ==>
             Loosest(args[i]) > 0
    ensures Loosest(Call(name, distinct, args)) == NONE_LOOSE && Height(Call(name, distinct, args)) <= 1 + room
  {
  }

  lemma {:induction false} CallSpelt(s: seq<Token>, start: nat, a: nat, b: nat, c: nat, end: nat, name: Token,
                                     distinct: bool, args: seq<Sql>)
    requires start <= a <= b <= c <= end <= |s| && s[start..a] == [name, LParen]
             && s[a..b] == (if distinct then [Word(DISTINCT)] else [])
    requires s[b..c] == Commas(args) && s[c..end] == [RParen]
    ensures s[start..end] == Words(Call(name, distinct, args))
  {
    var head, mark := [name, LParen], if distinct then [Word(DISTINCT)] else [];
    Joined(s, start, a, b, head, mark);
    Joined(s, start, b, c, head + mark, Commas(args));
    Joined(s, start, c, end, head + mark + Commas(args), [RParen]);
  }

  // How high a level's tree stands after its folds and its runs.
  ghost function Ceiling(budget: int, levels: nat, folds: nat, runs: nat): int {
    if runs == 0 then Bound(budget - 2, levels) + 1 + folds
    else Bound(budget - 2, levels) + budget + (if runs == 1 then levels else 2 * levels)
  }

  lemma {:induction false} LevelFits(min: nat, budget: int, levels: nat, folds: nat, runs: nat)
    requires budget >= 2 && folds < budget && runs <= 2 && (runs > 0 ==> min + runs <= 2)
    ensures Ceiling(budget, levels, folds, runs) <= Limit(min, budget, levels) <= Bound(budget, levels)
  {
  }

  lemma {:induction false} FoldFits(h: nat, left: nat, room: nat, depth: nat, budget: int, levels: nat, folds: nat)
    requires left <= Ceiling(budget, levels, folds, 0) && room == Bound(MAX_DEPTH - depth, levels)
    requires h <= 1 + Larger(left, room) && depth == MAX_DEPTH - budget + 2 + folds
    ensures h <= Ceiling(budget, levels, folds + 1, 0)
  {
    BoundGrows(MAX_DEPTH - depth, budget - 2, levels);
  }

  // -------------------------------------------------------------------- the parser

  class Parser {
    const tokens: seq<Token>
    const inRange: string -> bool
    var pos: nat
    var depth: nat

    constructor (tokens: seq<Token>, inRange: string -> bool)
      ensures this.tokens == tokens && this.inRange == inRange && pos == 0 && depth == 0
    {
      this.tokens := tokens;
      this.inRange := inRange;
      pos, depth := 0, 0;
    }

    function PeekAt(ahead: nat): Token
      reads this`pos
    {
      if pos + ahead < |tokens| then tokens[pos + ahead] else Eof
    }

    function Peek(): Token
      reads this`pos
    {
      PeekAt(0)
    }

    function PeekPrecedence(): (p: nat)
      reads this`pos
      ensures p <= 9
    {
      Precedence(Peek(), PeekAt(1))
    }

    ghost predicate Ready()
      reads this
    {
      pos <= |tokens| && depth <= MAX_DEPTH
    }

    // Also holds after a failure, which leaves the counter where it stood.
    ghost predicate InBounds()
      reads this
    {
      pos <= |tokens| && depth <= MAX_DEPTH + 1
    }

    // The height nested expressions can reach from here.
    ghost function Room(): nat
      reads this`depth
    {
      Bound(MAX_DEPTH - depth, Levels(|tokens|))
    }

    ghost predicate Reads(e: Sql, from: nat)
      reads this`pos
    {
      from < pos <= |tokens| && Words(e) == tokens[from..pos]
    }

    ghost predicate Extends(left: Sql, e: Sql, from: nat)
      reads this`pos
    {
      from < pos <= |tokens| && Words(e) == Words(left) + tokens[from..pos]
    }

    method Enter() returns (r: Result<(), ParseError>)
      modifies this`depth
      ensures depth == old(depth) + 1 && (r.Ok? <==> depth <= MAX_DEPTH)
    {
      depth := depth + 1;
      r := if depth > MAX_DEPTH then Err(TooDeep) else Ok(());
    }

    method Leave()
      modifies this`depth
      ensures depth == if old(depth) == 0 then 0 else old(depth) - 1
    {
      depth := if depth == 0 then 0 else depth - 1;
    }

    method LeaveAll(folds: nat)
      requires folds <= depth
      modifies this`depth
      ensures depth == old(depth) - folds
    {
      for k := 0 to folds
        invariant depth == old(depth) - k
        modifies this`depth
      {
        Leave();
      }
    }

    method Advance()
      requires pos <= |tokens|
      modifies this`pos
      ensures if old(pos) < |tokens| then pos == old(pos) + 1 && tokens[old(pos)..pos] == [tokens[old(pos)]]
              else pos == old(pos)
    {
      if pos < |tokens| {
        pos := pos + 1;
      }
    }

    method Eat(t: Token) returns (ate: bool)
      requires pos <= |tokens| && t != Eof
      modifies this`pos
      ensures ate <==> old(Peek()) == t
      ensures if ate then old(pos) < pos <= |tokens| && tokens[old(pos)..pos] == [t] && pos == old(pos) + 1
              else pos == old(pos)
    {
      ate := Peek() == t;
      if ate {
        Advance();
      }
    }

    method Expect(t: Token) returns (r: Result<(), ParseError>)
      requires pos <= |tokens| && t != Eof
      modifies this`pos
      ensures r.Ok? <==> old(Peek()) == t
      ensures if r.Ok? then old(pos) < pos <= |tokens| && tokens[old(pos)..pos] == [t] && pos == old(pos) + 1
              else pos == old(pos)
    {
      var ate := Eat(t);
      r := if ate then Ok(()) else Err(Unexpected(Peek()));
    }

    // ------------------------------------------------------------ names and types

    method ParseIdentifier() returns (r: Result<Token, ParseError>)
      requires pos <= |tokens|
      modifies this`pos
      ensures r.Ok? <==> IsName(old(Peek()))
      ensures if r.Ok? then pos == old(pos) + 1 <= |tokens| && r.value == tokens[old(pos)] && IsName(r.value)
              else pos == old(pos)
    {
      if !IsName(Peek()) {
        return Err(Unexpected(Peek()));
      }
      r := Ok(Peek());
      Advance();
    }

    method ParseObjectName() returns (r: Result<seq<Token>, ParseError>)
      requires pos <= |tokens|
      modifies this`pos
      ensures old(pos) <= pos <= |tokens|
      ensures r.Ok? ==>
              1 <= |r.value| <= 2 && (forall i :: 0 <= i < |r.value| ==> IsName(r.value[i]))
                && r.value[0] == old(Peek())
      ensures r.Ok? ==> old(pos) < pos && tokens[old(pos)..pos] == Dotted(r.value)
    {
      ghost var start := pos;
      var first :- ParseIdentifier();
      var parts := [first];
      while Peek() == Dot && IsName(PeekAt(1))
        invariant start < pos <= |tokens| && |parts| >= 1 && parts[0] == first
        invariant forall i :: 0 <= i < |parts| ==> IsName(parts[i])
        invariant tokens[start..pos] == Dotted(parts)
        decreases |tokens| - pos
      {
        Advance();
        var part :- ParseIdentifier();
        assert (parts + [part])[..|parts|] == parts;
        parts := parts + [part];
      }
      r := if |parts| > 2 then Err(LongName) else Ok(parts);
    }

    // The spelling of a type.
    method ParseDataType() returns (r: Result<seq<Token>, ParseError>)
      requires pos <= |tokens|
      modifies this`pos
      ensures old(pos) <= pos <= |tokens|
      ensures r.Ok? ==> old(pos) < pos && tokens[old(pos)..pos] == r.value && IsTypeName(r.value)
    {
      ghost var start := pos;
      var t := Peek();
      if t == Word(DOUBLE) {
        Advance();
        var _ :- Expect(Word(PRECISION));
        return Ok([t, Word(PRECISION)]);
      }
      if t == Word(VARCHAR) {
        Advance();
        var sized := Eat(LParen);
        if !sized {
          return Ok([t]);
        }
        var length := Peek();
        if !length.Number? {
          return Err(Unexpected(length));
        }
        Advance();
        var _ :- Expect(RParen);
        return Ok([t, LParen, length, RParen]);
      }
      if !IsTypeName([t]) {
        return Err(Unexpected(t));
      }
      Advance();
      r := Ok([t]);
    }

    // ---------------------------------------------------------------- expressions

    // Whether the next operator starts a run of AND or OR.
    predicate BooleanRun(min: nat)
      reads this`pos
    {
      (Peek() == Word(OR) && min < 1) || (Peek() == Word(AND) && min < 2)
    }

    // At one level folds come first, then at most one run of AND, then at most one of OR.
    ghost predicate Phase(min: nat, runs: nat)
      reads this`pos
    {
      runs <= 2 && (runs > 0 ==> min + runs <= 2 && PeekPrecedence() <= 2 - runs)
    }

    // What one level has read so far, `folds` of its operators charged to the budget.
    ghost predicate Level(left: Sql, min: nat, start: nat, budget: int, folds: nat, runs: nat)
      reads this
    {
      && Ready() && budget >= 2 && depth == MAX_DEPTH - budget + 1 + folds
      && Reads(left, start) && Loosest(left) > min && PeekPrecedence() <= Reach(left)
      && Phase(min, runs) && Height(left) <= Ceiling(budget, Levels(|tokens|), folds, runs)
    }

    // One more operator, charged to the budget.
    method ParseFold(left: Sql, min: nat, ghost start: nat, ghost budget: int, ghost folds: nat)
      returns (r: Result<Sql, ParseError>)
      requires Level(left, min, start, budget, folds, 0) && PeekPrecedence() > min && !IsRun(Peek())
      modifies this
      ensures InBounds()
      ensures r.Ok? ==> pos > old(pos) && Level(r.value, min, start, budget, folds + 1, 0)
      decreases MAX_DEPTH + 1 - depth, 5
    {
      ghost var from := pos;
      var precedence := PeekPrecedence();
      var _ :- Enter();
      var e :- ParseInfix(left, precedence);
      FoldFits(Height(e), Height(left), Room(), depth, budget, Levels(|tokens|), folds);
      Joined(tokens, start, from, pos, tokens[start..from], tokens[from..pos]);
      r := Ok(e);
    }

    // One run of AND or of OR.
    method ParseRun(left: Sql, min: nat, ghost start: nat, ghost budget: int, ghost folds: nat, ghost runs: nat)
      returns (r: Result<Sql, ParseError>, ghost ran: nat)
      requires Level(left, min, start, budget, folds, runs) && BooleanRun(min)
      modifies this
      ensures InBounds()
      ensures r.Ok? ==> pos > old(pos) && Level(r.value, min, start, budget, folds, ran)
      decreases MAX_DEPTH + 1 - depth, 6
    {
      ghost var levels, from := Levels(|tokens|), pos;
      var precedence := PeekPrecedence();
      BoundGrows(MAX_DEPTH - depth - 2, budget - 2, levels);
      r := ParseBooleanRun(left, Peek(), precedence, Limit(precedence, budget, levels));
      ran := 3 - precedence;
      if r.Ok? {
        Joined(tokens, start, from, pos, tokens[start..from], tokens[from..pos]);
      }
    }

    // The operators of one level, as long as they bind tighter than `min`.
    method ParseOperators(first: Sql, min: nat, ghost start: nat, ghost budget: int)
      returns (r: Result<Sql, ParseError>, folds: nat, ghost runs: nat)
      requires Level(first, min, start, budget, 0, 0)
      modifies this
      ensures InBounds()
      ensures r.Ok? ==> Level(r.value, min, start, budget, folds, runs) && PeekPrecedence() <= min
      decreases MAX_DEPTH + 1 - depth, 7
    {
      var left := first;
      folds, runs := 0, 0;
      while PeekPrecedence() > min
        invariant Level(left, min, start, budget, folds, runs)
        decreases |tokens| - pos
      {
        if BooleanRun(min) {
          r, runs := ParseRun(left, min, start, budget, folds, runs);
        } else {
          r := ParseFold(left, min, start, budget, folds);
          folds := folds + 1;
        }
        if r.Err? {
          return;
        }
        left := r.value;
      }
      r := Ok(left);
    }

    // An expression whose operators all bind tighter than `min`, ending where the next does not.
    method ParseSubexpr(min: nat) returns (r: Result<Sql, ParseError>)
      requires Ready() && min < NONE_LOOSE
      modifies this
      ensures InBounds()
      ensures r.Ok? ==> depth == old(depth) && Reads(r.value, old(pos)) && Loosest(r.value) > min >= PeekPrecedence()
      ensures r.Ok? ==> depth + 2 <= MAX_DEPTH && Height(r.value) <= Limit(min, MAX_DEPTH - depth, Levels(|tokens|))
      ensures r.Ok? ==> Height(r.value) <= Room() && PeekPrecedence() <= Reach(r.value)
      decreases MAX_DEPTH + 1 - depth, 3
    {
      ghost var start, budget := pos, MAX_DEPTH - depth;
      var _ :- Enter();
      var first :- ParsePrefix();
      var folds;
      ghost var runs;
      r, folds, runs := ParseOperators(first, min, start, budget);
      if r.Ok? {
        LevelFits(min, budget, Levels(|tokens|), folds, runs);
        LeaveAll(folds);
        Leave();
      }
    }

    // The operands of a run read so far.
    ghost predicate Running(first: Sql, op: Token, start: nat, operands: seq<Sql>, tallest: nat)
      reads this
    {
      && Ready() && start <= pos && 0 < |operands| <= pos
      && (if pos == start then Peek() == op else PeekPrecedence() <= Precedence(op, Eof))
      && Words(first) + tokens[start..pos] == Chain(Mapped(operands, WordsOf()), Around(op))
      && forall i :: 0 <= i < |operands| ==> Operand(operands[i], Precedence(op, Eof)) && Height(operands[i]) <= tallest
    }

    method ParseOperand(ghost first: Sql, op: Token, precedence: nat, operands: seq<Sql>, ghost start: nat,
                        ghost tallest: nat)
      returns (r: Result<seq<Sql>, ParseError>)
      requires IsRun(op) && precedence == Precedence(op, Eof) && Running(first, op, start, operands, tallest)
               && Peek() == op
      requires depth + 2 <= MAX_DEPTH ==> Limit(precedence, MAX_DEPTH - depth, Levels(|tokens|)) <= tallest
      modifies this
      ensures InBounds()
      ensures r.Ok? ==> depth == old(depth) && pos > old(pos) && Running(first, op, start, r.value, tallest)
      decreases MAX_DEPTH + 1 - depth, 4
    {
      ghost var from := pos;
      Advance();
      var operand :- ParseSubexpr(precedence);
      ReachAbove(operand, precedence);
      RunSpelt(tokens, first, op, start, from, pos, operands, operand);
      r := Ok(operands + [operand]);
    }

    // A run of AND or of OR after its first operand, folded by halving.
    method ParseBooleanRun(first: Sql, op: Token, precedence: nat, ghost tallest: nat)
      returns (r: Result<Sql, ParseError>)
      requires Ready() && pos > 0 && IsRun(op) && precedence == Precedence(op, Eof) && Peek() == op
      requires precedence <= Reach(first) && Loosest(first) > 0
      requires Height(first) <= tallest
      requires depth + 2 <= MAX_DEPTH ==> Limit(precedence, MAX_DEPTH - depth, Levels(|tokens|)) <= tallest
      modifies this
      ensures InBounds()
      ensures r.Ok? ==> depth == old(depth) && Extends(first, r.value, old(pos)) && Loosest(r.value) >= precedence
      ensures r.Ok? ==> PeekPrecedence() <= precedence <= Reach(r.value) && Peek() != op
      ensures r.Ok? ==> Height(r.value) <= tallest + Levels(|tokens|)
      decreases MAX_DEPTH + 1 - depth, 5
    {
      ghost var start := pos;
      var operands := [first];
      if precedence == 2 {
        EdgeAbove(first, 2);
      }
      assert Mapped(operands, WordsOf()) == [Words(first)];
      while Peek() == op
        invariant Running(first, op, start, operands, tallest) && depth == old(depth)
        decreases |tokens| - pos
      {
        operands :- ParseOperand(first, op, precedence, operands, start, tallest);
      }
      RunWords(op, operands);
      RunBinds(op, operands);
      RunHeight(op, operands, tallest, |tokens|);
      var tree := Balance(operands, JoinBy(op));
      r := Ok(tree);
    }

    // One operator that is not part of such a run, with what stands on its right.
    method ParseInfix(left: Sql, precedence: nat) returns (r: Result<Sql, ParseError>)
      requires Ready() && 0 < precedence == PeekPrecedence() <= Reach(left) && !IsRun(Peek())
      modifies this
      ensures InBounds()
      ensures r.Ok? ==>
              depth == old(depth) && Extends(left, r.value, old(pos)) && Loosest(r.value) == After(left, precedence)
      ensures r.Ok? ==> PeekPrecedence() <= Reach(r.value) && Height(r.value) <= 1 + Larger(Height(left), Room())
      decreases MAX_DEPTH + 1 - depth, 9
    {
      ghost var start := pos;
      var collated := Eat(Word(COLLATE));
      if collated {
        r := ParseCollation(left, start);
        return;
      }
      var tested := Eat(Word(IS));
      if tested {
        r := ParseNullTest(left, start);
        return;
      }
      var negated := Eat(Word(NOT));
      r := ParseNegatable(left, precedence, negated, start);
    }

    // The tokens since `start`.
    ghost predicate Since(start: nat, head: seq<Token>)
      reads this`pos
    {
      start < pos <= |tokens| && tokens[start..pos] == head
    }

    // After COLLATE.
    method ParseCollation(left: Sql, ghost start: nat) returns (r: Result<Sql, ParseError>)
      requires Ready() && Since(start, [Word(COLLATE)])
      modifies this`pos
      ensures InBounds()
      ensures r.Ok? ==> Extends(left, r.value, start) && Loosest(r.value) == After(left, 9) && Reach(r.value) == 9
      ensures r.Ok? ==> Height(r.value) == 1 + Height(left)
    {
      var name :- ParseIdentifier();
      r := Ok(Collate(left, name));
    }

    // After IS.
    method ParseNullTest(left: Sql, ghost start: nat) returns (r: Result<Sql, ParseError>)
      requires Ready() && Since(start, [Word(IS)])
      modifies this`pos
      ensures InBounds()
      ensures r.Ok? ==> Extends(left, r.value, start) && Loosest(r.value) == After(left, 4) && Reach(r.value) == 9
      ensures r.Ok? ==> Height(r.value) == 1 + Height(left)
    {
      ghost var a := pos;
      var negated := Eat(Word(NOT));
      ghost var b := pos;
      var _ :- Expect(Word(NULL));
      Joined(tokens, start, a, b, [Word(IS)], Negation(negated));
      Joined(tokens, start, b, pos, [Word(IS)] + Negation(negated), [Word(NULL)]);
      r := Ok(IsNull(left, negated));
    }

    // What may follow a NOT that comes after an expression, and the binary operators.
    method ParseNegatable(left: Sql, precedence: nat, negated: bool, ghost start: nat)
      returns (r: Result<Sql, ParseError>)
      requires Ready() && start <= pos && tokens[start..pos] == Negation(negated)
      requires precedence <= Reach(left) && !IsRun(Peek()) && precedence == if negated then 4 else PeekPrecedence()
      modifies this
      ensures InBounds()
      ensures r.Ok? ==>
              depth == old(depth) && Extends(left, r.value, start) && Loosest(r.value) == After(left, precedence)
      ensures r.Ok? ==> PeekPrecedence() <= Reach(r.value) && Height(r.value) <= 1 + Larger(Height(left), Room())
      decreases MAX_DEPTH + 1 - depth, 8
    {
      var t := Peek();
      if t == Word(BETWEEN) {
        Advance();
        r := ParseRange(left, negated, start);
      } else if t == Word(LIKE) || t == Word(ILIKE) {
        Advance();
        r := ParsePattern(left, negated, t == Word(ILIKE), precedence, start);
      } else if t == Word(IN) {
        Advance();
        r := ParseMembers(left, negated, start);
      } else if negated || !IsOperator(t) {
        r := Err(Unexpected(t));
      } else {
        r := ParseOperation(left, precedence);
      }
    }

    method ParseOperation(left: Sql, precedence: nat) returns (r: Result<Sql, ParseError>)
      requires Ready() && IsOperator(Peek()) && precedence == PeekPrecedence() <= Reach(left) && !IsRun(Peek())
      modifies this
      ensures InBounds()
      ensures r.Ok? ==>
              depth == old(depth) && Extends(left, r.value, old(pos)) && Loosest(r.value) == After(left, precedence)
      ensures r.Ok? ==> PeekPrecedence() <= Reach(r.value) && Height(r.value) <= 1 + Larger(Height(left), Room())
      decreases MAX_DEPTH + 1 - depth, 7
    {
      ghost var start := pos;
      var op := Peek();
      SymbolBinds(op, PeekAt(1));
      Advance();
      var right :- ParseSubexpr(precedence);
      BinaryStands(tokens, start, pos, op, left, right);
      r := Ok(Binary(op, left, right));
    }

    // After [NOT] BETWEEN.
    method ParseRange(left: Sql, negated: bool, ghost start: nat) returns (r: Result<Sql, ParseError>)
      requires Ready() && Since(start, Negation(negated) + [Word(BETWEEN)]) && 4 <= Reach(left)
      modifies this
      ensures InBounds()
      ensures r.Ok? ==> depth == old(depth) && Extends(left, r.value, start) && Loosest(r.value) == After(left, 4)
      ensures r.Ok? ==> PeekPrecedence() <= Reach(r.value) && Height(r.value) <= 1 + Larger(Height(left), Room())
      decreases MAX_DEPTH + 1 - depth, 5
    {
      ghost var a := pos;
      var low :- ParseSubexpr(5);
      ghost var b := pos;
      var _ :- Expect(Word(AND));
      ghost var c := pos;
      var high :- ParseSubexpr(5);
      ghost var head := Negation(negated) + [Word(BETWEEN)];
      Joined(tokens, start, a, b, head, Words(low));
      Joined(tokens, start, b, c, head + Words(low), [Word(AND)]);
      Joined(tokens, start, c, pos, head + Words(low) + [Word(AND)], Words(high));
      r := Ok(Between(left, negated, low, high));
    }

    // After [NOT] LIKE or ILIKE.
    method ParsePattern(left: Sql, negated: bool, folding: bool, precedence: nat, ghost start: nat)
      returns (r: Result<Sql, ParseError>)
      requires Ready() && Since(start, Negation(negated) + [Word(if folding then ILIKE else LIKE)]) && precedence == 4
      requires 4 <= Reach(left)
      modifies this
      ensures InBounds()
      ensures r.Ok? ==> depth == old(depth) && Extends(left, r.value, start) && Loosest(r.value) == After(left, 4)
      ensures r.Ok? ==> PeekPrecedence() <= Reach(r.value) && Height(r.value) <= 1 + Larger(Height(left), Room())
      decreases MAX_DEPTH + 1 - depth, 5
    {
      ghost var a := pos;
      var pattern :- ParseSubexpr(precedence);
      Joined(tokens, start, a, pos, Negation(negated) + [Word(if folding then ILIKE else LIKE)], Words(pattern));
      r := Ok(Like(left, negated, folding, pattern));
    }

    // After [NOT] IN.
    method ParseMembers(left: Sql, negated: bool, ghost start: nat) returns (r: Result<Sql, ParseError>)
      requires Ready() && Since(start, Negation(negated) + [Word(IN)]) && 4 <= Reach(left)
      modifies this
      ensures InBounds()
      ensures r.Ok? ==> depth == old(depth) && Extends(left, r.value, start) && Loosest(r.value) == After(left, 4)
      ensures r.Ok? ==> PeekPrecedence() <= Reach(r.value) && Height(r.value) <= 1 + Larger(Height(left), Room())
      decreases MAX_DEPTH + 1 - depth, 7
    {
      ghost var a := pos;
      var _ :- Expect(LParen);
      if StartsQuery(Peek()) {
        return Err(HasSubquery);
      }
      ghost var b := pos;
      var list :- ParseList();
      ghost var c := pos;
      var _ :- Expect(RParen);
      MembersSpelt(tokens, start, a, b, c, pos, left, negated, list);
      MembersStand(left, negated, list, Room());
      r := Ok(InList(left, negated, list));
    }

    method ParseExpr() returns (r: Result<Sql, ParseError>)
      requires Ready()
      modifies this
      ensures InBounds()
      ensures r.Ok? ==> depth == old(depth) && Reads(r.value, old(pos)) && Loosest(r.value) > 0 && PeekPrecedence() == 0
      ensures r.Ok? ==> Height(r.value) <= Room()
      decreases MAX_DEPTH + 1 - depth, 4
    {
      r := ParseSubexpr(0);
    }

    ghost predicate Listed(list: seq<Sql>, start: nat)
      reads this
    {
      && start <= pos <= |tokens| && tokens[start..pos] == Commas(list) && Tallest(list) <= Room()
      && forall i :: 0 <= i < |list| ==> Loosest(list[i]) > 0
    }

    method ParseNext(list: seq<Sql>, ghost start: nat) returns (r: Result<seq<Sql>, ParseError>)
      requires Ready() && list != [] && Listed(list, start) && Peek() == Comma
      modifies this
      ensures InBounds()
      ensures r.Ok? ==> depth == old(depth) && pos > old(pos) && r.value != [] && Listed(r.value, start)
      decreases MAX_DEPTH + 1 - depth, 5
    {
      ghost var from := pos;
      Advance();
      var next :- ParseExpr();
      Joined(tokens, start, from, from + 1, Commas(list), [Comma]);
      Joined(tokens, start, from + 1, pos, Commas(list) + [Comma], Words(next));
      assert (list + [next])[..|list|] == list;
      r := Ok(list + [next]);
    }

    // Expressions between commas, up to a closing parenthesis.
    method ParseList() returns (r: Result<seq<Sql>, ParseError>)
      requires Ready()
      modifies this
      ensures InBounds()
      ensures r.Ok? ==> depth == old(depth) && Listed(r.value, old(pos))
      decreases MAX_DEPTH + 1 - depth, 6
    {
      if Peek() == RParen {
        return Ok([]);
      }
      ghost var start := pos;
      var first :- ParseExpr();
      var list := [first];
      assert list[..0] == [];
      while Peek() == Comma
        invariant Ready() && depth == old(depth) && list != [] && Listed(list, start)
        decreases |tokens| - pos
      {
        list :- ParseNext(list, start);
      }
      r := Ok(list);
    }

    // ------------------------------------------------------------------ operands

    method ParsePrefix() returns (r: Result<Sql, ParseError>)
      requires Ready()
      modifies this
      ensures InBounds()
      ensures r.Ok? ==>
              depth == old(depth) && Reads(r.value, old(pos)) && Loosest(r.value) == NONE_LOOSE
                && PeekPrecedence() <= Reach(r.value)
      ensures r.Ok? ==> depth < MAX_DEPTH && Height(r.value) <= 1 + Bound(MAX_DEPTH - depth - 1, Levels(|tokens|))
      decreases MAX_DEPTH + 1 - depth, 2
    {
      var _ :- Enter();
      r := ParsePrefixInner();
      if r.Ok? {
        Leave();
      }
    }

    method ParsePrefixInner() returns (r: Result<Sql, ParseError>)
      requires Ready()
      modifies this
      ensures InBounds()
      ensures r.Ok? ==>
              depth == old(depth) && Reads(r.value, old(pos)) && Loosest(r.value) == NONE_LOOSE
                && PeekPrecedence() <= Reach(r.value)
      ensures r.Ok? ==> Height(r.value) <= 1 + Room()
      decreases MAX_DEPTH + 1 - depth, 10
    {
      var t := Peek();
      if IsSign(t) {
        ghost var start := pos;
        Advance();
        var arg :- ParseSubexpr(if t == Word(NOT) then 3 else 8);
        Joined(tokens, start, start + 1, pos, [t], Words(arg));
        r := Ok(Unary(t, arg));
      } else if t == Word(EXISTS) {
        Advance();
        var _ :- Expect(LParen);
        r := Err(HasSubquery);
      } else if t == Word(CAST) {
        r := ParseCast();
      } else if t == Word(CASE) {
        r := ParseCase();
      } else if IsConstant(t) {
        Advance();
        r := if t.Number? && !inRange(t.text) then Err(BadNumber) else Ok(Constant(t));
      } else if t == LParen {
        r := ParseGroup();
      } else if IsName(t) {
        r := ParseNamed();
      } else {
        r := Err(Unexpected(t));
      }
    }

    // The rest of a CAST: AS, the type and the closing parenthesis.
    method ParseTarget() returns (r: Result<seq<Token>, ParseError>)
      requires pos <= |tokens|
      modifies this`pos
      ensures old(pos) <= pos <= |tokens|
      ensures r.Ok? ==> IsTypeName(r.value) && tokens[old(pos)..pos] == [Word(AS)] + r.value + [RParen]
    {
      ghost var start := pos;
      var _ :- Expect(Word(AS));
      ghost var c := pos;
      var ty :- ParseDataType();
      ghost var d := pos;
      var _ :- Expect(RParen);
      Joined(tokens, start, c, d, [Word(AS)], ty);
      Joined(tokens, start, d, pos, [Word(AS)] + ty, [RParen]);
      r := Ok(ty);
    }

    method ParseCast() returns (r: Result<Sql, ParseError>)
      requires Ready() && Peek() == Word(CAST)
      modifies this
      ensures InBounds()
      ensures r.Ok? ==>
              depth == old(depth) && Reads(r.value, old(pos)) && Loosest(r.value) == NONE_LOOSE && Reach(r.value) == 9
      ensures r.Ok? ==> Height(r.value) <= 1 + Room()
      decreases MAX_DEPTH + 1 - depth, 8
    {
      ghost var start := pos;
      Advance();
      var _ :- Expect(LParen);
      ghost var a := pos;
      var arg :- ParseExpr();
      ghost var b := pos;
      var ty :- ParseTarget();
      CastSpelt(tokens, start, a, b, pos, arg, ty);
      r := Ok(Cast(arg, ty));
    }

    method ParseGroup() returns (r: Result<Sql, ParseError>)
      requires Ready() && Peek() == LParen
      modifies this
      ensures InBounds()
      ensures r.Ok? ==>
              depth == old(depth) && Reads(r.value, old(pos)) && Loosest(r.value) == NONE_LOOSE && Reach(r.value) == 9
      ensures r.Ok? ==> Height(r.value) <= Room()
      decreases MAX_DEPTH + 1 - depth, 8
    {
      ghost var start := pos;
      Advance();
      if StartsQuery(Peek()) {
        return Err(HasSubquery);
      }
      var inner :- ParseExpr();
      ghost var b := pos;
      var _ :- Expect(RParen);
      Joined(tokens, start, start + 1, b, [LParen], Words(inner));
      Joined(tokens, start, b, pos, [LParen] + Words(inner), [RParen]);
      r := Ok(Grouped(inner));
    }

    // A column or a call.
    method ParseNamed() returns (r: Result<Sql, ParseError>)
      requires Ready() && IsName(Peek())
      modifies this
      ensures InBounds()
      ensures r.Ok? ==>
              depth == old(depth) && Reads(r.value, old(pos)) && Loosest(r.value) == NONE_LOOSE && Reach(r.value) == 9
      ensures r.Ok? ==> Height(r.value) <= 1 + Room()
      decreases MAX_DEPTH + 1 - depth, 9
    {
      var callable := Peek().Ident?;
      var parts :- ParseObjectName();
      if callable && Peek() == LParen {
        if |parts| != 1 {
          return Err(QualifiedCall);
        }
        r := ParseFunctionCall(parts[0]);
      } else {
        r := Ok(Column(parts));
      }
    }

    method ParseFunctionCall(name: Token) returns (r: Result<Sql, ParseError>)
      requires Ready() && name.Ident? && pos > 0 && tokens[pos - 1] == name
      modifies this
      ensures InBounds()
      ensures r.Ok? ==>
              depth == old(depth) && Reads(r.value, old(pos) - 1) && Loosest(r.value) == NONE_LOOSE
                && Reach(r.value) == 9
      ensures r.Ok? ==> Height(r.value) <= 1 + Room()
      decreases MAX_DEPTH + 1 - depth, 8
    {
      ghost var start := pos - 1;
      var _ :- Expect(LParen);
      var star := Eat(Star);
      if star {
        var _ :- Expect(RParen);
        return Ok(CallStar(name));
      }
      r := ParseArguments(name, start);
    }

    // After the opening parenthesis.
    method ParseArguments(name: Token, ghost start: nat) returns (r: Result<Sql, ParseError>)
      requires Ready() && name.Ident? && Since(start, [name, LParen])
      modifies this
      ensures InBounds()
      ensures r.Ok? ==>
              depth == old(depth) && Reads(r.value, start) && Loosest(r.value) == NONE_LOOSE && Reach(r.value) == 9
      ensures r.Ok? ==> Height(r.value) <= 1 + Room()
      decreases MAX_DEPTH + 1 - depth, 7
    {
      ghost var a := pos;
      var distinct := Eat(Word(DISTINCT));
      ghost var b := pos;
      var args :- ParseList();
      ghost var c := pos;
      var _ :- Expect(RParen);
      if distinct && args == [] {
        return Err(EmptyDistinct);
      }
      CallSpelt(tokens, start, a, b, c, pos, name, distinct, args);
      CallStands(name, distinct, args, Room());
      r := Ok(Call(name, distinct, args));
    }

    method ParseCaseOperand() returns (r: Result<Option<Sql>, ParseError>)
      requires Ready()
      modifies this
      ensures InBounds()
      ensures r.Ok? ==> depth == old(depth) && old(pos) <= pos && tokens[old(pos)..pos] == OperandWords(r.value)
      ensures r.Ok? ==> OptionalHeight(r.value) <= Room() && (r.value.Some? ==> Loosest(r.value.value) > 0)
      decreases MAX_DEPTH + 1 - depth, 7
    {
      if Peek() == Word(WHEN) {
        return Ok(None);
      }
      var value :- ParseExpr();
      r := Ok(Some(value));
    }

    method ParseElse() returns (r: Result<Option<Sql>, ParseError>)
      requires Ready()
      modifies this
      ensures InBounds()
      ensures r.Ok? ==> depth == old(depth) && old(pos) <= pos && tokens[old(pos)..pos] == ElseWords(r.value)
      ensures r.Ok? ==> OptionalHeight(r.value) <= Room() && (r.value.Some? ==> Loosest(r.value.value) > 0)
      decreases MAX_DEPTH + 1 - depth, 7
    {
      ghost var start := pos;
      var more := Eat(Word(ELSE));
      if !more {
        return Ok(None);
      }
      var value :- ParseExpr();
      Joined(tokens, start, start + 1, pos, [Word(ELSE)], Words(value));
      r := Ok(Some(value));
    }

    method ParseEnd() returns (r: Result<Option<Sql>, ParseError>)
      requires Ready()
      modifies this
      ensures InBounds()
      ensures r.Ok? ==>
              depth == old(depth) && old(pos) <= pos && tokens[old(pos)..pos] == ElseWords(r.value) + [Word(END)]
      ensures r.Ok? ==> OptionalHeight(r.value) <= Room() && (r.value.Some? ==> Loosest(r.value.value) > 0)
      decreases MAX_DEPTH + 1 - depth, 8
    {
      ghost var start := pos;
      var otherwise :- ParseElse();
      ghost var d := pos;
      var _ :- Expect(Word(END));
      Joined(tokens, start, d, pos, ElseWords(otherwise), [Word(END)]);
      r := Ok(otherwise);
    }

    method ParseCase() returns (r: Result<Sql, ParseError>)
      requires Ready()
      modifies this
      ensures InBounds()
      ensures r.Ok? ==>
              depth == old(depth) && Reads(r.value, old(pos)) && Loosest(r.value) == NONE_LOOSE && Reach(r.value) == 9
      ensures r.Ok? ==> Height(r.value) <= 1 + Room()
      decreases MAX_DEPTH + 1 - depth, 9
    {
      ghost var start := pos;
      var _ :- Expect(Word(CASE));
      ghost var a := pos;
      var operand :- ParseCaseOperand();
      ghost var b := pos;
      var branches :- ParseBranches();
      ghost var c := pos;
      var otherwise :- ParseEnd();
      CaseSpelt(tokens, start, a, b, c, pos, operand, branches, otherwise);
      CaseStands(operand, branches, otherwise, Room());
      r := Ok(Case(operand, branches, otherwise));
    }

    method ParseBranches() returns (r: Result<seq<Branch>, ParseError>)
      requires Ready()
      modifies this
      ensures InBounds()
      ensures r.Ok? ==>
              depth == old(depth) && old(pos) <= pos && tokens[old(pos)..pos] == WhenWords(r.value) && r.value != []
      ensures r.Ok? ==> forall i :: 0 <= i < |r.value| ==> BranchGrouped(r.value[i])
      ensures r.Ok? ==> TallestBranch(r.value) <= Room()
      decreases MAX_DEPTH + 1 - depth, 7
    {
      ghost var start := pos;
      var branches := [];
      while Peek() == Word(WHEN)
        invariant Ready() && depth == old(depth) && start <= pos && tokens[start..pos] == WhenWords(branches)
        invariant forall i :: 0 <= i < |branches| ==> BranchGrouped(branches[i])
        invariant TallestBranch(branches) <= Room()
        decreases |tokens| - pos
      {
        ghost var from := pos;
        var branch :- ParseBranch();
        Joined(tokens, start, from, pos, WhenWords(branches), BranchWords(branch));
        assert (branches + [branch])[..|branches|] == branches;
        branches := branches + [branch];
      }
      if branches == [] {
        return Err(Unexpected(Peek()));
      }
      r := Ok(branches);
    }

    method ParseBranch() returns (r: Result<Branch, ParseError>)
      requires Ready() && Peek() == Word(WHEN)
      modifies this
      ensures InBounds()
      ensures r.Ok? ==> depth == old(depth) && old(pos) < pos && tokens[old(pos)..pos] == BranchWords(r.value)
      ensures r.Ok? ==> BranchGrouped(r.value) && BranchHeight(r.value) <= Room()
      decreases MAX_DEPTH + 1 - depth, 6
    {
      ghost var start := pos;
      Advance();
      ghost var a := pos;
      var condition :- ParseExpr();
      ghost var b := pos;
      var _ :- Expect(Word(THEN));
      ghost var c := pos;
      var result :- ParseExpr();
      Joined(tokens, start, a, b, [Word(WHEN)], Words(condition));
      Joined(tokens, start, b, c, [Word(WHEN)] + Words(condition), [Word(THEN)]);
      Joined(tokens, start, c, pos, [Word(WHEN)] + Words(condition) + [Word(THEN)], Words(result));
      r := Ok(Branch(condition, result));
    }
  }

  // A whole expression.
  method ParseWhole(tokens: seq<Token>, inRange: string -> bool) returns (r: Result<Sql, ParseError>)
    ensures r.Ok? ==>
            Words(r.value) <= tokens && Loosest(r.value) > 0 && Height(r.value) <= 2550 + 100 * Levels(|tokens|)
  {
    var parser := new Parser(tokens, inRange);
    r := parser.ParseExpr();
    BoundClosed(50, Levels(|tokens|));
  }
}
