/** What the evaluator of logo.py promises, proved about the reference
    semantics: precedence and left folding (lines 426-504), the cases of
    finalExpression (506-543), dispatch's faults and counts (548-589),
    repeat's iterations and counter (220-234) and execute (388-404). */
module Properties {
  import opened Atoms
  import opened Values
  import opened Scopes
  import opened Semantics

  // ----------------------------------------------------------- precedence

  /** The operators that bind tighter than level l. */
  function Tighter(l: Prec): seq<string> {
    match l
    case Relational => AdditiveOps + MultiplicativeOps + PowerOps
    case Additive => MultiplicativeOps + PowerOps
    case Multiplicative => PowerOps
    case Power => []
  }

  /** The levels partition the operators: a level's own operators are not
      among those binding tighter than it, and the operators of every
      tighter level are. */
  lemma OperatorLevels(l: Prec, m: Prec, op: string)
    ensures op in Ops(l) ==> op !in Tighter(l)
    ensures Rank(m) < Rank(l) && op in Ops(m) ==> op in Tighter(l)
  {
    if op in Ops(l) {
      assert op[0] in {'=', '<', '>', '+', '-', '*', '/', '%', '^'};
    }
  }

  /** A literal that is not a word (a number or a list) is its own unary
      expression, and only it is consumed. */
  lemma UnaryOfLiteral(env: Env, src: Option<Atom>, st: State, a: Atom, rest: seq<Atom>, fuel: nat)
    requires !a.Word?
    ensures Unary(env, src, st, [a] + rest, fuel) == Step(Ok(Some(a)), st, rest)
  {
    assert ([a] + rest)[0] == a && ([a] + rest)[1..] == rest;
  }

  /** A level yields what its unary expression yields when nothing after
      it is an operator of the level or a tighter one: a fault as it is,
      a value with nothing more consumed. */
  lemma {:induction false} LevelOfUnary(env: Env, src: Option<Atom>, l: Prec, st: State, toks: seq<Atom>, fuel: nat)
    requires var u := Unary(env, src, st, toks, fuel);
      u.out.Ok? ==> !Peek(u.rest, Ops(l)) && !Peek(u.rest, Tighter(l))
    ensures Level(env, src, l, st, toks, fuel) == Unary(env, src, st, toks, fuel)
    decreases Rank(l)
  {
    OperandOfUnary(env, src, l, st, toks, fuel);
  }

  /** The operand of level l is the unary expression when nothing after it
      binds tighter than l. */
  lemma {:induction false} OperandOfUnary(env: Env, src: Option<Atom>, l: Prec, st: State, toks: seq<Atom>, fuel: nat)
    requires var u := Unary(env, src, st, toks, fuel); u.out.Ok? ==> !Peek(u.rest, Tighter(l))
    ensures Operand(env, src, l, st, toks, fuel) == Unary(env, src, st, toks, fuel)
    decreases Rank(l), 0
  {
    if !l.Power? {
      var n := Next(l);
      assert Tighter(l) == Ops(n) + Tighter(n);
      LevelOfUnary(env, src, n, st, toks, fuel);
    }
  }

  /** A level is its loop started on its operand's value. */
  lemma LevelThen(env: Env, src: Option<Atom>, l: Prec, st: State, toks: seq<Atom>, fuel: nat, v: Value, st2: State, rest: seq<Atom>)
    requires Operand(env, src, l, st, toks, fuel) == Step(Ok(v), st2, rest)
    ensures Level(env, src, l, st, toks, fuel) == LevelLoop(env, src, l, v, st2, rest, fuel)
  {
  }

  /** The loop stops, consuming nothing, before a token that is not one of
      the level's operators. */
  lemma LoopEnd(env: Env, src: Option<Atom>, l: Prec, lhs: Value, st: State, toks: seq<Atom>, fuel: nat)
    requires !Peek(toks, Ops(l))
    ensures LevelLoop(env, src, l, lhs, st, toks, fuel) == Step(Ok(lhs), st, toks)
  {
  }

  /** What list objects have lost matters to an operator only when both
      operands are lists: = and <> then compare what they hold now. */
  lemma ApplyOffLists(host: Host, pops: Pops, pops2: Pops, op: string, lhs: Value, rhs: Value)
    requires !(lhs.Some? && rhs.Some? && lhs.value.List? && rhs.value.List?)
    ensures Apply(host, pops, op, lhs, rhs) == Apply(host, pops2, op, lhs, rhs)
  {
    if lhs.Some? && rhs.Some? {
      assert AtomEqual(pops, lhs.value, rhs.value) == AtomEqual(pops2, lhs.value, rhs.value);
    }
  }

  /** One turn of a level's loop: the operator is popped exactly once, the
      right operand is evaluated after it, and the fold goes on with
      lhs op rhs, compared on the lists as they are after the right
      operand, the one being read popped up to where the operand ended. */
  lemma {:induction false} FoldStep(env: Env, src: Option<Atom>, l: Prec, lhs: Value, st: State, toks: seq<Atom>, fuel: nat,
                                    rhs: Value, st2: State, rest: seq<Atom>)
    requires Peek(toks, Ops(l))
    requires Operand(env, src, l, st, toks[1..], fuel) == Step(Ok(rhs), st2, rest)
    ensures LevelLoop(env, src, l, lhs, st, toks, fuel) ==
      match Apply(env.host, Synced(src, st2.pops, rest), toks[0].text, lhs, rhs)
      case Fail(f) => Step(Fail(f), st2, rest)
      case Ok(v) => LevelLoop(env, src, l, v, st2, rest, fuel)
  {
  }

  /** A level that starts with a number runs its loop from that number. */
  lemma NumberThenLoop(env: Env, src: Option<Atom>, l: Prec, st: State, x: real, rest: seq<Atom>, fuel: nat)
    requires !Peek(rest, Tighter(l))
    ensures Level(env, src, l, st, [Num(x)] + rest, fuel) == LevelLoop(env, src, l, Some(Num(x)), st, rest, fuel)
  {
    UnaryOfLiteral(env, src, st, Num(x), rest, fuel);
    OperandOfUnary(env, src, l, st, [Num(x)] + rest, fuel);
    LevelThen(env, src, l, st, [Num(x)] + rest, fuel, Some(Num(x)), st, rest);
  }

  /** One turn of a level's loop on op and a number: the fold goes on
      from lhs op x. */
  lemma NumberTurn(env: Env, src: Option<Atom>, l: Prec, lhs: Value, st: State, op: string, x: real, rest: seq<Atom>, fuel: nat, v: Value)
    requires op in Ops(l) && !Peek(rest, Tighter(l))
    requires Apply(env.host, st.pops, op, lhs, Some(Num(x))) == Ok(v)
    ensures LevelLoop(env, src, l, lhs, st, [Word(op), Num(x)] + rest, fuel) == LevelLoop(env, src, l, v, st, rest, fuel)
  {
    var tail := [Num(x)] + rest;
    var toks := [Word(op)] + tail;
    assert toks == [Word(op), Num(x)] + rest;
    assert toks[0] == Word(op) && toks[1..] == tail;
    assert Peek(toks, Ops(l));
    UnaryOfLiteral(env, src, st, Num(x), rest, fuel);
    OperandOfUnary(env, src, l, st, tail, fuel);
    ApplyOffLists(env.host, st.pops, Synced(src, st.pops, rest), op, lhs, Some(Num(x)));
    FoldOk(env, src, l, lhs, st, toks, fuel, Some(Num(x)), st, rest, v);
  }

  /** A turn of the loop whose operator applies: the fold goes on from
      its value. */
  lemma FoldOk(env: Env, src: Option<Atom>, l: Prec, lhs: Value, st: State, toks: seq<Atom>, fuel: nat,
               rhs: Value, st2: State, rest: seq<Atom>, v: Value)
    requires Peek(toks, Ops(l))
    requires Operand(env, src, l, st, toks[1..], fuel) == Step(Ok(rhs), st2, rest)
    requires Apply(env.host, Synced(src, st2.pops, rest), toks[0].text, lhs, rhs) == Ok(v)
    ensures LevelLoop(env, src, l, lhs, st, toks, fuel) == LevelLoop(env, src, l, v, st2, rest, fuel)
  {
    FoldStep(env, src, l, lhs, st, toks, fuel, rhs, st2, rest);
  }

  /** A level whose operand consumes every token yields that operand. */
  lemma Exhausted(env: Env, src: Option<Atom>, l: Prec, st: State, toks: seq<Atom>, fuel: nat, v: Value, st2: State)
    requires Operand(env, src, l, st, toks, fuel) == Step(Ok(v), st2, [])
    ensures Level(env, src, l, st, toks, fuel) == Step(Ok(v), st2, [])
  {
    LevelThen(env, src, l, st, toks, fuel, v, st2, []);
    LoopEnd(env, src, l, v, st2, [], fuel);
  }

  /** What a level consumes entirely, every looser level and expression()
      consume entirely too, with the same value. */
  lemma {:induction false} Lifted(env: Env, src: Option<Atom>, l: Prec, st: State, toks: seq<Atom>, fuel: nat, v: Value, st2: State)
    requires Level(env, src, l, st, toks, fuel) == Step(Ok(v), st2, [])
    ensures Expression(env, src, st, toks, fuel) == Step(Ok(v), st2, [])
    decreases 9 - Rank(l)
  {
    match l
    case Relational =>
    case Additive =>
      Exhausted(env, src, Relational, st, toks, fuel, v, st2);
    case Multiplicative =>
      Exhausted(env, src, Additive, st, toks, fuel, v, st2);
      Lifted(env, src, Additive, st, toks, fuel, v, st2);
    case Power =>
      Exhausted(env, src, Multiplicative, st, toks, fuel, v, st2);
      Lifted(env, src, Multiplicative, st, toks, fuel, v, st2);
  }

  /** b op c, with op of level m, is the value of level m and of every
      looser level, all three tokens consumed. */
  lemma {:induction false} TighterTriple(env: Env, src: Option<Atom>, k: Prec, m: Prec, st: State, b: real, op: string, c: real,
                                         v: Value, fuel: nat)
    requires op in Ops(m) && Rank(m) <= Rank(k)
    requires Apply(env.host, st.pops, op, Some(Num(b)), Some(Num(c))) == Ok(v)
    ensures Level(env, src, k, st, [Num(b), Word(op), Num(c)], fuel) == Step(Ok(v), st, [])
    decreases Rank(k)
  {
    var toks := [Num(b), Word(op), Num(c)];
    if k == m {
      var tail := [Word(op), Num(c)] + [];
      assert toks == [Num(b)] + tail;
      OperatorLevels(m, m, op);
      NumberThenLoop(env, src, m, st, b, tail, fuel);
      NumberTurn(env, src, m, Some(Num(b)), st, op, c, [], fuel, v);
      LoopEnd(env, src, m, v, st, [], fuel);
    } else {
      TighterTriple(env, src, Next(k), m, st, b, op, c, v, fuel);
      Exhausted(env, src, k, st, toks, fuel, v, st);
    }
  }

  /** b op c, with op of a level tighter than l, is a whole right operand
      of l. */
  lemma OperandTighter(env: Env, src: Option<Atom>, l: Prec, m: Prec, st: State, b: real, op: string, c: real, v: Value, fuel: nat)
    requires op in Ops(m) && Rank(m) < Rank(l)
    requires Apply(env.host, st.pops, op, Some(Num(b)), Some(Num(c))) == Ok(v)
    ensures Operand(env, src, l, st, [Num(b), Word(op), Num(c)], fuel) == Step(Ok(v), st, [])
  {
    TighterTriple(env, src, Next(l), m, st, b, op, c, v, fuel);
  }

  /** a op1 b op2 c at op1's level, op2 of a tighter level m. */
  lemma LevelTighterFirst(env: Env, src: Option<Atom>, l: Prec, m: Prec, st: State, a: real, op1: string, b: real, op2: string,
                          c: real, v: Value, w: Value, fuel: nat)
    requires op1 in Ops(l) && op2 in Ops(m) && Rank(m) < Rank(l)
    requires Apply(env.host, st.pops, op2, Some(Num(b)), Some(Num(c))) == Ok(v)
    requires Apply(env.host, st.pops, op1, Some(Num(a)), v) == Ok(w)
    ensures Level(env, src, l, st, [Num(a), Word(op1), Num(b), Word(op2), Num(c)], fuel) == Step(Ok(w), st, [])
  {
    var afterA := [Word(op1), Num(b), Word(op2), Num(c)];
    assert [Num(a), Word(op1), Num(b), Word(op2), Num(c)] == [Num(a)] + afterA;
    var triple := [Num(b), Word(op2), Num(c)];
    assert afterA[1..] == triple && afterA[0] == Word(op1);
    OperatorLevels(l, m, op1);
    NumberThenLoop(env, src, l, st, a, afterA, fuel);
    OperandTighter(env, src, l, m, st, b, op2, c, v, fuel);
    ApplyOffLists(env.host, st.pops, Synced(src, st.pops, []), op1, Some(Num(a)), v);
    FoldOk(env, src, l, Some(Num(a)), st, afterA, fuel, v, st, [], w);
    LoopEnd(env, src, l, w, st, [], fuel);
  }

  /** Precedence: in a op1 b op2 c, where op2 belongs to a level tighter
      than op1's, b op2 c is evaluated first and becomes op1's right
      operand: the expression is a op1 (b op2 c), every token consumed. */
  lemma TighterBindsFirst(env: Env, src: Option<Atom>, l: Prec, m: Prec, st: State, a: real, op1: string, b: real, op2: string,
                          c: real, v: Value, w: Value, fuel: nat)
    requires op1 in Ops(l) && op2 in Ops(m) && Rank(m) < Rank(l)
    requires Apply(env.host, st.pops, op2, Some(Num(b)), Some(Num(c))) == Ok(v)
    requires Apply(env.host, st.pops, op1, Some(Num(a)), v) == Ok(w)
    ensures Expression(env, src, st, [Num(a), Word(op1), Num(b), Word(op2), Num(c)], fuel) == Step(Ok(w), st, [])
  {
    LevelTighterFirst(env, src, l, m, st, a, op1, b, op2, c, v, w, fuel);
    Lifted(env, src, l, st, [Num(a), Word(op1), Num(b), Word(op2), Num(c)], fuel, w, st);
  }

  /** Left association: in a op1 b op2 c with both operators of one level,
      a op1 b is evaluated first: the expression is (a op1 b) op2 c,
      every token consumed. */
  lemma SameLevelFoldsLeft(env: Env, src: Option<Atom>, l: Prec, st: State, a: real, op1: string, b: real, op2: string,
                           c: real, v: Value, w: Value, fuel: nat)
    requires op1 in Ops(l) && op2 in Ops(l)
    requires Apply(env.host, st.pops, op1, Some(Num(a)), Some(Num(b))) == Ok(v)
    requires Apply(env.host, st.pops, op2, v, Some(Num(c))) == Ok(w)
    ensures Expression(env, src, st, [Num(a), Word(op1), Num(b), Word(op2), Num(c)], fuel) == Step(Ok(w), st, [])
  {
    var afterB := [Word(op2), Num(c)] + [];
    var afterA := [Word(op1), Num(b)] + afterB;
    var toks := [Num(a)] + afterA;
    assert toks == [Num(a), Word(op1), Num(b), Word(op2), Num(c)];
    OperatorLevels(l, l, op1);
    OperatorLevels(l, l, op2);
    NumberThenLoop(env, src, l, st, a, afterA, fuel);
    NumberTurn(env, src, l, Some(Num(a)), st, op1, b, afterB, fuel, v);
    NumberTurn(env, src, l, v, st, op2, c, [], fuel, w);
    LoopEnd(env, src, l, w, st, [], fuel);
    Lifted(env, src, l, st, toks, fuel, w, st);
  }

  /** The host's +, - and * on two numbers give v, y op x. */
  lemma Sum(host: Host, pops: Pops, op: string, y: real, x: real, v: real)
    requires (op == "+" && v == y + x) || (op == "-" && v == y - x) || (op == "*" && v == y * x)
    ensures Apply(host, pops, op, Some(Num(y)), Some(Num(x))) == Ok(Some(Num(v)))
  {
    if op == "+" {
      assert Arith(host, "+", y, x) == Ok(Num(v));
    } else if op == "-" {
      assert Arith(host, "-", y, x) == Ok(Num(v));
    } else {
      assert Arith(host, "*", y, x) == Ok(Num(v));
    }
  }

  /** a + b * c is a + (b * c). */
  lemma MultiplicationBindsTighter(env: Env, src: Option<Atom>, st: State, a: real, b: real, c: real, v: real, fuel: nat)
    requires v == a + b * c
    ensures Expression(env, src, st, [Num(a), Word("+"), Num(b), Word("*"), Num(c)], fuel)
         == Step(Ok(Some(Num(v))), st, [])
  {
    var p := b * c;
    Sum(env.host, st.pops, "*", b, c, p);
    Sum(env.host, st.pops, "+", a, p, v);
    TighterBindsFirst(env, src, Additive, Multiplicative, st, a, "+", b, "*", c, Some(Num(p)), Some(Num(v)), fuel);
  }

  /** a - b - c is (a - b) - c. */
  lemma SubtractionFoldsLeft(env: Env, src: Option<Atom>, st: State, a: real, b: real, c: real, v: real, fuel: nat)
    requires v == (a - b) - c
    ensures Expression(env, src, st, [Num(a), Word("-"), Num(b), Word("-"), Num(c)], fuel)
         == Step(Ok(Some(Num(v))), st, [])
  {
    var d := a - b;
    Sum(env.host, st.pops, "-", a, b, d);
    Sum(env.host, st.pops, "-", d, c, v);
    SameLevelFoldsLeft(env, src, Additive, st, a, "-", b, "-", c, Some(Num(d)), Some(Num(v)), fuel);
  }

  /** a < b + c compares a with b + c, giving 1 or 0. */
  lemma AdditionBindsTighterThanComparison(env: Env, src: Option<Atom>, st: State, a: real, b: real, c: real, v: real, fuel: nat)
    requires v == b + c
    ensures Expression(env, src, st, [Num(a), Word("<"), Num(b), Word("+"), Num(c)], fuel)
         == Step(Ok(Some(Bool(a < v))), st, [])
  {
    Sum(env.host, st.pops, "+", b, c, v);
    assert Apply(env.host, st.pops, "<", Some(Num(a)), Some(Num(v))) == Ok(Some(Bool(a < v)));
    TighterBindsFirst(env, src, Relational, Additive, st, a, "<", b, "+", c, Some(Num(v)), Some(Bool(a < v)), fuel);
  }

  /** a ^ b ^ c is (a ^ b) ^ c: the power loop folds to the left like the
      others (so 2 ^ 3 ^ 2 is 64, not 512), whatever the host's pow
      computes. */
  lemma PowerFoldsLeft(env: Env, src: Option<Atom>, st: State, a: real, b: real, c: real, p: real, q: real, fuel: nat)
    requires env.host.power(a, b) == Ok(p) && env.host.power(p, c) == Ok(q)
    ensures Expression(env, src, st, [Num(a), Word("^"), Num(b), Word("^"), Num(c)], fuel)
         == Step(Ok(Some(Num(q))), st, [])
  {
    assert Apply(env.host, st.pops, "^", Some(Num(a)), Some(Num(b))) == Ok(Some(Num(p)));
    assert Apply(env.host, st.pops, "^", Some(Num(p)), Some(Num(c))) == Ok(Some(Num(q)));
    SameLevelFoldsLeft(env, src, Power, st, a, "^", b, "^", c, Some(Num(p)), Some(Num(q)), fuel);
  }

  // ---------------------------------------------------------- unary minus

  /** The unary-minus token before a number yields its negation n, and
      consumes the two tokens. */
  lemma UnaryNegates(env: Env, src: Option<Atom>, st: State, x: real, n: real, rest: seq<Atom>, fuel: nat)
    requires n == -x
    ensures Unary(env, src, st, [Word(UnaryMinus), Num(x)] + rest, fuel) == Step(Ok(Some(Num(n))), st, rest)
  {
    var toks := [Word(UnaryMinus), Num(x)] + rest;
    assert toks[1..] == [Num(x)] + rest;
    UnaryOfLiteral(env, src, st, Num(x), rest, fuel);
  }

  /** As an expression, UNARY_MINUS x is -x when no operator follows. */
  lemma NegatedNumber(env: Env, src: Option<Atom>, st: State, x: real, n: real, rest: seq<Atom>, fuel: nat)
    requires n == -x
    requires !Peek(rest, Ops(Relational)) && !Peek(rest, Tighter(Relational))
    ensures Expression(env, src, st, [Word(UnaryMinus), Num(x)] + rest, fuel) == Step(Ok(Some(Num(n))), st, rest)
  {
    UnaryNegates(env, src, st, x, n, rest, fuel);
    LevelOfUnary(env, src, Relational, st, [Word(UnaryMinus), Num(x)] + rest, fuel);
  }

  /** At the power level, UNARY_MINUS x gives -x as the left operand of
      the level's loop. */
  lemma PowerLevelOfNegated(env: Env, src: Option<Atom>, st: State, x: real, n: real, rest: seq<Atom>, fuel: nat)
    requires n == -x
    ensures Level(env, src, Power, st, [Word(UnaryMinus), Num(x)] + rest, fuel) == LevelLoop(env, src, Power, Some(Num(n)), st, rest, fuel)
  {
    UnaryNegates(env, src, st, x, n, rest, fuel);
    LevelThen(env, src, Power, st, [Word(UnaryMinus), Num(x)] + rest, fuel, Some(Num(n)), st, rest);
  }

  /** At the power level, - a ^ b negates a and then raises it; the loop
      goes on from pow(-a, b) with what follows. */
  lemma PowerOfNegated(env: Env, src: Option<Atom>, st: State, a: real, n: real, b: real, p: real, rest: seq<Atom>, fuel: nat)
    requires n == -a && env.host.power(n, b) == Ok(p) && !Peek(rest, Tighter(Power))
    ensures Level(env, src, Power, st, [Word(UnaryMinus), Num(a)] + ([Word("^"), Num(b)] + rest), fuel)
         == LevelLoop(env, src, Power, Some(Num(p)), st, rest, fuel)
  {
    PowerLevelOfNegated(env, src, st, a, n, [Word("^"), Num(b)] + rest, fuel);
    assert Apply(env.host, st.pops, "^", Some(Num(n)), Some(Num(b))) == Ok(Some(Num(p)));
    NumberTurn(env, src, Power, Some(Num(n)), st, "^", b, rest, fuel, Some(Num(p)));
  }

  /** Unary minus binds tighter than ^: - a ^ b is pow(-a, b). */
  lemma NegationBeforePower(env: Env, src: Option<Atom>, st: State, a: real, n: real, b: real, p: real, fuel: nat)
    requires n == -a && env.host.power(n, b) == Ok(p)
    ensures Expression(env, src, st, [Word(UnaryMinus), Num(a), Word("^"), Num(b)], fuel)
         == Step(Ok(Some(Num(p))), st, [])
  {
    var toks := [Word(UnaryMinus), Num(a)] + ([Word("^"), Num(b)] + []);
    assert toks == [Word(UnaryMinus), Num(a), Word("^"), Num(b)];
    PowerOfNegated(env, src, st, a, n, b, p, [], fuel);
    LoopEnd(env, src, Power, Some(Num(p)), st, [], fuel);
    Lifted(env, src, Power, st, [Word(UnaryMinus), Num(a), Word("^"), Num(b)], fuel, Some(Num(p)), st);
  }

  // ------------------------------------------------------ finalExpression

  /** An empty token list faults. */
  lemma FinalEmpty(env: Env, src: Option<Atom>, st: State, fuel: nat)
    ensures Final(env, src, st, [], fuel) == Step(Fail(UnexpectedEnd), st, [])
  {
  }

  /** A list atom is returned as it is, the same object and not a copy,
      and only it is consumed. */
  lemma FinalList(env: Env, src: Option<Atom>, st: State, id: ListId, items: seq<Atom>, rest: seq<Atom>, fuel: nat)
    ensures Final(env, src, st, [List(id, items)] + rest, fuel) == Step(Ok(Some(List(id, items))), st, rest)
  {
    assert ([List(id, items)] + rest)[1..] == rest;
  }

  /** A quoted word is never a number, and evaluates to the word without
      its quote. */
  lemma FinalQuoted(env: Env, src: Option<Atom>, st: State, w: string, rest: seq<Atom>, fuel: nat)
    requires w != [] && (w[0] == '"' || w[0] == '\'')
    ensures Final(env, src, st, [Word(w)] + rest, fuel) == Step(Ok(Some(Word(w[1..]))), st, rest)
  {
    assert ([Word(w)] + rest)[1..] == rest;
    assert !IsNumber(w);
  }

  /** A word after ":" reads the variable under its folded name; an unbound
      one faults. */
  lemma FinalVariable(env: Env, src: Option<Atom>, st: State, name: string, rest: seq<Atom>, fuel: nat)
    ensures var r := Final(env, src, st, [Word([':'] + name)] + rest, fuel);
      r.st == st && r.rest == rest &&
      match GetVar(st.frames, Lower(name), name)
      case Ok(a) => r.out == Ok(Some(a))
      case Fail(f) => r.out == Fail(f) && f == UnboundVariable(name)
  {
    var w := [':'] + name;
    assert ([Word(w)] + rest)[1..] == rest;
    assert w[0] == ':' && w[1..] == name;
    assert !IsNumber(w);
  }

  /** A stray ")" faults. */
  lemma FinalClose(env: Env, src: Option<Atom>, st: State, rest: seq<Atom>, fuel: nat)
    ensures Final(env, src, st, [Word(")")] + rest, fuel) == Step(Fail(UnexpectedClose), st, rest)
  {
    assert ([Word(")")] + rest)[1..] == rest;
    assert !IsNumber(")");
  }

  /** "(" not followed by a call: the sub-expression must be followed by
      ")", which is consumed; otherwise it faults. */
  lemma FinalGroup(env: Env, src: Option<Atom>, st: State, inner: seq<Atom>, fuel: nat)
    requires !StartsCall(env, inner)
    ensures var e := Expression(env, src, st, inner, fuel);
      var r := Final(env, src, st, [Word("(")] + inner, fuel);
      e.out.Ok? ==>
        if Peek(e.rest, [")"]) then r == Step(e.out, e.st, e.rest[1..])
        else r.out.Fail? && r.rest == e.rest
  {
    assert ([Word("(")] + inner)[1..] == inner;
    assert !IsNumber("(");
  }

  // ------------------------------------------------------------- dispatch

  /** A name the registry does not know, in any case, faults before any
      token is consumed or anything changes. */
  lemma DispatchUndefined(env: Env, src: Option<Atom>, name: string, st: State, toks: seq<Atom>, natural: bool, fuel: nat)
    requires Lower(name) !in env.routines
    ensures Dispatch(env, src, name, st, toks, natural, fuel) == Step(Fail(Undefined(Upper(name))), st, toks)
  {
    LowerOfUpper(name);
  }

  /** Folding to lower case and to upper case identify the same
      spellings. */
  lemma UpperAgrees(a: string, b: string)
    requires Lower(a) == Lower(b)
    ensures Upper(a) == Upper(b)
  {
    forall i | 0 <= i < |a|
      ensures Upper(a)[i] == Upper(b)[i]
    {
      assert Lower(a)[i] == Lower(b)[i];
    }
  }

  /** Routine names are case-insensitive: every spelling of a name
      dispatches alike, and names the same routine on the stack. */
  lemma DispatchCaseInsensitive(env: Env, src: Option<Atom>, name: string, other: string, st: State, toks: seq<Atom>,
                                natural: bool, fuel: nat)
    requires Lower(name) == Lower(other)
    ensures Dispatch(env, src, name, st, toks, natural, fuel) == Dispatch(env, src, other, st, toks, natural, fuel)
  {
    UpperAgrees(name, other);
  }

  /** The natural form consumes exactly props['args'] argument expressions:
      the routine is called with that many values, and the tokens after
      them are left. */
  lemma NaturalCall(env: Env, src: Option<Atom>, name: string, st: State, toks: seq<Atom>, fuel: nat)
    requires Lower(name) in env.routines
    requires !env.routines[Lower(name)].props.special
    ensures var routine := env.routines[Lower(name)];
      var a := NaturalArgs(env, src, routine.props.args, [], st, toks, fuel);
      var r := Dispatch(env, src, name, st, toks, true, fuel);
      a.out.Ok? ==>
        (|a.out.value| == routine.props.args &&
         r == CallFrom(env, src, Upper(name), routine.code, a.out.value, a.st, a.rest, fuel))
  {
    LowerOfUpper(name);
  }

  /** A parenthesised call to a routine defined without both minimum and
      maximum faults once its arguments are read (the props lookups raise
      KeyError): the routine never runs. */
  lemma ParenWithoutBounds(env: Env, src: Option<Atom>, name: string, st: State, toks: seq<Atom>, fuel: nat)
    requires Lower(name) in env.routines
    requires var props := env.routines[Lower(name)].props;
      !props.special && (props.minimum.None? || props.maximum.None?)
    ensures var r := Dispatch(env, src, name, st, toks, false, fuel);
      var a := ParenArgs(env, src, [], st, toks, fuel);
      r.out.Fail? &&
      (a.out.Ok? && a.rest != [] ==> r == Step(Fail(MissingProperty), a.st, a.rest[1..]))
  {
    LowerOfUpper(name);
  }

  /** The parenthesised form reads arguments up to and including ")", then
      checks the count: below minimum faults, above a maximum other than
      -1 faults, anything else calls the routine. */
  lemma ParenCall(env: Env, src: Option<Atom>, name: string, st: State, toks: seq<Atom>, fuel: nat)
    requires Lower(name) in env.routines
    requires var props := env.routines[Lower(name)].props;
      !props.special && props.minimum.Some? && props.maximum.Some?
    ensures var routine := env.routines[Lower(name)];
      var lo, hi := routine.props.minimum.value, routine.props.maximum.value;
      var a := ParenArgs(env, src, [], st, toks, fuel);
      var r := Dispatch(env, src, name, st, toks, false, fuel);
      (a.out.Ok? && a.rest != [] ==>
        a.rest[0] == Word(")") &&
        (|a.out.value| < lo ==> r == Step(Fail(TooFewArguments), a.st, a.rest[1..])) &&
        (lo <= |a.out.value| && hi != -1 && |a.out.value| > hi ==>
          r == Step(Fail(TooManyArguments), a.st, a.rest[1..])) &&
        (lo <= |a.out.value| && (hi == -1 || |a.out.value| <= hi) ==>
          r == CallFrom(env, src, Upper(name), routine.code, a.out.value, a.st, a.rest[1..], fuel)))
  {
    LowerOfUpper(name);
  }

  /** A call made while reading a private copy is the call itself; the
      caller goes on from the tokens it had left. */
  lemma CallFromCopy(env: Env, name: string, code: Code, args: seq<Value>, st: State, rest: seq<Atom>, fuel: nat)
    ensures var d := Call(env, name, code, args, st, fuel);
      CallFrom(env, None, name, code, args, st, rest, fuel) == Step(d.out, d.st, rest)
  {
  }

  /** A call made while reading a list object: the callee finds the object
      holding exactly the tokens the caller has not consumed, and if the
      callee only popped more of it, the caller goes on from what the
      object holds after the call. */
  lemma CallFromObject(env: Env, l: Atom, name: string, code: Code, args: seq<Value>, st: State,
                       rest: seq<Atom>, fuel: nat)
    requires l.List? && Suffix(rest, l.items)
    ensures var synced := st.(pops := st.pops[l.id := |l.items| - |rest|]);
      var d := Call(env, name, code, args, synced, fuel);
      var r := CallFrom(env, Some(l), name, code, args, st, rest, fuel);
      Contents(synced.pops, l) == rest && r.out == d.out && r.st == d.st &&
      (Popped(synced.pops, l) <= Popped(d.st.pops, l) ==> r.rest == Contents(d.st.pops, l))
  {
    var k := |l.items| - |rest|;
    SuffixDrop(rest, l.items);
    ContentsAfterWrite(st.pops, l, k);
    var synced := st.(pops := st.pops[l.id := k]);
    var d := Call(env, name, code, args, synced, fuel);
    if Popped(synced.pops, l) <= Popped(d.st.pops, l) {
      RereadIsContents(l, synced.pops, d.st.pops, rest);
    }
  }

  /** Whatever routine runs, a call that succeeds leaves the diagnostic
      stack and the counter as they were; one that faults leaves the
      stack holding at least what it held, the name of the faulting call
      on top of it when it ran out of fuel. */
  lemma CallRestoresStack(env: Env, name: string, code: Code, args: seq<Value>, st: State, fuel: nat)
    ensures var d := Call(env, name, code, args, st, fuel);
      (d.out.Ok? ==> d.st.stack == st.stack && d.st.repcount == st.repcount) &&
      (d.out.Fail? ==> st.stack <= d.st.stack) &&
      (fuel == 0 ==> d == Done(Fail(OutOfFuel), st.(stack := st.stack + [name])))
  {
  }

  // --------------------------------------------------------------- repeat

  /** How many times repeat's loop, at i, still runs: the integers j with
      i <= j <= count. */
  function Iterations(count: real, i: int): nat {
    if i as real > count then 0 else count.Floor - i + 1
  }

  /** The integers counted by Iterations(count, 1) are exactly those with
      1 <= j <= count. */
  lemma IterationsCount(count: real, j: int)
    ensures 1 <= j <= Iterations(count, 1) <==> 1 <= j && j as real <= count
  {
  }

  /** The body run n times from loop index i: the first run sees the
      counter as it was, and after each run the counter is set to the next
      index, so that run k (from 2 on) of repeat sees k. A fault stops the
      runs. */
  function Runs(env: Env, body: seq<Atom>, n: nat, i: int, st: State, fuel: nat): Done
    decreases n
  {
    if n == 0 then Done(Ok(None), st)
    else
      var d := Execute(env, st, body, false, fuel);
      if d.out.Fail? then d
      else Runs(env, body, n - 1, i + 1, d.st.(repcount := i + 1), fuel)
  }

  /** repeat's loop runs the body exactly Iterations(count, i) times and
      then puts the saved counter back; a fault in a run is the loop's
      fault, with the counter not restored. */
  lemma {:induction false} RepeatLoopRuns(env: Env, body: seq<Atom>, count: real, i: int, saved: int,
                                          st: State, fuel: nat)
    ensures var u := Runs(env, body, Iterations(count, i), i, st, fuel);
      RepeatLoop(env, body, count, i, saved, st, fuel) ==
        if u.out.Fail? then u else Done(Ok(None), u.st.(repcount := saved))
    decreases Iterations(count, i)
  {
    if i as real <= count {
      var d := Execute(env, st, body, false, fuel);
      if d.out.Ok? {
        assert Iterations(count, i + 1) == Iterations(count, i) - 1;
        RepeatLoopRuns(env, body, count, i + 1, saved, d.st.(repcount := i + 1), fuel);
      }
    }
  }

  /** repeat n [body] runs the body once for every integer j with
      1 <= j <= n, and on success _repcount is what it was before. */
  lemma RepeatRuns(env: Env, count: Value, statements: Value, st: State, fuel: nat)
    requires AExpr(count).Ok? && LExpr(st.pops, statements).Ok?
    ensures var n := AExpr(count).value;
      var u := Runs(env, LExpr(st.pops, statements).value, Iterations(n, 1), 1, st, fuel);
      var r := RepeatPrim(env, count, statements, st, fuel);
      r == (if u.out.Fail? then u else Done(Ok(None), u.st.(repcount := st.repcount))) &&
      (r.out.Ok? ==> r.st.repcount == st.repcount && r.out.value.None?)
  {
    RepeatLoopRuns(env, LExpr(st.pops, statements).value, AExpr(count).value, 1, st.repcount, st, fuel);
  }

  /** repeat of a count below 1 runs nothing and changes nothing. */
  lemma RepeatNothing(env: Env, count: Value, statements: Value, st: State, fuel: nat)
    requires AExpr(count).Ok? && AExpr(count).value < 1.0 && LExpr(st.pops, statements).Ok?
    ensures RepeatPrim(env, count, statements, st, fuel) == Done(Ok(None), st)
  {
  }

  // -------------------------------------------------------------- execute

  /** An empty list runs nothing and gives None. */
  lemma ExecuteEmpty(env: Env, st: State, returnResult: bool, fuel: nat)
    ensures Execute(env, st, [], returnResult, fuel) == Done(Ok(None), st)
  {
  }

  /** An expression that gives a value where none is wanted is a fault,
      raised after that expression has run. */
  lemma ExecuteUnwanted(env: Env, st: State, toks: seq<Atom>, fuel: nat)
    requires toks != []
    requires var e := Expression(env, None, st, toks, fuel); e.out.Ok? && e.out.value.Some?
    ensures Execute(env, st, toks, false, fuel) == Done(Fail(UnwantedResult), Expression(env, None, st, toks, fuel).st)
  {
  }

  /** Expressions run one after another until the list is used up; with
      returnResult the last one's value is the result. */
  lemma {:induction false} ExecuteLast(env: Env, st: State, toks: seq<Atom>, fuel: nat)
    requires toks != []
    requires var e := Expression(env, None, st, toks, fuel); e.out.Ok? && e.rest == []
    ensures var e := Expression(env, None, st, toks, fuel);
      Execute(env, st, toks, true, fuel) == Done(e.out, e.st)
  {
    var e := Expression(env, None, st, toks, fuel);
    assert ExecLoop(env, st, toks, None, true, fuel) == ExecLoop(env, e.st, [], e.out.value, true, fuel);
  }

  /** The result of an earlier expression is forgotten once another one
      runs. */
  lemma LastForgotten(env: Env, st: State, toks: seq<Atom>, last: Value, returnResult: bool, fuel: nat)
    requires toks != []
    ensures ExecLoop(env, st, toks, last, returnResult, fuel) == ExecLoop(env, st, toks, None, returnResult, fuel)
  {
  }

  /** One step of execute: after a first expression that succeeds (without
      a value, unless one is wanted) and leaves tokens, execute goes on
      from the state and the tokens it left, as if they were the list. */
  lemma {:induction false} ExecuteStep(env: Env, st: State, toks: seq<Atom>, returnResult: bool, fuel: nat)
    requires toks != []
    requires var e := Expression(env, None, st, toks, fuel);
      e.out.Ok? && e.rest != [] && (returnResult || e.out.value.None?)
    ensures var e := Expression(env, None, st, toks, fuel);
      Execute(env, st, toks, returnResult, fuel) == Execute(env, e.st, e.rest, returnResult, fuel)
  {
    var e := Expression(env, None, st, toks, fuel);
    assert ExecLoop(env, st, toks, None, returnResult, fuel) ==
           ExecLoop(env, e.st, e.rest, e.out.value, returnResult, fuel);
    LastForgotten(env, e.st, e.rest, e.out.value, returnResult, fuel);
  }

  /** Execute does not return a value unless asked to. */
  lemma ExecuteWithoutResult(env: Env, st: State, toks: seq<Atom>, fuel: nat)
    ensures var r := Execute(env, st, toks, false, fuel);
      r.out.Ok? ==> r.out == Ok(None)
  {
  }

  // ------------------------------------------------------------------- if

  /** A non-zero number runs the body as a statement list; zero with no
      other branch gives None and changes nothing. */
  lemma IfNumber(env: Env, x: real, statements: Value, st: State, fuel: nat)
    requires TokensOf(st.pops, statements).Ok?
    ensures var r := IfPrim(env, Some(Num(x)), statements, [], st, fuel);
      r == if x != 0.0 then Execute(env, st, TokensOf(st.pops, statements).value, false, fuel) else Done(Ok(None), st)
  {
  }

  /** A list condition is evaluated from the list object itself: the list
      then holds only what the expression left, and its value decides as
      a number would, from the state the evaluation left. */
  lemma IfList(env: Env, l: Atom, statements: Value, extra: seq<Value>, st: State, fuel: nat)
    requires l.List?
    ensures var e := Expression(env, Some(l), st, Contents(st.pops, l), fuel);
      var c := EvaluateList(env, st, l, fuel);
      var r := IfPrim(env, Some(l), statements, extra, st, fuel);
      c.out == e.out && Contents(c.st.pops, l) == e.rest &&
      (c.out.Fail? ==> r == c) &&
      (c.out.Ok? && AExpr(c.out.value).Fail? ==> r == Done(Fail(AExpr(c.out.value).fault), c.st)) &&
      (c.out.Ok? && AExpr(c.out.value).Ok? ==>
        r == IfPrim(env, Some(Num(AExpr(c.out.value).value)), statements, extra, c.st, fuel))
  {
  }

  /** Every level of an empty token list faults for want of an atom. */
  lemma {:induction false} LevelOfNothing(env: Env, src: Option<Atom>, l: Prec, st: State, fuel: nat)
    ensures Level(env, src, l, st, [], fuel) == Step(Fail(UnexpectedEnd), st, [])
  {
    LevelOfUnary(env, src, l, st, [], fuel);
  }

  /** A lone number is an expression of itself, consuming its token. */
  lemma ExpressionOfNumber(env: Env, src: Option<Atom>, st: State, x: real, fuel: nat)
    ensures Expression(env, src, st, [Num(x)], fuel) == Step(Ok(Some(Num(x))), st, [])
  {
    assert [Num(x)] == [Num(x)] + [];
    UnaryOfLiteral(env, src, st, Num(x), [], fuel);
    LevelOfUnary(env, src, Relational, st, [Num(x)] + [], fuel);
  }

  /** Evaluating in place a condition list that now holds one number
      yields that number and pops the list to its end. */
  lemma ConditionOfNumber(env: Env, st: State, l: Atom, x: real, fuel: nat)
    requires l.List? && Contents(st.pops, l) == [Num(x)]
    ensures EvaluateList(env, st, l, fuel) == Done(Ok(Some(Num(x))), st.(pops := st.pops[l.id := |l.items|]))
  {
    ExpressionOfNumber(env, Some(l), st, x, fuel);
  }

  /** A list condition that evaluates to a non-zero number runs the body
      from the state the evaluation left, the condition list popped; an
      empty body then gives None and changes nothing more. */
  lemma IfTrueList(env: Env, l: Atom, s: ListId, st: State, fuel: nat, x: real, st2: State)
    requires l.List? && x != 0.0
    requires EvaluateList(env, st, l, fuel) == Done(Ok(Some(Num(x))), st2)
    ensures IfPrim(env, Some(l), Some(List(s, [])), [], st, fuel) == Done(Ok(None), st2)
  {
    assert AExpr(Some(Num(x))) == Ok(x);
    assert TokensOf(st2.pops, Some(List(s, []))) == Ok([]);
    IfList(env, l, Some(List(s, [])), [], st, fuel);
    IfNumber(env, x, Some(List(s, [])), st2, fuel);
    ExecuteEmpty(env, st2, false, fuel);
  }

  /** if l [] on a condition list that now holds one non-zero number (as
      [1] does before any if has read it): the condition is true, the
      empty body runs, and the list is popped to its end, so that it is
      empty from then on. */
  lemma IfEmptiesCondition(env: Env, st: State, l: Atom, x: real, s: ListId, fuel: nat)
    requires l.List? && Contents(st.pops, l) == [Num(x)] && x != 0.0
    ensures IfPrim(env, Some(l), Some(List(s, [])), [], st, fuel) == Done(Ok(None), st.(pops := st.pops[l.id := |l.items|]))
    ensures Contents(st.pops[l.id := |l.items|], l) == []
  {
    ConditionOfNumber(env, st, l, x, fuel);
    IfTrueList(env, l, s, st, fuel, x, st.(pops := st.pops[l.id := |l.items|]));
  }

  /** A statement that starts with a routine name and whose call reads
      all that follows is that call. */
  lemma ExpressionOfCall(env: Env, src: Option<Atom>, st: State, w: string, rest: seq<Atom>, fuel: nat)
    requires |w| > 1 && 'a' <= w[0] <= 'z'
    requires Dispatch(env, src, w, st, rest, true, fuel).rest == []
    ensures Expression(env, src, st, [Word(w)] + rest, fuel) == Dispatch(env, src, w, st, rest, true, fuel)
  {
    var toks := [Word(w)] + rest;
    assert toks[0] == Word(w) && toks[1..] == rest;
    assert !IsNumber(w) && !Peek(toks, [UnaryMinus]);
    assert Unary(env, src, st, toks, fuel) == Dispatch(env, src, w, st, rest, true, fuel);
    LevelOfUnary(env, src, Relational, st, toks, fuel);
  }

  /** A condition list whose one expression reads it to its end: the
      value of that expression, with the list used up. */
  lemma ConditionOfWhole(env: Env, st: State, l: Atom, v: Value, st2: State, fuel: nat)
    requires l.List? && l.id !in st.pops
    requires Expression(env, Some(l), st, l.items, fuel) == Step(Ok(v), st2, [])
    ensures EvaluateList(env, st, l, fuel) == Done(Ok(v), st2.(pops := st2.pops[l.id := |l.items|]))
  {
    assert Contents(st.pops, l) == l.items;
  }

  /** The numeral 1, alone, evaluates to the number 1. */
  lemma ExpressionOfOne(env: Env, src: Option<Atom>, st: State, fuel: nat)
    ensures Expression(env, src, st, [Word("1")], fuel) == Step(Ok(Some(Num(1.0))), st, [])
  {
    assert IsNumber("1") && ParseNumber("1") == Some(1.0);
    assert [Word("1")][1..] == [];
    assert Unary(env, src, st, [Word("1")], fuel) == Step(Ok(Some(Num(1.0))), st, []);
    LevelOfUnary(env, src, Relational, st, [Word("1")], fuel);
  }

  /** A condition list that now holds only the numeral 1 is true, and an
      if with an empty body on it pops it to its end. */
  lemma IfOnOne(env: Env, st: State, l: Atom, s: ListId, fuel: nat)
    requires l.List? && Contents(st.pops, l) == [Word("1")]
    ensures IfPrim(env, Some(l), Some(List(s, [])), [], st, fuel) == Done(Ok(None), st.(pops := st.pops[l.id := |l.items|]))
  {
    ExpressionOfOne(env, Some(l), st, fuel);
    var st2 := st.(pops := st.pops[l.id := |l.items|]);
    assert EvaluateList(env, st, l, fuel) == Done(Ok(Some(Num(1.0))), st2);
    IfTrueList(env, l, s, st, fuel, 1.0, st2);
  }

  /** The arguments of if in [if :c [] 1] while c holds that list: the
      list itself and [], with 1 left. */
  lemma SelfReadingArgs(env: Env, st: State, l: Atom, s: ListId, fuel: nat)
    requires l.List? && GetVar(st.frames, "c", "c") == Ok(l)
    ensures NaturalArgs(env, Some(l), 2, [], st, [Word(":c"), List(s, []), Word("1")], fuel) ==
      Step(Ok([Some(l), Some(List(s, []))]), st, [Word("1")])
  {
    var src, args := Some(l), [Word(":c"), List(s, []), Word("1")];
    assert [':'] + "c" == ":c" && Lower("c") == "c";
    FinalVariable(env, src, st, "c", args[1..], fuel);
    assert [Word(":c")] + args[1..] == args;
    assert Unary(env, src, st, args, fuel) == Step(Ok(Some(l)), st, args[1..]);
    LevelOfUnary(env, src, Relational, st, args, fuel);
    assert [List(s, [])] + [Word("1")] == args[1..];
    UnaryOfLiteral(env, src, st, List(s, []), [Word("1")], fuel);
    LevelOfUnary(env, src, Relational, st, args[1..], fuel);
    assert Expression(env, src, st, args, fuel) == Step(Ok(Some(l)), st, args[1..]);
    assert Expression(env, src, st, args[1..], fuel) == Step(Ok(Some(List(s, []))), st, [Word("1")]);
    assert [] + [Some(l)] == [Some(l)];
    assert [Some(l)] + [Some(List(s, []))] == [Some(l), Some(List(s, []))];
    assert NaturalArgs(env, src, 1, [Some(l)], st, args[1..], fuel) ==
      Step(Ok([Some(l), Some(List(s, []))]), st, [Word("1")]);
  }

  /** The call of if on a list c that the caller is reading and that ends
      in 1, with 1 left to read: the list is written back holding only 1
      before the call, the call pops it, and the caller is left with
      nothing. */
  lemma SelfReadingCall(env: Env, st: State, l: Atom, s: ListId, fuel: nat)
    requires fuel > 0 && l.List? && Suffix([Word("1")], l.items)
    ensures CallFrom(env, Some(l), Upper("if"), If, [Some(l), Some(List(s, []))], st, [Word("1")], fuel) ==
      Step(Ok(None), st.(pops := st.pops[l.id := |l.items|]), [])
  {
    var cargs := [Some(l), Some(List(s, []))];
    CallFromObject(env, l, Upper("if"), If, cargs, st, [Word("1")], fuel);
    var synced := st.(pops := st.pops[l.id := |l.items| - 1]);
    var pushed := synced.(stack := synced.stack + [Upper("if")]);
    IfOnOne(env, pushed, l, s, fuel - 1);
    assert cargs[0] == Some(l) && cargs[1] == Some(List(s, [])) && cargs[2..] == [];
    assert Invoke(env, If, cargs, pushed, fuel - 1) == IfPrim(env, Some(l), Some(List(s, [])), [], pushed, fuel - 1);
    assert Call(env, Upper("if"), If, cargs, synced, fuel) == Done(Ok(None), st.(pops := st.pops[l.id := |l.items|]));
  }

  /** The expression if :c [] 1, read from the list c itself when c ends
      in it: the if reads c and [], and its call consumes the 1 from c,
      so the expression gives None and c is used up. */
  lemma SelfReadingIf(env: Env, st: State, l: Atom, s: ListId, fuel: nat)
    requires Lower("if") in env.routines && env.routines[Lower("if")].code == If
    requires env.routines[Lower("if")].props.args == 2 && !env.routines[Lower("if")].props.special
    requires fuel > 0 && l.List? && Suffix([Word("1")], l.items)
    requires GetVar(st.frames, "c", "c") == Ok(l)
    ensures Expression(env, Some(l), st, [Word("if"), Word(":c"), List(s, []), Word("1")], fuel) ==
      Step(Ok(None), st.(pops := st.pops[l.id := |l.items|]), [])
  {
    var src, toks := Some(l), [Word("if"), Word(":c"), List(s, []), Word("1")];
    var args := toks[1..];
    var d := Dispatch(env, src, "if", st, args, true, fuel);
    assert d == Step(Ok(None), st.(pops := st.pops[l.id := |l.items|]), []) by {
      assert args == [Word(":c"), List(s, []), Word("1")];
      SelfReadingArgs(env, st, l, s, fuel);
      LowerOfUpper("if");
      NaturalCall(env, src, "if", st, args, fuel);
      SelfReadingCall(env, st, l, s, fuel);
    }
    assert [Word("if")] + args == toks;
    ExpressionOfCall(env, src, st, "if", args, fuel);
  }

  /** make "c [if :c [] 1], then if :c []. The outer condition pops "if",
      reads :c, which is the list itself, and [], and calls if_ on the
      list, which by then holds only 1: the call pops the 1, runs the
      empty body and gives None. The outer condition so ends with the
      list empty and no value, and the outer if_ faults for want of a
      number. */
  lemma SelfReadingCondition(env: Env, st: State, id: ListId, s: ListId, fuel: nat)
    requires Lower("if") in env.routines && env.routines[Lower("if")].code == If
    requires env.routines[Lower("if")].props.args == 2 && !env.routines[Lower("if")].props.special
    requires fuel > 0 && id !in st.pops
    requires GetVar(st.frames, "c", "c") == Ok(List(id, [Word("if"), Word(":c"), List(s, []), Word("1")]))
    ensures var l := List(id, [Word("if"), Word(":c"), List(s, []), Word("1")]);
      var c := EvaluateList(env, st, l, fuel);
      c.out == Ok(None) && Contents(c.st.pops, l) == []
    ensures IfPrim(env, Some(List(id, [Word("if"), Word(":c"), List(s, []), Word("1")])), Some(List(s, [])), [], st, fuel).out
      == Fail(ExpectingNumber)
  {
    var l := List(id, [Word("if"), Word(":c"), List(s, []), Word("1")]);
    assert Suffix([Word("1")], l.items) by {
      DroppedIsSlice(l.items, 3);
      DroppedSuffix(l.items, 3);
      assert l.items[3..] == [Word("1")];
    }
    SelfReadingIf(env, st, l, s, fuel);
    assert Contents(st.pops, l) == l.items;
    assert EvaluateList(env, st, l, fuel) == Done(Ok(None), st.(pops := st.pops[id := 4]));
  }

  /** The numeral 1 followed by the word if is an expression of its own:
      if is not an operator. */
  lemma OneBeforeIf(env: Env, src: Option<Atom>, st: State, rest: seq<Atom>, fuel: nat)
    requires rest != [] && rest[0] == Word("if")
    ensures Expression(env, src, st, [Word("1")] + rest, fuel) == Step(Ok(Some(Num(1.0))), st, rest)
  {
    var toks := [Word("1")] + rest;
    assert toks[0] == Word("1") && toks[1..] == rest;
    assert IsNumber("1") && ParseNumber("1") == Some(1.0);
    assert Unary(env, src, st, toks, fuel) == Step(Ok(Some(Num(1.0))), st, rest);
    assert !Peek(rest, Ops(Relational)) && !Peek(rest, Tighter(Relational));
    LevelOfUnary(env, src, Relational, st, toks, fuel);
  }

  /** The arguments of and in [and 1 if :c [] 1] while c holds that list:
      1, then what the if gives, None, after it has used c up. */
  lemma SelfReadingAndArgs(env: Env, st: State, l: Atom, s: ListId, fuel: nat)
    requires Lower("if") in env.routines && env.routines[Lower("if")].code == If
    requires env.routines[Lower("if")].props.args == 2 && !env.routines[Lower("if")].props.special
    requires fuel > 0 && l.List? && Suffix([Word("1")], l.items)
    requires GetVar(st.frames, "c", "c") == Ok(l)
    ensures NaturalArgs(env, Some(l), 2, [], st, [Word("1"), Word("if"), Word(":c"), List(s, []), Word("1")], fuel) ==
      Step(Ok([Some(Num(1.0)), None]), st.(pops := st.pops[l.id := |l.items|]), [])
  {
    var src, args := Some(l), [Word("1"), Word("if"), Word(":c"), List(s, []), Word("1")];
    var inner := args[1..];
    assert inner == [Word("if"), Word(":c"), List(s, []), Word("1")];
    assert [Word("1")] + inner == args;
    OneBeforeIf(env, src, st, inner, fuel);
    var st2 := st.(pops := st.pops[l.id := |l.items|]);
    assert NaturalArgs(env, src, 1, [Some(Num(1.0))], st, inner, fuel) == Step(Ok([Some(Num(1.0)), None]), st2, []) by {
      SelfReadingIf(env, st, l, s, fuel);
      assert [Some(Num(1.0))] + [None] == [Some(Num(1.0)), None];
    }
    assert [] + [Some(Num(1.0))] == [Some(Num(1.0))];
  }

  /** The call of and on 1 and None, made once c is used up: 0, and c
      stays used up. */
  lemma SelfReadingAndCall(env: Env, st: State, l: Atom, fuel: nat)
    requires fuel > 0 && l.List?
    ensures CallFrom(env, Some(l), Upper("and"), And, [Some(Num(1.0)), None], st, [], fuel) ==
      Step(Ok(Some(Num(0.0))), st.(pops := st.pops[l.id := |l.items|]), [])
  {
    var cargs := [Some(Num(1.0)), None];
    assert Suffix([], l.items) by {
      DroppedIsSlice(l.items, |l.items|);
      DroppedSuffix(l.items, |l.items|);
    }
    CallFromObject(env, l, Upper("and"), And, cargs, st, [], fuel);
    var synced := st.(pops := st.pops[l.id := |l.items|]);
    assert !Truthy(synced.pops, cargs[1]);
    assert Values.And(synced.pops, cargs) == Num(0.0);
  }

  /** The and of [and 1 if :c [] 1], read from c itself: 0, with c used
      up. */
  lemma SelfReadingAndDispatch(env: Env, st: State, l: Atom, s: ListId, fuel: nat)
    requires Lower("if") in env.routines && env.routines[Lower("if")].code == If
    requires env.routines[Lower("if")].props.args == 2 && !env.routines[Lower("if")].props.special
    requires Lower("and") in env.routines && env.routines[Lower("and")].code == And
    requires env.routines[Lower("and")].props.args == 2 && !env.routines[Lower("and")].props.special
    requires fuel > 0 && l.List? && |l.items| == 6 && l.items[5] == Word("1")
    requires GetVar(st.frames, "c", "c") == Ok(l)
    ensures Dispatch(env, Some(l), "and", st, [Word("1"), Word("if"), Word(":c"), List(s, []), Word("1")], true, fuel) ==
      Step(Ok(Some(Num(0.0))), st.(pops := st.pops[l.id := 6]), [])
  {
    var src, args := Some(l), [Word("1"), Word("if"), Word(":c"), List(s, []), Word("1")];
    var st6 := st.(pops := st.pops[l.id := 6]);
    assert Suffix([Word("1")], l.items) by {
      DroppedIsSlice(l.items, 5);
      DroppedSuffix(l.items, 5);
      assert l.items[5..] == [Word("1")];
    }
    SelfReadingAndArgs(env, st, l, s, fuel);
    LowerOfUpper("and");
    NaturalCall(env, src, "and", st, args, fuel);
    SelfReadingAndCall(env, st6, l, fuel);
    assert st6.(pops := st6.pops[l.id := 6]) == st6;
  }

  /** The condition [and 1 if :c [] 1], evaluated from c itself: 0, with
      c used up. */
  lemma SelfReadingAndCondition(env: Env, st: State, l: Atom, s: ListId, fuel: nat)
    requires Lower("if") in env.routines && env.routines[Lower("if")].code == If
    requires env.routines[Lower("if")].props.args == 2 && !env.routines[Lower("if")].props.special
    requires Lower("and") in env.routines && env.routines[Lower("and")].code == And
    requires env.routines[Lower("and")].props.args == 2 && !env.routines[Lower("and")].props.special
    requires fuel > 0 && l.List? && l.id !in st.pops
    requires l.items == [Word("and"), Word("1"), Word("if"), Word(":c"), List(s, []), Word("1")]
    requires GetVar(st.frames, "c", "c") == Ok(l)
    ensures EvaluateList(env, st, l, fuel) == Done(Ok(Some(Num(0.0))), st.(pops := st.pops[l.id := 6]))
  {
    var src, toks := Some(l), l.items;
    var args := toks[1..];
    assert args == [Word("1"), Word("if"), Word(":c"), List(s, []), Word("1")];
    SelfReadingAndDispatch(env, st, l, s, fuel);
    assert [Word("and")] + args == toks;
    ExpressionOfCall(env, src, st, "and", args, fuel);
    var st6 := st.(pops := st.pops[l.id := 6]);
    ConditionOfWhole(env, st, l, Some(Num(0.0)), st6, fuel);
    assert st6.(pops := st6.pops[l.id := 6]) == st6;
  }

  /** make "c [and 1 if :c [] 1], then if :c []. The and reads 1, then
      the if, which reads c itself with only 1 left in it, pops that 1
      and gives None; and of 1 and None is 0, so the outer if does
      nothing and succeeds, and c is used up. */
  lemma SelfReadingAnd(env: Env, st: State, id: ListId, s: ListId, fuel: nat)
    requires Lower("if") in env.routines && env.routines[Lower("if")].code == If
    requires env.routines[Lower("if")].props.args == 2 && !env.routines[Lower("if")].props.special
    requires Lower("and") in env.routines && env.routines[Lower("and")].code == And
    requires env.routines[Lower("and")].props.args == 2 && !env.routines[Lower("and")].props.special
    requires fuel > 0 && id !in st.pops
    requires GetVar(st.frames, "c", "c") ==
      Ok(List(id, [Word("and"), Word("1"), Word("if"), Word(":c"), List(s, []), Word("1")]))
    ensures var l := List(id, [Word("and"), Word("1"), Word("if"), Word(":c"), List(s, []), Word("1")]);
      IfPrim(env, Some(l), Some(List(s, [])), [], st, fuel) == Done(Ok(None), st.(pops := st.pops[id := 6])) &&
      Contents(st.pops[id := 6], l) == []
  {
    var l := List(id, [Word("and"), Word("1"), Word("if"), Word(":c"), List(s, []), Word("1")]);
    SelfReadingAndCondition(env, st, l, s, fuel);
    assert AExpr(Some(Num(0.0))) == Ok(0.0);
    ContentsAfterWrite(st.pops, l, 6);
  }

  /** The same if run on a condition list that an earlier if has used up
      faults: there is no token left to evaluate. */
  lemma IfOnUsedCondition(env: Env, st: State, cond: Atom, statements: Value, extra: seq<Value>, fuel: nat)
    requires cond.List? && Contents(st.pops, cond) == []
    ensures IfPrim(env, Some(cond), statements, extra, st, fuel).out == Fail(UnexpectedEnd)
  {
    LevelOfNothing(env, Some(cond), Relational, st, fuel);
  }

  /** Two literal arguments are read as they are, and nothing is left. */
  lemma TwoLiteralArgs(env: Env, src: Option<Atom>, st: State, a: Atom, b: Atom, fuel: nat)
    requires !a.Word? && !b.Word?
    ensures NaturalArgs(env, src, 2, [], st, [a, b], fuel) == Step(Ok([Some(a), Some(b)]), st, [])
  {
    UnaryOfLiteral(env, src, st, a, [b], fuel);
    LevelOfUnary(env, src, Relational, st, [a] + [b], fuel);
    UnaryOfLiteral(env, src, st, b, [], fuel);
    LevelOfUnary(env, src, Relational, st, [b] + [], fuel);
    assert [a] + [b] == [a, b] && [b] + [] == [b];
    assert [] + [Some(a)] == [Some(a)] && [Some(a)] + [Some(b)] == [Some(a), Some(b)];
    assert NaturalArgs(env, src, 1, [Some(a)], st, [b], fuel) == Step(Ok([Some(a), Some(b)]), st, []);
  }

  /** The routine bound to "if", in the natural form, called on two
      literal lists: the call pushes IF on the stack, runs if_ one fuel
      lower and, when it succeeds, pops the stack again. */
  lemma IfOfTwoLists(env: Env, st: State, cond: Atom, body: Atom, fuel: nat)
    requires Lower("if") in env.routines && env.routines[Lower("if")].code == If
    requires env.routines[Lower("if")].props.args == 2 && !env.routines[Lower("if")].props.special
    requires fuel > 0 && !cond.Word? && !body.Word?
    ensures var d := IfPrim(env, Some(cond), Some(body), [], st.(stack := st.stack + [Upper("if")]), fuel - 1);
      Dispatch(env, None, "if", st, [cond, body], true, fuel) ==
        if d.out.Fail? then Step(d.out, d.st, [])
        else Step(d.out, d.st.(stack := d.st.stack[..|d.st.stack| - 1]), [])
  {
    LowerOfUpper("if");
    TwoLiteralArgs(env, None, st, cond, body, fuel);
    var args := [Some(cond), Some(body)];
    assert args[0] == Some(cond) && args[1] == Some(body) && args[2..] == [];
    var pushed := st.(stack := st.stack + [Upper("if")]);
    assert Invoke(env, If, args, pushed, fuel - 1) == IfPrim(env, Some(cond), Some(body), [], pushed, fuel - 1);
    assert DispatchUpper(env, None, Upper("if"), st, [cond, body], true, fuel) ==
      var d := Call(env, Upper("if"), If, args, st, fuel); Step(d.out, d.st, []);
  }

  /** The statement if cond body, alone in a list, is the call of the
      routine bound to "if" when that call takes both lists; a value would
      be unwanted. */
  lemma IfStatementIsCall(env: Env, st: State, cond: Atom, body: Atom, fuel: nat)
    requires !cond.Word? && !body.Word?
    requires Dispatch(env, None, "if", st, [cond, body], true, fuel).rest == []
    ensures var d := Dispatch(env, None, "if", st, [cond, body], true, fuel);
      Execute(env, st, [Word("if"), cond, body], false, fuel) ==
        if d.out.Fail? then Done(d.out, d.st)
        else if d.out.value.Some? then Done(Fail(UnwantedResult), d.st)
        else Done(Ok(None), d.st)
  {
    var toks := [Word("if"), cond, body];
    assert toks[0] == Word("if") && toks[1..] == [cond, body];
    assert !IsNumber("if") by {
      assert "if"[0] == 'i';
    }
    assert Unary(env, None, st, toks, fuel) == Dispatch(env, None, "if", st, [cond, body], true, fuel);
    LevelOfUnary(env, None, Relational, st, toks, fuel);
    var d := Dispatch(env, None, "if", st, [cond, body], true, fuel);
    assert Expression(env, None, st, toks, fuel) == d;
    if d.out.Ok? && d.out.value.None? {
      ExecuteEmpty(env, d.st, false, fuel);
    }
  }

  /** When if_ succeeds without a value, the statement does too, with the
      stack as it was before the call. */
  lemma IfStatementSucceeds(env: Env, st: State, cond: Atom, body: Atom, fuel: nat, st2: State)
    requires Lower("if") in env.routines && env.routines[Lower("if")].code == If
    requires env.routines[Lower("if")].props.args == 2 && !env.routines[Lower("if")].props.special
    requires fuel > 0 && !cond.Word? && !body.Word?
    requires IfPrim(env, Some(cond), Some(body), [], st.(stack := st.stack + [Upper("if")]), fuel - 1) == Done(Ok(None), st2)
    ensures Execute(env, st, [Word("if"), cond, body], false, fuel) == Done(Ok(None), st2.(stack := st2.stack[..|st2.stack| - 1]))
  {
    IfOfTwoLists(env, st, cond, body, fuel);
    IfStatementIsCall(env, st, cond, body, fuel);
  }

  /** The statement if l [] on a condition list that holds one non-zero
      number, with "if" bound as __init__ binds it: it succeeds, and the
      only change is that the list is popped to its end. */
  lemma IfStatement(env: Env, st: State, l: Atom, x: real, s: ListId, fuel: nat)
    requires Lower("if") in env.routines && env.routines[Lower("if")].code == If
    requires env.routines[Lower("if")].props.args == 2 && !env.routines[Lower("if")].props.special
    requires fuel > 0 && l.List? && Contents(st.pops, l) == [Num(x)] && x != 0.0
    ensures Execute(env, st, [Word("if"), l, List(s, [])], false, fuel) == Done(Ok(None), st.(pops := st.pops[l.id := |l.items|]))
  {
    var pushed := st.(stack := st.stack + [Upper("if")]);
    IfEmptiesCondition(env, pushed, l, x, s, fuel - 1);
    IfStatementSucceeds(env, st, l, List(s, []), fuel, pushed.(pops := pushed.pops[l.id := |l.items|]));
    assert (st.stack + [Upper("if")])[..|st.stack|] == st.stack;
  }

  /** The same statement once its condition list is used up faults. */
  lemma IfStatementOnUsedCondition(env: Env, st: State, l: Atom, s: ListId, fuel: nat)
    requires Lower("if") in env.routines && env.routines[Lower("if")].code == If
    requires env.routines[Lower("if")].props.args == 2 && !env.routines[Lower("if")].props.special
    requires fuel > 0 && l.List? && Contents(st.pops, l) == []
    ensures Execute(env, st, [Word("if"), l, List(s, [])], false, fuel).out == Fail(UnexpectedEnd)
  {
    var pushed := st.(stack := st.stack + [Upper("if")]);
    IfOnUsedCondition(env, pushed, l, Some(List(s, [])), [], fuel - 1);
    IfOfTwoLists(env, st, l, List(s, []), fuel);
    IfStatementIsCall(env, st, l, List(s, []), fuel);
  }

  /** repeat 2 [if [1] []] faults on its second run: the first run's if
      empties the condition list, which the second run shares, so its if
      finds no tokens. Only the body list is read as it is, the lists
      inside it are the same objects on every run. */
  lemma RepeatedIfFaults(env: Env, st: State, body: Atom, l: Atom, x: real, s: ListId, fuel: nat)
    requires Lower("if") in env.routines && env.routines[Lower("if")].code == If
    requires env.routines[Lower("if")].props.args == 2 && !env.routines[Lower("if")].props.special
    requires fuel > 0 && body.List? && Contents(st.pops, body) == [Word("if"), l, List(s, [])]
    requires l.List? && Contents(st.pops, l) == [Num(x)] && x != 0.0
    ensures RepeatPrim(env, Some(Num(2.0)), Some(body), st, fuel).out == Fail(UnexpectedEnd)
  {
    var toks := [Word("if"), l, List(s, [])];
    var st1 := st.(pops := st.pops[l.id := |l.items|]);
    assert RepeatPrim(env, Some(Num(2.0)), Some(body), st, fuel) == RepeatLoop(env, toks, 2.0, 1, st.repcount, st, fuel);
    IfStatement(env, st, l, x, s, fuel);
    RepeatTurn(env, toks, 2.0, 1, st.repcount, st, fuel, st1);
    IfEmptiesCondition(env, st, l, x, s, fuel);
    IfStatementOnUsedCondition(env, st1.(repcount := 2), l, s, fuel);
    RepeatFault(env, toks, 2.0, 2, st.repcount, st1.(repcount := 2), fuel);
  }

  // ----------------------------------------------------------------- logic

  /** and and or do not short-circuit: in the natural form both argument
      expressions are evaluated before the routine runs, so a second
      argument that faults makes the call fault whatever the first one
      is (and 0 ... still evaluates what follows the 0). */
  lemma LogicEvaluatesEveryArgument(env: Env, src: Option<Atom>, name: string, st: State, a: Atom, toks: seq<Atom>, fuel: nat)
    requires Lower(name) in env.routines && env.routines[Lower(name)].code in {And, Or}
    requires env.routines[Lower(name)].props.args == 2 && !env.routines[Lower(name)].props.special
    requires !a.Word? && !Peek(toks, Ops(Relational)) && !Peek(toks, Tighter(Relational))
    requires Expression(env, src, st, toks, fuel).out.Fail?
    ensures Dispatch(env, src, name, st, [a] + toks, true, fuel).out == Expression(env, src, st, toks, fuel).out
  {
    LowerOfUpper(name);
    UnaryOfLiteral(env, src, st, a, toks, fuel);
    LevelOfUnary(env, src, Relational, st, [a] + toks, fuel);
    var e := Expression(env, src, st, toks, fuel);
    assert Expression(env, src, st, [a] + toks, fuel) == Step(Ok(Some(a)), st, toks);
    assert NaturalArgs(env, src, 1, [Some(a)], st, toks, fuel).out == Fail(e.out.fault);
    assert NaturalArgs(env, src, 2, [], st, [a] + toks, fuel).out == Fail(e.out.fault);
  }

  // ------------------------------------------------------------------ make

  /** make changes only the variable it names: every other name reads what
      it read before. */
  lemma MakeLeavesOthers(env: Env, varname: Value, value: Value, st: State, other: string, display: string)
    requires MakePrim(env, varname, value, st).out.Ok?
    requires other != Lower(SExpr(varname, env.host.numeral).value.value)
    ensures GetVar(MakePrim(env, varname, value, st).st.frames, other, display) == GetVar(st.frames, other, display)
  {
    var key := Lower(SExpr(varname, env.host.numeral).value.value);
    var v := Copy(st.pops, value, Copied(st.copies)).value;
    assert MakePrim(env, varname, value, st).st.frames == SetVar(st.frames, key, v);
    GetOtherAfterSet(st.frames, key, v, other, display);
  }

  /** A list popped to its end equals the empty list. */
  lemma UsedUpEqualsEmpty(host: Host, pops: Pops, l: Atom, s: ListId)
    requires l.List?
    ensures Apply(host, pops[l.id := |l.items|], "=", Some(l), Some(List(s, []))) == Ok(Some(Num(1.0)))
  {
    var p := pops[l.id := |l.items|];
    DroppedIsSlice(l.items, |l.items|);
    assert Contents(p, l) == [];
    assert AtomEqual(p, l, List(s, []));
  }

  /** The left operand of = in [:c = []] read from c: c itself, with
      = and [] left. */
  lemma SelfComparisonLeft(env: Env, st: State, l: Atom, s: ListId, fuel: nat)
    requires l.List? && GetVar(st.frames, "c", "c") == Ok(l)
    ensures Operand(env, Some(l), Relational, st, [Word(":c"), Word("="), List(s, [])], fuel) ==
      Step(Ok(Some(l)), st, [Word("="), List(s, [])])
  {
    var src, toks := Some(l), [Word(":c"), Word("="), List(s, [])];
    var rest := toks[1..];
    assert [':'] + "c" == ":c" && Lower("c") == "c";
    FinalVariable(env, src, st, "c", rest, fuel);
    assert [Word(":c")] + rest == toks;
    assert Unary(env, src, st, toks, fuel) == Step(Ok(Some(l)), st, rest);
    assert rest[0] == Word("=") && !Peek(rest, Ops(Additive)) && !Peek(rest, Tighter(Relational));
    LevelOfUnary(env, src, Additive, st, toks, fuel);
    OperandOfUnary(env, src, Relational, st, toks, fuel);
  }

  /** The condition [:c = []] read from c itself: by the time = compares,
      c has lost all three of its tokens, so it equals [] and the
      condition is 1, with c used up. */
  lemma SelfComparison(env: Env, st: State, l: Atom, s: ListId, fuel: nat)
    requires l.List? && l.id !in st.pops && l.items == [Word(":c"), Word("="), List(s, [])]
    requires GetVar(st.frames, "c", "c") == Ok(l)
    ensures EvaluateList(env, st, l, fuel) == Done(Ok(Some(Num(1.0))), st.(pops := st.pops[l.id := 3]))
  {
    var src, toks := Some(l), l.items;
    var rest := toks[1..];
    SelfComparisonLeft(env, st, l, s, fuel);
    LevelThen(env, src, Relational, st, toks, fuel, Some(l), st, rest);
    assert rest[0] == Word("=") && rest[1..] == [List(s, [])] + [];
    UnaryOfLiteral(env, src, st, List(s, []), [], fuel);
    OperandOfUnary(env, src, Relational, st, rest[1..], fuel);
    assert Synced(src, st.pops, []) == st.pops[l.id := |l.items|];
    UsedUpEqualsEmpty(env.host, st.pops, l, s);
    FoldOk(env, src, Relational, Some(l), st, rest, fuel, Some(List(s, [])), st, [], Some(Num(1.0)));
    LoopEnd(env, src, Relational, Some(Num(1.0)), st, [], fuel);
    Lifted(env, src, Relational, st, toks, fuel, Some(Num(1.0)), st);
    ConditionOfWhole(env, st, l, Some(Num(1.0)), st, fuel);
  }
}
