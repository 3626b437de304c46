/** The reference semantics of the interpreter core of logo.py: the
    precedence-climbing evaluator (lines 388-546), dispatch (548-589) and
    the primitives it calls (220-257, 298-300, 325-348), as functions that
    take the interpreter's state and the token list and return the result,
    the new state and the tokens left over.

    Evaluation may not terminate (a variable holding a list that repeats
    itself), so every function carries fuel: a dispatch spends one unit,
    and so does each turn of forever. Running out is the fault OutOfFuel. */
module Semantics {
  import opened Atoms
  import opened Values
  import opened Scopes

  /** The Python method a routine name is bound to. */
  datatype Code =
    | Show | Repeat | Forever | Repcount | If | Make
    | Not | True | False | And | Or | Xor
    | HideTurtle | ShowTurtle
      /** a method that hands its arguments to the turtle backend and takes
          `params` positional arguments */
    | Backend(name: string, params: nat)

  /** The props dictionary of define(); an absent key is None. */
  datatype Props = Props(args: nat, minimum: Option<int>, maximum: Option<int>,
                         noeval: bool, special: bool)

  datatype Routine = Routine(code: Code, props: Props)

  /** What the interpreter calls but does not define: the turtle backend
      (which sees the arguments and the lists as they are now), math.pow,
      and str() of a float. */
  datatype Host = Host(backend: (string, seq<Value>, Pops) -> Outcome<Value>,
                       power: (real, real) -> Outcome<real>,
                       numeral: real -> string)

  /** What evaluation reads and never changes: the routine registry (under
      folded names) and the host. */
  datatype Env = Env(routines: map<string, Routine>, host: Host)

  /** What evaluation changes: the scope frames, the diagnostic call stack,
      the repetition counter, how much of each list object has been popped,
      and how many lists setvar has copied (the next copy's number). */
  datatype State = State(frames: Frames, stack: seq<string>, repcount: int, pops: Pops, copies: nat)

  /** A result, the state after it, and the tokens not consumed. */
  datatype Step<T> = Step(out: Outcome<T>, st: State, rest: seq<Atom>)

  /** A result and the state after it, for what runs on a list of its own. */
  datatype Done = Done(out: Outcome<Value>, st: State)

  /** Tokens are consumed from the front only. */
  predicate Suffix(rest: seq<Atom>, toks: seq<Atom>)
    decreases |toks|
  {
    |rest| <= |toks| && (if |rest| == |toks| then rest == toks else Suffix(rest, toks[1..]))
  }

  /** What every evaluation keeps: the frames (their number, and every
      name bound in them stays bound); on success the call stack and the
      repetition counter are as before; on a fault the stack has only
      grown, keeping the names of the calls that were active. */
  predicate Keeps(st: State, st2: State, ok: bool) {
    |st2.frames| == |st.frames| &&
    (forall i :: 0 <= i < |st.frames| ==> st.frames[i].Keys <= st2.frames[i].Keys) &&
    (ok ==> st2.stack == st.stack && st2.repcount == st.repcount) &&
    (!ok ==> st.stack <= st2.stack)
  }

  /** Consumption and conservation for a step over toks; strict steps
      consume at least one token when they succeed. */
  predicate Progress<T>(st: State, toks: seq<Atom>, r: Step<T>, strict: bool) {
    Suffix(r.rest, toks) && (strict && r.out.Ok? ==> |r.rest| < |toks|) &&
    Keeps(st, r.st, r.out.Ok?)
  }

  // ------------------------------------------------------------ operators

  /** The binary precedence levels, loosest first. */
  datatype Prec = Relational | Additive | Multiplicative | Power

  function Ops(l: Prec): seq<string> {
    match l
    case Relational => RelationalOps
    case Additive => AdditiveOps
    case Multiplicative => MultiplicativeOps
    case Power => PowerOps
  }

  /** The next tighter level (Power's operands are unary expressions). */
  function Next(l: Prec): Prec
    requires !l.Power?
  {
    match l
    case Relational => Additive
    case Additive => Multiplicative
    case Multiplicative => Power
  }

  /** Position in the termination order: Final is 0, Unary 1, then the levels. */
  function Rank(l: Prec): nat {
    match l
    case Power => 3
    case Multiplicative => 5
    case Additive => 7
    case Relational => 9
  }

  /** Python's float %: the remainder has the sign of the divisor. */
  function PyMod(a: real, b: real): (m: real)
    requires b != 0.0
    ensures b > 0.0 ==> 0.0 <= m < b
    ensures b < 0.0 ==> b < m <= 0.0
    ensures (a - m) / b == ((a - m) / b).Floor as real
  {
    var q := (a / b).Floor as real;
    FloorRemainder(a, b, q);
    WholeQuotient(a, b, q);
    a - b * q
  }

  /** a - b * floor(a / b) is b times the fractional part of a / b, and
      a differs from it by a whole multiple of b. */
  lemma FloorRemainder(a: real, b: real, q: real)
    requires b != 0.0 && q == (a / b).Floor as real
    ensures b > 0.0 ==> 0.0 <= a - b * q < b
    ensures b < 0.0 ==> b < a - b * q <= 0.0
  {
    var e := a / b - q;
    assert 0.0 <= e < 1.0;
    assert a - b * q == b * e;
    if b > 0.0 {
      assert b * e < b;
    } else {
      assert b * e > b;
    }
  }

  /** a less a - b * q is b * q, whose quotient by b is q. */
  lemma WholeQuotient(a: real, b: real, q: real)
    requires b != 0.0
    ensures (a - (a - b * q)) / b == q
  {
    assert a - (a - b * q) == b * q;
  }

  /** An arithmetic or ordering operator on two numbers. */
  function Arith(host: Host, op: string, a: real, b: real): (r: Outcome<Atom>)
    ensures op in ["<", ">", "<=", ">="] ==> r.Ok? && (r.value == Num(1.0) || r.value == Num(0.0))
    ensures op in ["+", "-", "*"] ==> r.Ok? && r.value.Num?
    ensures op in ["/", "%"] ==> (r.Fail? <==> b == 0.0)
  {
    if op == "<" then Ok(Bool(a < b))
    else if op == ">" then Ok(Bool(a > b))
    else if op == "<=" then Ok(Bool(a <= b))
    else if op == ">=" then Ok(Bool(a >= b))
    else if op == "+" then Ok(Num(a + b))
    else if op == "-" then Ok(Num(a - b))
    else if op == "*" then Ok(Num(a * b))
    else if op == "/" then (if b == 0.0 then Fail(DivisionByZero) else Ok(Num(a / b)))
    else if op == "%" then (if b == 0.0 then Fail(DivisionByZero) else Ok(Num(PyMod(a, b))))
    else match host.power(a, b)
      case Fail(f) => Fail(f)
      case Ok(x) => Ok(Num(x))
  }

  /** The fold step of a binary level: = and <> compare structurally, every
      other operator wants two numbers (the left one is converted first). */
  function Apply(host: Host, pops: Pops, op: string, lhs: Value, rhs: Value): (r: Outcome<Value>)
    ensures r.Ok? ==> r.value.Some? && r.value.value.Num?
    ensures op in ["=", "<>"] ==> (r.Ok? <==> lhs.Some? && rhs.Some?)
    ensures op !in ["=", "<>"] && r.Ok? ==> AExpr(lhs).Ok? && AExpr(rhs).Ok?
  {
    if op == "=" || op == "<>" then
      match Equal(pops, lhs, rhs)
      case Fail(f) => Fail(f)
      case Ok(e) => Ok(Some(Bool(if op == "=" then e else !e)))
    else
      match AExpr(lhs)
      case Fail(f) => Fail(f)
      case Ok(a) =>
        match AExpr(rhs)
        case Fail(f) => Fail(f)
        case Ok(b) =>
          match Arith(host, op, a, b)
          case Fail(f) => Fail(f)
          case Ok(x) => Ok(Some(x))
  }

  /** The Python signature of each method: how many positional arguments
      it takes, and whether it takes *args. */
  predicate Accepts(code: Code, n: nat)
    ensures code.Show? || code.And? || code.Or? || code.Xor? ==> Accepts(code, n)
    ensures code.If? ==> (Accepts(code, n) <==> n >= 2)
  {
    match code
    case Show => true
    case And => true
    case Or => true
    case Xor => true
    case If => n >= 2
    case Repeat => n == 2
    case Make => n == 2
    case Forever => n == 1
    case Not => n == 1
    case Backend(_, params) => n == params
    case _ => n == 0
  }

  /** list() of a value, as execute copies its argument: the items a list
      holds now, a word's characters; a number or None is not iterable. */
  function TokensOf(pops: Pops, v: Value): (r: Outcome<seq<Atom>>)
    ensures v.Some? && v.value.List? ==> r == Ok(Contents(pops, v.value))
    ensures r.Fail? <==> v.None? || v.value.Num?
  {
    match v
    case Some(List(_, _)) => Ok(Contents(pops, v.value))
    case Some(Word(w)) => Ok(seq(|w|, i requires 0 <= i < |w| => Word([w[i]])))
    case _ => Fail(NotIterable)
  }

  /** list() of the tuple of extra arguments; a None in it faults as soon
      as the evaluator reaches it, which is at once since it comes first. */
  function TokensOfArgs(extra: seq<Value>): Outcome<seq<Atom>> {
    if forall i :: 0 <= i < |extra| ==> extra[i].Some? then
      Ok(seq(|extra|, i requires 0 <= i < |extra| && extra[i].Some? => extra[i].value))
    else Fail(NoneAtom)
  }

  // ----------------------------------------------------------- evaluator

  /** expression(): one full expression from the front of toks. */
  function Expression(env: Env, src: Option<Atom>, st: State, toks: seq<Atom>, fuel: nat): (r: Step<Value>)
    ensures Progress(st, toks, r, true)
    decreases fuel, 0, |toks|, 10
  {
    Level(env, src, Relational, st, toks, fuel)
  }

  /** A binary level: its left operand at the next level, then the fold. */
  function Level(env: Env, src: Option<Atom>, l: Prec, st: State, toks: seq<Atom>, fuel: nat): (r: Step<Value>)
    ensures Progress(st, toks, r, true)
    decreases fuel, 0, |toks|, Rank(l)
  {
    var left := Operand(env, src, l, st, toks, fuel);
    if left.out.Fail? then left
    else
      var r := LevelLoop(env, src, l, left.out.value, left.st, left.rest, fuel);
      SuffixTrans(r.rest, left.rest, toks);
      r
  }

  /** An operand of level l: the next tighter level, or a unary expression. */
  function Operand(env: Env, src: Option<Atom>, l: Prec, st: State, toks: seq<Atom>, fuel: nat): (r: Step<Value>)
    ensures Progress(st, toks, r, true)
    decreases fuel, 0, |toks|, Rank(l) - 1
  {
    if l.Power? then Unary(env, src, st, toks, fuel) else Level(env, src, Next(l), st, toks, fuel)
  }

  /** The while loop of a binary level: while the next token is one of the
      level's operators, pop it, evaluate the right operand, fold left. */
  function LevelLoop(env: Env, src: Option<Atom>, l: Prec, lhs: Value, st: State, toks: seq<Atom>, fuel: nat): (r: Step<Value>)
    ensures Progress(st, toks, r, false)
    decreases fuel, 0, |toks|, Rank(l)
  {
    if !Peek(toks, Ops(l)) then Step(Ok(lhs), st, toks)
    else
      var right := Operand(env, src, l, st, toks[1..], fuel);
      SuffixTrans(right.rest, toks[1..], toks);
      if right.out.Fail? then right
      else match Apply(env.host, Synced(src, right.st.pops, right.rest), toks[0].text, lhs, right.out.value)
        case Fail(f) => Step(Fail(f), right.st, right.rest)
        case Ok(v) =>
          var r := LevelLoop(env, src, l, v, right.st, right.rest, fuel);
          SuffixTrans(r.rest, right.rest, toks);
          r
  }

  /** unaryExpression(): a unary-minus token negates the unary expression
      after it. */
  function Unary(env: Env, src: Option<Atom>, st: State, toks: seq<Atom>, fuel: nat): (r: Step<Value>)
    ensures Progress(st, toks, r, true)
    decreases fuel, 0, |toks|, 1
  {
    if Peek(toks, [UnaryMinus]) then
      var r := Unary(env, src, st, toks[1..], fuel);
      SuffixTrans(r.rest, toks[1..], toks);
      Negated(r)
    else Final(env, src, st, toks, fuel)
  }

  /** The negation of what the operand of a unary minus gave: a fault is
      passed on, and the operand must be a number. */
  function Negated(r: Step<Value>): (n: Step<Value>)
    ensures n.st == r.st && n.rest == r.rest
    ensures n.out.Ok? <==> r.out.Ok? && AExpr(r.out.value).Ok?
    ensures n.out.Ok? ==> n.out.value == Some(Num(-AExpr(r.out.value).value))
  {
    if r.out.Fail? then r
    else match AExpr(r.out.value)
      case Fail(f) => Step(Fail(f), r.st, r.rest)
      case Ok(x) => Step(Ok(Some(Num(-x))), r.st, r.rest)
  }

  /** finalExpression(): one atom, classified. */
  function Final(env: Env, src: Option<Atom>, st: State, toks: seq<Atom>, fuel: nat): (r: Step<Value>)
    ensures Progress(st, toks, r, true)
    decreases fuel, 0, |toks|, 0
  {
    if toks == [] then Step(Fail(UnexpectedEnd), st, toks)
    else
      var atom, rest := toks[0], toks[1..];
      SuffixTail(toks);
      match atom
      case List(_, _) => Step(Ok(Some(atom)), st, rest)
      case Num(_) => Step(Ok(Some(atom)), st, rest)
      case Word(w) =>
        if IsNumber(w) then
          match ParseNumber(w)
          case None => Step(Fail(InvalidNumeral), st, rest)
          case Some(x) => Step(Ok(Some(Num(x))), st, rest)
        else if w == "" then Step(Fail(EmptyWord), st, rest)
        else if w[0] == '"' || w[0] == '\'' then Step(Ok(Some(Word(w[1..]))), st, rest)
        else if w[0] == ':' then
          match GetVar(st.frames, Lower(w[1..]), w[1..])
          case Fail(f) => Step(Fail(f), st, rest)
          case Ok(a) => Step(Ok(Some(a)), st, rest)
        else if w[0] == '(' then
          var r := Group(env, src, st, rest, fuel);
          SuffixTrans(r.rest, rest, toks);
          r
        else if w == ")" then Step(Fail(UnexpectedClose), st, rest)
        else
          var r := Dispatch(env, src, w, st, rest, true, fuel);
          SuffixTrans(r.rest, rest, toks);
          r
  }

  /** After "(", a parenthesised call: the next token names a routine and
      the one after it is not an infix operator. */
  predicate StartsCall(env: Env, toks: seq<Atom>)
    ensures StartsCall(env, toks) ==> |toks| > 0 && !toks[0].List?
    ensures |toks| > 1 && toks[1].Word? && IsInfix(toks[1].text) ==> !StartsCall(env, toks)
  {
    |toks| > 0 && !toks[0].List? && Lower(WordText(toks[0], env.host.numeral)) in env.routines &&
    !(|toks| > 1 && !toks[1].List? && IsInfix(WordText(toks[1], env.host.numeral)))
  }

  /** What follows "(": a parenthesised call, or else a parenthesised
      expression, which must be followed by ")". */
  function Group(env: Env, src: Option<Atom>, st: State, toks: seq<Atom>, fuel: nat): (r: Step<Value>)
    ensures Progress(st, toks, r, false)
    decreases fuel, 0, |toks|, 15
  {
    if StartsCall(env, toks) then
      SuffixTail(toks);
      if toks[0].Word? then
        var r := Dispatch(env, src, toks[0].text, st, toks[1..], false, fuel);
        SuffixTrans(r.rest, toks[1..], toks);
        r
      else Step(Fail(NotAString), st, toks[1..])
    else
      var r := Expression(env, src, st, toks, fuel);
      if r.out.Fail? then r
      else if r.rest == [] then Step(Fail(ExpectingCloseAtEnd), r.st, r.rest)
      else if !Peek(r.rest, [")"]) then Step(Fail(ExpectingClose), r.st, r.rest)
      else
        SuffixTail(r.rest);
        SuffixTrans(r.rest[1..], r.rest, toks);
        Step(r.out, r.st, r.rest[1..])
  }

  // ------------------------------------------------------------ dispatch

  /** dispatch(): look the routine up under the upper-cased name, collect
      its arguments in natural or parenthesised form, then call it. */
  function Dispatch(env: Env, src: Option<Atom>, name: string, st: State, toks: seq<Atom>, natural: bool, fuel: nat): (r: Step<Value>)
    ensures Progress(st, toks, r, false)
    decreases fuel, 0, |toks|, 13
  {
    DispatchUpper(env, src, Upper(name), st, toks, natural, fuel)
  }

  /** dispatch() once the name is upper-cased. */
  function DispatchUpper(env: Env, src: Option<Atom>, upper: string, st: State, toks: seq<Atom>, natural: bool, fuel: nat): (r: Step<Value>)
    ensures Progress(st, toks, r, false)
    decreases fuel, 0, |toks|, 12
  {
    if Lower(upper) !in env.routines then Step(Fail(Undefined(upper)), st, toks)
    else
      var routine := env.routines[Lower(upper)];
      if routine.props.special then Step(Fail(NotImplemented), st, toks)
      else if natural then
        var a := NaturalArgs(env, src, routine.props.args, [], st, toks, fuel);
        if a.out.Fail? then Step(Fail(a.out.fault), a.st, a.rest)
        else
          var r := CallFrom(env, src, upper, routine.code, a.out.value, a.st, a.rest, fuel);
          SuffixTrans(r.rest, a.rest, toks);
          r
      else
        var a := ParenArgs(env, src, [], st, toks, fuel);
        if a.out.Fail? then Step(Fail(a.out.fault), a.st, a.rest)
        else if a.rest == [] then Step(Fail(PopFromEmpty), a.st, a.rest)
        else
          SuffixTail(a.rest);
          SuffixTrans(a.rest[1..], a.rest, toks);
          var rest, args := a.rest[1..], a.out.value;
          var props := routine.props;
          if props.minimum.None? || props.maximum.None? then Step(Fail(MissingProperty), a.st, rest)
          else if |args| < props.minimum.value then Step(Fail(TooFewArguments), a.st, rest)
          else if props.maximum.value != -1 && |args| > props.maximum.value then
            Step(Fail(TooManyArguments), a.st, rest)
          else
            var r := CallFrom(env, src, upper, routine.code, args, a.st, rest, fuel);
            SuffixTrans(r.rest, rest, toks);
            r
  }

  /** The natural form: exactly n more argument expressions. */
  function NaturalArgs(env: Env, src: Option<Atom>, n: nat, acc: seq<Value>, st: State, toks: seq<Atom>, fuel: nat)
    : (r: Step<seq<Value>>)
    ensures Progress(st, toks, r, false)
    ensures r.out.Ok? ==> |r.out.value| == |acc| + n && r.out.value[..|acc|] == acc
    decreases fuel, 0, |toks|, 11
  {
    if n == 0 then Step(Ok(acc), st, toks)
    else
      var e := Expression(env, src, st, toks, fuel);
      if e.out.Fail? then Step(Fail(e.out.fault), e.st, e.rest)
      else
        var r := NaturalArgs(env, src, n - 1, acc + [e.out.value], e.st, e.rest, fuel);
        SuffixTrans(r.rest, e.rest, toks);
        r
  }

  /** The parenthesised form: argument expressions until ")" or the end. */
  function ParenArgs(env: Env, src: Option<Atom>, acc: seq<Value>, st: State, toks: seq<Atom>, fuel: nat)
    : (r: Step<seq<Value>>)
    ensures Progress(st, toks, r, false)
    ensures r.out.Ok? ==> r.rest == [] || Peek(r.rest, [")"])
    ensures r.out.Ok? ==> |r.out.value| >= |acc| && r.out.value[..|acc|] == acc
    decreases fuel, 0, |toks|, 11
  {
    if toks == [] || Peek(toks, [")"]) then Step(Ok(acc), st, toks)
    else
      var e := Expression(env, src, st, toks, fuel);
      if e.out.Fail? then Step(Fail(e.out.fault), e.st, e.rest)
      else
        var r := ParenArgs(env, src, acc + [e.out.value], e.st, e.rest, fuel);
        SuffixTrans(r.rest, e.rest, toks);
        r
  }

  /** A call made while reading tokens from src. The tokens of a list
      object are popped from the object itself, so before the call the
      object is brought up to date with what the caller has consumed, and
      after it the caller goes on from what the object still holds: the
      callee (an if_ whose condition is the same list) may have popped it. */
  function CallFrom(env: Env, src: Option<Atom>, name: string, code: Code, args: seq<Value>,
                    st: State, rest: seq<Atom>, fuel: nat): (r: Step<Value>)
    ensures Suffix(r.rest, rest) && Keeps(st, r.st, r.out.Ok?)
    decreases fuel, 0, 0, 2
  {
    var synced := st.(pops := Synced(src, st.pops, rest));
    var d := Call(env, name, code, args, synced, fuel);
    var r := Reread(src, synced.pops, d.st.pops, rest);
    Step(d.out, d.st, r)
  }

  /** The object behind a cursor records as popped all that precedes the
      tokens the cursor has left; a private copy has no object. */
  function Synced(src: Option<Atom>, pops: Pops, rest: seq<Atom>): (r: Pops)
    ensures src.Some? && src.value.List? && |rest| <= |src.value.items| ==>
      Popped(r, src.value) == |src.value.items| - |rest|
    ensures forall id :: id in pops && (src.None? || !src.value.List? || id != src.value.id) ==>
      id in r && r[id] == pops[id]
  {
    if src.Some? && src.value.List? && |rest| <= |src.value.items| then
      pops[src.value.id := |src.value.items| - |rest|]
    else pops
  }

  /** After a call, the cursor also loses what the call popped from its
      object. */
  function Reread(src: Option<Atom>, before: Pops, after: Pops, rest: seq<Atom>): (r: seq<Atom>)
    ensures Suffix(r, rest)
    ensures src.None? ==> r == rest
  {
    if src.Some? && src.value.List? && Popped(before, src.value) < Popped(after, src.value) then
      var k := Popped(after, src.value) - Popped(before, src.value);
      DroppedSuffix(rest, if k <= |rest| then k else |rest|);
      Dropped(rest, if k <= |rest| then k else |rest|)
    else rest
  }

  /** The call itself: push the name on the diagnostic stack, run the
      method, pop the name. A fault leaves the name on the stack. */
  function Call(env: Env, name: string, code: Code, args: seq<Value>, st: State, fuel: nat): (r: Done)
    ensures Keeps(st, r.st, r.out.Ok?)
    decreases fuel, 0, 0, 1
  {
    var pushed := st.(stack := st.stack + [name]);
    if fuel == 0 then Done(Fail(OutOfFuel), pushed)
    else
      var d := Invoke(env, code, args, pushed, fuel - 1);
      if d.out.Fail? then d
      else Done(d.out, d.st.(stack := d.st.stack[..|d.st.stack| - 1]))
  }

  /** proc['code'](*args): the method bound to the routine. */
  function Invoke(env: Env, code: Code, args: seq<Value>, st: State, fuel: nat): (r: Done)
    ensures Keeps(st, r.st, r.out.Ok?)
    decreases fuel
  {
    if !Accepts(code, |args|) then Done(Fail(ArgumentCount), st)
    else match code
      case Show => Done(Ok(None), st)
      case HideTurtle => Done(Ok(None), st)
      case ShowTurtle => Done(Ok(None), st)
      case Backend(name, _) => Done(env.host.backend(name, args, st.pops), st)
      case Repcount => Done(Ok(Some(Num(st.repcount as real))), st)
      case True => Done(Ok(Some(Num(1.0))), st)
      case False => Done(Ok(Some(Num(0.0))), st)
      case Not =>
        (match Values.Not(args[0])
         case Fail(f) => Done(Fail(f), st)
         case Ok(a) => Done(Ok(Some(a)), st))
      case And => Done(Ok(Some(Values.And(st.pops, args))), st)
      case Or => Done(Ok(Some(Values.Or(st.pops, args))), st)
      case Xor => Done(Ok(Some(Values.Xor(st.pops, args))), st)
      case Make => MakePrim(env, args[0], args[1], st)
      case Repeat => RepeatPrim(env, args[0], args[1], st, fuel)
      case Forever => ForeverPrim(env, args[0], st, fuel)
      case If => IfPrim(env, args[0], args[1], args[2..], st, fuel)
  }

  // ---------------------------------------------------------- primitives

  /** make(): setvar of sexpr(varname); the value is copied first (a list
      into a new object, the next copy), and a list name (sexpr gives None)
      fails when the scopes fold it. On success make yields nothing, the
      folded name reads the copy, which holds what the value held, and
      nothing else changes but the copy counter. */
  function MakePrim(env: Env, varname: Value, value: Value, st: State): (r: Done)
    ensures Keeps(st, r.st, r.out.Ok?)
    ensures r.out.Ok? <==> value.Some? && SExpr(varname, env.host.numeral).Ok? &&
                           SExpr(varname, env.host.numeral).value.Some?
    ensures r.out.Fail? ==> r.st == st
    ensures r.out.Ok? ==> r.out.value.None?
    ensures r.out.Ok? ==>
      var key := Lower(SExpr(varname, env.host.numeral).value.value);
      var stored := GetVar(r.st.frames, key, key);
      stored.Ok? &&
      (!value.value.List? ==> stored.value == value.value) &&
      (value.value.List? ==>
        stored.value == List(Copied(st.copies), Contents(st.pops, value.value)) &&
        Contents(r.st.pops, stored.value) == Contents(st.pops, value.value))
    ensures r.out.Ok? ==> r.st.stack == st.stack && r.st.repcount == st.repcount &&
                          r.st.copies == st.copies + 1 && r.st.pops == st.pops - {Copied(st.copies)}
  {
    match SExpr(varname, env.host.numeral)
    case Fail(f) => Done(Fail(f), st)
    case Ok(name) =>
      var id := Copied(st.copies);
      match Copy(st.pops, value, id)
      case Fail(f) => Done(Fail(f), st)
      case Ok(v) =>
        if name.None? then Done(Fail(NotAString), st)
        else
          var frames := SetVar(st.frames, Lower(name.value), v);
          GetAfterSet(st.frames, Lower(name.value), v, Lower(name.value));
          Done(Ok(None), st.(frames := frames, pops := st.pops - {id}, copies := st.copies + 1))
  }

  /** repeat(): the count as a number, the body as a list, the counter
      saved, then the loop. */
  function RepeatPrim(env: Env, count: Value, statements: Value, st: State, fuel: nat): (r: Done)
    ensures Keeps(st, r.st, r.out.Ok?)
    decreases fuel, 1
  {
    match AExpr(count)
    case Fail(f) => Done(Fail(f), st)
    case Ok(n) =>
      match LExpr(st.pops, statements)
      case Fail(f) => Done(Fail(f), st)
      case Ok(body) => RepeatLoop(env, body, n, 1, st.repcount, st, fuel)
  }

  /** while not (i > count): run the body, i += 1, _repcount = i; then the
      saved counter is put back. */
  function RepeatLoop(env: Env, body: seq<Atom>, count: real, i: int, saved: int, st: State, fuel: nat)
    : (r: Done)
    ensures Keeps(st.(repcount := saved), r.st, r.out.Ok?)
    ensures r.out.Ok? ==> r.out.value.None?
    decreases fuel, 1, if i as real > count then 0 else count.Floor - i + 1
  {
    if i as real > count then Done(Ok(None), st.(repcount := saved))
    else
      var d := Execute(env, st, body, false, fuel);
      if d.out.Fail? then d
      else RepeatLoop(env, body, count, i + 1, saved, d.st.(repcount := i + 1), fuel)
  }

  /** A turn of repeat's loop whose body succeeds goes on from the state
      the body left, the counter advanced. */
  lemma RepeatTurn(env: Env, body: seq<Atom>, count: real, i: int, saved: int, st: State, fuel: nat, st2: State)
    requires i as real <= count && Execute(env, st, body, false, fuel) == Done(Ok(None), st2)
    ensures RepeatLoop(env, body, count, i, saved, st, fuel) == RepeatLoop(env, body, count, i + 1, saved, st2.(repcount := i + 1), fuel)
  {
  }

  /** A turn of repeat's loop whose body faults ends the loop with that
      fault. */
  lemma RepeatFault(env: Env, body: seq<Atom>, count: real, i: int, saved: int, st: State, fuel: nat)
    requires i as real <= count && Execute(env, st, body, false, fuel).out.Fail?
    ensures RepeatLoop(env, body, count, i, saved, st, fuel) == Execute(env, st, body, false, fuel)
  {
  }

  /** forever(): the body as a list, then the loop. */
  function ForeverPrim(env: Env, statements: Value, st: State, fuel: nat): (r: Done)
    ensures Keeps(st, r.st, r.out.Ok?)
    ensures r.out.Fail?
    decreases fuel, 1
  {
    match LExpr(st.pops, statements)
    case Fail(f) => Done(Fail(f), st)
    case Ok(body) => ForeverLoop(env, body, 1, st, fuel)
  }

  /** while True: run the body, i += 1, _repcount = i. It ends only with a
      fault: the body's, or running out of fuel. */
  function ForeverLoop(env: Env, body: seq<Atom>, i: int, st: State, fuel: nat): (r: Done)
    ensures r.out.Fail? && st.stack <= r.st.stack && |r.st.frames| == |st.frames|
    ensures forall k :: 0 <= k < |st.frames| ==> st.frames[k].Keys <= r.st.frames[k].Keys
    decreases fuel, 1, 0
  {
    if fuel == 0 then Done(Fail(OutOfFuel), st)
    else
      var d := Execute(env, st, body, false, fuel);
      if d.out.Fail? then d
      else ForeverLoop(env, body, i + 1, d.st.(repcount := i + 1), fuel - 1)
  }

  /** evaluateExpression() on a list object: one expression is evaluated
      from the list itself, so what it consumes is popped from the object
      as it goes (on a fault too), every routine it calls sees the object
      popped so far, and every other reference to the list sees it. */
  function EvaluateList(env: Env, st: State, l: Atom, fuel: nat): (r: Done)
    requires l.List?
    ensures Keeps(st, r.st, r.out.Ok?)
    ensures Contents(r.st.pops, l) == Expression(env, Some(l), st, Contents(st.pops, l), fuel).rest
    ensures r.out.Ok? ==> |Contents(r.st.pops, l)| < |Contents(st.pops, l)|
    decreases fuel, 0, |Contents(st.pops, l)|, 11
  {
    var e := Expression(env, Some(l), st, Contents(st.pops, l), fuel);
    PoppedTo(st.pops, e.st.pops, l, e.rest);
    Done(e.out, e.st.(pops := e.st.pops[l.id := |l.items| - |e.rest|]))
  }

  /** Writing back the count of popped items leaves the list holding
      exactly the rest of what it held. */
  lemma PoppedTo(pops: Pops, pops2: Pops, l: Atom, rest: seq<Atom>)
    requires l.List? && Suffix(rest, Contents(pops, l))
    ensures Contents(pops2[l.id := |l.items| - |rest|], l) == rest
  {
    DroppedIsSlice(l.items, Popped(pops, l));
    SuffixOfSuffix(rest, Contents(pops, l), l.items);
    ContentsAfterWrite(pops2, l, |l.items| - |rest|);
  }

  /** A suffix of a trailing slice is a trailing slice. */
  lemma SuffixOfSuffix(a: seq<Atom>, b: seq<Atom>, c: seq<Atom>)
    requires Suffix(a, b) && |b| <= |c| && b == c[|c| - |b|..]
    ensures a == c[|c| - |a|..]
  {
    SuffixDrop(a, b);
    assert forall i | 0 <= i < |a| :: a[i] == b[|b| - |a| + i] == c[|c| - |a| + i];
  }

  /** After k items are recorded as popped, the list holds what follows
      them. */
  lemma ContentsAfterWrite(pops: Pops, l: Atom, k: nat)
    requires l.List? && k <= |l.items|
    ensures Contents(pops[l.id := k], l) == l.items[k..]
  {
    assert Popped(pops[l.id := k], l) == k;
    DroppedIsSlice(l.items, k);
  }

  /** if_(): a list condition is evaluated in place first; the condition
      must then be a number. With no extra argument the body runs when it
      is non-zero; with extra arguments those form the token list of the
      other branch. */
  function IfPrim(env: Env, tf: Value, statements: Value, extra: seq<Value>, st: State, fuel: nat)
    : (r: Done)
    ensures Keeps(st, r.st, r.out.Ok?)
    decreases fuel, 1
  {
    if tf.None? then Done(Fail(NoneAtom), st)
    else
      var c := if tf.value.List? then EvaluateList(env, st, tf.value, fuel)
               else Done(Ok(tf), st);
      if c.out.Fail? then c
      else match AExpr(c.out.value)
        case Fail(f) => Done(Fail(f), c.st)
        case Ok(x) =>
          if x != 0.0 then
            match TokensOf(c.st.pops, statements)
            case Fail(f) => Done(Fail(f), c.st)
            case Ok(body) => Execute(env, c.st, body, false, fuel)
          else if extra == [] then Done(Ok(None), c.st)
          else
            match TokensOfArgs(extra)
            case Fail(f) => Done(Fail(f), c.st)
            case Ok(body) => Execute(env, c.st, body, false, fuel)
  }

  // ------------------------------------------------------------- execute

  /** execute(): evaluate expressions from (a copy of) toks until it is
      empty; a value where none is wanted is a fault; the last result is
      returned. */
  function Execute(env: Env, st: State, toks: seq<Atom>, returnResult: bool, fuel: nat): (r: Done)
    ensures Keeps(st, r.st, r.out.Ok?)
    ensures !returnResult && r.out.Ok? ==> r.out.value.None?
    decreases fuel, 0, |toks|, 14
  {
    ExecLoop(env, st, toks, None, returnResult, fuel)
  }

  function ExecLoop(env: Env, st: State, toks: seq<Atom>, last: Value, returnResult: bool, fuel: nat)
    : (r: Done)
    ensures Keeps(st, r.st, r.out.Ok?)
    ensures !returnResult && last.None? && r.out.Ok? ==> r.out.value.None?
    decreases fuel, 0, |toks|, 13
  {
    if toks == [] then Done(Ok(last), st)
    else
      var e := Expression(env, None, st, toks, fuel);
      if e.out.Fail? then Done(e.out, e.st)
      else if e.out.value.Some? && !returnResult then Done(Fail(UnwantedResult), e.st)
      else ExecLoop(env, e.st, e.rest, e.out.value, returnResult, fuel)
  }

  // -------------------------------------------------------------- suffix

  lemma SuffixTail(toks: seq<Atom>)
    requires toks != []
    ensures Suffix(toks[1..], toks)
  {
  }

  /** A suffix is what remains after dropping the difference in length. */
  lemma {:induction false} SuffixDrop(rest: seq<Atom>, toks: seq<Atom>)
    requires Suffix(rest, toks)
    ensures rest == toks[|toks| - |rest|..]
    decreases |toks|
  {
    if |rest| < |toks| {
      SuffixDrop(rest, toks[1..]);
      assert toks[1..][|toks| - 1 - |rest|..] == toks[|toks| - |rest|..];
    }
  }

  lemma {:induction false} SuffixTrans(a: seq<Atom>, b: seq<Atom>, c: seq<Atom>)
    requires Suffix(b, c)
    ensures Suffix(a, b) ==> Suffix(a, c)
    decreases |c|
  {
    if Suffix(a, b) && |b| < |c| {
      SuffixTrans(a, b, c[1..]);
    }
  }
  /** Dropping items leaves a suffix. */
  lemma {:induction false} DroppedSuffix(s: seq<Atom>, k: nat)
    requires k <= |s|
    ensures Suffix(Dropped(s, k), s)
    decreases k
  {
    if k > 0 {
      DroppedSuffix(s[1..], k - 1);
      SuffixTail(s);
      SuffixTrans(Dropped(s[1..], k - 1), s[1..], s);
    }
  }

  /** Re-reading the cursor after a call that only popped more of the
      object gives exactly what the object holds now. */
  lemma RereadIsContents(l: Atom, before: Pops, after: Pops, rest: seq<Atom>)
    requires l.List? && Contents(before, l) == rest
    requires Popped(before, l) <= Popped(after, l)
    ensures Reread(Some(l), before, after, rest) == Contents(after, l)
  {
    DroppedIsSlice(l.items, Popped(before, l));
    DroppedIsSlice(l.items, Popped(after, l));
    var k := Popped(after, l) - Popped(before, l);
    DroppedIsSlice(rest, k);
    assert rest[k..] == l.items[Popped(after, l)..];
  }
}
