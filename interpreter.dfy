/** The Logo class of logo.py as the object the Python code builds: a
    routine registry and a list of scope frames (case-folding StringMaps),
    the diagnostic call stack and the repetition counter, with the
    evaluator consuming a token list in place. The heap of list objects
    is kept beside them: how much has been popped from each list, and how
    many lists setvar has copied. Every method is proved to
    compute what the reference function of the same name in Semantics
    computes, from the state it starts in. */
module Interpreter {
  import opened Atoms
  import opened Values
  import Scopes
  import opened StringMaps
  import S = Semantics
  import opened Registry

  /** The token list the evaluator pops from the front of. */
  class Cursor {
    /** The list object the tokens are popped from, or None for the
        private copy that execute() works on. */
    const source: Option<Atom>
    var items: seq<Atom>

    constructor (source: Option<Atom>, items: seq<Atom>)
      ensures this.source == source && this.items == items
    {
      this.source := source;
      this.items := items;
    }

    /** l.pop(0). */
    method Pop() returns (a: Atom)
      requires items != []
      modifies this
      ensures a == old(items)[0] && items == old(items)[1..]
    {
      a := items[0];
      items := items[1..];
    }
  }

  class Logo {
    const host: S.Host
    const routines: StringMap<S.Routine>
    const scopes: seq<StringMap<Atom>>
    var stack: seq<string>
    var repcount: int
    var pops: Pops
    var copies: nat

    /** Both kinds of map fold case, there is a global frame, and no frame
        appears twice in the scope list. */
    ghost predicate Valid() {
      routines.caseFold && |scopes| > 0 &&
      (forall i :: 0 <= i < |scopes| ==> scopes[i].caseFold) &&
      (forall i, j :: 0 <= i < j < |scopes| ==> scopes[i] != scopes[j])
    }

    /** The contents of the scope frames, global first. */
    ghost function Frames(): Scopes.Frames
      requires Valid()
      reads scopes
    {
      seq(|scopes|, i requires 0 <= i < |scopes| reads scopes => scopes[i].contents)
    }

    /** The state the evaluator changes. */
    ghost function State(): S.State
      requires Valid()
      reads this, scopes
    {
      S.State(Frames(), stack, repcount, pops, copies)
    }

    /** What the evaluator reads only. */
    ghost function Env(): S.Env
      reads routines
    {
      S.Env(routines.contents, host)
    }

    /** __init__(): an empty registry and one empty global frame, an empty
        stack and a zero counter, then the five groups of define() calls. */
    constructor (host: S.Host)
      ensures Valid() && fresh(routines)
      ensures Frames() == [map[]] && stack == [] && repcount == 0 && pops == map[] && copies == 0
      ensures Env() == S.Env(InitialRoutines(), host)
    {
      this.host := host;
      var r := new StringMap<S.Routine>(true);
      var global := new StringMap<Atom>(true);
      routines := r;
      scopes := [global];
      stack := [];
      repcount := 0;
      pops := map[];
      copies := 0;
      new;
      assert Frames() == [map[]];
      DefineGroups();
    }

    /** The five groups of define() calls __init__ makes, in order. */
    method DefineGroups()
      requires Valid()
      modifies routines
      ensures Frames() == old(Frames()) && stack == old(stack) && repcount == old(repcount)
      ensures pops == old(pops) && copies == old(copies)
      ensures routines.contents == Xmit(Fun(Misc(Control(Motion(old(routines.contents))))))
    {
      DefineMotion();
      DefineControl();
      DefineMisc();
      DefineFun();
      DefineXmit();
    }

    /** define(): every name is set to the method with the props, args set
        to nargs. */
    method Define(names: seq<string>, code: S.Code, nargs: nat, props: S.Props)
      requires Valid()
      modifies routines
      ensures Frames() == old(Frames()) && stack == old(stack) && repcount == old(repcount)
      ensures routines.contents == Defined(old(routines.contents), names, Entry(code, nargs, props))
    {
      var entry := Entry(code, nargs, props);
      var i := 0;
      while i < |names|
        invariant i <= |names|
        invariant Defined(routines.contents, names[i..], entry) == Defined(old(routines.contents), names, entry)
        invariant Frames() == old(Frames()) && stack == old(stack) && repcount == old(repcount)
      {
        routines.Set(names[i], entry);
        assert names[i..][1..] == names[i + 1..];
        i := i + 1;
      }
    }

    /** The define() calls of one define_* method, made in order. */
    method DefineAll(t: seq<Def>)
      requires Valid()
      modifies routines
      ensures Frames() == old(Frames()) && stack == old(stack) && repcount == old(repcount)
      ensures pops == old(pops) && copies == old(copies)
      ensures routines.contents == DefineEach(old(routines.contents), t)
    {
      for i := 0 to |t|
        invariant routines.contents == DefineEach(old(routines.contents), t[..i])
        invariant Frames() == old(Frames()) && stack == old(stack) && repcount == old(repcount)
        invariant pops == old(pops) && copies == old(copies)
      {
        Define(t[i].names, t[i].code, t[i].nargs, t[i].props);
        assert t[..i + 1][..i] == t[..i];
      }
      assert t[..|t|] == t;
    }

    /** define_motion(). */
    method DefineMotion()
      requires Valid()
      modifies routines
      ensures Frames() == old(Frames()) && stack == old(stack) && repcount == old(repcount)
      ensures pops == old(pops) && copies == old(copies)
      ensures routines.contents == Motion(old(routines.contents))
    {
      DefineAll(MotionTable);
    }

    /** define_control(). */
    method DefineControl()
      requires Valid()
      modifies routines
      ensures Frames() == old(Frames()) && stack == old(stack) && repcount == old(repcount)
      ensures pops == old(pops) && copies == old(copies)
      ensures routines.contents == Control(old(routines.contents))
    {
      DefineAll(ControlTable);
    }

    /** define_misc(). */
    method DefineMisc()
      requires Valid()
      modifies routines
      ensures Frames() == old(Frames()) && stack == old(stack) && repcount == old(repcount)
      ensures pops == old(pops) && copies == old(copies)
      ensures routines.contents == Misc(old(routines.contents))
    {
      DefineAll(MiscTable);
    }

    /** define_fun(). */
    method DefineFun()
      requires Valid()
      modifies routines
      ensures Frames() == old(Frames()) && stack == old(stack) && repcount == old(repcount)
      ensures pops == old(pops) && copies == old(copies)
      ensures routines.contents == Fun(old(routines.contents))
    {
      DefineAll(FunTable);
    }

    /** define_xmit(). */
    method DefineXmit()
      requires Valid()
      modifies routines
      ensures Frames() == old(Frames()) && stack == old(stack) && repcount == old(repcount)
      ensures pops == old(pops) && copies == old(copies)
      ensures routines.contents == Xmit(old(routines.contents))
    {
      DefineAll(XmitTable);
    }

    // ------------------------------------------------------------ variables

    /** lvalue(): the frames are searched from the innermost one out; the
        result is the index of the frame holding the cell. */
    method LValue(name: string) returns (r: Option<nat>)
      requires Valid()
      ensures r == Scopes.FindFrame(Frames(), Lower(name))
    {
      var i := |scopes|;
      while i > 0
        invariant 0 <= i <= |scopes|
        invariant Scopes.FindFrame(Frames(), Lower(name)) == Scopes.FindFrameBelow(Frames(), Lower(name), i)
        decreases i
      {
        var has := scopes[i - 1].Has(name);
        if has {
          return Some(i - 1);
        }
        i := i - 1;
      }
      return None;
    }

    /** getvar(): the value of the innermost cell; unbound names fault. */
    method GetVar(name: string) returns (r: Outcome<Atom>)
      requires Valid()
      ensures r == Scopes.GetVar(Frames(), Lower(name), name)
    {
      var lval := LValue(name);
      if lval.None? {
        return Fail(UnboundVariable(name));
      }
      var v := scopes[lval.value].Get(name);
      return Ok(v.value);
    }

    /** setvar() of an already copied value: the cell lvalue finds is
        overwritten, or a new one is made in the global frame. */
    method SetVar(name: string, v: Atom)
      requires Valid()
      modifies scopes
      ensures Frames() == Scopes.SetVar(old(Frames()), Lower(name), v)
    {
      var lval := LValue(name);
      var j := if lval.Some? then lval.value else 0;
      scopes[j].Set(name, v);
      assert forall i :: 0 <= i < |scopes| && i != j ==> scopes[i].contents == old(scopes[i].contents);
    }

    /** make(): setvar(sexpr(varname), value), where setvar first copies
        the value (a list into a new list object) and then folds the name. */
    method Make(varname: Value, value: Value) returns (r: Outcome<Value>)
      requires Valid()
      modifies this, scopes
      ensures S.Done(r, State()) == S.MakePrim(Env(), varname, value, old(State()))
    {
      var name := SExpr(varname, host.numeral);
      if name.Fail? {
        return Fail(name.fault);
      }
      var id := Copied(copies);
      var v := Copy(pops, value, id);
      if v.Fail? {
        return Fail(v.fault);
      }
      if name.value.None? {
        return Fail(NotAString);
      }
      SetVar(name.value.value, v.value);
      pops := pops - {id};
      copies := copies + 1;
      return Ok(None);
    }

    // ------------------------------------------------------------ evaluator

    /** expression(). */
    method Expression(l: Cursor, fuel: nat) returns (r: Outcome<Value>)
      requires Valid()
      modifies this, l, scopes
      ensures S.Step(r, State(), l.items) == S.Expression(Env(), l.source, old(State()), old(l.items), fuel)
      decreases fuel, 0, |l.items|, 10
    {
      r := Level(S.Relational, l, fuel);
    }

    /** relationalExpression() .. powerExpression(): the left operand, then
        while the next token is an operator of this level, pop it, read the
        right operand and fold. */
    method Level(prec: S.Prec, l: Cursor, fuel: nat) returns (r: Outcome<Value>)
      requires Valid()
      modifies this, l, scopes
      ensures S.Step(r, State(), l.items) == S.Level(Env(), l.source, prec, old(State()), old(l.items), fuel)
      decreases fuel, 0, |l.items|, S.Rank(prec)
    {
      ghost var toks := l.items;
      r := Operand(prec, l, fuel);
      if r.Fail? {
        return;
      }
      ghost var target := S.LevelLoop(Env(), l.source, prec, r.value, State(), l.items, fuel);
      while Peek(l.items, S.Ops(prec))
        invariant |l.items| <= |toks| && r.Ok?
        invariant S.LevelLoop(Env(), l.source, prec, r.value, State(), l.items, fuel) == target
        decreases |l.items|
      {
        ghost var st1, cur := State(), l.items;
        var op := l.Pop();
        assert State() == st1;
        var rhs := Operand(prec, l, fuel);
        assert S.Step(rhs, State(), l.items) == S.Operand(Env(), l.source, prec, st1, cur[1..], fuel);
        if rhs.Fail? {
          return rhs;
        }
        r := S.Apply(host, S.Synced(l.source, pops, l.items), op.text, r.value, rhs.value);
        if r.Fail? {
          return;
        }
      }
    }

    /** The operand of a level: the next level's expression, or a unary
        expression below the power level. */
    method Operand(prec: S.Prec, l: Cursor, fuel: nat) returns (r: Outcome<Value>)
      requires Valid()
      modifies this, l, scopes
      ensures S.Step(r, State(), l.items) == S.Operand(Env(), l.source, prec, old(State()), old(l.items), fuel)
      decreases fuel, 0, |l.items|, S.Rank(prec) - 1
    {
      if prec.Power? {
        r := Unary(l, fuel);
      } else {
        r := Level(S.Next(prec), l, fuel);
      }
    }

    /** unaryExpression(). */
    method Unary(l: Cursor, fuel: nat) returns (r: Outcome<Value>)
      requires Valid()
      modifies this, l, scopes
      ensures S.Step(r, State(), l.items) == S.Unary(Env(), l.source, old(State()), old(l.items), fuel)
      decreases fuel, 0, |l.items|, 1
    {
      if Peek(l.items, [UnaryMinus]) {
        ghost var env, st0 := Env(), State();
        ghost var sub := S.Unary(env, l.source, st0, l.items[1..], fuel);
        assert S.Unary(env, l.source, st0, l.items, fuel) == S.Negated(sub);
        var op := l.Pop();
        assert Env() == env && State() == st0;
        var rhs := Unary(l, fuel);
        ghost var got := S.Step(rhs, State(), l.items);
        assert got == sub;
        if rhs.Fail? {
          return rhs;
        }
        var x := AExpr(rhs.value);
        if x.Fail? {
          return Fail(x.fault);
        }
        return Ok(Some(Num(-x.value)));
      }
      r := Final(l, fuel);
    }

    /** finalExpression(). */
    method Final(l: Cursor, fuel: nat) returns (r: Outcome<Value>)
      requires Valid()
      modifies this, l, scopes
      ensures S.Step(r, State(), l.items) == S.Final(Env(), l.source, old(State()), old(l.items), fuel)
      decreases fuel, 0, |l.items|, 0
    {
      if l.items == [] {
        return Fail(UnexpectedEnd);
      }
      var atom := l.Pop();
      match atom {
        case List(_, _) =>
          return Ok(Some(atom));
        case Num(_) =>
          return Ok(Some(atom));
        case Word(w) =>
          if IsNumber(w) {
            var x := ParseNumber(w);
            if x.None? {
              return Fail(InvalidNumeral);
            }
            return Ok(Some(Num(x.value)));
          }
          if w == "" {
            return Fail(EmptyWord);
          }
          if w[0] == '"' || w[0] == '\'' {
            return Ok(Some(Word(w[1..])));
          }
          if w[0] == ':' {
            var v := GetVar(w[1..]);
            if v.Fail? {
              return Fail(v.fault);
            }
            return Ok(Some(v.value));
          }
          if w[0] == '(' {
            r := Group(l, fuel);
            return;
          }
          if w == ")" {
            return Fail(UnexpectedClose);
          }
          r := Dispatch(w, l, true, fuel);
      }
    }

    /** The "(" case of finalExpression(): a parenthesised call, or an
        expression followed by ")". */
    method Group(l: Cursor, fuel: nat) returns (r: Outcome<Value>)
      requires Valid()
      modifies this, l, scopes
      ensures S.Step(r, State(), l.items) == S.Group(Env(), l.source, old(State()), old(l.items), fuel)
      decreases fuel, 0, |l.items|, 15
    {
      var call := false;
      if |l.items| > 0 && !l.items[0].List? {
        var known := routines.Has(WordText(l.items[0], host.numeral));
        call := known && !(|l.items| > 1 && !l.items[1].List? && IsInfix(WordText(l.items[1], host.numeral)));
      }
      if call {
        var atom := l.Pop();
        if !atom.Word? {
          return Fail(NotAString);
        }
        r := Dispatch(atom.text, l, false, fuel);
        return;
      }
      r := Expression(l, fuel);
      if r.Fail? {
        return;
      }
      if l.items == [] {
        return Fail(ExpectingCloseAtEnd);
      }
      if !Peek(l.items, [")"]) {
        return Fail(ExpectingClose);
      }
      var close := l.Pop();
    }

    // ------------------------------------------------------------- dispatch

    /** dispatch(): look the routine up, collect its arguments in natural
        or parenthesised form, check the counts of the latter, call it. */
    method Dispatch(name: string, l: Cursor, natural: bool, fuel: nat) returns (r: Outcome<Value>)
      requires Valid()
      modifies this, l, scopes
      ensures S.Step(r, State(), l.items) == S.Dispatch(Env(), l.source, name, old(State()), old(l.items), natural, fuel)
      decreases fuel, 0, |l.items|, 12
    {
      var upper := Upper(name);
      var proc := routines.Get(upper);
      if proc.None? {
        return Fail(Undefined(upper));
      }
      var routine := proc.value;
      if routine.props.special {
        return Fail(NotImplemented);
      }
      var a: Outcome<seq<Value>>;
      if natural {
        a := NaturalArgs(routine.props.args, l, fuel);
        if a.Fail? {
          return Fail(a.fault);
        }
      } else {
        a := ParenArgs(l, fuel);
        if a.Fail? {
          return Fail(a.fault);
        }
        if l.items == [] {
          return Fail(PopFromEmpty);
        }
        var close := l.Pop();
        var props := routine.props;
        if props.minimum.None? || props.maximum.None? {
          return Fail(MissingProperty);
        }
        if |a.value| < props.minimum.value {
          return Fail(TooFewArguments);
        }
        if props.maximum.value != -1 && |a.value| > props.maximum.value {
          return Fail(TooManyArguments);
        }
      }
      r := CallFrom(l, upper, routine.code, a.value, fuel);
    }

    /** The natural form of the argument loop: n argument expressions. */
    method NaturalArgs(n: nat, l: Cursor, fuel: nat) returns (a: Outcome<seq<Value>>)
      requires Valid()
      modifies this, l, scopes
      ensures S.Step(a, State(), l.items) == S.NaturalArgs(Env(), l.source, n, [], old(State()), old(l.items), fuel)
      decreases fuel, 0, |l.items|, 11
    {
      ghost var toks := l.items;
      ghost var target := S.NaturalArgs(Env(), l.source, n, [], State(), l.items, fuel);
      var args: seq<Value> := [];
      var i := 0;
      while i < n
        invariant i <= n && |l.items| <= |toks|
        invariant S.NaturalArgs(Env(), l.source, n - i, args, State(), l.items, fuel) == target
      {
        var e := Expression(l, fuel);
        if e.Fail? {
          return Fail(e.fault);
        }
        args := args + [e.value];
        i := i + 1;
      }
      a := Ok(args);
    }

    /** The parenthesised form of the argument loop: argument expressions
        until ")" or the end of the tokens. */
    method ParenArgs(l: Cursor, fuel: nat) returns (a: Outcome<seq<Value>>)
      requires Valid()
      modifies this, l, scopes
      ensures S.Step(a, State(), l.items) == S.ParenArgs(Env(), l.source, [], old(State()), old(l.items), fuel)
      decreases fuel, 0, |l.items|, 11
    {
      ghost var toks := l.items;
      ghost var target := S.ParenArgs(Env(), l.source, [], State(), l.items, fuel);
      var args: seq<Value> := [];
      while |l.items| > 0 && !Peek(l.items, [")"])
        invariant |l.items| <= |toks|
        invariant S.ParenArgs(Env(), l.source, args, State(), l.items, fuel) == target
        decreases |l.items|
      {
        var e := Expression(l, fuel);
        if e.Fail? {
          return Fail(e.fault);
        }
        args := args + [e.value];
      }
      a := Ok(args);
    }

    /** A call made while reading from l: the object behind l is brought
        up to date before the call, and l loses what the call popped from
        the object. */
    method CallFrom(l: Cursor, name: string, code: S.Code, args: seq<Value>, fuel: nat)
      returns (r: Outcome<Value>)
      requires Valid()
      modifies this, l, scopes
      ensures S.Step(r, State(), l.items) ==
        S.CallFrom(Env(), l.source, name, code, args, old(State()), old(l.items), fuel)
      decreases fuel, 0, 0, 2
    {
      ghost var env, st0 := Env(), State();
      ghost var frames := Frames();
      pops := S.Synced(l.source, pops, l.items);
      var synced := pops;
      assert Frames() == frames && Env() == env;
      assert State() == st0.(pops := synced);
      r := Call(name, code, args, fuel);
      l.items := S.Reread(l.source, synced, pops, l.items);
    }

    /** The call at the end of dispatch(): the name is pushed on the stack,
        the method runs, and the name is popped again when it returns. */
    method Call(name: string, code: S.Code, args: seq<Value>, fuel: nat) returns (r: Outcome<Value>)
      requires Valid()
      modifies this, scopes
      ensures S.Done(r, State()) == S.Call(Env(), name, code, args, old(State()), fuel)
      decreases fuel, 0, 0, 1
    {
      ghost var env, pushed := Env(), State().(stack := stack + [name]);
      stack := stack + [name];
      assert State() == pushed;
      if fuel == 0 {
        return Fail(OutOfFuel);
      }
      r := Invoke(code, args, fuel - 1);
      ghost var d := S.Invoke(env, code, args, pushed, fuel - 1);
      assert S.Done(r, State()) == d;
      if r.Fail? {
        return;
      }
      ghost var frames := Frames();
      stack := stack[..|stack| - 1];
      assert Frames() == frames;
    }

    /** proc['code'](*args). */
    method Invoke(code: S.Code, args: seq<Value>, fuel: nat) returns (r: Outcome<Value>)
      requires Valid()
      modifies this, scopes
      ensures S.Done(r, State()) == S.Invoke(Env(), code, args, old(State()), fuel)
      decreases fuel
    {
      if !S.Accepts(code, |args|) {
        return Fail(ArgumentCount);
      }
      match code {
        case Show => r := Ok(None);
        case HideTurtle => r := Ok(None);
        case ShowTurtle => r := Ok(None);
        case Backend(name, _) => r := host.backend(name, args, pops);
        case Repcount => r := Ok(Some(Num(repcount as real)));
        case True => r := Ok(Some(Num(1.0)));
        case False => r := Ok(Some(Num(0.0)));
        case Not =>
          var a := Values.Not(args[0]);
          if a.Fail? {
            return Fail(a.fault);
          }
          r := Ok(Some(a.value));
        case And => r := Ok(Some(Values.And(pops, args)));
        case Or => r := Ok(Some(Values.Or(pops, args)));
        case Xor => r := Ok(Some(Values.Xor(pops, args)));
        case Make => r := Make(args[0], args[1]);
        case Repeat => r := Repeat(args[0], args[1], fuel);
        case Forever => r := Forever(args[0], fuel);
        case If => r := If(args[0], args[1], args[2..], fuel);
      }
    }

    // ----------------------------------------------------------- primitives

    /** repeat(). */
    method Repeat(count: Value, statements: Value, fuel: nat) returns (r: Outcome<Value>)
      requires Valid()
      modifies this, scopes
      ensures S.Done(r, State()) == S.RepeatPrim(Env(), count, statements, old(State()), fuel)
      decreases fuel, 1
    {
      var n := AExpr(count);
      if n.Fail? {
        return Fail(n.fault);
      }
      var body := LExpr(pops, statements);
      if body.Fail? {
        return Fail(body.fault);
      }
      r := RepeatLoop(body.value, n.value, fuel);
    }

    /** The while loop of repeat(): run the body, count the turn in
        _repcount; afterwards the saved counter is put back. */
    method RepeatLoop(body: seq<Atom>, count: real, fuel: nat) returns (r: Outcome<Value>)
      requires Valid()
      modifies this, scopes
      ensures S.Done(r, State()) == S.RepeatLoop(Env(), body, count, 1, old(repcount), old(State()), fuel)
      decreases fuel, 1, 0
    {
      var saved := repcount;
      var i := 1;
      ghost var target := S.RepeatLoop(Env(), body, count, 1, saved, State(), fuel);
      while !(i as real > count)
        invariant S.RepeatLoop(Env(), body, count, i, saved, State(), fuel) == target
        decreases if i as real > count then 0 else count.Floor - i + 1
      {
        ghost var before := State();
        r := Execute(body, false, fuel);
        if r.Fail? {
          S.RepeatFault(Env(), body, count, i, saved, before, fuel);
          return;
        }
        S.RepeatTurn(Env(), body, count, i, saved, before, fuel, State());
        i := i + 1;
        repcount := i;
      }
      repcount := saved;
      r := Ok(None);
    }

    /** forever(): only a fault ends it. */
    method Forever(statements: Value, fuel: nat) returns (r: Outcome<Value>)
      requires Valid()
      modifies this, scopes
      ensures S.Done(r, State()) == S.ForeverPrim(Env(), statements, old(State()), fuel)
      decreases fuel, 1
    {
      var body := LExpr(pops, statements);
      if body.Fail? {
        return Fail(body.fault);
      }
      var i := 1;
      var f: nat := fuel;
      ghost var target := S.ForeverLoop(Env(), body.value, 1, State(), fuel);
      while f > 0
        invariant f <= fuel
        invariant S.ForeverLoop(Env(), body.value, i, State(), f) == target
        decreases f
      {
        r := Execute(body.value, false, f);
        if r.Fail? {
          return;
        }
        i := i + 1;
        repcount := i;
        f := f - 1;
      }
      r := Fail(OutOfFuel);
    }

    /** evaluateExpression() on a list object: the cursor stands for the
        object, and what the expression popped is written back to the
        object's entry in the heap, whether or not it succeeded. */
    method EvaluateList(list: Atom, fuel: nat) returns (r: Outcome<Value>)
      requires Valid() && list.List?
      modifies this, scopes
      ensures S.Done(r, State()) == S.EvaluateList(Env(), old(State()), list, fuel)
      decreases fuel, 0, |Contents(pops, list)|, 11
    {
      ghost var env, st0 := Env(), State();
      var c := new Cursor(Some(list), Contents(pops, list));
      assert Env() == env && State() == st0;
      r := Expression(c, fuel);
      ghost var e := S.Expression(env, Some(list), st0, Contents(st0.pops, list), fuel);
      assert S.Step(r, State(), c.items) == e;
      ghost var frames := Frames();
      pops := pops[list.id := |list.items| - |c.items|];
      assert Frames() == frames && Env() == env;
      assert State() == e.st.(pops := e.st.pops[list.id := |list.items| - |e.rest|]);
      assert S.EvaluateList(env, st0, list, fuel) == S.Done(e.out, State());
    }

    /** if_(): a list condition is evaluated from the list object itself,
        then the condition must be a number that picks the branch. */
    method If(tf: Value, statements: Value, extra: seq<Value>, fuel: nat) returns (r: Outcome<Value>)
      requires Valid()
      modifies this, scopes
      ensures S.Done(r, State()) == S.IfPrim(Env(), tf, statements, extra, old(State()), fuel)
      decreases fuel, 1
    {
      if tf.None? {
        return Fail(NoneAtom);
      }
      ghost var env, st0 := Env(), State();
      var cond := tf;
      if tf.value.List? {
        var e := EvaluateList(tf.value, fuel);
        assert Env() == env;
        if e.Fail? {
          return Fail(e.fault);
        }
        cond := e.value;
      }
      ghost var st1 := State();
      assert (if tf.value.List? then S.EvaluateList(env, st0, tf.value, fuel) else S.Done(Ok(tf), st0)) == S.Done(Ok(cond), st1);
      var x := AExpr(cond);
      if x.Fail? {
        return Fail(x.fault);
      }
      var body := if x.value != 0.0 then S.TokensOf(pops, statements)
                  else if extra == [] then Ok([])
                  else S.TokensOfArgs(extra);
      if body.Fail? {
        return Fail(body.fault);
      }
      if x.value == 0.0 && extra == [] {
        return Ok(None);
      }
      assert S.IfPrim(env, tf, statements, extra, st0, fuel) == S.Execute(env, st1, body.value, false, fuel);
      r := Execute(body.value, false, fuel);
    }

    // -------------------------------------------------------------- execute

    /** execute(): evaluate expressions from a copy of the statements until
        none are left; a value nobody asked for is a fault. */
    method Execute(statements: seq<Atom>, returnResult: bool, fuel: nat) returns (r: Outcome<Value>)
      requires Valid()
      modifies this, scopes
      ensures S.Done(r, State()) == S.Execute(Env(), old(State()), statements, returnResult, fuel)
      decreases fuel, 0, |statements|, 14
    {
      var l := new Cursor(None, statements);
      var last: Value := None;
      ghost var target := S.ExecLoop(Env(), State(), statements, None, returnResult, fuel);
      while |l.items| > 0
        invariant |l.items| <= |statements|
        invariant S.ExecLoop(Env(), State(), l.items, last, returnResult, fuel) == target
        decreases |l.items|
      {
        var result := Expression(l, fuel);
        if result.Fail? {
          return result;
        }
        if result.value.Some? && !returnResult {
          return Fail(UnwantedResult);
        }
        last := result.value;
      }
      r := Ok(last);
    }
  }
}
