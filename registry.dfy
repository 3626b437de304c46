/** The routine registry logo.py builds in __init__ (lines 67-78) through
    define() (lines 83-89) and the define_* groups (lines 97-98, 191-217,
    259-264, 317-323, 350-356), as maps from folded names to routines. */
module Registry {
  import opened Atoms
  import S = Semantics

  /** props of a define() call that passes none. */
  const NoProps: S.Props := S.Props(0, None, None, false, false)

  /** The registry entry define() stores: the method, and the props with
      args set to the natural argument count. */
  function Entry(code: S.Code, nargs: nat, props: S.Props): (r: S.Routine)
  {
    S.Routine(code, props.(args := nargs))
  }

  /** The registry after define() has set each of names, in order, to r
      in a case-folding StringMap. */
  function Defined(m: map<string, S.Routine>, names: seq<string>, r: S.Routine): map<string, S.Routine>
    decreases |names|
  {
    if names == [] then m else Defined(m[Lower(names[0]) := r], names[1..], r)
  }

  /** The registry keys of names: each name folded. */
  function Folded(names: seq<string>): (ks: set<string>)
    ensures forall n :: n in names ==> Lower(n) in ks
    decreases |names|
  {
    if names == [] then {} else {Lower(names[0])} + Folded(names[1..])
  }

  /** Every key of Folded(names) is the folding of one of names. */
  lemma {:induction false} FoldedOnly(names: seq<string>, k: string)
    requires k in Folded(names)
    ensures exists n :: n in names && Lower(n) == k
    decreases |names|
  {
    if k != Lower(names[0]) {
      FoldedOnly(names[1..], k);
      var n :| n in names[1..] && Lower(n) == k;
      assert n in names;
    }
  }

  /** Every spelling of every name finds r afterwards, and every other key
      keeps its entry. */
  lemma {:induction false} DefinedBinds(m: map<string, S.Routine>, names: seq<string>, r: S.Routine)
    ensures Defined(m, names, r).Keys == m.Keys + Folded(names)
    ensures forall k :: k in Defined(m, names, r) ==>
      Defined(m, names, r)[k] == if k in Folded(names) then r else m[k]
    decreases |names|
  {
    if names != [] {
      DefinedBinds(m[Lower(names[0]) := r], names[1..], r);
    }
  }

  /** One define() call of a define_* method: the names, the method, the
      natural argument count and the props it passes. */
  datatype Def = Def(names: seq<string>, code: S.Code, nargs: nat, props: S.Props)

  /** The registry after the define() calls of t, made in order. */
  function DefineEach(m: map<string, S.Routine>, t: seq<Def>): map<string, S.Routine>
    decreases |t|
  {
    if t == [] then m
    else
      var d := t[|t| - 1];
      Defined(DefineEach(m, t[..|t| - 1]), d.names, Entry(d.code, d.nargs, d.props))
  }

  /** The keys a sequence of define() calls registers: each call's names,
      folded. */
  function TableKeys(t: seq<Def>): set<string>
    decreases |t|
  {
    if t == [] then {} else TableKeys(t[..|t| - 1]) + Folded(t[|t| - 1].names)
  }

  /** define_motion(), lines 192-217: the moves, placing the turtle, the
      position and heading queries, the screen and pen, the pen and button
      predicates; every one a call into the backend, none with props.
      setxy is registered with one natural argument for a method of two. */
  const MotionTable: seq<Def> := [
    Def(["forward", "fd"], S.Backend("forward", 1), 1, NoProps),
    Def(["back", "bk"], S.Backend("back", 1), 1, NoProps),
    Def(["left", "lt"], S.Backend("left", 1), 1, NoProps),
    Def(["right", "rt"], S.Backend("right", 1), 1, NoProps),
    Def(["setpos"], S.Backend("setpos", 1), 1, NoProps),
    Def(["setxy"], S.Backend("setxy", 2), 1, NoProps),
    Def(["setx"], S.Backend("setx", 1), 1, NoProps),
    Def(["sety"], S.Backend("sety", 1), 1, NoProps),
    Def(["setheading", "seth"], S.Backend("setheading", 1), 1, NoProps),
    Def(["home"], S.Backend("home", 0), 0, NoProps),
    Def(["arc"], S.Backend("arc", 2), 2, NoProps),
    Def(["pos"], S.Backend("pos", 0), 0, NoProps),
    Def(["xcor"], S.Backend("xcor", 0), 0, NoProps),
    Def(["ycor"], S.Backend("ycor", 0), 0, NoProps),
    Def(["heading"], S.Backend("heading", 0), 0, NoProps),
    Def(["towards"], S.Backend("towards", 1), 1, NoProps),
    Def(["clearscreen", "cs"], S.Backend("clearscreen", 0), 0, NoProps),
    Def(["pendown", "pd"], S.Backend("pendown", 0), 0, NoProps),
    Def(["penup", "pu"], S.Backend("penup", 0), 0, NoProps),
    Def(["pendownp", "pendown?"], S.Backend("pendownp", 0), 0, NoProps),
    Def(["buttonp", "button?"], S.Backend("buttonp", 0), 0, NoProps),
    Def(["button"], S.Backend("buttonp", 0), 0, NoProps)
  ]

  /** define_control(), lines 261-264: repeat, forever, repcount and if. */
  const ControlTable: seq<Def> := [
    Def(["repeat"], S.Repeat, 2, NoProps),
    Def(["forever"], S.Forever, 1, NoProps),
    Def(["repcount", "#"], S.Repcount, 0, NoProps),
    Def(["if"], S.If, 2, NoProps.(maximum := Some(3)))
  ]

  /** define_misc(), lines 318-323: make and the remaining backend routines. */
  const MiscTable: seq<Def> := [
    Def(["make"], S.Make, 2, NoProps),
    Def(["wait"], S.Backend("wait", 1), 1, NoProps),
    Def(["beep"], S.Backend("beep", 0), 0, NoProps),
    Def(["setpencolor", "setpc", "setcolor"], S.Backend("setpencolor", 1), 1, NoProps),
    Def(["hideturtle", "ht"], S.HideTurtle, 0, NoProps),
    Def(["showturtle", "st"], S.ShowTurtle, 0, NoProps)
  ]

  /** define_fun(), lines 351-356: the logic routines. */
  const FunTable: seq<Def> := [
    Def(["not"], S.Not, 1, NoProps),
    Def(["true"], S.True, 0, NoProps),
    Def(["false"], S.False, 0, NoProps),
    Def(["and"], S.And, 2, NoProps.(noeval := true, minimum := Some(0), maximum := Some(-1))),
    Def(["or"], S.Or, 2, NoProps.(noeval := true, minimum := Some(0), maximum := Some(-1))),
    Def(["xor"], S.Xor, 2, NoProps.(minimum := Some(0), maximum := Some(-1)))
  ]

  /** define_xmit(), line 98: show. */
  const XmitTable: seq<Def> := [
    Def(["show"], S.Show, 1, NoProps.(minimum := Some(0), maximum := Some(-1)))
  ]

  function Motion(m: map<string, S.Routine>): map<string, S.Routine>
  {
    DefineEach(m, MotionTable)
  }

  function Control(m: map<string, S.Routine>): map<string, S.Routine>
  {
    DefineEach(m, ControlTable)
  }

  function Misc(m: map<string, S.Routine>): map<string, S.Routine>
  {
    DefineEach(m, MiscTable)
  }

  function Fun(m: map<string, S.Routine>): map<string, S.Routine>
  {
    DefineEach(m, FunTable)
  }

  function Xmit(m: map<string, S.Routine>): map<string, S.Routine>
  {
    DefineEach(m, XmitTable)
  }


  /** The registry __init__ builds, group by group. */
  function InitialRoutines(): map<string, S.Routine> {
    Xmit(Fun(Misc(Control(Motion(map[])))))
  }

  /** A sequence of define calls adds exactly the folded names of each
      call and keeps every name already there. */
  lemma {:induction false} DefineEachKeys(m: map<string, S.Routine>, t: seq<Def>)
    ensures DefineEach(m, t).Keys == m.Keys + TableKeys(t)
    decreases |t|
  {
    if t != [] {
      var d := t[|t| - 1];
      DefineEachKeys(m, t[..|t| - 1]);
      DefinedBinds(DefineEach(m, t[..|t| - 1]), d.names, Entry(d.code, d.nargs, d.props));
    }
  }

  /** Each define_* group adds exactly the folded names of its define
      calls and keeps every name already registered. */
  lemma GroupKeys(m: map<string, S.Routine>)
    ensures Motion(m).Keys == m.Keys + TableKeys(MotionTable)
    ensures Control(m).Keys == m.Keys + TableKeys(ControlTable)
    ensures Misc(m).Keys == m.Keys + TableKeys(MiscTable)
    ensures Fun(m).Keys == m.Keys + TableKeys(FunTable)
    ensures Xmit(m).Keys == m.Keys + TableKeys(XmitTable)
  {
    DefineEachKeys(m, MotionTable);
    DefineEachKeys(m, ControlTable);
    DefineEachKeys(m, MiscTable);
    DefineEachKeys(m, FunTable);
    DefineEachKeys(m, XmitTable);
  }

  /** After __init__ the registry holds exactly the names of the five
      groups. */
  lemma InitialKeys()
    ensures InitialRoutines().Keys == TableKeys(MotionTable) + TableKeys(ControlTable) +
      TableKeys(MiscTable) + TableKeys(FunTable) + TableKeys(XmitTable)
  {
    GroupsKeys(map[]);
  }

  /** The five groups, applied in order to any table, add exactly their
      names. */
  lemma GroupsKeys(m: map<string, S.Routine>)
    ensures Xmit(Fun(Misc(Control(Motion(m))))).Keys == m.Keys + TableKeys(MotionTable) +
      TableKeys(ControlTable) + TableKeys(MiscTable) + TableKeys(FunTable) + TableKeys(XmitTable)
  {
    var m1 := Motion(m);
    var m2 := Control(m1);
    var m3 := Misc(m2);
    var m4 := Fun(m3);
    GroupKeys(m);
    GroupKeys(m1);
    GroupKeys(m2);
    GroupKeys(m3);
    GroupKeys(m4);
  }

  // ------------------------------------------------- facts about the registry

  /** What a group leaves at key k: k stays registered if it was, and its
      entry is one without a minimum or the entry k already had. */
  predicate Inherits(g: map<string, S.Routine>, m: map<string, S.Routine>, k: string) {
    (k in m ==> k in g) &&
    (k in g ==> g[k].props.minimum.None? || (k in m && g[k] == m[k]))
  }

  /** Inheriting is transitive. */
  lemma InheritsTrans(h: map<string, S.Routine>, g: map<string, S.Routine>, m: map<string, S.Routine>, k: string)
    requires Inherits(h, g, k) && Inherits(g, m, k)
    ensures Inherits(h, m, k)
  {
  }

  /** A define() whose entry has no minimum leaves, at every key, an
      entry without a minimum or the entry that was there. */
  lemma DefinedInherits(m: map<string, S.Routine>, names: seq<string>, r: S.Routine, k: string)
    requires r.props.minimum.None?
    ensures Inherits(Defined(m, names, r), m, k)
  {
    DefinedBinds(m, names, r);
  }

  /** A table that passes no minimum. */
  predicate NoMinimum(t: seq<Def>) {
    forall i :: 0 <= i < |t| ==> t[i].props.minimum.None?
  }

  /** define() calls that pass no minimum leave, at every key, an entry
      without a minimum or the entry that was there. */
  lemma {:induction false} DefineEachInherits(m: map<string, S.Routine>, t: seq<Def>, k: string)
    requires NoMinimum(t)
    ensures Inherits(DefineEach(m, t), m, k)
    decreases |t|
  {
    if t != [] {
      var p, d := t[..|t| - 1], t[|t| - 1];
      DefineEachInherits(m, p, k);
      DefinedInherits(DefineEach(m, p), d.names, Entry(d.code, d.nargs, d.props), k);
      InheritsTrans(DefineEach(m, t), DefineEach(m, p), m, k);
    }
  }

  /** Every name of such a table ends up registered without a minimum. */
  lemma {:induction false} DefineEachCovers(m: map<string, S.Routine>, t: seq<Def>, i: nat, k: string)
    requires NoMinimum(t) && i < |t| && k in Folded(t[i].names)
    ensures k in DefineEach(m, t) && DefineEach(m, t)[k].props.minimum.None?
    decreases |t|
  {
    var p, d := t[..|t| - 1], t[|t| - 1];
    DefinedBinds(DefineEach(m, p), d.names, Entry(d.code, d.nargs, d.props));
    if i < |t| - 1 {
      DefineEachCovers(m, p, i, k);
      DefinedInherits(DefineEach(m, p), d.names, Entry(d.code, d.nargs, d.props), k);
    }
  }

  /** define() calls none of whose names folds to k leave k as it was. */
  lemma {:induction false} DefineEachKeeps(m: map<string, S.Routine>, t: seq<Def>, k: string)
    requires forall i :: 0 <= i < |t| ==> k !in Folded(t[i].names)
    ensures k in DefineEach(m, t) <==> k in m
    ensures k in m ==> DefineEach(m, t)[k] == m[k]
    decreases |t|
  {
    if t != [] {
      var p, d := t[..|t| - 1], t[|t| - 1];
      DefineEachKeeps(m, p, k);
      DefinedBinds(DefineEach(m, p), d.names, Entry(d.code, d.nargs, d.props));
    }
  }

  /** The last define() call naming k decides k's entry. */
  lemma {:induction false} DefineEachLast(m: map<string, S.Routine>, t: seq<Def>, j: nat, k: string)
    requires j < |t| && k in Folded(t[j].names)
    requires forall i :: j < i < |t| ==> k !in Folded(t[i].names)
    ensures k in DefineEach(m, t) && DefineEach(m, t)[k] == Entry(t[j].code, t[j].nargs, t[j].props)
    decreases |t|
  {
    var p, d := t[..|t| - 1], t[|t| - 1];
    DefinedBinds(DefineEach(m, p), d.names, Entry(d.code, d.nargs, d.props));
    if j < |t| - 1 {
      DefineEachLast(m, p, j, k);
    }
  }

  /** Folding keeps the length of a name. */
  lemma FoldedLength(names: seq<string>, k: string)
    requires k in Folded(names)
    ensures exists n :: n in names && |n| == |k|
  {
    FoldedOnly(names, k);
  }

  /** define_motion(), define_control() and define_misc() pass no minimum:
      after them every name keeps an entry without one, or the entry it had. */
  lemma GroupsUnbounded(m: map<string, S.Routine>, k: string)
    ensures Inherits(Motion(m), m, k) && Inherits(Control(m), m, k) && Inherits(Misc(m), m, k)
  {
    assert NoMinimum(MotionTable);
    assert NoMinimum(ControlTable);
    assert NoMinimum(MiscTable);
    DefineEachInherits(m, MotionTable, k);
    DefineEachInherits(m, ControlTable, k);
    DefineEachInherits(m, MiscTable, k);
  }

  /** define_fun() names only words of at most five letters, so every
      longer key keeps its entry. */
  lemma FunShortNames(m: map<string, S.Routine>, k: string)
    requires |k| > 5
    ensures k in Fun(m) <==> k in m
    ensures k in m ==> Fun(m)[k] == m[k]
  {
    forall i | 0 <= i < |FunTable|
      ensures k !in Folded(FunTable[i].names)
    {
      if k in Folded(FunTable[i].names) {
        FoldedLength(FunTable[i].names, k);
      }
    }
    DefineEachKeeps(m, FunTable, k);
  }

  /** define_xmit() names only show: every other key keeps its entry. */
  lemma XmitOthers(m: map<string, S.Routine>, k: string)
    requires k != Lower("show")
    ensures k in Xmit(m) <==> k in m
    ensures k in m ==> Xmit(m)[k] == m[k]
  {
    assert Folded(XmitTable[0].names) == {Lower("show")};
    DefineEachKeeps(m, XmitTable, k);
  }

  /** Whatever the registry held before, the groups of __init__ leave
      forward registered without a minimum. */
  lemma ForwardFrom(m: map<string, S.Routine>)
    ensures var r := Xmit(Fun(Misc(Control(Motion(m)))));
      Lower("forward") in r && r[Lower("forward")].props.minimum.None?
  {
    var k := Lower("forward");
    assert NoMinimum(MotionTable);
    assert k in Folded(MotionTable[0].names);
    DefineEachCovers(m, MotionTable, 0, k);
    var m1 := Motion(m);
    var m2 := Control(m1);
    var m3 := Misc(m2);
    GroupsUnbounded(m1, k);
    GroupsUnbounded(m2, k);
    FunShortNames(m3, k);
    XmitOthers(Fun(m3), k);
  }

  /** forward is registered, without a minimum: a parenthesised
      (forward ...) reads a property that is not there. */
  lemma ForwardUnbounded()
    ensures Lower("forward") in InitialRoutines()
    ensures InitialRoutines()[Lower("forward")].props.minimum.None?
  {
    ForwardFrom(map[]);
  }

  /** and and or take their arguments unevaluated, xor evaluated, and all
      three accept any number of them in parentheses. */
  lemma LogicEntries(m: map<string, S.Routine>)
    ensures var f := Fun(m);
      Lower("and") in f && f[Lower("and")] == S.Routine(S.And, S.Props(2, Some(0), Some(-1), true, false)) &&
      Lower("or") in f && f[Lower("or")] == S.Routine(S.Or, S.Props(2, Some(0), Some(-1), true, false)) &&
      Lower("xor") in f && f[Lower("xor")] == S.Routine(S.Xor, S.Props(2, Some(0), Some(-1), false, false))
  {
    var a, o, x := Lower("and"), Lower("or"), Lower("xor");
    assert a[0] == 'a' && o[0] == 'o' && x[0] == 'x';
    assert Folded(FunTable[3].names) == {a};
    assert Folded(FunTable[4].names) == {o};
    assert Folded(FunTable[5].names) == {x};
    DefineEachLast(m, FunTable, 3, a);
    DefineEachLast(m, FunTable, 4, o);
    DefineEachLast(m, FunTable, 5, x);
  }

  /** show accepts any number of arguments in parentheses. */
  lemma ShowEntry()
    ensures var r := InitialRoutines();
      Lower("show") in r && r[Lower("show")] == S.Routine(S.Show, S.Props(1, Some(0), Some(-1), false, false))
  {
    var k := Lower("show");
    assert k in Folded(XmitTable[0].names);
    DefineEachLast(Fun(Misc(Control(Motion(map[])))), XmitTable, 0, k);
  }

  /** In the registry __init__ builds, and and or are variadic and
      unevaluated, xor variadic and evaluated. */
  lemma LogicInitial()
    ensures var r := InitialRoutines();
      Lower("and") in r && r[Lower("and")].props.noeval && r[Lower("and")].props.minimum == Some(0) &&
      Lower("or") in r && r[Lower("or")].props.noeval && r[Lower("or")].props.minimum == Some(0) &&
      Lower("xor") in r && !r[Lower("xor")].props.noeval && r[Lower("xor")].props.minimum == Some(0)
  {
    var m := Misc(Control(Motion(map[])));
    LogicEntries(m);
    assert |Lower("show")| == 4 && |Lower("and")| == 3 && |Lower("or")| == 2;
    assert Lower("show")[0] == 's' && Lower("xor")[0] == 'x';
    XmitOthers(Fun(m), Lower("and"));
    XmitOthers(Fun(m), Lower("or"));
    XmitOthers(Fun(m), Lower("xor"));
  }
}
