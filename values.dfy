/** Conversions between values (aexpr, lexpr, sexpr, copy), structural
    equality, and the logic primitives not/and/or/xor (logo.py lines
    331-348, 591-639). */
module Values {
  import opened Atoms

  /** str() of a word; a number is written by the host's float formatting. */
  function WordText(a: Atom, numeral: real -> string): string
    requires !a.List?
  {
    match a
    case Word(w) => w
    case Num(x) => numeral(x)
  }

  /** aexpr(): the numeric value of a word that looks like a number. */
  function AExpr(v: Value): (r: Outcome<real>)
    ensures v.Some? && v.value.Num? ==> r == Ok(v.value.val)
    ensures r.Ok? ==> v.Some? && !v.value.List?
    ensures v.Some? && v.value.Word? ==>
      (r.Ok? <==> IsNumber(v.value.text) && ParseNumber(v.value.text).Some?)
    ensures v.Some? && v.value.Word? && r.Ok? ==> ParseNumber(v.value.text) == Some(r.value)
  {
    match v
    case None => Fail(ExpectingNumber)
    case Some(List(_, _)) => Fail(ExpectingNumber)
    case Some(Num(x)) => Ok(x)
    case Some(Word(w)) =>
      if !IsNumber(w) then Fail(ExpectingNumber)
      else match ParseNumber(w)
        case None => Fail(InvalidNumeral)
        case Some(x) => Ok(x)
  }

  /** lexpr(): a shallow copy of the list, holding the items the list
      holds now; a word is not implemented, None faults. */
  function LExpr(pops: Pops, v: Value): (r: Outcome<seq<Atom>>)
    ensures r.Ok? <==> v.Some? && v.value.List?
    ensures r.Ok? ==> r.value == Contents(pops, v.value)
    ensures v.Some? && v.value.Word? ==> r == Fail(NotImplemented)
  {
    match v
    case None => Fail(NoneAtom)
    case Some(List(_, _)) => Ok(Contents(pops, v.value))
    case Some(_) => Fail(NotImplemented)
  }

  /** sexpr(): the name of a word; the unary-minus token reads as "-".
      A list falls off the end of the Python function and yields None. */
  function SExpr(v: Value, numeral: real -> string): (r: Outcome<Option<string>>)
    ensures r.Fail? <==> v.None?
    ensures r == Ok(None) <==> v.Some? && v.value.List?
    ensures v == Some(Word(UnaryMinus)) ==> r == Ok(Some("-"))
    ensures forall w :: v == Some(Word(w)) && w != UnaryMinus ==> r == Ok(Some(w))
  {
    match v
    case None => Fail(NoneAtom)
    case Some(List(_, _)) => Ok(None)
    case Some(a) => if a == Word(UnaryMinus) then Ok(Some("-")) else Ok(Some(WordText(a, numeral)))
  }

  /** copy(): a list is copied shallowly into the new list object id,
      which holds the items the original holds now (the items themselves
      are shared); a word is itself; None faults. */
  function Copy(pops: Pops, v: Value, id: ListId): (r: Outcome<Atom>)
    ensures r.Ok? <==> v.Some?
    ensures r.Ok? && !v.value.List? ==> r.value == v.value
    ensures r.Ok? && v.value.List? ==> r.value.List? && r.value.id == id
    ensures r.Ok? && v.value.List? && id !in pops ==> Contents(pops, r.value) == Contents(pops, v.value)
  {
    match v
    case None => Fail(NoneAtom)
    case Some(List(_, _)) => Ok(List(id, Contents(pops, v.value)))
    case Some(a) => Ok(a)
  }

  /** A copy into an object that has lost nothing equals its original. */
  lemma CopyEqualsOriginal(pops: Pops, v: Value, id: ListId)
    requires v.Some? && id !in pops
    ensures Copy(pops, v, id).Ok? && Snapshot(pops, Copy(pops, v, id).value) == Snapshot(pops, v.value)
  {
    if v.value.List? {
      var a := v.value;
      var p := Popped(pops, a);
      DroppedIsSlice(a.items, p);
      assert SnapAll(pops, a.items[p..]) == SnapAll(pops, a.items)[p..];
    }
  }

  // ------------------------------------------------------------ equality

  /** What an atom looks like now: lists replaced by what they hold now,
      all the way down, with their identities forgotten. */
  function Snapshot(pops: Pops, a: Atom): (r: Atom)
    ensures !a.List? ==> r == a
    ensures a.List? ==> r.List? && |r.items| == |Contents(pops, a)|
    decreases a
  {
    match a
    case List(_, xs) => List(Literal(0), SnapAll(pops, xs)[Popped(pops, a)..])
    case _ => a
  }

  /** The snapshot of every item of xs, popped or not. */
  function SnapAll(pops: Pops, xs: seq<Atom>): (r: seq<Atom>)
    ensures |r| == |xs|
    ensures forall k {:trigger r[k]} :: 0 <= k < |xs| ==> r[k] == Snapshot(pops, xs[k])
    decreases xs
  {
    if xs == [] then [] else [Snapshot(pops, xs[0])] + SnapAll(pops, xs[1..])
  }

  /** The m-th item list a holds now. */
  function Item(pops: Pops, a: Atom, m: nat): (r: Atom)
    requires a.List? && m < |Contents(pops, a)|
    ensures r == Contents(pops, a)[m]
  {
    DroppedIsSlice(a.items, Popped(pops, a));
    a.items[Popped(pops, a) + m]
  }

  /** equal() on two atoms: different type tags are unequal; a number and a
      string word are unequal; two numbers compare by value; two strings
      by text; two lists by their present length and then element by
      element, stopping at the first unequal pair. */
  function AtomEqual(pops: Pops, a: Atom, b: Atom): (r: bool)
    ensures r ==> a.List? == b.List? && a.Num? == b.Num? && a.Word? == b.Word?
    decreases a, 1
  {
    match a
    case List(_, _) =>
      b.List? && |Contents(pops, a)| == |Contents(pops, b)| && ElementsEqual(pops, a, b, 0)
    case Num(x) => b.Num? && x == b.val
    case Word(v) => b.Word? && v == b.text
  }

  /** The loop over the elements the two lists hold now, from offset m on. */
  function ElementsEqual(pops: Pops, a: Atom, b: Atom, m: nat): bool
    requires a.List? && b.List? && |Contents(pops, a)| == |Contents(pops, b)|
    requires m <= |Contents(pops, a)|
    decreases a, 0, |Contents(pops, a)| - m
  {
    if m == |Contents(pops, a)| then true
    else if !AtomEqual(pops, a.items[Popped(pops, a) + m], Item(pops, b, m)) then false
    else ElementsEqual(pops, a, b, m + 1)
  }

  /** The element loop accepts exactly when every later pair is equal. */
  lemma {:induction false} ElementsEqualAll(pops: Pops, a: Atom, b: Atom, m: nat)
    requires a.List? && b.List? && |Contents(pops, a)| == |Contents(pops, b)|
    requires m <= |Contents(pops, a)|
    ensures ElementsEqual(pops, a, b, m) <==>
      forall k :: m <= k < |Contents(pops, a)| ==> AtomEqual(pops, Item(pops, a, k), Item(pops, b, k))
    decreases |Contents(pops, a)| - m
  {
    if m < |Contents(pops, a)| {
      ElementsEqualAll(pops, a, b, m + 1);
      assert ElementsEqual(pops, a, b, m) ==
        (AtomEqual(pops, Item(pops, a, m), Item(pops, b, m)) && ElementsEqual(pops, a, b, m + 1));
    }
  }

  /** Structural equality is exactly equality of what the atoms look like
      now: it is reflexive, symmetric, respects nesting, tells lists apart
      by order, and ignores which objects the lists are. */
  lemma {:induction false} AtomEqualIsEquality(pops: Pops, a: Atom, b: Atom)
    ensures AtomEqual(pops, a, b) <==> Snapshot(pops, a) == Snapshot(pops, b)
    decreases a, 1
  {
    if a.List? && b.List? && |Contents(pops, a)| == |Contents(pops, b)| {
      ListsEqual(pops, a, b);
    }
  }

  /** The list case: two lists of the same present length. */
  lemma {:induction false} ListsEqual(pops: Pops, a: Atom, b: Atom)
    requires a.List? && b.List? && |Contents(pops, a)| == |Contents(pops, b)|
    ensures AtomEqual(pops, a, b) <==> Snapshot(pops, a) == Snapshot(pops, b)
    decreases a, 0
  {
    ElementsEqualAll(pops, a, b, 0);
    forall k | 0 <= k < |Contents(pops, a)|
      ensures AtomEqual(pops, Item(pops, a, k), Item(pops, b, k)) <==>
              SnapItem(pops, a, k) == SnapItem(pops, b, k)
    {
      var x, y := a.items[Popped(pops, a) + k], Item(pops, b, k);
      assert x == Item(pops, a, k);
      AtomEqualIsEquality(pops, x, y);
      assert SnapItem(pops, a, k) == Snapshot(pops, x) && SnapItem(pops, b, k) == Snapshot(pops, y);
    }
    SnapshotsAgree(pops, a, b);
  }

  /** Snapshot of the m-th item a holds now. */
  function SnapItem(pops: Pops, a: Atom, m: nat): (r: Atom)
    requires a.List? && m < |Contents(pops, a)|
    ensures r == Snapshot(pops, a).items[m]
  {
    Snapshot(pops, Item(pops, a, m))
  }

  /** Two list snapshots agree exactly when their items do. */
  lemma SnapshotsAgree(pops: Pops, a: Atom, b: Atom)
    requires a.List? && b.List? && |Contents(pops, a)| == |Contents(pops, b)|
    ensures Snapshot(pops, a) == Snapshot(pops, b) <==>
      forall m :: 0 <= m < |Contents(pops, a)| ==> SnapItem(pops, a, m) == SnapItem(pops, b, m)
  {
    var sa, sb := Snapshot(pops, a), Snapshot(pops, b);
    if forall m :: 0 <= m < |Contents(pops, a)| ==> SnapItem(pops, a, m) == SnapItem(pops, b, m) {
      forall m | 0 <= m < |sa.items|
        ensures sa.items[m] == sb.items[m]
      {
        assert SnapItem(pops, a, m) == SnapItem(pops, b, m);
      }
    }
  }

  /** equal(): both operands must be atoms (Type() faults on None). */
  function Equal(pops: Pops, a: Value, b: Value): (r: Outcome<bool>)
    ensures r.Fail? <==> a.None? || b.None?
    ensures r.Ok? ==> (r.value <==> Snapshot(pops, a.value) == Snapshot(pops, b.value))
    ensures r.Ok? && (a.value.List? != b.value.List?) ==> !r.value
  {
    if a.None? || b.None? then Fail(NoneAtom)
    else
      AtomEqualIsEquality(pops, a.value, b.value);
      Ok(AtomEqual(pops, a.value, b.value))
  }

  /** equal() as the source writes it: the list branch reads a.length,
      an attribute Python lists do not have, so it raises for any two lists. */
  function EqualAsWritten(a: Value, b: Value): (r: Outcome<bool>)
    ensures a.Some? && b.Some? && a.value.List? && b.value.List? ==> r == Fail(NoLengthAttribute)
  {
    if a.None? || b.None? then Fail(NoneAtom)
    else if a.value.List? && b.value.List? then Fail(NoLengthAttribute)
    else if a.value.List? || b.value.List? then Ok(false)
    else if a.value.Num? || b.value.Num? then Ok(a.value == b.value)
    else Ok(a.value.text == b.value.text)
  }

  /** The discrepancy: equal([1 [2 3]], [1 [2 3]]) raises as written,
      where the evident intent (and Equal) answers true. */
  lemma EqualAsWrittenRaisesOnLists(pops: Pops)
    ensures var l := Some(List(Literal(0), [Num(1.0), List(Literal(1), [Num(2.0), Num(3.0)])]));
      EqualAsWritten(l, l) == Fail(NoLengthAttribute) && Equal(pops, l, l) == Ok(true)
  {
  }

  /** Outside the list branch the corrected function agrees with the
      source as written. */
  lemma EqualAgreesOffLists(pops: Pops, a: Value, b: Value)
    requires !(a.Some? && b.Some? && a.value.List? && b.value.List?)
    ensures Equal(pops, a, b) == EqualAsWritten(a, b)
  {
  }

  // --------------------------------------------------------------- logic

  function Bool(b: bool): Atom { Num(if b then 1.0 else 0.0) }

  /** not(): 1 if the numeric value of the argument is zero, else 0. */
  function Not(v: Value): (r: Outcome<Atom>)
    ensures r.Ok? <==> AExpr(v).Ok?
    ensures r.Ok? ==> r.value == Bool(AExpr(v).value == 0.0)
  {
    match AExpr(v)
    case Fail(f) => Fail(f)
    case Ok(x) => Ok(if x == 0.0 then Num(1.0) else Num(0.0))
  }

  /** and(): all() of the arguments, already evaluated. */
  function And(pops: Pops, args: seq<Value>): (r: Atom)
    ensures r == Bool(forall i :: 0 <= i < |args| ==> Truthy(pops, args[i]))
  {
    if forall i :: 0 <= i < |args| ==> Truthy(pops, args[i]) then Num(1.0) else Num(0.0)
  }

  /** or(): any() of the arguments, already evaluated. */
  function Or(pops: Pops, args: seq<Value>): (r: Atom)
    ensures r == Bool(exists i :: 0 <= i < |args| && Truthy(pops, args[i]))
  {
    if exists i :: 0 <= i < |args| && Truthy(pops, args[i]) then Num(1.0) else Num(0.0)
  }

  /** The body of xor()'s loop: x = x != bool(y) for each later argument. */
  function XorFrom(pops: Pops, x: bool, ys: seq<Value>): bool
    decreases ys
  {
    if ys == [] then x else XorFrom(pops, x != Truthy(pops, ys[0]), ys[1..])
  }

  /** xor(): 0 for no arguments, else the loop's final truth value, which
      is 1 exactly when an odd number of arguments is truthy. */
  function Xor(pops: Pops, args: seq<Value>): (r: Atom)
    ensures r == Bool(CountTruthy(pops, args) % 2 == 1)
  {
    if |args| > 0 then
      var t, tail := Truthy(pops, args[0]), args[1..];
      XorFromParity(pops, t, tail);
      OneMoreFlip(t, CountTruthy(pops, tail));
      Bool(XorFrom(pops, t, tail))
    else Num(0.0)
  }

  /** The number of truthy arguments. */
  function CountTruthy(pops: Pops, args: seq<Value>): nat {
    if args == [] then 0 else (if Truthy(pops, args[0]) then 1 else 0) + CountTruthy(pops, args[1..])
  }

  lemma {:induction false} XorFromParity(pops: Pops, x: bool, ys: seq<Value>)
    ensures XorFrom(pops, x, ys) == (x != (CountTruthy(pops, ys) % 2 == 1))
    decreases ys
  {
    if ys != [] {
      XorFromParity(pops, x != Truthy(pops, ys[0]), ys[1..]);
    }
  }

  /** Adding one for a truthy argument flips the parity. */
  lemma OneMoreFlip(t: bool, c: nat)
    ensures ((if t then 1 else 0) + c) % 2 == 1 <==> (t != (c % 2 == 1))
  {
  }
}
