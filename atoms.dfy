/** Run-time values of the interpreter, its fault conditions, case folding
    and the recognition and conversion of numerals (logo.py lines 34-62,
    374-384, 406-418, 545-546). */
module Atoms {

  datatype Option<+T> = None | Some(value: T)

  /** Which Python list object a list atom is: one the reader built for
      the program text (numbered by the reader), or the n-th list made by
      setvar's copy(). Two list atoms with the same identity are the same
      object and share what has been popped from it. */
  datatype ListId = Literal(n: nat) | Copied(n: nat)

  /** A Logo atom: a word (a string, or a number once it has been
      converted) or a list object, with the items it was made with. */
  datatype Atom = Word(text: string) | Num(val: real) | List(id: ListId, items: seq<Atom>)

  /** The part of the heap evaluation changes: how many items have been
      popped from the front of each list object (absent means none). */
  type Pops = map<ListId, nat>

  /** How many items list a has lost, at most all of them. */
  function Popped(pops: Pops, a: Atom): (k: nat)
    requires a.List?
    ensures k <= |a.items|
  {
    if a.id !in pops then 0
    else if pops[a.id] < |a.items| then pops[a.id]
    else |a.items|
  }

  /** The items list a holds now: those not yet popped. */
  function Contents(pops: Pops, a: Atom): (r: seq<Atom>)
    requires a.List?
    ensures |r| == |a.items| - Popped(pops, a)
    ensures a.id !in pops ==> r == a.items
  {
    Dropped(a.items, Popped(pops, a))
  }

  /** s after k pops from its front. */
  function Dropped(s: seq<Atom>, k: nat): (r: seq<Atom>)
    requires k <= |s|
    ensures |r| == |s| - k
    decreases k
  {
    if k == 0 then s else Dropped(s[1..], k - 1)
  }

  /** Popping k items leaves the slice from k on. */
  lemma {:induction false} DroppedIsSlice(s: seq<Atom>, k: nat)
    requires k <= |s|
    ensures Dropped(s, k) == s[k..]
    decreases k
  {
    if k > 0 {
      DroppedIsSlice(s[1..], k - 1);
      assert s[1..][k - 1..] == s[k..];
    }
  }

  /** What an expression yields: an atom, or Python's None ("no value"). */
  type Value = Option<Atom>

  /** The ways evaluation stops with an exception. */
  datatype Fault =
    | NoneAtom              // an atom was None where a word or list was needed
    | UnexpectedEnd         // the token list ran out before an expression
    | UnexpectedClose       // a bare ")" where an expression starts
    | ExpectingCloseAtEnd   // "(" expression, then the token list ended
    | ExpectingClose        // "(" expression, then something other than ")"
    | Undefined(name: string)
    | NotImplemented        // special routines, word lexpr, arrays
    | MissingProperty       // props['minimum'] or props['maximum'] absent
    | PopFromEmpty          // the closing ")" of a call is missing
    | TooFewArguments
    | TooManyArguments
    | ArgumentCount         // the Python method takes another number of arguments
    | ExpectingNumber
    | InvalidNumeral        // float() refuses a word that isNumber accepted
    | DivisionByZero
    | UnboundVariable(name: string)
    | UnwantedResult        // execute got a value where none was wanted
    | EmptyWord             // atom[0] of the empty word
    | NotAString            // upper()/lower() on something that is not a string
    | NotIterable           // list() of a number or of None
    | NoLengthAttribute     // a.length on a Python list
    | MissingKey            // del of an absent key (KeyError)
    | HostFault             // raised by the turtle backend or math.pow
    | OutOfFuel             // the model's bound on nesting and on forever

  datatype Outcome<+T> = Ok(value: T) | Fail(fault: Fault)

  /** The two type tags of Type(). */
  datatype Kind = WordKind | ListKind

  /** Type(): words and numbers are 'word', lists are 'list', None faults. */
  function Type(v: Value): (r: Outcome<Kind>)
    ensures r.Fail? <==> v.None?
    ensures r == Ok(ListKind) <==> v.Some? && v.value.List?
  {
    match v
    case None => Fail(NoneAtom)
    case Some(List(_, _)) => Ok(ListKind)
    case Some(_) => Ok(WordKind)
  }

  // ---------------------------------------------------------------- case

  function LowerChar(c: char): char {
    if 'A' <= c <= 'Z' then (c as int + 32) as char else c
  }

  function UpperChar(c: char): char {
    if 'a' <= c <= 'z' then (c as int - 32) as char else c
  }

  /** str.lower(), on the ASCII letters: each character is folded on
      its own. */
  function Lower(s: string): (r: string)
    ensures |r| == |s|
  {
    seq(|s|, i requires 0 <= i < |s| => LowerChar(s[i]))
  }

  /** str.upper(), on the ASCII letters. */
  function Upper(s: string): (r: string)
    ensures |r| == |s|
  {
    seq(|s|, i requires 0 <= i < |s| => UpperChar(s[i]))
  }

  /** Folding is idempotent: a folded key is its own key. */
  lemma LowerIdempotent(s: string)
    ensures Lower(Lower(s)) == Lower(s)
  {
    forall i | 0 <= i < |s|
      ensures Lower(Lower(s))[i] == Lower(s)[i]
    {
      assert LowerChar(LowerChar(s[i])) == LowerChar(s[i]);
    }
  }

  /** dispatch upper-cases a name before the registry lower-cases it:
      the key is the same as folding the name directly. */
  lemma LowerOfUpper(s: string)
    ensures Lower(Upper(s)) == Lower(s)
  {
    forall i | 0 <= i < |s|
      ensures Lower(Upper(s))[i] == Lower(s)[i]
    {
      assert LowerChar(UpperChar(s[i])) == LowerChar(s[i]);
    }
  }

  // ------------------------------------------------------------- numbers

  predicate IsDigit(c: char) { '0' <= c <= '9' }

  /** isNumber(): re.match of -?([0-9]*\.?[0-9]+([eE][\-+]?[0-9]+)?), which
      anchors only at the start, so the word needs only a numeric prefix. */
  predicate IsNumber(w: string)
    ensures IsNumber(w) ==> |w| > 0 && (IsDigit(w[0]) || w[0] == '-' || w[0] == '.')
  {
    var t := if |w| > 0 && w[0] == '-' then w[1..] else w;
    (|t| > 0 && IsDigit(t[0])) || (|t| > 1 && t[0] == '.' && IsDigit(t[1]))
  }

  /** Because the match is a prefix match, anything may follow a numeral. */
  lemma IsNumberPrefixClosed(w: string, tail: string)
    requires IsNumber(w)
    ensures IsNumber(w + tail)
  {
    var wt := w + tail;
    if |w| > 0 && w[0] == '-' {
      assert wt[1..] == w[1..] + tail;
    }
  }

  predicate AllDigits(s: string) {
    forall i :: 0 <= i < |s| ==> IsDigit(s[i])
  }

  /** The value of a string of decimal digits. */
  function DigitsValue(s: string): nat
    requires AllDigits(s)
  {
    if s == [] then 0
    else DigitsValue(s[..|s| - 1]) * 10 + (s[|s| - 1] as int - '0' as int)
  }

  function Pow10(n: nat): (r: real)
    ensures r >= 1.0
  {
    if n == 0 then 1.0 else 10.0 * Pow10(n - 1)
  }

  /** The index of the first character of s in cs, or |s| if there is none. */
  function IndexOf(s: string, cs: set<char>): (i: nat)
    ensures i <= |s|
    ensures i < |s| ==> s[i] in cs
    ensures forall j :: 0 <= j < i ==> s[j] !in cs
  {
    if s == [] then 0
    else if s[0] in cs then 0
    else 1 + IndexOf(s[1..], cs)
  }

  /** digits[.digits]: at least one digit in all. */
  function ParseMantissa(m: string): Option<real> {
    var dot := IndexOf(m, {'.'});
    var whole := m[..dot];
    var frac := if dot < |m| then m[dot + 1..] else "";
    if AllDigits(whole) && AllDigits(frac) && |whole| + |frac| > 0 then
      Some(DigitsValue(whole) as real + DigitsValue(frac) as real / Pow10(|frac|))
    else None
  }

  /** [+-]digits after the exponent marker. */
  function ParseExponent(x: string): Option<int> {
    var sign := if |x| > 0 && (x[0] == '+' || x[0] == '-') then 1 else 0;
    var digits := x[sign..];
    if |digits| > 0 && AllDigits(digits) then
      Some(if sign == 1 && x[0] == '-' then -(DigitsValue(digits) as int) else DigitsValue(digits))
    else None
  }

  function ParseUnsigned(w: string): Option<real> {
    var e := IndexOf(w, {'e', 'E'});
    match ParseMantissa(w[..e])
    case None => None
    case Some(m) =>
      if e == |w| then Some(m)
      else match ParseExponent(w[e + 1..])
        case None => None
        case Some(k) =>
          Some(if k >= 0 then m * Pow10(k) else m / Pow10(-k))
  }

  /** float() of a word: a decimal numeral with an optional minus sign
      and an optional exponent; anything else is a ValueError. */
  function ParseNumber(w: string): (r: Option<real>)
    ensures |w| > 1 && w[0] == '-' && w[1] != '-' ==>
      r == match ParseNumber(w[1..]) case Some(x) => Some(-x) case None => None
  {
    if |w| > 0 && w[0] == '-' then
      match ParseUnsigned(w[1..])
      case None => None
      case Some(x) => Some(-x)
    else ParseUnsigned(w)
  }

  /** The decimal text of a natural number, as str() writes it. */
  function NatText(n: nat): (s: string)
    ensures |s| > 0 && AllDigits(s)
  {
    if n < 10 then [('0' as int + n) as char]
    else NatText(n / 10) + [('0' as int + n % 10) as char]
  }

  lemma {:induction false} DigitsValueOfNatText(n: nat)
    ensures DigitsValue(NatText(n)) == n
  {
    var s := NatText(n);
    if n >= 10 {
      DigitsValueOfNatText(n / 10);
      assert s[..|s| - 1] == NatText(n / 10);
    }
  }

  lemma {:induction false} IndexOfAbsent(s: string, cs: set<char>)
    requires forall j :: 0 <= j < |s| ==> s[j] !in cs
    ensures IndexOf(s, cs) == |s|
  {
    if s != [] {
      IndexOfAbsent(s[1..], cs);
    }
  }

  /** Every word float() accepts is one isNumber() accepts. */
  lemma ParsedIsNumber(w: string)
    requires ParseNumber(w).Some?
    ensures IsNumber(w)
  {
    var t := if |w| > 0 && w[0] == '-' then w[1..] else w;
    assert ParseUnsigned(t).Some?;
    var e := IndexOf(t, {'e', 'E'});
    var m := t[..e];
    var dot := IndexOf(m, {'.'});
    assert ParseMantissa(m).Some?;
    if dot > 0 {
      assert IsDigit(m[..dot][0]);
    } else {
      assert |m[dot + 1..]| > 0;
      assert IsDigit(m[dot + 1..][0]);
    }
  }

  /** An empty fraction adds nothing to the whole part. */
  lemma EmptyFraction(x: real)
    ensures x + DigitsValue("") as real / Pow10(|""|) == x
  {
    assert DigitsValue("") == 0 && Pow10(0) == 1.0;
  }

  /** A string of digits without a point is a mantissa of that value. */
  lemma MantissaDigits(s: string)
    requires |s| > 0 && AllDigits(s)
    ensures ParseMantissa(s) == Some(DigitsValue(s) as real)
  {
    assert IndexOf(s, {'.'}) == |s| by {
      assert forall j :: 0 <= j < |s| ==> s[j] !in {'.'};
      IndexOfAbsent(s, {'.'});
    }
    assert s[..|s|] == s;
    EmptyFraction(DigitsValue(s) as real);
  }

  /** A plain string of digits reads back as its value. */
  lemma UnsignedDigits(s: string)
    requires |s| > 0 && AllDigits(s)
    ensures ParseUnsigned(s) == Some(DigitsValue(s) as real)
  {
    assert forall j :: 0 <= j < |s| ==> s[j] !in {'e', 'E'};
    IndexOfAbsent(s, {'e', 'E'});
    assert s[..|s|] == s;
    MantissaDigits(s);
  }

  /** Integer literals read back as their value: float(str(n)) == n. */
  lemma NatTextRoundTrip(n: nat)
    ensures ParseNumber(NatText(n)) == Some(n as real)
    ensures ParseNumber("-" + NatText(n)) == Some(-(n as real))
  {
    var s := NatText(n);
    DigitsValueOfNatText(n);
    UnsignedDigits(s);
    assert ("-" + s)[1..] == s;
  }

  /** Python's truthiness: None, 0, the empty word and a list that is
      empty now are false. */
  predicate Truthy(pops: Pops, v: Value)
    ensures Truthy(pops, v) ==> v.Some?
    ensures v.Some? && v.value.List? && Popped(pops, v.value) == |v.value.items| ==> !Truthy(pops, v)
    ensures v.Some? && v.value.List? && v.value.id !in pops ==> (Truthy(pops, v) <==> v.value.items != [])
  {
    match v
    case None => false
    case Some(Word(w)) => w != ""
    case Some(Num(x)) => x != 0.0
    case Some(List(_, _)) => Contents(pops, v.value) != []
  }

  // ------------------------------------------------------------ operators

  const UnaryMinus: string := "<UNARYMINUS>"
  const RelationalOps: seq<string> := ["=", "<", ">", "<=", ">=", "<>"]
  const AdditiveOps: seq<string> := ["+", "-"]
  const MultiplicativeOps: seq<string> := ["*", "/", "%"]
  const PowerOps: seq<string> := ["^"]

  /** isInfix(): the infix words are exactly the operators of the four
      binary levels. */
  predicate IsInfix(w: string)
    ensures IsInfix(w) <==>
      w in RelationalOps || w in AdditiveOps || w in MultiplicativeOps || w in PowerOps
  {
    w in ["+", "-", "*", "/", "%", "^", "=", "<", ">", "<=", ">=", "<>"]
  }

  /** peek(): the next token is a word among the options. A list token
      or a number never equals an option string. */
  predicate Peek(toks: seq<Atom>, options: seq<string>)
    ensures Peek(toks, options) <==> |toks| > 0 && exists i :: 0 <= i < |options| && toks[0] == Word(options[i])
  {
    |toks| > 0 && toks[0].Word? && toks[0].text in options
  }
}
