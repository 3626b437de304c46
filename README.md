# A verified model of the Logo interpreter core

This project models the interpreter core of `src/lib/logo.py` in Dafny.
That file is a Python Logo interpreter with a precedence-climbing expression evaluator.
The model covers:

- the case-folding `StringMap` that holds routines and variables;
- the routine registry that `Logo.__init__` builds through `define` and the five `define_*` groups;
- variable lookup and assignment across the scope list (`lvalue`, `maybegetvar`, `getvar`, `setvar`, `make`);
- `execute` and the evaluator from `expression` through `finalExpression`;
- `dispatch`, including the natural form (fixed arity) and the parenthesised form (variable arity);
- the coercions `aexpr`, `lexpr`, `sexpr`, `copy` and `equal`;
- the control and logic primitives `repeat`, `repcount`, `forever`, `if`, `not`, `and`, `or` and `xor`.

The model has two layers:

- **Reference semantics.** Module `Semantics` holds pure functions over an interpreter `State`. A state is the scope frames, the diagnostic call stack, the repetition counter, and what has been popped from each list object. A token list is consumed from the front, and each step returns its outcome, the new state and the tokens left. Every evaluation function promises that it only consumes tokens, that bound names stay bound, and that on success the call stack and the counter come back as they were.
- **Imperative class.** Module `Interpreter` holds class `Logo`, with the Python object's fields: `routines` (a `StringMap`), `scopes`, `stack` and `repcount`. Its token cursor is a class `Cursor` whose `items` the methods pop. Each method runs the source's loop or branch in place. Its `ensures` ties the new state and the cursor to the reference function.

Lists are shared objects in the source: `finalExpression` returns a list atom without copying it, `getvar` returns the stored list, and `repeat`, `lexpr` and `execute` copy only the outer list. So when `if` evaluates a list condition, each token is popped from that list object itself, at once and for every holder: a routine called while the condition is still being read already sees the list without the tokens read so far. The model gives each list atom an identity (`ListId`) and records in the state how many items each list object has lost (`Pops`). What a list holds now is `Contents(pops, list)`. The evaluator reads a token sequence and is told which list object, if any, that sequence is (`src`). Before each routine call it writes its position back into `Pops` (`Semantics.Synced`), and after the call it drops from its sequence whatever the call popped from that object (`Semantics.Reread`). Besides the routines, only `=` and `<>` read what a list holds, and the fold loop hands them the same written-back position (`Semantics.LevelLoop`), so this is the same as popping in place (`Properties.CallFromObject`, `Properties.SelfComparison`).

The laws the interpreter promises are proved about the reference functions in module `Properties`:

- precedence and associativity, for every pair of operator levels;
- unary minus;
- dispatch behaviour;
- repetition counts;
- `execute`'s result rules;
- the in-place evaluation of `if` conditions.

Module `Registry` describes the routine table that `__init__` builds. Modules `Atoms`, `Values`, `Scopes` and `StringMaps` hold atom classification and parsing, the value coercions, variable scoping and the string map.

Python values are modelled as follows:

| Python | Model |
|---|---|
| `None` | `Value` = `Option<Atom>` |
| `str`, `int`, `float`, `list` atoms | `Word`, `Num` (an exact `real`), `List` (an identity and its items) |
| raising `assert`s and errors | `Fault`s in an `Outcome` |

The code departs from conventional Logo in several ways, and the model follows the code in each of the following (where it does not follow the code, "## Left out" says so):

- `^` folds to the left, because `powerExpression` loops over `unaryExpression`. So `2 ^ 3 ^ 2` is `(2 ^ 3) ^ 2`, where Logo usually groups powers to the right.
- `equal` compares a number with a word by Python's `==`, which never equates a float and a string. So `5 = "5` is false, although Logo words that read as the same number are usually equal.
- `and` and `or` never short-circuit. In the natural form `dispatch` evaluates every argument before the routine runs, so `and 0 X` still evaluates `X` and faults when `X` faults.
- `repcount` read during the first run of a `repeat` body gives the enclosing counter, not 1. The counter is only set after each run.
- A list used as an `if` condition loses the tokens of the one expression evaluated from it. So `if [1 2] []` leaves `[2]` behind, and a one-expression condition such as `[1]` is emptied: a second `if` on that list object faults, so `repeat 2 [if [1] []]` faults on its second run.

## Model

| member | source | states |
|---|---|---|
| StringMaps.StringMap.constructor | src/lib/logo.py:38-40 | a new map is empty and keeps its case-fold flag |
| StringMaps.StringMap.Key | src/lib/logo.py:43 | the stored key is the lower-cased key when case folding is on, and the key itself otherwise |
| StringMaps.StringMap.Get | src/lib/logo.py:42-44 | gives the stored value exactly when the folded key is present, and None otherwise |
| StringMaps.StringMap.Set | src/lib/logo.py:46-48 | binds the folded key and nothing else; afterwards every spelling with the same fold finds the new value |
| StringMaps.StringMap.Has | src/lib/logo.py:50-52 | true exactly when the folded key is bound |
| StringMaps.StringMap.Delete | src/lib/logo.py:54-56 | removes the folded key; a missing key is a fault (`del` raises KeyError) |
| StringMaps.StringMap.Empty | src/lib/logo.py:61-62 | true exactly when nothing is bound |
| StringMaps.FoldedKeys | src/lib/logo.py:43-51 | two keys with the same lower-case fold name one entry, even after an upper-casing or a second fold |
| Atoms.Popped | src/lib/logo.py:509 | a list object never loses more items than it was made with |
| Atoms.Contents | src/lib/logo.py:509 | a list holds as many items as it was made with less those popped, and all of them until something is popped |
| Atoms.Dropped | src/lib/logo.py:509 | k pops from the front leave k fewer items |
| Atoms.DroppedIsSlice | src/lib/logo.py:509 | k pops from the front leave the items from index k on |
| Atoms.Type | src/lib/logo.py:374-384 | None is a fault; a list is 'list' and nothing else is |
| Atoms.LowerIdempotent | src/lib/logo.py:43 | folding a folded key again changes nothing |
| Atoms.LowerOfUpper | src/lib/logo.py:549-550 | looking up an upper-cased name in a folding map finds the entry of the name itself |
| Atoms.IsNumberPrefixClosed | src/lib/logo.py:406-411 | isNumber is a prefix match: anything that starts with a number-like word is number-like |
| Atoms.ParsedIsNumber | src/lib/logo.py:515-516 | every word that float() accepts is one isNumber accepts |
| Atoms.NatTextRoundTrip | src/lib/logo.py:515-516 | float() of the decimal text of n, with or without a leading minus, gives back n (or -n) |
| Atoms.IsInfix | src/lib/logo.py:545-546 | isInfix holds exactly for the operators of the four binary levels |
| Atoms.IsNumber | src/lib/logo.py:406-411 | a word that isNumber accepts is non-empty and starts with a digit, a minus or a point |
| Atoms.ParseNumber | src/lib/logo.py:594 | float() of a minus sign followed by a numeral is the negation of the numeral's value, and refuses what the numeral alone refuses |
| Atoms.Peek | src/lib/logo.py:413-418 | true exactly when there is a next token and it is one of the options |
| Atoms.Truthy | src/lib/logo.py:335-344 | None is never truthy; a list is truthy exactly when it still holds something, so a list popped to its end is false |
| Values.AExpr | src/lib/logo.py:591-596 | a number gives itself, a numeric word the value float() parses from it; None, lists and non-numeric words fault |
| Values.LExpr | src/lib/logo.py:598-603 | succeeds exactly on lists and gives what the list holds now; a word is not implemented |
| Values.SExpr | src/lib/logo.py:605-608 | None faults; the unary-minus marker gives "-"; a word gives its text; a list gives None |
| Values.Copy | src/lib/logo.py:610-614 | succeeds exactly when the value is not None; a word is itself; a list becomes a new list object holding what the original holds now |
| Values.CopyEqualsOriginal | src/lib/logo.py:610-614 | a copy is equal to its original in what it holds, all the way down |
| Values.ElementsEqualAll | src/lib/logo.py:631-635 | the element loop is true exactly when every later pair is equal |
| Values.AtomEqualIsEquality | src/lib/logo.py:616-635 | structural equality of atoms is exactly equality of what they hold now |
| Values.ListsEqual | src/lib/logo.py:627-635 | two lists of the same length are equal exactly when their snapshots are |
| Values.SnapshotsAgree | src/lib/logo.py:631-635 | two list snapshots agree exactly when every pair of items does |
| Values.Equal | src/lib/logo.py:616-639 | faults exactly on None; true exactly when the two values hold the same now; a word and a list are unequal |
| Values.EqualAsWritten | src/lib/logo.py:627-629 | as written, any two lists fault on `.length` |
| Values.EqualAsWrittenRaisesOnLists | src/lib/logo.py:628 | equal([1,[2,3]], [1,[2,3]]) faults as written, and the corrected equal answers true |
| Values.EqualAgreesOffLists | src/lib/logo.py:616-626 | away from two lists, the written and the corrected equal agree |
| Values.Not | src/lib/logo.py:331-332 | succeeds exactly when aexpr does, giving 1 for zero and 0 otherwise |
| Values.And | src/lib/logo.py:334-335 | 1 exactly when every argument is truthy, else 0 |
| Values.Or | src/lib/logo.py:337-338 | 1 exactly when some argument is truthy, else 0 |
| Values.XorFromParity | src/lib/logo.py:341-346 | the xor loop flips its start once for each truthy later argument |
| Values.Xor | src/lib/logo.py:340-348 | xor gives 1 exactly when an odd number of arguments is truthy, and 0 for none |
| Values.AtomEqual | src/lib/logo.py:616-635 | equal atoms are of the same kind: word with word, number with number, list with list |
| Scopes.FindFrameBelow | src/lib/logo.py:267-270 | finds the innermost frame below n that binds the name, or reports that none does |
| Scopes.GetVar | src/lib/logo.py:272-279 | succeeds exactly when some frame binds the name, with the innermost binding; otherwise faults |
| Scopes.SetVarTarget | src/lib/logo.py:281-288 | setvar rebinds in the innermost frame that has the name, else in frame 0, and leaves every other frame alone |
| Scopes.SetVarUnbound | src/lib/logo.py:286-288 | a name bound nowhere is created in the global frame |
| Scopes.GetAfterSet | src/lib/logo.py:276-288 | reading a name right after setting it gives the value set |
| Scopes.FindFrame | src/lib/logo.py:267-270 | the frame found binds the name and no frame inside it does; none is found exactly when no frame binds the name |
| Scopes.SetVar | src/lib/logo.py:281-288 | setvar keeps the number of frames |
| Scopes.FindFrameIs | src/lib/logo.py:267-270 | the frame found is the innermost that binds the name |
| Scopes.GetOtherAfterSet | src/lib/logo.py:276-288 | setting one name leaves the value of every other name as it was |
| Semantics.PyMod | src/lib/logo.py:479-482 | Python's `%` takes the sign of the divisor, stays below it in magnitude, and differs from the dividend by a whole multiple of it |
| Semantics.Arith | src/lib/logo.py:433-494 | comparisons give 1 or 0; +, - and * always give a number; / and % fault exactly when the divisor is zero |
| Semantics.Apply | src/lib/logo.py:433-494 | a success is a number; = and <> succeed exactly when neither side is None; every other operator succeeds only on two numeric operands |
| Semantics.FloorRemainder | src/lib/logo.py:482 | the floored remainder lies between zero and the divisor |
| Semantics.TokensOf | src/lib/logo.py:391 | a list gives what it holds now as the statements to run |
| Semantics.Expression | src/lib/logo.py:423-424 | consumes at least one token on success, only from the front, and keeps the state's invariants |
| Semantics.Level | src/lib/logo.py:426-496 | each binary level consumes tokens on success and keeps bindings, stack and counter |
| Semantics.Operand | src/lib/logo.py:426-427 | the left operand, one level tighter, consumes tokens on success |
| Semantics.LevelLoop | src/lib/logo.py:429-448 | the fold loop only consumes from the front and keeps the state's invariants |
| Semantics.Unary | src/lib/logo.py:498-504 | unary minus consumes tokens on success and keeps the state's invariants |
| Semantics.Negated | src/lib/logo.py:502 | negating keeps the operand's state and the tokens it left, and succeeds exactly when the operand is a number, with its negation |
| Semantics.Final | src/lib/logo.py:506-543 | an atom step consumes at least one token on success |
| Semantics.Group | src/lib/logo.py:524-536 | a parenthesised group only consumes from the front |
| Semantics.StartsCall | src/lib/logo.py:524-527 | a parenthesised call starts with a word naming a routine, and never when an infix operator follows that word |
| Semantics.Dispatch | src/lib/logo.py:548-550 | a call only consumes from the front; a call that succeeds restores stack and counter |
| Semantics.DispatchUpper | src/lib/logo.py:550-589 | the same, once the name is upper-cased |
| Semantics.NaturalArgs | src/lib/logo.py:562-563 | reads exactly props['args'] argument values, appended in order |
| Semantics.ParenArgs | src/lib/logo.py:565-566 | reads arguments until the list ends or a ")" is next, appending in order |
| Semantics.Call | src/lib/logo.py:586-589 | pushes the name, runs the routine and pops it on success; a fault leaves the stack grown |
| Semantics.CallFrom | src/lib/logo.py:586-589 | a call made while reading tokens only consumes tokens from the front, and keeps bindings, and on success stack and counter |
| Semantics.Synced | src/lib/logo.py:509 | before a call, the list object being read has popped exactly the tokens read so far; every other list object is as it was |
| Semantics.Reread | src/lib/logo.py:509 | after a call, what the caller goes on reading is what it had left with the front dropped; from a private copy nothing is dropped |
| Semantics.Accepts | src/lib/logo.py:587 | the *args methods show, and, or and xor take any number of arguments; if takes two or more |
| Semantics.Invoke | src/lib/logo.py:587 | each primitive method, repcount's read of the counter among them, keeps bindings, and on success the stack and the counter |
| Semantics.MakePrim | src/lib/logo.py:298-300 | make succeeds exactly when the name is a word and the value is not None; it gives no value; the folded name then reads the copy, which holds what the value held; on a fault nothing changes |
| Semantics.RepeatPrim | src/lib/logo.py:220-231 | repeat keeps bindings; on success the counter is restored |
| Semantics.RepeatLoop | src/lib/logo.py:226-231 | the loop gives None on success and restores the saved counter |
| Semantics.RepeatTurn | src/lib/logo.py:226-229 | a run of the body that succeeds is followed by the next turn, with the counter set to the next index |
| Semantics.RepeatFault | src/lib/logo.py:226-227 | a run of the body that faults ends the loop with that fault |
| Semantics.ForeverPrim | src/lib/logo.py:236-246 | forever never returns normally; only a fault ends it |
| Semantics.ForeverLoop | src/lib/logo.py:241-244 | every way out of the loop is a fault, and bindings are kept |
| Semantics.EvaluateList | src/lib/logo.py:249-250 | evaluating a list object pops from it what the expression consumed, so once the expression has finished it holds exactly what the expression left, and strictly less when the expression succeeded; calls made meanwhile see the object popped so far (Semantics.CallFrom) |
| Semantics.PoppedTo | src/lib/logo.py:509 | writing back the popped count leaves the list holding exactly the tokens left |
| Semantics.ContentsAfterWrite | src/lib/logo.py:509 | after k pops a list holds its items from k on |
| Semantics.IfPrim | src/lib/logo.py:248-257 | if keeps bindings, and on success stack and counter |
| Semantics.Execute | src/lib/logo.py:388-404 | without returnResult a success gives None; bindings are kept |
| Semantics.ExecLoop | src/lib/logo.py:395-402 | the statement loop keeps bindings and gives None unless a result is wanted |
| Semantics.SuffixTrans | src/lib/logo.py:509 | tokens consumed in successive steps are consumed from the front overall |
| Semantics.SuffixDrop | src/lib/logo.py:509 | what is left after consuming from the front is the token list with its first items dropped |
| Semantics.DroppedSuffix | src/lib/logo.py:509 | dropping tokens from the front leaves what is left of the same sequence |
| Semantics.RereadIsContents | src/lib/logo.py:509 | re-reading after a call gives exactly what the list object holds after the call |
| Registry.FoldedOnly | src/lib/logo.py:88-89 | only the folded names given are added |
| Registry.DefinedBinds | src/lib/logo.py:83-89 | define adds exactly the folded names, all to the same routine with props['args'] set; other entries stay |
| Registry.DefinedInherits | src/lib/logo.py:83-89 | defining a routine without a minimum keeps every name's "no minimum" status |
| Registry.InheritsTrans | src/lib/logo.py:74-78 | "no minimum" status carries through the successive groups |
| Registry.DefineEachInherits | src/lib/logo.py:83-89 | a sequence of define calls that pass no minimum leaves every name without a minimum or as it was |
| Registry.DefineEachCovers | src/lib/logo.py:83-89 | every name of such a sequence ends up registered without a minimum |
| Registry.DefineEachKeeps | src/lib/logo.py:88-89 | a name that no call of the sequence defines keeps its entry, or stays absent |
| Registry.DefineEachLast | src/lib/logo.py:88-89 | the last call that defines a name decides its entry |
| Registry.FoldedLength | src/lib/logo.py:43 | folding keeps the length of a name |
| Registry.DefineEachKeys | src/lib/logo.py:83-89 | a sequence of define calls adds exactly the folded names of each call, and keeps every name already there |
| Registry.GroupKeys | src/lib/logo.py:191-356 | each of define_motion, define_control, define_misc, define_fun and define_xmit adds exactly the folded names of its define calls and keeps every name already registered |
| Registry.GroupsKeys | src/lib/logo.py:74-78 | the five groups, applied in order to any table, add exactly the names of their define calls and keep the rest |
| Registry.InitialKeys | src/lib/logo.py:67-78 | after __init__ the registry holds exactly the names of the five groups |
| Registry.GroupsUnbounded | src/lib/logo.py:191-217 | define_motion, define_control and define_misc pass no minimum, so every name keeps an entry without one or the entry it had |
| Registry.FunShortNames | src/lib/logo.py:350-356 | define_fun leaves every name longer than five letters untouched |
| Registry.XmitOthers | src/lib/logo.py:97-98 | define_xmit changes only show |
| Registry.ForwardFrom | src/lib/logo.py:74-78 | whatever the table held, the five groups leave forward registered without a minimum |
| Registry.ForwardUnbounded | src/lib/logo.py:67-78 | after __init__, forward is registered without a minimum |
| Registry.LogicEntries | src/lib/logo.py:354-356 | and and or: 2 natural args, noeval, minimum 0, maximum -1; xor the same but evaluated |
| Registry.ShowEntry | src/lib/logo.py:97-98 | show: 1 natural arg, minimum 0, maximum -1 |
| Registry.LogicInitial | src/lib/logo.py:350-356 | after __init__, and and or are unevaluated and variadic, and xor is evaluated and variadic |
| Interpreter.Cursor.constructor | src/lib/logo.py:391 | a cursor holds the given tokens and knows which list object, if any, they are |
| Interpreter.Cursor.Pop | src/lib/logo.py:509 | removes and returns the first token |
| Interpreter.Logo.constructor | src/lib/logo.py:67-78 | one empty global scope, empty stack, counter 0, and the routine table InitialRoutines |
| Interpreter.Logo.DefineGroups | src/lib/logo.py:74-78 | the table becomes the five groups applied in order; scopes, stack and counter are unchanged |
| Interpreter.Logo.Define | src/lib/logo.py:83-89 | the loop binds every folded name to the entry, changing nothing else |
| Interpreter.Logo.DefineAll | src/lib/logo.py:191-217 | the define calls of a table, made in order, give DefineEach of the old table; nothing else changes |
| Interpreter.Logo.DefineMotion | src/lib/logo.py:191-217 | the table becomes Motion of the old table; nothing else changes |
| Interpreter.Logo.DefineControl | src/lib/logo.py:259-264 | the table becomes Control of the old table; nothing else changes |
| Interpreter.Logo.DefineMisc | src/lib/logo.py:317-323 | the table becomes Misc of the old table; nothing else changes |
| Interpreter.Logo.DefineFun | src/lib/logo.py:350-356 | the table becomes Fun of the old table; nothing else changes |
| Interpreter.Logo.DefineXmit | src/lib/logo.py:97-98 | the table becomes Xmit of the old table; nothing else changes |
| Interpreter.Logo.LValue | src/lib/logo.py:267-270 | the downward scan finds the innermost frame holding the folded name |
| Interpreter.Logo.GetVar | src/lib/logo.py:272-279 | gives the innermost binding, or faults |
| Interpreter.Logo.SetVar | src/lib/logo.py:281-288 | the scopes become SetVar of the old scopes |
| Interpreter.Logo.Make | src/lib/logo.py:298-300 | result and new state are those of MakePrim |
| Interpreter.Logo.Expression | src/lib/logo.py:423-424 | result, state and tokens left are those of Expression |
| Interpreter.Logo.Level | src/lib/logo.py:426-496 | the fold loop of each level gives Level's result, state and tokens |
| Interpreter.Logo.Operand | src/lib/logo.py:426-427 | gives Operand's result, state and tokens |
| Interpreter.Logo.Unary | src/lib/logo.py:498-504 | gives Unary's result, state and tokens |
| Interpreter.Logo.Final | src/lib/logo.py:506-543 | gives Final's result, state and tokens |
| Interpreter.Logo.Group | src/lib/logo.py:524-536 | gives Group's result, state and tokens |
| Interpreter.Logo.Dispatch | src/lib/logo.py:548-589 | gives Dispatch's result, state and tokens |
| Interpreter.Logo.NaturalArgs | src/lib/logo.py:562-563 | the loop gives NaturalArgs' values, state and tokens |
| Interpreter.Logo.ParenArgs | src/lib/logo.py:565-566 | the loop gives ParenArgs' values, state and tokens |
| Interpreter.Logo.Call | src/lib/logo.py:586-589 | gives Call's result and state |
| Interpreter.Logo.CallFrom | src/lib/logo.py:586-589 | writing the cursor's position back, calling, then dropping what the call popped from the cursor's list gives CallFrom's result, state and tokens left |
| Interpreter.Logo.Invoke | src/lib/logo.py:587 | gives Invoke's result and state |
| Interpreter.Logo.Repeat | src/lib/logo.py:220-231 | gives RepeatPrim's result and state |
| Interpreter.Logo.RepeatLoop | src/lib/logo.py:223-231 | the counting loop gives RepeatLoop's result and state from the saved counter |
| Interpreter.Logo.Forever | src/lib/logo.py:236-246 | the endless loop gives ForeverPrim's result and state |
| Interpreter.Logo.EvaluateList | src/lib/logo.py:249-250 | evaluating a list object on a cursor over what it holds, kept in step with the object around every call, then writing back how much was popped, gives EvaluateList's result and state |
| Interpreter.Logo.If | src/lib/logo.py:248-257 | evaluates a list condition on a cursor over the list, writes back what it popped, and gives IfPrim's result and state |
| Interpreter.Logo.Execute | src/lib/logo.py:388-404 | the statement loop gives Execute's result and state |
| Properties.OperatorLevels | src/lib/logo.py:426-496 | no operator of a level binds tighter than it, and every operator of a tighter level does |
| Properties.UnaryOfLiteral | src/lib/logo.py:498-513 | a number or list is its own unary expression, consuming one token |
| Properties.LevelOfUnary | src/lib/logo.py:426-504 | with no operator of the level or a tighter one next, a level gives what its unary expression gives |
| Properties.OperandOfUnary | src/lib/logo.py:426-504 | with nothing tighter next, a level's operand is its unary expression |
| Properties.LevelThen | src/lib/logo.py:426-496 | a level is its operand followed by its fold loop |
| Properties.LoopEnd | src/lib/logo.py:413-418 | with no operator of the level next, the loop returns its left side and consumes nothing |
| Properties.FoldStep | src/lib/logo.py:453-455 | an operator of the level is popped, then the right operand is read and applied, with the list being read popped up to the end of that operand |
| Properties.NumberThenLoop | src/lib/logo.py:426-496 | a leading number enters the fold loop as its left side |
| Properties.NumberTurn | src/lib/logo.py:453-458 | one operator and a number fold into the left side |
| Properties.FoldOk | src/lib/logo.py:453-464 | a successful application carries the loop on with the new left side |
| Properties.Exhausted | src/lib/logo.py:426-496 | an operand that uses up every token is the level's value |
| Properties.Lifted | src/lib/logo.py:423-451 | a value that uses up every token at a tighter level is the expression's value |
| Properties.TighterTriple | src/lib/logo.py:426-496 | b op c is the value of op's level and of every looser level |
| Properties.OperandTighter | src/lib/logo.py:426-427 | b op c, op of a tighter level, is a whole right operand |
| Properties.LevelTighterFirst | src/lib/logo.py:426-496 | a op1 b op2 c, op2 tighter, is a op1 (b op2 c) at op1's level |
| Properties.TighterBindsFirst | src/lib/logo.py:423-496 | for any operator op1 and any operator op2 of a tighter level, a op1 b op2 c is a op1 (b op2 c), every token consumed |
| Properties.SameLevelFoldsLeft | src/lib/logo.py:423-496 | for any two operators of one level, a op1 b op2 c is (a op1 b) op2 c, every token consumed |
| Properties.Sum | src/lib/logo.py:457-474 | + - * on two numbers give their sum, difference and product |
| Properties.MultiplicationBindsTighter | src/lib/logo.py:423-486 | the expression a + b * c is a + (b * c) |
| Properties.SubtractionFoldsLeft | src/lib/logo.py:423-464 | the expression a - b - c is (a - b) - c |
| Properties.AdditionBindsTighterThanComparison | src/lib/logo.py:426-464 | the expression a < b + c compares a with b + c |
| Properties.PowerFoldsLeft | src/lib/logo.py:423-496 | the expression a ^ b ^ c is pow(pow(a, b), c) |
| Properties.UnaryNegates | src/lib/logo.py:498-502 | UNARY_MINUS x gives -x, consuming both tokens |
| Properties.NegatedNumber | src/lib/logo.py:423-502 | as an expression, UNARY_MINUS x is -x when no operator follows |
| Properties.PowerLevelOfNegated | src/lib/logo.py:488-502 | at the power level, the negated number is the loop's left side |
| Properties.PowerOfNegated | src/lib/logo.py:488-502 | at the power level, - a ^ b goes on from pow(-a, b) |
| Properties.NegationBeforePower | src/lib/logo.py:423-502 | unary minus binds tighter than ^: the expression - a ^ b is pow(-a, b) |
| Properties.FinalEmpty | src/lib/logo.py:507 | an empty token list faults |
| Properties.FinalList | src/lib/logo.py:512-513 | a list atom is itself, the same object, and consumes one token |
| Properties.FinalQuoted | src/lib/logo.py:518-519 | a quoted word gives the word without its quote |
| Properties.FinalVariable | src/lib/logo.py:521-522 | :name reads the variable, or faults when it is unbound |
| Properties.FinalClose | src/lib/logo.py:538-539 | a stray ")" faults |
| Properties.FinalGroup | src/lib/logo.py:524-536 | a group is an expression that must be followed by ")", which is consumed; otherwise it faults |
| Properties.DispatchUndefined | src/lib/logo.py:549-552 | an unknown name faults, naming it in upper case, before anything is consumed or changed |
| Properties.UpperAgrees | src/lib/logo.py:549 | names with the same lower-case fold upper-case alike |
| Properties.DispatchCaseInsensitive | src/lib/logo.py:548-589 | every spelling of a name dispatches identically |
| Properties.NaturalCall | src/lib/logo.py:558-589 | the natural form calls the routine with exactly props['args'] values, the tokens after them left to read |
| Properties.ParenWithoutBounds | src/lib/logo.py:564-571 | a parenthesised call of a routine lacking minimum or maximum always faults |
| Properties.ParenCall | src/lib/logo.py:564-589 | the parenthesised form consumes through ")", faults on too few or too many arguments, and otherwise calls with the tokens after ")" left to read |
| Properties.CallFromCopy | src/lib/logo.py:391 | a call made while reading execute's private copy is the call itself, and the caller goes on where it was |
| Properties.CallFromObject | src/lib/logo.py:509 | a call made while reading a list object sees the object holding exactly the unread tokens, and if the callee only popped more, the caller goes on from what the object holds afterwards |
| Properties.ExpressionOfCall | src/lib/logo.py:423-550 | a statement that starts with a routine name, whose call reads all that follows, is that call |
| Properties.ConditionOfWhole | src/lib/logo.py:249-250 | a condition whose expression reads the whole list gives that value and leaves the list used up |
| Properties.ExpressionOfOne | src/lib/logo.py:513-516 | the numeral 1 alone is the number 1 |
| Properties.OneBeforeIf | src/lib/logo.py:426-448 | 1 followed by if is an expression of its own, because if is no operator |
| Properties.IfOnOne | src/lib/logo.py:248-254 | if with an empty body on a list holding only 1 succeeds and pops the list to its end |
| Properties.SelfReadingArgs | src/lib/logo.py:558-563 | in if :c [] 1 read from c, the arguments are c itself and [], with 1 left |
| Properties.SelfReadingCall | src/lib/logo.py:248-254 | that if finds c holding only 1, pops it, gives None, and leaves its caller nothing to read |
| Properties.SelfReadingIf | src/lib/logo.py:548-589 | the expression if :c [] 1 read from c gives None and uses c up |
| Properties.SelfReadingCondition | src/lib/logo.py:248-252 | with c = [if :c [] 1], the condition of if :c [] gives None and empties c, so the outer if faults "Expecting number" |
| Properties.SelfReadingAndArgs | src/lib/logo.py:558-563 | in and 1 if :c [] 1 read from c, the arguments are 1 and None, and c is used up |
| Properties.SelfReadingAndCall | src/lib/logo.py:334-335 | and of 1 and None is 0, and c stays used up |
| Properties.SelfReadingAndDispatch | src/lib/logo.py:548-589 | the and of and 1 if :c [] 1, read from c, gives 0 with c used up |
| Properties.SelfReadingAndCondition | src/lib/logo.py:249-250 | the condition [and 1 if :c [] 1] read from c gives 0 with c used up |
| Properties.SelfReadingAnd | src/lib/logo.py:248-254 | with c = [and 1 if :c [] 1], if :c [] succeeds with None and leaves c empty |
| Properties.ApplyOffLists | src/lib/logo.py:433-444 | what list objects have lost changes an operator's result only when both operands are lists |
| Properties.UsedUpEqualsEmpty | src/lib/logo.py:616-635 | a list popped to its end is equal to the empty list |
| Properties.SelfComparisonLeft | src/lib/logo.py:509-522 | in [:c = []] read from c, the left operand of = is c itself |
| Properties.SelfComparison | src/lib/logo.py:437-438 | with c = [:c = []], the corrected equal compares c after all three of its tokens are popped, so the condition is 1 and c is used up |
| Properties.CallRestoresStack | src/lib/logo.py:586-589 | a successful call restores stack and counter; a faulting one only grows the stack |
| Properties.IterationsCount | src/lib/logo.py:224-228 | the loop indices are exactly the integers 1..count |
| Properties.RepeatLoopRuns | src/lib/logo.py:226-231 | the loop runs the body Iterations times, then restores the counter; a fault stops it |
| Properties.RepeatRuns | src/lib/logo.py:220-231 | repeat n runs the body once for each integer 1..n and restores repcount on success |
| Properties.RepeatNothing | src/lib/logo.py:224-231 | a count below 1 runs nothing and changes nothing |
| Properties.ExecuteEmpty | src/lib/logo.py:393-404 | an empty list runs nothing and gives None |
| Properties.ExecuteUnwanted | src/lib/logo.py:397-400 | a value where none is wanted faults after its expression runs |
| Properties.ExecuteLast | src/lib/logo.py:395-404 | with returnResult, an expression that uses up the list gives the result |
| Properties.LastForgotten | src/lib/logo.py:402 | the result of an earlier expression is replaced once another runs |
| Properties.ExecuteStep | src/lib/logo.py:395-402 | after a first expression that succeeds and leaves tokens, execute goes on from what it left; so the last expression's value is the result |
| Properties.ExecuteWithoutResult | src/lib/logo.py:399-404 | without returnResult, a success gives None |
| Properties.IfNumber | src/lib/logo.py:253-255 | a non-zero number runs the statements; zero with no else gives None and changes nothing |
| Properties.IfList | src/lib/logo.py:249-255 | a list condition is evaluated in place first: the list then holds what the expression left; a fault or a non-numeric value faults, and a number decides as IfNumber does |
| Properties.LevelOfNothing | src/lib/logo.py:507 | every level of an empty token list faults |
| Properties.ExpressionOfNumber | src/lib/logo.py:423-516 | a lone number is its own expression |
| Properties.ConditionOfNumber | src/lib/logo.py:249-250 | evaluating a list that holds one number gives it and empties the list |
| Properties.IfTrueList | src/lib/logo.py:249-255 | a list condition with a non-zero value runs an empty body and gives None from the state the condition left |
| Properties.IfEmptiesCondition | src/lib/logo.py:249-255 | if [x] [] with x non-zero succeeds and leaves the condition list empty |
| Properties.IfOnUsedCondition | src/lib/logo.py:249-250 | if on an emptied condition list faults |
| Properties.TwoLiteralArgs | src/lib/logo.py:562-563 | two literal arguments are read as they are |
| Properties.IfOfTwoLists | src/lib/logo.py:548-589 | the call `if cond body` pushes IF, runs if_ and pops IF on success |
| Properties.IfStatementIsCall | src/lib/logo.py:395-400 | the statement `if cond body` is that call, a value being unwanted |
| Properties.IfStatementSucceeds | src/lib/logo.py:395-404 | when if_ succeeds without a value, so does the statement, with the stack restored |
| Properties.IfStatement | src/lib/logo.py:248-255 | the statement if l [] on a list holding one non-zero number succeeds and only empties l |
| Properties.IfStatementOnUsedCondition | src/lib/logo.py:248-250 | the same statement on an emptied list faults |
| Properties.RepeatedIfFaults | src/lib/logo.py:220-250 | repeat 2 [if [1] []] faults on its second run, because the first empties the shared condition list |
| Properties.LogicEvaluatesEveryArgument | src/lib/logo.py:558-563 | a natural and or or evaluates its second argument whatever the first is, so a fault there is the call's fault |
| Properties.MakeLeavesOthers | src/lib/logo.py:298-300 | make leaves the value of every other name as it was |

## Left out

- `StringMap.keys` (src/lib/logo.py:58-59) calls itself without end. No caller in the core uses it, so it is not modelled.
- `show`, the turtle primitives, `wait`, `beep`, `setpencolor` and the other host actions are parameters in `Semantics.Host`. Their effects (printing, drawing, sound, time) are outside the model. The sensor and query primitives return whatever the host gives.
- The `is_io_var` hook in `setvar` (src/lib/logo.py:290-292) forwards assignments to the turtle backend. It is left out, because it is I/O.
- `math.pow` and `str(float)` are host functions. Floating point is modelled as exact reals: there is no rounding, infinity or NaN.
- `float()` is modelled as a parser for `[-]digits[.digits][e[+-]digits]`, where either side of the point may be empty but not both. Whitespace, underscores, a leading `+`, `inf` and `nan` are not modelled.
- Case folding covers ASCII letters only.
- Python's `int` and `float` are both `Num`. The comparisons and `=`/`<>` (src/lib/logo.py:434-444), `not`, `and`, `or`, `xor`, `true` and `false` (src/lib/logo.py:326-348) and `repcount` (src/lib/logo.py:234) return ints, while `aexpr` returns floats. Their text differs (`str(1)` is `1`, `str(1.0)` is `1.0`), so `make 1 = 1 "x` binds the name `1` in the source, but in the model it binds the host's numeral for 1.0. Which kind a number is, and what follows from it, is not modelled.
- Atoms.ParseNumber: `float()` also accepts decimal digits of other scripts (so `float("1٣")` is 13.0, src/lib/logo.py:594); the model accepts only ASCII digits and refuses such words.
- Semantics.Apply: `=` and `<>` use the corrected `Values.Equal`, so `[1] = [1]` gives 1, where the code as written raises AttributeError (src/lib/logo.py:628; see "## Findings", where `Values.EqualAsWritten` models the code as written).
- `run` and `evaluateExpression` only forward to `execute` and `expression`. They are not separate members.
- `lexpr` of a word, special routines (`props['special']`) and `equal` on arrays raise `NotImplementedError` in the source. The model gives a `NotImplemented` fault for each. The parsing routines and `TO` definitions are not part of this model.
- Routines created by the user are not part of this model. The core registers only primitives.
- Semantics.ForeverPrim: an endless loop is bounded by fuel. The model shows it ends only with a fault, either the body's or running out of fuel. Fuel also bounds call depth in `Dispatch`.
- List objects are identified by `ListId`. The parser is not part of this model, so the identity of each list it builds is given with the list (`Literal(n)`), and distinct list objects are expected to carry distinct identities. Lists that `make` copies get fresh `Copied(n)` identities. A list the host returns (such as the new list `pos` builds, src/lib/logo.py:142-143) carries whatever identity the host gives it; the model does not require that identity to be fresh, so a host could alias a live list object. Only the count of items popped from the front is recorded, because popping from a condition list in `if` is the only way the core changes a list object in place.
- Semantics.IfPrim: an else branch given as extra arguments runs as the token list made of those values. A None among them faults at once; that value would be the first token evaluated, because `if` takes at most one extra argument.
- Interpreter.Logo.constructor: the turtle object is the `Host` parameter and is not modelled further.
- Faults keep the partial state of the source, which has no `try`/`finally`: a faulting call leaves its name on the stack, and a faulting `repeat` does not restore the counter.
- `setxy` is registered with one natural argument, but the method takes two. A natural call therefore faults with an argument-count error, and the model keeps this as written. `button` is the same routine as `buttonp`.
- A parenthesised call always reads `minimum` and `maximum`. Routines registered without them, such as `forward`, therefore fault with a missing-property error when called in parentheses (`Properties.ParenWithoutBounds`, `Registry.ForwardUnbounded`).

## Findings

| source | as written | input that shows it | evidently intended | confidence | as-written member | corrected member |
|---|---|---|---|---|---|---|
| src/lib/logo.py:628 | `equal` reads `a.length`, which Python lists do not have, so comparing any two lists raises AttributeError | `equal([1,[2,3]], [1,[2,3]])` | compare `len(a)` with `len(b)`, then the elements pairwise | high; not executed | Values.EqualAsWritten (exhibited by Values.EqualAsWrittenRaisesOnLists) | Values.Equal (with Values.AtomEqualIsEquality) |
