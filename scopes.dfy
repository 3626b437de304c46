/** The scope and variable model of logo.py lines 267-300, on values: a
    list of frames, index 0 global, the last one innermost, each a map
    from folded names to the value of the variable's cell. */
module Scopes {
  import opened Atoms

  /** The scope list always holds the global frame. */
  type Frames = fs: seq<map<string, Atom>> | |fs| > 0 witness [map[]]

  /** lvalue(), restricted to the frames below index n: the innermost
      frame that binds key, searching from index n - 1 down to 0. */
  function FindFrameBelow(frames: Frames, key: string, n: nat): (r: Option<nat>)
    requires n <= |frames|
    ensures r.Some? ==> r.value < n && key in frames[r.value]
    ensures r.Some? ==> forall j :: r.value < j < n ==> key !in frames[j]
    ensures r.None? ==> forall j :: 0 <= j < n ==> key !in frames[j]
  {
    if n == 0 then None
    else if key in frames[n - 1] then Some(n - 1)
    else FindFrameBelow(frames, key, n - 1)
  }

  /** lvalue(): the highest-index frame that binds key, or None. */
  function FindFrame(frames: Frames, key: string): (r: Option<nat>)
    ensures r.Some? ==> r.value < |frames| && key in frames[r.value]
    ensures r.Some? ==> forall j :: r.value < j < |frames| ==> key !in frames[j]
    ensures r.None? <==> forall j :: 0 <= j < |frames| ==> key !in frames[j]
  {
    FindFrameBelow(frames, key, |frames|)
  }

  /** getvar(): the innermost binding's value; an unbound name faults. */
  function GetVar(frames: Frames, key: string, name: string): (r: Outcome<Atom>)
    ensures r.Ok? <==> exists j :: 0 <= j < |frames| && key in frames[j]
    ensures r.Fail? ==> r.fault == UnboundVariable(name)
    ensures r.Ok? ==> exists j :: 0 <= j < |frames| && key in frames[j] && r.value == frames[j][key] &&
                                 forall i :: j < i < |frames| ==> key !in frames[i]
  {
    match FindFrame(frames, key)
    case None => Fail(UnboundVariable(name))
    case Some(j) => Ok(frames[j][key])
  }

  /** setvar(): overwrite the cell where the name is found; if it is found
      nowhere, create it in the global frame. */
  function SetVar(frames: Frames, key: string, v: Atom): (r: Frames)
    ensures |r| == |frames|
  {
    match FindFrame(frames, key)
    case Some(j) => frames[j := frames[j][key := v]]
    case None => frames[0 := frames[0][key := v]]
  }

  /** The frame a write lands in: the innermost binding one, else the
      global one; no other frame changes, and only key changes in it. */
  lemma SetVarTarget(frames: Frames, key: string, v: Atom)
    ensures var t := match FindFrame(frames, key) case Some(j) => j case None => 0;
      var r := SetVar(frames, key, v);
      r[t] == frames[t][key := v] &&
      forall i :: 0 <= i < |frames| && i != t ==> r[i] == frames[i]
  {
  }

  /** A name bound nowhere is created in the global frame and every other
      frame stays as it was. */
  lemma SetVarUnbound(frames: Frames, key: string, v: Atom)
    requires forall j :: 0 <= j < |frames| ==> key !in frames[j]
    ensures SetVar(frames, key, v) == [frames[0][key := v]] + frames[1..]
  {
    assert FindFrame(frames, key).None?;
  }

  /** After setvar, getvar of the same name reads the new value. */
  lemma {:induction false} GetAfterSet(frames: Frames, key: string, v: Atom, name: string)
    ensures GetVar(SetVar(frames, key, v), key, name) == Ok(v)
  {
    var r := SetVar(frames, key, v);
    match FindFrame(frames, key)
    case Some(j) =>
      assert key in r[j];
      assert forall i :: j < i < |r| ==> r[i] == frames[i];
      FindFrameIs(r, key, j);
    case None =>
      assert forall i :: 0 < i < |r| ==> r[i] == frames[i];
      FindFrameIs(r, key, 0);
  }

  /** lvalue finds index j when j binds key and no later frame does. */
  lemma FindFrameIs(frames: Frames, key: string, j: nat)
    requires j < |frames| && key in frames[j]
    requires forall i :: j < i < |frames| ==> key !in frames[i]
    ensures FindFrame(frames, key) == Some(j)
  {
  }

  /** setvar of one name leaves what every other name reads unchanged. */
  lemma GetOtherAfterSet(frames: Frames, key: string, v: Atom, other: string, name: string)
    requires other != key
    ensures GetVar(SetVar(frames, key, v), other, name) == GetVar(frames, other, name)
  {
    var r := SetVar(frames, key, v);
    assert forall i :: 0 <= i < |r| ==> (other in r[i] <==> other in frames[i]);
    assert forall i :: 0 <= i < |r| && other in r[i] ==> r[i][other] == frames[i][other];
    match FindFrame(frames, other)
    case Some(j) =>
      FindFrameIs(r, other, j);
    case None =>
      assert GetVar(r, other, name).Fail?;
  }
}
