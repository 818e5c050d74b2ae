/**
  The script's `breakpoints` record as a value: the two nullable loop markers
  `A` and `B` and the ordered list `custom` of named timestamps. Each function
  here is the state change one handler makes to that record; the `Session`
  class applies them to its field.
 */
module Marks {
  import opened Wrappers

  /** The `label` argument of `setAB`, `clearAB` and `jumpToAB`. */
  datatype Label = A | B

  /** One entry of `custom`: `{id, time, name}`. */
  datatype Breakpoint = Breakpoint(id: string, time: real, name: string)

  /** The `breakpoints` record; `None` is the script's `null`. */
  datatype Breakpoints = Breakpoints(A: Option<real>, B: Option<real>, custom: seq<Breakpoint>)

  /** `{ A: null, B: null, custom: [] }`, the state of a video with nothing stored. */
  const Empty := Breakpoints(None, None, [])

  /** Display name given to every new entry by `addBreakpoint`. */
  const NewBreakpointName := "New Breakpoint"

  function Other(which: Label): Label {
    if which == A then B else A
  }

  /** `breakpoints[label]`. */
  function Marker(bps: Breakpoints, which: Label): (r: Option<real>)
    ensures which == A ==> r == bps.A
    ensures which == B ==> r == bps.B
  {
    match which
    case A => bps.A
    case B => bps.B
  }

  /** `breakpoints[label] = now` (`setAB`). */
  function SetMarker(bps: Breakpoints, which: Label, now: real): (r: Breakpoints)
    ensures Marker(r, which) == Some(now)
    ensures Marker(r, Other(which)) == Marker(bps, Other(which))
    ensures r.custom == bps.custom
  {
    match which
    case A => bps.(A := Some(now))
    case B => bps.(B := Some(now))
  }

  /** `breakpoints[label] = null` (`clearAB`). */
  function ClearMarker(bps: Breakpoints, which: Label): (r: Breakpoints)
    ensures Marker(r, which) == None
    ensures Marker(r, Other(which)) == Marker(bps, Other(which))
    ensures r.custom == bps.custom
  {
    match which
    case A => bps.(A := None)
    case B => bps.(B := None)
  }

  /** Clearing a marker twice is the same as clearing it once. */
  lemma ClearIdempotent(bps: Breakpoints, which: Label)
    ensures ClearMarker(ClearMarker(bps, which), which) == ClearMarker(bps, which)
  {
  }

  /** Setting and then clearing a marker leaves exactly what clearing alone leaves. */
  lemma ClearUndoesSet(bps: Breakpoints, which: Label, now: real)
    ensures ClearMarker(SetMarker(bps, which, now), which) == ClearMarker(bps, which)
  {
  }

  /** `i` is the index `custom.find(b => b.id === id)` picks: the first entry with that id. */
  predicate IsFirstWithId(s: seq<Breakpoint>, id: string, i: int) {
    0 <= i < |s| && s[i].id == id && forall j :: 0 <= j < i ==> s[j].id != id
  }

  /** `custom.find(b => b.id === id)`, as the index of the entry found. */
  function FindById(s: seq<Breakpoint>, id: string): (r: Option<nat>)
    ensures r.Some? ==> IsFirstWithId(s, id, r.value)
    ensures r.None? ==> forall i :: 0 <= i < |s| ==> s[i].id != id
  {
    if |s| == 0 then None
    else if s[0].id == id then Some(0)
    else match FindById(s[1..], id)
      case None => None
      case Some(k) => Some(k + 1)
  }

  /** Only the ids decide what `find` returns. */
  lemma FindByIdSeesOnlyIds(s: seq<Breakpoint>, t: seq<Breakpoint>, id: string)
    requires |s| == |t|
    requires forall i :: 0 <= i < |s| ==> s[i].id == t[i].id
    ensures FindById(s, id) == FindById(t, id)
  {
    match FindById(s, id)
    case None =>
    case Some(k) =>
      assert IsFirstWithId(t, id, k);
  }

  /** `jumpToCustom(id)`: the time of the first entry with that id, or no seek. */
  function CustomSeek(s: seq<Breakpoint>, id: string): (seek: Option<real>)
    ensures seek.None? <==> forall i :: 0 <= i < |s| ==> s[i].id != id
    ensures forall i :: IsFirstWithId(s, id, i) ==> seek == Some(s[i].time)
  {
    match FindById(s, id)
    case None => None
    case Some(k) =>
      assert forall i :: IsFirstWithId(s, id, i) ==> i == k;
      Some(s[k].time)
  }

  /** No two entries share an id. */
  predicate UniqueIds(s: seq<Breakpoint>) {
    forall i, j :: 0 <= i < j < |s| ==> s[i].id != s[j].id
  }

  /**
    No entry has id `id`: the case in which `find` comes back empty, and what
    `crypto.randomUUID()` is relied on to give for a new entry.
   */
  predicate NoEntryWithId(s: seq<Breakpoint>, id: string) {
    forall i :: 0 <= i < |s| ==> s[i].id != id
  }

  /** `breakpoints.custom.push({id, time: now, name: 'New Breakpoint'})` (`addBreakpoint`). */
  function AddCustom(bps: Breakpoints, id: string, now: real): (r: Breakpoints)
    ensures r.A == bps.A && r.B == bps.B
    ensures |r.custom| == |bps.custom| + 1
    ensures forall i :: 0 <= i < |bps.custom| ==> r.custom[i] == bps.custom[i]
    ensures r.custom[|bps.custom|] == Breakpoint(id, now, NewBreakpointName)
  {
    bps.(custom := bps.custom + [Breakpoint(id, now, NewBreakpointName)])
  }

  /** A fresh id keeps the ids unique. */
  lemma AddKeepsIdsUnique(bps: Breakpoints, id: string, now: real)
    requires UniqueIds(bps.custom) && NoEntryWithId(bps.custom, id)
    ensures UniqueIds(AddCustom(bps, id, now).custom)
  {
  }

  /** Jumping to the entry just added seeks to the position it was added at. */
  lemma {:induction false} JumpToAdded(bps: Breakpoints, id: string, now: real)
    requires NoEntryWithId(bps.custom, id)
    ensures CustomSeek(AddCustom(bps, id, now).custom, id) == Some(now)
  {
    var s := AddCustom(bps, id, now).custom;
    assert IsFirstWithId(s, id, |bps.custom|);
  }

  /** Adding an entry does not change where any other id jumps to. */
  lemma {:induction false} AddKeepsOtherJumps(bps: Breakpoints, id: string, now: real, other: string)
    requires other != id
    ensures CustomSeek(AddCustom(bps, id, now).custom, other) == CustomSeek(bps.custom, other)
  {
    var s := AddCustom(bps, id, now).custom;
    match FindById(bps.custom, other)
    case None =>
    case Some(k) =>
      assert IsFirstWithId(s, other, k);
  }

  /**
    `bp.name = name` on the entry `find` returns (`renameBreakpoint`); the
    record is unchanged when no entry has that id.
   */
  function RenameCustom(bps: Breakpoints, id: string, name: string): (r: Breakpoints)
    ensures r.A == bps.A && r.B == bps.B
    ensures |r.custom| == |bps.custom|
    ensures forall i :: 0 <= i < |r.custom| ==>
              r.custom[i].id == bps.custom[i].id && r.custom[i].time == bps.custom[i].time
    ensures forall i :: IsFirstWithId(bps.custom, id, i) ==> r.custom[i].name == name
    ensures forall i :: 0 <= i < |r.custom| && !IsFirstWithId(bps.custom, id, i) ==>
              r.custom[i] == bps.custom[i]
    ensures FindById(bps.custom, id).None? ==> r == bps
  {
    match FindById(bps.custom, id)
    case None => bps
    case Some(k) =>
      assert forall i :: IsFirstWithId(bps.custom, id, i) ==> i == k;
      bps.(custom := bps.custom[k := bps.custom[k].(name := name)])
  }

  /** Renaming keeps ids unique, since no id changes. */
  lemma RenameKeepsIdsUnique(bps: Breakpoints, id: string, name: string)
    requires UniqueIds(bps.custom)
    ensures UniqueIds(RenameCustom(bps, id, name).custom)
  {
  }

  /** Renaming never changes where any id jumps to. */
  lemma RenameKeepsJumps(bps: Breakpoints, id: string, name: string, target: string)
    ensures CustomSeek(RenameCustom(bps, id, name).custom, target) == CustomSeek(bps.custom, target)
  {
    var s := RenameCustom(bps, id, name).custom;
    FindByIdSeesOnlyIds(bps.custom, s, target);
  }
}
