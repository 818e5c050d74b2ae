/**
  The script's module-level mutable state and the handlers that change it.

  `loopEnabled`, `currentVideoId` and `breakpoints` are the three globals; the
  cookie jar is the fourth piece of state the handlers write. The player is
  not modelled: `getCurrentTime()` is the parameter `now`, and a call of
  `player.seekTo(x)` is the returned value `Some(x)`. `crypto.randomUUID()` is
  the parameter `id`, which the caller guarantees to be unused.

  `Valid()` is the invariant every handler keeps: a loaded video id is a
  well-formed identifier, and the live record is exactly what reloading that
  video from the cookie jar would produce, so no change is ever left unsaved.
 */
module Session {
  import opened Wrappers
  import opened VideoUrl
  import opened Marks
  import opened Persistence
  import LoopTick

  class Session {
    var loopEnabled: bool
    var currentVideoId: Option<string>
    var breakpoints: Breakpoints
    var cookies: Store

    ghost predicate Valid()
      reads this
    {
      currentVideoId.Some? ==>
        IsVideoId(currentVideoId.value) && breakpoints == Load(cookies, currentVideoId.value)
    }

    /** Page load: loop off, no video, empty record; the jar holds what earlier visits stored. */
    constructor (jar: Store)
      ensures Valid()
      ensures !loopEnabled && currentVideoId == None && breakpoints == Empty && cookies == jar
    {
      loopEnabled := false;
      currentVideoId := None;
      breakpoints := Empty;
      cookies := jar;
    }

    /** `saveState()`. */
    method SaveState()
      modifies this`cookies
      ensures cookies == Save(old(cookies), currentVideoId, breakpoints)
      ensures currentVideoId.Some? ==> Load(cookies, currentVideoId.value) == breakpoints
    {
      if currentVideoId.None? {
        return;
      }
      cookies := cookies[StorageKey(currentVideoId.value) := breakpoints];
    }

    /** `loadState()`; it is only reached from `loadVideo`, after the id is set. */
    method LoadState()
      requires currentVideoId.Some? && IsVideoId(currentVideoId.value)
      modifies this`breakpoints
      ensures breakpoints == Load(cookies, currentVideoId.value)
      ensures Valid()
    {
      var key := StorageKey(currentVideoId.value);
      if key in cookies {
        breakpoints := cookies[key];
      } else {
        breakpoints := Empty;
      }
    }

    /** `loadVideo()` with the text of the URL field as `url`. */
    method LoadVideo(url: string)
      requires Valid()
      modifies this`currentVideoId, this`breakpoints
      ensures Valid()
      ensures ExtractVideoId(url).None? ==>
                currentVideoId == old(currentVideoId) && breakpoints == old(breakpoints)
      ensures ExtractVideoId(url).Some? ==>
                currentVideoId == ExtractVideoId(url) && breakpoints == Load(cookies, ExtractVideoId(url).value)
    {
      var id := ExtractVideoId(url);
      if id.None? {
        return;
      }
      currentVideoId := id;
      LoadState();
    }

    /** `setAB(label)`: the current position becomes the marker, then the record is saved. */
    method SetAB(which: Label, now: real)
      requires Valid()
      modifies this`breakpoints, this`cookies
      ensures Valid()
      ensures breakpoints == SetMarker(old(breakpoints), which, now)
      ensures cookies == Save(old(cookies), currentVideoId, breakpoints)
    {
      match which {
        case A => breakpoints := breakpoints.(A := Some(now));
        case B => breakpoints := breakpoints.(B := Some(now));
      }
      SaveState();
    }

    /** `clearAB(label)`: the marker becomes null, then the record is saved. */
    method ClearAB(which: Label)
      requires Valid()
      modifies this`breakpoints, this`cookies
      ensures Valid()
      ensures breakpoints == ClearMarker(old(breakpoints), which)
      ensures cookies == Save(old(cookies), currentVideoId, breakpoints)
    {
      match which {
        case A => breakpoints := breakpoints.(A := None);
        case B => breakpoints := breakpoints.(B := None);
      }
      SaveState();
    }

    /** `jumpToAB(label)`: a seek to the marker, or none while it is null. */
    method JumpToAB(which: Label) returns (seek: Option<real>)
      ensures seek.Some? <==> Marker(breakpoints, which).Some?
      ensures seek.Some? ==> seek.value == Marker(breakpoints, which).value
    {
      var mark := if which == A then breakpoints.A else breakpoints.B;
      if mark.Some? {
        seek := Some(mark.value);
      } else {
        seek := None;
      }
    }

    /** `toggleLoop()`: only the flag; starting and stopping the timer is not modelled. */
    method ToggleLoop()
      requires Valid()
      modifies this`loopEnabled
      ensures Valid()
      ensures loopEnabled == !old(loopEnabled)
    {
      loopEnabled := !loopEnabled;
    }

    /** One tick of the interval started by `startLoop()`, at position `now`. */
    method LoopStep(now: real) returns (seek: Option<real>)
      ensures seek == LoopTick.Tick(loopEnabled, breakpoints.A, breakpoints.B, now)
      ensures seek.Some? ==> seek == breakpoints.A && !LoopTick.InRegion(breakpoints.A.value, breakpoints.B.value, now)
      ensures !loopEnabled ==> seek.None?
    {
      if !loopEnabled || breakpoints.A.None? || breakpoints.B.None? {
        return None;
      }
      var t := now;
      if t >= breakpoints.B.value || t < breakpoints.A.value {
        seek := Some(breakpoints.A.value);
      } else {
        seek := None;
      }
    }

    /** `addBreakpoint()`: a new entry at the current position is appended, then the record is saved. */
    method AddBreakpoint(id: string, now: real)
      requires Valid()
      requires NoEntryWithId(breakpoints.custom, id)
      modifies this`breakpoints, this`cookies
      ensures Valid()
      ensures breakpoints == AddCustom(old(breakpoints), id, now)
      ensures cookies == Save(old(cookies), currentVideoId, breakpoints)
    {
      var bp := Breakpoint(id, now, NewBreakpointName);
      breakpoints := breakpoints.(custom := breakpoints.custom + [bp]);
      SaveState();
    }

    /** `jumpToCustom(id)`: a seek to the first entry with that id, or none. */
    method JumpToCustom(id: string) returns (seek: Option<real>)
      ensures seek.None? <==> NoEntryWithId(breakpoints.custom, id)
      ensures forall i :: IsFirstWithId(breakpoints.custom, id, i) ==> seek == Some(breakpoints.custom[i].time)
    {
      var found := FindById(breakpoints.custom, id);
      if found.Some? {
        seek := Some(breakpoints.custom[found.value].time);
      } else {
        seek := None;
      }
    }

    /**
      `renameBreakpoint(id, input)` with `input.value` as `name`: the entry is
      renamed and the record saved; nothing happens when no entry has that id.
     */
    method RenameBreakpoint(id: string, name: string)
      requires Valid()
      modifies this`breakpoints, this`cookies
      ensures Valid()
      ensures breakpoints == RenameCustom(old(breakpoints), id, name)
      ensures FindById(old(breakpoints).custom, id).Some? ==>
                cookies == Save(old(cookies), currentVideoId, breakpoints)
      ensures FindById(old(breakpoints).custom, id).None? ==>
                cookies == old(cookies) && breakpoints == old(breakpoints)
    {
      var found := FindById(breakpoints.custom, id);
      if found.Some? {
        var k := found.value;
        breakpoints := breakpoints.(custom := breakpoints.custom[k := breakpoints.custom[k].(name := name)]);
        SaveState();
      }
    }
  }

  /**
    A marker set on one video survives switching to another video and back:
    the cookie written by `setAB` is what `loadState` finds on return.
   */
  method MarkerSurvivesVideoSwitch(jar: Store, first: string, second: string, now: real)
    returns (restored: Option<real>)
    requires ExtractVideoId(first).Some?
    ensures restored == Some(now)
  {
    var s := new Session(jar);
    s.LoadVideo(first);
    s.SetAB(A, now);
    s.LoadVideo(second);
    s.LoadVideo(first);
    restored := s.JumpToAB(A);
  }
}
