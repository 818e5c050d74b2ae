# A/B loop and breakpoint session of the YouTube transcriber, in Dafny

`script.js` drives an embedded YouTube player for transcribing music. The user
pastes a video URL, marks an A and a B position, and loops playback between
them. They can also drop named bookmarks ("custom breakpoints") and jump back to
them. Everything is kept per video in a cookie named `jazzTranscriber::<videoId>`.

This project models the logic of that script:

- `VideoUrl` (`video_url.dfy`): `extractVideoId`. The regular expression
  `/(?:v=|youtu\.be\/)([\w-]{11})/` is written out as an explicit left-to-right
  scan, and the result is proved to be the capture of the leftmost match.
- `TimeFormat` (`time_format.dfy`): `formatTime` over exact non-negative reals.
  It has an inverse `ParseClock`, and reading a formatted time back gives the
  whole seconds of the position.
- `LoopTick` (`loop_tick.dfy`): the decision taken on each tick of the loop
  monitor. It either requests no seek or a seek to A.
- `Marks` (`marks.dfy`): the `breakpoints` record `{A, B, custom}` as a value,
  with one function per change a handler makes to it.
- `Persistence` (`persistence.dfy`): the cookie name, `saveState` and `loadState`
  over a cookie jar seen as a map from cookie name to stored record.
- `Session` (`session.dfy`): the class `Session` holds the script's globals
  `loopEnabled`, `currentVideoId` and `breakpoints`, plus the cookie jar. It has
  one method per handler. Every method keeps the invariant `Valid()`: once a
  video is loaded, the live record equals what reloading that video from the
  jar would give, so no edit is ever left unsaved (with the player assumed
  ready, see "Left out").

The player is a parameter and a result here. `player.getCurrentTime()` is the
argument `now`, and `player.seekTo(x)` is the returned value `Some(x)`.
`crypto.randomUUID()` is the argument `id`, which must not already be in the list.

The model fixes these conventions, each as `script.js` has it:
- clearing a marker makes it `null` (`None`), not zero;
- only the `v=` and `youtu.be/` URL shapes are recognised;
- a new breakpoint is called `New Breakpoint` and gets a random id, not
  `BP <n>` with a counter;
- the loop seeks whenever both markers are set, even when `B <= A` (then every
  tick seeks);
- the cookie holds the whole `{A, B, custom}` record of one video. There is no
  title cache and no list of visited videos.

## Model

| member | source | states |
|---|---|---|
| VideoUrl.FirstMatchFrom | script.js:162 | the scan returns the first position at or after `i` where `v=` or `youtu.be/` is followed by 11 `[\w-]` characters; `None` means there is no such position |
| VideoUrl.ExtractVideoId | script.js:161-164 | the result is `None` exactly when the expression matches nowhere; otherwise it is an 11-character `[A-Za-z0-9_-]` string, the capture at the leftmost match, with `v=` preferred over `youtu.be/` at one position |
| VideoUrl.ExtractFindsLeftmost | script.js:162-163 | an identifier is returned exactly when some leftmost match exists |
| VideoUrl.ShortLinkExample | script.js:161-164 | `https://youtu.be/dQw4w9WgXcQ` yields `dQw4w9WgXcQ` |
| VideoUrl.WatchLinkExample | script.js:161-164 | `https://www.youtube.com/watch?v=dQw4w9WgXcQ&t=30` yields `dQw4w9WgXcQ`, although `youtube` occurs earlier in the URL |
| VideoUrl.NoIdExample | script.js:161-164 | `https://example.com/video` yields no identifier |
| TimeFormat.Decimal | script.js:169 | the minutes text is a non-empty run of decimal digits without a leading zero, one digit exactly for values below 10 |
| TimeFormat.PadTwo | script.js:169 | `padStart(2, '0')` yields two characters for inputs of at most two, keeps the input as its suffix, and fills only with `0` |
| TimeFormat.Minutes | script.js:167 | `Math.floor(s / 60)`: the whole minutes, the largest `m` with `60 * m <= s`; `ClockFields` states what the two fields together give |
| TimeFormat.Seconds | script.js:168 | `Math.floor(s % 60)`: the floor of what remains of `s` after the whole minutes; `ClockFields` bounds it to 0..59 |
| TimeFormat.ClockFields | script.js:167-168 | the seconds field lies in 0..59 and `minutes * 60 + seconds` is the whole seconds of `s` |
| TimeFormat.FormatTime | script.js:166-170 | the text is the decimal minutes, a colon, then the padded seconds, with the colon third from the end |
| TimeFormat.DecimalRoundTrip | script.js:169 | reading the decimal text of `n` back gives `n` |
| TimeFormat.PaddedSecondsRoundTrip | script.js:169 | a padded seconds field below 60 is two characters and reads back as itself |
| TimeFormat.FormatTimeRoundTrip | script.js:166-170 | reading `formatTime(s)` back gives `floor(s)`: no whole second is lost |
| TimeFormat.FormatWholeSeconds | script.js:166-170 | for a whole number of seconds `n`, reading `formatTime(n)` back gives `n` |
| TimeFormat.FormatZero | script.js:166-170 | `formatTime(0)` is `0:00` |
| TimeFormat.FormatFractional | script.js:166-170 | `formatTime(75.5)` is `1:15` |
| TimeFormat.FormatTenMinutes | script.js:166-170 | `formatTime(600)` is `10:00` |
| LoopTick.Tick | script.js:83-88 | a tick seeks exactly when the loop is enabled, both markers are set and `t` is outside `[A, B)`, and then it seeks to A |
| LoopTick.IdleWithoutBothMarkers | script.js:83 | a disabled loop or a missing marker never seeks |
| LoopTick.InvertedMarkersAlwaysSeek | script.js:86-87 | with `B <= A` every enabled tick seeks to A |
| LoopTick.SeekLandsInRegion | script.js:86-87 | with `A < B` the position a seek lands on does not trigger another seek |
| LoopTick.TenToTwentyExample | script.js:83-88 | with A = 10 and B = 20, positions 9, 20 and 25 seek to 10 and position 15 does not |
| Marks.Marker | script.js:44-45 | `breakpoints[label]`: the A field for label A and the B field for label B; `SetMarker`, `ClearMarker` and `JumpToAB` are stated through it |
| Marks.SetMarker | script.js:38 | the named marker holds `now`; the other marker and the custom list are unchanged |
| Marks.ClearMarker | script.js:50 | the named marker is null; the other marker and the custom list are unchanged |
| Marks.ClearIdempotent | script.js:49-53 | clearing twice equals clearing once |
| Marks.ClearUndoesSet | script.js:37-53 | setting then clearing a marker equals clearing it alone |
| Marks.FindById | script.js:107 | `find` returns the first entry whose id matches, or nothing when no id matches |
| Marks.FindByIdSeesOnlyIds | script.js:107 | two lists with the same ids at every index give the same `find` result |
| Marks.CustomSeek | script.js:106-109 | the seek goes to the time of the first entry with the id, and there is no seek exactly when no entry has it |
| Marks.AddCustom | script.js:96-101 | the list grows by one entry at the end, with the given id, the current time and name `New Breakpoint`; earlier entries and both markers are unchanged |
| Marks.AddKeepsIdsUnique | script.js:97 | with a fresh id the entries' ids stay pairwise distinct |
| Marks.JumpToAdded | script.js:95-109 | jumping to a breakpoint just added seeks to the position it was added at |
| Marks.AddKeepsOtherJumps | script.js:95-109 | adding a breakpoint does not change where any other id jumps to |
| Marks.RenameCustom | script.js:112-114 | only the name of the first entry with the id changes; length, ids, times, other entries and markers are unchanged; with no match nothing changes |
| Marks.RenameKeepsIdsUnique | script.js:111-117 | renaming keeps the ids pairwise distinct |
| Marks.RenameKeepsJumps | script.js:106-117 | renaming never changes where any id jumps to |
| Persistence.StorageKey | script.js:144 | the cookie name is `jazzTranscriber::` followed by the video id |
| Persistence.StorageKeyInjective | script.js:144 | two videos never share a cookie name |
| Persistence.Save | script.js:142-145 | without a loaded video the jar is unchanged; otherwise only the video's cookie is written, and it holds the whole record |
| Persistence.Load | script.js:147-154 | the video's stored record if its cookie exists, else `{A: null, B: null, custom: []}` |
| Persistence.LoadAfterSave | script.js:142-154 | loading right after saving gives back the saved record |
| Persistence.SaveKeepsOtherVideos | script.js:142-154 | saving one video leaves what every other video loads unchanged |
| Persistence.SaveOverwrites | script.js:142-145 | two saves in a row leave the jar as the second save alone |
| Session.Session.constructor | script.js:1-10 | the initial state: loop off, no video, both markers null, empty list |
| Session.Session.SaveState | script.js:142-145 | the jar becomes `Save` of the old jar; afterwards the loaded video reloads to the live record |
| Session.Session.LoadState | script.js:147-156 | the live record becomes the stored record, or the empty record, of the loaded video |
| Session.Session.LoadVideo | script.js:23-32 | a URL without an identifier changes nothing; otherwise the id becomes current and the record is loaded for it |
| Session.Session.SetAB | script.js:37-41 | the record becomes `SetMarker` of the old one and is saved; `Valid()` is kept |
| Session.Session.ClearAB | script.js:49-53 | the record becomes `ClearMarker` of the old one and is saved; `Valid()` is kept |
| Session.Session.JumpToAB | script.js:43-47 | a seek to the marker is requested exactly when it is not null |
| Session.Session.ToggleLoop | script.js:65-66 | the loop flag flips and nothing else changes |
| Session.Session.LoopStep | script.js:82-89 | the tick answer is `LoopTick.Tick` of the live flag and markers; a seek lands on A, from outside `[A, B)`, and a disabled loop never seeks |
| Session.Session.AddBreakpoint | script.js:95-104 | the record becomes `AddCustom` of the old one and is saved; `Valid()` is kept |
| Session.Session.JumpToCustom | script.js:106-109 | no seek exactly when no entry has the id; otherwise a seek to the first such entry's time |
| Session.Session.RenameBreakpoint | script.js:111-117 | the record becomes `RenameCustom` of the old one; it is saved when an entry matched, and neither record nor jar changes otherwise |
| Session.MarkerSurvivesVideoSwitch | script.js:23-53 | an A marker set on one video is restored after loading another video and coming back |

## Left out

- The YouTube player (`onYouTubeIframeAPIReady`, `loadVideoById`, `seekTo`) is external. Only its current position (an argument) and seek requests (a result) are modelled.
- The player is assumed to exist when a handler runs. In the script every handler that uses `player` throws a TypeError until `onYouTubeIframeAPIReady` (script.js:15-20) has created it. Then `setAB` and `addBreakpoint` throw before changing anything. `loadVideo` is worse: it sets `currentVideoId` (script.js:28) and throws at `player.loadVideoById` (script.js:29) before `loadState` runs. The old record is then tied to the new id, and the next save stores it under that id. So `Valid()` does not hold for the script in that window.
- `setInterval`/`clearInterval` in `startLoop` and `toggleLoop` are timer scheduling. The model has one tick as one call and does not model when ticks fire.
- DOM work is rendering only: `renderBreakpoints`, `updateABDisplays`, the button text and classes in `toggleLoop`, and reading the URL field and the rename input.
- `JSON.stringify`/`JSON.parse`, `encodeURIComponent`/`decodeURIComponent` and the splitting of `document.cookie` are library calls. The jar holds decoded records, and encoding followed by decoding is taken to give back the same record.
- A cookie that fails to parse makes `JSON.parse` throw in the script. This is not modelled.
- The cookie's `max-age` expiry and the browser's cookie size limit are not modelled. A cookie the browser silently drops would break `Valid()`.
- `crypto.randomUUID()` is a random source. The id is an argument, and the absence of an entry with that id is a precondition of `Session.Session.AddBreakpoint`.
- Session.Session.AddBreakpoint: requires the new id to be unused, which the script gets from `randomUUID` with overwhelming probability rather than by a check.
- Session.Session.LoadState: requires a loaded, well-formed video id. Its only caller, `loadVideo`, sets one first; the script would otherwise look up the cookie for `null`.
- Floating point is not modelled: positions are exact reals. `formatTime` is modelled only for non-negative positions. Negative, non-finite and huge positions, where `toString` switches to exponent notation, are not covered.
- `setAB`, `clearAB` and `jumpToAB` are modelled only for the labels `'A'` and `'B'` that the page passes. Any other label would add a new property to the record in the script.
- A renamed breakpoint is changed in place in the script (`bp.name = ...`). The model replaces the list entry. No other reference to that object survives a handler, so no aliasing is lost.
