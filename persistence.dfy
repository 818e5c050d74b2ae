/**
  Persistence of the `breakpoints` record in the browser's cookie jar
  (`saveState` and `loadState`). One cookie per video holds the record under
  the name `jazzTranscriber::<videoId>`. The jar is a map from cookie name to
  the stored record: serialising and deserialising the record (JSON, then URI
  encoding) are taken to be a lossless pair and are not spelled out.
 */
module Persistence {
  import opened Wrappers
  import opened Marks

  /** The cookie jar, seen as the records it holds. */
  type Store = map<string, Breakpoints>

  const KeyPrefix := "jazzTranscriber::"

  /** The cookie name for one video. */
  function StorageKey(videoId: string): (k: string)
    ensures |k| == |KeyPrefix| + |videoId|
    ensures k[..|KeyPrefix|] == KeyPrefix && k[|KeyPrefix|..] == videoId
  {
    KeyPrefix + videoId
  }

  /** Different videos never share a cookie. */
  lemma StorageKeyInjective(x: string, y: string)
    requires StorageKey(x) == StorageKey(y)
    ensures x == y
  {
    assert x == StorageKey(x)[|KeyPrefix|..];
  }

  /**
    `saveState()`: nothing happens while no video is loaded; otherwise the
    video's cookie is (over)written with the whole record.
   */
  function Save(store: Store, video: Option<string>, bps: Breakpoints): (r: Store)
    ensures video.None? ==> r == store
    ensures video.Some? ==> r.Keys == store.Keys + {StorageKey(video.value)}
    ensures video.Some? ==> r[StorageKey(video.value)] == bps
    ensures forall k :: k in store && (video.None? || k != StorageKey(video.value)) ==> k in r && r[k] == store[k]
  {
    match video
    case None => store
    case Some(id) => store[StorageKey(id) := bps]
  }

  /**
    `loadState()` for the loaded video: the stored record if its cookie
    exists, otherwise the empty record.
   */
  function Load(store: Store, videoId: string): (r: Breakpoints)
    ensures StorageKey(videoId) !in store ==> r == Empty
    ensures StorageKey(videoId) in store ==> r == store[StorageKey(videoId)]
  {
    var key := StorageKey(videoId);
    if key in store then store[key] else Empty
  }

  /** Reloading a video right after saving it gives back the saved record. */
  lemma LoadAfterSave(store: Store, videoId: string, bps: Breakpoints)
    ensures Load(Save(store, Some(videoId), bps), videoId) == bps
  {
  }

  /** Saving one video leaves what every other video reloads to unchanged. */
  lemma SaveKeepsOtherVideos(store: Store, videoId: string, other: string, bps: Breakpoints)
    requires other != videoId
    ensures Load(Save(store, Some(videoId), bps), other) == Load(store, other)
  {
    if StorageKey(other) == StorageKey(videoId) {
      StorageKeyInjective(other, videoId);
    }
  }

  /** Saving twice in a row is the same as saving the second record once. */
  lemma SaveOverwrites(store: Store, video: Option<string>, first: Breakpoints, second: Breakpoints)
    ensures Save(Save(store, video, first), video, second) == Save(store, video, second)
  {
  }
}
