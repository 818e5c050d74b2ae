/**
  Extraction of a video identifier from a pasted URL (`extractVideoId`).

  The script matches `/(?:v=|youtu\.be\/)([\w-]{11})/` and returns the capture
  group. The regular expression is written out here as an explicit scan: the
  match is the leftmost position where `v=` or `youtu.be/` begins and eleven
  identifier characters follow. At one position the `v=` alternative is tried
  first, as the regular expression engine does.
 */
module VideoUrl {
  import opened Wrappers

  /** Length of a video identifier (the `{11}` quantifier). */
  const IdLength: nat := 11

  /** `[\w-]` without the unicode flag: ASCII letters, digits, `_` and `-`. */
  predicate IsIdChar(c: char) {
    ('a' <= c <= 'z') || ('A' <= c <= 'Z') || ('0' <= c <= '9') || c == '_' || c == '-'
  }

  predicate IsVideoId(s: string) {
    |s| == IdLength && forall i :: 0 <= i < |s| ==> IsIdChar(s[i])
  }

  /** `p` occurs in `url` starting at position `i`. */
  predicate HasPrefixAt(url: string, i: nat, p: string) {
    i + |p| <= |url| && url[i..i + |p|] == p
  }

  /** Eleven identifier characters start at position `j`. */
  predicate IdAt(url: string, j: nat) {
    j + IdLength <= |url| && IsVideoId(url[j..j + IdLength])
  }

  predicate VParamMatchAt(url: string, i: nat) {
    HasPrefixAt(url, i, "v=") && IdAt(url, i + 2)
  }

  predicate ShortLinkMatchAt(url: string, i: nat) {
    HasPrefixAt(url, i, "youtu.be/") && IdAt(url, i + 9)
  }

  /** The regular expression matches with its match starting at position `i`. */
  predicate MatchAt(url: string, i: nat) {
    VParamMatchAt(url, i) || ShortLinkMatchAt(url, i)
  }

  /** Where the capture group of a match at `i` begins (the first alternative wins). */
  function CaptureStart(url: string, i: nat): (j: nat)
    requires MatchAt(url, i)
    ensures IdAt(url, j)
  {
    if VParamMatchAt(url, i) then i + 2 else i + 9
  }

  /** The capture group of a match at `i`. */
  function CaptureAt(url: string, i: nat): string
    requires MatchAt(url, i)
  {
    var j := CaptureStart(url, i);
    url[j..j + IdLength]
  }

  /** `k` is the leftmost position at which the regular expression matches. */
  predicate IsLeftmostMatch(url: string, k: nat) {
    k < |url| && MatchAt(url, k) && forall j :: 0 <= j < k ==> !MatchAt(url, j)
  }

  /** Scan from position `i` for the first match. */
  function FirstMatchFrom(url: string, i: nat): (r: Option<nat>)
    requires i <= |url|
    decreases |url| - i
    ensures r.Some? ==> i <= r.value < |url| && MatchAt(url, r.value)
    ensures r.Some? ==> forall k :: i <= k < r.value ==> !MatchAt(url, k)
    ensures r.None? ==> forall k :: i <= k < |url| ==> !MatchAt(url, k)
  {
    if i == |url| then None
    else if MatchAt(url, i) then Some(i)
    else FirstMatchFrom(url, i + 1)
  }

  /**
    `extractVideoId(url)`: the identifier after the leftmost match, or `None`
    (the script's `null`) when the expression matches nowhere.
   */
  function ExtractVideoId(url: string): (r: Option<string>)
    ensures r.Some? ==> IsVideoId(r.value)
    ensures r.None? <==> forall k :: 0 <= k < |url| ==> !MatchAt(url, k)
    ensures forall k :: IsLeftmostMatch(url, k) ==> r == Some(CaptureAt(url, k))
  {
    match FirstMatchFrom(url, 0)
    case None => None
    case Some(k) =>
      assert IsLeftmostMatch(url, k);
      Some(CaptureAt(url, k))
  }

  /** The script's `m ? m[1] : null`: an identifier comes back exactly when some match is leftmost. */
  lemma {:induction false} ExtractFindsLeftmost(url: string)
    ensures ExtractVideoId(url).Some? <==> exists k :: IsLeftmostMatch(url, k)
  {
    match FirstMatchFrom(url, 0)
    case None =>
    case Some(k) =>
      assert IsLeftmostMatch(url, k);
  }

  /** The short-link form yields the identifier after `youtu.be/`. */
  lemma ShortLinkExample()
    ensures ExtractVideoId("https://youtu.be/dQw4w9WgXcQ") == Some("dQw4w9WgXcQ")
  {
    var url := "https://youtu.be/dQw4w9WgXcQ";
    assert ShortLinkMatchAt(url, 8) by {
      assert url[8..17] == "youtu.be/";
      assert url[17..28] == "dQw4w9WgXcQ";
    }
    forall j | 0 <= j < 8 ensures !MatchAt(url, j) {
      assert url[j] in "https://";
      NoMatchAtOtherChar(url, j);
    }
    assert !VParamMatchAt(url, 8) by {
      assert url[8] == 'y';
    }
    assert IsLeftmostMatch(url, 8);
    assert CaptureAt(url, 8) == "dQw4w9WgXcQ";
  }

  /** No match can start at a character other than `v` or `y`. */
  lemma NoMatchAtOtherChar(url: string, j: nat)
    requires j < |url| && url[j] != 'v' && url[j] != 'y'
    ensures !MatchAt(url, j)
  {
    assert j + 2 <= |url| ==> url[j..j + 2][0] == url[j];
    assert j + 9 <= |url| ==> url[j..j + 9][0] == url[j];
  }

  const WatchLink := "https://www.youtube.com/watch?v=dQw4w9WgXcQ&t=30"

  lemma WatchLinkHasNoEarlierMatch(j: nat)
    requires j < 30
    ensures !MatchAt(WatchLink, j)
  {
    var url := WatchLink;
    if j == 12 {
      assert url[12..21][5] == url[17] == 'b';
      assert url[12..14][0] == 'y';
    } else {
      if j < 12 {
        assert url[j] in "https://www.";
      } else {
        assert url[j] in "outube.com/watch?";
      }
      NoMatchAtOtherChar(url, j);
    }
  }

  /** The `watch?v=` form yields the identifier after `v=`; the trailing `&t=30` is ignored. */
  lemma WatchLinkExample()
    ensures ExtractVideoId(WatchLink) == Some("dQw4w9WgXcQ")
  {
    var url := WatchLink;
    forall j | 0 <= j < 30 ensures !MatchAt(url, j) {
      WatchLinkHasNoEarlierMatch(j);
    }
    assert VParamMatchAt(url, 30) by {
      assert url[30..32] == "v=";
      assert url[32..43] == "dQw4w9WgXcQ";
    }
    assert IsLeftmostMatch(url, 30);
    assert CaptureAt(url, 30) == "dQw4w9WgXcQ";
  }

  /** A URL with neither prefix yields no identifier. */
  lemma NoIdExample()
    ensures ExtractVideoId("https://example.com/video") == None
  {
    var url := "https://example.com/video";
    assert |url| == 25;
    forall j | 0 <= j < |url| ensures !MatchAt(url, j) {
      if j < 13 {
        assert url[j] in "https://examp";
        NoMatchAtOtherChar(url, j);
      }
    }
  }
}
