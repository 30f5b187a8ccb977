/**
 * Extraction of a YouTube video identifier from a URL-shaped string: the
 * search `(?:v=|youtu\.be/|embed/)([\w-]{11})`, written as an explicit scan
 * over start positions instead of a regular-expression engine.
 */
module VideoId {
  import opened Wrappers

  /** Length of a video identifier: the pattern's `{11}`. */
  const IdLength: nat := 11

  /** The three alternatives of the pattern, in the order they are tried. */
  const Markers: seq<string> := ["v=", "youtu.be/", "embed/"]

  /** The class `[\w-]`, restricted to ASCII: letters, digits, `_` and `-`. */
  predicate IsIdChar(c: char) {
    ('a' <= c <= 'z') || ('A' <= c <= 'Z') || ('0' <= c <= '9') || c == '_' || c == '-'
  }

  predicate AllIdChars(s: string) {
    forall i :: 0 <= i < |s| ==> IsIdChar(s[i])
  }

  /** `s` starts with `IdLength` characters of the identifier class (more may follow). */
  predicate IdFollows(s: string) {
    IdLength <= |s| && AllIdChars(s[..IdLength])
  }

  /** The identifier right after marker `m` at the start of `s`, if there is one. */
  function IdAfterMarker(s: string, m: string): (r: Option<string>)
    ensures r.Some? ==> m + r.value <= s && |r.value| == IdLength && AllIdChars(r.value)
    ensures r.None? <==> !(m <= s) || !IdFollows(s[|m|..])
  {
    if m <= s && IdFollows(s[|m|..]) then Some(s[|m|..][..IdLength]) else None
  }

  /** The alternatives `ms` tried in order at the start of `s`: the first followed by an identifier wins. */
  function MatchFirst(s: string, ms: seq<string>): (r: Option<string>)
    ensures r.Some? ==> |r.value| == IdLength && AllIdChars(r.value)
  {
    if ms == [] then None
    else
      var v := IdAfterMarker(s, ms[0]);
      if v.Some? then v else MatchFirst(s, ms[1..])
  }

  /** The pattern anchored at the start of `s`. */
  function MatchHere(s: string): (r: Option<string>)
    ensures r.Some? ==> |r.value| == IdLength && AllIdChars(r.value)
  {
    MatchFirst(s, Markers)
  }

  /** The anchored pattern spelled out: `v=` first, then `youtu.be/`, then `embed/`. */
  lemma MatchHereCases(s: string)
    ensures MatchHere(s) == if IdAfterMarker(s, Markers[0]).Some? then IdAfterMarker(s, Markers[0])
                            else if IdAfterMarker(s, Markers[1]).Some? then IdAfterMarker(s, Markers[1])
                            else IdAfterMarker(s, Markers[2])
  {
    var m1 := Markers[1..];
    var m2 := m1[1..];
    assert m1[0] == Markers[1] && m2[0] == Markers[2] && m2[1..] == [];
    assert MatchFirst(s, m2) == IdAfterMarker(s, Markers[2]);
    assert MatchFirst(s, m1) == if IdAfterMarker(s, Markers[1]).Some? then IdAfterMarker(s, Markers[1]) else MatchFirst(s, m2);
  }

  /**
   * What an anchored match means: a match is a marker directly followed by the
   * 11 identifier characters it returns; no match means no marker at the start
   * of `s` is followed by 11 identifier characters.
   */
  lemma MatchHereMeaning(s: string)
    ensures MatchHere(s).Some? ==> exists m :: m in Markers && m + MatchHere(s).value <= s
    ensures MatchHere(s).None? ==> forall m :: m in Markers && m <= s ==> !IdFollows(s[|m|..])
  {
    var r := MatchHere(s);
    MatchHereCases(s);
    if r.Some? {
      var m := if IdAfterMarker(s, Markers[0]).Some? then Markers[0]
               else if IdAfterMarker(s, Markers[1]).Some? then Markers[1] else Markers[2];
      assert m in Markers && m + r.value <= s;
    } else {
      assert forall m :: m in Markers ==> m == Markers[0] || m == Markers[1] || m == Markers[2];
    }
  }

  /** The pattern tried at position `i` of `url`. */
  function MatchAt(url: string, i: nat): Option<string>
    requires i <= |url|
  {
    MatchHere(url[i..])
  }

  /**
   * Leftmost scan from position `i`: the first position at or after `i` where
   * the pattern matches, or None when it matches nowhere from `i` on.
   */
  function FindFrom(url: string, i: nat): (r: Option<nat>)
    requires i <= |url|
    ensures r.Some? ==> i <= r.value <= |url| && MatchAt(url, r.value).Some?
    ensures r.Some? ==> forall j :: i <= j < r.value ==> MatchAt(url, j).None?
    ensures r.None? ==> forall j :: i <= j <= |url| ==> MatchAt(url, j).None?
    decreases |url| - i
  {
    if MatchAt(url, i).Some? then Some(i)
    else if i == |url| then None
    else FindFrom(url, i + 1)
  }

  /**
   * `re.search(pattern, url)` followed by `match.group(1)`: the identifier of
   * the leftmost position where a marker is followed by 11 identifier
   * characters; None exactly when there is no such position.
   */
  function ExtractVideoId(url: string): (r: Option<string>)
    ensures r.Some? ==> |r.value| == IdLength && AllIdChars(r.value)
    ensures r.Some? ==> exists p :: 0 <= p <= |url| && MatchAt(url, p) == r
                          && forall j :: 0 <= j < p ==> MatchAt(url, j).None?
    ensures r.None? <==> forall j :: 0 <= j <= |url| ==> MatchAt(url, j).None?
  {
    match FindFrom(url, 0)
    case None => None
    case Some(p) => MatchAt(url, p)
  }

  /** The scan from `i` stops at the first matching position. */
  lemma {:induction false} FindFromStops(url: string, i: nat, p: nat)
    requires i <= p <= |url| && MatchAt(url, p).Some?
    requires forall j :: i <= j < p ==> MatchAt(url, j).None?
    ensures FindFrom(url, i) == Some(p)
    decreases p - i
  {
    if i < p {
      FindFromStops(url, i + 1, p);
    }
  }

  /** The leftmost matching position decides the result. */
  lemma LeftmostDecides(url: string, p: nat)
    requires p <= |url| && MatchAt(url, p).Some?
    requires forall j :: 0 <= j < p ==> MatchAt(url, j).None?
    ensures ExtractVideoId(url) == MatchAt(url, p)
  {
    FindFromStops(url, 0, p);
  }

  /** Matching at a position looks only at the text from that position on. */
  lemma ShiftMatch(pre: string, rest: string, j: nat)
    requires j <= |rest|
    ensures MatchAt(pre + rest, |pre| + j) == MatchAt(rest, j)
  {
    assert (pre + rest)[|pre| + j..] == rest[j..];
  }

  /** Positions where nothing matches are passed over by the scan. */
  lemma {:induction false} FindFromSkip(url: string, i: nat, k: nat)
    requires i <= k <= |url|
    requires forall j :: i <= j < k ==> MatchAt(url, j).None?
    ensures FindFrom(url, i) == FindFrom(url, k)
    decreases k - i
  {
    if i < k {
      FindFromSkip(url, i + 1, k);
    }
  }

  /** A position found `d` characters further on. */
  function Shifted(r: Option<nat>, d: nat): Option<nat> {
    if r.Some? then Some(r.value + d) else None
  }

  /** The scan of `pre + rest` from inside `rest` is the scan of `rest`, shifted by `|pre|`. */
  lemma {:induction false} FindFromTail(pre: string, rest: string, k: nat)
    requires k <= |rest|
    ensures FindFrom(pre + rest, |pre| + k) == Shifted(FindFrom(rest, k), |pre|)
    decreases |rest| - k
  {
    ShiftMatch(pre, rest, k);
    if MatchAt(rest, k).None? && k < |rest| {
      FindFromTail(pre, rest, k + 1);
    }
  }

  /** A prefix at none of whose positions the pattern matches can be skipped. */
  lemma SkipPrefix(pre: string, rest: string)
    requires forall j :: 0 <= j < |pre| ==> MatchAt(pre + rest, j).None?
    ensures ExtractVideoId(pre + rest) == ExtractVideoId(rest)
  {
    FindFromSkip(pre + rest, 0, |pre|);
    FindFromTail(pre, rest, 0);
    if FindFrom(rest, 0).Some? {
      ShiftMatch(pre, rest, FindFrom(rest, 0).value);
    }
  }

  /** A character that starts no marker never starts a match. */
  lemma NoMarkerStart(s: string)
    requires s != [] && s[0] != 'v' && s[0] != 'y' && s[0] != 'e'
    ensures MatchHere(s).None?
  {
    if MatchHere(s).Some? {
      MatchHereMeaning(s);
    }
  }

  /** Characters other than `v`, `y` and `e` start no marker, so a prefix made of them is skipped. */
  lemma PlainPrefix(pre: string, rest: string)
    requires forall j :: 0 <= j < |pre| ==> pre[j] != 'v' && pre[j] != 'y' && pre[j] != 'e'
    ensures ExtractVideoId(pre + rest) == ExtractVideoId(rest)
  {
    forall j | 0 <= j < |pre|
      ensures MatchAt(pre + rest, j).None?
    {
      assert (pre + rest)[j..][0] == pre[j];
      NoMarkerStart((pre + rest)[j..]);
    }
    SkipPrefix(pre, rest);
  }

  /** No marker at the start, no match at the start. */
  lemma NoMarkerPrefix(s: string)
    requires !(Markers[0] <= s) && !(Markers[1] <= s) && !(Markers[2] <= s)
    ensures MatchHere(s).None?
  {
    MatchHereCases(s);
  }

  /** Any marker followed by 11 identifier characters matches, whatever comes after them. */
  lemma MarkerThenId(m: string, id: string, rest: string)
    requires m in Markers && |id| == IdLength && AllIdChars(id)
    ensures MatchHere(m + id + rest) == Some(id)
  {
    var s := m + id + rest;
    MatchHereCases(s);
    assert m <= s;
    assert s[|m|..] == id + rest;
    assert (id + rest)[..IdLength] == id;
    assert IdAfterMarker(s, m) == Some(id);
    assert s[0] == m[0];
  }

  /** A string that starts with a marker and an identifier yields that identifier. */
  lemma MarkerFirst(m: string, id: string, rest: string)
    requires m in Markers && |id| == IdLength && AllIdChars(id)
    ensures ExtractVideoId(m + id + rest) == Some(id)
  {
    MarkerThenId(m, id, rest);
    assert (m + id + rest)[0..] == m + id + rest;
    LeftmostDecides(m + id + rest, 0);
  }

  /** Step of `WatchUrl`: the query part `.com/watch?v=<id>` yields `<id>`. */
  lemma WatchQuery(id: string)
    requires |id| == IdLength && AllIdChars(id)
    ensures ExtractVideoId(".com/watch?" + ("v=" + id)) == Some(id)
  {
    MarkerFirst("v=", id, "");
    assert "v=" + id + "" == "v=" + id;
    PlainPrefix(".com/watch?", "v=" + id);
  }

  /** An `e` not followed by `mbed/` is skipped. */
  lemma SkipE(t: string)
    requires |t| >= 1 && t[0] != 'm'
    ensures ExtractVideoId("e" + t) == ExtractVideoId(t)
  {
    var s := "e" + t;
    assert MatchAt(s, 0).None? by {
      assert s[0..] == s;
      assert s[0] == 'e' && s[1] != 'm';
      assert !(Markers[0] <= s) by { assert Markers[0][0] != s[0]; }
      assert !(Markers[1] <= s) by { assert Markers[1][0] != s[0]; }
      assert !(Markers[2] <= s) by { assert Markers[2][1] != s[1]; }
      NoMarkerPrefix(s);
    }
    SkipPrefix("e", t);
  }

  /** A `y` followed by `outub` (as in `youtube.com`) is skipped: the marker needs `youtu.`. */
  lemma SkipYoutube(t: string)
    requires |t| >= 5 && t[4] == 'b'
    ensures ExtractVideoId("y" + t) == ExtractVideoId(t)
  {
    var s := "y" + t;
    assert MatchAt(s, 0).None? by {
      assert s[0..] == s;
      assert s[0] == 'y' && s[5] == 'b';
      assert !(Markers[0] <= s) by { assert Markers[0][0] != s[0]; }
      assert !(Markers[1] <= s) by { assert Markers[1][5] != s[5]; }
      assert !(Markers[2] <= s) by { assert Markers[2][0] != s[0]; }
      NoMarkerPrefix(s);
    }
    SkipPrefix("y", t);
  }

  /** Step of `WatchUrl`: the `e` that ends `youtube` is skipped. */
  lemma WatchPath(id: string)
    requires |id| == IdLength && AllIdChars(id)
    ensures ExtractVideoId("e.com/watch?v=" + id) == Some(id)
  {
    var t := ".com/watch?" + ("v=" + id);
    WatchQuery(id);
    SkipE(t);
    PathSpelling(id);
  }

  /** The pieces of `WatchPath` spell the same text. */
  lemma PathSpelling(id: string)
    ensures "e" + (".com/watch?" + ("v=" + id)) == "e.com/watch?v=" + id
  {
  }

  /** Step of `WatchUrl`: the host `youtube.com` starts no marker and is skipped. */
  lemma WatchHost(id: string)
    requires |id| == IdLength && AllIdChars(id)
    ensures ExtractVideoId("youtube.com/watch?v=" + id) == Some(id)
  {
    var t := "e.com/watch?v=" + id;
    WatchPath(id);
    PlainPrefix("outub", t);
    var u := "outub" + t;
    assert u[4] == 'b';
    SkipYoutube(u);
    HostSpelling(id);
  }

  /** The watch-page form: `https://www.youtube.com/watch?v=<id>` yields `<id>`. */
  lemma WatchUrl(id: string)
    requires |id| == IdLength && AllIdChars(id)
    ensures ExtractVideoId("https://www.youtube.com/watch?v=" + id) == Some(id)
  {
    var t := "youtube.com/watch?v=" + id;
    WatchHost(id);
    PlainPrefix("https://www.", t);
    UrlSpelling(id);
  }

  /** The pieces of `WatchHost` spell the same text. */
  lemma HostSpelling(id: string)
    ensures "y" + ("outub" + ("e.com/watch?v=" + id)) == "youtube.com/watch?v=" + id
  {
  }

  /** The pieces of `WatchUrl` spell the same text. */
  lemma UrlSpelling(id: string)
    ensures "https://www." + ("youtube.com/watch?v=" + id) == "https://www.youtube.com/watch?v=" + id
  {
  }

  /** The short form: `https://youtu.be/<id>` yields `<id>`. */
  lemma ShortUrl(id: string)
    requires |id| == IdLength && AllIdChars(id)
    ensures ExtractVideoId("https://youtu.be/" + id) == Some(id)
  {
    MarkerFirst("youtu.be/", id, "");
    assert "youtu.be/" + id + "" == "youtu.be/" + id;
    PlainPrefix("https://", "youtu.be/" + id);
    assert "https://" + ("youtu.be/" + id) == "https://youtu.be/" + id;
  }

  /** A marker followed by fewer than 11 identifier characters is passed over and the scan goes on. */
  lemma ShortCandidateSkipped(id: string)
    requires |id| == IdLength && AllIdChars(id)
    ensures ExtractVideoId("v=short&v=" + id) == Some(id)
  {
    MarkerFirst("v=", id, "");
    assert "v=" + id + "" == "v=" + id;
    var rest := "=short&" + ("v=" + id);
    var s := "v" + rest;
    assert s == "v=short&v=" + id;
    assert MatchAt(s, 0).None? by {
      assert s[0..] == s;
      MatchHereCases(s);
      assert s[0] == 'v' && s[7] == '&';
      assert !IdFollows(s[2..]) by { assert !IsIdChar(s[2..][5]); }
      assert !(Markers[1] <= s) by { assert Markers[1][0] != s[0]; }
      assert !(Markers[2] <= s) by { assert Markers[2][0] != s[0]; }
    }
    PlainPrefix("=short&", "v=" + id);
    SkipPrefix("v", rest);
  }
}
