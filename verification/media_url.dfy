/**
 * Recognising the media URLs a room can play. The regular expressions of the source are
 * written out as explicit string predicates:
 *
 *  - the YouTube pattern `^.*(youtu.be\/|v\/|u\/\w\/|embed\/|watch\?v=|&v=)([^#&?]*).*`, whose
 *    greedy leading `.*` (which cannot cross a line terminator) makes the LAST marker of the
 *    first line the one that counts, and whose id group is the longest run after that marker
 *    free of `#`, `&` and `?`;
 *  - the unanchored Twitch, Kick and Google Drive patterns, whose leftmost match is the FIRST
 *    occurrence of the site marker (`twitch.tv/`, `kick.com/`, `drive.google.com/file/d/` or
 *    `drive.google.com/open?id=`) followed by at least one id character, the id being the
 *    longest run of id characters there. The optional `https?://` and `www.` prefixes never
 *    change which occurrence is chosen, so they do not appear.
 */
module MediaUrl {
  import opened Optional

  /** The characters `.` refuses to match. */
  predicate IsLineTerminator(c: char) {
    c == '\n' || c == '\r' || c == 0x2028 as char || c == 0x2029 as char
  }

  /** `\w`, the same set as `[a-zA-Z0-9_]`. */
  predicate IsWordChar(c: char) {
    ('a' <= c <= 'z') || ('A' <= c <= 'Z') || ('0' <= c <= '9') || c == '_'
  }

  /** The characters a run may contain. */
  datatype CharClass =
    | NotIdStop   // [^#&?], the YouTube id group
    | Word        // [a-zA-Z0-9_], Twitch and Kick channels
    | WordOrDash  // [a-zA-Z0-9_-], Google Drive file ids

  predicate InClass(c: char, cls: CharClass) {
    match cls
    case NotIdStop => c != '#' && c != '&' && c != '?'
    case Word => IsWordChar(c)
    case WordOrDash => IsWordChar(c) || c == '-'
  }

  predicate StartsWithAt(s: string, i: nat, p: string) {
    i + |p| <= |s| && s[i..i + |p|] == p
  }

  /**
   * The end of the longest run of `cls` characters in `s` that starts at `i`.
   */
  function RunEnd(s: string, i: nat, cls: CharClass): (j: nat)
    requires i <= |s|
    ensures i <= j <= |s|
    ensures forall k :: i <= k < j ==> InClass(s[k], cls)
    ensures j == |s| || !InClass(s[j], cls)
    decreases |s| - i
  {
    if i < |s| && InClass(s[i], cls) then RunEnd(s, i + 1, cls) else i
  }

  // ---------------------------------------------------------------- YouTube

  /**
   * The length of the alternative `(youtu.be\/|v\/|u\/\w\/|embed\/|watch\?v=|&v=)` that matches
   * at position `i`, or 0 when none does. The alternatives begin with distinct characters, so at
   * most one of them can match at a given position.
   */
  function MarkerAt(s: string, i: nat): (n: nat)
    requires i <= |s|
    ensures n in {0, 2, 3, 4, 6, 8, 9}
    ensures n > 0 ==> i + n <= |s|
  {
    if StartsWithAt(s, i, "youtu") && i + 9 <= |s| && !IsLineTerminator(s[i + 5]) && s[i + 6..i + 9] == "be/" then 9
    else if StartsWithAt(s, i, "v/") then 2
    else if i + 4 <= |s| && s[i] == 'u' && s[i + 1] == '/' && IsWordChar(s[i + 2]) && s[i + 3] == '/' then 4
    else if StartsWithAt(s, i, "embed/") then 6
    else if StartsWithAt(s, i, "watch?v=") then 8
    else if StartsWithAt(s, i, "&v=") then 3
    else 0
  }

  /** Where the first line of `s` ends: the first line terminator, or `|s|`. */
  function LineEnd(s: string, i: nat): (e: nat)
    requires i <= |s|
    ensures i <= e <= |s|
    ensures forall k :: i <= k < e ==> !IsLineTerminator(s[k])
    ensures e < |s| ==> IsLineTerminator(s[e])
    decreases |s| - i
  {
    if i < |s| && !IsLineTerminator(s[i]) then LineEnd(s, i + 1) else i
  }

  /** The largest position `j <= i` at which a marker matches. */
  function LastMarkerFrom(s: string, i: nat): (r: Option<nat>)
    requires i <= |s|
    ensures r.Some? ==> r.value <= i && MarkerAt(s, r.value) > 0
    ensures r.Some? ==> forall j :: r.value < j <= i ==> MarkerAt(s, j) == 0
    ensures r.None? ==> forall j :: 0 <= j <= i ==> MarkerAt(s, j) == 0
  {
    if MarkerAt(s, i) > 0 then Some(i)
    else if i == 0 then None
    else LastMarkerFrom(s, i - 1)
  }

  /**
   * Where the YouTube pattern places its marker: the last marker position that the leading
   * `^.*` can reach, i.e. the last one on the first line; None when the pattern does not match.
   */
  function YouTubeMarker(s: string): (r: Option<nat>)
    ensures r.Some? ==> r.value <= LineEnd(s, 0) && MarkerAt(s, r.value) > 0
    ensures r.Some? ==> forall j :: r.value < j <= LineEnd(s, 0) ==> MarkerAt(s, j) == 0
    ensures r.None? <==> forall j :: 0 <= j <= LineEnd(s, 0) ==> MarkerAt(s, j) == 0
  {
    LastMarkerFrom(s, LineEnd(s, 0))
  }

  /**
   * `extractYouTubeId` (server) and `getYouTubeVideoId` (client): the id group of the YouTube
   * pattern when it is exactly 11 characters long, None otherwise.
   */
  function YouTubeId(url: string): (r: Option<string>)
    ensures r.Some? ==> |r.value| == 11
    ensures r.Some? ==> forall k :: 0 <= k < 11 ==> InClass(r.value[k], NotIdStop)
    ensures r.Some? ==> YouTubeMarker(url).Some?
  {
    match YouTubeMarker(url)
    case None => None
    case Some(i) =>
      var a := i + MarkerAt(url, i);
      var b := RunEnd(url, a, NotIdStop);
      if b - a == 11 then Some(url[a..b]) else None
  }

  /**
   * The id the pattern captures is the 11 characters that follow the chosen marker and that are
   * followed by the end of the URL or by one of `#`, `&`, `?`.
   */
  lemma {:induction false} YouTubeIdIsCapture(url: string)
    requires YouTubeId(url).Some?
    ensures var i := YouTubeMarker(url).value; var a := i + MarkerAt(url, i);
      a + 11 <= |url| && YouTubeId(url).value == url[a..a + 11]
      && (a + 11 == |url| || !InClass(url[a + 11], NotIdStop))
  {
  }

  /** What `StartsWithAt` says character by character. */
  lemma StartsWithChars(s: string, i: nat, p: string)
    requires StartsWithAt(s, i, p)
    ensures forall k :: 0 <= k < |p| ==> s[i + k] == p[k]
  {
    forall k | 0 <= k < |p| ensures s[i + k] == p[k] {
      assert s[i..i + |p|][k] == s[i + k];
    }
  }

  /** A marker needs one of `/`, `?`, `&` among its characters. */
  lemma MarkerNeedsSeparator(s: string, i: nat)
    requires i <= |s| && MarkerAt(s, i) > 0
    ensures exists k :: i <= k < i + MarkerAt(s, i) && s[k] in {'/', '?', '&'}
  {
    var n := MarkerAt(s, i);
    if n == 8 {
      StartsWithChars(s, i, "watch?v=");
      assert s[i + 5] == '?';
    } else if n == 3 {
      StartsWithChars(s, i, "&v=");
      assert s[i] == '&';
    } else if n == 9 {
      StartsWithChars(s, i, "youtu");
      assert s[i + 8] == '/';
    } else if n == 2 {
      StartsWithChars(s, i, "v/");
      assert s[i + 1] == '/';
    } else if n == 6 {
      StartsWithChars(s, i, "embed/");
      assert s[i + 5] == '/';
    } else {
      assert s[i + 3] == '/';
    }
  }

  /** An id that ends the URL and holds no `/`, `?` or `&` can contain no marker. */
  lemma NoMarkerInTail(s: string, from: nat)
    requires from <= |s|
    requires forall k :: from <= k < |s| ==> s[k] !in {'/', '?', '&'}
    ensures forall j :: from <= j <= |s| ==> MarkerAt(s, j) == 0
  {
    forall j | from <= j <= |s| ensures MarkerAt(s, j) == 0 {
      if MarkerAt(s, j) > 0 { MarkerNeedsSeparator(s, j); }
    }
  }

  /** The ids the source can load: 11 characters, none of them `#`, `&`, `?` or `/`. */
  predicate IsPlainVideoId(id: string) {
    |id| == 11 && forall k :: 0 <= k < 11 ==> id[k] !in {'#', '&', '?', '/'}
  }

  /** The first two characters of every marker. */
  predicate MarkerPair(c: char, d: char) {
    (c == 'y' && d == 'o') || (c == 'v' && d == '/') || (c == 'u' && d == '/')
    || (c == 'e' && d == 'm') || (c == 'w' && d == 'a') || (c == '&' && d == 'v')
  }

  lemma MarkerStart(s: string, j: nat)
    requires j <= |s| && MarkerAt(s, j) > 0
    ensures j + 1 < |s| && MarkerPair(s[j], s[j + 1])
  {
    var n := MarkerAt(s, j);
    if n == 9 {
      StartsWithChars(s, j, "youtu");
    } else if n == 2 {
      StartsWithChars(s, j, "v/");
    } else if n == 6 {
      StartsWithChars(s, j, "embed/");
    } else if n == 8 {
      StartsWithChars(s, j, "watch?v=");
    } else if n == 3 {
      StartsWithChars(s, j, "&v=");
    }
  }

  /** A string does not start with `p` where its first two characters differ from those of `p`. */
  lemma HeadMismatch(s: string, i: nat, p: string)
    requires |p| >= 2 && i + 1 < |s| && !(s[i] == p[0] && s[i + 1] == p[1])
    ensures !StartsWithAt(s, i, p)
  {
    if i + |p| <= |s| {
      assert s[i..i + |p|][0] == s[i] && s[i..i + |p|][1] == s[i + 1];
    }
  }

  /** The markers that are fixed strings. */
  predicate FixedMarker(m: string) {
    m == "youtu.be/" || m == "v/" || m == "embed/" || m == "watch?v=" || m == "&v="
  }

  /** A fixed marker found at `i` is the marker `MarkerAt` reports there. */
  lemma MarkerAtFixed(s: string, i: nat, m: string)
    requires FixedMarker(m) && StartsWithAt(s, i, m)
    ensures MarkerAt(s, i) == |m|
  {
    StartsWithChars(s, i, m);
    if m == "youtu.be/" {
      assert s[i..i + 5] == s[i..i + 9][..5] == "youtu";
      assert s[i + 6..i + 9] == s[i..i + 9][6..] == "be/";
    } else if m == "v/" {
      HeadMismatch(s, i, "youtu");
    } else if m == "embed/" {
      HeadMismatch(s, i, "youtu");
      HeadMismatch(s, i, "v/");
    } else if m == "watch?v=" {
      HeadMismatch(s, i, "youtu");
      HeadMismatch(s, i, "v/");
      HeadMismatch(s, i, "embed/");
    } else {
      HeadMismatch(s, i, "youtu");
      HeadMismatch(s, i, "v/");
      HeadMismatch(s, i, "embed/");
      HeadMismatch(s, i, "watch?v=");
    }
  }

  /** No marker of `s` starts in `s[from..to]` when no two adjacent characters there begin one. */
  lemma NoMarkerBetween(s: string, from: nat, to: nat)
    requires from <= to <= |s|
    requires forall j :: from <= j < to && j + 1 < |s| ==> !MarkerPair(s[j], s[j + 1])
    ensures forall j :: from <= j < to ==> MarkerAt(s, j) == 0
  {
    forall j | from <= j < to ensures MarkerAt(s, j) == 0 {
      if MarkerAt(s, j) > 0 { MarkerStart(s, j); }
    }
  }

  /** A line without terminators reaches at least to `n`. */
  lemma LineEndAtLeast(s: string, n: nat)
    requires n <= |s|
    requires forall k :: 0 <= k < n ==> !IsLineTerminator(s[k])
    ensures LineEnd(s, 0) >= n
  {
  }

  /** Scanning down from `e`, the first marker found is at `p` when none lies above it. */
  lemma {:induction false} LastMarkerIs(s: string, p: nat, e: nat)
    requires p <= e <= |s| && MarkerAt(s, p) > 0
    requires forall j :: p < j <= e ==> MarkerAt(s, j) == 0
    ensures LastMarkerFrom(s, e) == Some(p)
    decreases e
  {
    if e > p {
      LastMarkerIs(s, p, e - 1);
    }
  }

  /**
   * The marker the YouTube pattern chooses in a URL whose first marker-free stretch after `p`
   * reaches a tail without `/`, `?` or `&`, with no line terminator before `p`.
   */
  lemma PrefixMarker(s: string, p: nat, a: nat)
    requires p < a <= |s| && MarkerAt(s, p) > 0
    requires forall j :: p < j < a && j + 1 < |s| ==> !MarkerPair(s[j], s[j + 1])
    requires forall k :: a <= k < |s| ==> s[k] !in {'/', '?', '&'}
    requires forall k :: 0 <= k < p ==> !IsLineTerminator(s[k])
    ensures YouTubeMarker(s) == Some(p)
  {
    NoMarkerInTail(s, a);
    NoMarkerBetween(s, p + 1, a);
    LineEndAtLeast(s, p);
    LastMarkerIs(s, p, LineEnd(s, 0));
  }

  /** A run that reaches the end of `s` ends there. */
  lemma {:induction false} RunEndAll(s: string, a: nat, cls: CharClass)
    requires a <= |s| && forall k :: a <= k < |s| ==> InClass(s[k], cls)
    ensures RunEnd(s, a, cls) == |s|
    decreases |s| - a
  {
    if a < |s| { RunEndAll(s, a + 1, cls); }
  }

  /** No two adjacent characters of `t[from..to + 1]` begin a marker (checked by evaluation). */
  predicate NoPairBetween(t: string, from: nat, to: nat)
    requires to < |t|
    decreases if to > from then to - from else 0
  {
    from >= to || (!MarkerPair(t[from], t[from + 1]) && NoPairBetween(t, from + 1, to))
  }

  /** `t` holds no line terminator. */
  predicate NoLineTerminatorIn(t: string) {
    forall k :: 0 <= k < |t| ==> !IsLineTerminator(t[k])
  }

  lemma {:induction false} NoPairBetweenAll(t: string, from: nat, to: nat)
    requires to < |t| && NoPairBetween(t, from, to)
    ensures (forall j :: from <= j < to ==> !MarkerPair(t[j], t[j + 1]))
    decreases if to > from then to - from else 0
  {
    if from < to { NoPairBetweenAll(t, from + 1, to); }
  }

  /** Once the marker is known, an id that runs to the end of the URL is captured whole. */
  lemma IdAfterMarker(s: string, p: nat, a: nat)
    requires YouTubeMarker(s) == Some(p) && a == p + MarkerAt(s, p)
    requires forall k :: a <= k < |s| ==> InClass(s[k], NotIdStop)
    ensures YouTubeId(s) == if |s| - a == 11 then Some(s[a..]) else None
  {
    RunEndAll(s, a, NotIdStop);
    assert s[a..|s|] == s[a..];
  }

  /**
   * A URL made of a prefix that ends with a fixed marker starting at `p`, with no other marker
   * after `p` and no line terminator, followed by a `rest` free of `#`, `&`, `?` and `/`: the
   * pattern chooses that marker, and the id is `rest` when it is 11 characters long.
   */
  lemma PrefixYouTubeId(prefix: string, p: nat, rest: string)
    requires p < |prefix| && FixedMarker(prefix[p..])
    requires NoPairBetween(prefix, p + 1, |prefix| - 1)
    requires NoLineTerminatorIn(prefix)
    requires forall k :: 0 <= k < |rest| ==> InClass(rest[k], NotIdStop) && rest[k] != '/'
    ensures YouTubeMarker(prefix + rest) == Some(p)
    ensures YouTubeId(prefix + rest) == if |rest| == 11 then Some(rest) else None
  {
    var url := prefix + rest;
    var a := |prefix|;
    assert url[p..a] == prefix[p..];
    MarkerAtFixed(url, p, prefix[p..]);
    assert prefix[a - 1] in {'/', '='} by {
      assert prefix[a - 1] == prefix[p..][a - 1 - p];
    }
    NoPairBetweenAll(prefix, p + 1, a - 1);
    forall j | p < j < a && j + 1 < |url| ensures !MarkerPair(url[j], url[j + 1]) {
      if j + 1 < a {
        assert url[j] == prefix[j] && url[j + 1] == prefix[j + 1];
      } else {
        assert url[j] == prefix[a - 1];
      }
    }
    assert forall k :: 0 <= k < p ==> url[k] == prefix[k];
    PrefixMarker(url, p, a);
    IdAfterMarker(url, p, a);
    assert url[a..] == rest;
  }

  /** The canonical watch URL gives back its video id. */
  lemma WatchUrlRoundTrip(id: string)
    requires IsPlainVideoId(id)
    ensures YouTubeId("https://www.youtube.com/watch?v=" + id) == Some(id)
  {
    assert FixedMarker("https://www.youtube.com/watch?v="[24..]);
    assert NoPairBetween("https://www.youtube.com/watch?v=", 25, 31);
    assert NoLineTerminatorIn("https://www.youtube.com/watch?v=");
    PrefixYouTubeId("https://www.youtube.com/watch?v=", 24, id);
  }

  /** The short-link form gives back its video id too. */
  lemma ShortUrlRoundTrip(id: string)
    requires IsPlainVideoId(id)
    ensures YouTubeId("https://youtu.be/" + id) == Some(id)
  {
    assert FixedMarker("https://youtu.be/"[8..]);
    assert NoPairBetween("https://youtu.be/", 9, 16);
    assert NoLineTerminatorIn("https://youtu.be/");
    PrefixYouTubeId("https://youtu.be/", 8, id);
  }

  // ------------------------------------------------- Twitch, Kick and Google Drive

  /** `m` occurs at `i` in `s` and is followed by a `cls` character. */
  predicate Fits(s: string, i: nat, m: string, cls: CharClass) {
    StartsWithAt(s, i, m) && i + |m| < |s| && InClass(s[i + |m|], cls)
  }

  /** The end of the first of `markers` that matches at `i` and is followed by a `cls` character. */
  function MarkerEnd(s: string, i: nat, markers: seq<string>, cls: CharClass): (r: Option<nat>)
    ensures r.Some? ==> i <= r.value < |s| && InClass(s[r.value], cls)
  {
    if |markers| == 0 then None
    else if Fits(s, i, markers[0], cls) then Some(i + |markers[0]|)
    else MarkerEnd(s, i, markers[1..], cls)
  }

  /** A marker matches at `i` exactly when one of `markers` fits there. */
  lemma {:induction false} MarkerEndFits(s: string, i: nat, markers: seq<string>, cls: CharClass)
    ensures MarkerEnd(s, i, markers, cls).Some? <==> exists k :: 0 <= k < |markers| && Fits(s, i, markers[k], cls)
  {
    if |markers| > 0 && !Fits(s, i, markers[0], cls) {
      MarkerEndFits(s, i, markers[1..], cls);
      if MarkerEnd(s, i, markers, cls).Some? {
        var k :| 0 <= k < |markers[1..]| && Fits(s, i, markers[1..][k], cls);
        assert Fits(s, i, markers[k + 1], cls);
      } else {
        forall k | 0 <= k < |markers| ensures !Fits(s, i, markers[k], cls) {
          if k > 0 { assert markers[k] == markers[1..][k - 1]; }
        }
      }
    } else if |markers| > 0 {
      assert Fits(s, i, markers[0], cls);
    }
  }

  /** The leftmost position at or after `i` where a marker matches, and where its id starts. */
  function FirstMatch(s: string, i: nat, markers: seq<string>, cls: CharClass): (r: Option<(nat, nat)>)
    requires i <= |s|
    ensures r.Some? ==> i <= r.value.0 < |s| && MarkerEnd(s, r.value.0, markers, cls) == Some(r.value.1)
    ensures r.Some? ==> forall j :: i <= j < r.value.0 ==> MarkerEnd(s, j, markers, cls).None?
    ensures r.None? <==> forall j :: i <= j <= |s| ==> MarkerEnd(s, j, markers, cls).None?
    decreases |s| - i
  {
    match MarkerEnd(s, i, markers, cls)
    case Some(a) => Some((i, a))
    case None => if i == |s| then None else FirstMatch(s, i + 1, markers, cls)
  }

  /** The id group of the leftmost match: the longest run of `cls` characters after the marker. */
  function Capture(s: string, markers: seq<string>, cls: CharClass): (r: Option<string>)
    ensures r.Some? ==> |r.value| > 0 && forall k :: 0 <= k < |r.value| ==> InClass(r.value[k], cls)
    ensures r.None? <==> forall j :: 0 <= j <= |s| ==> MarkerEnd(s, j, markers, cls).None?
  {
    match FirstMatch(s, 0, markers, cls)
    case None => None
    case Some((p, a)) =>
      assert MarkerEnd(s, p, markers, cls).Some?;
      var e := RunEnd(s, a, cls);
      assert s[a] == s[a..e][0];
      Some(s[a..e])
  }

  /** The capture is maximal: the next character, if any, is outside the class. */
  lemma {:induction false} CaptureIsMaximal(s: string, markers: seq<string>, cls: CharClass)
    requires Capture(s, markers, cls).Some?
    ensures var a := FirstMatch(s, 0, markers, cls).value.1;
      var e := a + |Capture(s, markers, cls).value|;
      e <= |s| && s[a..e] == Capture(s, markers, cls).value && (e == |s| || !InClass(s[e], cls))
  {
  }

  const TwitchMarkers: seq<string> := ["twitch.tv/"]
  const KickMarkers: seq<string> := ["kick.com/"]
  const DriveMarkers: seq<string> := ["drive.google.com/file/d/", "drive.google.com/open?id="]

  /** What `detectPlatform` reports: the platform and the id it extracts. */
  datatype Detected =
    | YouTube(videoId: Option<string>)
    | Twitch(channel: string)
    | Kick(channel: string)
    | Drive(fileId: string)

  /**
   * `detectPlatform`: the patterns are tried in the order YouTube, Twitch, Kick, Google Drive,
   * and the first that matches decides. A URL the YouTube pattern matches is reported as YouTube
   * even when its id is not 11 characters long (the id is then absent).
   */
  function DetectPlatform(url: string): (r: Option<Detected>)
    ensures YouTubeMarker(url).Some? <==> r.Some? && r.value.YouTube?
    ensures r.Some? && r.value.YouTube? ==> r.value.videoId == YouTubeId(url)
    ensures r.Some? && (r.value.Twitch? || r.value.Kick?) ==>
      |r.value.channel| > 0 && forall k :: 0 <= k < |r.value.channel| ==> IsWordChar(r.value.channel[k])
    ensures r.Some? && r.value.Drive? ==>
      |r.value.fileId| > 0 && forall k :: 0 <= k < |r.value.fileId| ==> InClass(r.value.fileId[k], WordOrDash)
    ensures r.Some? && r.value.Kick? ==> Capture(url, TwitchMarkers, Word).None?
    ensures r.Some? && r.value.Drive? ==>
      Capture(url, TwitchMarkers, Word).None? && Capture(url, KickMarkers, Word).None?
    ensures YouTubeMarker(url).None? && Capture(url, TwitchMarkers, Word).Some? ==>
      r == Some(Twitch(Capture(url, TwitchMarkers, Word).value))
    ensures YouTubeMarker(url).None? && Capture(url, TwitchMarkers, Word).None? &&
            Capture(url, KickMarkers, Word).Some? ==>
      r == Some(Kick(Capture(url, KickMarkers, Word).value))
    ensures YouTubeMarker(url).None? && Capture(url, TwitchMarkers, Word).None? &&
            Capture(url, KickMarkers, Word).None? && Capture(url, DriveMarkers, WordOrDash).Some? ==>
      r == Some(Drive(Capture(url, DriveMarkers, WordOrDash).value))
    ensures r.None? <==> (YouTubeMarker(url).None? && Capture(url, TwitchMarkers, Word).None?
      && Capture(url, KickMarkers, Word).None? && Capture(url, DriveMarkers, WordOrDash).None?)
  {
    if YouTubeMarker(url).Some? then Some(YouTube(YouTubeId(url)))
    else match Capture(url, TwitchMarkers, Word)
      case Some(c) => Some(Twitch(c))
      case None => match Capture(url, KickMarkers, Word)
        case Some(c) => Some(Kick(c))
        case None => match Capture(url, DriveMarkers, WordOrDash)
          case Some(f) => Some(Drive(f))
          case None => None
  }

  /**
   * As written, the YouTube pattern's `v\/` alternative matches the `tv/` of `twitch.tv/`, so a
   * Twitch channel URL is reported as YouTube: with no video id, or with the channel name as
   * the video id when that name is 11 characters long.
   */
  lemma TwitchUrlDetectedAsYouTube(channel: string)
    requires |channel| > 0 && forall k :: 0 <= k < |channel| ==> IsWordChar(channel[k])
    ensures DetectPlatform("https://www.twitch.tv/" + channel)
         == Some(YouTube(if |channel| == 11 then Some(channel) else None))
  {
    assert FixedMarker("https://www.twitch.tv/"[20..]);
    assert NoPairBetween("https://www.twitch.tv/", 21, 21);
    assert NoLineTerminatorIn("https://www.twitch.tv/");
    PrefixYouTubeId("https://www.twitch.tv/", 20, channel);
  }

  /** The leftmost match is at `p` when the markers fit there and nowhere before. */
  lemma {:induction false} FirstMatchIs(s: string, i: nat, p: nat, a: nat, markers: seq<string>, cls: CharClass)
    requires i <= p <= |s| && MarkerEnd(s, p, markers, cls) == Some(a)
    requires forall j :: i <= j < p ==> MarkerEnd(s, j, markers, cls).None?
    ensures FirstMatch(s, i, markers, cls) == Some((p, a))
    decreases p - i
  {
    if i < p {
      assert MarkerEnd(s, i, markers, cls).None?;
      FirstMatchIs(s, i + 1, p, a, markers, cls);
    }
  }

  /**
   * The evident intent of `detectPlatform`: a Twitch channel URL is a Twitch stream. Trying the
   * Twitch pattern before the YouTube one achieves it; every other URL is classified as before.
   */
  function DetectPlatformCorrected(url: string): (r: Option<Detected>)
    ensures Capture(url, TwitchMarkers, Word).Some? ==> r == Some(Twitch(Capture(url, TwitchMarkers, Word).value))
    ensures Capture(url, TwitchMarkers, Word).None? ==> r == DetectPlatform(url)
  {
    match Capture(url, TwitchMarkers, Word)
    case Some(c) => Some(Twitch(c))
    case None => DetectPlatform(url)
  }

  /** With the correction, a Twitch channel URL yields that channel. */
  lemma TwitchUrlDetectedAsTwitch(channel: string)
    requires |channel| > 0 && forall k :: 0 <= k < |channel| ==> IsWordChar(channel[k])
    ensures DetectPlatformCorrected("https://www.twitch.tv/" + channel) == Some(Twitch(channel))
  {
    var url := "https://www.twitch.tv/" + channel;
    assert url[12..22] == "twitch.tv/";
    assert url[..12] == "https://www.";
    assert MarkerEnd(url, 12, TwitchMarkers, Word) == Some(22);
    assert url[..13] == "https://www.t";
    forall j | 0 <= j < 12 ensures MarkerEnd(url, j, TwitchMarkers, Word).None? {
      assert url[j] == url[..13][j] && url[j + 1] == url[..13][j + 1];
      assert !(url[j] == 't' && url[j + 1] == 'w') by {
        assert j in {0, 1, 2, 3, 4, 5, 6, 7, 8, 9, 10, 11};
      }
      HeadMismatch(url, j, TwitchMarkers[0]);
    }
    FirstMatchIs(url, 0, 12, 22, TwitchMarkers, Word);
    assert RunEnd(url, 22, Word) == |url|;
    assert url[22..|url|] == channel;
  }
}
