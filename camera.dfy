/**
 * The two string derivations of the camera grid: the video id pulled out
 * of a YouTube address (`extractYouTubeId` in script.js) and the stream
 * proxy address of a camera (`streamSrc` in static/app.js).
 */
module CameraFeeds {
  import opened Common

  // ---------------------------------------------------------------- the id pattern

  /**
   * One position of the first group of
   * `/^.*(youtu.be\/|v\/|u\/\w\/|embed\/|watch\?v=|&v=|live\/)([^#&?]*).*\/`:
   * a literal character, `.` or `\w`.
   */
  datatype Atom = Lit(c: char) | AnyChar | WordChar

  /** The characters `.` does not match. */
  predicate IsLineTerminator(c: char)
  {
    c == '\n' || c == '\r' || c == '\U{2028}' || c == '\U{2029}'
  }

  /**
   * A character outside the Basic Multilingual Plane: JavaScript strings
   * hold it as two UTF-16 code units (a surrogate pair).
   */
  predicate IsAstral(c: char)
  {
    c as int > 0xFFFF
  }

  /** `s.length` in JavaScript: the number of UTF-16 code units. */
  function Utf16Length(s: string): (n: nat)
    ensures n >= |s|
  {
    if |s| == 0 then 0 else (if IsAstral(s[0]) then 2 else 1) + Utf16Length(s[1..])
  }

  /** Without astral characters, code units and characters agree. */
  lemma {:induction false} Utf16LengthOfBmp(s: string)
    requires forall k :: 0 <= k < |s| ==> !IsAstral(s[k])
    ensures Utf16Length(s) == |s|
  {
    if |s| > 0 {
      Utf16LengthOfBmp(s[1..]);
    }
  }

  predicate IsWordChar(c: char)
  {
    ('a' <= c <= 'z') || ('A' <= c <= 'Z') || ('0' <= c <= '9') || c == '_'
  }

  /**
   * Whether one atom of a marker consumes the character `c`.  The pattern
   * has no `u` flag, so `.` consumes a single UTF-16 unit: on an astral
   * character it takes only the high surrogate, and the ASCII atom after it
   * (`b` in `youtu.be/`) cannot match the low one.  `.` in a marker is
   * therefore never filled by an astral character.
   */
  predicate AtomMatches(a: Atom, c: char)
  {
    match a
    case Lit(l) => c == l
    case AnyChar => !IsLineTerminator(c) && !IsAstral(c)
    case WordChar => IsWordChar(c)
  }

  /** The alternatives of the first group, in the order the pattern tries them. */
  const Markers: seq<seq<Atom>> := [
    [Lit('y'), Lit('o'), Lit('u'), Lit('t'), Lit('u'), AnyChar, Lit('b'), Lit('e'), Lit('/')],
    [Lit('v'), Lit('/')],
    [Lit('u'), Lit('/'), WordChar, Lit('/')],
    [Lit('e'), Lit('m'), Lit('b'), Lit('e'), Lit('d'), Lit('/')],
    [Lit('w'), Lit('a'), Lit('t'), Lit('c'), Lit('h'), Lit('?'), Lit('v'), Lit('=')],
    [Lit('&'), Lit('v'), Lit('=')],
    [Lit('l'), Lit('i'), Lit('v'), Lit('e'), Lit('/')]
  ]

  predicate MatchesAt(url: string, i: nat, m: seq<Atom>)
  {
    i + |m| <= |url| && forall k :: 0 <= k < |m| ==> AtomMatches(m[k], url[i + k])
  }

  /** The length of the first alternative, from the `from`-th on, that matches at `i`; 0 if none. */
  function MarkerFrom(url: string, i: nat, from: nat): (n: nat)
    requires from <= |Markers|
    ensures n > 0 ==> i + n <= |url|
    decreases |Markers| - from
  {
    if from == |Markers| then 0
    else if MatchesAt(url, i, Markers[from]) then |Markers[from]|
    else MarkerFrom(url, i, from + 1)
  }

  /** The length of group 1 when it starts at `i`; 0 when no alternative matches there. */
  function MarkerAt(url: string, i: nat): nat
  {
    MarkerFrom(url, i, 0)
  }

  /** Group 1 can start at `i` exactly when some alternative matches there. */
  lemma {:induction false} MarkerFromMatches(url: string, i: nat, from: nat)
    requires from <= |Markers|
    ensures MarkerFrom(url, i, from) > 0 <==> exists j :: from <= j < |Markers| && MatchesAt(url, i, Markers[j])
    ensures MarkerFrom(url, i, from) > 0 ==>
      exists j :: from <= j < |Markers| && MatchesAt(url, i, Markers[j]) && |Markers[j]| == MarkerFrom(url, i, from)
    decreases |Markers| - from
  {
    if from < |Markers| {
      MarkerFromMatches(url, i, from + 1);
    }
  }

  /** `^.*` can end at `i`: no line terminator comes before it. */
  predicate Reachable(url: string, i: nat)
  {
    i <= |url| && forall k :: 0 <= k < i ==> !IsLineTerminator(url[k])
  }

  /**
   * Where the greedy `.*` stops: the last reachable position, up to `n`, at
   * which some alternative matches (the rest of the pattern always matches).
   */
  function LastMarker(url: string, n: nat): Option<nat>
    requires n <= |url|
    decreases n
  {
    if Reachable(url, n) && MarkerAt(url, n) > 0 then Some(n)
    else if n == 0 then None
    else LastMarker(url, n - 1)
  }

  /** A position the scan finds is reachable and has a match. */
  lemma {:induction false} LastMarkerMatches(url: string, n: nat)
    requires n <= |url|
    ensures LastMarker(url, n).Some? ==>
      && LastMarker(url, n).value <= n
      && Reachable(url, LastMarker(url, n).value) && MarkerAt(url, LastMarker(url, n).value) > 0
    decreases n
  {
    if !(Reachable(url, n) && MarkerAt(url, n) > 0) && n > 0 {
      LastMarkerMatches(url, n - 1);
    }
  }

  /** No reachable position after the one the scan finds has a match, up to `n`; without one, none has. */
  lemma {:induction false} LastMarkerNoLater(url: string, n: nat)
    requires n <= |url|
    ensures LastMarker(url, n).Some? ==>
      forall j :: LastMarker(url, n).value < j <= n && Reachable(url, j) ==> MarkerAt(url, j) == 0
    ensures LastMarker(url, n).None? ==> forall j :: 0 <= j <= n && Reachable(url, j) ==> MarkerAt(url, j) == 0
    decreases n
  {
    if !(Reachable(url, n) && MarkerAt(url, n) > 0) && n > 0 {
      var pos := LastMarker(url, n - 1);
      assert LastMarker(url, n) == pos;
      LastMarkerNoLater(url, n - 1);
      forall j | (if pos.Some? then pos.value else -1) < j <= n && Reachable(url, j)
        ensures MarkerAt(url, j) == 0
      {
        if j == n {
          assert !(Reachable(url, n) && MarkerAt(url, n) > 0);
        }
      }
    }
  }

  /** The scan finds a reachable match with none after it up to `n`, or there is none at all. */
  lemma LastMarkerSound(url: string, n: nat)
    requires n <= |url|
    ensures LastMarker(url, n).Some? ==>
      && LastMarker(url, n).value <= n
      && Reachable(url, LastMarker(url, n).value) && MarkerAt(url, LastMarker(url, n).value) > 0
    ensures LastMarker(url, n).Some? ==>
      forall j :: LastMarker(url, n).value < j <= n && Reachable(url, j) ==> MarkerAt(url, j) == 0
    ensures LastMarker(url, n).None? ==> forall j :: 0 <= j <= n && Reachable(url, j) ==> MarkerAt(url, j) == 0
  {
    LastMarkerMatches(url, n);
    LastMarkerNoLater(url, n);
  }

  /**
   * `i` is where the greedy `^.*` leaves off: a position on the first line
   * where group 1 matches, with no such position after it.
   */
  predicate IsLastMarker(url: string, i: nat)
  {
    && Reachable(url, i) && MarkerAt(url, i) > 0 && i + MarkerAt(url, i) <= |url|
    && forall j :: i < j <= |url| && Reachable(url, j) ==> MarkerAt(url, j) == 0
  }

  /** `LastMarker` finds exactly the position `IsLastMarker` describes, so there is at most one. */
  lemma LastMarkerCharacterized(url: string)
    ensures forall i: nat :: IsLastMarker(url, i) <==> LastMarker(url, |url|) == Some(i)
  {
    FoundMarkerIsLast(url);
    forall i: nat | IsLastMarker(url, i)
      ensures LastMarker(url, |url|) == Some(i)
    {
      LastMarkerIsFound(url, i);
    }
  }

  lemma FoundMarkerIsLast(url: string)
    ensures LastMarker(url, |url|).Some? ==> IsLastMarker(url, LastMarker(url, |url|).value)
  {
    LastMarkerSound(url, |url|);
  }

  lemma LastMarkerIsFound(url: string, i: nat)
    requires IsLastMarker(url, i)
    ensures LastMarker(url, |url|) == Some(i)
  {
    var r := LastMarker(url, |url|);
    LastMarkerSound(url, |url|);
    assert Reachable(url, i) && MarkerAt(url, i) > 0;
    assert r.Some?;
    assert Reachable(url, r.value) && MarkerAt(url, r.value) > 0;
  }

  predicate IsIdStop(c: char)
  {
    c == '#' || c == '&' || c == '?'
  }

  /** Group 2, `([^#&?]*)`: the longest run from `i` without `#`, `&` or `?`. */
  function IdRun(url: string, i: nat): (run: string)
    requires i <= |url|
    ensures i + |run| <= |url| && run == url[i..i + |run|]
    ensures forall k :: 0 <= k < |run| ==> !IsIdStop(run[k])
    ensures i + |run| == |url| || IsIdStop(url[i + |run|])
    decreases |url| - i
  {
    if i == |url| || IsIdStop(url[i]) then "" else [url[i]] + IdRun(url, i + 1)
  }

  /**
   * `extractYouTubeId(url)`: the text after the last marker on the first
   * line, up to the first `#`, `&` or `?`, when it is exactly 11 UTF-16
   * units long (`match[2].length === 11`); otherwise nothing.
   */
  function ExtractYouTubeId(url: string): (id: Option<string>)
    ensures id.Some? ==> Utf16Length(id.value) == 11 && |id.value| <= 11
    ensures id.Some? ==> forall k :: 0 <= k < |id.value| ==> !IsIdStop(id.value[k])
  {
    LastMarkerSound(url, |url|);
    match LastMarker(url, |url|)
    case None => None
    case Some(i) =>
      var run := IdRun(url, i + MarkerAt(url, i));
      if Utf16Length(run) == 11 then Some(run) else None
  }

  /**
   * A returned id is the text right after a marker on the first line; with
   * no marker there, there is no id.
   */
  lemma ExtractYouTubeIdFollowsMarker(url: string)
    ensures ExtractYouTubeId(url).Some? ==> exists i: nat :: FollowsMarkerAt(url, i, ExtractYouTubeId(url).value)
    ensures (forall i :: 0 <= i <= |url| && Reachable(url, i) ==> MarkerAt(url, i) == 0) ==>
      ExtractYouTubeId(url).None?
  {
    LastMarkerSound(url, |url|);
    match LastMarker(url, |url|)
    case None =>
      assert ExtractYouTubeId(url) == None;
    case Some(p) =>
      var start := p + MarkerAt(url, p);
      var run := IdRun(url, start);
      ResultFromParts(url, p, run);
      assert Reachable(url, p) && MarkerAt(url, p) > 0;
      assert start + |run| <= |url| && url[start..start + |run|] == run;
      assert FollowsMarkerAt(url, p, run);
  }

  /** `id` is the text right after a marker that starts at `i` on the first line. */
  predicate FollowsMarkerAt(url: string, i: nat, id: string)
  {
    && Reachable(url, i) && MarkerAt(url, i) > 0
    && i + MarkerAt(url, i) + |id| <= |url|
    && url[i + MarkerAt(url, i)..i + MarkerAt(url, i) + |id|] == id
  }

  /**
   * The id is group 2 after the last marker on the first line, and it is
   * returned exactly when that run is 11 UTF-16 units long.
   */
  lemma ExtractYouTubeIdIsLastRun(url: string)
    ensures forall i: nat :: IsLastMarker(url, i) ==>
      var run := IdRun(url, i + MarkerAt(url, i));
      ExtractYouTubeId(url) == if Utf16Length(run) == 11 then Some(run) else None
    ensures (forall i: nat :: !IsLastMarker(url, i)) ==> ExtractYouTubeId(url).None?
  {
    match LastMarker(url, |url|)
    case None =>
      NoLastMarker(url);
    case Some(p) =>
      FoundMarkerResult(url, p);
  }

  /** When the scan finds a marker, it is the last one and fixes the result. */
  lemma FoundMarkerResult(url: string, p: nat)
    requires LastMarker(url, |url|) == Some(p)
    ensures IsLastMarker(url, p)
    ensures forall i: nat :: IsLastMarker(url, i) ==>
      var run := IdRun(url, i + MarkerAt(url, i));
      ExtractYouTubeId(url) == if Utf16Length(run) == 11 then Some(run) else None
  {
    FoundMarkerIsLast(url);
    forall i: nat | IsLastMarker(url, i)
      ensures ExtractYouTubeId(url) == var run := IdRun(url, i + MarkerAt(url, i));
        if Utf16Length(run) == 11 then Some(run) else None
    {
      LastMarkerIsFound(url, i);
      ResultFromParts(url, i, IdRun(url, i + MarkerAt(url, i)));
    }
  }

  /** Without a marker there is no last one, and no id. */
  lemma NoLastMarker(url: string)
    requires LastMarker(url, |url|).None?
    ensures ExtractYouTubeId(url).None?
    ensures forall i: nat :: !IsLastMarker(url, i)
  {
    LastMarkerCharacterized(url);
  }

  // ---------------------------------------------------------------- worked addresses

  /** Characters that can make up a video id. */
  predicate IsIdChar(c: char)
  {
    IsWordChar(c) || c == '-'
  }

  /** Characters that neither end group 2 nor belong to any marker's key character. */
  predicate IsPlain(c: char)
  {
    c != '/' && c != '=' && !IsIdStop(c)
  }

  /**
   * Every alternative holds a `/`, `?`, `=` or `&`, none of which can be
   * part of an id, so no alternative can match starting inside an id.
   */
  lemma NoMarkerInsideId(url: string, start: nat, j: nat)
    requires start <= j <= |url|
    requires forall k :: start <= k < |url| ==> IsPlain(url[k])
    ensures MarkerAt(url, j) == 0
  {
    forall m | 0 <= m < |Markers|
      ensures !MatchesAt(url, j, Markers[m])
    {
      var special := [8, 1, 3, 5, 5, 0, 4][m];
      assert Markers[m][special].Lit? && !IsPlain(Markers[m][special].c);
    }
    MarkerFromMatches(url, j, 0);
  }

  /** The alternative `m` is made of literal characters only, and spells `w`. */
  predicate Spells(m: nat, w: string)
  {
    m < |Markers| && |w| == |Markers[m]| && forall k :: 0 <= k < |w| ==> Markers[m][k] == Lit(w[k])
  }

  /**
   * The alternative `m` spells `w`; no alternative tried before it starts
   * with `w`'s first character; and no alternative can start at any later
   * character of `w`, because its first two atoms already fail there.
   */
  predicate ClearMarkerWord(m: nat, w: string)
  {
    && Spells(m, w) && |w| >= 2
    && (forall m' :: 0 <= m' < m ==> !AtomMatches(Markers[m'][0], w[0]))
    && (forall m' :: 0 <= m' < |Markers| ==> !AtomMatches(Markers[m'][0], w[|w| - 1]))
    && (forall j, m' :: 0 < j < |w| - 1 && 0 <= m' < |Markers| ==>
          !AtomMatches(Markers[m'][0], w[j]) || |Markers[m']| < 2 || !AtomMatches(Markers[m'][1], w[j + 1]))
  }

  /** The first atom of every alternative is a literal. */
  lemma FirstAtoms()
    ensures forall m :: 0 <= m < |Markers| ==> Markers[m][0] == Lit("yvuew&l"[m])
  {
  }

  lemma ClearV() ensures ClearMarkerWord(1, "v/") {}

  lemma ClearEmbed() ensures ClearMarkerWord(3, "embed/")
  {
    var w := "embed/";
    FirstAtoms();
    assert Spells(3, w);
    forall j, m' | 0 < j < |w| - 1 && 0 <= m' < |Markers|
      ensures !AtomMatches(Markers[m'][0], w[j]) || |Markers[m']| < 2 || !AtomMatches(Markers[m'][1], w[j + 1])
    {
      if m' == 3 {
        assert Markers[3][1] == Lit('m');
      }
    }
  }

  lemma ClearWatch() ensures ClearMarkerWord(4, "watch?v=")
  {
    var w := "watch?v=";
    FirstAtoms();
    assert Spells(4, w);
    forall j, m' | 0 < j < |w| - 1 && 0 <= m' < |Markers|
      ensures !AtomMatches(Markers[m'][0], w[j]) || |Markers[m']| < 2 || !AtomMatches(Markers[m'][1], w[j + 1])
    {
      if m' == 1 {
        assert Markers[1][1] == Lit('/');
      }
    }
  }

  lemma ClearAmp() ensures ClearMarkerWord(5, "&v=") {}
  lemma ClearLive() ensures ClearMarkerWord(6, "live/")
  {
    var w := "live/";
    FirstAtoms();
    assert Spells(6, w);
    forall j, m' | 0 < j < |w| - 1 && 0 <= m' < |Markers|
      ensures !AtomMatches(Markers[m'][0], w[j]) || |Markers[m']| < 2 || !AtomMatches(Markers[m'][1], w[j + 1])
    {
      if m' == 1 {
        assert Markers[1][1] == Lit('/');
      }
      if m' == 3 {
        assert Markers[3][1] == Lit('m');
      }
    }
  }

  /** An alternative cannot start where its first two atoms fail. */
  lemma NoMarkerByFirstTwo(url: string, j: nat)
    requires j < |url|
    requires forall m :: 0 <= m < |Markers| ==>
      !AtomMatches(Markers[m][0], url[j]) || (j + 1 < |url| && !AtomMatches(Markers[m][1], url[j + 1]))
    ensures MarkerAt(url, j) == 0
  {
    MarkerFromMatches(url, j, 0);
  }

  /** No alternative starts after the first character of a clear marker word. */
  lemma NoMarkerInsideWord(url: string, p: nat, m: nat, w: string, j: nat)
    requires ClearMarkerWord(m, w)
    requires p + |w| <= |url| && url[p..p + |w|] == w && p < j < p + |w|
    ensures MarkerAt(url, j) == 0
  {
    assert url[j] == w[j - p];
    if j + 1 < p + |w| {
      assert url[j + 1] == w[j + 1 - p];
    }
    NoMarkerByFirstTwo(url, j);
  }

  /** The first alternative, from `from` on, that matches decides group 1. */
  lemma {:induction false} MarkerFromFirst(url: string, i: nat, from: nat, m: nat)
    requires from <= m < |Markers| && MatchesAt(url, i, Markers[m])
    requires forall m' :: from <= m' < m ==> !MatchesAt(url, i, Markers[m'])
    ensures MarkerFrom(url, i, from) == |Markers[m]|
    decreases m - from
  {
    if from < m {
      MarkerFromFirst(url, i, from + 1, m);
    }
  }

  /** A clear marker word at `p` is the alternative that matches there, whole. */
  lemma WordMarkerAt(url: string, p: nat, m: nat, w: string)
    requires ClearMarkerWord(m, w)
    requires p + |w| <= |url| && url[p..p + |w|] == w
    ensures MarkerAt(url, p) == |w|
  {
    assert MatchesAt(url, p, Markers[m]) by {
      forall k | 0 <= k < |w|
        ensures AtomMatches(Markers[m][k], url[p + k])
      {
        assert url[p + k] == w[k];
      }
    }
    forall m' | 0 <= m' < m
      ensures !MatchesAt(url, p, Markers[m'])
    {
      assert url[p] == w[0];
    }
    MarkerFromFirst(url, p, 0, m);
  }

  /** The literal marker words, each with the alternative that spells it. */
  lemma ClearWordIndex(w: string) returns (m: nat)
    requires w in {"v/", "embed/", "watch?v=", "&v=", "live/"}
    ensures ClearMarkerWord(m, w)
  {
    if w == "v/" {
      ClearV();
      m := 1;
    } else if w == "embed/" {
      ClearEmbed();
      m := 3;
    } else if w == "watch?v=" {
      ClearWatch();
      m := 4;
    } else if w == "&v=" {
      ClearAmp();
      m := 5;
    } else {
      ClearLive();
      m := 6;
    }
  }

  /**
   * After `v/`, `embed/`, `watch?v=`, `&v=` or `live/` on the first line, a
   * run free of `/`, `=`, `#`, `&` and `?` is the id exactly when it is 11
   * UTF-16 units long.
   */
  lemma MarkerWordLength(prefix: string, w: string, id: string)
    requires w in {"v/", "embed/", "watch?v=", "&v=", "live/"}
    requires forall k :: 0 <= k < |prefix| ==> !IsLineTerminator(prefix[k])
    requires forall k :: 0 <= k < |id| ==> IsPlain(id[k])
    ensures ExtractYouTubeId(prefix + w + id) == if Utf16Length(id) == 11 then Some(id) else None
  {
    WordParts(prefix, w, id);
    ResultFromParts(prefix + w + id, |prefix|, id);
  }

  lemma WordParts(prefix: string, w: string, id: string)
    requires w in {"v/", "embed/", "watch?v=", "&v=", "live/"}
    requires forall k :: 0 <= k < |prefix| ==> !IsLineTerminator(prefix[k])
    requires forall k :: 0 <= k < |id| ==> IsPlain(id[k])
    ensures GroupsAt(prefix + w + id, |prefix|, id)
  {
    var url := prefix + w + id;
    var p := |prefix|;
    assert url[..p] == prefix;
    assert url[p..p + |w|] == w;
    assert url[p + |w|..] == id;
    PrefixReachable(url, prefix);
    WordGroups(url, p, w, id);
  }

  lemma WordGroups(url: string, p: nat, w: string, id: string)
    requires w in {"v/", "embed/", "watch?v=", "&v=", "live/"}
    requires Reachable(url, p) && p + |w| <= |url| && url[p..p + |w|] == w
    requires url[p + |w|..] == id
    requires forall k :: 0 <= k < |id| ==> IsPlain(id[k])
    ensures GroupsAt(url, p, id)
  {
    WordMarker(url, p, w);
    assert forall k :: p + |w| <= k < |url| ==> url[k] == id[k - p - |w|];
    forall j | p + |w| <= j <= |url|
      ensures MarkerAt(url, j) == 0
    {
      NoMarkerInsideId(url, p + |w|, j);
    }
    IdRunAll(url, p + |w|);
    MarkerGroups(url, p, |w|, id);
  }

  /** `^.*` reaches the end of a prefix free of line terminators. */
  lemma PrefixReachable(url: string, prefix: string)
    requires |prefix| <= |url| && url[..|prefix|] == prefix
    requires forall k :: 0 <= k < |prefix| ==> !IsLineTerminator(prefix[k])
    ensures Reachable(url, |prefix|)
  {
    forall k | 0 <= k < |prefix|
      ensures !IsLineTerminator(url[k])
    {
      assert url[k] == url[..|prefix|][k];
    }
  }

  /**
   * A marker word at `p`: its alternative matches there, whole, and no
   * alternative starts inside it.
   */
  lemma WordMarker(url: string, p: nat, w: string)
    requires w in {"v/", "embed/", "watch?v=", "&v=", "live/"}
    requires p + |w| <= |url| && url[p..p + |w|] == w
    ensures MarkerAt(url, p) == |w|
    ensures forall j :: p < j < p + |w| ==> MarkerAt(url, j) == 0
  {
    var m := ClearWordIndex(w);
    WordMarkerAt(url, p, m, w);
    forall j | p < j < p + |w|
      ensures MarkerAt(url, j) == 0
    {
      NoMarkerInsideWord(url, p, m, w, j);
    }
  }

  /**
   * A marker of length `n` at `p` on the first line, after which no
   * alternative starts: the pattern stops there, and group 2 follows it.
   */
  lemma MarkerGroups(url: string, p: nat, n: nat, id: string)
    requires Reachable(url, p) && MarkerAt(url, p) == n > 0
    requires forall j :: p < j <= |url| ==> MarkerAt(url, j) == 0
    requires IdRun(url, p + n) == id
    ensures GroupsAt(url, p, id)
  {
    LastMarkerIs(url, |url|, p);
  }

  /** The last marker on the first line starts at `p`, and group 2 after it is `id`. */
  predicate GroupsAt(url: string, p: nat, id: string)
  {
    && LastMarker(url, |url|) == Some(p)
    && p + MarkerAt(url, p) <= |url| && IdRun(url, p + MarkerAt(url, p)) == id
  }

  /** With the last marker at `p` and group 2 equal to `id`, the result is decided by `id`'s length. */
  lemma ResultFromParts(url: string, p: nat, id: string)
    requires GroupsAt(url, p, id)
    ensures ExtractYouTubeId(url) == if Utf16Length(id) == 11 then Some(id) else None
  {
    var n := MarkerAt(url, p);
    assert ExtractYouTubeId(url) == if Utf16Length(IdRun(url, p + n)) == 11 then Some(IdRun(url, p + n)) else None;
  }

  /**
   * `.../watch?v=<id>` yields the id when it is 11 id characters, whatever
   * comes before on the line (an earlier marker included: the last one wins).
   */
  lemma WatchAddress(prefix: string, id: string)
    requires forall k :: 0 <= k < |prefix| ==> !IsLineTerminator(prefix[k])
    requires |id| == 11 && forall k :: 0 <= k < |id| ==> IsIdChar(id[k])
    ensures ExtractYouTubeId(prefix + "watch?v=" + id) == Some(id)
  {
    MarkerWordLength(prefix, "watch?v=", id);
    Utf16LengthOfBmp(id);
  }

  /** An id of any other length than 11 is refused. */
  lemma WrongLengthRefused(prefix: string, id: string)
    requires forall k :: 0 <= k < |prefix| ==> !IsLineTerminator(prefix[k])
    requires |id| != 11 && forall k :: 0 <= k < |id| ==> IsIdChar(id[k])
    ensures ExtractYouTubeId(prefix + "watch?v=" + id) == None
  {
    MarkerWordLength(prefix, "watch?v=", id);
    Utf16LengthOfBmp(id);
  }
  /** Fifteen id characters after `watch?v=` are refused, not cut to eleven. */
  lemma LongRunRefused()
    ensures ExtractYouTubeId("watch?v=" + "aaaaaaaaaaaaaaa") == None
  {
    WrongLengthRefused("", "aaaaaaaaaaaaaaa");
    assert "" + "watch?v=" + "aaaaaaaaaaaaaaa" == "watch?v=" + "aaaaaaaaaaaaaaa";
  }


  /**
   * Ten letters and one emoji are eleven characters but twelve UTF-16
   * units, so the length test refuses them.
   */
  lemma AstralCharCountsTwice()
    ensures ExtractYouTubeId("watch?v=" + "aaaaaaaaaa\U{1F600}") == None
  {
    var letters, emoji := "aaaaaaaaaa", "\U{1F600}";
    Utf16LengthOfBmp(letters);
    Utf16LengthAppend(letters, emoji);
    assert Utf16Length(letters + emoji) == 12;
    MarkerWordLength("", "watch?v=", letters + emoji);
    assert "" + "watch?v=" + (letters + emoji) == "watch?v=" + "aaaaaaaaaa\U{1F600}";
  }

  lemma {:induction false} Utf16LengthAppend(a: string, b: string)
    ensures Utf16Length(a + b) == Utf16Length(a) + Utf16Length(b)
    decreases |a|
  {
    if |a| == 0 {
      assert a + b == b;
    } else {
      assert (a + b)[1..] == a[1..] + b;
      Utf16LengthAppend(a[1..], b);
    }
  }

  /** The search finds the only matching reachable position after `p`. */
  lemma {:induction false} LastMarkerIs(url: string, n: nat, p: nat)
    requires p <= n <= |url|
    requires Reachable(url, p) && MarkerAt(url, p) > 0
    requires forall j :: p < j <= n ==> MarkerAt(url, j) == 0
    ensures LastMarker(url, n) == Some(p)
    decreases n
  {
    if n > p {
      assert MarkerAt(url, n) == 0;
      LastMarkerIs(url, n - 1, p);
    }
  }

  /** A run free of `#`, `&` and `?` to the end of the address is taken whole. */
  lemma {:induction false} IdRunAll(url: string, i: nat)
    requires i <= |url|
    requires forall k :: i <= k < |url| ==> !IsIdStop(url[k])
    ensures IdRun(url, i) == url[i..]
    decreases |url| - i
  {
    if i < |url| {
      IdRunAll(url, i + 1);
    }
  }

  /**
   * A query `?q` after the id: no alternative can start at or after `start`
   * when the only `?` is at `s`, the rest is plain or `=`, and no `v` follows
   * the `?` (which would complete `watch?v=`).
   */
  lemma NoMarkerBeforeQuery(url: string, start: nat, s: nat, j: nat)
    requires start <= j <= |url| && start <= s < |url| && url[s] == '?'
    requires forall k :: start <= k < |url| && k != s ==> IsPlain(url[k]) || url[k] == '='
    requires s + 1 < |url| ==> url[s + 1] != 'v'
    ensures MarkerAt(url, j) == 0
  {
    forall m | 0 <= m < |Markers|
      ensures !MatchesAt(url, j, Markers[m])
    {
      if m == 4 {
        assert Markers[m][5] == Lit('?') && Markers[m][6] == Lit('v');
        if j + |Markers[m]| <= |url| && url[j + 5] == '?' {
          assert j + 5 == s;
        }
      } else {
        var special := [8, 1, 3, 5, 0, 0, 4][m];
        assert Markers[m][special].Lit? && Markers[m][special].c in {'/', '&'};
      }
    }
    MarkerFromMatches(url, j, 0);
  }

  /** Group 2 ends at the first `#`, `&` or `?`. */
  lemma {:induction false} IdRunUpTo(url: string, i: nat, e: nat)
    requires i <= e < |url| && IsIdStop(url[e])
    requires forall k :: i <= k < e ==> !IsIdStop(url[k])
    ensures IdRun(url, i) == url[i..e]
    decreases e - i
  {
    if i < e {
      IdRunUpTo(url, i + 1, e);
    }
  }

  /** No alternative starts in an id followed by a query `?q` of plain characters and `=`. */
  lemma NoMarkerInIdAndQuery(url: string, start: nat, id: string, q: string, j: nat)
    requires start <= j <= |url| && url[start..] == id + "?" + q
    requires forall k :: 0 <= k < |id| ==> IsPlain(id[k])
    requires forall k :: 0 <= k < |q| ==> IsPlain(q[k]) || q[k] == '='
    requires |q| > 0 ==> q[0] != 'v'
    ensures MarkerAt(url, j) == 0
  {
    var s := start + |id|;
    assert url[s] == (id + "?" + q)[|id|];
    assert forall k :: start <= k < s ==> url[k] == (id + "?" + q)[k - start] == id[k - start];
    assert forall k :: s < k < |url| ==> url[k] == (id + "?" + q)[k - start] == q[k - s - 1];
    NoMarkerBeforeQuery(url, start, s, j);
  }

  /** Group 2 before a query is the id. */
  lemma IdRunBeforeQuery(url: string, start: nat, id: string, q: string)
    requires start <= |url| && url[start..] == id + "?" + q
    requires forall k :: 0 <= k < |id| ==> IsPlain(id[k])
    ensures IdRun(url, start) == id
  {
    var s := start + |id|;
    assert url[s] == (id + "?" + q)[|id|];
    assert forall k :: start <= k < s ==> url[k] == (id + "?" + q)[k - start] == id[k - start];
    IdRunUpTo(url, start, s);
    assert url[start..s] == id;
  }

  /**
   * After `v/`, `embed/`, `watch?v=`, `&v=` or `live/` on the first line, an
   * id followed by a query `?q` whose characters are plain or `=` (and which
   * does not start with `v`) is returned exactly when it is 11 UTF-16 units
   * long: the query is cut off.
   */
  lemma MarkerWordQueryLength(prefix: string, w: string, id: string, q: string)
    requires w in {"v/", "embed/", "watch?v=", "&v=", "live/"}
    requires forall k :: 0 <= k < |prefix| ==> !IsLineTerminator(prefix[k])
    requires forall k :: 0 <= k < |id| ==> IsPlain(id[k])
    requires forall k :: 0 <= k < |q| ==> IsPlain(q[k]) || q[k] == '='
    requires |q| > 0 ==> q[0] != 'v'
    ensures ExtractYouTubeId(prefix + w + id + "?" + q) == if Utf16Length(id) == 11 then Some(id) else None
  {
    WordQueryParts(prefix, w, id, q);
    ResultFromParts(prefix + w + id + "?" + q, |prefix|, id);
  }

  lemma WordQueryParts(prefix: string, w: string, id: string, q: string)
    requires w in {"v/", "embed/", "watch?v=", "&v=", "live/"}
    requires forall k :: 0 <= k < |prefix| ==> !IsLineTerminator(prefix[k])
    requires forall k :: 0 <= k < |id| ==> IsPlain(id[k])
    requires forall k :: 0 <= k < |q| ==> IsPlain(q[k]) || q[k] == '='
    requires |q| > 0 ==> q[0] != 'v'
    ensures GroupsAt(prefix + w + id + "?" + q, |prefix|, id)
  {
    var url := prefix + w + id + "?" + q;
    var p := |prefix|;
    assert url == prefix + w + (id + "?" + q);
    assert url[..p] == prefix;
    assert url[p..p + |w|] == w;
    assert url[p + |w|..] == id + "?" + q;
    PrefixReachable(url, prefix);
    WordQueryGroups(url, p, w, id, q);
  }

  lemma WordQueryGroups(url: string, p: nat, w: string, id: string, q: string)
    requires w in {"v/", "embed/", "watch?v=", "&v=", "live/"}
    requires Reachable(url, p) && p + |w| <= |url| && url[p..p + |w|] == w
    requires url[p + |w|..] == id + "?" + q
    requires forall k :: 0 <= k < |id| ==> IsPlain(id[k])
    requires forall k :: 0 <= k < |q| ==> IsPlain(q[k]) || q[k] == '='
    requires |q| > 0 ==> q[0] != 'v'
    ensures GroupsAt(url, p, id)
  {
    WordMarker(url, p, w);
    NoMarkerAfterWord(url, p, w, id, q);
    IdRunBeforeQuery(url, p + |w|, id, q);
    MarkerGroups(url, p, |w|, id);
  }

  /** No alternative starts after a marker word followed by an id and a query. */
  lemma NoMarkerAfterWord(url: string, p: nat, w: string, id: string, q: string)
    requires w in {"v/", "embed/", "watch?v=", "&v=", "live/"}
    requires p + |w| <= |url| && url[p..p + |w|] == w
    requires url[p + |w|..] == id + "?" + q
    requires forall k :: 0 <= k < |id| ==> IsPlain(id[k])
    requires forall k :: 0 <= k < |q| ==> IsPlain(q[k]) || q[k] == '='
    requires |q| > 0 ==> q[0] != 'v'
    ensures forall j :: p < j <= |url| ==> MarkerAt(url, j) == 0
  {
    WordMarker(url, p, w);
    forall j | p + |w| <= j <= |url|
      ensures MarkerAt(url, j) == 0
    {
      NoMarkerInIdAndQuery(url, p + |w|, id, q, j);
    }
  }

  /**
   * The address shared from the YouTube app, `live/<id>?si=<token>`: the
   * query is cut off by `?` and the id is returned.
   */
  lemma SharedLiveAddress()
    ensures ExtractYouTubeId("https://www.youtube.com/" + "live/" + "y-Os52eW2rg" + "?" + "si=yf9CIMI81lJfNftb")
      == Some("y-Os52eW2rg")
  {
    MarkerWordQueryLength("https://www.youtube.com/", "live/", "y-Os52eW2rg", "si=yf9CIMI81lJfNftb");
    assert Utf16Length("y-Os52eW2rg") == 11;
  }

  // ---------------------------------------------------------------- the stream proxy

  /** `camera.streamUrl`: absent (`undefined` or `null`) or a string. */
  predicate Truthy(streamUrl: Option<string>)
  {
    streamUrl.Some? && streamUrl.value != ""
  }

  const VideoFeedPrefix: string := "/video_feed?url="

  /**
   * `streamSrc`: empty for a missing or empty address, otherwise the proxy
   * path followed by the encoded address (`encode` is `encodeURIComponent`).
   */
  function StreamSrc(streamUrl: Option<string>, encode: string -> string): (src: string)
    ensures src != "" <==> Truthy(streamUrl)
    ensures Truthy(streamUrl) ==>
      |src| >= |VideoFeedPrefix| && src[..|VideoFeedPrefix|] == VideoFeedPrefix
      && src[|VideoFeedPrefix|..] == encode(streamUrl.value)
  {
    if Truthy(streamUrl) then VideoFeedPrefix + encode(streamUrl.value) else ""
  }

  /** What the video container of a camera shows. */
  datatype VideoContent = StreamImage(src: string, alt: string) | NoStreamUrl

  /** An `<img>` of the proxied stream, or the "No stream URL" placeholder when `streamSrc` is empty. */
  function VideoContainer(streamUrl: Option<string>, name: string, encode: string -> string): (content: VideoContent)
    ensures content.NoStreamUrl? <==> !Truthy(streamUrl)
    ensures content.StreamImage? ==> content.src == StreamSrc(streamUrl, encode) && content.alt == name
  {
    var src := StreamSrc(streamUrl, encode);
    if src != "" then StreamImage(src, name) else NoStreamUrl
  }
}
