/** The string operations the report parser is built from: Python's
    `str.strip()`, `str.split()` (on runs of whitespace), `str.split(sep)`
    (on a literal separator, keeping empty parts) and `sep.join(parts)`. */
module Text {

  /** Python's `str.isspace()` for one character: the characters that
      `strip()` removes and `split()` splits on. */
  predicate IsSpace(c: char) {
    var n := c as int;
    (9 <= n <= 13) || (28 <= n <= 32) || n == 0x85 || n == 0xA0 || n == 0x1680
    || (0x2000 <= n <= 0x200A) || n == 0x2028 || n == 0x2029 || n == 0x202F
    || n == 0x205F || n == 0x3000
  }

  predicate NoSpace(s: string) {
    forall k :: 0 <= k < |s| ==> !IsSpace(s[k])
  }

  /** A token of `split()`: non-empty and free of whitespace. */
  predicate IsWord(w: string) {
    |w| > 0 && NoSpace(w)
  }

  predicate AllWords(ws: seq<string>) {
    forall i :: 0 <= i < |ws| ==> IsWord(ws[i])
  }

  // ---------------------------------------------------------------------
  // strip()

  /** `s.lstrip()`: the longest suffix of `s` that does not start with whitespace. */
  function TrimStart(s: string): (r: string)
    ensures |r| <= |s| && r == s[|s| - |r|..]
    ensures forall k :: 0 <= k < |s| - |r| ==> IsSpace(s[k])
    ensures r != [] ==> !IsSpace(r[0])
  {
    if s != [] && IsSpace(s[0]) then TrimStart(s[1..]) else s
  }

  /** `s.rstrip()`: the longest prefix of `s` that does not end with whitespace. */
  function TrimEnd(s: string): (r: string)
    ensures |r| <= |s| && r == s[..|r|]
    ensures forall k :: |r| <= k < |s| ==> IsSpace(s[k])
    ensures r != [] ==> !IsSpace(r[|r| - 1])
  {
    if s != [] && IsSpace(s[|s| - 1]) then TrimEnd(s[..|s| - 1]) else s
  }

  /** `s.strip()`: `s` with its leading and trailing whitespace removed. */
  function Strip(s: string): (r: string)
    ensures r != [] ==> !IsSpace(r[0]) && !IsSpace(r[|r| - 1])
    ensures s != [] && !IsSpace(s[0]) && !IsSpace(s[|s| - 1]) ==> r == s
  {
    TrimEnd(TrimStart(s))
  }

  /** What `strip()` returns is the slice of `s` whose outside is all
      whitespace. */
  lemma StripIsSlice(s: string)
    ensures exists i, j ::
              && 0 <= i <= j <= |s| && Strip(s) == s[i..j]
              && (forall k :: 0 <= k < i ==> IsSpace(s[k]))
              && (forall k :: j <= k < |s| ==> IsSpace(s[k]))
  {
    StripSlice(s);
    StripOutside(s);
    var i, j := StripStart(s), StripEnd(s);
    forall k | 0 <= k < i ensures IsSpace(s[k]) {
      assert s[k] == s[..i][k];
    }
    forall k | j <= k < |s| ensures IsSpace(s[k]) {
      assert s[k] == s[j..][k - j];
    }
  }

  // ---------------------------------------------------------------------
  // split() on whitespace

  /** Length of the run of non-whitespace characters that starts `s`. */
  function WordLen(s: string): (n: nat)
    ensures n <= |s|
    ensures forall k :: 0 <= k < n ==> !IsSpace(s[k])
    ensures n < |s| ==> IsSpace(s[n])
  {
    if s == [] || IsSpace(s[0]) then 0 else 1 + WordLen(s[1..])
  }

  /** `s.split()`: the maximal runs of non-whitespace characters of `s`, in
      order; never an empty token. */
  function SplitWs(s: string): (ws: seq<string>)
    ensures AllWords(ws)
    decreases |s|
  {
    if s == [] then []
    else if IsSpace(s[0]) then SplitWs(s[1..])
    else
      var n := WordLen(s);
      [s[..n]] + SplitWs(s[n..])
  }

  predicate AllSpace(s: string) {
    forall k :: 0 <= k < |s| ==> IsSpace(s[k])
  }

  /** The text `gaps[0] + ws[0] + gaps[1] + ... + ws[n - 1] + gaps[n]`. */
  function Interleave(gaps: seq<string>, ws: seq<string>): string
    requires |gaps| == |ws| + 1
    decreases |ws|
  {
    if ws == [] then gaps[0] else gaps[0] + ws[0] + Interleave(gaps[1..], ws[1..])
  }

  /** The whitespace before, between and after the tokens of `s.split()`. */
  function Gaps(s: string): (g: seq<string>)
    ensures |g| == |SplitWs(s)| + 1
    decreases |s|
  {
    if s == [] then [""]
    else if IsSpace(s[0]) then
      var g := Gaps(s[1..]);
      [[s[0]] + g[0]] + g[1..]
    else [""] + Gaps(s[WordLen(s)..])
  }

  /** Text in front of the first gap. */
  function WithPrefix(x: string, g: seq<string>): seq<string>
    requires |g| > 0
  {
    [x + g[0]] + g[1..]
  }

  /** Text after the last gap. */
  function WithSuffix(g: seq<string>, y: string): seq<string>
    requires |g| > 0
  {
    g[..|g| - 1] + [g[|g| - 1] + y]
  }

  lemma InterleavePrefix(x: string, g: seq<string>, ws: seq<string>)
    requires |g| == |ws| + 1
    ensures Interleave(WithPrefix(x, g), ws) == x + Interleave(g, ws)
  {
    var h := WithPrefix(x, g);
    assert h[1..] == g[1..];
  }

  lemma {:induction false} InterleaveSuffix(g: seq<string>, ws: seq<string>, y: string)
    requires |g| == |ws| + 1
    ensures Interleave(WithSuffix(g, y), ws) == Interleave(g, ws) + y
    decreases |ws|
  {
    var h := WithSuffix(g, y);
    if ws != [] {
      assert h[1..] == WithSuffix(g[1..], y);
      InterleaveSuffix(g[1..], ws[1..], y);
    }
  }

  /** `s` is the tokens `ws` with the whitespace gaps `g` around them, and
      the gaps between two tokens are not empty. When every token is a word
      this makes the tokens exactly the maximal non-whitespace runs of `s`,
      in order. */
  predicate LaidOut(s: string, ws: seq<string>, g: seq<string>) {
    && |g| == |ws| + 1
    && (forall i :: 0 <= i < |g| ==> AllSpace(g[i]))
    && (forall i :: 0 < i < |ws| ==> g[i] != [])
    && Interleave(g, ws) == s
  }

  /** `s.split()` takes `s` apart completely: its tokens are laid out in `s`
      with whitespace gaps around them. */
  lemma {:induction false} SplitWsLayout(s: string)
    ensures LaidOut(s, SplitWs(s), Gaps(s))
    decreases |s|
  {
    if s == [] {
    } else if IsSpace(s[0]) {
      var rest := s[1..];
      SplitWsLayout(rest);
      assert s == [s[0]] + rest;
      SpaceLaidOut(s[0], rest, SplitWs(rest), Gaps(rest));
    } else {
      var n := WordLen(s);
      var rest := s[n..];
      SplitWsLayout(rest);
      assert s == s[..n] + rest;
      var g := Gaps(rest);
      assert rest != [] ==> IsSpace(rest[0]) && g[0] != [];
      WordLaidOut(s[..n], rest, SplitWs(rest), g);
    }
  }

  /** A leading space joins the first gap. */
  lemma SpaceLaidOut(c: char, rest: string, ws: seq<string>, g: seq<string>)
    requires IsSpace(c) && LaidOut(rest, ws, g)
    ensures LaidOut([c] + rest, ws, WithPrefix([c], g))
  {
    var h := WithPrefix([c], g);
    InterleavePrefix([c], g, ws);
    assert AllSpace(h[0]);
    forall k | 0 < k < |h| ensures h[k] == g[k] {
    }
  }

  /** A leading word is the first token, after an empty first gap, when
      what follows it starts a non-empty gap. */
  lemma WordLaidOut(w: string, rest: string, ws: seq<string>, g: seq<string>)
    requires LaidOut(rest, ws, g)
    requires ws != [] ==> g[0] != []
    ensures LaidOut(w + rest, [w] + ws, [""] + g)
  {
    var ws', g' := [w] + ws, [""] + g;
    assert ws'[1..] == ws && g'[1..] == g;
    forall k | 0 < k < |g'| ensures g'[k] == g[k - 1] {
    }
  }

  /** Whitespace added at both ends of a laid-out text joins its outer gaps. */
  lemma LaidOutPadded(s: string, ws: seq<string>, g: seq<string>, x: string, y: string)
    requires LaidOut(s, ws, g) && AllSpace(x) && AllSpace(y)
    ensures LaidOut(x + s + y, ws, WithSuffix(WithPrefix(x, g), y))
  {
    var g1 := WithPrefix(x, g);
    var h := WithSuffix(g1, y);
    InterleavePrefix(x, g, ws);
    InterleaveSuffix(g1, ws, y);
    assert AllSpace(g1[0]);
    forall k | 0 <= k < |h| ensures AllSpace(h[k]) {
      if k == |h| - 1 {
        assert AllSpace(g1[k]);
      } else {
        assert h[k] == g1[k];
      }
    }
  }

  /** Where `s.strip()` starts and ends within `s`. */
  function StripStart(s: string): nat {
    |s| - |TrimStart(s)|
  }

  function StripEnd(s: string): nat {
    StripStart(s) + |Strip(s)|
  }

  /** `s.strip()` is the slice of `s` between `StripStart` and `StripEnd`. */
  lemma StripSlice(s: string)
    ensures StripEnd(s) <= |s| && Strip(s) == s[StripStart(s)..StripEnd(s)]
  {
    var t, r := TrimStart(s), Strip(s);
    assert t == s[StripStart(s)..] && r == TrimEnd(t) && r == t[..|r|];
  }

  /** What `lstrip()` cuts off is whitespace. */
  lemma TrimStartCut(s: string)
    ensures AllSpace(s[..|s| - |TrimStart(s)|])
  {
    var n := |s| - |TrimStart(s)|;
    forall k | 0 <= k < n ensures IsSpace(s[..n][k]) {
      assert s[..n][k] == s[k];
    }
  }

  /** What `rstrip()` cuts off is whitespace. */
  lemma TrimEndCut(s: string)
    ensures AllSpace(s[|TrimEnd(s)|..])
  {
    var n := |TrimEnd(s)|;
    forall k | 0 <= k < |s| - n ensures IsSpace(s[n..][k]) {
      assert s[n..][k] == s[n + k];
    }
  }

  /** What `strip()` cuts off at either end is whitespace. */
  lemma StripOutside(s: string)
    ensures StripEnd(s) <= |s|
    ensures AllSpace(s[..StripStart(s)]) && AllSpace(s[StripEnd(s)..])
  {
    var t := TrimStart(s);
    var r := TrimEnd(t);
    TrimStartCut(s);
    TrimEndCut(t);
    assert t == s[StripStart(s)..];
    assert s[StripEnd(s)..] == t[|r|..];
  }

  /** A sequence is its three slices at `i` and `j`, put back together. */
  lemma ThreeSlices(s: string, i: nat, j: nat)
    requires i <= j <= |s|
    ensures s == s[..i] + s[i..j] + s[j..]
  {
    assert s[..i] + s[i..j] == s[..j];
  }

  /** `lstrip()` removes all-whitespace `x` from the front of `m` when `m`
      does not start with whitespace. */
  lemma {:induction false} TrimStartSpaces(x: string, m: string)
    requires AllSpace(x) && (m == [] || !IsSpace(m[0]))
    ensures TrimStart(x + m) == m
    decreases |x|
  {
    if x == [] {
      assert x + m == m;
    } else {
      assert (x + m)[1..] == x[1..] + m;
      assert AllSpace(x[1..]) by {
        forall k | 0 <= k < |x| - 1 ensures IsSpace(x[1..][k]) {
          assert x[1..][k] == x[k + 1];
        }
      }
      TrimStartSpaces(x[1..], m);
    }
  }

  /** `rstrip()` removes all-whitespace `y` from the back of `m` when `m`
      does not end with whitespace. */
  lemma {:induction false} TrimEndSpaces(m: string, y: string)
    requires AllSpace(y) && (m == [] || !IsSpace(m[|m| - 1]))
    ensures TrimEnd(m + y) == m
    decreases |y|
  {
    if y == [] {
      assert m + y == m;
    } else {
      var z := y[..|y| - 1];
      assert (m + y)[..|m + y| - 1] == m + z;
      assert AllSpace(z) by {
        forall k | 0 <= k < |z| ensures IsSpace(z[k]) {
          assert z[k] == y[k];
        }
      }
      TrimEndSpaces(m, z);
    }
  }

  /** `strip()` of `x + m + y` is `m` whenever `x` and `y` are whitespace
      and `m` neither starts nor ends with whitespace: what `strip()`
      returns is determined by that shape. */
  lemma StripUnique(x: string, m: string, y: string)
    requires AllSpace(x) && AllSpace(y)
    requires m != [] ==> !IsSpace(m[0]) && !IsSpace(m[|m| - 1])
    ensures Strip(x + m + y) == m
  {
    if m == [] {
      assert x + m + y == x + y;
      AllSpaceConcat(x, y);
      TrimStartSpaces(x + y, []);
      assert x + y + [] == x + y;
    } else {
      assert x + m + y == x + (m + y);
      TrimStartSpaces(x, m + y);
      TrimEndSpaces(m, y);
    }
  }

  lemma AllSpaceConcat(a: string, b: string)
    requires AllSpace(a) && AllSpace(b)
    ensures AllSpace(a + b)
  {
    forall k | 0 <= k < |a + b| ensures IsSpace((a + b)[k]) {
      if k >= |a| {
        assert (a + b)[k] == b[k - |a|];
      }
    }
  }

  /** Trailing whitespace does not change what `strip()` returns. */
  lemma StripPadRight(e: string, tail: string)
    requires AllSpace(tail)
    ensures Strip(e + tail) == Strip(e)
  {
    var i, j := StripStart(e), StripEnd(e);
    StripSlice(e);
    StripOutside(e);
    ThreeSlices(e, i, j);
    StripMorePadding(e[..i], e[i..j], e[j..], tail);
  }

  lemma StripMorePadding(x: string, m: string, z: string, tail: string)
    requires AllSpace(x) && AllSpace(z) && AllSpace(tail)
    requires m != [] ==> !IsSpace(m[0]) && !IsSpace(m[|m| - 1])
    ensures Strip(x + m + z + tail) == m
  {
    AllSpaceConcat(z, tail);
    assert x + m + z + tail == x + m + (z + tail);
    StripUnique(x, m, z + tail);
  }

  /** Stripping whitespace-padded text whose middle neither starts nor ends
      with whitespace. */
  lemma StripAroundMiddle(x: string, u: string, mid: string, d: string, y: string)
    requires AllSpace(x) && AllSpace(y)
    requires u != [] ==> !IsSpace(u[0])
    requires d != [] ==> !IsSpace(d[|d| - 1])
    requires mid != [] && !IsSpace(mid[0]) && !IsSpace(mid[|mid| - 1])
    ensures Strip((x + u) + mid + (d + y)) == u + mid + d
  {
    var m := u + mid + d;
    assert (x + u) + mid + (d + y) == x + m + y;
    assert m[0] == if u != [] then u[0] else mid[0];
    assert m[|m| - 1] == if d != [] then d[|d| - 1] else mid[|mid| - 1];
    StripUnique(x, m, y);
  }

  /** `strip()` of `a + mid + e`, where `mid` neither starts nor ends with
      whitespace, trims only the front of `a` and the back of `e`. */
  lemma StripPadded(a: string, mid: string, e: string)
    requires mid != [] && !IsSpace(mid[0]) && !IsSpace(mid[|mid| - 1])
    ensures Strip(a + mid + e) == TrimStart(a) + mid + TrimEnd(e)
  {
    var u, d := TrimStart(a), TrimEnd(e);
    var x, y := a[..|a| - |u|], e[|d|..];
    TrimStartCut(a);
    TrimEndCut(e);
    assert x + u == a;
    assert d + y == e;
    StripAroundMiddle(x, u, mid, d, y);
  }

  /** `strip()` after `lstrip()` is just `strip()`. */
  lemma StripTrimmedStart(s: string)
    ensures Strip(TrimStart(s)) == Strip(s)
  {
    var t := TrimStart(s);
    assert TrimStart(t) == t;
  }

  /** `strip()` after `rstrip()` is just `strip()`. */
  lemma StripTrimmedEnd(s: string)
    ensures Strip(TrimEnd(s)) == Strip(s)
  {
    var e := TrimEnd(s);
    var tail := s[|e|..];
    TrimEndCut(s);
    assert s == e + tail;
    StripPadRight(e, tail);
  }

  /** The gaps around the tokens of `s.strip().split()` within `s` itself:
      the stripped whitespace joins the outer gaps. */
  function LineGaps(s: string): (g: seq<string>)
    ensures |g| == |SplitWs(Strip(s))| + 1
  {
    StripSlice(s);
    WithSuffix(WithPrefix(s[..StripStart(s)], Gaps(Strip(s))), s[StripEnd(s)..])
  }

  /** `s.strip().split()` lays its tokens out in `s` itself. */
  lemma StripSplitLayout(s: string)
    ensures LaidOut(s, SplitWs(Strip(s)), LineGaps(s))
  {
    var r := Strip(s);
    StripSlice(s);
    StripOutside(s);
    ThreeSlices(s, StripStart(s), StripEnd(s));
    SplitWsLayout(r);
    LaidOutPadded(r, SplitWs(r), Gaps(r), s[..StripStart(s)], s[StripEnd(s)..]);
  }

  // ---------------------------------------------------------------------
  // sep.join(parts)

  /** `sep.join(parts)`. */
  function Join(sep: string, parts: seq<string>): string {
    if |parts| == 0 then ""
    else if |parts| == 1 then parts[0]
    else parts[0] + sep + Join(sep, parts[1..])
  }

  /** A join starts with its first part and ends with its last one, and
      between two parts of a longer list stands the separator. */
  lemma {:induction false} JoinAffixes(sep: string, parts: seq<string>)
    requires |parts| > 0
    ensures var r, z := Join(sep, parts), parts[|parts| - 1];
      && |parts[0]| <= |r| && r[..|parts[0]|] == parts[0]
      && |z| <= |r| && r[|r| - |z|..] == z
      && (|parts| > 1 ==> |parts[0]| + |sep| <= |r| && r[|parts[0]|..|parts[0]| + |sep|] == sep)
  {
    if |parts| > 1 {
      var r, rest := Join(sep, parts), Join(sep, parts[1..]);
      JoinAffixes(sep, parts[1..]);
      assert r == parts[0] + sep + rest;
      var z := parts[|parts| - 1];
      assert z == parts[1..][|parts[1..]| - 1];
      assert r[|r| - |z|..] == rest[|rest| - |z|..];
    }
  }

  /** `sep.join([w] + ws)` is `w`, then `sep`, then `sep.join(ws)`. */
  lemma JoinCons(sep: string, w: string, ws: seq<string>)
    requires |ws| > 0
    ensures Join(sep, [w] + ws) == w + sep + Join(sep, ws)
  {
    assert ([w] + ws)[1..] == ws;
  }

  /** Joining words with single spaces neither starts nor ends with whitespace. */
  lemma {:induction false} JoinWordsUnpadded(ws: seq<string>)
    requires AllWords(ws)
    ensures var j := Join(" ", ws); j != [] ==> !IsSpace(j[0]) && !IsSpace(j[|j| - 1])
  {
    if |ws| > 1 {
      JoinWordsUnpadded(ws[1..]);
      var rest := Join(" ", ws[1..]);
      assert rest != [];
      assert Join(" ", ws) == ws[0] + " " + rest;
    }
  }

  /** A join of two or more parts ends like its last part, or like the
      separator when that part is empty. */
  lemma {:induction false} JoinLast(sep: string, parts: seq<string>)
    requires |parts| >= 2 && sep != [] && !IsSpace(sep[|sep| - 1])
    requires var z := parts[|parts| - 1]; z != [] ==> !IsSpace(z[|z| - 1])
    ensures var j := Join(sep, parts); j != [] && !IsSpace(j[|j| - 1])
  {
    var rest := Join(sep, parts[1..]);
    assert Join(sep, parts) == (parts[0] + sep) + rest;
    if |parts| > 2 {
      JoinLast(sep, parts[1..]);
    }
  }

  /** A join of two or more parts starts like its first part, or like the
      separator when that part is empty, and ends as `JoinLast` says. */
  lemma JoinEnds(sep: string, parts: seq<string>)
    requires |parts| >= 2 && sep != [] && !IsSpace(sep[0]) && !IsSpace(sep[|sep| - 1])
    requires parts[0] != [] ==> !IsSpace(parts[0][0])
    requires var z := parts[|parts| - 1]; z != [] ==> !IsSpace(z[|z| - 1])
    ensures var j := Join(sep, parts); j != [] && !IsSpace(j[0]) && !IsSpace(j[|j| - 1])
  {
    JoinLast(sep, parts);
    var j := Join(sep, parts);
    assert j == parts[0] + (sep + Join(sep, parts[1..]));
    if parts[0] == [] {
      assert j[0] == sep[0];
    } else {
      assert j[0] == parts[0][0];
    }
  }

  /** `split()` undoes `" ".join` on words: the whitespace tokens of words
      joined by single spaces are those words. */
  lemma {:induction false} SplitJoinWords(ws: seq<string>)
    requires AllWords(ws)
    ensures SplitWs(Join(" ", ws)) == ws
  {
    if |ws| == 0 {
    } else {
      var w := ws[0];
      var j := Join(" ", ws);
      if |ws| == 1 {
        WordLenOfWord(w, "");
        assert j == w + "";
        assert j[|w|..] == "";
      } else {
        var rest := Join(" ", ws[1..]);
        assert j == w + (" " + rest);
        WordLenOfWord(w, " " + rest);
        assert j[..|w|] == w;
        assert j[|w|..] == " " + rest;
        assert (" " + rest)[1..] == rest;
        SplitJoinWords(ws[1..]);
      }
    }
  }

  /** A word followed by nothing or by whitespace is read as one token. */
  lemma {:induction false} WordLenOfWord(w: string, t: string)
    requires IsWord(w)
    requires t != [] ==> IsSpace(t[0])
    ensures WordLen(w + t) == |w|
  {
    assert (w + t)[0] == w[0];
    assert (w + t)[1..] == w[1..] + t;
    if |w| > 1 {
      WordLenOfWord(w[1..], t);
    }
  }

  // ---------------------------------------------------------------------
  // split(sep), keeping empty parts

  /** `sep` occurs in `s` at position `i`. */
  predicate OccursAt(s: string, sep: string, i: nat) {
    i + |sep| <= |s| && s[i..i + |sep|] == sep
  }

  predicate Contains(s: string, sep: string) {
    exists i :: 0 <= i <= |s| && OccursAt(s, sep, i)
  }

  /** Position of the first occurrence of `sep` in `s` at or after `from`,
      or `|s|` when there is none. */
  function FindFrom(s: string, sep: string, from: nat): (i: nat)
    requires 0 < |sep| && from <= |s|
    ensures from <= i <= |s|
    ensures i < |s| ==> OccursAt(s, sep, i)
    ensures forall k: nat :: from <= k < i ==> !OccursAt(s, sep, k)
    ensures i == |s| ==> forall k: nat :: from <= k ==> !OccursAt(s, sep, k)
    decreases |s| - from
  {
    if from + |sep| > |s| then |s|
    else if s[from..from + |sep|] == sep then from
    else FindFrom(s, sep, from + 1)
  }

  /** `s.split(sep)` for a non-empty separator: the pieces between the
      non-overlapping occurrences of `sep`, found left to right. There is
      always at least one piece, no piece contains `sep`, and joining the
      pieces with `sep` gives back `s`. */
  function SplitOn(s: string, sep: string): (parts: seq<string>)
    requires 0 < |sep|
    ensures |parts| >= 1
    ensures forall i :: 0 <= i < |parts| ==> !Contains(parts[i], sep)
    ensures Join(sep, parts) == s
    decreases |s|
  {
    var i := FindFrom(s, sep, 0);
    if i == |s| then
      assert !Contains(s, sep);
      [s]
    else
      var head, tail := s[..i], s[i + |sep|..];
      var rest := SplitOn(tail, sep);
      assert !Contains(head, sep) by {
        forall k: nat | OccursAt(head, sep, k) ensures false {
          assert s[k..k + |sep|] == head[k..k + |sep|];
          assert OccursAt(s, sep, k);
        }
      }
      assert s == head + sep + tail;
      [head] + rest
  }

  /** `split(c)` undoes `c.join` for a one-character separator that none
      of the parts contains. */
  lemma {:induction false} SplitJoinOneChar(parts: seq<string>, c: char)
    requires |parts| >= 1
    requires forall i :: 0 <= i < |parts| ==> c !in parts[i]
    ensures SplitOn(Join([c], parts), [c]) == parts
  {
    var p := parts[0];
    var s := Join([c], parts);
    forall k: nat | k < |p| ensures !OccursAt(p, [c], k) {
      assert p[k] in p;
    }
    if |parts| == 1 {
      assert FindFrom(s, [c], 0) == |s|;
    } else {
      var rest := Join([c], parts[1..]);
      assert s == p + [c] + rest;
      assert OccursAt(s, [c], |p|);
      forall k: nat | k < |p| ensures !OccursAt(s, [c], k) {
        assert s[k] == p[k];
      }
      var i := FindFrom(s, [c], 0);
      assert i == |p|;
      assert s[..i] == p;
      assert s[i + 1..] == rest;
      SplitJoinOneChar(parts[1..], c);
    }
  }
}
