/** The key routing of backend/src/portable-delegation.ts: normalisation, nested prefixes, containment and
    the router that forwards a key only under an activated resource. */
module KvPaths {
  import opened Optional

  // ---- Normalising and prefixing ------------------------------------------------------------------

  /** replace(/^\/+/, "") */
  function TrimStart(s: string): string { if s != "" && s[0] == '/' then TrimStart(s[1..]) else s }

  /** replace(/\/+$/, "") */
  function TrimEnd(s: string): string { if s != "" && s[|s| - 1] == '/' then TrimEnd(s[..|s| - 1]) else s }

  function Normalize(path: string): string { TrimEnd(TrimStart(path)) }

  function ApplyPrefix(prefix: string, key: string): string {
    var p, k := Normalize(prefix), TrimStart(key);
    if p == "" then k else if k == "" then p else p + "/" + k
  }

  lemma {:induction false} TrimStartShape(s: string)
    ensures TrimStart(s) == "" || TrimStart(s)[0] != '/'
    decreases |s|
  {
    if s != "" && s[0] == '/' { TrimStartShape(s[1..]); }
  }

  lemma {:induction false} TrimEndShape(s: string)
    ensures TrimEnd(s) == "" || TrimEnd(s)[|TrimEnd(s)| - 1] != '/'
    ensures s != "" && s[0] != '/' ==> TrimEnd(s) != "" && TrimEnd(s)[0] == s[0]
    decreases |s|
  {
    if s != "" && s[|s| - 1] == '/' { TrimEndShape(s[..|s| - 1]); }
  }

  lemma {:induction false} TrimEndConcat(a: string, b: string)
    requires TrimEnd(b) != ""
    ensures TrimEnd(a + b) == a + TrimEnd(b)
    decreases |b|
  {
    assert (a + b)[|a + b| - 1] == b[|b| - 1];
    if b[|b| - 1] == '/' {
      assert (a + b)[..|a + b| - 1] == a + b[..|b| - 1];
      TrimEndConcat(a, b[..|b| - 1]);
    }
  }

  predicate AllSlashes(s: string) { forall i :: 0 <= i < |s| ==> s[i] == '/' }

  /** Trimming cuts slashes and nothing else, all of them. */
  lemma {:induction false} TrimStartCuts(s: string) returns (k: nat)
    ensures k <= |s| && TrimStart(s) == s[k..] && AllSlashes(s[..k]) && (k < |s| ==> s[k] != '/')
    decreases |s|
  {
    if s != "" && s[0] == '/' {
      var n := TrimStartCuts(s[1..]);
      k := n + 1;
      assert s[1..][n..] == s[k..] && forall i :: 1 <= i < k ==> s[i] == s[1..][..n][i - 1];
    } else {
      k := 0;
    }
  }

  lemma {:induction false} TrimEndCuts(s: string) returns (k: nat)
    ensures k <= |s| && TrimEnd(s) == s[..k] && AllSlashes(s[k..]) && (k > 0 ==> s[k - 1] != '/')
    decreases |s|
  {
    if s != "" && s[|s| - 1] == '/' {
      var t := s[..|s| - 1];
      k := TrimEndCuts(t);
      assert t[..k] == s[..k] && forall i :: k <= i < |t| ==> t[i] == t[k..][i - k];
    } else {
      k := |s|;
    }
  }

  /** A path, cut into slashes, its normal form and slashes; the normal form neither starts nor ends with one. */
  lemma NormalizeCuts(s: string) returns (before: string, after: string)
    ensures s == before + Normalize(s) + after && AllSlashes(before) && AllSlashes(after)
    ensures Normalize(s) != "" ==> Normalize(s)[0] != '/' && Normalize(s)[|Normalize(s)| - 1] != '/'
  {
    var i := TrimStartCuts(s);
    var t := s[i..];
    var j := TrimEndCuts(t);
    before, after := s[..i], t[j..];
    assert s == before + (t[..j] + after);
  }

  /** A normalised path neither starts nor ends with a slash and is its own normal form. */
  lemma NormalizeShape(s: string)
    ensures var n := Normalize(s);
            && (n == "" || (n[0] != '/' && n[|n| - 1] != '/'))
            && TrimStart(n) == n && TrimEnd(n) == n && Normalize(n) == n
            && (n == "" <==> TrimStart(s) == "")
  {
    TrimStartShape(s);
    TrimEndShape(TrimStart(s));
  }

  /** The normal form of a prefixed key. */
  lemma NormalizePrefixed(p: string, q: string)
    ensures Normalize(ApplyPrefix(p, q)) ==
            if Normalize(p) == "" then Normalize(q) else if Normalize(q) == "" then Normalize(p)
            else Normalize(p) + "/" + Normalize(q)
  {
    NormalizeShape(p);
    NormalizeShape(q);
    TrimStartShape(q);
    var np, lq := Normalize(p), TrimStart(q);
    if np != "" && lq != "" {
      assert np + "/" + lq == np + ("/" + lq);
      TrimEndConcat(np + "/", lq);
      assert TrimStart(np + "/" + lq) == np + "/" + lq;
      assert np + "/" + Normalize(q) == (np + "/") + TrimEnd(lq);
    }
  }

  /** Nested prefixes reach the same key as one combined prefix. */
  lemma PrefixesAssociate(p: string, q: string, k: string)
    ensures ApplyPrefix(p, ApplyPrefix(q, k)) == ApplyPrefix(ApplyPrefix(p, q), k)
  {
    NormalizePrefixed(p, q);
    NormalizeShape(p);
    NormalizeShape(q);
    TrimStartShape(k);
    var np, nq, lk := Normalize(p), Normalize(q), TrimStart(k);
    assert TrimStart(lk) == lk;
    if nq != "" && lk != "" {
      assert TrimStart(nq + "/" + lk) == nq + "/" + lk;
      assert np + "/" + (nq + "/" + lk) == np + "/" + nq + "/" + lk;
    }
  }

  // ---- Segments -----------------------------------------------------------------------------------

  /** split("/"): the empty string has one empty segment. */
  function Split(s: string): seq<string>
    decreases |s|
  {
    var n := NextSlash(s, 0);
    if n == |s| then [s] else [s[..n]] + Split(s[n + 1..])
  }

  /** The position of the first slash at or after `from`, |s| when there is none. */
  function NextSlash(s: string, from: nat): (n: nat)
    requires from <= |s|
    ensures from <= n <= |s|
    ensures n < |s| ==> s[n] == '/'
    decreases |s| - from
  {
    if from == |s| || s[from] == '/' then from else NextSlash(s, from + 1)
  }

  lemma {:induction false} NoSlashBefore(s: string, from: nat)
    requires from <= |s|
    ensures forall i :: from <= i < NextSlash(s, from) ==> s[i] != '/'
    decreases |s| - from
  {
    if from < |s| && s[from] != '/' { NoSlashBefore(s, from + 1); }
  }

  lemma {:induction false} NextSlashIs(s: string, from: nat, n: nat)
    requires from <= n <= |s| && (n < |s| ==> s[n] == '/') && forall i :: from <= i < n ==> s[i] != '/'
    ensures NextSlash(s, from) == n
    decreases |s| - from
  {
    if from < n { NextSlashIs(s, from + 1, n); }
  }

  /** A path whose first segment is known. */
  lemma {:induction false} SplitFirst(first: string, rest: string)
    requires '/' !in first
    ensures Split(first + "/" + rest) == [first] + Split(rest)
  {
    var s := first + "/" + rest;
    assert forall i :: 0 <= i < |first| ==> s[i] == first[i];
    assert s[|first|] == '/';
    NextSlashIs(s, 0, |first|);
    assert s[..|first|] == first && s[|first| + 1..] == rest;
  }

  lemma {:induction false} SplitOne(s: string)
    requires '/' !in s
    ensures Split(s) == [s]
  {
    NextSlashIs(s, 0, |s|);
  }

  /** A path with a slash, cut at its first one. */
  lemma CutFirst(s: string) returns (first: string, rest: string)
    requires '/' in s
    ensures '/' !in first && s == first + "/" + rest && |rest| < |s|
  {
    var n := NextSlash(s, 0);
    NoSlashBefore(s, 0);
    SlashIsFound(s, 0);
    first, rest := s[..n], s[n + 1..];
  }

  lemma {:induction false} SlashIsFound(s: string, from: nat)
    requires from <= |s| && exists i :: from <= i < |s| && s[i] == '/'
    ensures NextSlash(s, from) < |s|
    decreases |s| - from
  {
    if s[from] != '/' { SlashIsFound(s, from + 1); }
  }

  lemma {:induction false} SplitConcat(a: string, b: string)
    ensures Split(a + "/" + b) == Split(a) + Split(b)
    decreases |a|
  {
    hide Split;
    if '/' in a {
      var first, rest := CutFirst(a);
      SplitFirst(first, rest);
      SplitConcat(rest, b);
      SplitFirst(first, rest + "/" + b);
      assert a + "/" + b == first + "/" + (rest + "/" + b);
      Associate([first], Split(rest), Split(b));
    } else {
      SplitOne(a);
      SplitFirst(a, b);
    }
  }

  lemma {:induction false} SplitStep(s: string)
    ensures var n := NextSlash(s, 0); Split(s) == if n == |s| then [s] else [s[..n]] + Split(s[n + 1..])
  {
  }

  lemma Associate(a: seq<string>, b: seq<string>, c: seq<string>)
    ensures (a + b) + c == a + (b + c)
  {
  }

  function JoinPath(segments: seq<string>): string
    requires segments != []
  {
    if |segments| == 1 then segments[0] else segments[0] + "/" + JoinPath(segments[1..])
  }

  lemma {:induction false} JoinSplit(s: string)
    ensures Split(s) != [] && JoinPath(Split(s)) == s
    decreases |s|
  {
    var n := NextSlash(s, 0);
    SplitStep(s);
    hide NextSlash, Split, JoinPath;
    if n == |s| {
      JoinOne(s);
    } else {
      JoinSplit(s[n + 1..]);
      JoinMore(s[..n], Split(s[n + 1..]));
      CutAtSlash(s, n);
    }
  }

  lemma CutAtSlash(s: string, n: nat)
    requires n < |s| && s[n] == '/'
    ensures s == s[..n] + "/" + s[n + 1..]
  {
  }

  lemma {:induction false} JoinMore(first: string, rest: seq<string>)
    requires rest != []
    ensures JoinPath([first] + rest) == first + "/" + JoinPath(rest)
  {
    assert ([first] + rest)[1..] == rest;
  }

  lemma {:induction false} JoinOne(g: string)
    ensures JoinPath([g]) == g
  {}

  lemma {:induction false} JoinConcat(a: seq<string>, b: seq<string>)
    requires a != [] && b != []
    ensures JoinPath(a + b) == JoinPath(a) + "/" + JoinPath(b)
    decreases |a|
  {
    if |a| == 1 {
      assert (a + b)[1..] == b;
    } else {
      assert (a + b)[1..] == a[1..] + b;
      JoinConcat(a[1..], b);
      assert a[0] + "/" + (JoinPath(a[1..]) + "/" + JoinPath(b)) == (a[0] + "/" + JoinPath(a[1..])) + "/" + JoinPath(b);
    }
  }

  predicate Contains(path: string, key: string) {
    var p, k := Normalize(path), Normalize(key);
    k == p || p + "/" <= k
  }

  lemma PrefixIsSegmentPrefix(p: string, k: string)
    ensures (k == p || p + "/" <= k) <==> Split(p) <= Split(k)
  {
    hide Split, JoinPath;
    JoinSplit(p);
    JoinSplit(k);
    if p + "/" <= k {
      var rest := k[|p| + 1..];
      assert k == p + "/" + rest;
      SplitConcat(p, rest);
    }
    if Split(p) <= Split(k) {
      var rest := Split(k)[|Split(p)|..];
      assert Split(k) == Split(p) + rest;
      if rest == [] {
        assert Split(k) == Split(p);
      } else {
        JoinConcat(Split(p), rest);
        assert k == p + "/" + JoinPath(rest);
      }
    }
  }

  /** Containment by string prefix is exactly containment by whole segments. */
  lemma ContainsIsSegmentPrefix(path: string, key: string)
    ensures Contains(path, key) <==> Split(Normalize(path)) <= Split(Normalize(key))
  {
    PrefixIsSegmentPrefix(Normalize(path), Normalize(key));
  }

  /** On normalised paths containment is a partial order. */
  lemma ContainsIsPartialOrder(a: string, b: string, c: string)
    ensures Contains(a, a)
    ensures Contains(a, b) && Contains(b, c) ==> Contains(a, c)
    ensures Contains(a, b) && Contains(b, a) ==> Normalize(a) == Normalize(b)
  {
    ContainsIsSegmentPrefix(a, b);
    ContainsIsSegmentPrefix(b, c);
    ContainsIsSegmentPrefix(a, c);
    ContainsIsSegmentPrefix(b, a);
  }

  // ---- Canonical paths ----------------------------------------------------------------------------

  predicate GoodSegment(s: string) { s != "" && s != "." && s != ".." }

  predicate IsCanonical(path: string) {
    && '\\' !in path
    && (path == "" || path == "/"
        || forall s :: s in Split(if path[|path| - 1] == '/' then path[..|path| - 1] else path) ==> GoodSegment(s))
  }

  /** Everything up to the last slash of the output, which step 2C of remove_dot_segments removes. */
  function DropLastSegment(out: string): string {
    if out == "" then "" else if out[|out| - 1] == '/' then out[..|out| - 1] else DropLastSegment(out[..|out| - 1])
  }

  /** remove_dot_segments, section 5.2.4 of RFC 3986, with its input and output buffers. */
  function RemoveDots(input: string, out: string): string
    decreases |input|
  {
    if input == "" then out
    else if "../" <= input then RemoveDots(input[3..], out)
    else if "./" <= input then RemoveDots(input[2..], out)
    else if "/./" <= input then RemoveDots(input[2..], out)
    else if input == "/." then RemoveDots("/", out)
    else if "/../" <= input then RemoveDots(input[3..], DropLastSegment(out))
    else if input == "/.." then RemoveDots("/", DropLastSegment(out))
    else if input == "." || input == ".." then RemoveDots("", out)
    else
      var n := NextSlash(input, if input[0] == '/' then 1 else 0);
      RemoveDots(input[n..], out + input[..n])
  }

  /** The first segment of s, after an optional leading slash, is g. */
  ghost predicate StartsWithSegment(s: string, lead: string, g: string) {
    && (lead == "" || lead == "/") && '/' !in g
    && lead + g <= s && (|lead + g| == |s| || s[|lead + g|] == '/')
  }

  /** A good segment, or a final empty one, is moved to the output unchanged. */
  lemma MovesSegment(s: string, lead: string, g: string, out: string)
    requires StartsWithSegment(s, lead, g)
    requires GoodSegment(g) || (g == "" && lead == "/" && |s| == 1)
    ensures s != "" && RemoveDots(s, out) == RemoveDots(s[|lead + g|..], out + (lead + g))
  {
    var n := |lead + g|;
    assert forall i :: 0 <= i < n ==> s[i] == (lead + g)[i];
    assert forall i :: 0 <= i < |g| ==> s[|lead| + i] == g[i] && g[i] != '/';
    assert s[..n] == lead + g;
    NextSlashIs(s, if s[0] == '/' then 1 else 0, n);
    if GoodSegment(g) {
      NoDotCase(s, lead, g);
    }
  }

  /** None of the dot cases applies to a good segment, whatever follows it. */
  lemma NoDotCase(s: string, lead: string, g: string)
    requires StartsWithSegment(s, lead, g) && GoodSegment(g)
    ensures !("../" <= s) && !("./" <= s) && !("/./" <= s) && s != "/." && !("/../" <= s) && s != "/.." && s != "."
      && s != ".."
  {
    if lead == "" {
      assert s[..|g|] == g && (|g| == |s| || s[|g|] == '/');
      NotDots(s, g);
      assert s[0] == g[0] != '/';
    } else {
      var t := s[1..];
      assert s[0] == '/';
      TailStarts(s, g);
      NotDots(t, g);
      TailPrefix("/./", s);
      TailPrefix("/../", s);
      assert "/./"[1..] == "./" && "/../"[1..] == "../";
    }
  }

  lemma TailStarts(s: string, g: string)
    requires "/" + g <= s
    ensures |g| <= |s| - 1 && s[1..][..|g|] == g
  {
    assert s[1..][..|g|] == s[1..1 + |g|];
    assert s[1..1 + |g|] == ("/" + g)[1..];
  }

  lemma NotDots(t: string, g: string)
    requires GoodSegment(g) && '/' !in g && |g| <= |t| && t[..|g|] == g && (|g| == |t| || t[|g|] == '/')
    ensures !("../" <= t) && !("./" <= t) && t != "." && t != ".."
  {
    assert forall i :: 0 <= i < |g| ==> t[i] == g[i] && g[i] != '/';
    if |g| == 1 {
      assert g == [t[0]];
    } else {
      assert t[1] == g[1] != '/';
      if |g| == 2 {
        assert g == [t[0], t[1]];
      } else {
        assert t[2] == g[2] != '/';
      }
    }
  }

  lemma TailPrefix(a: string, s: string)
    requires a != ""
    ensures a <= s ==> a[1..] <= s[1..]
  {
    if a <= s {
      assert forall i :: 0 <= i < |a| - 1 ==> a[1..][i] == a[i + 1] == s[i + 1] == s[1..][i];
    }
  }

  /** Segments that all are good, except that the last one may be empty. */
  ghost predicate GoodPath(segments: seq<string>) {
    segments != [] && forall i ::
      0 <= i < |segments| ==>
      '/' !in segments[i] && (GoodSegment(segments[i]) || (i == |segments| - 1 && segments[i] == ""))
  }

  lemma AtTheEnd(out: string)
    ensures RemoveDots("", out) == out
  {}

  lemma {:induction false} KeepsGoodPath(segments: seq<string>, lead: string, out: string)
    requires GoodPath(segments) && (lead == "/" || (lead == "" && segments[0] != ""))
    ensures RemoveDots(lead + JoinPath(segments), out) == out + (lead + JoinPath(segments))
    decreases |segments|
  {
    hide RemoveDots;
    var s := lead + JoinPath(segments);
    if |segments| == 1 {
      assert s == lead + segments[0];
      MovesSegment(s, lead, segments[0], out);
      assert s[|lead + segments[0]|..] == "";
      AtTheEnd(out + s);
    } else {
      var rest := "/" + JoinPath(segments[1..]);
      assert s == lead + segments[0] + rest;
      MovesSegment(s, lead, segments[0], out);
      assert s[|lead + segments[0]|..] == rest;
      KeepsGoodPath(segments[1..], "/", out + (lead + segments[0]));
      assert out + (lead + segments[0]) + rest == out + s;
    }
  }

  lemma {:induction false} SegmentsHaveNoSlash(s: string)
    ensures forall i :: 0 <= i < |Split(s)| ==> '/' !in Split(s)[i]
    decreases |s|
  {
    var n := NextSlash(s, 0);
    NoSlashBefore(s, 0);
    if n < |s| { SegmentsHaveNoSlash(s[n + 1..]); }
  }

  lemma SplitEmpty()
    ensures Split("") == [""]
  {}

  lemma {:induction false} DropShrinks(out: string)
    ensures |DropLastSegment(out)| <= |out|
    decreases |out|
  {
    if out != "" && out[|out| - 1] != '/' { DropShrinks(out[..|out| - 1]); }
  }

  /** Removing dot segments never lengthens a path. */
  lemma {:induction false} RemoveDotsShrinks(input: string, out: string)
    ensures |RemoveDots(input, out)| <= |input| + |out|
    decreases |input|
  {
    DropShrinks(out);
    if input == "" {
    } else if "../" <= input { RemoveDotsShrinks(input[3..], out);
    } else if "./" <= input { RemoveDotsShrinks(input[2..], out);
    } else if "/./" <= input { RemoveDotsShrinks(input[2..], out);
    } else if input == "/." { RemoveDotsShrinks("/", out);
    } else if "/../" <= input { RemoveDotsShrinks(input[3..], DropLastSegment(out));
    } else if input == "/.." { RemoveDotsShrinks("/", DropLastSegment(out));
    } else if input == "." || input == ".." { RemoveDotsShrinks("", out);
    } else {
      var n := NextSlash(input, if input[0] == '/' then 1 else 0);
      RemoveDotsShrinks(input[n..], out + input[..n]);
    }
  }

  /** A canonical path is a fixed point of dot-segment removal: the path that was compared is the path that a
      server removing literal dot segments arrives at. */
  lemma CanonicalIsFixedPoint(path: string)
    requires IsCanonical(path)
    ensures RemoveDots(path, "") == path
  {
    hide RemoveDots, Split, JoinPath, NextSlash;
    AtTheEnd("");
    if path == "/" {
      JoinOne("");
      KeepsGoodPath([""], "/", "");
      assert "/" + JoinPath([""]) == path && "" + ("/" + JoinPath([""])) == path;
    } else if path != "" {
      var trimmed := if path[|path| - 1] == '/' then path[..|path| - 1] else path;
      SegmentsHaveNoSlash(trimmed);
      JoinSplit(trimmed);
      if trimmed == path {
        KeepsGoodPath(Split(path), "", "");
        assert "" + JoinPath(Split(path)) == path;
      } else {
        assert path == trimmed + "/" + "";
        SplitConcat(trimmed, "");
        JoinSplit(path);
        SplitEmpty();
        assert Split(path)[0] == Split(trimmed)[0] && Split(trimmed)[0] in Split(trimmed);
        KeepsGoodPath(Split(path), "", "");
        assert "" + JoinPath(Split(path)) == path;
      }
    }
  }

  function DropSlash(s: string): string { if s != "" && s[|s| - 1] == '/' then s[..|s| - 1] else s }

  predicate IsDots(s: string) { s == "." || s == ".." }

  lemma OnlyDotsShrink(s: string, out: string)
    requires s == "." || s == ".." || s == "/." || s == "/.."
    ensures |RemoveDots(s, out)| < |s| + |out|
  {
    DropShrinks(out);
    RemoveDotsShrinks("/", out);
    RemoveDotsShrinks("/", DropLastSegment(out));
    RemoveDotsShrinks("", out);
  }

  /** What removing a dot segment at the front leaves. */
  lemma DotsAndMore(s: string, out: string)
    requires "../" <= s || "./" <= s || "/./" <= s || "/../" <= s
    ensures |RemoveDots(s, out)| < |s| + |out|
  {
    DropShrinks(out);
    if "../" <= s { RemoveDotsShrinks(s[3..], out); }
    else if "./" <= s { RemoveDotsShrinks(s[2..], out); }
    else if "/./" <= s { RemoveDotsShrinks(s[2..], out); }
    else { DotDotAndMore(s, out); }
  }

  lemma DotDotAndMore(s: string, out: string)
    requires "/../" <= s
    ensures |RemoveDots(s, out)| < |s| + |out|
  {
    DropShrinks(out);
    assert s[1] == '.' && s[2] == '.' && s[0] == '/';
    RemoveDotsShrinks(s[3..], DropLastSegment(out));
  }

  /** A leading dot segment is removed, which shortens the path. */
  lemma FirstDotsShrink(s: string, lead: string, g: string, tail: string, out: string)
    requires s == lead + g + tail && IsDots(g) && (lead == "" || lead == "/") && (tail == "" || tail[0] == '/')
    ensures |RemoveDots(s, out)| < |s| + |out|
  {
    hide RemoveDots;
    if tail == "" {
      assert s == lead + g;
      OnlyDotsShrink(s, out);
    } else {
      var k := |lead + g|;
      assert s[..k + 1] == lead + g + "/";
      if lead == "/" { assert lead + g + "/" == "/./" || lead + g + "/" == "/../"; }
      DotsAndMore(s, out);
    }
  }

  lemma {:induction false} DotsShrink(segments: seq<string>, lead: string, out: string)
    requires segments != [] && (lead == "" || lead == "/")
    requires forall i :: 0 <= i < |segments| ==> '/' !in segments[i] && (segments[i] == "" ==> i == |segments| - 1)
    requires exists i :: 0 <= i < |segments| && IsDots(segments[i])
    ensures |RemoveDots(lead + JoinPath(segments), out)| < |lead + JoinPath(segments)| + |out|
    decreases |segments|
  {
    var s, g := lead + JoinPath(segments), segments[0];
    var tail := if |segments| == 1 then "" else "/" + JoinPath(segments[1..]);
    assert s == lead + g + tail;
    if IsDots(g) {
      FirstDotsShrink(s, lead, g, tail, out);
    } else {
      var i :| 0 <= i < |segments| && IsDots(segments[i]);
      assert segments[1..][i - 1] == segments[i];
      hide RemoveDots;
      MovesSegment(s, lead, g, out);
      assert s[|lead + g|..] == tail;
      DotsShrink(segments[1..], "/", out + (lead + g));
    }
  }

  /** The segments of a path, with an empty last one for a slash at its end. */
  function Segments(path: string): (segments: seq<string>) {
    if DropSlash(path) == path then Split(path) else Split(DropSlash(path)) + [""]
  }

  lemma SegmentsJoin(path: string)
    ensures Segments(path) != [] && JoinPath(Segments(path)) == path
    ensures forall i :: 0 <= i < |Segments(path)| ==> '/' !in Segments(path)[i]
  {
    hide Split, JoinPath;
    var trimmed := DropSlash(path);
    SegmentsHaveNoSlash(trimmed);
    JoinSplit(trimmed);
    if trimmed != path {
      SplitEmpty();
      assert path == trimmed + "/" + "";
      SplitConcat(trimmed, "");
      JoinSplit(path);
    }
  }

  lemma DotSegmentShrinks(path: string)
    requires "" !in Split(DropSlash(path)) && exists g :: g in Split(DropSlash(path)) && IsDots(g)
    ensures RemoveDots(path, "") != path
  {
    hide RemoveDots, Split, JoinPath;
    var segments, first := Segments(path), Split(DropSlash(path));
    SegmentsJoin(path);
    var g :| g in first && IsDots(g);
    var i :| 0 <= i < |first| && first[i] == g;
    assert segments[i] == g;
    assert forall j :: 0 <= j < |first| ==> first[j] in first;
    DotsShrink(segments, "", "");
    assert "" + JoinPath(segments) == path;
  }

  /** Exactly when a path is canonical: it has no backslash, and, unless it is empty or a slash, no empty segment
      up to one slash at its end, and a server that removes literal dot segments leaves it alone. */
  lemma CanonicalIff(path: string)
    ensures IsCanonical(path) <==>
      && '\\' !in path
      && (path == "" || path == "/" || ("" !in Split(DropSlash(path)) && RemoveDots(path, "") == path))
  {
    hide RemoveDots, Split;
    if IsCanonical(path) {
      CanonicalIsFixedPoint(path);
      if path != "" && path != "/" { assert "" in Split(DropSlash(path)) ==> GoodSegment(""); }
    }
    if '\\' !in path && path != "" && path != "/" && "" !in Split(DropSlash(path)) && !IsCanonical(path) {
      var g :| g in Split(DropSlash(path)) && !GoodSegment(g);
      assert IsDots(g);
      DotSegmentShrinks(path);
    }
  }

  // ---- The router ---------------------------------------------------------------------------------

  /** An activated resource: its path and the access it was activated with. */
  datatype Resource = Resource(path: string, access: nat)
  datatype Forwarded = Forwarded(access: nat, key: string)

  /** /%2f|%5c/i */
  predicate HasEncodedSlash(s: string) { exists i: nat :: i < |s| && EncodedAt(s, i) }

  predicate EncodedAt(s: string, i: nat) {
    i + 2 < |s| && s[i] == '%' && ((s[i + 1] == '2' && s[i + 2] in "fF") || (s[i + 1] == '5' && s[i + 2] in "cC"))
  }

  predicate KeyAllowed(key: string) { !HasEncodedSlash(key) && IsCanonical(key) }

  function FindContaining(resources: seq<Resource>, key: string): Option<Resource> {
    if resources == [] then None
    else if Contains(Normalize(resources[0].path), key) then Some(resources[0])
    else FindContaining(resources[1..], key)
  }

  /** What get, put, delete, head and createSignedReadUrl forward; None is a thrown error. */
  function Route(resources: seq<Resource>, scope: string, key: string): Option<Forwarded> {
    var full := ApplyPrefix(scope, key);
    if !KeyAllowed(full) then None
    else match FindContaining(resources, full) case None => None case Some(r) => Some(Forwarded(r.access, full))
  }

  /** What list forwards for its prefix and path options. */
  function RouteList(resources: seq<Resource>, scope: string, prefix: string, path: string): Option<Forwarded>
    requires resources != []
  {
    var requested := ApplyPrefix(ApplyPrefix(scope, prefix), path);
    var target := if requested != "" then requested else Normalize(resources[0].path);
    if !KeyAllowed(target) then None
    else match FindContaining(resources, target) case None => None case Some(r) => Some(Forwarded(r.access, target))
  }

  /** The key lies under an activated resource, whose access it is forwarded to, segment by segment; it has no
      literal dot segment to remove, no backslash and no percent-encoded slash or backslash. (Percent-encoded
      dots are not looked at, by the code or here.) */
  ghost predicate LiesUnder(resources: seq<Resource>, f: Forwarded) {
    && RemoveDots(f.key, "") == f.key && !HasEncodedSlash(f.key) && '\\' !in f.key
    && exists r :: r in resources && r.access == f.access && Split(Normalize(r.path)) <= Split(Normalize(f.key))
  }

  lemma {:induction false} FoundContains(resources: seq<Resource>, key: string)
    ensures match FindContaining(resources, key)
            case Some(r) => r in resources && Split(Normalize(r.path)) <= Split(Normalize(key))
            case None => forall r :: r in resources ==> !Contains(r.path, key)
  {
    if resources != [] {
      NormalizeShape(resources[0].path);
      ContainsIsSegmentPrefix(resources[0].path, key);
      FoundContains(resources[1..], key);
    }
  }

  // ---- The options of a listing -------------------------------------------------------------------

  datatype Options = Options(prefix: Option<string>, path: Option<string>)
  datatype Listing = Listing(access: nat, options: Options)

  /** String(option ?? "") */
  function Text(option: Option<string>): string { match option case None => "" case Some(s) => s }

  /** The listing that list makes: its prefix option becomes the combined prefix, and its path option, which is
      part of it already, goes along. */
  function RouteOptions(resources: seq<Resource>, scope: string, options: Options): Option<Listing>
    requires resources != []
  {
    match RouteList(resources, scope, Text(options.prefix), Text(options.path))
    case None => None
    case Some(f) => Some(Listing(f.access, options.(prefix := Some(f.key))))
  }

  /** What options ask for when a path is joined to its prefix, as the router itself reads them. */
  function Joined(options: Options): string { ApplyPrefix(Text(options.prefix), Text(options.path)) }

  /** Every segment is good. */
  ghost predicate Clean(s: string) { forall g :: g in Split(s) ==> GoodSegment(g) }

  lemma CleanConcat(a: string, b: string)
    ensures Clean(a + "/" + b) <==> Clean(a) && Clean(b)
  {
    SplitConcat(a, b);
    var s, x, y := Split(a + "/" + b), Split(a), Split(b);
    assert s == x + y;
    assert forall g :: g in s <==> g in x || g in y;
  }

  lemma SlashedIsNotClean(s: string)
    ensures s == "" ==> !Clean(s)
    ensures s != "" && s[0] == '/' ==> !Clean(s)
    ensures s != "" && s[|s| - 1] == '/' ==> !Clean(s)
  {
    SplitEmpty();
    assert "" in Split("");
    if s != "" && s[0] == '/' {
      CleanConcat("", s[1..]);
      assert "" + "/" + s[1..] == s;
    }
    if s != "" && s[|s| - 1] == '/' {
      CleanConcat(s[..|s| - 1], "");
      assert s[..|s| - 1] + "/" + "" == s;
    }
  }

  /** A path of good segments neither starts nor ends with a slash. */
  lemma CleanIsNormal(s: string)
    requires Clean(s)
    ensures s != "" && s[0] != '/' && s[|s| - 1] != '/' && TrimStart(s) == s && Normalize(s) == s
      && Normalize(s + "/") == s
  {
    SlashedIsNotClean(s);
    hide Clean;
    assert (s + "/")[..|s + "/"| - 1] == s;
  }

  /** A canonical path that is neither empty nor a slash, up to one slash at its end. */
  lemma CanonicalIs(s: string)
    requires s != "" && s != "/"
    ensures IsCanonical(s) <==> '\\' !in s && Clean(DropSlash(s))
    ensures IsCanonical(s) ==> Normalize(s) == DropSlash(s)
  {
    if IsCanonical(s) {
      CleanIsNormal(DropSlash(s));
      assert s == DropSlash(s) || s == DropSlash(s) + "/";
    }
  }

  lemma EncodedInPart(n: string, k: string, i: nat)
    ensures EncodedAt(n + "/" + k, i) ==> EncodedAt(n, i) || (i > |n| && EncodedAt(k, i - |n| - 1))
  {
    var s := n + "/" + k;
    assert s[|n|] == '/';
    assert forall x :: 0 <= x < |n| ==> s[x] == n[x];
    assert forall x :: 0 <= x < |k| ==> s[|n| + 1 + x] == k[x];
  }

  lemma EncodedInWhole(part: string, s: string, d: nat, i: nat)
    requires d + |part| <= |s| && s[d..d + |part|] == part
    ensures EncodedAt(part, i) ==> EncodedAt(s, d + i)
  {
    if EncodedAt(part, i) { assert part[i] == s[d + i] && part[i + 1] == s[d + i + 1] && part[i + 2] == s[d + i + 2]; }
  }

  /** Joining a beginning and an end of a key encodes no slash that the key does not encode. */
  lemma NoEncodedSlash(n: string, k: string, key: string)
    requires !HasEncodedSlash(key) && n <= key && |k| <= |key| && key[|key| - |k|..] == k
    ensures !HasEncodedSlash(n + "/" + k)
  {
    hide EncodedAt;
    forall i: nat ensures !EncodedAt(n + "/" + k, i) {
      EncodedInPart(n, k, i);
      EncodedInWhole(n, key, 0, i);
      if i > |n| { EncodedInWhole(k, key, |key| - |k|, i - |n| - 1); }
      EncodedIsInside(key, i);
      if i > |n| { EncodedIsInside(key, |key| - |k| + (i - |n| - 1)); }
    }
  }

  lemma EncodedIsInside(s: string, i: nat)
    ensures EncodedAt(s, i) ==> i < |s|
  {
  }

  /** What a key and the key that its path is joined to again look like. */
  lemma JoinedKey(base: string, path: string)
    requires TrimStart(path) != ""
    ensures var key, p, k := ApplyPrefix(base, path), Normalize(base), TrimStart(path);
            && k != "" && k[0] != '/' && key == (if p == "" then k else p + "/" + k)
            && DropSlash(key) == (if p == "" then DropSlash(k) else p + "/" + DropSlash(k)) && DropSlash(k) != ""
            && DropSlash(k)[0] == k[0]
            && |k| <= |key| && key[|key| - |k|..] == k
  {
    TrimStartShape(path);
  }

  lemma DropSlashConcat(n: string, k: string)
    requires k != ""
    ensures DropSlash(n + "/" + k) == n + "/" + DropSlash(k)
  {
  }

  lemma CleanEnd(p: string, j: string)
    ensures Clean(if p == "" then j else p + "/" + j) ==> Clean(j)
  {
    if p != "" { CleanConcat(p, j); }
  }

  /** Joining a path once more to an allowed key that ends with it gives an allowed key below it. */
  lemma JoinedAgain(base: string, path: string)
    requires KeyAllowed(ApplyPrefix(base, path)) && TrimStart(path) != ""
    ensures var key := ApplyPrefix(base, path);
            && KeyAllowed(ApplyPrefix(key, path)) && ApplyPrefix(key, path) == Normalize(key) + "/" + TrimStart(path)
            && Normalize(key) != "" && Normalize(ApplyPrefix(key, path))
              == Normalize(key) + "/" + DropSlash(TrimStart(path))
  {
    var key, k := ApplyPrefix(base, path), TrimStart(path);
    JoinedKey(base, path);
    CanonicalIs(key);
    var n, j := Normalize(key), DropSlash(k);
    CleanEnd(Normalize(base), j);
    CleanIsNormal(n);
    CleanConcat(n, j);
    DropSlashConcat(n, k);
    NoEncodedSlash(n, k, key);
    hide Clean, HasEncodedSlash, IsCanonical, Normalize, TrimStart;
    assert ApplyPrefix(key, path) == n + "/" + k;
    CanonicalIs(n + "/" + k);
  }

  /** Without a path the joined key is the normal form of the key. */
  lemma JoinedToNothing(key: string, path: string)
    requires KeyAllowed(key) && TrimStart(path) == ""
    ensures ApplyPrefix(key, path) == Normalize(key) && KeyAllowed(Normalize(key))
      && Normalize(Normalize(key)) == Normalize(key)
  {
    NormalizeShape(key);
    if key != "" && key != "/" {
      CanonicalIs(key);
      NormalIsAllowed(key);
    }
  }

  lemma NormalIsAllowed(key: string)
    requires KeyAllowed(key) && Normalize(key) == DropSlash(key) && Clean(DropSlash(key))
    ensures KeyAllowed(DropSlash(key))
  {
    var n := DropSlash(key);
    CleanIsNormal(n);
    hide Clean;
    CanonicalIs(n);
    forall i: nat ensures EncodedAt(n, i) ==> EncodedAt(key, i) { EncodedInWhole(n, key, 0, i); }
  }

  /** Where a key that was found lies. */
  lemma AllowedLiesUnder(resources: seq<Resource>, r: Resource, key: string)
    requires r in resources && KeyAllowed(key) && Split(Normalize(r.path)) <= Split(Normalize(key))
    ensures LiesUnder(resources, Forwarded(r.access, key))
  {
    hide Split, RemoveDots, Normalize;
    CanonicalIsFixedPoint(key);
  }

  /** The joined key is allowed and lies below the key. */
  lemma JoinedListing(base: string, path: string, key: string)
    requires KeyAllowed(key) && (key == ApplyPrefix(base, path) || TrimStart(path) == "")
    ensures KeyAllowed(ApplyPrefix(key, path)) && Split(Normalize(key)) <= Split(Normalize(ApplyPrefix(key, path)))
    ensures Normalize(ApplyPrefix(key, path)) == Normalize(key) <==> TrimStart(path) == ""
  {
    if TrimStart(path) == "" {
      JoinedToNothing(key, path);
    } else {
      JoinedAgain(base, path);
      SplitConcat(Normalize(key), DropSlash(TrimStart(path)));
    }
  }

  /** Which key list forwards, and why. */
  lemma ListedKey(resources: seq<Resource>, scope: string, prefix: string, path: string) returns (r: Resource)
    requires resources != [] && RouteList(resources, scope, prefix, path).Some?
    ensures var f := RouteList(resources, scope, prefix, path).value;
            && r in resources && r.access == f.access && KeyAllowed(f.key)
            && Split(Normalize(r.path)) <= Split(Normalize(f.key))
            && (f.key == ApplyPrefix(ApplyPrefix(scope, prefix), path) || TrimStart(path) == "")
  {
    var f := RouteList(resources, scope, prefix, path).value;
    FoundContains(resources, f.key);
    r := FindContaining(resources, f.key).value;
  }

  /** A listing stays under its resource whether the node takes the path option to be part of the prefix
      already or joins it to the prefix as the router did. */
  lemma ListingStaysUnderResources(resources: seq<Resource>, scope: string, options: Options)
    requires resources != [] && RouteOptions(resources, scope, options).Some?
    ensures var l := RouteOptions(resources, scope, options).value;
            && l.options.prefix.Some? && l.options.path == options.path
            && LiesUnder(resources, Forwarded(l.access, l.options.prefix.value))
            && LiesUnder(resources, Forwarded(l.access, Joined(l.options)))
  {
    hide RouteList, LiesUnder, KeyAllowed, Split, Normalize, ApplyPrefix, TrimStart;
    var prefix, path := Text(options.prefix), Text(options.path);
    var r := ListedKey(resources, scope, prefix, path);
    var key := RouteList(resources, scope, prefix, path).value.key;
    JoinedListing(ApplyPrefix(scope, prefix), path, key);
    AllowedLiesUnder(resources, r, key);
    AllowedLiesUnder(resources, r, ApplyPrefix(key, path));
  }

  /** Every key and every listing the router forwards, in any nested scope, lies under some activated resource
      and goes to its access; a listing does so with its path joined to its prefix and without. */
  lemma RouterStaysUnderResources(resources: seq<Resource>, scope: string, key: string, options: Options)
    ensures Route(resources, scope, key).Some? ==> LiesUnder(resources, Route(resources, scope, key).value)
    ensures resources != [] && RouteOptions(resources, scope, options).Some? ==>
      var l := RouteOptions(resources, scope, options).value;
      && l.options.prefix.Some? && l.options.path == options.path
      && LiesUnder(resources, Forwarded(l.access, l.options.prefix.value))
      && LiesUnder(resources, Forwarded(l.access, Joined(l.options)))
  {
    hide RouteOptions, LiesUnder;
    var full := ApplyPrefix(scope, key);
    if Route(resources, scope, key).Some? {
      FoundContains(resources, full);
      AllowedLiesUnder(resources, FindContaining(resources, full).value, full);
    }
    if resources != [] && RouteOptions(resources, scope, options).Some? {
      ListingStaysUnderResources(resources, scope, options);
    }
  }

  /** A node that joins the path to the prefix lists what was asked for exactly when the path is empty, up to
      slashes: otherwise the path, which the prefix contains already, counts twice. */
  lemma PathCountsTwiceIff(resources: seq<Resource>, scope: string, options: Options)
    requires resources != [] && RouteOptions(resources, scope, options).Some?
    ensures var l := RouteOptions(resources, scope, options).value;
            Normalize(Joined(l.options)) == Normalize(l.options.prefix.value) <==> TrimStart(Text(options.path)) == ""
  {
    hide RouteList, KeyAllowed, Split, Normalize, ApplyPrefix, TrimStart;
    var prefix, path := Text(options.prefix), Text(options.path);
    var r := ListedKey(resources, scope, prefix, path);
    JoinedListing(ApplyPrefix(scope, prefix), path, RouteList(resources, scope, prefix, path).value.key);
  }

  // ---- What is forwarded --------------------------------------------------------------------------

  /** A key in a scope: the scope's path without the slashes around it, a slash, and the key without those before
      it; either alone where the other is nothing but slashes. */
  function Requested(scope: string, key: string): string {
    if Normalize(scope) == "" then TrimStart(key)
    else if TrimStart(key) == "" then Normalize(scope)
    else Normalize(scope) + "/" + TrimStart(key)
  }

  predicate IsUnder(r: Resource, key: string) { Split(Normalize(r.path)) <= Split(Normalize(key)) }

  /** The first resource that the key lies under, segment by segment. */
  predicate IsFirstOver(resources: seq<Resource>, key: string, i: nat) {
    i < |resources| && IsUnder(resources[i], key) && forall j :: 0 <= j < i ==> !IsUnder(resources[j], key)
  }

  lemma {:induction false} FindsFirst(resources: seq<Resource>, key: string)
    ensures match FindContaining(resources, key)
            case None => forall i :: 0 <= i < |resources| ==> !IsUnder(resources[i], key)
            case Some(r) => exists i: nat :: IsFirstOver(resources, key, i) && resources[i] == r
  {
    hide Split, Normalize;
    if resources != [] {
      NormalizeShape(resources[0].path);
      ContainsIsSegmentPrefix(Normalize(resources[0].path), key);
      var rest := resources[1..];
      FindsFirst(rest, key);
      if IsUnder(resources[0], key) {
        assert IsFirstOver(resources, key, 0);
      } else if FindContaining(rest, key).Some? {
        var i: nat :| IsFirstOver(rest, key, i) && rest[i] == FindContaining(rest, key).value;
        assert forall j :: 0 < j < i + 1 ==> resources[j] == rest[j - 1];
        assert IsFirstOver(resources, key, i + 1);
      } else {
        assert forall j :: 0 < j < |resources| ==> resources[j] == rest[j - 1];
      }
    }
  }

  lemma OneFirst(resources: seq<Resource>, key: string, i: nat, j: nat)
    requires IsFirstOver(resources, key, i) && IsFirstOver(resources, key, j)
    ensures i == j
  {
  }

  /** A key is forwarded exactly when it is allowed and lies under some resource: it is forwarded as the scope and
      the key say, to the first such resource. */
  lemma RouteIff(resources: seq<Resource>, scope: string, key: string, f: Forwarded)
    ensures Route(resources, scope, key) == Some(f) <==>
      && f.key == Requested(scope, key) && KeyAllowed(f.key)
      && exists i: nat :: IsFirstOver(resources, f.key, i) && f.access == resources[i].access
  {
    var full := Requested(scope, key);
    assert ApplyPrefix(scope, key) == full;
    FindsFirst(resources, full);
    hide IsUnder, KeyAllowed, Normalize, TrimStart;
    forall i: nat | IsFirstOver(resources, full, i)
      ensures FindContaining(resources, full) == Some(resources[i])
    {
      if FindContaining(resources, full).Some? {
        var j: nat :| IsFirstOver(resources, full, j) && resources[j] == FindContaining(resources, full).value;
        OneFirst(resources, full, i, j);
      }
    }
  }

  /** A listing is forwarded exactly when the prefix that scope, prefix and path say, or else the first resource's
      path, is allowed and lies under some resource; that prefix then goes to the first such resource. */
  lemma RouteListIff(resources: seq<Resource>, scope: string, prefix: string, path: string, f: Forwarded)
    requires resources != []
    ensures
      var asked := Requested(Requested(scope, prefix), path);
      RouteList(resources, scope, prefix, path) == Some(f) <==>
        && f.key == (if asked != "" then asked else Normalize(resources[0].path)) && KeyAllowed(f.key)
        && exists i: nat :: IsFirstOver(resources, f.key, i) && f.access == resources[i].access
  {
    var asked := Requested(Requested(scope, prefix), path);
    assert ApplyPrefix(ApplyPrefix(scope, prefix), path) == asked;
    var target := if asked != "" then asked else Normalize(resources[0].path);
    FindsFirst(resources, target);
    hide IsUnder, KeyAllowed, Normalize, TrimStart;
    forall i: nat | IsFirstOver(resources, target, i)
      ensures FindContaining(resources, target) == Some(resources[i])
    {
      if FindContaining(resources, target).Some? {
        var j: nat :| IsFirstOver(resources, target, j) && resources[j] == FindContaining(resources, target).value;
        OneFirst(resources, target, i, j);
      }
    }
  }

  lemma ListedPrefix(resources: seq<Resource>, scope: string, options: Options)
    requires resources != [] && RouteOptions(resources, scope, options).Some?
    ensures
      var asked := Requested(Requested(scope, Text(options.prefix)), Text(options.path));
      asked != "" ==> RouteOptions(resources, scope, options).value.options.prefix == Some(asked)
  {
    var prefix, path := Text(options.prefix), Text(options.path);
    RouteListIff(resources, scope, prefix, path, RouteList(resources, scope, prefix, path).value);
  }

  /** An allowed key under some resource is always forwarded, as it is, to the first such resource. */
  lemma RouterIsComplete(resources: seq<Resource>, scope: string, key: string, r: Resource)
    requires r in resources && KeyAllowed(Requested(scope, key)) && IsUnder(r, Requested(scope, key))
    ensures
      && Route(resources, scope, key).Some? && Route(resources, scope, key).value.key == Requested(scope, key)
      && exists i: nat ::
           IsFirstOver(resources, Requested(scope, key), i)
             && Route(resources, scope, key).value.access == resources[i].access
  {
    hide IsUnder, KeyAllowed, Normalize, TrimStart;
    var full := Requested(scope, key);
    FindsFirst(resources, full);
    var k :| 0 <= k < |resources| && resources[k] == r;
    var i: nat :| IsFirstOver(resources, full, i) && resources[i] == FindContaining(resources, full).value;
    RouteIff(resources, scope, key, Forwarded(resources[i].access, full));
  }

  predicate At(s: string, i: nat, code: string) { i + |code| <= |s| && s[i..i + |code|] == code }

  /** Exactly the percent-encoded slashes and backslashes are refused. */
  lemma EncodedIff(s: string)
    ensures HasEncodedSlash(s) <==>
      exists i: nat :: i < |s| && (At(s, i, "%2f") || At(s, i, "%2F") || At(s, i, "%5c") || At(s, i, "%5C"))
  {
    forall i: nat
      ensures EncodedAt(s, i) <==> At(s, i, "%2f") || At(s, i, "%2F") || At(s, i, "%5c") || At(s, i, "%5C")
    {
      if i + 2 < |s| { assert s[i..i + 3] == [s[i], s[i + 1], s[i + 2]]; }
    }
  }

  /** `withPrefix(p).withPrefix(q)` forwards like `withPrefix` of the combined prefix, and like the router
      without q on the key prefixed with q. */
  lemma NestedScopesAgree(resources: seq<Resource>, p: string, q: string, key: string)
    ensures Route(resources, ApplyPrefix(p, q), key) == Route(resources, p, ApplyPrefix(q, key))
  {
    PrefixesAssociate(p, q, key);
  }

  /** Exactly these keys may be forwarded: without an encoded slash or backslash and without a backslash, with no
      empty segment before the end, and not changed by the removal of dot segments. */
  lemma AllowedIff(key: string)
    ensures KeyAllowed(key) <==>
      && (forall i: nat :: i < |key| ==>
            !At(key, i, "%2f") && !At(key, i, "%2F") && !At(key, i, "%5c") && !At(key, i, "%5C"))
      && '\\' !in key
      && (key == "" || key == "/" || ("" !in Split(DropSlash(key)) && RemoveDots(key, "") == key))
  {
    EncodedIff(key);
    CanonicalIff(key);
    hide HasEncodedSlash, IsCanonical, RemoveDots, Split, At;
  }
}
