/** Option and Result, and the few string and path operations of the Rust standard
    library that the core relies on: `str::split`, `split_once`, `split_whitespace`,
    `trim_end`, `Path::join`, and the key order in which a `BTreeMap<String, _>` is
    iterated. */
module Common {

  datatype Option<+T> = None | Some(value: T)

  datatype Result<+T, +E> = Ok(value: T) | Err(error: E)

  // ---------------------------------------------------------------------------
  // Whitespace, as Rust's `char::is_whitespace` (the Unicode White_Space property)

  predicate IsWhitespace(c: char)
  {
    ('\U{0009}' <= c <= '\U{000D}') || c == ' ' || c == '\U{0085}' || c == '\U{00A0}'
    || c == '\U{1680}' || ('\U{2000}' <= c <= '\U{200A}') || c == '\U{2028}' || c == '\U{2029}'
    || c == '\U{202F}' || c == '\U{205F}' || c == '\U{3000}'
  }

  predicate NoWhitespace(s: string)
  {
    forall i :: 0 <= i < |s| ==> !IsWhitespace(s[i])
  }

  /** `str::trim_end`: drop every trailing whitespace character. */
  function TrimEnd(s: string): (r: string)
    ensures r <= s
    ensures r == [] || !IsWhitespace(r[|r| - 1])
    ensures forall i :: |r| <= i < |s| ==> IsWhitespace(s[i])
  {
    if s != [] && IsWhitespace(s[|s| - 1]) then TrimEnd(s[..|s| - 1]) else s
  }

  /** Trailing whitespace never changes what `trim_end` keeps. */
  lemma {:induction false} TrimEndAppend(s: string, w: string)
    requires forall i :: 0 <= i < |w| ==> IsWhitespace(w[i])
    ensures TrimEnd(s + w) == TrimEnd(s)
    decreases |w|
  {
    if w == [] {
      assert s + w == s;
    } else {
      var w' := w[..|w| - 1];
      assert (s + w)[..|s + w| - 1] == s + w';
      TrimEndAppend(s, w');
    }
  }

  /** A string that does not end in whitespace is its own `trim_end`, with any
      trailing whitespace added. */
  lemma TrimEndExact(s: string, w: string)
    requires s == [] || !IsWhitespace(s[|s| - 1])
    requires forall i :: 0 <= i < |w| ==> IsWhitespace(w[i])
    ensures TrimEnd(s + w) == s
  {
    TrimEndAppend(s, w);
  }

  // ---------------------------------------------------------------------------
  // Splitting on one character, as `str::split(" ")` and `str::split_once(' ')`

  /** Position of the first `c` in `s`. */
  function IndexOf(s: string, c: char): (i: nat)
    requires c in s
    ensures i < |s| && s[i] == c && c !in s[..i]
  {
    if s[0] == c then 0 else 1 + IndexOf(s[1..], c)
  }

  /** The fields are joined back with `c` between neighbours. */
  function JoinWith(fields: seq<string>, c: char): string
    requires fields != []
  {
    if |fields| == 1 then fields[0] else fields[0] + [c] + JoinWith(fields[1..], c)
  }

  /** `s.split(c)`: the pieces between occurrences of `c`; never empty, an empty
      piece stands between two neighbouring separators. */
  function SplitOn(s: string, c: char): (r: seq<string>)
    ensures r != []
    ensures forall i :: 0 <= i < |r| ==> c !in r[i]
    ensures JoinWith(r, c) == s
    decreases |s|
  {
    if c !in s then [s]
    else
      var i := IndexOf(s, c);
      assert s == s[..i] + [c] + s[i + 1..];
      [s[..i]] + SplitOn(s[i + 1..], c)
  }

  /** Splitting undoes joining, when no field holds the separator. */
  lemma {:induction false} SplitJoin(fields: seq<string>, c: char)
    requires fields != []
    requires forall i :: 0 <= i < |fields| ==> c !in fields[i]
    ensures SplitOn(JoinWith(fields, c), c) == fields
    decreases |fields|
  {
    if |fields| > 1 {
      var f0 := fields[0];
      var rest := JoinWith(fields[1..], c);
      var s := f0 + ([c] + rest);
      assert JoinWith(fields, c) == s;
      IndexOfAfterFree(f0, [c] + rest, c);
      assert s[..|f0|] == f0;
      assert s[|f0| + 1..] == rest;
      SplitJoin(fields[1..], c);
      assert SplitOn(s, c) == [f0] + SplitOn(rest, c);
      assert fields == [f0] + fields[1..];
    }
  }

  lemma {:induction false} IndexOfAfterFree(a: string, b: string, c: char)
    requires c !in a && b != [] && b[0] == c
    ensures c in a + b && IndexOf(a + b, c) == |a|
    decreases |a|
  {
    assert (a + b)[|a|] == c;
    if a != [] {
      assert (a + b)[1..] == a[1..] + b;
      IndexOfAfterFree(a[1..], b, c);
    } else {
      assert a + b == b;
    }
  }

  /** The first field of a split is the text up to the first separator, and the
      fields after it are the split of the text after that separator. */
  lemma SplitOnFirst(a: string, t: string, c: char)
    requires c !in a && (t == [] || t[0] == c)
    ensures SplitOn(a + t, c)[0] == a
    ensures t != [] ==> SplitOn(a + t, c)[1..] == SplitOn(t[1..], c)
  {
    if t == [] {
      assert a + t == a;
    } else {
      IndexOfAfterFree(a, t, c);
      assert (a + t)[..|a|] == a;
      assert (a + t)[|a| + 1..] == t[1..];
    }
  }

  /** `s.split_once(c)`: the text before the first `c` and the text after it. */
  function SplitOnce(s: string, c: char): (r: Option<(string, string)>)
    ensures r.None? <==> c !in s
    ensures r.Some? ==> r.value.0 + [c] + r.value.1 == s && c !in r.value.0
  {
    if c in s then
      var i := IndexOf(s, c);
      assert s == s[..i] + [c] + s[i + 1..];
      Some((s[..i], s[i + 1..]))
    else None
  }

  /** The text before the first separator and the text after it. */
  lemma SplitOnceAt(a: string, b: string, c: char)
    requires c !in a
    ensures SplitOnce(a + [c] + b, c) == Some((a, b))
  {
    assert a + [c] + b == a + ([c] + b);
    IndexOfAfterFree(a, [c] + b, c);
    assert (a + [c] + b)[..|a|] == a;
    assert (a + [c] + b)[|a| + 1..] == b;
  }

  // ---------------------------------------------------------------------------
  // `str::split_whitespace`

  /** Length of the run of non-whitespace characters that starts `s`. */
  function WordLength(s: string): (n: nat)
    ensures n <= |s|
    ensures NoWhitespace(s[..n])
    ensures n == |s| || IsWhitespace(s[n])
  {
    if s == [] || IsWhitespace(s[0]) then 0 else 1 + WordLength(s[1..])
  }

  /** `s.split_whitespace()`: the maximal runs of non-whitespace characters. */
  function SplitWhitespace(s: string): (r: seq<string>)
    ensures forall i :: 0 <= i < |r| ==> r[i] != [] && NoWhitespace(r[i])
    decreases |s|
  {
    if s == [] then []
    else if IsWhitespace(s[0]) then SplitWhitespace(s[1..])
    else
      var n := WordLength(s);
      [s[..n]] + SplitWhitespace(s[n..])
  }

  /** `gaps[0] + words[0] + gaps[1] + ... + words[|words| - 1] + gaps[|words|]`. */
  function Interleave(gaps: seq<string>, words: seq<string>): string
    requires |gaps| == |words| + 1
    decreases |words|
  {
    if words == [] then gaps[0] else gaps[0] + words[0] + Interleave(gaps[1..], words[1..])
  }

  predicate AllWhitespace(g: string)
  {
    forall i :: 0 <= i < |g| ==> IsWhitespace(g[i])
  }

  /** `s` is `words` separated by whitespace: every word is non-empty and free of
      whitespace, every gap is whitespace only, and the gaps between two words are
      not empty (the first and the last may be). */
  ghost predicate Spans(s: string, words: seq<string>, gaps: seq<string>)
  {
    && |gaps| == |words| + 1
    && (forall i :: 0 <= i < |words| ==> words[i] != [] && NoWhitespace(words[i]))
    && (forall i :: 0 <= i < |gaps| ==> AllWhitespace(gaps[i]))
    && (forall i :: 0 < i < |words| ==> gaps[i] != [])
    && s == Interleave(gaps, words)
  }

  /** The words `split_whitespace` gives are exactly the maximal runs of
      non-whitespace characters, in order: they split `s` as `Spans` says, and any
      such split gives them. */
  lemma SplitWhitespaceIff(s: string, words: seq<string>)
    ensures SplitWhitespace(s) == words <==> exists gaps :: Spans(s, words, gaps)
  {
    if SplitWhitespace(s) == words {
      var gaps := SplitWhitespaceGaps(s);
    }
    if exists gaps :: Spans(s, words, gaps) {
      var gaps :| Spans(s, words, gaps);
      SpansSplit(s, words, gaps);
    }
  }

  /** The gaps around the words of `s`. */
  lemma {:induction false} SplitWhitespaceGaps(s: string) returns (gaps: seq<string>)
    ensures Spans(s, SplitWhitespace(s), gaps)
    decreases |s|
  {
    if s == [] {
      gaps := [[]];
    } else if IsWhitespace(s[0]) {
      var gaps' := SplitWhitespaceGaps(s[1..]);
      gaps := GapsAfterSpace(s, gaps');
    } else {
      var gaps' := SplitWhitespaceGaps(s[WordLength(s)..]);
      gaps := GapsAfterWord(s, gaps');
    }
  }

  /** Leading whitespace joins the first gap. */
  lemma GapsAfterSpace(s: string, gaps': seq<string>) returns (gaps: seq<string>)
    requires s != [] && IsWhitespace(s[0])
    requires Spans(s[1..], SplitWhitespace(s[1..]), gaps')
    ensures Spans(s, SplitWhitespace(s), gaps)
  {
    var r := SplitWhitespace(s);
    gaps := [[s[0]] + gaps'[0]] + gaps'[1..];
    InterleaveLonger(s[0], gaps', r);
    assert s == [s[0]] + s[1..];
    assert AllWhitespace(gaps[0]);
    assert forall i :: 0 < i < |gaps| ==> gaps[i] == gaps'[i];
  }

  /** A leading word comes after an empty first gap, and the gap after it is not
      empty when more words follow. */
  lemma GapsAfterWord(s: string, gaps': seq<string>) returns (gaps: seq<string>)
    requires s != [] && !IsWhitespace(s[0])
    requires Spans(s[WordLength(s)..], SplitWhitespace(s[WordLength(s)..]), gaps')
    ensures Spans(s, SplitWhitespace(s), gaps)
  {
    var n := WordLength(s);
    var t := s[n..];
    var r := SplitWhitespace(s);
    var r' := SplitWhitespace(t);
    assert r == [s[..n]] + r';
    if r' != [] {
      var x := Interleave(gaps'[1..], r'[1..]);
      assert t == gaps'[0] + (r'[0] + x);
    }
    gaps := [[]] + gaps';
    assert gaps[1..] == gaps' && r[1..] == r';
    assert s == [] + s[..n] + t;
    assert forall i :: 0 < i < |gaps| ==> gaps[i] == gaps'[i - 1];
  }

  /** Growing the first gap grows the whole. */
  lemma InterleaveLonger(c: char, gaps: seq<string>, words: seq<string>)
    requires |gaps| == |words| + 1
    ensures Interleave([[c] + gaps[0]] + gaps[1..], words) == [c] + Interleave(gaps, words)
  {
    var gaps' := [[c] + gaps[0]] + gaps[1..];
    assert gaps'[1..] == gaps[1..];
    if words != [] {
      assert [c] + gaps[0] + words[0] + Interleave(gaps[1..], words[1..])
          == [c] + (gaps[0] + words[0] + Interleave(gaps[1..], words[1..]));
    }
  }

  /** Any split of `s` into words and gaps is the one `split_whitespace` gives. */
  lemma {:induction false} SpansSplit(s: string, words: seq<string>, gaps: seq<string>)
    requires Spans(s, words, gaps)
    ensures SplitWhitespace(s) == words
    decreases |words|
  {
    SkipWhitespace(gaps[0], s[|gaps[0]|..]);
    assert s == gaps[0] + s[|gaps[0]|..];
    if words != [] {
      var t := SpansTail(s, words, gaps);
      SplitWhitespaceWord(words[0], t);
      SpansSplit(t, words[1..], gaps[1..]);
      assert words == [words[0]] + words[1..];
    } else {
      assert s[|gaps[0]|..] == [];
    }
  }

  /** After the first gap and the first word comes the split of the other words,
      starting with whitespace unless it is empty. */
  lemma SpansTail(s: string, words: seq<string>, gaps: seq<string>) returns (t: string)
    requires Spans(s, words, gaps) && words != []
    ensures t == Interleave(gaps[1..], words[1..])
    ensures s[|gaps[0]|..] == words[0] + t
    ensures Spans(t, words[1..], gaps[1..])
    ensures t == [] || IsWhitespace(t[0])
  {
    t := Interleave(gaps[1..], words[1..]);
    assert forall i :: 0 <= i < |words| - 1 ==> words[1..][i] == words[i + 1];
    assert forall i :: 0 <= i < |gaps| - 1 ==> gaps[1..][i] == gaps[i + 1];
    TailStart(gaps[1..], words[1..]);
  }

  /** A split whose first gap is empty starts with its first word. */
  lemma TailStart(gaps: seq<string>, words: seq<string>)
    requires |gaps| == |words| + 1 && AllWhitespace(gaps[0])
    requires words != [] ==> gaps[0] != []
    ensures var t := Interleave(gaps, words); t == [] || IsWhitespace(t[0])
  {
    if words != [] {
      assert Interleave(gaps, words) == gaps[0] + (words[0] + Interleave(gaps[1..], words[1..]));
    }
  }

  /** Leading whitespace gives no word. */
  lemma {:induction false} SkipWhitespace(g: string, t: string)
    requires AllWhitespace(g)
    ensures SplitWhitespace(g + t) == SplitWhitespace(t)
    decreases |g|
  {
    if g != [] {
      assert (g + t)[1..] == g[1..] + t;
      SkipWhitespace(g[1..], t);
    } else {
      assert g + t == t;
    }
  }

  /** Words joined by single spaces split back into the same words. */
  lemma {:induction false} SplitWhitespaceJoin(words: seq<string>)
    requires words != []
    requires forall i :: 0 <= i < |words| ==> words[i] != [] && NoWhitespace(words[i])
    ensures SplitWhitespace(JoinWith(words, ' ')) == words
    decreases |words|
  {
    if |words| == 1 {
      SplitWhitespaceWord(words[0], []);
      assert words[0] + [] == words[0];
    } else {
      SplitWhitespaceJoin(words[1..]);
      JoinedSplit(words[0], words[1..]);
      assert words == [words[0]] + words[1..];
    }
  }

  /** One more word in front of words joined by spaces. */
  lemma JoinedSplit(w: string, rest: seq<string>)
    requires w != [] && NoWhitespace(w) && rest != []
    requires SplitWhitespace(JoinWith(rest, ' ')) == rest
    ensures SplitWhitespace(JoinWith([w] + rest, ' ')) == [w] + rest
  {
    var t := JoinWith(rest, ' ');
    assert ([w] + rest)[1..] == rest;
    assert JoinWith([w] + rest, ' ') == w + ([' '] + t);
    SplitWhitespaceWord(w, [' '] + t);
    assert ([' '] + t)[1..] == t;
  }

  /** A word followed by whitespace (or nothing) is split off first. */
  lemma SplitWhitespaceWord(w: string, t: string)
    requires w != [] && NoWhitespace(w)
    requires t == [] || IsWhitespace(t[0])
    ensures SplitWhitespace(w + t) == [w] + SplitWhitespace(t)
  {
    WordLengthOf(w, t);
    assert (w + t)[..|w|] == w;
    assert (w + t)[|w|..] == t;
  }

  lemma {:induction false} WordLengthOf(w: string, t: string)
    requires NoWhitespace(w)
    requires t == [] || IsWhitespace(t[0])
    ensures WordLength(w + t) == |w|
    decreases |w|
  {
    if w != [] {
      assert (w + t)[1..] == w[1..] + t;
      WordLengthOf(w[1..], t);
    } else {
      assert w + t == t;
    }
  }

  // ---------------------------------------------------------------------------
  // Paths, as `std::path::PathBuf::join` on Unix

  /** `Path::new(base).join(seg)`: an absolute `seg` replaces `base`; otherwise a
      `/` is inserted unless `base` is empty or already ends in one. */
  function PathJoin(base: string, seg: string): (r: string)
    ensures seg != [] && seg[0] == '/' ==> r == seg
    ensures (seg == [] || seg[0] != '/') && base != [] && base[|base| - 1] != '/' ==> r == base + "/" + seg
  {
    if seg != [] && seg[0] == '/' then seg
    else if base != [] && base[|base| - 1] != '/' then base + "/" + seg
    else base + seg
  }

  // ---------------------------------------------------------------------------
  // Key order of `BTreeMap<String, _>`: byte order of UTF-8, which is the
  // lexicographic order of code points

  predicate StrLt(a: string, b: string)
    decreases |a|
  {
    if a == [] then b != []
    else if b == [] then false
    else if a[0] != b[0] then a[0] < b[0]
    else StrLt(a[1..], b[1..])
  }

  lemma {:induction false} StrLtIrreflexive(a: string)
    ensures !StrLt(a, a)
    decreases |a|
  {
    if a != [] { StrLtIrreflexive(a[1..]); }
  }

  lemma {:induction false} StrLtTotal(a: string, b: string)
    ensures a == b || StrLt(a, b) || StrLt(b, a)
    decreases |a|
  {
    if a != [] && b != [] && a[0] == b[0] {
      StrLtTotal(a[1..], b[1..]);
      if a[1..] == b[1..] {
        assert a == [a[0]] + a[1..] && b == [b[0]] + b[1..];
      }
    }
  }

  lemma {:induction false} StrLtTransitive(a: string, b: string, c: string)
    requires StrLt(a, b) && StrLt(b, c)
    ensures StrLt(a, c)
    decreases |a|
  {
    if a != [] && a[0] == b[0] && b[0] == c[0] {
      StrLtTransitive(a[1..], b[1..], c[1..]);
    }
  }

  predicate IsLeast(k: string, keys: set<string>)
  {
    k in keys && forall x :: x in keys ==> !StrLt(x, k)
  }

  /** Every finite non-empty set of keys has a least one, the key a `BTreeMap`
      yields first. */
  lemma {:induction false} LeastExists(keys: set<string>)
    requires keys != {}
    ensures exists k :: IsLeast(k, keys)
    decreases |keys|
  {
    var x :| x in keys;
    if keys == {x} {
      StrLtIrreflexive(x);
      assert IsLeast(x, keys);
    } else {
      LeastExists(keys - {x});
      var m :| IsLeast(m, keys - {x});
      if StrLt(x, m) {
        forall y | y in keys ensures !StrLt(y, x) {
          if y == x { StrLtIrreflexive(x); }
          else if StrLt(y, x) { StrLtTransitive(y, x, m); }
        }
        assert IsLeast(x, keys);
      } else {
        assert IsLeast(m, keys);
      }
    }
  }

  /** The least key comes before every other key. */
  lemma LeastBefore(k: string, keys: set<string>, x: string)
    requires IsLeast(k, keys) && x in keys && x != k
    ensures StrLt(k, x)
  {
    StrLtTotal(k, x);
  }

  /** A set has at most one least key. */
  lemma LeastUnique(a: string, b: string, keys: set<string>)
    requires IsLeast(a, keys) && IsLeast(b, keys)
    ensures a == b
  {
    StrLtTotal(a, b);
  }

  /** Moving the least remaining key from `todo` to `done` keeps every done key
      before every remaining one. */
  lemma LeastMoved(done: set<string>, todo: set<string>, k: string)
    requires forall d, t :: d in done && t in todo ==> StrLt(d, t)
    requires IsLeast(k, todo)
    ensures forall d, t :: d in done + {k} && t in todo - {k} ==> StrLt(d, t)
  {
    forall d, t | d in done + {k} && t in todo - {k}
      ensures StrLt(d, t)
    {
      if d == k {
        LeastBefore(k, todo, t);
      }
    }
  }
}
