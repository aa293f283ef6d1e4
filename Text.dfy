/** The Python string operations the research pipeline relies on, over `string`
    (a sequence of Unicode scalar values; a Python `str` is a sequence of code
    points, which may also be lone surrogates, and those are not represented):
    `strip`/`lstrip`/`rstrip` with a character set, `split` on one character,
    `join`, slicing to a prefix, and `lower`. */
module Text {

  /** Python's `str.isspace()`: the characters `str.strip()` with no argument removes. */
  predicate IsPySpace(c: char) {
    c == ' ' || '\t' <= c <= '\r' || '\U{1C}' <= c <= '\U{1F}'
    || c == '\U{85}' || c == '\U{A0}' || c == '\U{1680}' || '\U{2000}' <= c <= '\U{200A}'
    || c == '\U{2028}' || c == '\U{2029}' || c == '\U{202F}' || c == '\U{205F}' || c == '\U{3000}'
  }

  /** The `chars` argument of Python's `strip`, `lstrip` and `rstrip`: omitted (strip
      whitespace) or a string whose characters are stripped. */
  datatype StripChars = Whitespace | Chars(cs: set<char>)

  predicate Strips(k: StripChars, c: char) {
    match k
    case Whitespace => IsPySpace(c)
    case Chars(cs) => c in cs
  }

  /** The argument of `rstrip("0123456789")`. */
  const AsciiDigits: StripChars := Chars({'0', '1', '2', '3', '4', '5', '6', '7', '8', '9'})

  /** Every character of `s` is in `cs`. */
  predicate AllIn(s: string, cs: StripChars) {
    forall c :: c in s ==> Strips(cs, c)
  }

  /** `s.lstrip(cs)`: drops the longest prefix made of characters in `cs`. */
  function TrimStart(s: string, cs: StripChars): (r: string)
    ensures |r| <= |s| && r == s[|s| - |r|..]
    ensures AllIn(s[..|s| - |r|], cs)
    ensures r != [] ==> !Strips(cs, r[0])
    decreases |s|
  {
    if |s| > 0 && Strips(cs, s[0]) then TrimStart(s[1..], cs) else s
  }

  /** `s.rstrip(cs)`: drops the longest suffix made of characters in `cs`. */
  function TrimEnd(s: string, cs: StripChars): (r: string)
    ensures |r| <= |s| && r == s[..|r|]
    ensures AllIn(s[|r|..], cs)
    ensures r != [] ==> !Strips(cs, r[|r| - 1])
    decreases |s|
  {
    if |s| > 0 && Strips(cs, s[|s| - 1]) then TrimEnd(s[..|s| - 1], cs) else s
  }

  /** `s.strip(cs)`: the middle of `s` left once characters of `cs` are removed from
      both ends. It is empty exactly when every character of `s` is in `cs`. */
  function Strip(s: string, cs: StripChars): (r: string)
    ensures |r| <= |s|
    ensures r != [] ==> !Strips(cs, r[0]) && !Strips(cs, r[|r| - 1])
    ensures r == [] <==> AllIn(s, cs)
  {
    var t := TrimStart(s, cs);
    var r := TrimEnd(t, cs);
    StripFacts(s, cs, t, r);
    r
  }

  /** What `Strip` removes: `s` is a run of `cs` characters, then the result, then
      another run of `cs` characters. */
  lemma StripIsInfix(s: string, cs: StripChars)
    ensures var a, r := |s| - |TrimStart(s, cs)|, Strip(s, cs);
            0 <= a <= a + |r| <= |s| && r <= s[a..]
            && AllIn(s[..a], cs) && AllIn(s[a + |r|..], cs)
  {
    var t, r := TrimStart(s, cs), Strip(s, cs);
    StripFacts(s, cs, t, r);
  }

  lemma StripFacts(s: string, cs: StripChars, t: string, r: string)
    requires t == TrimStart(s, cs) && r == TrimEnd(t, cs)
    ensures var a := |s| - |t|;
            0 <= a <= a + |r| <= |s| && r == s[a..a + |r|]
            && AllIn(s[..a], cs) && AllIn(s[a + |r|..], cs)
    ensures r != [] ==> !Strips(cs, r[0]) && !Strips(cs, r[|r| - 1])
    ensures r == [] <==> AllIn(s, cs)
  {
    StripKeepsInfix(s, cs, t, r);
    StripEnds(cs, t, r);
    StripEmpty(s, cs, t, r);
  }

  lemma StripKeepsInfix(s: string, cs: StripChars, t: string, r: string)
    requires t == TrimStart(s, cs) && r == TrimEnd(t, cs)
    ensures var a := |s| - |t|;
            0 <= a <= a + |r| <= |s| && r == s[a..a + |r|]
            && AllIn(s[..a], cs) && AllIn(s[a + |r|..], cs)
  {
    var a := |s| - |t|;
    assert t == s[a..];
    SliceOfSlice(s, t, r, a);
    assert s[a + |r|..] == t[|r|..];
  }

  lemma StripEnds(cs: StripChars, t: string, r: string)
    requires t != [] ==> !Strips(cs, t[0])
    requires r == TrimEnd(t, cs)
    ensures r != [] ==> !Strips(cs, r[0]) && !Strips(cs, r[|r| - 1])
  {
    if r != [] {
      assert r[0] == t[0];
    }
  }

  lemma StripEmpty(s: string, cs: StripChars, t: string, r: string)
    requires t == TrimStart(s, cs) && r == TrimEnd(t, cs)
    ensures r == [] <==> AllIn(s, cs)
  {
    if r == [] {
      AllStrippedWhenEmpty(s, cs, t);
    } else {
      SomeKeptWhenNonEmpty(s, cs, t, r);
    }
  }

  lemma AllStrippedWhenEmpty(s: string, cs: StripChars, t: string)
    requires t == TrimStart(s, cs) && TrimEnd(t, cs) == []
    ensures AllIn(s, cs)
  {
    var a := |s| - |t|;
    assert AllIn(s[..a], cs);
    assert AllIn(t, cs) by {
      assert t[0..] == t;
    }
    AllInSplitAt(s, a, cs);
  }

  lemma AllInSplitAt(s: string, a: nat, cs: StripChars)
    requires a <= |s| && AllIn(s[..a], cs) && AllIn(s[a..], cs)
    ensures AllIn(s, cs)
  {
    assert s == s[..a] + s[a..];
    AllInConcat(s[..a], s[a..], cs);
  }

  lemma SomeKeptWhenNonEmpty(s: string, cs: StripChars, t: string, r: string)
    requires t == TrimStart(s, cs) && r == TrimEnd(t, cs) && r != []
    ensures !AllIn(s, cs)
  {
    var a := |s| - |t|;
    assert r[0] == t[0] == s[a];
    assert s[a] in s && !Strips(cs, s[a]);
  }

  lemma SliceOfSlice(s: string, t: string, r: string, a: nat)
    requires a <= |s| && t == s[a..] && |r| <= |t| && r == t[..|r|]
    ensures r == s[a..a + |r|]
  {
  }

  lemma AllInConcat(u: string, v: string, cs: StripChars)
    requires AllIn(u, cs) && AllIn(v, cs)
    ensures AllIn(u + v, cs)
  {
  }

  lemma {:induction false} TrimStartPadded(w: string, u: string, cs: StripChars)
    requires AllIn(w, cs)
    requires u != [] ==> !Strips(cs, u[0])
    ensures TrimStart(w + u, cs) == u
    decreases |w|
  {
    if |w| == 0 {
      assert w + u == u;
    } else {
      assert w[0] in w;
      assert (w + u)[1..] == w[1..] + u;
      assert forall c :: c in w[1..] ==> c in w;
      TrimStartPadded(w[1..], u, cs);
    }
  }

  lemma {:induction false} TrimEndPadded(u: string, w: string, cs: StripChars)
    requires AllIn(w, cs)
    requires u != [] ==> !Strips(cs, u[|u| - 1])
    ensures TrimEnd(u + w, cs) == u
    decreases |w|
  {
    if |w| == 0 {
      assert u + w == u;
    } else {
      var n := |w| - 1;
      assert w[n] in w;
      assert (u + w)[..|u + w| - 1] == u + w[..n];
      assert forall c :: c in w[..n] ==> c in w;
      TrimEndPadded(u, w[..n], cs);
    }
  }

  /** `strip` undoes padding: a text whose ends are not stripped, padded on both
      sides with stripped characters, strips back to that text. */
  lemma StripPadded(before: string, t: string, after: string, cs: StripChars)
    requires AllIn(before, cs) && AllIn(after, cs)
    requires t != [] ==> !Strips(cs, t[0]) && !Strips(cs, t[|t| - 1])
    ensures Strip(before + t + after, cs) == t
  {
    if t == [] {
      assert before + t + after == before + after;
      AllInConcat(before, after, cs);
    } else {
      assert before + t + after == before + (t + after);
      TrimStartPadded(before, t + after, cs);
      TrimEndPadded(t, after, cs);
    }
  }

  /** `s[:n]` for `n >= 0`: the prefix of `s` of length min(n, |s|). */
  function Truncate(s: string, n: nat): (r: string)
    ensures r <= s
    ensures |r| == if |s| <= n then |s| else n
  {
    if |s| <= n then s else s[..n]
  }

  /** `s.split(sep)` for a one-character separator: the pieces between separators,
      including empty ones; the empty string yields one empty piece. */
  function Split(s: string, sep: char): (parts: seq<string>)
    ensures |parts| >= 1
    ensures forall i :: 0 <= i < |parts| ==> sep !in parts[i]
    decreases |s|
  {
    if |s| == 0 then [""]
    else
      var rest := Split(s[1..], sep);
      if s[0] == sep then [""] + rest
      else [[s[0]] + rest[0]] + rest[1..]
  }

  /** `sep.join(parts)`: no parts give ""; otherwise it starts with the first part,
      followed by the separator when there are more. */
  function Join(parts: seq<string>, sep: string): (r: string)
    ensures |parts| == 0 ==> r == ""
    ensures |parts| > 0 ==> parts[0] <= r
    ensures |parts| > 1 ==> parts[0] + sep <= r
  {
    if |parts| == 0 then ""
    else if |parts| == 1 then parts[0]
    else parts[0] + sep + Join(parts[1..], sep)
  }

  /** Every piece of a split is made of characters of the text: when all of the text
      is in a character set, so is every piece. */
  lemma {:induction false} SplitKeepsAllIn(s: string, sep: char, cs: StripChars)
    requires AllIn(s, cs)
    ensures forall i :: 0 <= i < |Split(s, sep)| ==> AllIn(Split(s, sep)[i], cs)
    decreases |s|
  {
    if |s| > 0 {
      assert forall c :: c in s[1..] ==> c in s;
      SplitKeepsAllIn(s[1..], sep, cs);
      var rest := Split(s[1..], sep);
      if s[0] != sep {
        assert s[0] in s;
        assert forall c :: c in [s[0]] + rest[0] ==> c == s[0] || c in rest[0];
      }
    }
  }

  /** Joining the pieces of a split with the separator gives back the text. */
  lemma {:induction false} JoinSplit(s: string, sep: char)
    ensures Join(Split(s, sep), [sep]) == s
    decreases |s|
  {
    if |s| > 0 {
      var rest := Split(s[1..], sep);
      JoinSplit(s[1..], sep);
      if s[0] == sep {
        assert Split(s, sep) == [""] + rest;
        assert (([""] + rest)[1..]) == rest;
      } else if |rest| == 1 {
        assert Split(s, sep) == [[s[0]] + rest[0]];
      } else {
        assert Split(s, sep) == [[s[0]] + rest[0]] + rest[1..];
        assert Join(rest, [sep]) == rest[0] + [sep] + Join(rest[1..], [sep]);
        assert ([[s[0]] + rest[0]] + rest[1..])[1..] == rest[1..];
      }
    }
  }

  lemma {:induction false} SplitWithoutSep(p: string, sep: char)
    requires sep !in p
    ensures Split(p, sep) == [p]
    decreases |p|
  {
    if |p| > 0 {
      SplitWithoutSep(p[1..], sep);
      assert [p[0]] + p[1..] == p;
    }
  }

  lemma {:induction false} SplitAfterPiece(p: string, sep: char, t: string)
    requires sep !in p
    ensures Split(p + [sep] + t, sep) == [p] + Split(t, sep)
    decreases |p|
  {
    var s := p + [sep] + t;
    if |p| == 0 {
      assert s[1..] == t;
    } else {
      assert s[1..] == p[1..] + [sep] + t;
      SplitAfterPiece(p[1..], sep, t);
      assert [p[0]] + p[1..] == p;
    }
  }

  /** Splitting a join of separator-free pieces gives back the pieces. */
  lemma {:induction false} SplitJoin(parts: seq<string>, sep: char)
    requires |parts| >= 1
    requires forall i :: 0 <= i < |parts| ==> sep !in parts[i]
    ensures Split(Join(parts, [sep]), sep) == parts
    decreases |parts|
  {
    if |parts| == 1 {
      SplitWithoutSep(parts[0], sep);
    } else {
      SplitJoin(parts[1..], sep);
      SplitAfterPiece(parts[0], sep, Join(parts[1..], [sep]));
      assert [parts[0]] + parts[1..] == parts;
    }
  }

  /** `str.lower()` on one character, for the characters whose lower-case form is
      ASCII: 'A'..'Z' and KELVIN SIGN; every other character is left as it is. */
  function LowerChar(c: char): (d: char)
    ensures 'A' <= c <= 'Z' ==> 'a' <= d <= 'z' && d as int - c as int == 32
    ensures c == '\U{212A}' ==> d == 'k'
    ensures !('A' <= c <= 'Z') && c != '\U{212A}' ==> d == c
  {
    if 'A' <= c <= 'Z' then (c as int + 32) as char
    else if c == '\U{212A}' then 'k'
    else c
  }

  /** `s.lower()`, character by character through `LowerChar`. */
  function Lower(s: string): (r: string)
    ensures |r| == |s|
    ensures forall i :: 0 <= i < |s| ==> r[i] == LowerChar(s[i])
  {
    seq(|s|, i requires 0 <= i < |s| => LowerChar(s[i]))
  }
}
