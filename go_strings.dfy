/** The Go standard-library string functions the two nodes apply to packet
    payloads and command-line flags: strings.Split with a one-character
    separator, strings.TrimSpace and strings.ToUpper. Strings are sequences
    of Unicode code points (runes). */
module GoStrings {

  /** Number of occurrences of `c` in `s`. */
  function Count(s: string, c: char): (n: nat)
    ensures n <= |s|
    ensures n == 0 <==> c !in s
  {
    if s == [] then 0
    else
      assert s == [s[0]] + s[1..];
      (if s[0] == c then 1 else 0) + Count(s[1..], c)
  }

  /** strings.Split(s, sep) for a one-rune separator: the pieces of `s`
      between successive separators, so that "" splits into [""]. */
  function Split(s: string, sep: char): seq<string>
  {
    if s == [] then [""]
    else
      var rest := Split(s[1..], sep);
      if s[0] == sep then [""] + rest
      else [[s[0]] + rest[0]] + rest[1..]
  }

  /** strings.Join(parts, sep), the inverse of Split. */
  function Join(parts: seq<string>, sep: char): string
  {
    if parts == [] then ""
    else if |parts| == 1 then parts[0]
    else parts[0] + [sep] + Join(parts[1..], sep)
  }

  /** The text of `s` before the first `sep`; all of `s` when there is none. */
  function UpTo(s: string, sep: char): (r: string)
    ensures |r| <= |s| && r == s[..|r|]
    ensures sep !in r
    ensures |r| < |s| <==> sep in s
    ensures |r| < |s| ==> s[|r|] == sep
  {
    if s == [] then ""
    else if s[0] == sep then ""
    else
      assert s == [s[0]] + s[1..];
      [s[0]] + UpTo(s[1..], sep)
  }

  /** Splitting is lossless: joining the pieces gives back the text. */
  lemma {:induction false} JoinSplit(s: string, sep: char)
    ensures Join(Split(s, sep), sep) == s
  {
    if s != [] {
      var rest := Split(s[1..], sep);
      JoinSplit(s[1..], sep);
      assert s == [s[0]] + s[1..];
      if s[0] != sep {
        if |rest| == 1 {
          assert Split(s, sep) == [[s[0]] + rest[0]];
        } else {
          assert Split(s, sep)[1..] == rest[1..];
          assert Join(rest, sep) == rest[0] + [sep] + Join(rest[1..], sep);
        }
      }
    }
  }

  /** A split has one piece more than the text has separators. */
  lemma {:induction false} SplitCount(s: string, sep: char)
    ensures |Split(s, sep)| == Count(s, sep) + 1
  {
    if s != [] {
      SplitCount(s[1..], sep);
    }
  }

  /** No piece of a split holds the separator. */
  lemma {:induction false} SplitPiecesLackSep(s: string, sep: char)
    ensures forall k :: 0 <= k < |Split(s, sep)| ==> sep !in Split(s, sep)[k]
  {
    if s != [] {
      SplitPiecesLackSep(s[1..], sep);
      var rest := Split(s[1..], sep);
      if s[0] != sep {
        var parts := Split(s, sep);
        assert parts[0] == [s[0]] + rest[0];
        assert forall k :: 1 <= k < |parts| ==> parts[k] == rest[k];
      }
    }
  }

  /** Splitting is the inverse of joining pieces that hold no separator. */
  lemma {:induction false} SplitJoin(parts: seq<string>, sep: char)
    requires |parts| > 0
    requires forall k :: 0 <= k < |parts| ==> sep !in parts[k]
    ensures Split(Join(parts, sep), sep) == parts
  {
    if |parts| == 1 {
      SplitPiece(parts[0], sep);
    } else {
      SplitJoin(parts[1..], sep);
      SplitPieceThen(parts[0], sep, Join(parts[1..], sep));
    }
  }

  /** A text without the separator is one piece. */
  lemma {:induction false} SplitPiece(p: string, sep: char)
    requires sep !in p
    ensures Split(p, sep) == [p]
  {
    if p != [] {
      SplitPiece(p[1..], sep);
      assert p == [p[0]] + p[1..];
    }
  }

  /** A piece followed by the separator splits off as the first part. */
  lemma {:induction false} SplitPieceThen(p: string, sep: char, t: string)
    requires sep !in p
    ensures Split(p + [sep] + t, sep) == [p] + Split(t, sep)
  {
    var q := p + [sep] + t;
    if p == [] {
      assert q == [sep] + t;
      assert q[1..] == t;
    } else {
      SplitPieceThen(p[1..], sep, t);
      assert q[1..] == p[1..] + [sep] + t;
      var rest := Split(q[1..], sep);
      assert rest == [p[1..]] + Split(t, sep);
      assert q[0] == p[0] && p[0] != sep;
      assert Split(q, sep) == [[p[0]] + rest[0]] + rest[1..];
      assert [p[0]] + p[1..] == p;
    }
  }

  /** The first piece of a split is the text up to the first separator, and
      when there is a separator the other pieces are those of the rest. */
  lemma {:induction false} SplitFirst(s: string, sep: char)
    ensures Split(s, sep)[0] == UpTo(s, sep)
    ensures sep in s ==> Split(s, sep) == [UpTo(s, sep)] + Split(s[|UpTo(s, sep)| + 1..], sep)
  {
    if s != [] && s[0] != sep {
      SplitFirst(s[1..], sep);
      assert s == [s[0]] + s[1..];
      var u := UpTo(s[1..], sep);
      if sep in s[1..] {
        assert s[|u| + 2..] == s[1..][|u| + 1..];
      }
    }
  }

  /** unicode.IsSpace: the Latin-1 white space (tab, line feed, vertical
      tab, form feed, carriage return, space, U+0085, U+00A0) and the other
      runes with the Unicode White_Space property. */
  predicate IsSpace(c: char)
  {
    || ('\t' <= c <= '\r') || c == ' ' || c == '\U{85}' || c == '\U{A0}' || c == '\U{1680}'
    || ('\U{2000}' <= c <= '\U{200A}')
    || c == '\U{2028}' || c == '\U{2029}' || c == '\U{202F}' || c == '\U{205F}' || c == '\U{3000}'
  }

  ghost predicate AllSpace(s: string)
  {
    forall k :: 0 <= k < |s| ==> IsSpace(s[k])
  }

  /** `s` without its leading white space. */
  function TrimLeft(s: string): string
  {
    if s != [] && IsSpace(s[0]) then TrimLeft(s[1..]) else s
  }

  /** `s` without its trailing white space. */
  function TrimRight(s: string): string
  {
    if s != [] && IsSpace(s[|s| - 1]) then TrimRight(s[..|s| - 1]) else s
  }

  /** TrimLeft drops a white-space prefix, and all of it: the result is a
      suffix of `s` that does not start with white space. */
  lemma {:induction false} TrimLeftSpec(s: string)
    ensures var r := TrimLeft(s);
            && |r| <= |s| && r == s[|s| - |r|..]
            && AllSpace(s[..|s| - |r|])
            && (r == [] || !IsSpace(r[0]))
  {
    if s != [] && IsSpace(s[0]) {
      TrimLeftSpec(s[1..]);
      var r := TrimLeft(s[1..]);
      assert s[1..][..|s| - 1 - |r|] == s[1..|s| - |r|];
      assert forall k :: 1 <= k < |s| - |r| ==> s[k] == s[1..|s| - |r|][k - 1];
    }
  }

  /** TrimRight drops a white-space suffix, and all of it: the result is a
      prefix of `s` that does not end with white space. */
  lemma {:induction false} TrimRightSpec(s: string)
    ensures var r := TrimRight(s);
            && |r| <= |s| && r == s[..|r|]
            && AllSpace(s[|r|..])
            && (r == [] || !IsSpace(r[|r| - 1]))
  {
    if s != [] && IsSpace(s[|s| - 1]) {
      TrimRightSpec(s[..|s| - 1]);
      var r := TrimRight(s[..|s| - 1]);
      assert s[..|s| - 1][|r|..] == s[|r|..|s| - 1];
      assert forall k :: |r| <= k < |s| - 1 ==> s[k] == s[|r|..|s| - 1][k - |r|];
    }
  }

  /** strings.TrimSpace: `s` without its leading and trailing white space. */
  function TrimSpace(s: string): string
  {
    TrimRight(TrimLeft(s))
  }

  /** Number of leading white-space runes of `s`, which TrimSpace drops. */
  function Leading(s: string): nat
  {
    TrimLeftSpec(s);
    |s| - |TrimLeft(s)|
  }

  /** Trimming removes white space only, and all of it from both ends: the
      result neither starts nor ends with white space, it is the part of `s`
      that follows the leading white space, and what follows the result in
      `s` is white space too. */
  lemma TrimSpaceInfix(s: string)
    ensures var r := TrimSpace(s);
            && (r == [] || (!IsSpace(r[0]) && !IsSpace(r[|r| - 1])))
            && Leading(s) + |r| <= |s|
            && r == s[Leading(s)..Leading(s) + |r|]
            && AllSpace(s[..Leading(s)]) && AllSpace(s[Leading(s) + |r|..])
  {
    var l := TrimLeft(s);
    TrimLeftSpec(s);
    TrimRightSpec(l);
    var r := TrimRight(l);
    var i := |s| - |l|;
    assert TrimSpace(s) == r;
    assert r == s[i..i + |r|] by {
      assert l == s[i..] && r == l[..|r|];
    }
    assert s[i + |r|..] == l[|r|..] by {
      assert l == s[i..];
    }
    assert r != [] ==> r[0] == l[0];
  }

  /** Trimming twice is trimming once. */
  lemma TrimSpaceIdempotent(s: string)
    ensures TrimSpace(TrimSpace(s)) == TrimSpace(s)
  {
    var t := TrimSpace(s);
    TrimSpaceInfix(s);
    assert TrimLeft(t) == t;
    assert TrimRight(t) == t;
  }

  /** unicode.ToUpper on one rune, for the runes whose upper case is ASCII:
      the ASCII letters, dotless i (U+0131) and long s (U+017F). */
  function UpperRune(c: char): char
  {
    if 'a' <= c <= 'z' then (c as int - 32) as char
    else if c == '\U{131}' then 'I'
    else if c == '\U{17F}' then 'S'
    else c
  }

  /** strings.ToUpper: every rune replaced by its upper case. */
  function ToUpper(s: string): (r: string)
    ensures |r| == |s|
    ensures forall k :: 0 <= k < |s| ==> r[k] == UpperRune(s[k])
  {
    if s == [] then "" else [UpperRune(s[0])] + ToUpper(s[1..])
  }

  /** Upper-casing is idempotent. */
  lemma ToUpperIdempotent(s: string)
    ensures ToUpper(ToUpper(s)) == ToUpper(s)
  {
  }
}
