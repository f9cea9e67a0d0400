/** The ECMAScript string built-ins the modelled code calls: `trim`,
    `toLowerCase` (on ASCII letters), `split(sep)[0]` and `length`
    (which counts UTF-16 code units). */
module JsStrings {

  /** ECMAScript WhiteSpace and LineTerminator code points: the characters
      `String.prototype.trim` removes. */
  predicate IsWhiteSpace(c: char)
  {
    // TAB, LF, VT, FF, CR, SPACE
    c == '\t' || c == '\n' || c == '\U{000B}' || c == '\U{000C}' || c == '\r' || c == ' ' ||
    // the other space separators (category Zs)
    c == '\U{00A0}' || c == '\U{1680}' || ('\U{2000}' <= c <= '\U{200A}') ||
    c == '\U{202F}' || c == '\U{205F}' || c == '\U{3000}' ||
    // LINE SEPARATOR, PARAGRAPH SEPARATOR, ZERO WIDTH NO-BREAK SPACE
    c == '\U{2028}' || c == '\U{2029}' || c == '\U{FEFF}'
  }

  predicate AllWhiteSpace(s: string)
  {
    forall i :: 0 <= i < |s| ==> IsWhiteSpace(s[i])
  }

  predicate IsAsciiUpper(c: char)
  {
    'A' <= c <= 'Z'
  }

  /** `s` has no white space at either end. */
  predicate Trimmed(s: string)
  {
    s == [] || (!IsWhiteSpace(s[0]) && !IsWhiteSpace(s[|s| - 1]))
  }

  function TrimStart(s: string): (r: string)
    ensures |r| <= |s| && r == s[|s| - |r|..]
    ensures AllWhiteSpace(s[..|s| - |r|])
    ensures r == [] || !IsWhiteSpace(r[0])
  {
    if s != [] && IsWhiteSpace(s[0]) then
      var r := TrimStart(s[1..]);
      assert s[..|s| - |r|] == [s[0]] + s[1..][..|s| - 1 - |r|];
      r
    else s
  }

  function TrimEnd(s: string): (r: string)
    ensures |r| <= |s| && r == s[..|r|]
    ensures AllWhiteSpace(s[|r|..])
    ensures r == [] || !IsWhiteSpace(r[|r| - 1])
  {
    if s != [] && IsWhiteSpace(s[|s| - 1]) then
      var r := TrimEnd(s[..|s| - 1]);
      assert s[|r|..] == s[..|s| - 1][|r|..] + [s[|s| - 1]];
      r
    else s
  }

  /** `String.prototype.trim`: white space removed from both ends. */
  function Trim(s: string): (r: string)
    ensures Trimmed(r)
    ensures |r| <= |s|
  {
    TrimEnd(TrimStart(s))
  }

  function LowerChar(c: char): (d: char)
    ensures !IsAsciiUpper(d)
    ensures IsWhiteSpace(d) <==> IsWhiteSpace(c)
    ensures !IsAsciiUpper(c) ==> d == c
  {
    if IsAsciiUpper(c) then (c as int + 32) as char else c
  }

  /** `toLowerCase` restricted to the ASCII letters A-Z. */
  function ToLowerAscii(s: string): (r: string)
    ensures |r| == |s|
    ensures forall i :: 0 <= i < |s| ==> r[i] == LowerChar(s[i])
    ensures Trimmed(r) <==> Trimmed(s)
  {
    seq(|s|, i requires 0 <= i < |s| => LowerChar(s[i]))
  }

  /** `s.split(sep)[0]`: everything before the first `sep`, or all of `s`. */
  function FirstSegment(s: string, sep: char): (r: string)
    ensures sep !in r
    ensures r <= s
    ensures |r| < |s| ==> s[|r|] == sep
  {
    if s == [] || s[0] == sep then [] else [s[0]] + FirstSegment(s[1..], sep)
  }

  /** JavaScript's `length`: one code unit per character of the Basic
      Multilingual Plane, two (a surrogate pair) for the others. */
  function Utf16Length(s: string): (n: nat)
    ensures |s| <= n <= 2 * |s|
  {
    if s == [] then 0
    else (if s[0] as int >= 0x10000 then 2 else 1) + Utf16Length(s[1..])
  }
  // ---------------------------------------------------------------------------
  // What `trim` removes.
  // ---------------------------------------------------------------------------

  lemma {:induction false} AllWhiteSpaceConcat(a: string, b: string)
    requires AllWhiteSpace(a) && AllWhiteSpace(b)
    ensures AllWhiteSpace(a + b)
  {
    forall i | 0 <= i < |a + b|
      ensures IsWhiteSpace((a + b)[i])
    {
      if i < |a| {
        assert (a + b)[i] == a[i];
      } else {
        assert (a + b)[i] == b[i - |a|];
      }
    }
  }

  /** Leading white space makes no difference to `trimStart`. */
  lemma {:induction false} TrimStartSkipsWhiteSpace(a: string, x: string)
    requires AllWhiteSpace(a)
    ensures TrimStart(a + x) == TrimStart(x)
  {
    if a == [] {
      assert a + x == x;
    } else {
      assert (a + x)[0] == a[0] && IsWhiteSpace(a[0]);
      assert (a + x)[1..] == a[1..] + x;
      assert AllWhiteSpace(a[1..]) by {
        forall i | 0 <= i < |a| - 1
          ensures IsWhiteSpace(a[1..][i])
        {
          assert a[1..][i] == a[i + 1];
        }
      }
      TrimStartSkipsWhiteSpace(a[1..], x);
    }
  }

  /** Trailing white space makes no difference to `trimEnd`. */
  lemma {:induction false} TrimEndSkipsWhiteSpace(x: string, b: string)
    requires AllWhiteSpace(b)
    ensures TrimEnd(x + b) == TrimEnd(x)
  {
    if b == [] {
      assert x + b == x;
    } else {
      var init := b[..|b| - 1];
      assert (x + b)[|x + b| - 1] == b[|b| - 1] && IsWhiteSpace(b[|b| - 1]);
      assert (x + b)[..|x + b| - 1] == x + init;
      assert AllWhiteSpace(init) by {
        forall i | 0 <= i < |init|
          ensures IsWhiteSpace(init[i])
        {
          assert init[i] == b[i];
        }
      }
      TrimEndSkipsWhiteSpace(x, init);
    }
  }

  /** `trim` yields exactly the part between white-space padding: whenever
      `s` is a white-space run, a string without white space at its ends, and
      another white-space run, `trim` returns the middle part. */
  lemma TrimOfPadded(a: string, t: string, b: string)
    requires AllWhiteSpace(a) && AllWhiteSpace(b) && Trimmed(t)
    ensures Trim(a + t + b) == t
  {
    assert a + t + b == a + (t + b);
    TrimStartSkipsWhiteSpace(a, t + b);
    assert TrimStart(a + (t + b)) == TrimStart(t + b);
    if t == [] {
      assert t + b == b;
      BlankTrimsToEmpty(b);
    } else {
      assert (t + b)[0] == t[0];
      assert TrimStart(t + b) == t + b;
      TrimEndSkipsWhiteSpace(t, b);
    }
  }

  /** A string of white space trims to nothing. */
  lemma BlankTrimsToEmpty(b: string)
    requires AllWhiteSpace(b)
    ensures TrimStart(b) == [] && Trim(b) == []
  {
    assert b + [] == b;
    TrimStartSkipsWhiteSpace(b, []);
  }

  /** `trim` removes a white-space run from each end and nothing else. */
  lemma TrimSplit(s: string) returns (a: string, b: string)
    ensures s == a + Trim(s) + b
    ensures AllWhiteSpace(a) && AllWhiteSpace(b)
  {
    var u := TrimStart(s);
    var t := TrimEnd(u);
    a := s[..|s| - |u|];
    b := u[|t|..];
    SplitAt(s, |s| - |u|);
    SplitAt(u, |t|);
    Reassociate(s, a, u, t, b);
  }

  // The two helpers below are proved in an empty context; stated inline, the
  // sequence reasoning they do costs several times as much.

  lemma Reassociate(s: string, a: string, u: string, t: string, b: string)
    requires s == a + u && u == t + b
    ensures s == a + t + b
  {
  }

  lemma SplitAt(x: string, k: nat)
    requires k <= |x|
    ensures x == x[..k] + x[k..]
  {
  }

  /** Lower-casing keeps white space where it is, so trimming before or
      after it gives the same string. */
  lemma {:induction false} TrimStartLower(s: string)
    ensures TrimStart(ToLowerAscii(s)) == ToLowerAscii(TrimStart(s))
  {
    if s != [] && IsWhiteSpace(s[0]) {
      assert ToLowerAscii(s)[1..] == ToLowerAscii(s[1..]);
      TrimStartLower(s[1..]);
    }
  }

  lemma {:induction false} TrimEndLower(s: string)
    ensures TrimEnd(ToLowerAscii(s)) == ToLowerAscii(TrimEnd(s))
  {
    if s != [] && IsWhiteSpace(s[|s| - 1]) {
      assert ToLowerAscii(s)[..|s| - 1] == ToLowerAscii(s[..|s| - 1]);
      TrimEndLower(s[..|s| - 1]);
    }
  }

  lemma TrimLower(s: string)
    ensures Trim(ToLowerAscii(s)) == ToLowerAscii(Trim(s))
  {
    TrimStartLower(s);
    TrimEndLower(TrimStart(s));
  }
}
