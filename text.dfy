/** The string primitives the proxy relies on: the whitespace sets of
    Python's `str.strip()` and JavaScript's `String.prototype.trim()`,
    ASCII lower-casing, substring containment (Python's `in`) and
    replacing every occurrence of one character. */
module Text {

  /** `str.isspace()` in Python: the characters `str.strip()` removes. */
  predicate PyIsSpace(c: char)
  {
    var n := c as int;
    || 9 <= n <= 13 || 28 <= n <= 32 || n == 0x85 || n == 0xA0 || n == 0x1680
    || 0x2000 <= n <= 0x200A || n == 0x2028 || n == 0x2029 || n == 0x202F
    || n == 0x205F || n == 0x3000
  }

  /** WhiteSpace and LineTerminator in ECMAScript: what `trim()` removes. */
  predicate JsIsSpace(c: char)
  {
    var n := c as int;
    || 9 <= n <= 13 || n == 32 || n == 0xA0 || n == 0x1680
    || 0x2000 <= n <= 0x200A || n == 0x2028 || n == 0x2029 || n == 0x202F
    || n == 0x205F || n == 0x3000 || n == 0xFEFF
  }

  /** Every character of `s` is whitespace. */
  predicate AllSpace(s: string, isSpace: char -> bool)
  {
    forall i :: 0 <= i < |s| ==> isSpace(s[i])
  }

  /** Removes the leading characters for which `isSpace` holds. */
  function TrimStart(s: string, isSpace: char -> bool): string
  {
    if s != [] && isSpace(s[0]) then TrimStart(s[1..], isSpace) else s
  }

  /** Removes the trailing characters for which `isSpace` holds. */
  function TrimEnd(s: string, isSpace: char -> bool): string
  {
    if s != [] && isSpace(s[|s| - 1]) then TrimEnd(s[..|s| - 1], isSpace) else s
  }

  /** Removes whitespace at both ends. */
  function Trim(s: string, isSpace: char -> bool): string
  {
    TrimEnd(TrimStart(s, isSpace), isSpace)
  }

  /** `TrimStart` keeps a suffix, drops only whitespace, and what it keeps
      does not start with whitespace. */
  lemma {:induction false} TrimStartSpec(s: string, isSpace: char -> bool)
    ensures var r := TrimStart(s, isSpace);
            && |r| <= |s| && r == s[|s| - |r|..]
            && AllSpace(s[..|s| - |r|], isSpace)
            && (r == [] || !isSpace(r[0]))
  {
    if s != [] && isSpace(s[0]) {
      TrimStartSpec(s[1..], isSpace);
      var r := TrimStart(s, isSpace);
      assert s[..|s| - |r|] == [s[0]] + s[1..][..|s| - 1 - |r|];
    }
  }

  /** `TrimEnd` keeps a prefix, drops only whitespace, and what it keeps
      does not end with whitespace. */
  lemma {:induction false} TrimEndSpec(s: string, isSpace: char -> bool)
    ensures var r := TrimEnd(s, isSpace);
            && |r| <= |s| && r == s[..|r|]
            && AllSpace(s[|r|..], isSpace)
            && (r == [] || !isSpace(r[|r| - 1]))
  {
    if s != [] && isSpace(s[|s| - 1]) {
      var init := s[..|s| - 1];
      TrimEndSpec(init, isSpace);
      var r := TrimEnd(s, isSpace);
      assert s[|r|..] == init[|r|..] + [s[|s| - 1]];
      assert init[..|r|] == s[..|r|];
    }
  }

  /** `Trim` gives the empty string exactly when every character is
      whitespace; otherwise it starts and ends with a character that is
      not; either way it is a slice of its input, and everything before and
      after that slice is whitespace. */
  lemma TrimSpec(s: string, isSpace: char -> bool)
    ensures var r := Trim(s, isSpace);
            var k := |s| - |TrimStart(s, isSpace)|;
            && (r == [] <==> AllSpace(s, isSpace))
            && (r != [] ==> !isSpace(r[0]) && !isSpace(r[|r| - 1]))
            && IsSliceAt(s, r, k)
            && AllSpace(s[..k], isSpace) && AllSpace(s[k + |r|..], isSpace)
  {
    var t := TrimStart(s, isSpace);
    var r := TrimEnd(t, isSpace);
    TrimStartSpec(s, isSpace);
    TrimEndSpec(t, isSpace);
    var k := |s| - |t|;
    assert s[k..][..|r|] == s[k..k + |r|];
    assert s[k + |r|..] == t[|r|..];
    if r != [] {
      assert !isSpace(s[|s| - |t|]);
    } else {
      assert s == s[..|s| - |t|] + t;
    }
  }

  /** `r` is the slice of `s` that starts at `k`. */
  predicate IsSliceAt(s: string, r: string, k: int)
  {
    0 <= k <= |s| - |r| && s[k..k + |r|] == r
  }

  /** A string that starts and ends with a non-space is left as it is. */
  lemma TrimFixed(s: string, isSpace: char -> bool)
    requires s == [] || (!isSpace(s[0]) && !isSpace(s[|s| - 1]))
    ensures Trim(s, isSpace) == s
  {
  }

  /** Python's `s.strip()`. */
  function PyStrip(s: string): string
  {
    Trim(s, PyIsSpace)
  }

  /** `str.lower()` on one character, for the ASCII letters. */
  function LowerChar(c: char): char
  {
    if 'A' <= c <= 'Z' then (c as int + 32) as char else c
  }

  /** `str.lower()`, character by character. */
  function Lower(s: string): string
  {
    seq(|s|, i requires 0 <= i < |s| => LowerChar(s[i]))
  }

  /** Lower-casing is idempotent, keeps whitespace where it was and never
      makes or unmakes a '#'. */
  lemma LowerCharFacts(c: char)
    ensures LowerChar(LowerChar(c)) == LowerChar(c)
    ensures PyIsSpace(LowerChar(c)) == PyIsSpace(c)
    ensures (LowerChar(c) == '#') == (c == '#')
    ensures LowerChar(c) != '\n' && LowerChar(c) != '\r' <== c != '\n' && c != '\r'
  {
  }

  /** Python's `pattern in text` on strings: `pattern` occurs in `text`. */
  predicate Contains(text: string, pattern: string)
  {
    pattern <= text || (text != [] && Contains(text[1..], pattern))
  }

  /** `pattern` occurs in `text` where it starts at offset `k`. */
  lemma {:induction false} ContainsAt(text: string, pattern: string, k: nat)
    requires k <= |text| && pattern <= text[k..]
    ensures Contains(text, pattern)
    decreases k
  {
    if k == 0 {
      assert text[k..] == text;
    } else {
      assert text[1..][k - 1..] == text[k..];
      ContainsAt(text[1..], pattern, k - 1);
    }
  }

  /** Conversely, a pattern that is `in` the text starts at some offset. */
  lemma {:induction false} ContainsOffset(text: string, pattern: string)
    requires Contains(text, pattern)
    ensures exists k :: 0 <= k <= |text| && pattern <= text[k..]
  {
    if pattern <= text {
      assert text[0..] == text;
    } else {
      ContainsOffset(text[1..], pattern);
      var k :| 0 <= k <= |text| - 1 && pattern <= text[1..][k..];
      assert text[1..][k..] == text[k + 1..];
    }
  }

  /** JavaScript's `s.replace(/c/g, rep)` and Python's `s.replace(c, rep)`
      for a one-character pattern: a single left-to-right pass. */
  function ReplaceChar(s: string, c: char, rep: string): string
  {
    if s == [] then [] else (if s[0] == c then rep else [s[0]]) + ReplaceChar(s[1..], c, rep)
  }

  /** Replacing works piecewise: the pass over `a + b` is the pass over `a`
      followed by the pass over `b`. */
  lemma {:induction false} ReplaceCharAppend(a: string, b: string, c: char, rep: string)
    ensures ReplaceChar(a + b, c, rep) == ReplaceChar(a, c, rep) + ReplaceChar(b, c, rep)
  {
    if a == [] {
      assert a + b == b;
    } else {
      assert (a + b)[1..] == a[1..] + b;
      ReplaceCharAppend(a[1..], b, c, rep);
    }
  }

  /** On a single character the pass is the replacement or the character. */
  lemma ReplaceCharSingle(x: char, c: char, rep: string)
    ensures ReplaceChar([x], c, rep) == if x == c then rep else [x]
  {
    assert [x][1..] == [];
  }

  /** A string without `c` passes through unchanged. */
  lemma {:induction false} ReplaceCharAbsent(s: string, c: char, rep: string)
    requires c !in s
    ensures ReplaceChar(s, c, rep) == s
  {
    if s != [] {
      ReplaceCharAbsent(s[1..], c, rep);
    }
  }

  /** The number of occurrences of `c` in `s`. */
  function Count(s: string, c: char): nat
  {
    if s == [] then 0 else (if s[0] == c then 1 else 0) + Count(s[1..], c)
  }
}
