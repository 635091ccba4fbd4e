/**
 * Character and string helpers shared by the browser scripts and the server:
 * ASCII lower-casing, substring search, the two whitespace sets (JavaScript's
 * `trim`/`\s` and Python's `str.strip`), trimming and decimal rendering.
 */
module Text {

  /** `toLowerCase` on one character, restricted to the ASCII letters. */
  function LowerChar(c: char): char
  {
    if 'A' <= c <= 'Z' then (c as int + 32) as char else c
  }

  function Lower(s: string): (r: string)
    ensures |r| == |s|
    ensures forall i :: 0 <= i < |s| ==> r[i] == LowerChar(s[i])
  {
    if s == [] then [] else [LowerChar(s[0])] + Lower(s[1..])
  }

  /** Lower-casing twice is lower-casing once. */
  lemma LowerIdempotent(s: string)
    ensures Lower(Lower(s)) == Lower(s)
  {
  }

  /** A character outside the Basic Multilingual Plane, which UTF-16 stores as a surrogate pair. */
  predicate IsAstral(c: char)
  {
    c as int > 0xFFFF
  }

  /**
   * JavaScript's `length`: the number of UTF-16 code units, one per
   * character of the Basic Multilingual Plane and two per other character.
   */
  function JsLength(s: string): (r: nat)
    ensures |s| <= r <= 2 * |s|
  {
    if s == [] then 0 else (if IsAstral(s[0]) then 2 else 1) + JsLength(s[1..])
  }

  /** Without astral characters, `length` counts the characters. */
  lemma {:induction false} JsLengthPlain(s: string)
    requires forall i :: 0 <= i < |s| ==> !IsAstral(s[i])
    ensures JsLength(s) == |s|
  {
    if s != [] {
      assert forall i :: 0 <= i < |s[1..]| ==> s[1..][i] == s[i + 1];
      JsLengthPlain(s[1..]);
    }
  }

  /** Each astral character counts twice: a string of `n` of them has `length` 2n. */
  lemma {:induction false} JsLengthAstral(s: string)
    requires forall i :: 0 <= i < |s| ==> IsAstral(s[i])
    ensures JsLength(s) == 2 * |s|
  {
    if s != [] {
      assert forall i :: 0 <= i < |s[1..]| ==> s[1..][i] == s[i + 1];
      JsLengthAstral(s[1..]);
    }
  }

  predicate StartsWith(s: string, prefix: string)
  {
    |prefix| <= |s| && s[..|prefix|] == prefix
  }

  /** `String.prototype.includes` / Python's `in`: `sub` occurs somewhere in `s`. */
  predicate Contains(s: string, sub: string)
    decreases |s|
  {
    StartsWith(s, sub) || (|s| > 0 && Contains(s[1..], sub))
  }

  /** `sub` starts at position `i` of `s`. */
  predicate OccursAt(s: string, sub: string, i: int)
  {
    0 <= i <= |s| - |sub| && s[i..i + |sub|] == sub
  }

  /** The scanning definition agrees with "there is a position where `sub` starts". */
  lemma {:induction false} ContainsIff(s: string, sub: string)
    ensures Contains(s, sub) <==> exists i :: OccursAt(s, sub, i)
    decreases |s|
  {
    if StartsWith(s, sub) {
      assert OccursAt(s, sub, 0);
    } else if |s| == 0 {
    } else {
      ContainsIff(s[1..], sub);
      if Contains(s[1..], sub) {
        var i :| OccursAt(s[1..], sub, i);
        assert s[i + 1..i + 1 + |sub|] == sub;
        assert OccursAt(s, sub, i + 1);
      }
      if exists i :: OccursAt(s, sub, i) {
        var i :| OccursAt(s, sub, i);
        assert i != 0;
        assert s[1..][i - 1..i - 1 + |sub|] == sub;
        assert OccursAt(s[1..], sub, i - 1);
      }
    }
  }

  /** The characters JavaScript's `String.prototype.trim` removes and `\s` matches. */
  predicate IsJsSpace(c: char)
  {
    var n := c as int;
    (9 <= n <= 13) || n == 32 || n == 0xA0 || n == 0x1680 || (0x2000 <= n <= 0x200A)
    || n == 0x2028 || n == 0x2029 || n == 0x202F || n == 0x205F || n == 0x3000 || n == 0xFEFF
  }

  /** The characters Python's `str.strip()` removes (`str.isspace`). */
  predicate IsPySpace(c: char)
  {
    var n := c as int;
    (9 <= n <= 13) || (0x1C <= n <= 0x1F) || n == 32 || n == 0x85 || n == 0xA0 || n == 0x1680
    || (0x2000 <= n <= 0x200A) || n == 0x2028 || n == 0x2029 || n == 0x202F || n == 0x205F || n == 0x3000
  }

  predicate AllSpace(s: string, isSpace: char -> bool)
  {
    forall i :: 0 <= i < |s| ==> isSpace(s[i])
  }

  function TrimStart(s: string, isSpace: char -> bool): (r: string)
    ensures |r| <= |s| && r == s[|s| - |r|..]
    ensures AllSpace(s[..|s| - |r|], isSpace)
    ensures r == [] || !isSpace(r[0])
  {
    if |s| > 0 && isSpace(s[0]) then
      var r := TrimStart(s[1..], isSpace);
      assert s[..|s| - |r|] == [s[0]] + s[1..][..|s[1..]| - |r|];
      r
    else s
  }

  function TrimEnd(s: string, isSpace: char -> bool): (r: string)
    ensures |r| <= |s| && r == s[..|r|]
    ensures AllSpace(s[|r|..], isSpace)
    ensures r == [] || !isSpace(r[|r| - 1])
  {
    if |s| > 0 && isSpace(s[|s| - 1]) then
      var r := TrimEnd(s[..|s| - 1], isSpace);
      assert s[|r|..] == s[..|s| - 1][|r|..] + [s[|s| - 1]];
      r
    else s
  }

  /**
   * Removes leading and trailing whitespace: the result is a contiguous piece
   * of `s`, everything cut off is whitespace, and the result neither starts
   * nor ends with whitespace.
   */
  function Trim(s: string, isSpace: char -> bool): (r: string)
    ensures exists i :: 0 <= i <= |s| - |r| && r == s[i..i + |r|]
                        && AllSpace(s[..i], isSpace) && AllSpace(s[i + |r|..], isSpace)
    ensures r == [] || (!isSpace(r[0]) && !isSpace(r[|r| - 1]))
  {
    var a := TrimStart(s, isSpace);
    var r := TrimEnd(a, isSpace);
    var i := |s| - |a|;
    assert r == s[i..i + |r|];
    assert s[i + |r|..] == a[|r|..];
    assert 0 <= i <= |s| - |r| && r == s[i..i + |r|] && AllSpace(s[..i], isSpace) && AllSpace(s[i + |r|..], isSpace);
    r
  }

  /** Where the trimmed text sits inside the original. */
  lemma TrimOffset(s: string, isSpace: char -> bool) returns (i: nat)
    ensures i + |Trim(s, isSpace)| <= |s| && Trim(s, isSpace) == s[i..i + |Trim(s, isSpace)|]
  {
    i := |s| - |TrimStart(s, isSpace)|;
  }

  /** A string that neither starts nor ends with whitespace is its own trim. */
  lemma TrimUnchanged(s: string, isSpace: char -> bool)
    requires s != [] && !isSpace(s[0]) && !isSpace(s[|s| - 1])
    ensures Trim(s, isSpace) == s
  {
    assert TrimStart(s, isSpace) == s;
    assert TrimEnd(s, isSpace) == s;
  }

  /** Trimming twice is trimming once. */
  lemma TrimIdempotent(s: string, isSpace: char -> bool)
    ensures Trim(Trim(s, isSpace), isSpace) == Trim(s, isSpace)
  {
    var r := Trim(s, isSpace);
    if r != [] {
      TrimUnchanged(r, isSpace);
    } else {
      assert TrimStart(r, isSpace) == r;
    }
  }

  /** One trailing whitespace character after an already trimmed string is cut off. */
  lemma TrimDropsTrailingSpace(s: string, c: char, isSpace: char -> bool)
    requires s != [] && !isSpace(s[0]) && !isSpace(s[|s| - 1]) && isSpace(c)
    ensures Trim(s + [c], isSpace) == s
  {
    var t := s + [c];
    assert TrimStart(t, isSpace) == t;
    assert t[..|t| - 1] == s;
    assert TrimEnd(s, isSpace) == s;
  }

  /** A string trims to the empty string exactly when it is all whitespace. */
  lemma TrimEmptyIff(s: string, isSpace: char -> bool)
    ensures Trim(s, isSpace) == [] <==> AllSpace(s, isSpace)
  {
    var r := Trim(s, isSpace);
    if r == [] {
      var a := TrimStart(s, isSpace);
      var i := |s| - |a|;
      assert a[0..] == a;
      assert s == s[..i] + a;
      forall k | 0 <= k < |s| ensures isSpace(s[k]) {
        assert s[k] == (s[..i] + a)[k];
      }
    } else {
      var i := TrimOffset(s, isSpace);
      assert s[i] == r[0];
    }
  }

  function DigitChar(d: nat): char
    requires d < 10
  {
    ('0' as int + d) as char
  }

  /** Decimal rendering of a natural number, as template literals and f-strings print it. */
  function NatToString(n: nat): (r: string)
    ensures |r| > 0
  {
    if n < 10 then [DigitChar(n)] else NatToString(n / 10) + [DigitChar(n % 10)]
  }
}
