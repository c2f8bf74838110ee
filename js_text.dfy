/**
 * The pieces of JavaScript string semantics the chat client relies on:
 * `String.prototype.trim`, `toLowerCase` (ASCII part) and the UTF-16 code
 * units that `charCodeAt` reads. A Dafny `string` holds Unicode scalar values.
 */
module JsText {

  /** ECMAScript WhiteSpace and LineTerminator code points: exactly what `trim` strips. */
  predicate IsJsWhitespace(c: char) {
    || c == '\U{0009}' || c == '\U{000A}' || c == '\U{000B}' || c == '\U{000C}' || c == '\U{000D}'
    || c == ' ' || c == '\U{00A0}' || c == '\U{1680}' || ('\U{2000}' <= c <= '\U{200A}')
    || c == '\U{2028}' || c == '\U{2029}' || c == '\U{202F}' || c == '\U{205F}' || c == '\U{3000}'
    || c == '\U{FEFF}'
  }

  /** A string that `trim` turns into the empty string. */
  ghost predicate IsBlank(s: string) {
    forall i :: 0 <= i < |s| ==> IsJsWhitespace(s[i])
  }

  /** Leading whitespace removed: a suffix of `s` that starts with a non-whitespace character. */
  function TrimStart(s: string): (r: string)
    ensures |r| <= |s| && r == s[|s| - |r|..]
    ensures forall i :: 0 <= i < |s| - |r| ==> IsJsWhitespace(s[i])
    ensures r != [] ==> !IsJsWhitespace(r[0])
    decreases |s|
  {
    if |s| > 0 && IsJsWhitespace(s[0]) then TrimStart(s[1..]) else s
  }

  /**
   * `s.trim()`: whitespace is peeled off either end until both ends are
   * other characters. The result is empty exactly for blank strings.
   */
  function Trim(s: string): (r: string)
    ensures r == [] <==> IsBlank(s)
    ensures r != [] ==> !IsJsWhitespace(r[0]) && !IsJsWhitespace(r[|r| - 1])
    ensures |r| <= |s|
    decreases |s|
  {
    if |s| > 0 && IsJsWhitespace(s[0]) then BlankWithout(s, 1, |s|); Trim(s[1..])
    else if |s| > 0 && IsJsWhitespace(s[|s| - 1]) then BlankWithout(s, 0, |s| - 1); Trim(s[..|s| - 1])
    else s
  }

  /** Removing whitespace from the ends of a string keeps it blank or not blank. */
  lemma BlankWithout(s: string, lo: nat, hi: nat)
    requires lo <= hi <= |s|
    requires forall i :: 0 <= i < lo ==> IsJsWhitespace(s[i])
    requires forall i :: hi <= i < |s| ==> IsJsWhitespace(s[i])
    ensures IsBlank(s[lo..hi]) <==> IsBlank(s)
  {
    if IsBlank(s[lo..hi]) {
      forall i | lo <= i < hi ensures IsJsWhitespace(s[i]) {
        assert s[lo..hi][i - lo] == s[i];
      }
    }
  }

  /** The trimmed string is the part of `s` between a leading and a trailing run of whitespace. */
  lemma {:induction false} TrimIsSlice(s: string) returns (lo: nat)
    ensures lo + |Trim(s)| <= |s| && Trim(s) == s[lo..lo + |Trim(s)|]
    ensures forall i :: 0 <= i < lo ==> IsJsWhitespace(s[i])
    ensures forall i :: lo + |Trim(s)| <= i < |s| ==> IsJsWhitespace(s[i])
    decreases |s|
  {
    if |s| > 0 && IsJsWhitespace(s[0]) {
      assert Trim(s) == Trim(s[1..]);
      var l := TrimIsSlice(s[1..]);
      lo := l + 1;
      SliceAfterFirst(s, s[1..], l, |Trim(s)|);
    } else if |s| > 0 && IsJsWhitespace(s[|s| - 1]) {
      assert Trim(s) == Trim(s[..|s| - 1]);
      lo := TrimIsSlice(s[..|s| - 1]);
      SliceBeforeLast(s, s[..|s| - 1], lo, |Trim(s)|);
    } else {
      lo := 0;
    }
  }

  /** A slice of the tail `t` of `s` between whitespace runs, seen in `s` itself when `s` starts with whitespace. */
  lemma SliceAfterFirst(s: string, t: string, l: nat, n: nat)
    requires |s| > 0 && IsJsWhitespace(s[0]) && t == s[1..] && l + n <= |t|
    requires forall i :: 0 <= i < l ==> IsJsWhitespace(t[i])
    requires forall i :: l + n <= i < |t| ==> IsJsWhitespace(t[i])
    ensures t[l..l + n] == s[l + 1..l + 1 + n]
    ensures forall i :: 0 <= i < l + 1 ==> IsJsWhitespace(s[i])
    ensures forall i :: l + 1 + n <= i < |s| ==> IsJsWhitespace(s[i])
  {
    forall i | 0 <= i < l + 1 ensures IsJsWhitespace(s[i]) {
      if i > 0 { assert t[i - 1] == s[i]; }
    }
    forall i | l + 1 + n <= i < |s| ensures IsJsWhitespace(s[i]) {
      assert t[i - 1] == s[i];
    }
  }

  /** A slice of the front `t` of `s` between whitespace runs, seen in `s` itself when `s` ends with whitespace. */
  lemma SliceBeforeLast(s: string, t: string, lo: nat, n: nat)
    requires |s| > 0 && IsJsWhitespace(s[|s| - 1]) && t == s[..|s| - 1] && lo + n <= |t|
    requires forall i :: 0 <= i < lo ==> IsJsWhitespace(t[i])
    requires forall i :: lo + n <= i < |t| ==> IsJsWhitespace(t[i])
    ensures t[lo..lo + n] == s[lo..lo + n]
    ensures forall i :: 0 <= i < lo ==> IsJsWhitespace(s[i])
    ensures forall i :: lo + n <= i < |s| ==> IsJsWhitespace(s[i])
  {
    forall i | 0 <= i < lo ensures IsJsWhitespace(s[i]) {
      assert t[i] == s[i];
    }
    forall i | lo + n <= i < |s| ensures IsJsWhitespace(s[i]) {
      if i < |t| { assert t[i] == s[i]; }
    }
  }

  /** A string that neither starts nor ends with whitespace is its own trim. */
  lemma TrimUntouched(s: string)
    requires s != [] && !IsJsWhitespace(s[0]) && !IsJsWhitespace(s[|s| - 1])
    ensures Trim(s) == s
  {
  }

  /** Lower-cases the ASCII letters; every other character is kept. */
  function LowerChar(c: char): char {
    if 'A' <= c <= 'Z' then (c as int + 32) as char else c
  }

  /** `s.toLowerCase()` restricted to ASCII: same length, character by character. */
  function ToLower(s: string): (r: string)
    ensures |r| == |s| && forall i {:trigger r[i]} :: 0 <= i < |s| ==> r[i] == LowerChar(s[i])
  {
    seq(|s|, i requires 0 <= i < |s| => LowerChar(s[i]))
  }

  /** `s.toLowerCase().trim()`, the normal form of a username for colouring. */
  function Normalize(s: string): string {
    Trim(ToLower(s))
  }

  /** Lower-casing neither creates nor removes whitespace, so it keeps blankness. */
  lemma NormalizeBlank(s: string)
    ensures Normalize(s) == [] <==> Trim(s) == []
  {
    var l := ToLower(s);
    assert forall i :: 0 <= i < |s| ==> (IsJsWhitespace(l[i]) <==> IsJsWhitespace(s[i]));
    assert IsBlank(l) <==> IsBlank(s);
  }

  /** The UTF-16 code units of one character, as `charCodeAt` reports them. */
  function CodeUnits(c: char): (r: seq<int>)
    ensures 1 <= |r| <= 2 && forall i :: 0 <= i < |r| ==> 0 <= r[i] < 0x1_0000
  {
    var v := c as int;
    if v < 0x1_0000 then [v]
    else [0xD800 + (v - 0x1_0000) / 0x400, 0xDC00 + (v - 0x1_0000) % 0x400]
  }

  /** A string as JavaScript stores it: the concatenated UTF-16 code units. */
  function Utf16(s: string): (r: seq<int>)
    ensures |s| <= |r| <= 2 * |s|
  {
    if s == [] then [] else CodeUnits(s[0]) + Utf16(s[1..])
  }

  /** Every code unit fits in 16 bits. */
  lemma {:induction false} Utf16Units(s: string)
    ensures forall i :: 0 <= i < |Utf16(s)| ==> 0 <= Utf16(s)[i] < 0x1_0000
  {
    if s != [] {
      Utf16Units(s[1..]);
      var head, tail := CodeUnits(s[0]), Utf16(s[1..]);
      forall i | 0 <= i < |head + tail| ensures 0 <= (head + tail)[i] < 0x1_0000 {
        if i >= |head| { assert (head + tail)[i] == tail[i - |head|]; }
      }
    }
  }
}
