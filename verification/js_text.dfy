/**
 * The few pieces of JavaScript string semantics the authentication code relies on:
 * the whitespace set shared by `String.prototype.trim` and the regular-expression
 * class `\s`, `trim` itself, `length` (which counts UTF-16 code units), and the
 * `message || fallback` idiom, which picks the fallback for an empty string.
 * A Dafny `char` is a Unicode scalar value, so a character outside the Basic
 * Multilingual Plane is one `char` here but two code units in JavaScript.
 */
module JsText {

  datatype Option<+T> = None | Some(value: T)

  /** ECMAScript WhiteSpace and LineTerminator code points: what `trim` removes and `\s` matches. */
  function IsWs(c: char): (ws: bool)
    ensures c as int < 0x80 ==> (ws <==> c == ' ' || '\t' <= c <= '\r')
  {
    || c == '\t' || c == '\n' || c == '\U{000B}' || c == '\U{000C}' || c == '\r' || c == ' '
    || c == '\U{00A0}' || c == '\U{1680}'
    || ('\U{2000}' <= c <= '\U{200A}')
    || c == '\U{2028}' || c == '\U{2029}' || c == '\U{202F}' || c == '\U{205F}'
    || c == '\U{3000}' || c == '\U{FEFF}'
  }

  /** A string JavaScript treats as blank once trimmed: every character is whitespace. */
  predicate IsBlank(s: string) {
    forall k :: 0 <= k < |s| ==> IsWs(s[k])
  }

  /** `trimStart`: drops the longest all-whitespace prefix. */
  function TrimStart(s: string): (r: string)
    ensures |r| <= |s| && r == s[|s| - |r|..]
    ensures forall k :: 0 <= k < |s| - |r| ==> IsWs(s[k])
    ensures r != [] ==> !IsWs(r[0])
    decreases |s|
  {
    if s != [] && IsWs(s[0]) then TrimStart(s[1..]) else s
  }

  /** `trimEnd`: drops the longest all-whitespace suffix. */
  function TrimEnd(s: string): (r: string)
    ensures |r| <= |s| && r == s[..|r|]
    ensures forall k :: |r| <= k < |s| ==> IsWs(s[k])
    ensures r != [] ==> !IsWs(r[|r| - 1])
    decreases |s|
  {
    if s != [] && IsWs(s[|s| - 1]) then TrimEnd(s[..|s| - 1]) else s
  }

  /** `trim`: whitespace removed at both ends. */
  function Trim(s: string): (r: string)
    ensures |r| <= |s|
    ensures r != [] ==> !IsWs(r[0]) && !IsWs(r[|r| - 1])
    ensures exists i, j :: TrimsTo(s, i, j) && r == s[i..j]
  {
    var i := |s| - |TrimStart(s)|;
    var r := TrimEnd(TrimStart(s));
    TrimBothEnds(s, TrimStart(s), r);
    assert TrimsTo(s, i, i + |r|) && r == s[i..i + |r|];
    r
  }

  /** Cutting a whitespace prefix and then a whitespace suffix leaves a slice of `s` between them. */
  lemma TrimBothEnds(s: string, t: string, r: string)
    requires |t| <= |s| && t == s[|s| - |t|..] && (forall k :: 0 <= k < |s| - |t| ==> IsWs(s[k]))
    requires |r| <= |t| && r == t[..|r|] && (forall k :: |r| <= k < |t| ==> IsWs(t[k]))
    ensures TrimsTo(s, |s| - |t|, |s| - |t| + |r|) && r == s[|s| - |t|..|s| - |t| + |r|]
  {
    var i := |s| - |t|;
    forall k | i + |r| <= k < |s| ensures IsWs(s[k]) {
      assert s[k] == t[k - i];
    }
  }

  /** `s[i..j]` is what remains of `s` once whitespace ends before `i` and from `j` on are removed. */
  predicate TrimsTo(s: string, i: int, j: int) {
    && 0 <= i <= j <= |s|
    && (forall k :: 0 <= k < i ==> IsWs(s[k]))
    && (forall k :: j <= k < |s| ==> IsWs(s[k]))
  }

  /** `!s.trim()` holds exactly for the strings made of whitespace alone (the empty one included). */
  lemma TrimEmptyIffBlank(s: string)
    ensures Trim(s) == [] <==> IsBlank(s)
  {
    var t := TrimStart(s);
    if Trim(s) == [] {
      // TrimEnd removed all of t, but TrimStart kept t only if t[0] is not whitespace
      assert t == [];
      forall k | 0 <= k < |s| ensures IsWs(s[k]) { }
    } else {
      var k := |s| - |t|;
      assert s[k] == t[0];
    }
  }

  /** JavaScript's `length`: the number of UTF-16 code units. */
  function Utf16Length(s: string): (n: nat)
    ensures |s| <= n <= 2 * |s|
  {
    if s == [] then 0 else Utf16Length(s[..|s| - 1]) + (if s[|s| - 1] as int > 0xFFFF then 2 else 1)
  }

  /** Every character lies in the Basic Multilingual Plane. */
  predicate IsBmp(s: string) {
    forall k :: 0 <= k < |s| ==> s[k] as int <= 0xFFFF
  }

  /** For strings of BMP characters JavaScript's `length` agrees with the sequence length. */
  lemma {:induction false} Utf16LengthOfBmp(s: string)
    ensures IsBmp(s) ==> Utf16Length(s) == |s|
  {
    if s != [] && IsBmp(s) {
      var p := s[..|s| - 1];
      assert IsBmp(p) by {
        forall k | 0 <= k < |p| ensures p[k] as int <= 0xFFFF { assert p[k] == s[k]; }
      }
      Utf16LengthOfBmp(p);
    }
  }

  /** `message || fallback`: an empty message is falsy and yields the fallback. */
  function OrElse(message: string, fallback: string): (r: string)
    ensures message != [] ==> r == message
    ensures message == [] ==> r == fallback
  {
    if message != [] then message else fallback
  }
}
