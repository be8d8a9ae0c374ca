/**
 * The JavaScript string built-ins the overlay relies on, with their exact
 * edge-case behaviour: `indexOf` answers -1 when nothing is found, `slice`
 * and `substr` clamp (and count negative positions from the end), `split`
 * on a one-character separator always yields at least one piece, `trim`
 * strips the ECMAScript white-space and line-terminator code points.
 *
 * A Dafny `char` stands for one UTF-16 code unit; case mapping covers the
 * ASCII letters only.
 */
module JsString {
  import opened Wrappers

  /** ECMAScript WhiteSpace and LineTerminator code points (what `trim` removes). */
  predicate IsSpace(c: char) {
    var n := c as int;
    n == 0x09 || n == 0x0A || n == 0x0B || n == 0x0C || n == 0x0D || n == 0x20
    || n == 0xA0 || n == 0x1680 || (0x2000 <= n <= 0x200A) || n == 0x2028
    || n == 0x2029 || n == 0x202F || n == 0x205F || n == 0x3000 || n == 0xFEFF
  }

  predicate IsDigit(c: char) { '0' <= c <= '9' }

  predicate IsHexDigit(c: char) { IsDigit(c) || 'a' <= c <= 'f' || 'A' <= c <= 'F' }

  /** A search start position clamped into [0, n], as `indexOf` does. */
  function Clamp(i: int, n: nat): (r: nat)
    ensures r <= n
    ensures 0 <= i <= n ==> r == i
  {
    if i < 0 then 0 else if i > n then n else i
  }

  /** A relative position as `slice`/`substr` read it: negative counts back from the end. */
  function Relative(i: int, n: nat): (r: nat)
    ensures r <= n
    ensures 0 <= i <= n ==> r == i
  {
    if i < 0 then (if n + i < 0 then 0 else n + i) else if i > n then n else i
  }

  /** `s.indexOf(c, from)`: the first position at or after `from` holding `c`, or -1. */
  function IndexOf(s: string, c: char, from: int): (r: int)
    ensures -1 <= r < |s|
    decreases |s| - Clamp(from, |s|)
  {
    var i := Clamp(from, |s|);
    if i == |s| then -1
    else if s[i] == c then i
    else IndexOf(s, c, i + 1)
  }

  /** A position `IndexOf` reports holds `c`, at or after `from`. */
  lemma {:induction false} IndexOfFound(s: string, c: char, from: int)
    ensures IndexOf(s, c, from) >= 0 ==> Clamp(from, |s|) <= IndexOf(s, c, from) && s[IndexOf(s, c, from)] == c
    decreases |s| - Clamp(from, |s|)
  {
    var i := Clamp(from, |s|);
    if i < |s| && s[i] != c {
      IndexOfFound(s, c, i + 1);
    }
  }

  /** `IndexOf` skips nothing: no `c` lies between `from` and the answer (or the end, for -1). */
  lemma {:induction false} IndexOfFirst(s: string, c: char, from: int)
    ensures forall j :: Clamp(from, |s|) <= j < (if IndexOf(s, c, from) == -1 then |s| else IndexOf(s, c, from)) ==> s[j] != c
    decreases |s| - Clamp(from, |s|)
  {
    var i := Clamp(from, |s|);
    if i < |s| && s[i] != c {
      IndexOfFirst(s, c, i + 1);
    }
  }

  /** The first occurrence decides `IndexOf`. */
  lemma {:induction false} IndexOfAt(s: string, c: char, from: nat, k: nat)
    requires from <= k < |s| && s[k] == c
    requires forall j :: from <= j < k ==> s[j] != c
    ensures IndexOf(s, c, from) == k
    decreases k - from
  {
    if from < k {
      IndexOfAt(s, c, from + 1, k);
    }
  }

  /** With no `c` from `from` on, `IndexOf` answers -1. */
  lemma {:induction false} IndexOfMissing(s: string, c: char, from: nat)
    requires from <= |s|
    requires forall j :: from <= j < |s| ==> s[j] != c
    ensures IndexOf(s, c, from) == -1
    decreases |s| - from
  {
    if from < |s| {
      IndexOfMissing(s, c, from + 1);
    }
  }

  /** Searching past a prefix `a` is searching `b`, shifted by `|a|`. */
  lemma {:induction false} IndexOfShift(a: string, b: string, c: char, i: nat)
    requires i <= |b|
    ensures IndexOf(a + b, c, |a| + i) == (if IndexOf(b, c, i) == -1 then -1 else |a| + IndexOf(b, c, i))
    decreases |b| - i
  {
    assert (a + b)[|a|..] == b;
    if i < |b| && b[i] != c {
      assert (a + b)[|a| + i] == b[i];
      IndexOfShift(a, b, c, i + 1);
    }
  }

  /** Searching from inside `x`, where `c` no longer occurs, lands in `b`. */
  lemma {:induction false} IndexOfAppend(x: string, b: string, c: char, i: nat)
    requires i <= |x| && forall j :: i <= j < |x| ==> x[j] != c
    ensures IndexOf(x + b, c, i) == (if IndexOf(b, c, 0) == -1 then -1 else |x| + IndexOf(b, c, 0))
    decreases |x| - i
  {
    if i == |x| {
      IndexOfShift(x, b, c, 0);
    } else {
      assert (x + b)[i] == x[i];
      IndexOfAppend(x, b, c, i + 1);
    }
  }

  /** Concatenation regrouped. */
  lemma Regroup(a: string, b: string, c: string)
    ensures a + (b + c) == (a + b) + c
  {
  }

  /** `s.slice(start, end)`. */
  function Slice(s: string, start: int, end: int): (r: string)
    ensures |r| <= |s|
  {
    var a := Relative(start, |s|);
    var b := Relative(end, |s|);
    if a < b then s[a..b] else ""
  }

  /** Inside the string, `slice` is the plain subsequence. */
  lemma SliceWithin(s: string, start: int, end: int)
    requires 0 <= start <= end <= |s|
    ensures Slice(s, start, end) == s[start..end]
  {
  }

  /** `s.slice(start)`. */
  function SliceFrom(s: string, start: int): (r: string)
    ensures r == Slice(s, start, |s|)
  {
    var a := Relative(start, |s|);
    s[a..]
  }

  /** `s.substr(start, length)`. */
  function Substr(s: string, start: int, length: int): (r: string)
    ensures |r| <= |s|
  {
    var a := Relative(start, |s|);
    var n := if length < 0 then 0 else if length > |s| - a then |s| - a else length;
    s[a..a + n]
  }

  /** `s[i]` with JavaScript's answer `undefined` (None) outside the string. */
  function CharAt(s: string, i: int): Option<char> {
    if 0 <= i < |s| then Some(s[i]) else None
  }

  /** `s.trimStart()`. */
  function TrimStart(s: string): (r: string)
    ensures |r| <= |s|
  {
    if |s| > 0 && IsSpace(s[0]) then TrimStart(s[1..]) else s
  }

  /** `s.trimEnd()`. */
  function TrimEnd(s: string): (r: string)
    ensures |r| <= |s|
  {
    if |s| > 0 && IsSpace(s[|s| - 1]) then TrimEnd(s[..|s| - 1]) else s
  }

  /** `trimStart` removes a prefix, and what is left does not start with white space. */
  lemma {:induction false} TrimStartSuffix(s: string)
    ensures TrimStart(s) == s[|s| - |TrimStart(s)|..]
    ensures |TrimStart(s)| > 0 ==> !IsSpace(TrimStart(s)[0])
    decreases |s|
  {
    if |s| > 0 && IsSpace(s[0]) {
      TrimStartSuffix(s[1..]);
    }
  }

  /** `trimEnd` removes a suffix, and what is left does not end with white space. */
  lemma {:induction false} TrimEndPrefix(s: string)
    ensures TrimEnd(s) == s[..|TrimEnd(s)|]
    ensures |TrimEnd(s)| > 0 ==> !IsSpace(TrimEnd(s)[|TrimEnd(s)| - 1])
    decreases |s|
  {
    if |s| > 0 && IsSpace(s[|s| - 1]) {
      TrimEndPrefix(s[..|s| - 1]);
    }
  }

  /** `s.trim()`. */
  function Trim(s: string): (r: string)
    ensures |r| <= |s|
  {
    TrimEnd(TrimStart(s))
  }

  /** The trimmed string is the stretch of `s` after the leading white space, with no white space at either end. */
  lemma TrimInside(s: string)
    ensures Trim(s) == s[|s| - |TrimStart(s)|..|s| - |TrimStart(s)| + |Trim(s)|]
    ensures |Trim(s)| > 0 ==> !IsSpace(Trim(s)[0]) && !IsSpace(Trim(s)[|Trim(s)| - 1])
  {
    var t := TrimStart(s);
    TrimStartSuffix(s);
    TrimEndPrefix(t);
    var i := |s| - |t|;
    assert t[..|Trim(s)|] == s[i..i + |Trim(s)|];
    if |Trim(s)| > 0 {
      assert Trim(s)[0] == t[0];
    }
  }

  /** A string with no white space at either end is its own trim. */
  lemma TrimTrimmed(s: string)
    requires |s| > 0 ==> !IsSpace(s[0]) && !IsSpace(s[|s| - 1])
    ensures Trim(s) == s
  {
  }

  /** `s.split(sep)` for a one-character separator. */
  function Split(s: string, sep: char): (r: seq<string>)
    ensures |r| >= 1
    decreases |s|
  {
    if |s| == 0 then [""]
    else
      var rest := Split(s[1..], sep);
      if s[0] == sep then [""] + rest else [[s[0]] + rest[0]] + rest[1..]
  }

  /** `parts.join(sep)`. */
  function Join(parts: seq<string>, sep: char): string {
    if |parts| == 0 then ""
    else if |parts| == 1 then parts[0]
    else parts[0] + [sep] + Join(parts[1..], sep)
  }

  /** No piece of a split holds the separator. */
  lemma {:induction false} SplitPieces(s: string, sep: char)
    ensures forall i :: 0 <= i < |Split(s, sep)| ==> sep !in Split(s, sep)[i]
    decreases |s|
  {
    if |s| > 0 {
      SplitPieces(s[1..], sep);
    }
  }

  /** Splitting loses nothing: joining the pieces back gives the string. */
  lemma {:induction false} JoinSplit(s: string, sep: char)
    ensures Join(Split(s, sep), sep) == s
    decreases |s|
  {
    if |s| > 0 {
      JoinSplit(s[1..], sep);
      var rest := Split(s[1..], sep);
      if s[0] != sep && |rest| > 1 {
        assert ([[s[0]] + rest[0]] + rest[1..])[1..] == rest[1..];
      }
    }
  }

  /** A string without the separator splits into itself. */
  lemma {:induction false} SplitNoSep(s: string, sep: char)
    requires sep !in s
    ensures Split(s, sep) == [s]
    decreases |s|
  {
    if |s| > 0 {
      assert sep !in s[1..] by { assert forall k :: 0 <= k < |s| - 1 ==> s[1..][k] == s[k + 1]; }
      SplitNoSep(s[1..], sep);
      assert [s[0]] + s[1..] == s;
    }
  }

  /** Splitting `a + [sep] + b` where `a` has no separator: `a` is the first piece. */
  lemma {:induction false} SplitAt(a: string, b: string, sep: char)
    requires sep !in a
    ensures Split(a + [sep] + b, sep) == [a] + Split(b, sep)
    decreases |a|
  {
    if |a| == 0 {
      assert (a + [sep] + b)[1..] == b;
    } else {
      assert (a + [sep] + b)[1..] == a[1..] + [sep] + b;
      assert sep !in a[1..] by { assert forall k :: 0 <= k < |a| - 1 ==> a[1..][k] == a[k + 1]; }
      SplitAt(a[1..], b, sep);
      assert [a[0]] + a[1..] == a;
    }
  }

  /** Joining pieces free of the separator and splitting again gives the pieces back. */
  lemma {:induction false} SplitJoin(parts: seq<string>, sep: char)
    requires |parts| >= 1
    requires forall i :: 0 <= i < |parts| ==> sep !in parts[i]
    ensures Split(Join(parts, sep), sep) == parts
    decreases |parts|
  {
    if |parts| == 1 {
      SplitNoSep(parts[0], sep);
    } else {
      SplitJoin(parts[1..], sep);
      SplitAt(parts[0], Join(parts[1..], sep), sep);
      assert [parts[0]] + parts[1..] == parts;
    }
  }

  /** An ASCII lower-case letter. */
  predicate IsLowerAscii(c: char) { 'a' <= c <= 'z' }

  /** An ASCII upper-case letter. */
  predicate IsUpperAscii(c: char) { 'A' <= c <= 'Z' }

  function UpperChar(c: char): char {
    if IsLowerAscii(c) then (c as int - 32) as char else c
  }

  function LowerChar(c: char): char {
    if IsUpperAscii(c) then (c as int + 32) as char else c
  }

  /**
   * `s.toUpperCase()` (ASCII letters): no lower-case letter is left, every
   * other character is kept, and each character is the same letter as before.
   */
  function ToUpper(s: string): (r: string)
    ensures |r| == |s|
    ensures forall k :: 0 <= k < |r| ==> !IsLowerAscii(r[k])
    ensures forall k :: 0 <= k < |s| && !IsLowerAscii(s[k]) ==> r[k] == s[k]
    ensures forall k :: 0 <= k < |s| ==> LowerChar(r[k]) == LowerChar(s[k])
  {
    seq(|s|, k requires 0 <= k < |s| => UpperChar(s[k]))
  }

  /**
   * `s.toLowerCase()` (ASCII letters): no upper-case letter is left, every
   * other character is kept, and each character is the same letter as before.
   */
  function ToLower(s: string): (r: string)
    ensures |r| == |s|
    ensures forall k :: 0 <= k < |r| ==> !IsUpperAscii(r[k])
    ensures forall k :: 0 <= k < |s| && !IsUpperAscii(s[k]) ==> r[k] == s[k]
    ensures forall k :: 0 <= k < |s| ==> UpperChar(r[k]) == UpperChar(s[k])
  {
    seq(|s|, k requires 0 <= k < |s| => LowerChar(s[k]))
  }

  /** Upper-casing twice is upper-casing once. */
  lemma ToUpperIdempotent(s: string)
    ensures ToUpper(ToUpper(s)) == ToUpper(s)
  {
    var u := ToUpper(s);
    assert forall k :: 0 <= k < |u| ==> ToUpper(u)[k] == u[k];
  }

  /** Lower-casing twice is lower-casing once. */
  lemma ToLowerIdempotent(s: string)
    ensures ToLower(ToLower(s)) == ToLower(s)
  {
    var l := ToLower(s);
    assert forall k :: 0 <= k < |l| ==> ToLower(l)[k] == l[k];
  }

  /** Upper-casing first changes nothing of the lower-cased text: comparing in lower case ignores case. */
  lemma ToLowerOfUpper(s: string)
    ensures ToLower(ToUpper(s)) == ToLower(s)
  {
    assert forall k :: 0 <= k < |s| ==> ToLower(ToUpper(s))[k] == ToLower(s)[k];
  }

  /** Lower-casing first changes nothing of the upper-cased text. */
  lemma ToUpperOfLower(s: string)
    ensures ToUpper(ToLower(s)) == ToUpper(s)
  {
    assert forall k :: 0 <= k < |s| ==> ToUpper(ToLower(s))[k] == ToUpper(s)[k];
  }

  /** Two texts agree in lower case exactly when they agree in upper case. */
  lemma SameCaseFolding(a: string, b: string)
    ensures ToLower(a) == ToLower(b) <==> ToUpper(a) == ToUpper(b)
  {
    ToLowerOfUpper(a);
    ToLowerOfUpper(b);
    ToUpperOfLower(a);
    ToUpperOfLower(b);
  }

  /** `s.replace(/\\s/gi, " ")`: every escaped space `\s` (or `\S`) becomes a blank. */
  function UnescapeSpaces(s: string): (r: string)
    ensures |r| <= |s|
  {
    if |s| >= 2 && s[0] == '\\' && (s[1] == 's' || s[1] == 'S') then " " + UnescapeSpaces(s[2..])
    else if |s| == 0 then ""
    else [s[0]] + UnescapeSpaces(s[1..])
  }

  /** Text without a backslash is left as it is. */
  lemma {:induction false} UnescapeSpacesPlain(s: string)
    requires '\\' !in s
    ensures UnescapeSpaces(s) == s
  {
    if |s| > 0 {
      assert '\\' !in s[1..] by {
        forall k | 0 <= k < |s[1..]| ensures s[1..][k] != '\\' {
          assert s[1..][k] == s[k + 1];
        }
      }
      UnescapeSpacesPlain(s[1..]);
      assert s == [s[0]] + s[1..];
    }
  }

  /** An escaped space followed by text is a blank followed by that text unescaped. */
  lemma UnescapeSpacesEscaped(t: string)
    ensures UnescapeSpaces("\\s" + t) == " " + UnescapeSpaces(t)
    ensures UnescapeSpaces("\\S" + t) == " " + UnescapeSpaces(t)
  {
    assert ("\\s" + t)[2..] == t;
    assert ("\\S" + t)[2..] == t;
  }

  /** The value of a string of decimal digits. */
  function DecimalValue(s: string): nat
    requires forall k :: 0 <= k < |s| ==> IsDigit(s[k])
  {
    if |s| == 0 then 0
    else
      assert IsDigit(s[|s| - 1]);
      10 * DecimalValue(s[..|s| - 1]) + (s[|s| - 1] as int - '0' as int)
  }

  function HexDigitValue(c: char): (v: nat)
    requires IsHexDigit(c)
    ensures v < 16
  {
    if IsDigit(c) then c as int - '0' as int
    else if 'a' <= c <= 'f' then c as int - 'a' as int + 10
    else c as int - 'A' as int + 10
  }

  /** The value of a string of hexadecimal digits. */
  function HexValue(s: string): (v: nat)
    requires forall k :: 0 <= k < |s| ==> IsHexDigit(s[k])
  {
    if |s| == 0 then 0 else 16 * HexValue(s[..|s| - 1]) + HexDigitValue(s[|s| - 1])
  }

  /** Two hexadecimal digits denote at most 255. */
  lemma HexValueTwoDigits(s: string)
    requires |s| <= 2 && forall k :: 0 <= k < |s| ==> IsHexDigit(s[k])
    ensures HexValue(s) <= 255
  {
    if |s| == 2 {
      assert HexValue(s[..1]) == HexDigitValue(s[0]);
    }
  }

  /**
   * `Number("0x" + digits)`: the white space `Number` strips can only trail
   * the digits here; what is left must be a non-empty run of hexadecimal
   * digits, otherwise the result is NaN (None).
   */
  function HexNumber(digits: string): Option<nat> {
    var d := TrimEnd(digits);
    if |d| > 0 && forall k :: 0 <= k < |d| ==> IsHexDigit(d[k]) then Some(HexValue(d)) else None
  }

  /** `Math.floor` on an exact real. */
  function Floor(x: real): int {
    x.Floor
  }
}
