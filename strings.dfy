/**
 * The JavaScript string operations the auto-responder relies on, over `seq<char>`:
 * `trim`, `toLowerCase` / `toUpperCase` (ASCII letters), `startsWith` / `endsWith`,
 * `includes`, `split` / `join`, `replace(/\D/g, "")`, `replace(/\s+/g, "_")`,
 * decimal rendering of a number and `parseInt(_, 10)`.
 */
module Strings {
  import opened Wrappers

  // ---------------------------------------------------------------- whitespace and trim

  /**
   * The WhiteSpace and LineTerminator code points of ECMAScript: the characters that
   * `String.prototype.trim`, `parseInt` and the regular-expression class `\s` treat as space.
   */
  predicate IsSpace(c: char) {
    || c == '\t' || c == '\n' || c == '\U{000B}' || c == '\U{000C}' || c == '\r' || c == ' '
    || c == '\U{00A0}' || c == '\U{1680}' || ('\U{2000}' <= c <= '\U{200A}')
    || c == '\U{2028}' || c == '\U{2029}' || c == '\U{202F}' || c == '\U{205F}'
    || c == '\U{3000}' || c == '\U{FEFF}'
  }

  /** Neither end of `s` is a space: what `trim` returns. */
  predicate IsTrimmed(s: string) {
    s == [] || (!IsSpace(s[0]) && !IsSpace(s[|s| - 1]))
  }

  /** Drops leading spaces: the suffix of `s` that starts at its first non-space. */
  function TrimStart(s: string): (r: string)
    ensures |r| <= |s| && r == s[|s| - |r|..]
    ensures r == [] || !IsSpace(r[0])
    ensures forall i :: 0 <= i < |s| - |r| ==> IsSpace(s[i])
  {
    if s != [] && IsSpace(s[0]) then TrimStart(s[1..]) else s
  }

  /** Drops trailing spaces: the prefix of `s` that ends at its last non-space. */
  function TrimEnd(s: string): (r: string)
    ensures |r| <= |s| && r == s[..|r|]
    ensures r == [] || !IsSpace(r[|r| - 1])
    ensures forall i :: |r| <= i < |s| ==> IsSpace(s[i])
  {
    if s != [] && IsSpace(s[|s| - 1]) then TrimEnd(s[..|s| - 1]) else s
  }

  /** `s.trim()`. */
  function Trim(s: string): (r: string)
    ensures IsTrimmed(r) && |r| <= |s|
    ensures IsTrimmed(s) ==> r == s
  {
    TrimEnd(TrimStart(s))
  }

  /**
   * What `trim` removes: `s` is its trimmed form with only spaces before and after it (and, the
   * trimmed form having no space at either end, this pins the result down).
   */
  lemma TrimDecomposes(s: string)
    ensures exists p :: 0 <= p <= |s| - |Trim(s)| && s[p..p + |Trim(s)|] == Trim(s)
                        && AllSpace(s[..p]) && AllSpace(s[p + |Trim(s)|..])
  {
    var t := TrimStart(s);
    var r := TrimEnd(t);
    var p := |s| - |t|;
    assert s[p..p + |r|] == r && AllSpace(s[..p]) && AllSpace(s[p + |r|..]);
  }

  lemma TrimIdempotent(s: string)
    ensures Trim(Trim(s)) == Trim(s)
  {
  }

  /** Trimming text followed by a suffix that starts and ends with a non-space only trims the text's start. */
  lemma {:induction false} TrimStartAppend(x: string, suffix: string)
    requires suffix != [] && !IsSpace(suffix[0])
    ensures TrimStart(x + suffix) == TrimStart(x) + suffix
  {
    if x != [] {
      assert (x + suffix)[0] == x[0];
      if IsSpace(x[0]) {
        assert (x + suffix)[1..] == x[1..] + suffix;
        TrimStartAppend(x[1..], suffix);
      }
    }
  }

  lemma TrimAppend(x: string, suffix: string)
    requires suffix != [] && IsTrimmed(suffix)
    ensures Trim(x + suffix) == TrimStart(x) + suffix
  {
    TrimStartAppend(x, suffix);
    LastOfAppend(TrimStart(x), suffix);
  }

  /** Appending a text whose last character is no space leaves nothing for trimEnd to drop. */
  lemma LastOfAppend(x: string, suffix: string)
    requires suffix != [] && !IsSpace(suffix[|suffix| - 1])
    ensures TrimEnd(x + suffix) == x + suffix
  {
    var t := x + suffix;
    assert t[|t| - 1] == suffix[|suffix| - 1];
  }

  /** Only spaces. */
  predicate AllSpace(s: string) {
    forall i :: 0 <= i < |s| ==> IsSpace(s[i])
  }

  lemma {:induction false} TrimEndSpaces(x: string, post: string)
    requires x != [] && !IsSpace(x[|x| - 1]) && AllSpace(post)
    ensures TrimEnd(x + post) == x
    decreases |post|
  {
    if post == [] {
      assert x + post == x;
    } else {
      var y := x + post;
      assert IsSpace(y[|y| - 1]);
      assert y[..|y| - 1] == x + post[..|post| - 1];
      TrimEndSpaces(x, post[..|post| - 1]);
    }
  }

  /** Trimming drops exactly the spaces around a text that has no space at either end. */
  lemma TrimPadded(pre: string, t: string, post: string)
    requires AllSpace(pre) && AllSpace(post) && t != [] && IsTrimmed(t)
    ensures Trim(pre + t + post) == t
  {
    assert pre + t + post == pre + (t + post);
    TrimStartAppend(pre, t + post);
    assert TrimStart(pre) == [];
    assert TrimStart(pre + t + post) == t + post;
    TrimEndSpaces(t, post);
  }

  // ---------------------------------------------------------------- case mapping (ASCII)

  function LowerChar(c: char): char {
    if 'A' <= c <= 'Z' then (c as int + 32) as char else c
  }

  function UpperChar(c: char): char {
    if 'a' <= c <= 'z' then (c as int - 32) as char else c
  }

  /** `s.toLowerCase()` for ASCII letters. */
  function Lower(s: string): (r: string)
    ensures |r| == |s| && forall i :: 0 <= i < |s| ==> r[i] == LowerChar(s[i])
  {
    seq(|s|, i requires 0 <= i < |s| => LowerChar(s[i]))
  }

  /** `s.toUpperCase()` for ASCII letters. */
  function Upper(s: string): (r: string)
    ensures |r| == |s| && forall i :: 0 <= i < |s| ==> r[i] == UpperChar(s[i])
  {
    seq(|s|, i requires 0 <= i < |s| => UpperChar(s[i]))
  }

  predicate IsLower(s: string) {
    Lower(s) == s
  }

  lemma LowerIsLower(s: string)
    ensures IsLower(Lower(s))
  {
  }

  lemma LowerAppend(a: string, b: string)
    ensures Lower(a + b) == Lower(a) + Lower(b)
  {
  }

  /** Case mapping neither creates nor removes spaces, so a trimmed string stays trimmed. */
  lemma LowerKeepsTrimmed(s: string)
    requires IsTrimmed(s)
    ensures IsTrimmed(Lower(s))
  {
  }

  // ---------------------------------------------------------------- prefixes, suffixes, occurrences

  /** `s.startsWith(p)`. */
  predicate StartsWith(s: string, p: string) {
    |p| <= |s| && s[..|p|] == p
  }

  /** `s.endsWith(p)`. */
  predicate EndsWith(s: string, p: string) {
    |p| <= |s| && s[|s| - |p|..] == p
  }

  /** `k` occurs in `s` starting at index `p`. */
  predicate OccursAt(s: string, k: string, p: int) {
    0 <= p && p + |k| <= |s| && s[p..p + |k|] == k
  }

  /** `s.includes(k)`. */
  predicate Contains(s: string, k: string) {
    exists p :: 0 <= p <= |s| - |k| && OccursAt(s, k, p)
  }

  // ---------------------------------------------------------------- digits

  predicate IsDigit(c: char) {
    '0' <= c <= '9'
  }

  predicate IsDigits(s: string) {
    forall i :: 0 <= i < |s| ==> IsDigit(s[i])
  }

  /** `s.replace(/\D/g, "")`: the digits of `s`, in order. */
  function KeepDigits(s: string): (r: string)
    ensures IsDigits(r) && |r| <= |s|
    ensures IsDigits(s) ==> r == s
    ensures forall c :: c in r <==> c in s && IsDigit(c)
  {
    if s == [] then [] else (if IsDigit(s[0]) then [s[0]] else []) + KeepDigits(s[1..])
  }

  /** The digits of a concatenation are the digits of each part, in order. */
  lemma {:induction false} KeepDigitsAppend(a: string, b: string)
    ensures KeepDigits(a + b) == KeepDigits(a) + KeepDigits(b)
  {
    if a != [] {
      assert (a + b)[0] == a[0] && (a + b)[1..] == a[1..] + b;
      KeepDigitsAppend(a[1..], b);
    } else {
      assert a + b == b;
    }
  }

  /** A non-digit is dropped and a digit is kept. */
  lemma KeepDigitsChar(c: char)
    ensures KeepDigits([c]) == if IsDigit(c) then [c] else []
  {
    assert [c][1..] == [];
  }

  /** `${n}` for a natural number. */
  function Decimal(n: nat): (r: string)
    ensures r != [] && IsDigits(r)
    ensures n < 10 <==> |r| == 1
  {
    if n < 10 then [DigitChar(n)] else Decimal(n / 10) + [DigitChar(n % 10)]
  }

  function DigitChar(d: int): char
    requires 0 <= d < 10
  {
    ('0' as int + d) as char
  }

  function DigitValue(c: char): int
    requires IsDigit(c)
  {
    c as int - '0' as int
  }

  /** The number a string of decimal digits denotes. */
  function ValueOf(ds: string): nat
    requires IsDigits(ds)
  {
    if ds == [] then 0 else ValueOf(ds[..|ds| - 1]) * 10 + DigitValue(ds[|ds| - 1])
  }

  /** The longest prefix of `s` made of decimal digits. */
  function DigitPrefix(s: string): (r: string)
    ensures IsDigits(r) && |r| <= |s| && r == s[..|r|]
    ensures |r| < |s| ==> !IsDigit(s[|r|])
    ensures IsDigits(s) ==> r == s
  {
    if s != [] && IsDigit(s[0]) then [s[0]] + DigitPrefix(s[1..]) else []
  }

  /**
   * `parseInt(s, 10)`: leading spaces are skipped, one optional sign is read, then the longest run
   * of digits; `None` stands for `NaN` (no digit at that point).
   */
  function ParseInt(s: string): (r: Option<int>)
    ensures s == [] ==> r == None
    ensures IsDigits(s) && s != [] ==> r == Some(ValueOf(s))
    ensures r.Some? && r.value < 0 ==> TrimStart(s) != [] && TrimStart(s)[0] == '-'
  {
    if s != [] && IsDigit(s[0]) then
      assert !IsSpace(s[0]) && TrimStart(s) == s;
      ReadDigits(s)
    else
      ReadSigned(TrimStart(s))
  }

  /** The number at the start of `t`: one optional sign, then the longest run of digits. */
  function ReadSigned(t: string): Option<int> {
    if t != [] && t[0] == '-' then
      match ReadDigits(t[1..]) case None => None case Some(v) => Some(-v)
    else if t != [] && t[0] == '+' then ReadDigits(t[1..])
    else ReadDigits(t)
  }

  /** The value of the longest run of digits at the start of `u`, if there is one. */
  function ReadDigits(u: string): (r: Option<int>)
    ensures r.Some? ==> r.value >= 0
    ensures r.None? <==> u == [] || !IsDigit(u[0])
  {
    var ds := DigitPrefix(u);
    if ds == [] then None else Some(ValueOf(ds))
  }

  /** Leading spaces drop off the front. */
  lemma {:induction false} TrimStartSpaces(pre: string, x: string)
    requires AllSpace(pre)
    ensures TrimStart(pre + x) == TrimStart(x)
    decreases |pre|
  {
    if pre != [] {
      assert (pre + x)[0] == pre[0] && (pre + x)[1..] == pre[1..] + x;
      TrimStartSpaces(pre[1..], x);
    } else {
      assert pre + x == x;
    }
  }

  /** The digits of `ds` followed by a non-digit (or nothing) form the digit prefix. */
  lemma {:induction false} DigitPrefixOf(ds: string, rest: string)
    requires IsDigits(ds) && (rest == [] || !IsDigit(rest[0]))
    ensures DigitPrefix(ds + rest) == ds
    decreases |ds|
  {
    if ds != [] {
      assert (ds + rest)[0] == ds[0] && (ds + rest)[1..] == ds[1..] + rest;
      DigitPrefixOf(ds[1..], rest);
      assert [ds[0]] + ds[1..] == ds;
    } else {
      assert ds + rest == rest;
    }
  }

  /** `parseInt` reads from the first non-space on. */
  lemma ParseIntAfterSpaces(pre: string, x: string)
    requires AllSpace(pre) && (x == [] || !IsSpace(x[0]))
    ensures ParseInt(pre + x) == ReadSigned(x)
  {
    TrimStartSpaces(pre, x);
    assert TrimStart(x) == x;
    if pre == [] {
      assert pre + x == x;
    } else {
      assert (pre + x)[0] == pre[0] && IsSpace(pre[0]);
    }
  }

  /** `parseInt` reads the run of digits after any leading spaces, up to the first non-digit. */
  lemma ParseIntReads(pre: string, ds: string, rest: string)
    requires AllSpace(pre) && ds != [] && IsDigits(ds) && (rest == [] || !IsDigit(rest[0]))
    ensures ParseInt(pre + ds + rest) == Some(ValueOf(ds))
  {
    var x := ds + rest;
    assert pre + ds + rest == pre + x;
    assert x[0] == ds[0];
    ParseIntAfterSpaces(pre, x);
    ReadDigitsOf(ds, rest);
  }

  /** After the spaces, one sign may come before the digits; `-` negates the number. */
  lemma ParseIntReadsSigned(pre: string, sign: char, ds: string, rest: string)
    requires AllSpace(pre) && (sign == '+' || sign == '-')
    requires ds != [] && IsDigits(ds) && (rest == [] || !IsDigit(rest[0]))
    ensures var v: int := ValueOf(ds); ParseInt(pre + [sign] + ds + rest) == Some(if sign == '-' then -v else v)
  {
    var x := [sign] + (ds + rest);
    assert pre + [sign] + ds + rest == pre + x;
    ParseIntAfterSpaces(pre, x);
    ReadSignedAfterSign(sign, ds, rest);
  }

  lemma ReadSignedAfterSign(sign: char, ds: string, rest: string)
    requires (sign == '+' || sign == '-') && ds != [] && IsDigits(ds) && (rest == [] || !IsDigit(rest[0]))
    ensures var v: int := ValueOf(ds); ReadSigned([sign] + (ds + rest)) == Some(if sign == '-' then -v else v)
  {
    var x := [sign] + (ds + rest);
    assert x[0] == sign && x[1..] == ds + rest;
    ReadDigitsOf(ds, rest);
  }

  lemma ReadDigitsOf(ds: string, rest: string)
    requires ds != [] && IsDigits(ds) && (rest == [] || !IsDigit(rest[0]))
    ensures ReadDigits(ds + rest) == Some(ValueOf(ds))
  {
    DigitPrefixOf(ds, rest);
  }

  /** Without a digit after the spaces and the optional sign, `parseInt` gives `NaN`. */
  lemma ParseIntNaN(pre: string, rest: string)
    requires AllSpace(pre) && (rest == [] || (!IsDigit(rest[0]) && !IsSpace(rest[0])))
    requires rest != [] && (rest[0] == '+' || rest[0] == '-') ==> (|rest| == 1 || !IsDigit(rest[1]))
    ensures ParseInt(pre + rest) == None
  {
    ParseIntAfterSpaces(pre, rest);
  }

  lemma {:induction false} ValueOfDecimal(n: nat)
    ensures ValueOf(Decimal(n)) == n
  {
    if n >= 10 {
      var ds := Decimal(n);
      assert ds[..|ds| - 1] == Decimal(n / 10);
      ValueOfDecimal(n / 10);
    }
  }

  /** Reading back the decimal rendering of a number gives the number. */
  lemma ParseIntDecimal(n: nat)
    ensures ParseInt(Decimal(n)) == Some(n)
  {
    var ds := Decimal(n);
    assert !IsSpace(ds[0]) && ds[0] != '-' && ds[0] != '+';
    assert DigitPrefix(ds) == ds;
    ValueOfDecimal(n);
  }

  // ---------------------------------------------------------------- split / join

  /** `s.split(sep)` for a one-character separator: never empty; `"".split(sep)` is `[""]`. */
  function Split(s: string, sep: char): (r: seq<string>)
    ensures |r| >= 1
    ensures forall i :: 0 <= i < |r| ==> sep !in r[i]
  {
    if s == [] then [""]
    else
      var rest := Split(s[1..], sep);
      if s[0] == sep then [""] + rest else [[s[0]] + rest[0]] + rest[1..]
  }

  /** `parts.join(sep)` for a one-character separator. */
  function Join(parts: seq<string>, sep: char): string {
    if |parts| == 0 then ""
    else if |parts| == 1 then parts[0]
    else parts[0] + [sep] + Join(parts[1..], sep)
  }

  /** Splitting and joining again with the same separator gives back the string. */
  lemma {:induction false} JoinSplit(s: string, sep: char)
    ensures Join(Split(s, sep), sep) == s
  {
    if s != [] {
      var rest := Split(s[1..], sep);
      JoinSplit(s[1..], sep);
      if s[0] == sep {
        assert ([""] + rest)[1..] == rest;
      } else if |rest| > 1 {
        assert ([[s[0]] + rest[0]] + rest[1..])[1..] == rest[1..];
      }
    }
  }

  /** The first piece of a split is the text before the first separator (all of `s` without one). */
  lemma {:induction false} SplitHead(s: string, sep: char)
    ensures var h := Split(s, sep)[0]; |h| <= |s| && h == s[..|h|] && sep !in h && (|h| < |s| ==> s[|h|] == sep)
  {
    if s != [] {
      SplitHead(s[1..], sep);
    }
  }

  /** Text without the separator splits into itself alone. */
  lemma {:induction false} SplitWithoutSeparator(s: string, sep: char)
    requires sep !in s
    ensures Split(s, sep) == [s]
  {
    if s != [] {
      SplitWithoutSeparator(s[1..], sep);
      assert [s[0]] + s[1..] == s;
    }
  }

  /** A piece without the separator, then the separator: the piece comes off the front of the split. */
  lemma {:induction false} SplitAfterPiece(a: string, sep: char, b: string)
    requires sep !in a
    ensures Split(a + [sep] + b, sep) == [a] + Split(b, sep)
    decreases |a|
  {
    var s := a + [sep] + b;
    if a == [] {
      assert s[1..] == b;
    } else {
      assert s[0] == a[0] && s[1..] == a[1..] + [sep] + b;
      SplitAfterPiece(a[1..], sep, b);
      assert [a[0]] + a[1..] == a;
    }
  }

  /** Joining pieces that hold no separator and splitting again gives back the pieces. */
  lemma {:induction false} SplitJoin(parts: seq<string>, sep: char)
    requires |parts| >= 1 && forall i :: 0 <= i < |parts| ==> sep !in parts[i]
    ensures Split(Join(parts, sep), sep) == parts
    decreases |parts|
  {
    if |parts| == 1 {
      SplitWithoutSeparator(parts[0], sep);
    } else {
      SplitJoin(parts[1..], sep);
      SplitAfterPiece(parts[0], sep, Join(parts[1..], sep));
      assert [parts[0]] + parts[1..] == parts;
    }
  }

  // ---------------------------------------------------------------- whitespace runs

  /** `s.replace(/\s+/g, "_")`: every maximal run of spaces becomes one underscore. */
  function CollapseSpaces(s: string): (r: string)
    ensures forall i :: 0 <= i < |r| ==> !IsSpace(r[i])
    ensures |r| <= |s|
    ensures (forall i :: 0 <= i < |s| ==> !IsSpace(s[i])) ==> r == s
  {
    if s == [] then []
    else if IsSpace(s[0]) then "_" + CollapseSpaces(TrimStart(s))
    else [s[0]] + CollapseSpaces(s[1..])
  }
}
