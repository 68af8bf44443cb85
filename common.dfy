/** Shared vocabulary: optional values, JavaScript string helpers (trim, ASCII case
    folding, substring search, join) and decimal integers as JavaScript formats and
    parses them. */
module Common {

  datatype Option<+T> = None | Some(value: T) {
    /** JavaScript `a ?? b`: the value when present, otherwise the fallback. */
    function GetOr(fallback: T): T {
      match this
      case Some(v) => v
      case None => fallback
    }
  }

  /** The exception classes the services throw: the HTTP ones of the web framework
      (404, 403, 400, 409) and a plain `Error` with its message. */
  datatype Error =
    | NotFound(message: string)
    | Forbidden(message: string)
    | BadRequest(message: string)
    | Conflict(message: string)
    | Failure(message: string)

  /** The outcome of an operation that may throw. */
  datatype Result<+T> = Ok(value: T) | Err(error: Error)

  // ---------------------------------------------------------------------------
  // Whitespace and trimming
  // ---------------------------------------------------------------------------

  /** The four ECMAScript line terminators. */
  predicate IsLineTerminator(c: char) {
    c == '\n' || c == '\r' || c == '\U{2028}' || c == '\U{2029}'
  }

  /** ECMAScript WhiteSpace or LineTerminator: what `String.prototype.trim` removes and
      what the regular-expression class `\s` matches. */
  predicate IsSpace(c: char) {
    || IsLineTerminator(c)
    || c == ' ' || c == '\t' || c == '\U{B}' || c == '\U{C}'
    || c == '\U{A0}' || c == '\U{FEFF}' || c == '\U{1680}'
    || ('\U{2000}' <= c <= '\U{200A}')
    || c == '\U{202F}' || c == '\U{205F}' || c == '\U{3000}'
  }

  predicate AllSpace(s: string) {
    forall i :: 0 <= i < |s| ==> IsSpace(s[i])
  }

  /** `s` has no whitespace at either end. */
  predicate IsTrimmed(s: string) {
    s == [] || (!IsSpace(s[0]) && !IsSpace(s[|s| - 1]))
  }

  /** Drops the leading whitespace: the result is the suffix of `s` that starts at its
      first non-space character. */
  function TrimStart(s: string): (r: string)
    ensures |r| <= |s| && r == s[|s| - |r|..]
    ensures AllSpace(s[..|s| - |r|])
    ensures r == [] || !IsSpace(r[0])
  {
    if s == [] || !IsSpace(s[0]) then s else TrimStart(s[1..])
  }

  /** Drops the trailing whitespace: the result is the prefix of `s` that ends at its
      last non-space character. */
  function TrimEnd(s: string): (r: string)
    ensures |r| <= |s| && r == s[..|r|]
    ensures AllSpace(s[|r|..])
    ensures r == [] || !IsSpace(r[|r| - 1])
  {
    if s == [] || !IsSpace(s[|s| - 1]) then s else TrimEnd(s[..|s| - 1])
  }

  /** JavaScript `String.prototype.trim`. */
  function Trim(s: string): (r: string)
    ensures IsTrimmed(r)
    ensures exists a, b ::
              (0 <= a <= b <= |s| && r == s[a..b] && AllSpace(s[..a]) && AllSpace(s[b..]))
  {
    var t := TrimStart(s);
    var r := TrimEnd(t);
    TrimBounds(s, t, r);
    r
  }

  /** Where the trimmed text sits in `s`: after the leading and before the trailing
      whitespace. */
  lemma TrimBounds(s: string, t: string, r: string)
    requires |t| <= |s| && t == s[|s| - |t|..] && AllSpace(s[..|s| - |t|])
    requires |r| <= |t| && r == t[..|r|] && AllSpace(t[|r|..])
    ensures var a, b := |s| - |t|, |s| - |t| + |r|;
            0 <= a <= b <= |s| && r == s[a..b] && AllSpace(s[..a]) && AllSpace(s[b..])
  {
    SuffixSlices(s, |s| - |t|, |r|);
  }

  lemma SuffixSlices<T>(s: seq<T>, a: nat, k: nat)
    requires a + k <= |s|
    ensures s[a..][..k] == s[a..a + k] && s[a..][k..] == s[a + k..]
  {
  }

  /** A string trims to nothing exactly when it is all whitespace. */
  lemma {:induction false} TrimEmptyIffAllSpace(s: string)
    ensures Trim(s) == [] <==> AllSpace(s)
  {
    var t := TrimStart(s);
    if !AllSpace(s) {
      var k :| 0 <= k < |s| && !IsSpace(s[k]);
      assert t[k - (|s| - |t|)] == s[k];
    }
  }

  /** Trimming is idempotent. */
  lemma TrimIdempotent(s: string)
    ensures Trim(Trim(s)) == Trim(s)
  {
    var r := Trim(s);
    assert TrimStart(r) == r;
    assert TrimEnd(r) == r;
  }

  // ---------------------------------------------------------------------------
  // Case folding, search and joining
  // ---------------------------------------------------------------------------

  /** `toLowerCase` on one character, for the ASCII letters. */
  function LowerChar(c: char): (r: char)
    ensures 'A' <= c <= 'Z' ==> 'a' <= r <= 'z'
    ensures !('A' <= c <= 'Z') ==> r == c
  {
    if 'A' <= c <= 'Z' then (c as int + 32) as char else c
  }

  function Lower(s: string): (r: string)
    ensures |r| == |s|
    ensures forall i :: 0 <= i < |s| ==> r[i] == LowerChar(s[i])
  {
    seq(|s|, i requires 0 <= i < |s| => LowerChar(s[i]))
  }

  predicate StartsWith(s: string, prefix: string) {
    |prefix| <= |s| && s[..|prefix|] == prefix
  }

  predicate EndsWith(s: string, suffix: string) {
    |suffix| <= |s| && s[|s| - |suffix|..] == suffix
  }

  /** `needle` occurs in `s` at some position. */
  predicate Contains(s: string, needle: string) {
    exists i :: 0 <= i <= |s| - |needle| && OccursAt(s, needle, i)
  }

  predicate OccursAt(s: string, needle: string, i: int) {
    0 <= i <= |s| - |needle| && s[i..i + |needle|] == needle
  }

  /** `Array.prototype.join`: the parts with `sep` between neighbours. */
  function Join(parts: seq<string>, sep: string): (r: string)
    ensures parts == [] ==> r == []
    ensures |parts| == 1 ==> r == parts[0]
    ensures |parts| > 0 ==> StartsWith(r, parts[0])
  {
    if parts == [] then []
    else if |parts| == 1 then parts[0]
    else parts[0] + sep + Join(parts[1..], sep)
  }

  // ---------------------------------------------------------------------------
  // Decimal integers
  // ---------------------------------------------------------------------------

  predicate IsDigit(c: char) {
    '0' <= c <= '9'
  }

  function DigitChar(d: nat): (c: char)
    requires d < 10
    ensures IsDigit(c) && c as int - '0' as int == d
  {
    ('0' as int + d) as char
  }

  /** The decimal text of `n`, as JavaScript prints a non-negative integer. */
  function Decimal(n: nat): (r: string)
    ensures |r| > 0
    ensures forall i :: 0 <= i < |r| ==> IsDigit(r[i])
    ensures |r| > 1 ==> r[0] != '0'
    decreases n
  {
    if n < 10 then [DigitChar(n)] else Decimal(n / 10) + [DigitChar(n % 10)]
  }

  /** The value of a run of decimal digits. */
  function DigitsValue(ds: string): nat
    requires forall i :: 0 <= i < |ds| ==> IsDigit(ds[i])
  {
    if ds == [] then 0
    else
      assert IsDigit(ds[|ds| - 1]);
      DigitsValue(ds[..|ds| - 1]) * 10 + (ds[|ds| - 1] as int - '0' as int)
  }

  /** The longest prefix of `s` made of decimal digits. */
  function DigitPrefix(s: string): (r: string)
    ensures |r| <= |s| && r == s[..|r|]
    ensures forall i :: 0 <= i < |r| ==> IsDigit(s[i])
    ensures |r| == |s| || !IsDigit(s[|r|])
  {
    if s == [] || !IsDigit(s[0]) then [] else [s[0]] + DigitPrefix(s[1..])
  }

  /** JavaScript `parseInt(s, 10)`; `None` stands for NaN. Leading whitespace and one sign
      are skipped, then the longest digit prefix is read; trailing text is ignored. */
  function ParseInt(s: string): (r: Option<int>)
    ensures r.None? <==> DigitPrefix(SkipSign(TrimStart(s))) == []
  {
    var t := TrimStart(s);
    var body := SkipSign(t);
    var ds := DigitPrefix(body);
    if ds == [] then None
    else
      var v: int := DigitsValue(ds);
      if t != [] && t[0] == '-' then Some(-v) else Some(v)
  }

  function SkipSign(t: string): string {
    if t != [] && (t[0] == '-' || t[0] == '+') then t[1..] else t
  }

  lemma {:induction false} DigitsValueOfDecimal(n: nat)
    ensures DigitsValue(Decimal(n)) == n
    decreases n
  {
    if n >= 10 {
      var d := Decimal(n);
      assert d[..|d| - 1] == Decimal(n / 10);
      DigitsValueOfDecimal(n / 10);
    }
  }

  lemma {:induction false} DigitPrefixOfDigits(s: string)
    requires forall i :: 0 <= i < |s| ==> IsDigit(s[i])
    ensures DigitPrefix(s) == s
  {
    if s != [] {
      DigitPrefixOfDigits(s[1..]);
    }
  }

  /** A run of digits parses to its value. */
  lemma ParseIntOfDigits(d: string)
    requires d != [] && forall i :: 0 <= i < |d| ==> IsDigit(d[i])
    ensures ParseInt(d) == Some(DigitsValue(d))
  {
    NoSpaceBeforeDigit(d);
    DigitPrefixOfDigits(d);
  }

  /** Neither trimming nor sign skipping touches a string that starts with a digit. */
  lemma NoSpaceBeforeDigit(d: string)
    requires d != [] && IsDigit(d[0])
    ensures SkipSign(TrimStart(d)) == d
  {
    assert !IsSpace(d[0]);
  }

  /** Printing a natural number in decimal and parsing it back gives the number. */
  lemma DecimalRoundTrip(n: nat)
    ensures ParseInt(Decimal(n)) == Some(n)
  {
    ParseIntOfDigits(Decimal(n));
    DigitsValueOfDecimal(n);
  }

  /** `f` applied to every element, in order. */
  function MapSeq<A, B>(f: A -> B, xs: seq<A>): (r: seq<B>)
    ensures |r| == |xs|
  {
    if xs == [] then [] else MapSeq(f, xs[..|xs| - 1]) + [f(xs[|xs| - 1])]
  }

  lemma {:induction false} MapSeqAt<A, B>(f: A -> B, xs: seq<A>, i: nat)
    requires i < |xs|
    ensures MapSeq(f, xs)[i] == f(xs[i])
  {
    if i < |xs| - 1 {
      MapSeqAt(f, xs[..|xs| - 1], i);
    }
  }

  lemma {:induction false} MapSeqAppend<A, B>(f: A -> B, a: seq<A>, b: seq<A>)
    ensures MapSeq(f, a + b) == MapSeq(f, a) + MapSeq(f, b)
    decreases |b|
  {
    if b == [] {
      assert a + b == a;
    } else {
      var n := |b| - 1;
      assert (a + b)[..|a + b| - 1] == a + b[..n];
      assert (a + b)[|a + b| - 1] == b[n];
      MapSeqAppend(f, a, b[..n]);
    }
  }
}
