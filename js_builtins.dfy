/**
 * The JavaScript built-ins the parking code leans on, stated over `string`
 * (a sequence of characters) and unbounded integers: `trim`, `toLowerCase`,
 * `toUpperCase`, `includes`, template-literal number formatting, `parseInt`,
 * `parseFloat`, `replace(/[^\d]/g, "")`, `Math.round` of a percentage and the
 * `Math.max(0, Math.min(hi, v))` clamp.
 */
module JsBuiltins {
  import opened Wrappers

  /**
   * The white space that `trim`, `parseInt` and `parseFloat` skip: ECMAScript's
   * WhiteSpace (tab, vertical tab, form feed, the byte order mark and every
   * space separator of Unicode) and LineTerminator (line feed, carriage
   * return, line and paragraph separators).
   */
  predicate IsSpace(c: char) {
    || c == '\t' || c == '\U{0B}' || c == '\U{0C}' || c == '\U{FEFF}'
    || c == ' ' || c == '\U{A0}' || c == '\U{1680}' || '\U{2000}' <= c <= '\U{200A}'
    || c == '\U{202F}' || c == '\U{205F}' || c == '\U{3000}'
    || c == '\n' || c == '\r' || c == '\U{2028}' || c == '\U{2029}'
  }

  /** What `\d` matches in a JavaScript regular expression. */
  predicate IsDigit(c: char) {
    '0' <= c <= '9'
  }

  predicate AllDigits(s: string) {
    forall i :: 0 <= i < |s| ==> IsDigit(s[i])
  }

  predicate AllSpace(s: string) {
    forall i :: 0 <= i < |s| ==> IsSpace(s[i])
  }

  // ---------------------------------------------------------------- trimming

  /** `s.trimStart()`: drops the longest white-space prefix. */
  function TrimStart(s: string): (r: string)
    ensures |r| <= |s|
    ensures r == [] || !IsSpace(r[0])
  {
    if s != [] && IsSpace(s[0]) then TrimStart(s[1..]) else s
  }

  /** What `trimStart` drops is white space, and what it keeps is the rest of `s`. */
  lemma {:induction false} TrimStartSuffix(s: string)
    ensures TrimStart(s) == s[|s| - |TrimStart(s)|..]
    ensures AllSpace(s[..|s| - |TrimStart(s)|])
  {
    if s != [] && IsSpace(s[0]) {
      TrimStartSuffix(s[1..]);
      var k := |s| - |TrimStart(s)|;
      assert s[1..][k - 1..] == s[k..];
      assert forall i :: 1 <= i < k ==> s[..k][i] == s[1..][..k - 1][i - 1];
    }
  }

  /** `s.trimEnd()`: drops the longest white-space suffix. */
  function TrimEnd(s: string): (r: string)
    ensures |r| <= |s|
    ensures r == [] || !IsSpace(r[|r| - 1])
  {
    if s != [] && IsSpace(s[|s| - 1]) then TrimEnd(s[..|s| - 1]) else s
  }

  /** What `trimEnd` drops is white space, and what it keeps is the start of `s`. */
  lemma {:induction false} TrimEndPrefix(s: string)
    ensures TrimEnd(s) == s[..|TrimEnd(s)|]
    ensures AllSpace(s[|TrimEnd(s)|..])
  {
    if s != [] && IsSpace(s[|s| - 1]) {
      var t := s[..|s| - 1];
      TrimEndPrefix(t);
      var k := |TrimEnd(s)|;
      assert t[..k] == s[..k];
      assert forall i :: k <= i < |s| - 1 ==> s[i] == t[i];
    }
  }

  /** Neither starts nor ends with white space. */
  predicate Trimmed(s: string) {
    s == [] || (!IsSpace(s[0]) && !IsSpace(s[|s| - 1]))
  }

  /** `s.trim()`: a contiguous piece of `s` that neither starts nor ends with white space. */
  function Trim(s: string): (r: string)
    ensures |r| <= |s|
    ensures Trimmed(r)
  {
    TrimEndPrefix(TrimStart(s));
    TrimEnd(TrimStart(s))
  }

  /** `!s.trim()` holds exactly for the strings made of white space only (the empty one included). */
  lemma TrimBlank(s: string)
    ensures Trim(s) == [] <==> AllSpace(s)
  {
    var t := TrimStart(s);
    TrimStartSuffix(s);
    TrimEndPrefix(t);
    if Trim(s) == [] {
      assert AllSpace(t[0..]);
      assert t == [];
      assert s == s[..|s| - |t|];
    }
  }

  /** `trim()` leaves a string alone exactly when it is already trimmed. */
  lemma TrimFixed(s: string)
    ensures Trim(s) == s <==> Trimmed(s)
  {
    if Trimmed(s) && s != [] {
      assert TrimStart(s) == s;
      assert TrimEnd(s) == s;
    }
  }

  /** Trimming twice is trimming once. */
  lemma TrimIdempotent(s: string)
    ensures Trim(Trim(s)) == Trim(s)
  {
    TrimFixed(Trim(s));
  }

  // ---------------------------------------------------------- case mapping

  function LowerChar(c: char): char {
    if 'A' <= c <= 'Z' then (c as int + 32) as char else c
  }

  function UpperChar(c: char): char {
    if 'a' <= c <= 'z' then (c as int - 32) as char else c
  }

  /** `s.toLowerCase()` for the ASCII letters: each character mapped, length kept. */
  function Lower(s: string): (r: string)
    ensures |r| == |s|
    ensures forall i :: 0 <= i < |s| ==> r[i] == LowerChar(s[i])
  {
    if s == [] then [] else [LowerChar(s[0])] + Lower(s[1..])
  }

  /** `s.toUpperCase()` for the ASCII letters: each character mapped, length kept. */
  function Upper(s: string): (r: string)
    ensures |r| == |s|
    ensures forall i :: 0 <= i < |s| ==> r[i] == UpperChar(s[i])
  {
    if s == [] then [] else [UpperChar(s[0])] + Upper(s[1..])
  }

  predicate HasNoLowerCase(s: string) {
    forall i :: 0 <= i < |s| ==> !('a' <= s[i] <= 'z')
  }

  /** An upper-cased string holds no lower-case letter, and upper-casing it again changes nothing. */
  lemma UpperIsUpper(s: string)
    ensures HasNoLowerCase(Upper(s))
    ensures Upper(Upper(s)) == Upper(s)
  {
  }

  /** Lower-casing is idempotent. */
  lemma LowerIdempotent(s: string)
    ensures Lower(Lower(s)) == Lower(s)
  {
  }

  // ------------------------------------------------------------- includes

  predicate StartsWith(s: string, p: string) {
    |p| <= |s| && s[..|p|] == p
  }

  /** `s.includes(sub)`, searched from the left. */
  predicate Includes(s: string, sub: string) {
    StartsWith(s, sub) || (s != [] && Includes(s[1..], sub))
  }

  /** `sub` occurs in `s` starting at offset `k`. */
  predicate OccursAt(s: string, sub: string, k: int) {
    0 <= k <= |s| - |sub| && s[k..k + |sub|] == sub
  }

  /** `s.includes(sub)` holds exactly when `sub` occurs in `s` at some offset. */
  lemma {:induction false} IncludesAt(s: string, sub: string)
    ensures Includes(s, sub) <==> exists k :: OccursAt(s, sub, k)
  {
    assert StartsWith(s, sub) <==> OccursAt(s, sub, 0);
    if s != [] {
      IncludesAt(s[1..], sub);
      if Includes(s[1..], sub) {
        var k :| OccursAt(s[1..], sub, k);
        assert s[k + 1..k + 1 + |sub|] == s[1..][k..k + |sub|];
        assert OccursAt(s, sub, k + 1);
      }
      forall k | 1 <= k && OccursAt(s, sub, k) ensures Includes(s[1..], sub) {
        assert s[1..][k - 1..k - 1 + |sub|] == s[k..k + |sub|];
        assert OccursAt(s[1..], sub, k - 1);
      }
    }
  }

  // ------------------------------------------------------ decimal numbers

  function DigitChar(d: nat): (c: char)
    requires d < 10
    ensures IsDigit(c) && c as int - '0' as int == d
  {
    ('0' as int + d) as char
  }

  /** The value of a string of decimal digits, most significant first. */
  function DigitsValue(ds: string): nat
    requires AllDigits(ds)
  {
    if ds == [] then 0 else DigitsValue(ds[..|ds| - 1]) * 10 + (ds[|ds| - 1] as int - '0' as int)
  }

  /** `${n}` for a non-negative integer: its decimal digits, without leading zeros. */
  function Decimal(n: nat): (r: string)
    ensures r != [] && AllDigits(r)
    ensures r[0] == '0' ==> n == 0
    decreases n
  {
    if n < 10 then [DigitChar(n)] else Decimal(n / 10) + [DigitChar(n % 10)]
  }

  /** `${n}` for any integer. */
  function IntText(n: int): string {
    if n < 0 then "-" + Decimal(-n) else Decimal(n)
  }

  /** Reading back the digits of `${n}` gives `n`. */
  lemma {:induction false} DecimalValue(n: nat)
    ensures DigitsValue(Decimal(n)) == n
    decreases n
  {
    if n >= 10 {
      DecimalValue(n / 10);
      var d := Decimal(n);
      assert d[..|d| - 1] == Decimal(n / 10);
    }
  }

  /** The longest prefix of `s` made of digits. */
  function LeadingDigits(s: string): (r: string)
    ensures |r| <= |s| && r == s[..|r|]
    ensures AllDigits(r)
    ensures |r| == |s| || !IsDigit(s[|r|])
  {
    if s != [] && IsDigit(s[0]) then [s[0]] + LeadingDigits(s[1..]) else []
  }

  /** A digit string followed by a non-digit (or nothing) is exactly the leading digits. */
  lemma {:induction false} LeadingDigitsOf(ds: string, rest: string)
    requires AllDigits(ds)
    requires rest == [] || !IsDigit(rest[0])
    ensures LeadingDigits(ds + rest) == ds
  {
    if ds != [] {
      assert (ds + rest)[1..] == ds[1..] + rest;
      LeadingDigitsOf(ds[1..], rest);
    }
  }

  /** Strips an optional leading sign: whether it was `-`, and what follows it. */
  function SignAndBody(t: string): (bool, string) {
    if t != [] && (t[0] == '-' || t[0] == '+') then (t[0] == '-', t[1..]) else (false, t)
  }

  /** The integer a sign and a run of digits stand for; `None` (`NaN`) when there is no digit. */
  function ReadInteger(neg: bool, ds: string): (r: Option<int>)
    requires AllDigits(ds)
    ensures r.None? <==> ds == []
  {
    if ds == [] then None
    else
      var v: int := DigitsValue(ds);
      Some(if neg then -v else v)
  }

  /**
   * `parseInt(s)` with the default radix, as the parking code calls it:
   * leading white space and one sign are skipped, then the longest run of
   * digits is read; `None` is `NaN` (no digit there).
   */
  function ParseInt(s: string): Option<int> {
    var sb := SignAndBody(TrimStart(s));
    ReadInteger(sb.0, LeadingDigits(sb.1))
  }

  /** `parseInt` reads back `${n}`, whatever non-digit text follows it. */
  lemma ParseIntDecimal(n: nat, rest: string)
    requires rest == [] || !IsDigit(rest[0])
    ensures ParseInt(Decimal(n) + rest) == Some(n)
  {
    var d := Decimal(n);
    var x := d + rest;
    assert x[0] == d[0];
    assert TrimStart(x) == x;
    assert SignAndBody(x) == (false, x);
    LeadingDigitsOf(d, rest);
    DecimalValue(n);
    assert ParseInt(x) == ReadInteger(false, d);
  }

  /** `parseInt` reads back `${-n}` too. */
  lemma ParseIntNegative(n: nat, rest: string)
    requires n > 0
    requires rest == [] || !IsDigit(rest[0])
    ensures ParseInt(IntText(-(n as int)) + rest) == Some(-(n as int))
  {
    var d := Decimal(n);
    var x := d + rest;
    var m := "-" + x;
    assert IntText(-(n as int)) + rest == m;
    assert m[1..] == x;
    assert TrimStart(m) == m;
    assert SignAndBody(m) == (true, x);
    assert x[0] == d[0];
    LeadingDigitsOf(d, rest);
    DecimalValue(n);
    assert ParseInt(m) == ReadInteger(true, d);
  }

  /** On a string of digits alone, `parseInt` is its value, or `NaN` for the empty string. */
  lemma ParseIntDigits(ds: string)
    requires AllDigits(ds)
    ensures ParseInt(ds) == if ds == [] then None else Some(DigitsValue(ds) as int)
  {
    if ds != [] {
      assert TrimStart(ds) == ds;
      assert SignAndBody(ds) == (false, ds);
      assert ds + [] == ds;
      LeadingDigitsOf(ds, []);
    }
  }

  function Pow10(k: nat): (p: nat)
    ensures p >= 1
  {
    if k == 0 then 1 else 10 * Pow10(k - 1)
  }

  /** The number a sign, an integer part and a fraction part stand for; `None` (`NaN`) when both parts are empty. */
  function ReadDecimal(neg: bool, ip: string, fp: string): (r: Option<real>)
    requires AllDigits(ip) && AllDigits(fp)
    ensures r.None? <==> ip == [] && fp == []
  {
    if ip == [] && fp == [] then None
    else
      var m := DigitsValue(ip) as real + DigitsValue(fp) as real / Pow10(|fp|) as real;
      Some(if neg then -m else m)
  }

  /** The digits after a leading `.`, if `rest` starts with one. */
  function FractionDigits(rest: string): (fp: string)
    ensures AllDigits(fp)
  {
    if rest != [] && rest[0] == '.' then LeadingDigits(rest[1..]) else []
  }

  /**
   * `parseFloat(s)` for plain decimal notation: white space and one sign
   * skipped, digits, then optionally `.` and more digits; at least one digit
   * is needed. `None` is `NaN`.
   */
  function ParseFloat(s: string): Option<real> {
    var sb := SignAndBody(TrimStart(s));
    var ip := LeadingDigits(sb.1);
    ReadDecimal(sb.0, ip, FractionDigits(sb.1[|ip|..]))
  }

  /** On the text of a whole number, `parseFloat` and `parseInt` agree. */
  lemma ParseFloatDecimal(n: nat)
    ensures ParseFloat(Decimal(n)) == Some(n as real)
  {
    var d := Decimal(n);
    assert TrimStart(d) == d;
    assert SignAndBody(d) == (false, d);
    assert d + [] == d;
    LeadingDigitsOf(d, []);
    assert d[|d|..] == [];
    assert FractionDigits([]) == [];
    DecimalValue(n);
    assert ParseFloat(d) == ReadDecimal(false, d, []);
  }

  // ----------------------------------------------------------------- arrays

  /** `s.filter(keep)`: the elements `keep` accepts, each as often as in `s`. */
  function Filter<T(!new)>(s: seq<T>, keep: T -> bool): (r: seq<T>)
    ensures forall x :: multiset(r)[x] == if keep(x) then multiset(s)[x] else 0
  {
    if s == [] then []
    else
      assert s == [s[0]] + s[1..];
      (if keep(s[0]) then [s[0]] else []) + Filter(s[1..], keep)
  }

  /** `a` is `b` with some elements dropped, the rest in their order. */
  predicate IsSubsequence<T(==)>(a: seq<T>, b: seq<T>)
    decreases |b|
  {
    if a == [] then true
    else if b == [] then false
    else (a[0] == b[0] && IsSubsequence(a[1..], b[1..])) || IsSubsequence(a, b[1..])
  }

  /** `filter` keeps the order of what it keeps. */
  lemma {:induction false} FilterIsSubsequence<T(!new)>(s: seq<T>, keep: T -> bool)
    ensures IsSubsequence(Filter(s, keep), s)
  {
    if s != [] {
      FilterIsSubsequence(s[1..], keep);
      var r := Filter(s, keep);
      if keep(s[0]) {
        assert r[0] == s[0] && r[1..] == Filter(s[1..], keep);
      } else {
        assert r == Filter(s[1..], keep);
      }
    }
  }

  /** `filter` keeps every element when `keep` accepts all of them. */
  lemma {:induction false} FilterAll<T(!new)>(s: seq<T>, keep: T -> bool)
    requires forall i :: 0 <= i < |s| ==> keep(s[i])
    ensures Filter(s, keep) == s
  {
    if s != [] {
      FilterAll(s[1..], keep);
      assert s == [s[0]] + s[1..];
    }
  }

  // ----------------------------------------------------------- digits only

  /** `s.replace(/[^\d]/g, "")`: the digits of `s`, in order. */
  function DigitsOnly(s: string): (r: string)
    ensures AllDigits(r) && |r| <= |s|
  {
    if s == [] then [] else (if IsDigit(s[0]) then [s[0]] else []) + DigitsOnly(s[1..])
  }

  /** Removing the non-digits distributes over concatenation. */
  lemma {:induction false} DigitsOnlyAppend(a: string, b: string)
    ensures DigitsOnly(a + b) == DigitsOnly(a) + DigitsOnly(b)
  {
    if a == [] {
      assert a + b == b;
    } else {
      assert (a + b)[0] == a[0];
      assert (a + b)[1..] == a[1..] + b;
      DigitsOnlyAppend(a[1..], b);
    }
  }

  /** A string without digits contributes nothing; one made of digits is kept whole. */
  lemma {:induction false} DigitsOnlyKeeps(s: string)
    ensures AllDigits(s) ==> DigitsOnly(s) == s
    ensures (forall i :: 0 <= i < |s| ==> !IsDigit(s[i])) ==> DigitsOnly(s) == []
  {
    if s != [] {
      DigitsOnlyKeeps(s[1..]);
    }
  }

  // --------------------------------------------------------------- numbers

  /**
   * `Math.round((part / whole) * 100)` in exact arithmetic: the integer
   * nearest to the percentage, halves rounded up. `None` is what JavaScript
   * prints as `NaN` or `Infinity` (a zero `whole`).
   */
  function RoundPercent(part: int, whole: nat): (r: Option<int>)
    ensures r.None? <==> whole == 0
    ensures r.Some? ==> (2 * r.value - 1) * whole <= 200 * part < (2 * r.value + 1) * whole
  {
    if whole == 0 then None else Some((200 * part + whole) / (2 * whole))
  }

  /** A part between nothing and the whole gives a percentage between 0 and 100. */
  lemma RoundPercentRange(part: int, whole: nat)
    requires 0 <= part <= whole
    ensures RoundPercent(part, whole).Some? ==> 0 <= RoundPercent(part, whole).value <= 100
  {
    if whole > 0 {
      var r := RoundPercent(part, whole).value;
      if r < 0 {
        MulLe(2 * r + 1, 0, whole);
        assert false;
      }
      if r > 100 {
        MulLe(201, 2 * r - 1, whole);
        assert false;
      }
    }
  }

  /** Nothing of a whole is 0 per cent, and all of it is 100 per cent. */
  lemma RoundPercentEnds(whole: nat)
    requires whole > 0
    ensures RoundPercent(0, whole) == Some(0)
    ensures RoundPercent(whole, whole) == Some(100)
  {
    var z := RoundPercent(0, whole).value;
    if z >= 1 {
      MulLe(1, 2 * z - 1, whole);
      assert false;
    }
    if z <= -1 {
      MulLe(2 * z + 1, -1, whole);
      assert false;
    }
    var f := RoundPercent(whole, whole).value;
    if f >= 101 {
      MulLe(201, 2 * f - 1, whole);
      assert false;
    }
    if f <= 99 {
      MulLe(2 * f + 1, 199, whole);
      assert false;
    }
  }

  /** Multiplying by a non-negative factor keeps the order. */
  lemma MulLe(a: int, b: int, c: nat)
    requires a <= b
    ensures a * c <= b * c
  {
  }

  /** `Math.max(0, Math.min(hi, v))`. */
  function Clamp(v: int, hi: int): (r: int)
    ensures r >= 0
    ensures hi >= 0 ==> r <= hi
    ensures 0 <= v <= hi ==> r == v
    ensures v < 0 ==> r == 0
    ensures v > hi ==> r == if hi < 0 then 0 else hi
  {
    var m := if hi < v then hi else v;
    if m < 0 then 0 else m
  }
}
