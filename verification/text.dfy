/**
 * String operations the client applies to identifiers, names and labels, restricted to what the
 * model needs: ASCII case mapping (the model's stand-in for toLowerCase/toUpperCase), substring
 * search (`includes`, `split(sep)[1]`), whitespace trimming, and decimal rendering of integers
 * (template literals) together with the matching parser.
 */
module Text {
  import opened Common

  // ----- case mapping -----

  function LowerChar(c: char): char {
    if 'A' <= c <= 'Z' then (c as int + 32) as char else c
  }

  function UpperChar(c: char): char {
    if 'a' <= c <= 'z' then (c as int - 32) as char else c
  }

  function Lower(s: string): (r: string)
    ensures |r| == |s|
    ensures forall i :: 0 <= i < |s| ==> r[i] == LowerChar(s[i])
  {
    if |s| == 0 then "" else [LowerChar(s[0])] + Lower(s[1..])
  }

  function Upper(s: string): (r: string)
    ensures |r| == |s|
    ensures forall i :: 0 <= i < |s| ==> r[i] == UpperChar(s[i])
  {
    if |s| == 0 then "" else [UpperChar(s[0])] + Upper(s[1..])
  }

  /** Lower-casing twice is lower-casing once, so a lower-cased key compares equal to its own lower case. */
  lemma LowerIdempotent(s: string)
    ensures Lower(Lower(s)) == Lower(s)
  {
  }

  /** Upper-casing forgets any earlier lower-casing, so an upper-cased key ignores the spelling's case. */
  lemma UpperOfLower(s: string)
    ensures Upper(Lower(s)) == Upper(s)
  {
    assert forall i :: 0 <= i < |s| ==> UpperChar(LowerChar(s[i])) == UpperChar(s[i]);
  }

  // ----- substring search -----

  /** `m` occurs in `s` starting at index `i`. */
  predicate OccursAt(s: string, m: string, i: int) {
    0 <= i && i + |m| <= |s| && s[i..i + |m|] == m
  }

  function IndexOfFrom(s: string, m: string, from: nat): (r: Option<nat>)
    requires from <= |s|
    ensures r.Some? ==> from <= r.value && OccursAt(s, m, r.value)
    ensures r.Some? ==> forall j :: from <= j < r.value ==> !OccursAt(s, m, j)
    ensures r.None? ==> forall j :: from <= j ==> !OccursAt(s, m, j)
    decreases |s| - from
  {
    if from + |m| > |s| then None
    else if s[from..from + |m|] == m then Some(from)
    else if from == |s| then None
    else IndexOfFrom(s, m, from + 1)
  }

  /** `s.indexOf(m)`: the first position where `m` occurs, if any. */
  function IndexOf(s: string, m: string): (r: Option<nat>)
    ensures r.Some? ==> OccursAt(s, m, r.value)
    ensures r.Some? ==> forall j :: 0 <= j < r.value ==> !OccursAt(s, m, j)
    ensures r.None? ==> forall j :: !OccursAt(s, m, j)
  {
    IndexOfFrom(s, m, 0)
  }

  /** `s.includes(m)`. */
  predicate Includes(s: string, m: string) {
    IndexOf(s, m).Some?
  }

  lemma IncludesIff(s: string, m: string)
    ensures Includes(s, m) <==> exists i :: OccursAt(s, m, i)
  {
  }

  /** A string includes anything it starts with or ends with, and every string includes "". */
  lemma IncludesConcat(a: string, m: string, b: string)
    ensures Includes(a + m + b, m)
  {
    assert OccursAt(a + m + b, m, |a|) by {
      assert (a + m + b)[|a|..|a| + |m|] == m;
    }
  }

  /** Whatever occurs inside an included string is included too. */
  lemma IncludesWithin(s: string, m: string, n: string, k: nat)
    requires Includes(s, m) && OccursAt(m, n, k)
    ensures Includes(s, n)
  {
    var i := IndexOf(s, m).value;
    assert s[i + k..i + k + |n|] == m[k..k + |n|];
    assert OccursAt(s, n, i + k);
  }

  /**
   * `s.split(sep)[1]` for a non-empty separator: the text between the first occurrence of `sep`
   * and the next one (or the end of `s`); None (JavaScript `undefined`) when `sep` does not occur.
   */
  function SplitSecond(s: string, sep: string): (r: Option<string>)
    requires |sep| > 0
    ensures r.Some? <==> Includes(s, sep)
    ensures r.Some? ==> !Includes(r.value, sep)
  {
    match IndexOf(s, sep)
    case None => None
    case Some(i) =>
      var rest := s[i + |sep|..];
      match IndexOf(rest, sep)
      case None => Some(rest)
      case Some(j) =>
        assert !Includes(rest[..j], sep) by {
          forall k | OccursAt(rest[..j], sep, k)
            ensures false
          {
            assert rest[..j][k..k + |sep|] == rest[k..k + |sep|];
            assert OccursAt(rest, sep, k);
          }
        }
        Some(rest[..j])
  }

  /** The key format `sep + id` splits back into `id` whenever `id` does not itself contain `sep`. */
  lemma SplitSecondOfKey(sep: string, id: string)
    requires |sep| > 0
    requires !Includes(id, sep)
    ensures SplitSecond(sep + id, sep) == Some(id)
  {
    var s := sep + id;
    assert s[0..|sep|] == sep;
    assert OccursAt(s, sep, 0);
    assert IndexOf(s, sep) == Some(0);
    assert s[|sep|..] == id;
  }

  // ----- whitespace -----

  /**
   * The characters `String.prototype.trim` removes: ASCII white space, the line terminators, the
   * byte-order mark and the Unicode space separators.
   */
  predicate IsSpace(c: char) {
    c == ' ' || c == '\t' || c == '\n' || c == '\r' || c == '\U{B}' || c == '\U{C}'
    || c == '\U{A0}' || c == '\U{FEFF}' || c == '\U{1680}' || '\U{2000}' <= c <= '\U{200A}'
    || c == '\U{2028}' || c == '\U{2029}' || c == '\U{202F}' || c == '\U{205F}' || c == '\U{3000}'
  }

  predicate AllSpace(s: string) {
    forall i :: 0 <= i < |s| ==> IsSpace(s[i])
  }

  function TrimStart(s: string): (r: string)
    ensures |r| <= |s| && r == s[|s| - |r|..]
    ensures AllSpace(s[..|s| - |r|])
    ensures |r| > 0 ==> !IsSpace(r[0])
  {
    if |s| > 0 && IsSpace(s[0]) then TrimStart(s[1..]) else s
  }

  function TrimEnd(s: string): (r: string)
    ensures |r| <= |s| && r == s[..|r|]
    ensures AllSpace(s[|r|..])
    ensures |r| > 0 ==> !IsSpace(r[|r| - 1])
  {
    if |s| > 0 && IsSpace(s[|s| - 1]) then TrimEnd(s[..|s| - 1]) else s
  }

  /** `s.trim()`. */
  function Trim(s: string): string {
    TrimEnd(TrimStart(s))
  }

  lemma TrimStartAllSpace(s: string)
    ensures TrimStart(s) == "" <==> AllSpace(s)
  {
    if |s| > 0 && IsSpace(s[0]) {
      TrimStartAllSpace(s[1..]);
      assert AllSpace(s) <==> AllSpace(s[1..]);
    }
  }

  lemma TrimEndKeepsNonSpaceHead(t: string)
    requires |t| > 0 && !IsSpace(t[0])
    ensures |TrimEnd(t)| > 0
  {
    if |t| > 1 && IsSpace(t[|t| - 1]) {
      TrimEndKeepsNonSpaceHead(t[..|t| - 1]);
    }
  }

  /** Trimming leaves an empty string exactly when the input is all whitespace. */
  lemma TrimEmptyIff(s: string)
    ensures Trim(s) == "" <==> AllSpace(s)
  {
    TrimStartAllSpace(s);
    var t := TrimStart(s);
    if |t| > 0 {
      TrimEndKeepsNonSpaceHead(t);
    }
  }

  /** A string with no surrounding whitespace is its own trim. */
  lemma TrimNoSurroundingSpace(s: string)
    requires |s| > 0 ==> !IsSpace(s[0]) && !IsSpace(s[|s| - 1])
    ensures Trim(s) == s
  {
  }

  /** Trimming a trimmed string changes nothing. */
  lemma TrimIdempotent(s: string)
    ensures Trim(Trim(s)) == Trim(s)
  {
    var t := TrimStart(s);
    var r := TrimEnd(t);
    if |r| > 0 {
      assert r[0] == t[0];
    }
    TrimNoSurroundingSpace(r);
  }

  // ----- slicing as in String.prototype.slice -----

  /** `s.slice(0, n)` for n >= 0. */
  function Prefix(s: string, n: nat): (r: string)
    ensures |r| == if |s| < n then |s| else n
    ensures r == s[..|r|]
  {
    if |s| <= n then s else s[..n]
  }

  /** `s.slice(-n)` for n > 0. */
  function Suffix(s: string, n: nat): (r: string)
    ensures |r| == if |s| < n then |s| else n
    ensures r == s[|s| - |r|..]
  {
    if |s| <= n then s else s[|s| - n..]
  }

  // ----- decimal rendering -----

  predicate IsDigit(c: char) {
    '0' <= c <= '9'
  }

  predicate AllDigits(s: string) {
    forall i :: 0 <= i < |s| ==> IsDigit(s[i])
  }

  function DigitChar(d: int): (c: char)
    requires 0 <= d <= 9
    ensures IsDigit(c)
  {
    ('0' as int + d) as char
  }

  /** Decimal digits of a natural number, without leading zeros. */
  function NatToString(n: nat): (r: string)
    ensures |r| > 0 && AllDigits(r)
    ensures |r| > 1 ==> r[0] != '0'
    decreases n
  {
    if n < 10 then [DigitChar(n)] else NatToString(n / 10) + [DigitChar(n % 10)]
  }

  /** Value of a string of decimal digits. */
  function ParseDigits(s: string): nat
    requires AllDigits(s)
  {
    if |s| == 0 then 0 else ParseDigits(s[..|s| - 1]) * 10 + (s[|s| - 1] as int - '0' as int)
  }

  lemma {:induction false} ParseNatToString(n: nat)
    ensures ParseDigits(NatToString(n)) == n
    decreases n
  {
    if n >= 10 {
      var a := NatToString(n / 10);
      var r := a + [DigitChar(n % 10)];
      assert r[..|r| - 1] == a;
      ParseNatToString(n / 10);
    }
  }

  /** `${i}` for an integer. */
  function IntToString(i: int): (r: string)
    ensures |r| > 0
    ensures i < 0 <==> r[0] == '-'
  {
    if i < 0 then "-" + NatToString(-i) else NatToString(i)
  }

  /** Reads back an optional minus sign followed by one or more digits. */
  function ParseInt(s: string): Option<int> {
    if |s| > 0 && s[0] == '-' then
      if |s| > 1 && AllDigits(s[1..]) then Some(-(ParseDigits(s[1..]) as int)) else None
    else if |s| > 0 && AllDigits(s) then Some(ParseDigits(s) as int)
    else None
  }

  /** Rendering an integer and reading it back gives the integer: the rendering loses nothing. */
  lemma IntToStringRoundTrip(i: int)
    ensures ParseInt(IntToString(i)) == Some(i)
  {
    if i < 0 {
      var d := NatToString(-i);
      assert ("-" + d)[1..] == d;
      ParseNatToString(-i);
    } else {
      ParseNatToString(i);
    }
  }
}
