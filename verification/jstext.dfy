/**
 * The JavaScript string operations the application relies on: `trim`, `toLowerCase`,
 * truthiness and `||` fallbacks on optional strings, `split`, `parseInt` and the
 * decimal rendering of a number in a template string.
 */
module JsText {
  import opened Common

  /** The characters ECMAScript counts as WhiteSpace or LineTerminator, which `trim` and `parseInt` skip. */
  predicate IsSpace(c: char) {
    c == '\t' || c == '\n' || c == '\U{B}' || c == '\U{C}' || c == '\r' || c == ' '
    || c == '\U{A0}' || c == '\U{1680}' || ('\U{2000}' <= c <= '\U{200A}')
    || c == '\U{2028}' || c == '\U{2029}' || c == '\U{202F}' || c == '\U{205F}'
    || c == '\U{3000}' || c == '\U{FEFF}'
  }

  /** `s.trimStart()`: drops the leading white space and nothing else. */
  function TrimStart(s: string): (r: string)
    ensures |r| <= |s| && r == s[|s| - |r|..]
    ensures forall i :: 0 <= i < |s| - |r| ==> IsSpace(s[i])
    ensures r == [] || !IsSpace(r[0])
  {
    if s != [] && IsSpace(s[0]) then
      var r := TrimStart(s[1..]);
      assert s[1..][|s| - 1 - |r|..] == s[|s| - |r|..];
      assert forall i :: 1 <= i < |s| - |r| ==> s[i] == s[1..][i - 1];
      r
    else s
  }

  /** Drops the trailing white space and nothing else. */
  function TrimEnd(s: string): (r: string)
    ensures |r| <= |s| && r == s[..|r|]
    ensures forall i :: |r| <= i < |s| ==> IsSpace(s[i])
    ensures r == [] || !IsSpace(r[|r| - 1])
  {
    if s != [] && IsSpace(s[|s| - 1]) then TrimEnd(s[..|s| - 1]) else s
  }

  /** `s.trim()`: `s` without its white-space ends, starting and ending with a non-space character. */
  function Trim(s: string): (r: string)
    ensures exists a, b :: s == a + r + b && Blank(a) && Blank(b)
    ensures r == [] || (!IsSpace(r[0]) && !IsSpace(r[|r| - 1]))
  {
    TrimParts(s);
    TrimEnds(s);
    TrimEnd(TrimStart(s))
  }

  /** Trimming trimmed text changes nothing. */
  lemma TrimIdempotent(s: string)
    ensures Trim(Trim(s)) == Trim(s)
  {
    var t := Trim(s);
    if t != [] {
      assert TrimStart(t) == t;
      assert TrimEnd(t) == t;
    }
  }

  /** What `trim` drops from each end is white space. */
  lemma TrimParts(s: string)
    ensures exists a, b :: s == a + TrimEnd(TrimStart(s)) + b && Blank(a) && Blank(b)
  {
    var t := TrimStart(s);
    var a := LeadingSpace(s);
    var b := TrailingSpace(t);
    ConcatAssoc(a, TrimEnd(t), b);
  }

  lemma ConcatAssoc(a: string, r: string, b: string)
    ensures a + r + b == a + (r + b)
  {
  }

  /** What `trim` keeps starts and ends with a non-space character. */
  lemma TrimEnds(s: string)
    ensures var r := TrimEnd(TrimStart(s)); r == [] || (!IsSpace(r[0]) && !IsSpace(r[|r| - 1]))
  {
    var t := TrimStart(s);
    var r := TrimEnd(t);
    assert r == [] || r[0] == t[0];
  }

  /** `trimStart` drops a white-space prefix. */
  lemma LeadingSpace(s: string) returns (a: string)
    ensures s == a + TrimStart(s) && Blank(a)
  {
    var t := TrimStart(s);
    a := s[..|s| - |t|];
    forall i | 0 <= i < |a| ensures IsSpace(a[i]) {
      assert a[i] == s[i];
    }
    assert s == a + s[|s| - |t|..];
  }

  /** Trimming the end drops a white-space suffix. */
  lemma TrailingSpace(t: string) returns (b: string)
    ensures t == TrimEnd(t) + b && Blank(b)
  {
    var n := |TrimEnd(t)|;
    b := t[n..];
    forall i | 0 <= i < |b| ensures IsSpace(b[i]) {
      assert b[i] == t[n + i];
    }
    assert t == t[..n] + b;
  }

  /** White space only (or empty): the strings `!s || !s.trim()` rejects, as `BlankIffTrimEmpty` shows. */
  predicate Blank(s: string) {
    forall i :: 0 <= i < |s| ==> IsSpace(s[i])
  }

  /** `!s.trim()` holds exactly for the blank strings. */
  lemma BlankIffTrimEmpty(s: string)
    ensures Blank(s) <==> Trim(s) == []
  {
    var t := TrimStart(s);
    if Trim(s) == [] {
      assert t == [];
    } else {
      var r := Trim(s);
      assert r[0] == t[0];
      assert s[|s| - |t|] == t[0];
    }
  }

  /** JavaScript truthiness of an optional string: present and non-empty. */
  predicate Truthy(o: Option<string>) {
    o.Some? && o.value != []
  }

  /** `a || b || ...` over optional strings: the first truthy one, `None` if none is. */
  function FirstTruthy(fields: seq<Option<string>>): (r: Option<string>)
    ensures r.None? <==> forall i :: 0 <= i < |fields| ==> !Truthy(fields[i])
    ensures r.Some? ==> r.value != [] && exists i :: 0 <= i < |fields| && fields[i] == r &&
                                                     (forall j :: 0 <= j < i ==> !Truthy(fields[j]))
  {
    if fields == [] then None
    else if Truthy(fields[0]) then fields[0]
    else
      var rest := FirstTruthy(fields[1..]);
      assert forall j :: 1 <= j < |fields| ==> fields[j] == fields[1..][j - 1];
      if rest.Some? then
        var k :| 0 <= k < |fields[1..]| && fields[1..][k] == rest &&
                 forall j :: 0 <= j < k ==> !Truthy(fields[1..][j]);
        assert fields[k + 1] == rest;
        rest
      else rest
  }

  /** `toLowerCase` on one character; only the ASCII letters are folded. */
  function LowerChar(c: char): char {
    if 'A' <= c <= 'Z' then (c as int + 32) as char else c
  }

  /** `s.toLowerCase()` */
  function ToLower(s: string): (r: string)
    ensures |r| == |s| && forall i :: 0 <= i < |s| ==> r[i] == LowerChar(s[i])
  {
    seq(|s|, i requires 0 <= i < |s| => LowerChar(s[i]))
  }

  /** Lower-casing twice is lower-casing once. */
  lemma ToLowerIdempotent(s: string)
    ensures ToLower(ToLower(s)) == ToLower(s)
  {
  }

  /** Finds the first occurrence of `c` in `s`. */
  function IndexOf(s: string, c: char): (i: nat)
    requires c in s
    ensures i < |s| && s[i] == c && c !in s[..i]
  {
    if s[0] == c then 0 else 1 + IndexOf(s[1..], c)
  }

  /** `fs.join(sep)`: the fields with one separator between neighbours. */
  function Join(fs: seq<string>, sep: char): string
    requires |fs| >= 1
  {
    if |fs| == 1 then fs[0] else fs[0] + [sep] + Join(fs[1..], sep)
  }

  /**
   * `s.split(sep)` for a one-character separator: the pieces between separators, so
   * joining them back gives `s`.
   */
  function Split(s: string, sep: char): (r: seq<string>)
    ensures |r| >= 1
    ensures forall i :: 0 <= i < |r| ==> sep !in r[i]
    ensures Join(r, sep) == s
    decreases |s|
  {
    if sep !in s then [s]
    else
      var i := IndexOf(s, sep);
      var r := [s[..i]] + Split(s[i + 1..], sep);
      assert r[1..] == Split(s[i + 1..], sep);
      assert s == s[..i] + [sep] + s[i + 1..];
      r
  }

  /** Splitting at the first separator: the text before it is the first field. */
  lemma {:induction false} SplitAtFirst(a: string, b: string, sep: char)
    requires sep !in a
    ensures Split(a + [sep] + b, sep) == [a] + Split(b, sep)
  {
    var s := a + [sep] + b;
    assert s[|a|] == sep;
    assert s[..|a|] == a;
    assert s[|a| + 1..] == b;
  }

  function DigitChar(d: nat): char
    requires d < 10
  {
    ('0' as int + d) as char
  }

  /** The decimal rendering of a non-negative number in a template string (`${n}`). */
  function NatToString(n: nat): (r: string)
    ensures |r| >= 1
    ensures forall i :: 0 <= i < |r| ==> '0' <= r[i] <= '9'
    ensures r[0] == '0' ==> n == 0 && |r| == 1
  {
    if n < 10 then [DigitChar(n)] else NatToString(n / 10) + [DigitChar(n % 10)]
  }

  /** The value of a digit character in bases up to 36, or 36 for a non-digit. */
  function DigitValue(c: char): (v: nat)
    ensures v <= 36
  {
    if '0' <= c <= '9' then c as int - '0' as int
    else if 'a' <= c <= 'z' then c as int - 'a' as int + 10
    else if 'A' <= c <= 'Z' then c as int - 'A' as int + 10
    else 36
  }

  /** The length of the longest prefix of `s` made of digits of the given radix. */
  function DigitRun(s: string, radix: nat): (n: nat)
    ensures n <= |s|
    ensures forall i :: 0 <= i < n ==> DigitValue(s[i]) < radix
    ensures n < |s| ==> DigitValue(s[n]) >= radix
  {
    if s != [] && DigitValue(s[0]) < radix then 1 + DigitRun(s[1..], radix) else 0
  }

  /** The value of a string of digits in the given radix. */
  function DigitsValue(ds: string, radix: nat): nat {
    if ds == [] then 0
    else DigitsValue(ds[..|ds| - 1], radix) * radix + (DigitValue(ds[|ds| - 1]) % 36)
  }

  /** The digits at the start of `v` in the given radix, `None` (NaN) when there are none. */
  function LeadingDigits(v: string, radix: nat): Option<nat> {
    var n := DigitRun(v, radix);
    if n == 0 then None else Some(DigitsValue(v[..n], radix))
  }

  /** An unsigned `parseInt` body: a `0x` or `0X` prefix switches to base 16. */
  function ParseMagnitude(u: string): Option<nat> {
    if |u| >= 2 && u[0] == '0' && (u[1] == 'x' || u[1] == 'X') then LeadingDigits(u[2..], 16)
    else LeadingDigits(u, 10)
  }

  /**
   * `parseInt(s)` without a radix: leading white space, an optional sign, then an
   * unsigned number; `None` stands for NaN.
   */
  function ParseInt(s: string): (r: Option<int>)
    ensures TrimStart(s) == [] ==> r.None?
    ensures r.Some? && r.value < 0 ==> TrimStart(s) != [] && TrimStart(s)[0] == '-'
  {
    var t := TrimStart(s);
    if t != [] && t[0] == '-' then
      (match ParseMagnitude(t[1..]) case None => None case Some(m) => Some(-(m as int)))
    else if t != [] && t[0] == '+' then
      (match ParseMagnitude(t[1..]) case None => None case Some(m) => Some(m))
    else
      (match ParseMagnitude(t) case None => None case Some(m) => Some(m))
  }

  /** A string that starts with a letter is not a number: `parseInt` gives NaN. */
  lemma ParseIntOfWord(w: string)
    requires w != [] && ('a' <= w[0] <= 'z' || 'A' <= w[0] <= 'Z')
    ensures ParseInt(w) == None
  {
    assert TrimStart(w) == w;
    assert DigitRun(w, 10) == 0;
  }

  lemma {:induction false} DecimalValue(n: nat)
    ensures DigitsValue(NatToString(n), 10) == n
  {
    var s := NatToString(n);
    if n >= 10 {
      DecimalValue(n / 10);
      assert s[..|s| - 1] == NatToString(n / 10);
    }
  }

  lemma {:induction false} AllDigitsRun(s: string)
    requires forall i :: 0 <= i < |s| ==> '0' <= s[i] <= '9'
    ensures DigitRun(s, 10) == |s|
  {
    if s != [] {
      AllDigitsRun(s[1..]);
    }
  }

  /** `parseInt` reads back the decimal rendering of every non-negative number. */
  lemma ParseIntOfNatToString(n: nat)
    ensures ParseInt(NatToString(n)) == Some(n)
  {
    var s := NatToString(n);
    assert !IsSpace(s[0]) && s[0] != '-' && s[0] != '+';
    assert TrimStart(s) == s;
    AllDigitsRun(s);
    assert s[..|s|] == s;
    DecimalValue(n);
    assert LeadingDigits(s, 10) == Some(n);
    assert ParseMagnitude(s) == Some(n);
  }
}
