/** String operations of the host language that the repair compiler and the release control
    rely on: stripping, splitting, decimal rendering. */
module Text {

  /** What `str.strip()` removes. */
  predicate IsSpace(c: char) {
    || c in {' ', '\t', '\n', '\r', '\U{b}', '\U{c}', '\U{85}', '\U{a0}', '\U{1680}'}
    || '\U{1c}' <= c <= '\U{1f}'
    || '\U{2000}' <= c <= '\U{200a}'
    || c in {'\U{2028}', '\U{2029}', '\U{202f}', '\U{205f}', '\U{3000}'}
  }

  function TrimLeft(s: string, drop: char -> bool): (r: string)
    ensures r != "" ==> !drop(r[0])
    ensures s != "" && !drop(s[0]) ==> r == s
    ensures |r| <= |s|
    ensures s != "" && !drop(s[|s| - 1]) ==> r != "" && r[|r| - 1] == s[|s| - 1]
    ensures r != "" ==> r[|r| - 1] == s[|s| - 1]
  {
    if s == "" then "" else if drop(s[0]) then TrimLeft(s[1..], drop) else s
  }

  function TrimRight(s: string, drop: char -> bool): (r: string)
    ensures r != "" ==> !drop(r[|r| - 1])
    ensures s != "" && !drop(s[|s| - 1]) ==> r == s
    ensures r <= s
    ensures s != "" && !drop(s[0]) ==> r != ""
  {
    if s == "" then "" else if drop(s[|s| - 1]) then TrimRight(s[..|s| - 1], drop) else s
  }

  function Trim(s: string, drop: char -> bool): (r: string)
    ensures r != "" ==> !drop(r[0]) && !drop(r[|r| - 1])
    ensures s != "" && !drop(s[0]) && !drop(s[|s| - 1]) ==> r == s
  {
    TrimRight(TrimLeft(s, drop), drop)
  }

  function Strip(s: string): (r: string)
    ensures r != "" ==> !IsSpace(r[0]) && !IsSpace(r[|r| - 1])
  {
    Trim(s, IsSpace)
  }

  predicate AllDropped(s: string, drop: char -> bool) {
    forall i :: 0 <= i < |s| ==> drop(s[i])
  }

  lemma {:induction false} LeftDropped(s: string, drop: char -> bool) returns (a: string)
    ensures s == a + TrimLeft(s, drop) && AllDropped(a, drop)
  {
    if s != "" && drop(s[0]) {
      a := LeftDropped(s[1..], drop);
      a := [s[0]] + a;
      assert s == [s[0]] + s[1..];
    } else {
      a := "";
    }
  }

  lemma {:induction false} RightDropped(s: string, drop: char -> bool) returns (b: string)
    ensures s == TrimRight(s, drop) + b && AllDropped(b, drop)
  {
    if s != "" && drop(s[|s| - 1]) {
      b := RightDropped(s[..|s| - 1], drop);
      b := b + [s[|s| - 1]];
      assert s == s[..|s| - 1] + [s[|s| - 1]];
    } else {
      b := "";
    }
  }

  /** Trimming takes off characters to be dropped from both ends. */
  lemma TrimTakesOff(s: string, drop: char -> bool) returns (a: string, b: string)
    ensures s == a + Trim(s, drop) + b && AllDropped(a, drop) && AllDropped(b, drop)
  {
    a := LeftDropped(s, drop);
    b := RightDropped(TrimLeft(s, drop), drop);
  }

  ghost predicate Ends(t: string, drop: char -> bool) {
    t == "" || (!drop(t[0]) && !drop(t[|t| - 1]))
  }

  lemma {:induction false} LeftTrimmed(a: string, t: string, drop: char -> bool)
    requires AllDropped(a, drop) && (t == "" || !drop(t[0]))
    ensures TrimLeft(a + t, drop) == t
  {
    if a != "" {
      assert (a + t)[1..] == a[1..] + t;
      LeftTrimmed(a[1..], t, drop);
    } else {
      assert a + t == t;
    }
  }

  lemma {:induction false} RightTrimmed(t: string, b: string, drop: char -> bool)
    requires AllDropped(b, drop) && (t == "" || !drop(t[|t| - 1]))
    ensures TrimRight(t + b, drop) == t
  {
    if b != "" {
      assert (t + b)[..|t + b| - 1] == t + b[..|b| - 1];
      RightTrimmed(t, b[..|b| - 1], drop);
    } else {
      assert t + b == t;
    }
  }

  /** And nothing else: what is left is the one text that neither begins nor ends with one. */
  lemma TrimIs(a: string, t: string, b: string, drop: char -> bool)
    requires AllDropped(a, drop) && AllDropped(b, drop) && Ends(t, drop)
    ensures Trim(a + t + b, drop) == t
  {
    if t == "" {
      assert a + t + b == (a + b) + "";
      LeftTrimmed(a + b, "", drop);
    } else {
      assert a + t + b == a + (t + b);
      LeftTrimmed(a, t + b, drop);
      RightTrimmed(t, b, drop);
    }
  }

  lemma StripIsIdempotent(s: string)
    ensures Strip(Strip(s)) == Strip(s)
  {
  }

  /** True of text that stripping leaves alone; the repair code keys tasks by stripped ids. */
  predicate Trimmed(s: string) {
    Strip(s) == s
  }

  /** True of text that stripping leaves nothing of. */
  predicate IsBlank(s: string) {
    Strip(s) == ""
  }

  function ReplaceChar(s: string, from: char, into: char): (r: string)
    ensures |r| == |s|
    ensures forall i :: 0 <= i < |s| ==> r[i] == if s[i] == from then into else s[i]
  {
    seq(|s|, i requires 0 <= i < |s| => if s[i] == from then into else s[i])
  }

  /** `s.split(sep)`: always at least one part. */
  function Split(s: string, sep: char): (parts: seq<string>)
    ensures |parts| >= 1
    ensures Join(parts, sep) == s
    ensures forall p :: p in parts ==> sep !in p
  {
    if s == "" then [""]
    else
      var rest := Split(s[1..], sep);
      if s[0] == sep then [""] + rest
      else [[s[0]] + rest[0]] + rest[1..]
  }

  function Join(parts: seq<string>, sep: char): string
    requires |parts| >= 1
  {
    if |parts| == 1 then parts[0] else parts[0] + [sep] + Join(parts[1..], sep)
  }

  /** `str(n)` for an integer. */
  function Decimal(n: int): (r: string)
    ensures r != ""
    decreases n < 0, if n < 0 then -n else n
  {
    if n < 0 then "-" + Decimal(-n)
    else if n < 10 then [Digit(n)]
    else Decimal(n / 10) + [Digit(n % 10)]
  }

  function Digit(d: int): (c: char)
    requires 0 <= d < 10
    ensures '0' <= c <= '9'
    ensures c as int == '0' as int + d
  {
    '0' + d as char
  }

  predicate IsDigit(c: char) {
    '0' <= c <= '9'
  }

  function DigitsValue(s: string): nat {
    if s == "" then 0
    else 10 * DigitsValue(s[..|s| - 1]) + if IsDigit(s[|s| - 1]) then s[|s| - 1] as int - '0' as int else 0
  }

  /** The decimal text of a natural number is digits only, without a leading zero, and determines
      the number. */
  lemma {:induction false} NatText(n: nat)
    ensures |Decimal(n)| > 1 ==> Decimal(n)[0] != '0'
    ensures n > 0 ==> Decimal(n)[0] != '0'
    ensures forall i :: 0 <= i < |Decimal(n)| ==> IsDigit(Decimal(n)[i])
    ensures DigitsValue(Decimal(n)) == n
  {
    if n < 10 {
      assert Decimal(n)[..0] == "";
    } else {
      NatText(n / 10);
      var s := Decimal(n);
      assert s[..|s| - 1] == Decimal(n / 10);
    }
  }

  /** The digits that write a number. */
  predicate Writes(digits: string, n: int) {
    && digits != "" && (|digits| > 1 ==> digits[0] != '0')
    && (forall i :: 0 <= i < |digits| ==> IsDigit(digits[i]))
    && DigitsValue(digits) == n
  }

  lemma DecimalWrites(n: nat)
    ensures Writes(Decimal(n), n)
  {
    NatText(n);
  }

  function DecimalValue(s: string): int
    requires s != ""
  {
    if s[0] == '-' then 0 - (DigitsValue(s[1..]) as int) else DigitsValue(s)
  }

  /** Reading back the decimal text of an integer gives the integer. */
  lemma DecimalRoundTrip(n: int)
    ensures DecimalValue(Decimal(n)) == n
    ensures n >= 0 ==> forall i :: 0 <= i < |Decimal(n)| ==> IsDigit(Decimal(n)[i])
    ensures n > 0 ==> Decimal(n)[0] != '0'
    ensures n < 0 ==> Decimal(n)[0] == '-' && Decimal(n)[1..] != "" && Decimal(n)[1] != '0'
    ensures n < 0 ==> forall i :: 1 <= i < |Decimal(n)| ==> IsDigit(Decimal(n)[i])
  {
    NatText(if n < 0 then -n else n);
    if n < 0 {
      assert Decimal(n)[1..] == Decimal(-n);
    }
  }

  lemma DecimalIsInjective(m: int, n: int)
    requires Decimal(m) == Decimal(n)
    ensures m == n
  {
    DecimalRoundTrip(m);
    DecimalRoundTrip(n);
  }

  // ---------------------------------------------------------------- sorting texts

  /** The order of strings: by the first code point that differs, a prefix first. */
  predicate AtMost(s: string, t: string) {
    s == "" || (t != "" && (s[0] < t[0] || (s[0] == t[0] && AtMost(s[1..], t[1..]))))
  }

  lemma {:induction false} AtMostIsTotal(s: string, t: string)
    ensures AtMost(s, t) || AtMost(t, s)
    ensures AtMost(s, t) && AtMost(t, s) ==> s == t
  {
    if s != "" && t != "" {
      AtMostIsTotal(s[1..], t[1..]);
      assert s == [s[0]] + s[1..] && t == [t[0]] + t[1..];
    }
  }

  lemma {:induction false} AtMostIsTransitive(s: string, t: string, u: string)
    requires AtMost(s, t) && AtMost(t, u)
    ensures AtMost(s, u)
  {
    if s != "" && s[0] == t[0] == u[0] {
      AtMostIsTransitive(s[1..], t[1..], u[1..]);
    }
  }

  ghost predicate Ascending(texts: seq<string>) {
    forall i, j :: 0 <= i < j < |texts| ==> AtMost(texts[i], texts[j])
  }

  function InsertText(text: string, texts: seq<string>): (r: seq<string>)
    requires Ascending(texts)
    ensures Ascending(r) && multiset(r) == multiset(texts) + multiset{text}
  {
    if texts == [] then [text]
    else if AtMost(text, texts[0]) then
      InsertFirst(text, texts);
      [text] + texts
    else
      assert texts == [texts[0]] + texts[1..];
      InsertLater(text, texts, InsertText(text, texts[1..]));
      [texts[0]] + InsertText(text, texts[1..])
  }

  lemma InsertFirst(text: string, texts: seq<string>)
    requires Ascending(texts) && texts != [] && AtMost(text, texts[0])
    ensures Ascending([text] + texts)
  {
    forall j | 0 <= j < |texts| ensures AtMost(text, texts[j]) {
      if j > 0 {
        AtMostIsTransitive(text, texts[0], texts[j]);
      }
    }
  }

  lemma InsertLater(text: string, texts: seq<string>, rest: seq<string>)
    requires texts != [] && Ascending(texts) && !AtMost(text, texts[0])
    requires Ascending(rest) && multiset(rest) == multiset(texts[1..]) + multiset{text}
    ensures Ascending([texts[0]] + rest)
  {
    AtMostIsTotal(text, texts[0]);
    forall j | 0 <= j < |rest| ensures AtMost(texts[0], rest[j]) {
      assert rest[j] in multiset(rest);
      if rest[j] != text {
        assert rest[j] in texts[1..];
      }
    }
  }

  /** `sorted(texts)`. */
  function SortTexts(texts: seq<string>): (r: seq<string>)
    ensures Ascending(r) && multiset(r) == multiset(texts)
  {
    if texts == [] then []
    else
      assert texts == [texts[0]] + texts[1..];
      InsertText(texts[0], SortTexts(texts[1..]))
  }
}
