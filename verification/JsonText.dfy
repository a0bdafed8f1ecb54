/** JSON text (RFC 8259): how values print, without spaces and with every string escaped to ASCII,
    and a reader of such text, which gives back what was printed. */
module JsonText {
  import opened Wrappers
  import opened Text

  // ---------------------------------------------------------------- strings

  type CodePoint = c: int | 0 <= c < 0x110000
  type Unit = u: int | 0 <= u < 0x10000

  /** A string of the program: any code points, lone surrogates included. */
  type PyStr = seq<CodePoint>

  function Codes(s: string): (r: PyStr)
    ensures |r| == |s| && forall i :: 0 <= i < |s| ==> r[i] == s[i] as int
  {
    seq(|s|, i requires 0 <= i < |s| => s[i] as int)
  }

  lemma CodesInjective(s: string, t: string)
    requires Codes(s) == Codes(t)
    ensures s == t
  {
    assert |s| == |t|;
    assert forall i :: 0 <= i < |s| ==> s[i] as int == Codes(s)[i] && t[i] as int == Codes(t)[i];
  }

  function Units(c: CodePoint): seq<Unit> {
    if c < 0x10000 then [c] else [0xD800 + (c - 0x10000) / 1024, 0xDC00 + (c - 0x10000) % 1024]
  }

  /** The UTF-16 code units of a string. */
  function Utf16(s: PyStr): seq<Unit> {
    if s == [] then [] else Units(s[0]) + Utf16(s[1..])
  }

  predicate High(c: int) { 0xD800 <= c < 0xDC00 }
  predicate Low(c: int) { 0xDC00 <= c < 0xE000 }

  /** No high surrogate is directly followed by a low one. */
  predicate NoPairs(s: PyStr) {
    forall i :: 0 <= i < |s| - 1 ==> !(High(s[i]) && Low(s[i + 1]))
  }

  /** The string of a sequence of units: a high surrogate and the low one after it are one code point. */
  function FromUtf16(us: seq<Unit>): PyStr {
    if us == [] then []
    else if |us| > 1 && High(us[0]) && Low(us[1]) then
      [0x10000 + (us[0] - 0xD800) * 1024 + (us[1] - 0xDC00)] + FromUtf16(us[2..])
    else [us[0]] + FromUtf16(us[1..])
  }

  /** Decoding undoes encoding, unless a surrogate pair was held as two code points. */
  lemma {:induction false} FromUtf16Inverts(s: PyStr)
    requires NoPairs(s)
    ensures FromUtf16(Utf16(s)) == s
  {
    if s != [] {
      var us, later := Utf16(s), Utf16(s[1..]);
      FromUtf16Inverts(s[1..]);
      assert us[|Units(s[0])|..] == later;
      if s[0] < 0x10000 && s[1..] != [] {
        LowUnit(s[1]);
        assert us[1] == later[0] == Units(s[1])[0];
      }
      assert s == [s[0]] + s[1..];
    }
  }

  /** Only a lone low surrogate starts with a low unit. */
  lemma LowUnit(c: CodePoint)
    ensures Low(Units(c)[0]) ==> Low(c)
  {
  }

  // ---------------------------------------------------------------- quoted strings

  function HexDigit(d: int): (c: char)
    requires 0 <= d < 16
    ensures c as int == if d < 10 then 48 + d else 87 + d
  {
    if d < 10 then '0' + d as char else 'a' + (d - 10) as char
  }

  function Hex4(u: Unit): (r: string)
    ensures |r| == 4
  {
    [HexDigit(u / 4096), HexDigit(u / 256 % 16), HexDigit(u / 16 % 16), HexDigit(u % 16)]
  }

  /** The escape of one code unit: printable ASCII as is, the short escapes, and `u` with four
      hexadecimal digits for the rest. */
  function EscapeUnit(u: Unit): (r: string)
    ensures r != ""
  {
    if u == 34 then "\\\""
    else if u == 92 then "\\\\"
    else if u == 10 then "\\n"
    else if u == 13 then "\\r"
    else if u == 9 then "\\t"
    else if u == 12 then "\\f"
    else if u == 8 then "\\b"
    else if 32 <= u <= 126 then [u as char]
    else "\\u" + Hex4(u)
  }

  /** The rest of a string's text, its closing quote, and what follows. */
  function EscapedThen(us: seq<Unit>, rest: string): (r: string)
    ensures r != ""
  {
    if us == [] then "\"" + rest else EscapeUnit(us[0]) + EscapedThen(us[1..], rest)
  }

  /** A string as JSON text, and what follows. */
  function QuotedThen(s: PyStr, rest: string): (r: string)
    ensures r != "" && r[0] == '"'
  {
    "\"" + EscapedThen(Utf16(s), rest)
  }

  function Quote(s: PyStr): string {
    QuotedThen(s, "")
  }

  // ---------------------------------------------------------------- reading quoted strings

  /** What was read off the front of a text, and what follows. */
  datatype Parsed<T> = Failed | Parsed(value: T, rest: string)

  function HexValue(c: char): (r: Option<int>)
    ensures r.Some? ==> 0 <= r.value < 16
  {
    if '0' <= c <= '9' then Some(c as int - '0' as int)
    else if 'a' <= c <= 'f' then Some(10 + c as int - 'a' as int)
    else if 'A' <= c <= 'F' then Some(10 + c as int - 'A' as int)
    else None
  }

  /** The unit that a two-character escape stands for. */
  function ShortEscape(c: char): Option<Unit> {
    match c
    case '"' => Some(0x22)
    case '\\' => Some(0x5C)
    case '/' => Some(0x2F)
    case 'b' => Some(0x08)
    case 'f' => Some(0x0C)
    case 'n' => Some(0x0A)
    case 'r' => Some(0x0D)
    case 't' => Some(0x09)
    case _ => None
  }

  /** Four hexadecimal digits. */
  function ReadHex4(s: string): (r: Option<int>)
    ensures r.Some? ==> |s| >= 4 && 0 <= r.value < 0x10000
  {
    if |s| < 4 then None
    else
      match (HexValue(s[0]), HexValue(s[1]), HexValue(s[2]), HexValue(s[3]))
      case (Some(a), Some(b), Some(c), Some(d)) => Some(((a * 16 + b) * 16 + c) * 16 + d)
      case _ => None
  }

  /** One character or escape of a string. */
  function ReadUnit(s: string): (r: Parsed<seq<Unit>>)
    requires s != ""
    ensures r.Parsed? ==> |r.rest| < |s|
  {
    if s[0] < ' ' then Failed
    else if s[0] != '\\' then Parsed(Units(s[0] as int), s[1..])
    else if |s| == 1 then Failed
    else if s[1] == 'u' then
      match ReadHex4(s[2..])
      case Some(u) => Parsed([u], s[6..])
      case None => Failed
    else
      match ShortEscape(s[1])
      case Some(u) => Parsed([u], s[2..])
      case None => Failed
  }

  /** The units of a string up to its closing quote. */
  function ReadUnits(s: string): (r: Parsed<seq<Unit>>)
    ensures r.Parsed? ==> |r.rest| < |s|
    decreases |s|
  {
    if s == "" then Failed
    else if s[0] == '"' then Parsed([], s[1..])
    else
      var first := ReadUnit(s);
      if first.Failed? then Failed
      else
        var later := ReadUnits(first.rest);
        if later.Failed? then Failed else Parsed(first.value + later.value, later.rest)
  }

  function ReadString(s: string): (r: Parsed<PyStr>)
    ensures r.Parsed? ==> |r.rest| < |s|
  {
    if s == "" || s[0] != '"' then Failed
    else
      var us := ReadUnits(s[1..]);
      if us.Failed? then Failed else Parsed(FromUtf16(us.value), us.rest)
  }

  lemma FromDigits(u: Unit)
    ensures u == u / 4096 * 4096 + u / 256 % 16 * 256 + u / 16 % 16 * 16 + u % 16
  {
    var a, b := u / 16, u / 256;
    assert u == a * 16 + u % 16;
    assert b == a / 16 && a == b * 16 + a % 16;
    assert u / 4096 == b / 16 && b == b / 16 * 16 + b % 16;
  }

  lemma HexDigitReads(d: int)
    requires 0 <= d < 16
    ensures HexValue(HexDigit(d)) == Some(d)
  {
  }

  lemma Hex4Reads(u: Unit, rest: string)
    ensures ReadHex4(Hex4(u) + rest) == Some(u)
  {
    HexDigitReads(u / 4096);
    HexDigitReads(u / 256 % 16);
    HexDigitReads(u / 16 % 16);
    HexDigitReads(u % 16);
    FromDigits(u);
    var s := Hex4(u) + rest;
    assert s[0] == Hex4(u)[0] && s[1] == Hex4(u)[1] && s[2] == Hex4(u)[2] && s[3] == Hex4(u)[3];
  }

  /** The escape of a unit reads as that unit. */
  lemma UnitReads(u: Unit, rest: string)
    ensures ReadUnit(EscapeUnit(u) + rest) == Parsed([u], rest)
    ensures EscapeUnit(u)[0] != '"'
  {
    hide ReadHex4, Hex4, HexValue, ShortEscape;
    var e := EscapeUnit(u);
    var s := e + rest;
    assert s[0] == e[0] && s[|e|..] == rest;
    if |e| == 2 {
      ShortEscapeReads(u);
      assert s[1] == e[1];
    } else if 32 <= u <= 126 {
      assert e == [u as char] && s[0] as int == u;
    } else {
      Hex4Reads(u, rest);
      assert s[1] == e[1] && s[2..] == Hex4(u) + rest;
    }
  }

  lemma ShortEscapeReads(u: Unit)
    requires |EscapeUnit(u)| == 2
    ensures EscapeUnit(u)[1] != 'u' && ShortEscape(EscapeUnit(u)[1]) == Some(u)
  {
  }

  lemma {:induction false} UnitsRead(us: seq<Unit>, rest: string)
    ensures ReadUnits(EscapedThen(us, rest)) == Parsed(us, rest)
  {
    var s := EscapedThen(us, rest);
    if us == [] {
      assert s[1..] == rest;
    } else {
      hide EscapeUnit, ReadUnit;
      UnitReads(us[0], EscapedThen(us[1..], rest));
      UnitsRead(us[1..], rest);
      assert s[0] == EscapeUnit(us[0])[0];
      assert us == [us[0]] + us[1..];
    }
  }

  /** A quoted string reads back as its units, and so as itself unless it holds a surrogate pair
      as two code points. */
  lemma QuoteReads(s: PyStr, rest: string)
    ensures ReadUnits(QuotedThen(s, rest)[1..]) == Parsed(Utf16(s), rest)
    ensures ReadString(QuotedThen(s, rest)) == Parsed(FromUtf16(Utf16(s)), rest)
    ensures NoPairs(s) ==> ReadString(QuotedThen(s, rest)) == Parsed(s, rest)
  {
    UnitsRead(Utf16(s), rest);
    assert QuotedThen(s, rest)[1..] == EscapedThen(Utf16(s), rest);
    if NoPairs(s) {
      FromUtf16Inverts(s);
    }
  }

  /** Two strings print alike exactly when they have the same UTF-16 units, so exactly when they
      are equal if neither holds a surrogate pair as two code points. */
  lemma QuoteIsExact(s: PyStr, t: PyStr)
    ensures Quote(s) == Quote(t) <==> Utf16(s) == Utf16(t)
    ensures NoPairs(s) && NoPairs(t) ==> (Quote(s) == Quote(t) <==> s == t)
  {
    QuoteReads(s, "");
    QuoteReads(t, "");
  }

  /** A surrogate pair held as two code points prints like the one code point it encodes. */
  lemma PairsCollide(pair: PyStr, one: PyStr)
    requires pair == [0xD83D, 0xDE00] && one == [0x1F600]
    ensures pair != one && Quote(pair) == Quote(one)
  {
    var low := pair[1..];
    assert low == [0xDE00] && low[1..] == [] && one[1..] == [];
    assert Units(0xD83D) == [0xD83D] && Units(0xDE00) == [0xDE00];
    assert Units(0x1F600) == [0xD83D, 0xDE00];
    assert Utf16(low) == [0xDE00] + Utf16(low[1..]) == [0xDE00];
    assert Utf16(pair) == [0xD83D] + Utf16(low) == [0xD83D, 0xDE00];
    assert Utf16(one) == [0xD83D, 0xDE00] + Utf16(one[1..]) == [0xD83D, 0xDE00];
    assert |pair| != |one|;
  }

  predicate PrintableAscii(s: string) {
    forall i :: 0 <= i < |s| ==> ' ' <= s[i] <= '~'
  }

  /** Text that differs at most in the case of its letters. */
  predicate SameButCase(s: string, t: string) {
    |s| == |t| && forall i :: 0 <= i < |s| ==> s[i] == t[i] || ('A' <= t[i] <= 'F' && s[i] as int == t[i] as int + 32)
  }

  /** No printable text reads as the unit in fewer characters than its escape, and none in as many
      but the escape itself, save for the case of its hexadecimal digits. */
  lemma EscapeIsShortest(u: Unit, t: string, rest: string)
    requires t != "" && PrintableAscii(t) && ReadUnit(t + rest) == Parsed([u], rest) && t[0] != '"'
    ensures PrintableAscii(EscapeUnit(u)) && |EscapeUnit(u)| <= |t|
    ensures |EscapeUnit(u)| == |t| ==> SameButCase(EscapeUnit(u), t) && (|t| < 6 ==> EscapeUnit(u) == t)
  {
    hide ReadHex4, Hex4, HexValue, ShortEscape;
    EscapeIsPrintable(u);
    var s := t + rest;
    assert s[0] == t[0] && |s| - |rest| == |t|;
    if t[0] != '\\' {
      assert u == t[0] as int && |t| == 1;
      assert EscapeUnit(u) == t;
    } else {
      assert |t| == 2 || |t| == 6;
      assert s[1] == t[1] && s[2..] == t[2..] + rest;
      if t[1] == 'u' {
        Hex4IsUnique(u, t[2..], rest);
        LongEscape(u, t);
      } else {
        ShortEscapeIsUnique(u, t);
      }
    }
  }

  /** So no printable text reads as a string in fewer characters than its quoted text. */
  lemma {:induction false} EscapedIsShortest(us: seq<Unit>, t: string)
    requires PrintableAscii(t) && ReadUnits(t) == Parsed(us, "")
    ensures |EscapedThen(us, "")| <= |t| && PrintableAscii(EscapedThen(us, ""))
    decreases |t|
  {
    if t[0] != '"' {
      var first := ReadUnit(t);
      UnitIsInFront(t);
      EscapeIsShortest(first.value[0], t[..|t| - |first.rest|], first.rest);
      EscapedIsShortest(us[1..], first.rest);
    }
  }

  lemma UnitIsInFront(t: string)
    requires t != "" && t[0] <= '~' && ReadUnit(t).Parsed?
    ensures var first := ReadUnit(t); |first.value| == 1 && t[|t| - |first.rest|..] == first.rest
    ensures t == t[..|t| - |ReadUnit(t).rest|] + ReadUnit(t).rest
  {
  }

  lemma EscapeIsPrintable(u: Unit)
    ensures PrintableAscii(EscapeUnit(u))
  {
  }

  lemma LongEscape(u: Unit, t: string)
    requires |t| == 6 && t[..2] == "\\u" && SameButCase(Hex4(u), t[2..])
    ensures |EscapeUnit(u)| <= 6 && (|EscapeUnit(u)| == 6 ==> SameButCase(EscapeUnit(u), t))
  {
    hide Hex4;
    if |EscapeUnit(u)| == 6 {
      assert EscapeUnit(u) == "\\u" + Hex4(u) && t == t[..2] + t[2..];
    }
  }

  lemma ShortEscapeIsUnique(u: Unit, t: string)
    requires |t| == 2 && t[0] == '\\' && ShortEscape(t[1]) == Some(u)
    ensures |EscapeUnit(u)| <= 2 && (|EscapeUnit(u)| == 2 ==> EscapeUnit(u) == t)
  {
  }

  lemma HexDigitIsUnique(c: char)
    requires HexValue(c).Some?
    ensures var d := HexDigit(HexValue(c).value); d == c || ('A' <= c <= 'F' && d as int == c as int + 32)
  {
  }

  lemma DigitsOf(a: int, b: int, c: int, d: int, u: int)
    requires 0 <= a < 16 && 0 <= b < 16 && 0 <= c < 16 && 0 <= d < 16 && u == ((a * 16 + b) * 16 + c) * 16 + d
    ensures u / 4096 == a && u / 256 % 16 == b && u / 16 % 16 == c && u % 16 == d
  {
  }

  lemma Hex4IsUnique(u: Unit, digits: string, rest: string)
    requires |digits| == 4 && ReadHex4(digits + rest) == Some(u)
    ensures SameButCase(Hex4(u), digits)
  {
    var s := digits + rest;
    hide HexValue;
    assert s[0] == digits[0] && s[1] == digits[1] && s[2] == digits[2] && s[3] == digits[3];
    HexDigitIsUnique(digits[0]);
    HexDigitIsUnique(digits[1]);
    HexDigitIsUnique(digits[2]);
    HexDigitIsUnique(digits[3]);
    DigitsOf(HexValue(digits[0]).value, HexValue(digits[1]).value, HexValue(digits[2]).value, HexValue(digits[3]).value, u);
  }

  // ---------------------------------------------------------------- numbers

  /** What follows a number never continues it. */
  predicate Delimited(rest: string) {
    rest == "" || !IsDigit(rest[0])
  }

  /** How many digits a text begins with. */
  function DigitRun(s: string): (n: nat)
    ensures n <= |s|
  {
    if s != "" && IsDigit(s[0]) then 1 + DigitRun(s[1..]) else 0
  }

  /** An integer: a minus sign or none, then digits without a leading zero. */
  function ReadInt(s: string): (r: Parsed<int>)
    ensures r.Parsed? ==> |r.rest| < |s|
  {
    var negative := s != "" && s[0] == '-';
    var digits := if negative then s[1..] else s;
    var n := DigitRun(digits);
    if n == 0 || (n > 1 && digits[0] == '0') then Failed
    else Parsed(if negative then 0 - (DigitsValue(digits[..n]) as int) else DigitsValue(digits[..n]), digits[n..])
  }

  lemma {:induction false} DigitRunIs(digits: string, rest: string)
    requires Delimited(rest) && forall i :: 0 <= i < |digits| ==> IsDigit(digits[i])
    ensures DigitRun(digits + rest) == |digits|
  {
    if digits != "" {
      DigitRunIs(digits[1..], rest);
      assert (digits + rest)[1..] == digits[1..] + rest;
    } else {
      assert digits + rest == rest;
    }
  }

  /** The decimal text of an integer reads as the integer. */
  lemma IntReads(n: int, rest: string)
    requires Delimited(rest)
    ensures ReadInt(Decimal(n) + rest) == Parsed(n, rest)
  {
    hide DigitRun, DigitsValue, IsDigit;
    var m := if n < 0 then -n else n;
    NatText(m);
    var digits := Decimal(m);
    DigitRunIs(digits, rest);
    assert (digits + rest)[..|digits|] == digits && (digits + rest)[|digits|..] == rest;
    assert digits[0] != '-' by {
      assert IsDigit(digits[0]);
      MinusIsNoDigit();
    }
    if n < 0 {
      assert (Decimal(n) + rest)[1..] == digits + rest;
    }
  }

  lemma MinusIsNoDigit()
    ensures !IsDigit('-')
  {
  }

  // ---------------------------------------------------------------- values and their text

  /** A value to print; the fields of an object are in insertion order. */
  datatype Json =
    | Null
    | Bool(b: bool)
    | Num(n: int)
    | Str(s: PyStr)
    | Arr(items: Items)
    | Obj(fields: Fields)
  datatype Items = NoItems | Item(head: Json, tail: Items)
  datatype Fields = NoFields | Field(key: PyStr, value: Json, rest: Fields)

  /** The text of a value as its fields stand, and what follows. */
  function TextThen(j: Json, rest: string): (r: string)
    ensures r != ""
  {
    match j
    case Null => "null" + rest
    case Bool(b) => (if b then "true" else "false") + rest
    case Num(n) => DecimalThen(n, rest)
    case Str(s) => QuotedThen(s, rest)
    case Arr(NoItems) => "[]" + rest
    case Arr(Item(head, tail)) => "[" + TextThen(head, ItemsThen(tail, rest))
    case Obj(NoFields) => "{}" + rest
    case Obj(Field(key, value, more)) => "{" + QuotedThen(key, ":" + TextThen(value, FieldsThen(more, rest)))
  }

  function DecimalThen(n: int, rest: string): (r: string)
    ensures r != "" && (r[0] == '-' || IsDigit(r[0]))
  {
    DecimalRoundTrip(n);
    Decimal(n) + rest
  }

  function ItemsThen(items: Items, rest: string): (r: string)
    ensures r != "" && r[0] in ",]"
  {
    match items
    case NoItems => "]" + rest
    case Item(head, tail) => "," + TextThen(head, ItemsThen(tail, rest))
  }

  function FieldsThen(fields: Fields, rest: string): (r: string)
    ensures r != "" && r[0] in ",}"
  {
    match fields
    case NoFields => "}" + rest
    case Field(key, value, more) => "," + QuotedThen(key, ":" + TextThen(value, FieldsThen(more, rest)))
  }

  ghost predicate CleanStrings(j: Json) {
    match j
    case Str(s) => NoPairs(s)
    case Arr(items) => CleanItems(items)
    case Obj(fields) => CleanFields(fields)
    case _ => true
  }

  ghost predicate CleanItems(items: Items) {
    items.Item? ==> CleanStrings(items.head) && CleanItems(items.tail)
  }

  ghost predicate CleanFields(fields: Fields) {
    fields.Field? ==> NoPairs(fields.key) && CleanStrings(fields.value) && CleanFields(fields.rest)
  }

  /** The first character of a text tells what kind of value it is. */
  function Lead(j: Json): char {
    match j
    case Null => 'n'
    case Bool(b) => if b then 't' else 'f'
    case Num(_) => '0'
    case Str(_) => '"'
    case Arr(_) => '['
    case Obj(_) => '{'
  }

  lemma LeadIs(j: Json, rest: string)
    ensures var c := TextThen(j, rest)[0]; Lead(j) == if IsDigit(c) || c == '-' then '0' else c
  {
  }

  // ---------------------------------------------------------------- reading values

  /** A value without fractions, exponents and white space. */
  function ReadValue(s: string): (r: Parsed<Json>)
    ensures r.Parsed? ==> |r.rest| < |s|
    decreases |s|, 0
  {
    if s == "" then Failed
    else
      match s[0]
      case 'n' => if "null" <= s then Parsed(Null, s[4..]) else Failed
      case 't' => if "true" <= s then Parsed(Bool(true), s[4..]) else Failed
      case 'f' => if "false" <= s then Parsed(Bool(false), s[5..]) else Failed
      case '"' =>
        var text := ReadString(s);
        if text.Failed? then Failed else Parsed(Str(text.value), text.rest)
      case '[' =>
        if |s| > 1 && s[1] == ']' then Parsed(Arr(NoItems), s[2..])
        else
          var items := ReadItems(s[1..]);
          if items.Failed? then Failed else Parsed(Arr(items.value), items.rest)
      case '{' =>
        if |s| > 1 && s[1] == '}' then Parsed(Obj(NoFields), s[2..])
        else
          var fields := ReadFields(s[1..]);
          if fields.Failed? then Failed else Parsed(Obj(fields.value), fields.rest)
      case _ =>
        var number := ReadInt(s);
        if number.Failed? then Failed else Parsed(Num(number.value), number.rest)
  }

  /** The items of an array from the first one to the closing bracket. */
  function ReadItems(s: string): (r: Parsed<Items>)
    ensures r.Parsed? ==> |r.rest| < |s|
    decreases |s|, 1
  {
    var head := ReadValue(s);
    if head.Failed? then Failed
    else if "]" <= head.rest then Parsed(Item(head.value, NoItems), head.rest[1..])
    else if "," <= head.rest then
      var tail := ReadItems(head.rest[1..]);
      if tail.Failed? then Failed else Parsed(Item(head.value, tail.value), tail.rest)
    else Failed
  }

  /** The fields of an object from the first one to the closing brace. */
  function ReadFields(s: string): (r: Parsed<Fields>)
    ensures r.Parsed? ==> |r.rest| < |s|
    decreases |s|, 1
  {
    var key := ReadString(s);
    if key.Failed? || !(":" <= key.rest) then Failed
    else
      var value := ReadValue(key.rest[1..]);
      if value.Failed? then Failed
      else if "}" <= value.rest then Parsed(Field(key.value, value.value, NoFields), value.rest[1..])
      else if "," <= value.rest then
        var more := ReadFields(value.rest[1..]);
        if more.Failed? then Failed else Parsed(Field(key.value, value.value, more.value), more.rest)
      else Failed
  }

  /** A text that is a value and nothing else. */
  function ReadText(s: string): Option<Json> {
    match ReadValue(s)
    case Parsed(j, "") => Some(j)
    case _ => None
  }

  lemma SimpleReads(j: Json, rest: string)
    requires CleanStrings(j) && Delimited(rest) && !(j.Arr? && j.items.Item?) && !(j.Obj? && j.fields.Field?)
    ensures ReadValue(TextThen(j, rest)) == Parsed(j, rest)
  {
    hide ReadString, ReadInt;
    var s := TextThen(j, rest);
    match j
    case Null => assert s[4..] == rest;
    case Bool(b) => assert if b then s[4..] == rest else s[5..] == rest;
    case Num(n) =>
      IntReads(n, rest);
      assert s[0] == '-' || IsDigit(s[0]);
    case Str(text) =>
      QuoteReads(text, rest);
    case _ => assert s[2..] == rest;
  }

  /** A printed value reads back as it is. */
  lemma {:induction false} ValueReads(j: Json, rest: string)
    requires CleanStrings(j) && Delimited(rest)
    ensures ReadValue(TextThen(j, rest)) == Parsed(j, rest)
    decreases j, 1
  {
    hide ReadValue;
    if j.Arr? && j.items.Item? {
      var text := TextThen(j.items.head, ItemsThen(j.items.tail, rest));
      ItemsRead(j.items, rest);
      LeadIs(j.items.head, ItemsThen(j.items.tail, rest));
      ListOpens(text, j.items, rest);
      assert TextThen(j, rest) == "[" + text;
    } else if j.Obj? && j.fields.Field? {
      FieldsRead(j.fields, rest);
      ObjectOpens(FieldThen(j.fields, rest), j.fields, rest);
      assert TextThen(j, rest) == "{" + FieldThen(j.fields, rest);
    } else {
      SimpleReads(j, rest);
    }
  }

  lemma {:induction false} ItemsRead(items: Items, rest: string)
    requires items.Item? && CleanItems(items)
    ensures ReadItems(TextThen(items.head, ItemsThen(items.tail, rest))) == Parsed(items, rest)
    decreases items, 0
  {
    var tail := items.tail;
    ValueReads(items.head, ItemsThen(tail, rest));
    assert ItemsThen(tail, rest)[1..] == if tail.NoItems? then rest else TextThen(tail.head, ItemsThen(tail.tail, rest));
    if tail.Item? {
      ItemsRead(tail, rest);
    }
  }

  /** The text of one field and what follows, without the character before it. */
  function FieldThen(f: Fields, rest: string): string
    requires f.Field?
  {
    QuotedThen(f.key, ":" + TextThen(f.value, FieldsThen(f.rest, rest)))
  }

  lemma {:induction false} FieldsRead(f: Fields, rest: string)
    requires f.Field? && CleanFields(f)
    ensures ReadFields(FieldThen(f, rest)) == Parsed(f, rest)
    decreases f, 0
  {
    hide ReadString, QuotedThen;
    var tail := FieldsThen(f.rest, rest);
    QuoteReads(f.key, ":" + TextThen(f.value, tail));
    ValueReads(f.value, tail);
    if f.rest.Field? {
      FieldsRead(f.rest, rest);
      assert tail == "," + FieldThen(f.rest, rest);
    }
    hide ReadValue, TextThen, FieldsThen;
    FieldOpens(FieldThen(f, rest), f, TextThen(f.value, tail), tail, rest);
  }

  lemma FieldOpens(text: string, f: Fields, after: string, tail: string, rest: string)
    requires f.Field? && ReadString(text) == Parsed(f.key, ":" + after) && ReadValue(after) == Parsed(f.value, tail)
    requires if f.rest.NoFields? then tail == "}" + rest else tail != "" && tail[0] == ',' && ReadFields(tail[1..]) == Parsed(f.rest, rest)
    ensures ReadFields(text) == Parsed(f, rest)
  {
    hide ReadString, ReadValue;
    assert (":" + after)[1..] == after;
    assert f.rest.NoFields? ==> tail[1..] == rest;
  }

  lemma ObjectOpens(text: string, fields: Fields, rest: string)
    requires ReadFields(text) == Parsed(fields, rest) && text != "" && text[0] == '"'
    ensures ReadValue("{" + text) == Parsed(Obj(fields), rest)
  {
    hide ReadFields;
    var s := "{" + text;
    assert s[1..] == text && s[1] == text[0];
  }

  lemma ListOpens(text: string, items: Items, rest: string)
    requires ReadItems(text) == Parsed(items, rest) && text != "" && text[0] != ']'
    ensures ReadValue("[" + text) == Parsed(Arr(items), rest)
  {
    hide ReadItems;
    var s := "[" + text;
    assert s[1..] == text && s[1] == text[0];
  }

  /** So a text can be read in one way only. */
  lemma Unambiguous(a: Json, b: Json, x: string, y: string)
    requires CleanStrings(a) && CleanStrings(b) && Delimited(x) && Delimited(y)
    requires TextThen(a, x) == TextThen(b, y)
    ensures a == b && x == y
  {
    ValueReads(a, x);
    ValueReads(b, y);
  }

  // ---------------------------------------------------------------- idempotency keys

  /** The text digested by `_idempotency_key`: the quoted parts, one a line. */
  function PartsText(parts: seq<PyStr>): string {
    if parts == [] then ""
    else if |parts| == 1 then Quote(parts[0])
    else QuotedThen(parts[0], "\n" + PartsText(parts[1..]))
  }

  /** Quoted strings, one a line. */
  function ReadParts(s: string): Option<seq<PyStr>>
    decreases |s|
  {
    if s == "" then Some([])
    else
      match ReadString(s)
      case Failed => None
      case Parsed(part, rest) =>
        if rest == "" then Some([part])
        else if rest[0] != '\n' || rest[1..] == "" then None
        else
          match ReadParts(rest[1..])
          case None => None
          case Some(parts) => Some([part] + parts)
  }

  /** The text of a tuple of parts reads back as the tuple. */
  lemma {:induction false} PartsRead(parts: seq<PyStr>)
    requires forall s :: s in parts ==> NoPairs(s)
    ensures ReadParts(PartsText(parts)) == Some(parts)
    ensures parts != [] ==> PartsText(parts) != ""
  {
    if |parts| == 1 {
      QuoteReads(parts[0], "");
      hide ReadString, QuotedThen;
      assert parts == [parts[0]];
    } else if |parts| > 1 {
      var later := PartsText(parts[1..]);
      QuoteReads(parts[0], "\n" + later);
      hide ReadString, QuotedThen;
      PartsRead(parts[1..]);
      OneMorePart(parts[0], parts[1..], later);
      assert parts == [parts[0]] + parts[1..];
    }
  }

  lemma OneMorePart(part: PyStr, parts: seq<PyStr>, later: string)
    requires ReadParts(later) == Some(parts) && later != ""
    requires ReadString(QuotedThen(part, "\n" + later)) == Parsed(part, "\n" + later)
    ensures ReadParts(QuotedThen(part, "\n" + later)) == Some([part] + parts)
  {
    hide ReadString, QuotedThen;
    assert ("\n" + later)[1..] == later;
  }

  /** Two tuples of parts give the same text exactly when they are equal. */
  lemma PartsTextIsExact(a: seq<PyStr>, b: seq<PyStr>)
    requires forall s :: s in a + b ==> NoPairs(s)
    ensures PartsText(a) == PartsText(b) <==> a == b
  {
    PartsRead(a);
    PartsRead(b);
  }
}
