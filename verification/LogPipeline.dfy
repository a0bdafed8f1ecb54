/** The bridge log: a chunked reader that cuts a stream into capped lines, a bounded buffer that
    keeps the newest of them with a running count, and a cursor endpoint for pollers. */
module LogPipeline {
  import opened Text

  // ---------------------------------------------------------------- cutting text into lines

  function FirstNewline(text: string): (n: nat)
    ensures n <= |text| && (n < |text| ==> text[n] == '\n')
    ensures forall i :: 0 <= i < n ==> text[i] != '\n'
  {
    if text == "" || text[0] == '\n' then 0 else 1 + FirstNewline(text[1..])
  }

  /** `text.rstrip("\r")`. */
  function RStrip(text: string): (r: string)
    ensures r <= text && (r != "" ==> r[|r| - 1] != '\r')
    ensures forall i :: |r| <= i < |text| ==> text[i] == '\r'
  {
    if text != "" && text[|text| - 1] == '\r' then RStrip(text[..|text| - 1]) else text
  }

  /** Finished lines and the line still open. */
  datatype Reading = Reading(lines: seq<string>, open: string)

  /** Reading one chunk with a line already open: carriage returns before a newline are stripped,
      but only those that came with the chunk. */
  function Cut(open: string, chunk: string): Reading
    decreases |chunk|
  {
    var n := FirstNewline(chunk);
    if n == |chunk| then Reading([], open + chunk)
    else
      var later := Cut("", chunk[n + 1..]);
      Reading([open + RStrip(chunk[..n])] + later.lines, later.open)
  }

  function CutAll(open: string, chunks: seq<string>): Reading
    decreases |chunks|
  {
    if chunks == [] then Reading([], open)
    else
      var first := Cut(open, chunks[0]);
      var later := CutAll(first.open, chunks[1..]);
      Reading(first.lines + later.lines, later.open)
  }

  lemma {:induction false} CutAllSnoc(open: string, chunks: seq<string>, last: string)
    ensures var before := CutAll(open, chunks); var more := Cut(before.open, last);
      CutAll(open, chunks + [last]) == Reading(before.lines + more.lines, more.open)
    decreases |chunks|
  {
    var all := chunks + [last];
    if chunks == [] {
      assert CutAll(Cut(open, last).open, all[1..]) == Reading([], Cut(open, last).open);
    } else {
      assert all[1..] == chunks[1..] + [last];
      CutAllSnoc(Cut(open, chunks[0]).open, chunks[1..], last);
    }
  }

  function Concat(chunks: seq<string>): string {
    if chunks == [] then "" else chunks[0] + Concat(chunks[1..])
  }

  /** A cut falls inside the carriage returns before a newline. */
  predicate Splits(chunk: string, rest: string) {
    && chunk != "" && chunk[|chunk| - 1] == '\r'
    && FirstNewline(rest) < |rest| && RStrip(rest[..FirstNewline(rest)]) == ""
  }

  predicate CleanCuts(chunks: seq<string>) {
    chunks == [] || (!Splits(chunks[0], Concat(chunks[1..])) && CleanCuts(chunks[1..]))
  }

  function Total(lines: seq<string>): nat {
    if lines == [] then 0 else |lines[0]| + Total(lines[1..])
  }

  lemma {:induction false} TotalConcat(a: seq<string>, b: seq<string>)
    ensures Total(a + b) == Total(a) + Total(b)
  {
    if a == [] {
      assert a + b == b;
    } else {
      TotalConcat(a[1..], b);
      assert (a + b)[1..] == a[1..] + b;
    }
  }

  lemma {:induction false} RStripConcat(a: string, b: string)
    ensures RStrip(a + b) == if RStrip(b) != "" then a + RStrip(b) else RStrip(a)
    decreases b
  {
    if b == "" {
      assert a + b == a;
    } else if b[|b| - 1] == '\r' {
      assert (a + b)[..|a + b| - 1] == a + b[..|b| - 1];
      RStripConcat(a, b[..|b| - 1]);
    } else {
      assert RStrip(a + b) == a + b;
    }
  }

  lemma {:induction false} FirstNewlineConcat(a: string, b: string)
    ensures FirstNewline(a + b) == if FirstNewline(a) < |a| then FirstNewline(a) else |a| + FirstNewline(b)
  {
    if a == "" {
      assert a + b == b;
    } else {
      assert (a + b)[1..] == a[1..] + b;
      FirstNewlineConcat(a[1..], b);
    }
  }

  /** How reading in two chunks compares with reading at once. */
  ghost predicate Compares(first: seq<string>, second: Reading, whole: Reading, split: bool) {
    && |whole.lines| == |first| + |second.lines| && whole.open == second.open
    && (!split ==> whole.lines == first + second.lines)
    && (split ==> Total(whole.lines) < Total(first + second.lines))
  }

  lemma PrependLine(line: string, first: seq<string>, second: Reading, whole: Reading, split: bool)
    requires Compares(first, second, whole, split)
    ensures Compares([line] + first, second, Reading([line] + whole.lines, whole.open), split)
  {
    assert [line] + first + second.lines == [line] + (first + second.lines);
    TotalConcat([line], first + second.lines);
    TotalConcat([line], whole.lines);
  }

  lemma SplitsAfterNewline(a: string, n: nat, b: string)
    requires n < |a| && a[n] == '\n'
    ensures Splits(a, b) <==> Splits(a[n + 1..], b)
  {
  }

  /** Two chunks read one after the other against the same text read at once: the same number of
      lines and the same open line, and the same lines unless the cut falls inside the carriage
      returns before a newline, when the lines come out longer. */
  lemma {:induction false} TwoChunks(open: string, a: string, b: string)
    ensures Compares(Cut(open, a).lines, Cut(Cut(open, a).open, b), Cut(open, a + b), Splits(a, b))
    decreases |a|
  {
    FirstNewlineConcat(a, b);
    var n := FirstNewline(a);
    if n < |a| {
      assert (a + b)[n + 1..] == a[n + 1..] + b && (a + b)[..n] == a[..n];
      TwoChunks("", a[n + 1..], b);
      SplitsAfterNewline(a, n, b);
      var first := Cut("", a[n + 1..]);
      PrependLine(open + RStrip(a[..n]), first.lines, Cut(first.open, b), Cut("", a[n + 1..] + b), Splits(a, b));
    } else {
      OneLineInTwo(open, a, b);
      assert [] + Cut(open + a, b).lines == Cut(open + a, b).lines;
    }
  }

  lemma StripInTwo(open: string, a: string, c: string)
    ensures var whole, second := open + RStrip(a + c), open + a + RStrip(c);
      if a != "" && a[|a| - 1] == '\r' && RStrip(c) == "" then |whole| < |second| else whole == second
  {
    RStripConcat(a, c);
    if RStrip(c) != "" {
      assert open + (a + RStrip(c)) == open + a + RStrip(c);
    } else {
      assert open + a + "" == open + a;
    }
  }

  lemma CutOpen(open: string, chunk: string)
    requires FirstNewline(chunk) == |chunk|
    ensures Cut(open, chunk) == Reading([], open + chunk)
  {
    hide FirstNewline;
  }

  lemma CutAtNewline(open: string, chunk: string, n: nat)
    requires n == FirstNewline(chunk) < |chunk|
    ensures var later := Cut("", chunk[n + 1..]);
      Cut(open, chunk) == Reading([open + RStrip(chunk[..n])] + later.lines, later.open)
  {
    hide FirstNewline, RStrip;
  }

  lemma ConcatSlices(a: string, b: string, n: nat)
    requires n < |b|
    ensures (a + b)[|a| + n + 1..] == b[n + 1..] && (a + b)[..|a| + n] == a + b[..n]
  {
  }

  /** The line that spans two chunks, and the lines after it. */
  lemma FirstLineInTwo(open: string, a: string, c: string, later: seq<string>, split: bool)
    requires split <==> a != "" && a[|a| - 1] == '\r' && RStrip(c) == ""
    ensures var whole, second := [open + RStrip(a + c)] + later, [open + a + RStrip(c)] + later;
      (!split ==> whole == second) && (split ==> Total(whole) < Total(second))
  {
    StripInTwo(open, a, c);
    hide RStrip, Total;
    var x, y := open + RStrip(a + c), open + a + RStrip(c);
    TotalConcat([x], later);
    TotalConcat([y], later);
    TotalOne(x);
    TotalOne(y);
  }

  lemma TotalOne(line: string)
    ensures Total([line]) == |line|
  {
  }

  lemma OneLineInTwo(open: string, a: string, b: string)
    requires FirstNewline(a) == |a|
    ensures var second := Cut(open + a, b); var whole := Cut(open, a + b);
      && |whole.lines| == |second.lines| && whole.open == second.open
      && (!Splits(a, b) ==> whole.lines == second.lines)
      && (Splits(a, b) ==> Total(whole.lines) < Total(second.lines))
  {
    hide Cut, RStrip, Total, FirstNewline;
    FirstNewlineConcat(a, b);
    var n := FirstNewline(b);
    if n == |b| {
      CutOpen(open, a + b);
      CutOpen(open + a, b);
      assert open + (a + b) == open + a + b;
    } else {
      ConcatSlices(a, b, n);
      CutAtNewline(open, a + b, |a| + n);
      CutAtNewline(open + a, b, n);
      FirstLineInTwo(open, a, b[..n], Cut("", b[n + 1..]).lines, Splits(a, b));
    }
  }

  /** Any number of chunks against the whole text. */
  lemma {:induction false} AllChunks(open: string, chunks: seq<string>)
    ensures var cut := CutAll(open, chunks); var whole := Cut(open, Concat(chunks));
      && |whole.lines| == |cut.lines| && whole.open == cut.open
      && (CleanCuts(chunks) ==> whole.lines == cut.lines)
      && Total(whole.lines) <= Total(cut.lines)
      && (!CleanCuts(chunks) ==> Total(whole.lines) < Total(cut.lines))
    decreases |chunks|
  {
    if chunks == [] {
      assert open + "" == open;
    } else {
      var rest := Concat(chunks[1..]);
      var first := Cut(open, chunks[0]);
      AllChunks(first.open, chunks[1..]);
      TwoChunks(open, chunks[0], rest);
      TotalConcat(first.lines, Cut(first.open, rest).lines);
      TotalConcat(first.lines, CutAll(first.open, chunks[1..]).lines);
    }
  }

  // ---------------------------------------------------------------- the lines as they are emitted

  const PHRASE := "truncated bridge log line"

  const MARKER_START := " ... [" + PHRASE + " by "

  function Marker(omitted: int): string {
    MARKER_START + Decimal(omitted) + " chars]"
  }

  /** A line as it is shown: its first `cap` characters and a note on how many are missing. */
  function Shown(line: string, cap: nat): string {
    if |line| <= cap then line else line[..cap] + Marker(|line| - cap)
  }

  function ShownAll(lines: seq<string>, cap: nat): (r: seq<string>)
    ensures |r| == |lines| && forall i :: 0 <= i < |lines| ==> r[i] == Shown(lines[i], cap)
  {
    seq(|lines|, i requires 0 <= i < |lines| => Shown(lines[i], cap))
  }

  /** What a reading emits once the stream ends. */
  function Emitted(r: Reading, cap: nat): seq<string> {
    ShownAll(r.lines, cap) + if r.open == "" then [] else [Shown(r.open, cap)]
  }

  /** What a terminal is to show of a line: the line, if it is within the cap, or else its first
      characters, the note, and in it the number of the others. */
  ghost predicate ShownAs(line: string, cap: nat, text: string) {
    && (|line| <= cap ==> text == line)
    && (|line| > cap ==>
          exists digits :: Writes(digits, |line| - cap)
                           && text == line[..cap] + " ... [truncated bridge log line by " + digits + " chars]")
  }

  ghost predicate AllShownAs(lines: seq<string>, cap: nat, texts: seq<string>) {
    |texts| == |lines| && forall i :: 0 <= i < |lines| ==> ShownAs(lines[i], cap, texts[i])
  }

  lemma MarkedAs(line: string, cap: nat)
    requires |line| > cap
    ensures ShownAs(line, cap, line[..cap] + Marker(|line| - cap))
  {
    hide Decimal, DigitsValue;
    var digits := Decimal(|line| - cap);
    DecimalWrites(|line| - cap);
    NoteIs();
    InARow(line[..cap], " ... [truncated bridge log line by ", digits, " chars]");
  }

  lemma NoteIs()
    ensures MARKER_START == " ... [truncated bridge log line by "
  {
  }

  lemma InARow(a: string, b: string, c: string, d: string)
    ensures a + (b + c + d) == a + b + c + d
  {
  }

  lemma ShownIsExact(line: string, cap: nat)
    ensures ShownAs(line, cap, Shown(line, cap))
  {
    if |line| > cap {
      MarkedAs(line, cap);
    }
  }

  /** The lines of a reading once the stream ends. */
  function Closed(r: Reading): seq<string> {
    r.lines + if r.open == "" then [] else [r.open]
  }

  lemma EmittedIsExact(r: Reading, cap: nat)
    ensures AllShownAs(Closed(r), cap, Emitted(r, cap))
  {
    hide Shown, ShownAs;
    forall i | 0 <= i < |Closed(r)| ensures ShownAs(Closed(r)[i], cap, Emitted(r, cap)[i]) {
      ShownIsExact(Closed(r)[i], cap);
    }
  }

  lemma ShownTellsLength(s: string, t: string, cap: nat)
    requires Shown(s, cap) == Shown(t, cap)
    ensures |s| == |t|
  {
    if |s| > cap && |t| > cap {
      var m, n := Decimal(|s| - cap), Decimal(|t| - cap);
      assert Shown(s, cap)[cap..] == Marker(|s| - cap) && Shown(t, cap)[cap..] == Marker(|t| - cap);
      assert |m| == |n|;
      var k := |MARKER_START|;
      assert m == Marker(|s| - cap)[k..k + |m|] && n == Marker(|t| - cap)[k..k + |n|];
      DecimalIsInjective(|s| - cap, |t| - cap);
    }
  }

  lemma {:induction false} SameShownSameTotal(a: seq<string>, b: seq<string>, cap: nat)
    requires |a| == |b| && forall i :: 0 <= i < |a| ==> Shown(a[i], cap) == Shown(b[i], cap)
    ensures Total(a) == Total(b)
  {
    if a != [] {
      ShownTellsLength(a[0], b[0], cap);
      SameShownSameTotal(a[1..], b[1..], cap);
    }
  }

  /** The reader is independent of where the text is cut exactly when no cut falls inside the
      carriage returns before a newline. */
  lemma ChunksDoNotMatterIff(chunks: seq<string>, cap: nat)
    ensures Emitted(CutAll("", chunks), cap) == Emitted(Cut("", Concat(chunks)), cap) <==> CleanCuts(chunks)
  {
    AllChunks("", chunks);
    var cut, whole := CutAll("", chunks), Cut("", Concat(chunks));
    if Emitted(cut, cap) == Emitted(whole, cap) {
      forall i | 0 <= i < |cut.lines| ensures Shown(cut.lines[i], cap) == Shown(whole.lines[i], cap) {
        assert Emitted(cut, cap)[i] == Emitted(whole, cap)[i];
      }
      SameShownSameTotal(cut.lines, whole.lines, cap);
    }
  }

  lemma OneChunk(open: string, chunk: string)
    ensures CutAll(open, [chunk]) == Cut(open, chunk)
  {
    var later: seq<string> := [];
    assert [chunk][1..] == later;
    assert CutAll(Cut(open, chunk).open, later) == Reading([], Cut(open, chunk).open);
    assert Cut(open, chunk).lines + [] == Cut(open, chunk).lines;
  }

  lemma ConcatTwo(a: string, b: string)
    ensures Concat([a, b]) == a + b && Concat([a, b][1..]) == b
  {
    assert [a, b][1..] == [b] && [b][1..] == [];
    assert Concat([b]) == b + "" == b;
  }

  lemma TwoInARow(open: string, a: string, b: string)
    ensures var first := Cut(open, a); var second := Cut(first.open, b);
      CutAll(open, [a, b]) == Reading(first.lines + second.lines, second.open)
  {
    OneChunk(Cut(open, a).open, b);
    assert [a, b][1..] == [b];
  }

  lemma ReturnAlone()
    ensures Cut("", "x\r") == Reading([], "x\r") && Cut("x\r", "\n") == Reading(["x\r"], "")
  {
    assert "x\r"[1..] == "\r" && "\r"[1..] == "";
    assert "" + "x\r" == "x\r";
    assert "\n"[..0] == "" && "\n"[1..] == "";
    CutAtNewline("x\r", "\n", 0);
    assert "x\r" + "" == "x\r" && "" + "" == "";
  }

  lemma ReturnInside()
    ensures Cut("", "x\r\n") == Reading(["x"], "")
  {
    assert "x\r\n"[1..] == "\r\n" && "\r\n"[1..] == "\n";
    assert "x\r\n"[3..] == "" && "x\r\n"[..2] == "x\r" && "x\r"[..1] == "x";
    CutAtNewline("", "x\r\n", 2);
    assert "" + "x" == "x" && "" + "" == "";
  }

  /** The smallest input on which the cut shows, whatever the cap: a carriage return and its
      newline in two chunks. */
  lemma ReturnIsCutOff(cap: nat)
    ensures CutAll("", ["x\r", "\n"]) == Reading(["x\r"], "")
    ensures Cut("", Concat(["x\r", "\n"])) == Reading(["x"], "")
    ensures Emitted(CutAll("", ["x\r", "\n"]), cap) != Emitted(Cut("", Concat(["x\r", "\n"])), cap)
  {
    hide *;
    TwoInARow("", "x\r", "\n");
    ReturnAlone();
    ReturnInside();
    ConcatTwo("x\r", "\n");
    assert "x\r" + "\n" == "x\r\n";
    assert CutAll("", ["x\r", "\n"]) == Reading(["x\r"], "");
    DifferentLines("x\r", "x", cap);
  }

  lemma DifferentLines(x: string, y: string, cap: nat)
    requires |x| != |y|
    ensures Emitted(Reading([x], ""), cap) != Emitted(Reading([y], ""), cap)
  {
    if Shown(x, cap) == Shown(y, cap) {
      ShownTellsLength(x, y, cap);
    }
    hide Shown;
    assert Emitted(Reading([x], ""), cap)[0] == Shown(x, cap);
    assert Emitted(Reading([y], ""), cap)[0] == Shown(y, cap);
  }

  /** Text without carriage returns may be cut anywhere. */
  lemma {:induction false} NoReturnsCleanCuts(chunks: seq<string>)
    requires '\r' !in Concat(chunks)
    ensures CleanCuts(chunks)
  {
    if chunks != [] {
      assert forall c :: c in Concat(chunks[1..]) ==> c in Concat(chunks);
      assert chunks[0] != "" ==> chunks[0][|chunks[0]| - 1] in Concat(chunks);
      NoReturnsCleanCuts(chunks[1..]);
    }
  }

  /** The pieces of a text between its newlines. */
  function Pieces(text: string): (r: seq<string>)
    ensures r != []
    decreases |text|
  {
    var n := FirstNewline(text);
    if n == |text| then [text] else [text[..n]] + Pieces(text[n + 1..])
  }

  /** The pieces, all but the last one stripped of trailing returns. */
  function Stripped(parts: seq<string>): (r: seq<string>)
    ensures |r| == |parts| && forall i :: 0 <= i < |parts| ==> r[i] == if i < |parts| - 1 then RStrip(parts[i]) else parts[i]
  {
    seq(|parts|, i requires 0 <= i < |parts| => if i < |parts| - 1 then RStrip(parts[i]) else parts[i])
  }

  lemma StrippedCons(first: string, later: seq<string>)
    requires later != []
    ensures Stripped([first] + later) == [RStrip(first)] + Stripped(later)
  {
    hide RStrip;
    var all := [first] + later;
    forall i | 0 <= i < |all| ensures Stripped(all)[i] == ([RStrip(first)] + Stripped(later))[i] {
      if i > 0 {
        assert all[i] == later[i - 1] && ([RStrip(first)] + Stripped(later))[i] == Stripped(later)[i - 1];
      }
    }
  }

  lemma PiecesAt(text: string, n: nat)
    requires n == FirstNewline(text)
    ensures n == |text| ==> Pieces(text) == [text]
    ensures n < |text| ==> Pieces(text) == [text[..n]] + Pieces(text[n + 1..])
  {
    hide FirstNewline;
  }

  lemma OpenLast(line: string, later: Reading)
    ensures ["" + line] + later.lines + [later.open] == [line] + (later.lines + [later.open])
  {
    assert "" + line == line;
  }

  /** Reading a whole text gives its pieces, the last one open. */
  lemma {:induction false} WholeIsPieces(text: string)
    ensures Cut("", text).lines + [Cut("", text).open] == Stripped(Pieces(text))
    decreases |text|
  {
    var n := FirstNewline(text);
    PiecesAt(text, n);
    hide RStrip, FirstNewline, Pieces;
    if n < |text| {
      WholeIsPieces(text[n + 1..]);
      CutAtNewline("", text, n);
      hide Cut, Stripped;
      StrippedCons(text[..n], Pieces(text[n + 1..]));
      OpenLast(RStrip(text[..n]), Cut("", text[n + 1..]));
    } else {
      CutOpen("", text);
      assert "" + text == text;
    }
  }

  /** The pieces are what splitting at newlines gives. */
  lemma {:induction false} PiecesAreSplit(text: string)
    ensures Pieces(text) == Split(text, '\n')
    decreases |text|
  {
    if text != "" {
      PiecesAreSplit(text[1..]);
      PiecesCons(text[0], text[1..]);
      assert [text[0]] + text[1..] == text;
    }
  }

  lemma PiecesCons(c: char, rest: string)
    ensures Pieces([c] + rest) == if c == '\n' then [""] + Pieces(rest) else [[c] + Pieces(rest)[0]] + Pieces(rest)[1..]
  {
    var text := [c] + rest;
    assert text[1..] == rest;
    if c == '\n' {
      assert text[..0] == "";
    } else {
      var n := FirstNewline(rest);
      assert FirstNewline(text) == n + 1;
      if n < |rest| {
        assert text[..n + 1] == [c] + rest[..n] && text[n + 2..] == rest[n + 1..];
      }
    }
  }

  /** The pieces, each but the last without its trailing returns, the first one behind what was
      open. */
  ghost predicate AsPieces(open: string, parts: seq<string>, r: Reading) {
    && |r.lines| == |parts| - 1
    && (forall i :: 0 <= i < |r.lines| ==> r.lines[i] == (if i == 0 then open else "") + RStrip(parts[i]))
    && r.open == (if |parts| == 1 then open else "") + parts[|parts| - 1]
  }

  lemma PrependPiece(open: string, piece: string, later: seq<string>, r: Reading)
    requires AsPieces("", later, r) && later != []
    ensures AsPieces(open, [piece] + later, Reading([open + RStrip(piece)] + r.lines, r.open))
  {
    hide RStrip;
    var all, lines := [piece] + later, [open + RStrip(piece)] + r.lines;
    forall i | 0 <= i < |lines| ensures lines[i] == (if i == 0 then open else "") + RStrip(all[i]) {
      if i > 0 {
        assert all[i] == later[i - 1] && lines[i] == r.lines[i - 1];
      }
    }
  }

  /** One chunk read with a line open gives the pieces of the chunk between its newlines. */
  lemma {:induction false} CutIsPieces(open: string, chunk: string)
    ensures AsPieces(open, Split(chunk, '\n'), Cut(open, chunk))
    decreases |chunk|
  {
    PiecesAreSplit(chunk);
    var n := FirstNewline(chunk);
    PiecesAt(chunk, n);
    hide RStrip, FirstNewline, Pieces, Split;
    if n < |chunk| {
      CutAtNewline(open, chunk, n);
      CutIsPieces("", chunk[n + 1..]);
      PiecesAreSplit(chunk[n + 1..]);
      hide Cut;
      PrependPiece(open, chunk[..n], Split(chunk[n + 1..], '\n'), Cut("", chunk[n + 1..]));
    } else {
      CutOpen(open, chunk);
    }
  }

  /** Text cut anywhere but inside the returns before a newline comes out as its pieces between
      newlines, without their trailing returns, each cut to the cap with the number of the missing
      characters; the last piece is left as it is, and out if it is empty. */
  lemma ReaderIsExact(chunks: seq<string>, cap: nat)
    requires CleanCuts(chunks)
    ensures var parts := Stripped(Split(Concat(chunks), '\n')); var n := |parts| - 1;
      AllShownAs(parts[..n] + (if parts[n] == "" then [] else [parts[n]]), cap, Emitted(CutAll("", chunks), cap))
  {
    var text := Concat(chunks);
    ChunksDoNotMatterIff(chunks, cap);
    WholeIsPieces(text);
    PiecesAreSplit(text);
    hide Split, Pieces, Stripped, Emitted;
    var parts, whole := Stripped(Split(text, '\n')), Cut("", text);
    assert parts == whole.lines + [whole.open];
    EmittedIsExact(whole, cap);
  }
}
