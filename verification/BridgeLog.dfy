/** The bridge's log buffer, its reader loop, and the cursor endpoint the terminal polls. */
module BridgeLog {
  import opened Text
  import opened LogPipeline

  function Min(a: int, b: int): int {
    if a < b then a else b
  }

  predicate Mentions(line: string, phrase: string) {
    exists i :: 0 <= i <= |line| && phrase <= line[i..]
  }

  /** Every shortened line says so, and is counted as truncated. */
  lemma ShortenedIsCounted(line: string, cap: nat)
    requires |line| > cap
    ensures Mentions(Shown(line, cap), PHRASE)
  {
    var before, behind := line[..cap] + " ... [", " by " + Decimal(|line| - cap) + " chars]";
    assert Shown(line, cap) == before + PHRASE + behind;
    MentionsWithin(before, PHRASE, behind);
  }

  lemma MentionsWithin(before: string, phrase: string, behind: string)
    ensures Mentions(before + phrase + behind, phrase)
  {
    var all := before + phrase + behind;
    assert all[|before|..] == phrase + behind;
  }

  /** The pending text and the count of characters left out, for the whole line read so far. */
  function Capped(line: string, cap: nat): (string, nat) {
    if |line| <= cap then (line, 0) else (line[..cap], |line| - cap)
  }

  lemma ShownMeans(line: string, cap: nat)
    ensures |line| <= cap ==> Shown(line, cap) == line
    ensures |line| > cap ==> Shown(line, cap) == line[..cap] + Marker(|line| - cap)
  {
  }

  lemma CappedIsShown(line: string, cap: nat)
    ensures var (pending, truncated) := Capped(line, cap);
      Shown(line, cap) == if truncated > 0 then pending + Marker(truncated) else pending
  {
    hide Marker;
  }

  lemma CappedMore(line: string, fragment: string, cap: nat)
    ensures var room := cap - |Capped(line, cap).0|;
      Capped(line + fragment, cap) ==
        if |fragment| <= room then (Capped(line, cap).0 + fragment, Capped(line, cap).1)
        else (Capped(line, cap).0 + fragment[..room], Capped(line, cap).1 + |fragment| - room)
  {
    var room := cap - |Capped(line, cap).0|;
    if |line| <= cap && |fragment| > room {
      assert (line + fragment)[..cap] == line + fragment[..room];
    } else if |line| > cap {
      assert (line + fragment)[..cap] == line[..cap];
      assert line[..cap] + fragment[..room] == line[..cap];
    }
  }

  /** Appending to the newest lines and dropping the oldest of too many gives the newest again. */
  lemma BufferAfter(history: seq<string>, line: string, cap: nat)
    requires cap >= 1
    ensures var buffer := history[|history| - Min(|history|, cap)..] + [line]; var after := history + [line];
      var newest := after[|after| - Min(|after|, cap)..];
      && (|buffer| > cap ==> newest == buffer[|buffer| - cap..])
      && (|buffer| <= cap ==> newest == buffer)
  {
  }

  class BridgeManager {
    const lineCap: nat
    const bufferCap: nat
    var lines: seq<string>
    var lineCount: nat
    var truncatedLineCount: nat
    ghost var history: seq<string>  // every line ever appended

    constructor (lineCap: nat, bufferCap: nat)
      requires lineCap >= 1 && bufferCap >= 1
      ensures Valid() && history == [] && truncatedLineCount == 0
      ensures this.lineCap == lineCap && this.bufferCap == bufferCap
    {
      this.lineCap, this.bufferCap := lineCap, bufferCap;
      lines, lineCount, truncatedLineCount, history := [], 0, 0, [];
    }

    /** The buffer holds the newest lines and the count is the number of lines there ever were. */
    ghost predicate Valid()
      reads this
    {
      && lineCap >= 1 && bufferCap >= 1
      && lineCount == |history|
      && lines == history[|history| - Min(|history|, bufferCap)..]
    }

    method AppendLine(line: string, alreadyCapped: bool)
      requires Valid()
      modifies this
      ensures Valid() && history == old(history) + [if alreadyCapped then line else Shown(line, lineCap)]
      ensures !alreadyCapped ==> ShownAs(line, lineCap, history[|old(history)|])
      ensures truncatedLineCount ==
                old(truncatedLineCount) + if (if alreadyCapped then Mentions(line, PHRASE) else |line| > lineCap) then 1 else 0
    {
      ShownMeans(line, lineCap);
      ShownIsExact(line, lineCap);
      hide Mentions, Marker, Shown, ShownAs;
      var stored := line;
      if !alreadyCapped && |line| > lineCap {
        truncatedLineCount := truncatedLineCount + 1;
        stored := line[..lineCap] + Marker(|line| - lineCap);
      } else if alreadyCapped && Mentions(line, PHRASE) {
        truncatedLineCount := truncatedLineCount + 1;
      }
      Store(stored);
    }

    /** The buffer drops its oldest line when it is full. */
    method Store(line: string)
      requires Valid()
      modifies this`lines, this`lineCount, this`history
      ensures Valid() && history == old(history) + [line]
    {
      BufferAfter(history, line, bufferCap);
      lines := lines + [line];
      if |lines| > bufferCap {
        lines := lines[|lines| - bufferCap..];
      }
      lineCount := lineCount + 1;
      history := history + [line];
    }

    /** Adds a fragment to the line being read, of which only the first characters are kept. */
    method AppendLogFragment(pending: string, truncated: nat, fragment: string, ghost line: string)
      returns (pending': string, truncated': nat)
      requires (pending, truncated) == Capped(line, lineCap)
      ensures (pending', truncated') == Capped(line + fragment, lineCap)
    {
      pending', truncated' := pending, truncated;
      CappedMore(line, fragment, lineCap);
      if fragment == "" {
        assert line + fragment == line;
        return;
      }
      assert pending + fragment[..0] == pending && fragment[..|fragment|] == fragment;
      var remaining := if lineCap > |pending| then lineCap - |pending| else 0;
      if remaining > 0 {
        pending' := pending + if |fragment| < remaining then fragment else fragment[..remaining];
      }
      if |fragment| > remaining {
        truncated' := truncated + |fragment| - remaining;
      }
    }

    /** Emits the line read so far. */
    method EmitLogLine(pending: string, truncated: nat, ghost line: string)
      requires Valid() && (pending, truncated) == Capped(line, lineCap)
      modifies this
      ensures Valid() && history == old(history) + [Shown(line, lineCap)] && ShownAs(line, lineCap, history[|old(history)|])
      ensures truncatedLineCount == old(truncatedLineCount) + if Mentions(Shown(line, lineCap), PHRASE) then 1 else 0
    {
      CappedIsShown(line, lineCap);
      ShownIsExact(line, lineCap);
      hide Capped, Shown, ShownAs, Marker, Mentions;
      var text := pending;
      if truncated > 0 {
        text := pending + Marker(truncated);
      }
      AppendLine(text, true);
    }

    /** One chunk of the stream. */
    method ReadChunk(chunk: string, pending: string, truncated: nat, ghost open: string)
      returns (pending': string, truncated': nat)
      requires Valid() && (pending, truncated) == Capped(open, lineCap)
      modifies this
      ensures Valid() && (pending', truncated') == Capped(Cut(open, chunk).open, lineCap)
      ensures history == old(history) + ShownAll(Cut(open, chunk).lines, lineCap)
    {
      pending', truncated' := pending, truncated;
      var text := chunk;
      ghost var line := open;
      ghost var done: seq<string> := [];
      while text != ""
        invariant Valid() && (pending', truncated') == Capped(line, lineCap)
        invariant Cut(open, chunk) == Reading(done + Cut(line, text).lines, Cut(line, text).open)
        invariant history == old(history) + ShownAll(done, lineCap)
        decreases |text|
      {
        hide RStrip, Cut, ShownAll;
        var newline := FirstNewline(text);
        if newline == |text| {
          CutOpen(line, text);
          pending', truncated' := AppendLogFragment(pending', truncated', text, line);
          break;
        }
        EmitFragment(pending', truncated', RStrip(text[..newline]), line);
        CutAtNewline(line, text, newline);
        OneMoreLine(done, line + RStrip(text[..newline]), Cut("", text[newline + 1..]).lines, lineCap);
        done := done + [line + RStrip(text[..newline])];
        pending', truncated', line := "", 0, "";
        text := text[newline + 1..];
      }
      if text == "" {
        assert line + "" == line;
      }
      assert done + [] == done;
    }

    /** The last fragment of a line, and with it the line. */
    method EmitFragment(pending: string, truncated: nat, fragment: string, ghost line: string)
      requires Valid() && (pending, truncated) == Capped(line, lineCap)
      modifies this
      ensures Valid() && history == old(history) + [Shown(line + fragment, lineCap)]
    {
      var pending', truncated' := AppendLogFragment(pending, truncated, fragment, line);
      EmitLogLine(pending', truncated', line + fragment);
    }

    /** The lines of the first chunks are emitted and their open line is pending. */
    ghost predicate ReadSoFar(before: seq<string>, chunks: seq<string>, n: nat, pending: string, truncated: nat)
      requires n <= |chunks|
      reads this
    {
      && Valid() && (pending, truncated) == Capped(CutAll("", chunks[..n]).open, lineCap)
      && history == before + ShownAll(CutAll("", chunks[..n]).lines, lineCap)
    }

    method ReadNext(chunks: seq<string>, i: nat, pending: string, truncated: nat, ghost before: seq<string>)
      returns (pending': string, truncated': nat)
      requires i < |chunks| && ReadSoFar(before, chunks, i, pending, truncated)
      modifies this
      ensures ReadSoFar(before, chunks, i + 1, pending', truncated')
    {
      ghost var open := CutAll("", chunks[..i]).open;
      ghost var shown, more := ShownAll(CutAll("", chunks[..i]).lines, lineCap), ShownAll(Cut(open, chunks[i]).lines, lineCap);
      pending', truncated' := ReadChunk(chunks[i], pending, truncated, open);
      ReadOneMore(chunks, i, lineCap);
      Regroup(before, shown, more);
    }

    /** The reader loop, until the process closes its output. */
    method ReadChunks(chunks: seq<string>) returns (pending: string, truncated: nat)
      requires Valid()
      modifies this
      ensures ReadSoFar(old(history), chunks, |chunks|, pending, truncated)
    {
      pending, truncated := "", 0;
      for i := 0 to |chunks|
        invariant ReadSoFar(old(history), chunks, i, pending, truncated)
      {
        pending, truncated := ReadNext(chunks, i, pending, truncated, old(history));
      }
    }

    /** Everything read from one process: the lines of its output, then the exit note. */
    method ReadOutput(chunks: seq<string>, exitNote: string)
      requires Valid()
      modifies this
      ensures Valid()
      ensures history == old(history) + Emitted(CutAll("", chunks), lineCap) + [Shown(exitNote, lineCap)]
      ensures AllShownAs(Closed(CutAll("", chunks)) + [exitNote], lineCap, history[|old(history)|..])
    {
      var pending, truncated := ReadChunks(chunks);
      assert chunks[..|chunks|] == chunks;
      FinishOutput(pending, truncated, CutAll("", chunks).open);
      AppendLine(exitNote, false);
      ReadAndNoted(old(history), CutAll("", chunks), exitNote, lineCap);
    }

    /** The line still open when the stream ends is emitted unless it is empty. */
    method FinishOutput(pending: string, truncated: nat, ghost open: string)
      requires Valid() && (pending, truncated) == Capped(open, lineCap)
      modifies this
      ensures Valid() && history == old(history) + if open == "" then [] else [Shown(open, lineCap)]
    {
      if pending != "" || truncated > 0 {
        EmitLogLine(pending, truncated, open);
      }
    }

    /** The endpoint: the lines after the cursor that the buffer and the response limit allow. The
        lines it leaves out are exactly the ones it reports as dropped. */
    method BridgeLogs(after: int, responseCap: nat) returns (newLines: seq<string>, cursor: nat, earliest: nat, dropped: nat)
      requires Valid() && responseCap >= 1
      ensures cursor == |history| && earliest == |history| - |lines|
      ensures after >= cursor ==> newLines == [] && dropped == 0
      ensures after < cursor ==> |newLines| + dropped == cursor - after
      ensures after < cursor ==> |newLines| == Min(cursor - after, Min(|lines|, responseCap))
      ensures newLines == history[|history| - |newLines|..]
    {
      cursor := lineCount;
      earliest := if lineCount > |lines| then lineCount - |lines| else 0;
      newLines, dropped := [], 0;
      if after >= cursor {
        return;
      }
      var skip := cursor - after;
      dropped := if earliest > after then earliest - after else 0;
      newLines := if skip <= |lines| then lines[|lines| - skip..] else lines;
      if |newLines| > responseCap {
        dropped := dropped + |newLines| - responseCap;
        newLines := newLines[|newLines| - responseCap..];
      }
    }
  }

  lemma ReadAndNoted(before: seq<string>, r: Reading, exitNote: string, cap: nat)
    ensures AllShownAs(Closed(r) + [exitNote], cap, (before + Emitted(r, cap) + [Shown(exitNote, cap)])[|before|..])
  {
    EmittedIsExact(r, cap);
    ShownIsExact(exitNote, cap);
    hide Shown, ShownAs, Emitted, Closed;
    var after := before + Emitted(r, cap) + [Shown(exitNote, cap)];
    assert after[|before|..] == Emitted(r, cap) + [Shown(exitNote, cap)];
  }

  lemma EmittedMore(done: seq<string>, more: seq<string>, cap: nat)
    ensures ShownAll(done + more, cap) == ShownAll(done, cap) + ShownAll(more, cap)
  {
  }

  lemma ReadOneMore(chunks: seq<string>, i: nat, cap: nat)
    requires i < |chunks|
    ensures var before := CutAll("", chunks[..i]); var more := Cut(before.open, chunks[i]); var after := CutAll("", chunks[..i + 1]);
      after.open == more.open && ShownAll(after.lines, cap) == ShownAll(before.lines, cap) + ShownAll(more.lines, cap)
  {
    CutAllSnoc("", chunks[..i], chunks[i]);
    assert chunks[..i + 1] == chunks[..i] + [chunks[i]];
    EmittedMore(CutAll("", chunks[..i]).lines, Cut(CutAll("", chunks[..i]).open, chunks[i]).lines, cap);
  }

  lemma Regroup(a: seq<string>, b: seq<string>, c: seq<string>)
    ensures a + b + c == a + (b + c)
  {
  }

  lemma OneMoreLine(done: seq<string>, line: string, later: seq<string>, cap: nat)
    ensures ShownAll(done + [line], cap) == ShownAll(done, cap) + [Shown(line, cap)]
    ensures done + ([line] + later) == done + [line] + later
  {
    EmittedMore(done, [line], cap);
  }

  // ---------------------------------------------------------------- a terminal polling over time

  const DISPLAYED := 5000

  function Newest(lines: seq<string>): seq<string> {
    if |lines| > DISPLAYED then lines[|lines| - DISPLAYED..] else lines
  }

  /** What a terminal has: its cursor, the lines it was sent and those it still shows, how many
      were reported dropped, and where in the history each received line stands. */
  datatype Viewer = Viewer(cursor: nat, received: seq<string>, shown: seq<string>, dropped: nat, places: seq<nat>)

  datatype Event = Append(line: string) | Poll

  datatype Scene = Scene(history: seq<string>, viewer: Viewer)

  const FRESH := Viewer(0, [], [], 0, [])

  /** How many lines a poll returns. */
  function Returned(length: nat, cursor: nat, bufferCap: nat, responseCap: nat): nat
    requires bufferCap >= 1 && responseCap >= 1
  {
    if cursor >= length then 0 else Min(length - cursor, Min(Min(length, bufferCap), responseCap))
  }

  /** Appending a line, or one poll by the terminal. */
  function Step(s: Scene, e: Event, bufferCap: nat, responseCap: nat): Scene
    requires bufferCap >= 1 && responseCap >= 1
  {
    match e
    case Append(line) => s.(history := s.history + [line])
    case Poll =>
      var length, v := |s.history|, s.viewer;
      var n := Returned(length, v.cursor, bufferCap, responseCap);
      s.(viewer := Viewer(length, v.received + s.history[length - n..],
                          if n > 0 then Newest(v.shown + s.history[length - n..]) else v.shown,
                          if v.cursor >= length then v.dropped else v.dropped + (length - v.cursor - n),
                          v.places + seq(n, i requires 0 <= i < n => length - n + i)))
  }

  function Run(s: Scene, events: seq<Event>, bufferCap: nat, responseCap: nat): Scene
    requires bufferCap >= 1 && responseCap >= 1
  {
    if events == [] then s
    else Step(Run(s, events[..|events| - 1], bufferCap, responseCap), events[|events| - 1], bufferCap, responseCap)
  }

  /** One poll of the endpoint is one poll step of the terminal. */
  method PollOnce(manager: BridgeManager, viewer: Viewer, responseCap: nat) returns (viewer': Viewer)
    requires manager.Valid() && responseCap >= 1
    ensures viewer' == Step(Scene(manager.history, viewer), Poll, manager.bufferCap, responseCap).viewer
  {
    var newLines, cursor, earliest, dropped := manager.BridgeLogs(viewer.cursor, responseCap);
    var n := |newLines|;
    viewer' := Viewer(cursor, viewer.received + newLines, if n > 0 then Newest(viewer.shown + newLines) else viewer.shown,
                      viewer.dropped + dropped,
                      viewer.places + seq(n, i requires 0 <= i < n => cursor - n + i));
  }

  ghost predicate ViewerOk(s: Scene) {
    var v := s.viewer;
    && v.cursor <= |s.history|
    && |v.received| + v.dropped == v.cursor
    && v.shown == Newest(v.received)
    && |v.places| == |v.received|
    && (forall i :: 0 <= i < |v.places| ==> v.places[i] < v.cursor && v.received[i] == s.history[v.places[i]])
    && (forall i, j :: 0 <= i < j < |v.places| ==> v.places[i] < v.places[j])
  }

  lemma StepKeepsViewer(s: Scene, e: Event, bufferCap: nat, responseCap: nat)
    requires ViewerOk(s) && bufferCap >= 1 && responseCap >= 1
    ensures ViewerOk(Step(s, e, bufferCap, responseCap))
  {
    if e.Poll? {
      var n := Returned(|s.history|, s.viewer.cursor, bufferCap, responseCap);
      NewestMore(s.viewer.received, s.history[|s.history| - n..]);
    }
    hide Newest;
  }

  /** Cutting to the newest lines at every poll is the same as cutting once. */
  lemma NewestMore(received: seq<string>, more: seq<string>)
    ensures Newest(Newest(received) + more) == Newest(received + more)
    ensures more == [] ==> Newest(received) == Newest(received + more)
  {
    var cut := if |received| > DISPLAYED then |received| - DISPLAYED else 0;
    var older, kept := received[..cut], received[cut..];
    assert received == older + kept && kept == Newest(received);
    assert older + kept + more == older + (kept + more);
    if more == [] {
      assert received + more == received;
    }
    if cut == 0 {
      assert kept == received;
    } else {
      hide Newest;
      NewestOfLonger(older, kept + more);
    }
  }

  lemma NewestOfLonger(older: seq<string>, lines: seq<string>)
    requires |lines| >= DISPLAYED
    ensures Newest(older + lines) == Newest(lines)
  {
    var all := older + lines;
    assert all[|all| - DISPLAYED..] == lines[|lines| - DISPLAYED..];
  }

  /** Over any run of appended lines and polls from cursor zero: received plus dropped is the
      cursor, the received lines stand at increasing places of the history, so they come in
      order and none comes twice, and the newest of them are shown. */
  lemma {:induction false} NothingUnaccounted(events: seq<Event>, bufferCap: nat, responseCap: nat)
    requires bufferCap >= 1 && responseCap >= 1
    ensures ViewerOk(Run(Scene([], FRESH), events, bufferCap, responseCap))
  {
    if events != [] {
      NothingUnaccounted(events[..|events| - 1], bufferCap, responseCap);
      StepKeepsViewer(Run(Scene([], FRESH), events[..|events| - 1], bufferCap, responseCap), events[|events| - 1],
                      bufferCap, responseCap);
    }
  }

  /** A terminal that polls often enough misses nothing: if each poll comes before the buffer or
      the response limit is exceeded, what it received is the whole history up to its cursor. */
  lemma {:induction false} PromptPollsMissNothing(events: seq<Event>, bufferCap: nat, responseCap: nat)
    requires bufferCap >= 1 && responseCap >= 1
    requires forall k :: 0 <= k < |events| && events[k].Poll? ==>
               var s := Run(Scene([], FRESH), events[..k], bufferCap, responseCap);
               |s.history| - s.viewer.cursor <= Min(bufferCap, responseCap)
    ensures var s := Run(Scene([], FRESH), events, bufferCap, responseCap);
      s.viewer.dropped == 0 && s.viewer.cursor <= |s.history| && s.viewer.received == s.history[..s.viewer.cursor]
  {
    if events != [] {
      var before := events[..|events| - 1];
      forall k | 0 <= k < |before| && before[k].Poll?
        ensures var s := Run(Scene([], FRESH), before[..k], bufferCap, responseCap);
                |s.history| - s.viewer.cursor <= Min(bufferCap, responseCap)
      {
        assert before[..k] == events[..k];
      }
      PromptPollsMissNothing(before, bufferCap, responseCap);
      var s := Run(Scene([], FRESH), before, bufferCap, responseCap);
      assert s.history == s.history[..s.viewer.cursor] + s.history[s.viewer.cursor..];
    }
  }
}
