/** Finding the objects in a run of concatenated objects by counting braces. */
module BraceScanner {
  import opened Wrappers

  // ---------------------------------------------------------------- the scanner

  datatype Scanner = Scanner(depth: int, start: Option<nat>, found: seq<string>)

  const AT_REST := Scanner(0, None, [])

  function Step(s: Scanner, raw: string, i: nat): Scanner
    requires i < |raw| && (s.start.Some? ==> s.start.value <= i)
  {
    if raw[i] == '{' then Scanner(s.depth + 1, if s.depth == 0 then Some(i) else s.start, s.found)
    else if raw[i] == '}' then
      if s.depth == 1 && s.start.Some? then Scanner(0, None, s.found + [raw[s.start.value..i + 1]])
      else s.(depth := s.depth - 1)
    else s
  }

  /** The scanner after the first n characters. */
  function Scanned(raw: string, n: nat): (s: Scanner)
    requires n <= |raw|
    ensures s.start.Some? ==> s.start.value < n
  {
    if n == 0 then AT_REST else Step(Scanned(raw, n - 1), raw, n - 1)
  }

  /** `_parse_fix_attempts_blob`: the candidates that parse as an attempt, in order. */
  method ParseFixAttempts(raw: string, usable: string -> bool) returns (attempts: seq<string>)
    ensures attempts == Usable(Scanned(raw, |raw|).found, usable)
  {
    attempts := [];
    var depth: int, start: Option<nat> := 0, None;
    ghost var found: seq<string> := [];
    for i := 0 to |raw|
      invariant Scanner(depth, start, found) == Scanned(raw, i)
      invariant attempts == Usable(found, usable)
    {
      if raw[i] == '{' {
        if depth == 0 {
          start := Some(i);
        }
        depth := depth + 1;
      } else if raw[i] == '}' {
        depth := depth - 1;
        if depth == 0 && start.Some? {
          var candidate := raw[start.value..i + 1];
          assert (found + [candidate])[..|found|] == found;
          if usable(candidate) {
            attempts := attempts + [candidate];
          }
          found := found + [candidate];
          start := None;
        }
      }
    }
  }

  function Usable(candidates: seq<string>, usable: string -> bool): seq<string> {
    if candidates == [] then []
    else
      var last := candidates[|candidates| - 1];
      Usable(candidates[..|candidates| - 1], usable) + if usable(last) then [last] else []
  }

  /** What is kept of candidates one after another is what is kept of each. */
  lemma {:induction false} UsableConcat(a: seq<string>, b: seq<string>, usable: string -> bool)
    ensures Usable(a + b, usable) == Usable(a, usable) + Usable(b, usable)
  {
    if b == [] {
      assert a + b == a;
    } else {
      var n := |b| - 1;
      UsableConcat(a, b[..n], usable);
      assert (a + b)[..|a| + n] == a + b[..n];
    }
  }

  lemma UsableOne(candidate: string, usable: string -> bool)
    ensures Usable([candidate], usable) == if usable(candidate) then [candidate] else []
  {
    assert [candidate][..0] == [];
  }

  // ---------------------------------------------------------------- concatenated objects

  function Depth(s: string): int {
    if s == "" then 0
    else
      var last := s[|s| - 1];
      Depth(s[..|s| - 1]) + if last == '{' then 1 else if last == '}' then -1 else 0
  }

  predicate BraceFree(s: string) {
    '{' !in s && '}' !in s
  }

  /** Text that opens a brace first and closes it last and not before. */
  predicate Balanced(s: string) {
    && s != "" && s[0] == '{' && Depth(s) == 0
    && forall k :: 0 < k < |s| ==> Depth(s[..k]) > 0
  }

  datatype Block = Block(filler: string, item: string)

  function TextOf(blocks: seq<Block>, tail: string): string {
    if blocks == [] then tail else blocks[0].filler + blocks[0].item + TextOf(blocks[1..], tail)
  }

  predicate WellFormed(blocks: seq<Block>, tail: string) {
    BraceFree(tail) && forall b :: b in blocks ==> BraceFree(b.filler) && Balanced(b.item)
  }

  function Objects(blocks: seq<Block>): (r: seq<string>)
    ensures |r| == |blocks| && forall i :: 0 <= i < |blocks| ==> r[i] == blocks[i].item
  {
    seq(|blocks|, i requires 0 <= i < |blocks| => blocks[i].item)
  }

  /** How many of the blocks lie within the first n characters. */
  function Within(blocks: seq<Block>, n: nat): (k: nat)
    ensures k <= |blocks|
  {
    if blocks == [] || |blocks[0].filler| + |blocks[0].item| > n then 0
    else 1 + Within(blocks[1..], n - |blocks[0].filler| - |blocks[0].item|)
  }

  // ---------------------------------------------------------------- what the scanner finds

  /** Text without braces changes nothing. */
  lemma {:induction false} SkipFiller(raw: string, i: nat, j: nat)
    requires i <= j <= |raw| && BraceFree(raw[i..j])
    ensures Scanned(raw, j) == Scanned(raw, i)
    decreases j
  {
    if i < j {
      assert raw[i..j][j - 1 - i] == raw[j - 1];
      assert forall c :: c in raw[i..j - 1] ==> c in raw[i..j];
      SkipFiller(raw, i, j - 1);
    }
  }

  /** Inside an object, the scanner is at the object's own depth and remembers where it began. */
  lemma {:induction false} InsideObject(raw: string, i: nat, k: nat, item: string)
    requires i < k <= |raw| && k - i < |item| && raw[i..k] == item[..k - i] && Balanced(item)
    requires Scanned(raw, i).depth == 0 && Scanned(raw, i).start.None?
    ensures Scanned(raw, k) == Scanner(Depth(item[..k - i]), Some(i), Scanned(raw, i).found)
    decreases k
  {
    assert raw[k - 1] == raw[i..k][k - 1 - i] == item[k - 1 - i];
    assert item[..k - i][..k - i - 1] == item[..k - i - 1];
    if k == i + 1 {
      assert item[..0] == "";
    } else {
      assert raw[i..k - 1] == item[..k - 1 - i] by {
        assert raw[i..k - 1] == raw[i..k][..k - 1 - i];
      }
      InsideObject(raw, i, k - 1, item);
      assert Depth(item[..k - i]) > 0;
    }
  }

  /** A whole object is found and leaves the scanner at rest. */
  lemma WholeObject(raw: string, i: nat, item: string)
    requires i + |item| <= |raw| && raw[i..i + |item|] == item && Balanced(item)
    requires Scanned(raw, i).depth == 0 && Scanned(raw, i).start.None?
    ensures Scanned(raw, i + |item|) == Scanner(0, None, Scanned(raw, i).found + [item])
  {
    var n := |item|;
    assert item[..n - 1] + [item[n - 1]] == item;
    assert n > 1 by {
      assert item[..0] == "";
    }
    assert raw[i..i + n - 1] == item[..n - 1] by {
      assert raw[i..i + n - 1] == raw[i..i + n][..n - 1];
    }
    InsideObject(raw, i, i + n - 1, item);
    assert raw[i + n - 1] == raw[i..i + n][n - 1] == item[n - 1];
    assert Depth(item[..n - 1]) > 0;
  }

  /** The filler before an object, or as much of it as there is. */
  lemma ScanFiller(raw: string, i: nat, filler: string, rest: string)
    requires i <= |raw| && raw[i..] <= filler + rest && BraceFree(filler)
    ensures |raw| - i <= |filler| ==> Scanned(raw, |raw|) == Scanned(raw, i)
    ensures |raw| - i > |filler| ==>
              Scanned(raw, i + |filler|) == Scanned(raw, i) && raw[i + |filler|..] <= rest
  {
    var all := filler + rest;
    if |raw| - i <= |filler| {
      assert raw[i..|raw|] == raw[i..] == filler[..|raw| - i];
      SkipFiller(raw, i, |raw|);
    } else {
      assert raw[i..i + |filler|] == raw[i..][..|filler|] == filler;
      SkipFiller(raw, i, i + |filler|);
      assert raw[i + |filler|..] == raw[i..][|filler|..];
    }
  }

  lemma {:induction false} ScanFrom(raw: string, i: nat, blocks: seq<Block>, tail: string)
    requires i <= |raw| && raw[i..] <= TextOf(blocks, tail)
    requires WellFormed(blocks, tail)
    requires Scanned(raw, i).depth == 0 && Scanned(raw, i).start.None?
    ensures Scanned(raw, |raw|).found == Scanned(raw, i).found + Objects(blocks)[..Within(blocks, |raw| - i)]
    decreases |blocks|
  {
    hide Scanned, Depth;
    if blocks == [] {
      assert tail + "" == tail;
      ScanFiller(raw, i, tail, "");
      assert Scanned(raw, |raw|).found == Scanned(raw, i).found;
    } else {
      var b, rest := blocks[0], TextOf(blocks[1..], tail);
      assert TextOf(blocks, tail) == b.filler + (b.item + rest);
      assert b in blocks && b.item != "";
      ScanFiller(raw, i, b.filler, b.item + rest);
      if |raw| - i > |b.filler| {
        var m := i + |b.filler|;
        ScanObject(raw, m, b.item, rest);
        if |raw| - m >= |b.item| {
          ScanFrom(raw, m + |b.item|, blocks[1..], tail);
          var k := Within(blocks[1..], |raw| - m - |b.item|);
          ObjectsAfter(blocks, k);
          FoundRegroup(Scanned(raw, i).found, b.item, Objects(blocks[1..])[..k]);
        }
      }
    }
  }

  lemma FoundRegroup(found: seq<string>, item: string, more: seq<string>)
    ensures found + [item] + more == found + ([item] + more)
  {
  }

  lemma ObjectsAfter(blocks: seq<Block>, k: nat)
    requires blocks != [] && k < |blocks|
    ensures Objects(blocks)[..k + 1] == [blocks[0].item] + Objects(blocks[1..])[..k]
  {
  }

  /** At the start of an object: it is found if all of it is there, and nothing is found otherwise. */
  lemma ScanObject(raw: string, m: nat, item: string, rest: string)
    requires m < |raw| && raw[m..] <= item + rest && Balanced(item)
    requires Scanned(raw, m).depth == 0 && Scanned(raw, m).start.None?
    ensures |raw| - m >= |item| ==>
              && Scanned(raw, m + |item|) == Scanner(0, None, Scanned(raw, m).found + [item])
              && raw[m + |item|..] <= rest
    ensures |raw| - m < |item| ==> Scanned(raw, |raw|).found == Scanned(raw, m).found
  {
    if |raw| - m >= |item| {
      assert raw[m..m + |item|] == raw[m..][..|item|] == item;
      assert raw[m + |item|..] == raw[m..][|item|..];
      WholeObject(raw, m, item);
    } else {
      assert raw[m..|raw|] == raw[m..] == item[..|raw| - m];
      InsideObject(raw, m, |raw|, item);
    }
  }

  /** On the first n characters of balanced objects separated by text without braces, the scanner
      finds exactly the objects that lie within them, in order. */
  lemma FindsWholeObjects(blocks: seq<Block>, tail: string, n: nat)
    requires WellFormed(blocks, tail) && n <= |TextOf(blocks, tail)|
    ensures Scanned(TextOf(blocks, tail)[..n], n).found == Objects(blocks)[..Within(blocks, n)]
  {
    var raw := TextOf(blocks, tail)[..n];
    assert raw[0..] == raw;
    ScanFrom(raw, 0, blocks, tail);
  }

  lemma {:induction false} AllWithin(blocks: seq<Block>, tail: string)
    ensures Within(blocks, |TextOf(blocks, tail)|) == |blocks|
  {
    if blocks != [] {
      AllWithin(blocks[1..], tail);
    }
  }

  /** On the whole text it finds every object. */
  lemma FindsAllObjects(blocks: seq<Block>, tail: string)
    requires WellFormed(blocks, tail)
    ensures Scanned(TextOf(blocks, tail), |TextOf(blocks, tail)|).found == Objects(blocks)
  {
    var text := TextOf(blocks, tail);
    FindsWholeObjects(blocks, tail, |text|);
    AllWithin(blocks, tail);
    assert text[..|text|] == text && Objects(blocks)[..|blocks|] == Objects(blocks);
  }
}
