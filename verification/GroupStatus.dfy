/** The state of the DAG groups, computed twice: once for the group list, from the checkpoint key
    of each group, and once for the repair metrics, from all checkpoint keys there are. */
module GroupStatus {
  import opened Text
  import opened Wrappers

  const PREFIX := "dag-group:"

  /** The checkpoint key of a group. */
  function GroupKey(i: nat): string {
    PREFIX + Decimal(i)
  }

  /** What the digit class of the key's pattern matches, with the values the digits have: at
      least the ten ASCII digits, and no newline. */
  predicate DigitTable(digits: map<char, nat>) {
    && (forall c :: IsDigit(c) ==> c in digits && digits[c] == c as int - '0' as int)
    && '\n' !in digits
  }

  predicate Digits(s: string, digits: map<char, nat>) {
    s != "" && forall i :: 0 <= i < |s| ==> s[i] in digits
  }

  function ValueIn(s: string, digits: map<char, nat>): nat {
    if s == "" then 0
    else
      var last := s[|s| - 1];
      10 * ValueIn(s[..|s| - 1], digits) + if last in digits then digits[last] else 0
  }

  /** The end of the pattern also matches before a newline that ends the key. */
  function Unended(s: string): string {
    if s != "" && s[|s| - 1] == '\n' then s[..|s| - 1] else s
  }

  /** The group a key is a checkpoint of, when it reads as one; leading zeros are not minded. */
  function GroupOfKey(key: string, digits: map<char, nat>): Option<nat> {
    if PREFIX <= key && Digits(Unended(key[|PREFIX|..]), digits) then Some(ValueIn(Unended(key[|PREFIX|..]), digits)) else None
  }

  /** The key spells the group in digits of the class, with a newline at its end or none. */
  predicate Spells(key: string, ds: string, digits: map<char, nat>) {
    Digits(ds, digits) && (key == "dag-group:" + ds || key == "dag-group:" + ds + "\n")
  }

  /** A key reads as a group exactly if it spells it. */
  lemma GroupOfKeyIff(key: string, digits: map<char, nat>)
    requires DigitTable(digits)
    ensures forall ds :: Spells(key, ds, digits) ==> GroupOfKey(key, digits) == Some(ValueIn(ds, digits))
    ensures GroupOfKey(key, digits).Some? ==> exists ds :: Spells(key, ds, digits) && GroupOfKey(key, digits).value == ValueIn(ds, digits)
  {
    forall ds | Spells(key, ds, digits) ensures GroupOfKey(key, digits) == Some(ValueIn(ds, digits)) {
      SpelledReads(key, ds, digits);
    }
    if GroupOfKey(key, digits).Some? {
      var rest := key[|PREFIX|..];
      var ds := Unended(rest);
      assert key == PREFIX + rest && (rest == ds || rest == ds + "\n");
      assert key == PREFIX + ds || key == PREFIX + ds + "\n";
      assert Spells(key, ds, digits);
    }
  }

  lemma SpelledReads(key: string, ds: string, digits: map<char, nat>)
    requires DigitTable(digits) && Spells(key, ds, digits)
    ensures GroupOfKey(key, digits) == Some(ValueIn(ds, digits))
  {
    hide ValueIn;
    var rest := key[|PREFIX|..];
    assert rest == ds || rest == ds + "\n";
    assert ds[|ds| - 1] != '\n';
    assert (ds + "\n")[..|ds|] == ds;
    assert Unended(rest) == ds;
  }

  lemma {:induction false} ValueOfAscii(s: string, digits: map<char, nat>)
    requires DigitTable(digits) && forall i :: 0 <= i < |s| ==> IsDigit(s[i])
    ensures ValueIn(s, digits) == DigitsValue(s)
  {
    if s != "" {
      ValueOfAscii(s[..|s| - 1], digits);
    }
  }

  lemma GroupKeyReads(i: nat, digits: map<char, nat>)
    requires DigitTable(digits)
    ensures GroupOfKey(GroupKey(i), digits) == Some(i)
  {
    NatText(i);
    assert GroupKey(i)[|PREFIX|..] == Decimal(i);
    ValueOfAscii(Decimal(i), digits);
  }

  datatype Status = Complete | Active | Pending

  // ---------------------------------------------------------------- the group list

  /** No key is missing before the group. */
  predicate AllBefore(keys: set<string>, i: nat) {
    forall k :: 0 <= k < i ==> GroupKey(k) in keys
  }

  /** The state a group should have: complete with its key, active when it is the first without. */
  function StatusOf(keys: set<string>, i: nat): Status {
    if GroupKey(i) in keys then Complete else if AllBefore(keys, i) then Active else Pending
  }

  /** The loop over the execution order, and the enhancement group appended after it. */
  method GroupStatuses(groups: nat, enhancement: bool, keys: set<string>) returns (statuses: seq<Status>)
    ensures |statuses| == groups + if enhancement then 1 else 0
    ensures forall i :: 0 <= i < |statuses| ==> statuses[i] == StatusOf(keys, i)
  {
    statuses := [];
    var activeFound := false;
    for i := 0 to groups
      invariant |statuses| == i && forall k :: 0 <= k < i ==> statuses[k] == StatusOf(keys, k)
      invariant activeFound <==> !AllBefore(keys, i)
    {
      if GroupKey(i) in keys {
        statuses := statuses + [Complete];
      } else if !activeFound {
        statuses := statuses + [Active];
        activeFound := true;
      } else {
        statuses := statuses + [Pending];
      }
    }
    if enhancement {
      var allDone := forall k :: 0 <= k < |statuses| ==> statuses[k] == Complete;
      forall k | 0 <= k < groups ensures statuses[k] == Complete <==> GroupKey(k) in keys {
        assert statuses[k] == StatusOf(keys, k);
      }
      assert allDone <==> AllBefore(keys, groups);
      if GroupKey(groups) in keys {
        statuses := statuses + [Complete];
      } else if allDone {
        statuses := statuses + [Active];
      } else {
        statuses := statuses + [Pending];
      }
    }
  }

  /** At most one group is active, and none is exactly when all are complete. */
  lemma OneActiveAtMost(statuses: seq<Status>, keys: set<string>)
    requires forall i :: 0 <= i < |statuses| ==> statuses[i] == StatusOf(keys, i)
    ensures forall i, j :: 0 <= i < j < |statuses| && statuses[i] == Active ==> statuses[j] != Active
    ensures (forall i :: 0 <= i < |statuses| ==> statuses[i] != Active) <==> (forall i :: 0 <= i < |statuses| ==> statuses[i] == Complete)
  {
    if forall i :: 0 <= i < |statuses| ==> statuses[i] != Active {
      forall i | 0 <= i < |statuses| ensures AllBefore(keys, i + 1) && statuses[i] == Complete {
        CompleteUpTo(statuses, keys, i);
      }
    }
  }

  lemma {:induction false} CompleteUpTo(statuses: seq<Status>, keys: set<string>, i: nat)
    requires i < |statuses| && forall k :: 0 <= k < |statuses| ==> statuses[k] == StatusOf(keys, k) && statuses[k] != Active
    ensures AllBefore(keys, i + 1) && statuses[i] == Complete
  {
    if i > 0 {
      CompleteUpTo(statuses, keys, i - 1);
    }
    assert statuses[i] == StatusOf(keys, i);
  }

  // ---------------------------------------------------------------- the repair metrics

  function CompletedGroups(keys: set<string>, digits: map<char, nat>): set<nat> {
    set k | k in keys && GroupOfKey(k, digits).Some? :: GroupOfKey(k, digits).value
  }

  /** The first group whose index no checkpoint key gives. */
  method ActiveGroupIndex(total: nat, keys: set<string>, digits: map<char, nat>) returns (active: Option<nat>)
    ensures active.Some? ==> active.value < total && active.value !in CompletedGroups(keys, digits)
    ensures forall i :: 0 <= i < total && (active.Some? ==> i < active.value) ==> i in CompletedGroups(keys, digits)
  {
    var completed := CompletedGroups(keys, digits);
    for i := 0 to total
      invariant forall k :: 0 <= k < i ==> k in completed
    {
      if i !in completed {
        return Some(i);
      }
    }
    active := None;
  }

  // ---------------------------------------------------------------- the two agree

  /** Every key that reads as a checkpoint of a group is that group's own key. */
  predicate OwnKeysOnly(keys: set<string>, digits: map<char, nat>) {
    forall k :: k in keys && GroupOfKey(k, digits).Some? ==> k == GroupKey(GroupOfKey(k, digits).value)
  }

  /** Where the active group is, if there is one. */
  function ActivePlace(statuses: seq<Status>): (r: Option<nat>)
    ensures r.Some? ==> r.value < |statuses| && statuses[r.value] == Active
    ensures r.None? ==> forall i :: 0 <= i < |statuses| ==> statuses[i] != Active
  {
    if statuses == [] then None
    else if statuses[|statuses| - 1] == Active then Some(|statuses| - 1)
    else ActivePlace(statuses[..|statuses| - 1])
  }

  lemma KeyedIsCompleted(keys: set<string>, digits: map<char, nat>, i: nat)
    requires DigitTable(digits)
    ensures GroupKey(i) in keys ==> i in CompletedGroups(keys, digits)
    ensures i in CompletedGroups(keys, digits) && OwnKeysOnly(keys, digits) ==> GroupKey(i) in keys
  {
    GroupKeyReads(i, digits);
  }

  /** The first group without its key is not completed by another spelling of that key. */
  ghost predicate NoOtherSpelling(total: nat, keys: set<string>, digits: map<char, nat>) {
    forall i: nat :: i < total && GroupKey(i) !in keys && AllBefore(keys, i) ==> i !in CompletedGroups(keys, digits)
  }

  /** Both computations on the same keys: they name the same active group exactly when no other
      spelling of the first missing key is among the keys: leading zeros, other digits, or a
      newline at the end. */
  method BothActive(groups: nat, enhancement: bool, keys: set<string>, digits: map<char, nat>)
    returns (statuses: seq<Status>, active: Option<nat>)
    requires DigitTable(digits)
    ensures |statuses| == groups + if enhancement then 1 else 0
    ensures forall i :: 0 <= i < |statuses| ==> statuses[i] == StatusOf(keys, i)
    ensures active == ActivePlace(statuses) <==> NoOtherSpelling(groups + if enhancement then 1 else 0, keys, digits)
    ensures OwnKeysOnly(keys, digits) ==> active == ActivePlace(statuses)
  {
    statuses := GroupStatuses(groups, enhancement, keys);
    active := ActiveGroupIndex(groups + if enhancement then 1 else 0, keys, digits);
    AgreeIff(statuses, active, keys, digits);
  }

  /** The active place is the first group without its key. */
  lemma ActiveIsFirstMissing(statuses: seq<Status>, keys: set<string>, i: nat)
    requires i < |statuses| && forall k :: 0 <= k < |statuses| ==> statuses[k] == StatusOf(keys, k)
    ensures ActivePlace(statuses) == Some(i) <==> GroupKey(i) !in keys && AllBefore(keys, i)
  {
    hide GroupKey;
    OneActiveAtMost(statuses, keys);
    assert statuses[i] == StatusOf(keys, i);
  }

  lemma NoneMissing(statuses: seq<Status>, keys: set<string>)
    requires forall k :: 0 <= k < |statuses| ==> statuses[k] == StatusOf(keys, k)
    ensures ActivePlace(statuses).None? ==> forall i :: 0 <= i < |statuses| ==> GroupKey(i) in keys
  {
    hide GroupKey;
    OneActiveAtMost(statuses, keys);
    if ActivePlace(statuses).None? {
      forall i | 0 <= i < |statuses| ensures GroupKey(i) in keys {
        assert statuses[i] == StatusOf(keys, i);
      }
    }
  }

  lemma AgreeIff(statuses: seq<Status>, active: Option<nat>, keys: set<string>, digits: map<char, nat>)
    requires DigitTable(digits)
    requires forall i :: 0 <= i < |statuses| ==> statuses[i] == StatusOf(keys, i)
    requires active.Some? ==> active.value < |statuses| && active.value !in CompletedGroups(keys, digits)
    requires forall i :: 0 <= i < |statuses| && (active.Some? ==> i < active.value) ==> i in CompletedGroups(keys, digits)
    ensures active == ActivePlace(statuses) <==> NoOtherSpelling(|statuses|, keys, digits)
    ensures OwnKeysOnly(keys, digits) ==> NoOtherSpelling(|statuses|, keys, digits)
  {
    hide CompletedGroups, GroupKey, StatusOf, ActivePlace, OwnKeysOnly, DigitTable, AllBefore;
    var place, completed := ActivePlace(statuses), CompletedGroups(keys, digits);
    forall i: nat
      ensures (GroupKey(i) in keys ==> i in completed) && (i in completed && OwnKeysOnly(keys, digits) ==> GroupKey(i) in keys)
    {
      KeyedIsCompleted(keys, digits, i);
    }
    NoneMissing(statuses, keys);
    forall i | 0 <= i < |statuses| ensures place == Some(i) <==> GroupKey(i) !in keys && AllBefore(keys, i) {
      ActiveIsFirstMissing(statuses, keys, i);
    }
    if place.Some? && active.Some? && active.value < place.value {
      BeforeActiveHasKey(statuses, keys, active.value);
    }
  }

  lemma BeforeActiveHasKey(statuses: seq<Status>, keys: set<string>, i: nat)
    requires forall k :: 0 <= k < |statuses| ==> statuses[k] == StatusOf(keys, k)
    requires ActivePlace(statuses).Some? && i < ActivePlace(statuses).value
    ensures GroupKey(i) in keys
  {
    hide GroupKey;
    assert statuses[ActivePlace(statuses).value] == StatusOf(keys, ActivePlace(statuses).value);
  }

  /** A key with a leading zero makes them differ: the group list has group 0 active, the index
      search finds no group left. */
  method LeadingZeroCountsToo(digits: map<char, nat>) returns (statuses: seq<Status>, active: Option<nat>)
    requires DigitTable(digits)
    ensures statuses == [Active] && active == None
  {
    var keys := {PREFIX + "00"};
    statuses := GroupStatuses(1, false, keys);
    active := ActiveGroupIndex(1, keys, digits);
    LeadingZeroReads(keys, digits);
    assert statuses[0] == StatusOf(keys, 0);
  }

  lemma LeadingZeroReads(keys: set<string>, digits: map<char, nat>)
    requires DigitTable(digits) && keys == {PREFIX + "00"}
    ensures StatusOf(keys, 0) == Active && 0 in CompletedGroups(keys, digits)
  {
    var key := PREFIX + "00";
    assert key[|PREFIX|..] == "00" == Unended("00");
    assert "00"[..1] == "0" && "0"[..0] == "";
    ValueOfAscii("00", digits);
    assert DigitsValue("0") == 0 && DigitsValue("00") == 0;
    assert GroupOfKey(key, digits) == Some(0);
    assert Decimal(0) == "0";
    assert |GroupKey(0)| != |key|;
  }
}
