/** Flattening a JSON payload into dotted fields for a script's environment, against dotted lookup. */
module Flatten {
  import opened Json
  import opened Text
  import Decimal

  type Entries = seq<(string, string)>

  /** The name of a child under a prefix. */
  function Child(prefix: string, key: string): string {
    if prefix == "" then key else prefix + "." + key
  }

  /** The entries of a value under a prefix; `n` counts the children done so far. */
  function Flat(value: Json, prefix: string): Entries
    decreases value, 1, 0
  {
    match value
    case Object(fields) => FlatChildren(value, prefix, |fields|)
    case Array(items) => FlatChildren(value, prefix, |items|)
    case Text(text) => if prefix == "" then [] else [(prefix, text)]
    case Number(digits) => if prefix == "" then [] else [(prefix, digits)]
    case Bool(b) => if prefix == "" then [] else [(prefix, if b then "true" else "false")]
    case Null => []
  }

  function FlatChildren(value: Json, prefix: string, n: nat): Entries
    requires value.Object? ==> n <= |value.fields|
    requires value.Array? ==> n <= |value.items|
    requires value.Object? || value.Array?
    decreases value, 0, n
  {
    if n == 0 then []
    else
      FlatChildren(value, prefix, n - 1)
      + if value.Object? then Flat(value.fields[n - 1].1, Child(prefix, value.fields[n - 1].0))
        else Flat(value.items[n - 1], Child(prefix, Decimal.Print(n - 1)))
  }

  lemma NextField(value: Json, prefix: string, i: nat)
    requires value.Object? && i < |value.fields|
    ensures FlatChildren(value, prefix, i + 1)
            == FlatChildren(value, prefix, i) + Flat(value.fields[i].1, Child(prefix, value.fields[i].0))
  {
  }

  lemma NextItem(value: Json, prefix: string, i: nat)
    requires value.Array? && i < |value.items|
    ensures FlatChildren(value, prefix, i + 1)
            == FlatChildren(value, prefix, i) + Flat(value.items[i], Child(prefix, Decimal.Print(i)))
  {
  }

  /** The vector that the recursion pushes onto. */
  class Collector {
    var result: Entries

    constructor ()
      ensures result == []
    {
      result := [];
    }

    method Push(name: string, text: string)
      modifies this
      ensures result == old(result) + (if name == "" then [] else [(name, text)])
    {
      if name != "" {
        result := result + [(name, text)];
      }
    }

    method FlattenRecursive(value: Json, prefix: string)
      modifies this
      ensures result == old(result) + Flat(value, prefix)
      decreases value, 1
    {
      match value
      case Object(_) => FlattenObject(value, prefix);
      case Array(_) => FlattenArray(value, prefix);
      case Text(text) => Push(prefix, text);
      case Number(digits) => Push(prefix, digits);
      case Bool(b) => Push(prefix, if b then "true" else "false");
      case Null =>
    }

    method FlattenObject(value: Json, prefix: string)
      requires value.Object?
      modifies this
      ensures result == old(result) + FlatChildren(value, prefix, |value.fields|)
      decreases value, 0
    {
      for i := 0 to |value.fields|
        invariant result == old(result) + FlatChildren(value, prefix, i)
      {
        var (key, child) := value.fields[i];
        FlattenRecursive(child, Child(prefix, key));
        NextField(value, prefix, i);
        Regroup(old(result), FlatChildren(value, prefix, i), Flat(child, Child(prefix, key)));
      }
    }

    method FlattenArray(value: Json, prefix: string)
      requires value.Array?
      modifies this
      ensures result == old(result) + FlatChildren(value, prefix, |value.items|)
      decreases value, 0
    {
      for i := 0 to |value.items|
        invariant result == old(result) + FlatChildren(value, prefix, i)
      {
        var name := Child(prefix, Decimal.Print(i));
        FlattenRecursive(value.items[i], name);
        NextItem(value, prefix, i);
        Regroup(old(result), FlatChildren(value, prefix, i), Flat(value.items[i], name));
      }
    }
  }

  method FlattenJsonFields(value: Json) returns (result: Entries)
    ensures result == Flat(value, "")
  {
    var collector := new Collector();
    collector.FlattenRecursive(value, "");
    result := collector.result;
  }

  // ----- Array-free values with ordinary keys -----

  predicate GoodKey(key: string) {
    key != "" && '.' !in key
  }

  /** No arrays, and every key is non-empty, without a dot, and given once. */
  predicate Tame(value: Json) {
    match value
    case Object(fields) => DistinctKeys(fields) && forall i :: 0 <= i < |fields| ==> GoodKey(fields[i].0) && Tame(fields[i].1)
    case Array(_) => false
    case _ => true
  }

  predicate GoodKeys(keys: seq<string>) {
    forall i :: 0 <= i < |keys| ==> GoodKey(keys[i])
  }

  lemma {:induction false} JoinMore(keys: seq<string>, key: string)
    requires GoodKeys(keys)
    ensures JoinWith(keys + [key], '.') == Child(JoinWith(keys, '.'), key)
    ensures JoinWith(keys, '.') == "" <==> keys == []
  {
    if keys == [] {
      assert keys + [key] == [key];
    } else if |keys| == 1 {
      assert (keys + [key])[1..] == [key];
    } else {
      assert (keys + [key])[1..] == keys[1..] + [key];
      JoinMore(keys[1..], key);
    }
  }

  // ----- Entries by key list -----

  type KeyEntries = seq<(seq<string>, string)>

  function TextOf(value: Json): string {
    ValueToString(value, _ => "")
  }

  /** The entries named by lists of keys: every non-null scalar below the root. */
  function ByKeys(value: Json, keys: seq<string>): KeyEntries
    requires Tame(value)
    decreases value, 1, 0
  {
    if value.Object? then ByKeysChildren(value, keys, |value.fields|)
    else if IsScalar(value) && keys != [] then [(keys, TextOf(value))]
    else []
  }

  function ByKeysChildren(value: Json, keys: seq<string>, n: nat): KeyEntries
    requires Tame(value) && value.Object? && n <= |value.fields|
    decreases value, 0, n
  {
    if n == 0 then []
    else ByKeysChildren(value, keys, n - 1) + ByKeys(value.fields[n - 1].1, keys + [value.fields[n - 1].0])
  }

  function Named(entries: KeyEntries): Entries {
    seq(|entries|, i requires 0 <= i < |entries| => (JoinWith(entries[i].0, '.'), entries[i].1))
  }

  lemma NamedConcat(front: KeyEntries, back: KeyEntries)
    ensures Named(front + back) == Named(front) + Named(back)
  {
  }

  /** The code's entries are those, with the keys joined by dots. */
  lemma {:induction false} FlatIsNamed(value: Json, keys: seq<string>)
    requires Tame(value) && GoodKeys(keys)
    ensures Flat(value, JoinWith(keys, '.')) == Named(ByKeys(value, keys))
    decreases value, 1, 0
  {
    JoinMore(keys, "");
    if value.Object? {
      FlatChildrenIsNamed(value, keys, |value.fields|);
    }
  }

  lemma {:induction false} FlatChildrenIsNamed(value: Json, keys: seq<string>, n: nat)
    requires Tame(value) && value.Object? && n <= |value.fields| && GoodKeys(keys)
    ensures FlatChildren(value, JoinWith(keys, '.'), n) == Named(ByKeysChildren(value, keys, n))
    decreases value, 0, n
  {
    if n > 0 {
      var (key, child) := value.fields[n - 1];
      FlatChildrenIsNamed(value, keys, n - 1);
      JoinMore(keys, key);
      FlatIsNamed(child, keys + [key]);
      NextField(value, JoinWith(keys, '.'), n - 1);
      NamedConcat(ByKeysChildren(value, keys, n - 1), ByKeys(child, keys + [key]));
    }
  }

  // ----- Counting -----

  function Count(entries: KeyEntries, keys: seq<string>): nat {
    if entries == [] then 0
    else Count(entries[..|entries| - 1], keys) + if entries[|entries| - 1].0 == keys then 1 else 0
  }

  lemma {:induction false} CountConcat(front: KeyEntries, back: KeyEntries, keys: seq<string>)
    ensures Count(front + back, keys) == Count(front, keys) + Count(back, keys)
  {
    if back == [] {
      assert front + back == front;
    } else {
      assert (front + back)[..|front + back| - 1] == front + back[..|back| - 1];
      CountConcat(front, back[..|back| - 1], keys);
    }
  }

  /** The value that the rest of the key list leads to, if it is a non-null scalar. */
  predicate LeadsToScalar(value: Json, keys: seq<string>, target: seq<string>) {
    && keys <= target && target != []
    && var found := Walk(value, target[|keys|..]); found.Some? && IsScalar(found.value)
  }

  lemma WalkScalar(value: Json, rest: seq<string>)
    requires !value.Object?
    ensures Walk(value, rest).Some? <==> rest == []
  {
    if rest != [] {
      WalkFirst(value, rest[0], rest[1..]);
      assert rest == [rest[0]] + rest[1..];
    }
  }

  /** A key list occurs once if it leads to a scalar, and otherwise not at all. */
  lemma {:induction false} CountOfKeys(value: Json, keys: seq<string>, target: seq<string>)
    requires Tame(value)
    ensures Count(ByKeys(value, keys), target) == if LeadsToScalar(value, keys, target) then 1 else 0
    decreases value, 1, 0
  {
    if value.Object? {
      CountOfChildren(value, keys, target, |value.fields|);
      if keys <= target && target != keys {
        var rest := target[|keys|..];
        WalkFirst(value, rest[0], rest[1..]);
        assert rest == [rest[0]] + rest[1..];
      }
    } else {
      if keys <= target {
        WalkScalar(value, target[|keys|..]);
        assert target[|keys|..] == [] <==> target == keys;
      }
      assert ByKeys(value, keys) != [] ==> ByKeys(value, keys)[..0] == [];
    }
  }

  /** Among the first `n` fields at most the one with the next key of the target contributes. */
  lemma {:induction false} CountOfChildren(value: Json, keys: seq<string>, target: seq<string>, n: nat)
    requires Tame(value) && value.Object? && n <= |value.fields|
    ensures Count(ByKeysChildren(value, keys, n), target)
            == if exists i :: 0 <= i < n && LeadsToScalar(value.fields[i].1, keys + [value.fields[i].0], target) then 1 else 0
    decreases value, 0, n
  {
    if n > 0 {
      var key, child := value.fields[n - 1].0, value.fields[n - 1].1;
      CountOfChildren(value, keys, target, n - 1);
      CountOfKeys(child, keys + [key], target);
      CountConcat(ByKeysChildren(value, keys, n - 1), ByKeys(child, keys + [key]), target);
      if LeadsToScalar(child, keys + [key], target) {
        assert target[|keys|] == key;
        forall i | 0 <= i < n - 1 ensures !LeadsToScalar(value.fields[i].1, keys + [value.fields[i].0], target) {
          assert value.fields[i].0 != key;
          assert (keys + [value.fields[i].0])[|keys|] == value.fields[i].0;
        }
      }
    }
  }

  /** Every entry carries the text of the value its keys lead to. */
  lemma {:induction false} TextOfEntry(value: Json, keys: seq<string>, i: nat)
    requires Tame(value) && GoodKeys(keys) && i < |ByKeys(value, keys)|
    ensures var entry := ByKeys(value, keys)[i];
      && GoodKeys(entry.0) && LeadsToScalar(value, keys, entry.0)
      && entry.1 == TextOf(Walk(value, entry.0[|keys|..]).value)
    decreases value, 1, 0
  {
    if value.Object? {
      TextOfChildEntry(value, keys, |value.fields|, i);
    } else {
      assert keys[|keys|..] == [];
    }
  }

  lemma {:induction false} TextOfChildEntry(value: Json, keys: seq<string>, n: nat, i: nat)
    requires Tame(value) && GoodKeys(keys) && value.Object? && n <= |value.fields| && i < |ByKeysChildren(value, keys, n)|
    ensures var entry := ByKeysChildren(value, keys, n)[i];
      && GoodKeys(entry.0) && LeadsToScalar(value, keys, entry.0)
      && entry.1 == TextOf(Walk(value, entry.0[|keys|..]).value)
    decreases value, 0, n
  {
    var before := ByKeysChildren(value, keys, n - 1);
    if i < |before| {
      TextOfChildEntry(value, keys, n - 1, i);
    } else {
      var key, child := value.fields[n - 1].0, value.fields[n - 1].1;
      TextOfEntry(child, keys + [key], i - |before|);
      ChildLeads(value, keys, n - 1, ByKeysChildren(value, keys, n)[i].0);
    }
  }

  /** What a field leads to, its object leads to. */
  lemma ChildLeads(value: Json, keys: seq<string>, i: nat, target: seq<string>)
    requires Tame(value) && value.Object? && i < |value.fields|
    requires LeadsToScalar(value.fields[i].1, keys + [value.fields[i].0], target)
    ensures LeadsToScalar(value, keys, target)
    ensures Walk(value, target[|keys|..]) == Walk(value.fields[i].1, target[|keys| + 1..])
  {
    var key := value.fields[i].0;
    assert (keys + [key])[|keys|] == key && (keys + [key])[..|keys|] == keys;
    var rest := target[|keys| + 1..];
    assert target[|keys|..] == [key] + rest;
    WalkFirst(value, key, rest);
  }

  function CountName(entries: Entries, name: string): nat {
    if entries == [] then 0
    else CountName(entries[..|entries| - 1], name) + if entries[|entries| - 1].0 == name then 1 else 0
  }

  /** Names and key lists are in step: the dots of a name are exactly its joints. */
  lemma {:induction false} CountNamed(entries: KeyEntries, name: string)
    requires forall i :: 0 <= i < |entries| ==> entries[i].0 != [] && GoodKeys(entries[i].0)
    ensures CountName(Named(entries), name) == Count(entries, SplitAt(name, '.'))
  {
    if entries != [] {
      var init, last := entries[..|entries| - 1], entries[|entries| - 1];
      assert Named(entries)[..|entries| - 1] == Named(init);
      assert forall i :: 0 <= i < |init| ==> init[i] == entries[i];
      CountNamed(init, name);
      SplitOfJoin(last.0, '.');
      JoinOfSplit(name, '.');
    }
  }

  /**
   Flattening agrees with lookup: for a payload without arrays and with ordinary keys, a path is listed
   exactly once if looking it up gives a non-null scalar, with the text of that scalar, and otherwise
   not at all.
   */
  lemma FlattenMatchesLookup(root: Json, path: string)
    requires Tame(root)
    ensures var found := Resolve(root, path);
      && CountName(Flat(root, ""), path) == (if found.Some? && IsScalar(found.value) then 1 else 0)
      && forall i :: 0 <= i < |Flat(root, "")| && Flat(root, "")[i].0 == path ==>
           found.Some? && IsScalar(found.value) && Flat(root, "")[i].1 == TextOf(found.value)
  {
    var entries, target := ByKeys(root, []), SplitAt(path, '.');
    FlatIsNamed(root, []);
    forall i | 0 <= i < |entries| ensures entries[i].0 != [] && GoodKeys(entries[i].0) {
      TextOfEntry(root, [], i);
    }
    CountNamed(entries, path);
    CountOfKeys(root, [], target);
    assert target[0..] == target;
    forall i | 0 <= i < |entries| && Flat(root, "")[i].0 == path
      ensures Resolve(root, path).Some? && IsScalar(Resolve(root, path).value) && entries[i].1 == TextOf(Resolve(root, path).value)
    {
      TextOfEntry(root, [], i);
      SplitOfJoin(entries[i].0, '.');
      assert entries[i].0[0..] == entries[i].0;
    }
  }

  // ----- Arrays -----

  /** Entry `i` of an array of texts is named after the array and `i`, counted from 0. */
  lemma {:induction false} TextArray(items: seq<Json>, prefix: string, n: nat)
    requires n <= |items| && prefix != "" && forall i :: 0 <= i < |items| ==> items[i].Text?
    ensures FlatChildren(Array(items), prefix, n)
            == seq(n, i requires 0 <= i < n => (prefix + "." + Decimal.Print(i), items[i].text))
  {
    if n > 0 {
      TextArray(items, prefix, n - 1);
    }
  }

  /** The value with every array as an object whose keys are the places of the items, counted from 0. */
  function Unrolled(value: Json): Json {
    match value
    case Array(items) => Object(seq(|items|, i requires 0 <= i < |items| => (Decimal.Print(i), Unrolled(items[i]))))
    case Object(fields) =>
      Object(seq(|fields|, i requires 0 <= i < |fields| => (fields[i].0, Unrolled(fields[i].1))))
    case _ => value
  }

  /** A value with ordinary keys, arrays included. */
  predicate Ordinary(value: Json) {
    match value
    case Object(fields) => DistinctKeys(fields) && forall i :: 0 <= i < |fields| ==> GoodKey(fields[i].0) && Ordinary(fields[i].1)
    case Array(items) => forall i :: 0 <= i < |items| ==> Ordinary(items[i])
    case _ => true
  }

  lemma PlaceKeys(i: nat, j: nat)
    ensures GoodKey(Decimal.Print(i)) && (Decimal.Print(i) == Decimal.Print(j) ==> i == j)
  {
    Decimal.ReadOfPrint(i);
    Decimal.ReadOfPrint(j);
  }

  lemma {:induction false} UnrolledTame(value: Json)
    requires Ordinary(value)
    ensures Tame(Unrolled(value))
  {
    match value
    case Array(items) =>
      forall i | 0 <= i < |items| ensures Tame(Unrolled(items[i])) {
        UnrolledTame(items[i]);
      }
      forall i: nat, j: nat ensures GoodKey(Decimal.Print(i)) && (Decimal.Print(i) == Decimal.Print(j) ==> i == j) {
        PlaceKeys(i, j);
      }
    case Object(fields) =>
      forall i | 0 <= i < |fields| ensures Tame(Unrolled(fields[i].1)) {
        UnrolledTame(fields[i].1);
      }
    case _ =>
  }

  /** Flattening does not tell an array from the object of its items by place. */
  lemma {:induction false} FlatUnrolled(value: Json, prefix: string)
    ensures Flat(value, prefix) == Flat(Unrolled(value), prefix)
    decreases value, 1, 0
  {
    match value
    case Array(items) => FlatChildrenUnrolled(value, prefix, |items|);
    case Object(fields) => FlatChildrenUnrolled(value, prefix, |fields|);
    case _ =>
  }

  lemma {:induction false} FlatChildrenUnrolled(value: Json, prefix: string, n: nat)
    requires value.Object? ==> n <= |value.fields|
    requires value.Array? ==> n <= |value.items|
    requires value.Object? || value.Array?
    ensures FlatChildren(value, prefix, n) == FlatChildren(Unrolled(value), prefix, n)
    decreases value, 0, n
  {
    if n > 0 {
      FlatChildrenUnrolled(value, prefix, n - 1);
      if value.Object? {
        FlatUnrolled(value.fields[n - 1].1, Child(prefix, value.fields[n - 1].0));
      } else {
        FlatUnrolled(value.items[n - 1], Child(prefix, Decimal.Print(n - 1)));
      }
    }
  }

  /**
   The same for every payload with ordinary keys, arrays included, with the items of an array looked up by their
   place.
   */
  lemma FlattenMatchesPlaces(root: Json, path: string)
    requires Ordinary(root)
    ensures var found := Resolve(Unrolled(root), path);
      && CountName(Flat(root, ""), path) == (if found.Some? && IsScalar(found.value) then 1 else 0)
      && forall i :: 0 <= i < |Flat(root, "")| && Flat(root, "")[i].0 == path ==>
           found.Some? && IsScalar(found.value) && Flat(root, "")[i].1 == TextOf(found.value)
  {
    UnrolledTame(root);
    FlatUnrolled(root, "");
    FlattenMatchesLookup(Unrolled(root), path);
  }
}
