/** JSON values, dotted paths, and the text of a value. */
module Json {
  import opened Options

  /**
   A parsed JSON value.  A number is kept as its printed form; an object lists its fields in the order in
   which the library iterates over them, each key once.
   */
  datatype Json =
    | Null
    | Bool(value: bool)
    | Number(digits: string)
    | Text(text: string)
    | Array(items: seq<Json>)
    | Object(fields: seq<(string, Json)>)

  predicate DistinctKeys(fields: seq<(string, Json)>) {
    forall i, j :: 0 <= i < j < |fields| ==> fields[i].0 != fields[j].0
  }

  function Find(fields: seq<(string, Json)>, key: string): (found: Option<Json>)
    ensures found.Some? ==> exists i :: 0 <= i < |fields| && fields[i] == (key, found.value)
    ensures found.None? <==> forall i :: 0 <= i < |fields| ==> fields[i].0 != key
  {
    if fields == [] then None
    else if fields[0].0 == key then assert fields[0] == (key, fields[0].1); Some(fields[0].1)
    else
      var found := Find(fields[1..], key);
      assert forall i :: 1 <= i < |fields| ==> fields[i] == fields[1..][i - 1];
      found
  }

  /** Value::get with a string index. */
  function Get(value: Json, key: string): Option<Json> {
    if value.Object? then Find(value.fields, key) else None
  }

  // ----- Splitting at a character -----

  /** str::split: the pieces between the occurrences of `c`; one piece when there is none. */
  function SplitAt(text: string, c: char): (pieces: seq<string>)
    ensures pieces != []
    ensures forall i :: 0 <= i < |pieces| ==> c !in pieces[i]
  {
    if text == "" then [""]
    else
      var rest := SplitAt(text[1..], c);
      if text[0] == c then [""] + rest
      else [[text[0]] + rest[0]] + rest[1..]
  }

  /** slice::join with a one-character separator. */
  function JoinWith(pieces: seq<string>, c: char): string {
    if pieces == [] then ""
    else if |pieces| == 1 then pieces[0]
    else pieces[0] + [c] + JoinWith(pieces[1..], c)
  }

  lemma {:induction false} SplitOne(text: string, c: char)
    requires c !in text
    ensures SplitAt(text, c) == [text]
  {
    if text != "" {
      assert text[0] in text && forall x :: x in text[1..] ==> x in text;
      SplitOne(text[1..], c);
      assert [text[0]] + text[1..] == text;
    }
  }

  lemma {:induction false} SplitFirst(first: string, rest: string, c: char)
    requires c !in first
    ensures SplitAt(first + [c] + rest, c) == [first] + SplitAt(rest, c)
  {
    var text := first + [c] + rest;
    if first == "" {
      assert text[0] == c && text[1..] == rest;
    } else {
      assert first[0] in first && forall x :: x in first[1..] ==> x in first;
      assert text[0] == first[0] && text[1..] == first[1..] + [c] + rest;
      SplitFirst(first[1..], rest, c);
      var pieces := [first[1..]] + SplitAt(rest, c);
      assert pieces[0] == first[1..] && pieces[1..] == SplitAt(rest, c);
      assert [first[0]] + first[1..] == first;
    }
  }

  /** Joining and splitting again gives the pieces back. */
  lemma {:induction false} SplitOfJoin(pieces: seq<string>, c: char)
    requires pieces != [] && forall i :: 0 <= i < |pieces| ==> c !in pieces[i]
    ensures SplitAt(JoinWith(pieces, c), c) == pieces
  {
    if |pieces| == 1 {
      SplitOne(pieces[0], c);
    } else {
      SplitOfJoin(pieces[1..], c);
      SplitFirst(pieces[0], JoinWith(pieces[1..], c), c);
    }
  }

  /** Splitting and joining again gives the text back. */
  lemma {:induction false} JoinOfSplit(text: string, c: char)
    ensures JoinWith(SplitAt(text, c), c) == text
  {
    if text != "" {
      JoinOfSplit(text[1..], c);
      var rest := SplitAt(text[1..], c);
      if text[0] == c {
        assert SplitAt(text, c)[1..] == rest;
      } else {
        assert SplitAt(text, c)[1..] == rest[1..];
      }
    }
  }

  // ----- Dotted paths -----

  function Walk(value: Json, keys: seq<string>): Option<Json> {
    if keys == [] then Some(value)
    else
      var next := Walk(value, keys[..|keys| - 1]);
      if next.None? then None else Get(next.value, keys[|keys| - 1])
  }

  /** resolve_field: follow the segments of the path from the root. */
  function Resolve(root: Json, path: string): Option<Json> {
    Walk(root, SplitAt(path, '.'))
  }

  method ResolveField(root: Json, path: string) returns (found: Option<Json>)
    ensures found == Resolve(root, path)
  {
    var keys := SplitAt(path, '.');
    var current := root;
    for i := 0 to |keys|
      invariant Walk(root, keys[..i]) == Some(current)
    {
      assert keys[..i + 1][..i] == keys[..i];
      var next := Get(current, keys[i]);
      if next.None? {
        WalkStuck(root, keys, i + 1);
        return None;
      }
      current := next.value;
    }
    assert keys[..|keys|] == keys;
    return Some(current);
  }

  lemma {:induction false} WalkStuck(root: Json, keys: seq<string>, i: nat)
    requires i <= |keys| && Walk(root, keys[..i]).None?
    ensures Walk(root, keys).None?
    decreases |keys|
  {
    if i == |keys| {
      assert keys[..i] == keys;
    } else {
      var init := keys[..|keys| - 1];
      assert init[..i] == keys[..i];
      WalkStuck(root, init, i);
    }
  }

  /** The first key first. */
  lemma {:induction false} WalkFirst(value: Json, key: string, keys: seq<string>)
    ensures var next := Get(value, key);
      Walk(value, [key] + keys) == if next.None? then None else Walk(next.value, keys)
  {
    var all := [key] + keys;
    if keys == [] {
      assert all[..0] == [];
    } else {
      assert all[..|all| - 1] == [key] + keys[..|keys| - 1];
      WalkFirst(value, key, keys[..|keys| - 1]);
    }
  }

  /** A path without a dot names a field of the root; the rest of a path is looked up in the field before its first dot. */
  lemma ResolveFirst(root: Json, key: string, rest: string)
    requires '.' !in key
    ensures Resolve(root, key) == Get(root, key)
    ensures Resolve(root, key + "." + rest) == if Get(root, key).None? then None else Resolve(Get(root, key).value, rest)
  {
    SplitOne(key, '.');
    WalkFirst(root, key, []);
    assert [key] + [] == [key];
    SplitFirst(key, rest, '.');
    WalkFirst(root, key, SplitAt(rest, '.'));
  }

  /** Only objects have fields, and a field is found by its own key. */
  lemma GetField(root: Json, key: string, value: Json)
    requires root.Object? ==> DistinctKeys(root.fields)
    ensures Get(root, key) == Some(value) <==> root.Object? && (key, value) in root.fields
  {
  }

  // ----- Text -----

  predicate IsScalar(value: Json) {
    value.Bool? || value.Number? || value.Text?
  }

  /** value_to_string; the compact printing of arrays and objects is the library's. */
  function ValueToString(value: Json, compact: Json -> string): string {
    match value
    case Text(text) => text
    case Number(digits) => digits
    case Bool(b) => if b then "true" else "false"
    case Null => ""
    case _ => compact(value)
  }
}
