/**
 * flattenJSON: a nested JSON value becomes one flat object whose keys are the
 * paths of its leaves ("a.b", "list[0].name") and whose values are the leaves.
 * Object members are visited in the order the object lists its keys, array
 * elements by index; a later entry with the same path overwrites an earlier one.
 */
module JsonFlatten {
  import opened Text

  /** A JSON value; an object lists its members in key order. */
  datatype Json =
    | JNull
    | JBool(b: bool)
    | JNum(n: real)
    | JStr(s: string)
    | JArr(items: seq<Json>)
    | JObj(members: seq<Member>)
  {
    /** Not an instance of Object: null and the primitives, which end a path. */
    predicate IsLeaf()
    {
      !JArr? && !JObj?
    }
  }

  /** An object member: a key and its value. */
  datatype Member = Member(key: string, value: Json)

  /** path.replace(/\.$/g, ""): one trailing dot removed. */
  function StripDot(path: string): (r: string)
    ensures |path| > 0 && path[|path| - 1] == '.' ==> r == path[..|path| - 1]
    ensures (|path| == 0 || path[|path| - 1] != '.') ==> r == path
  {
    if |path| > 0 && path[|path| - 1] == '.' then path[..|path| - 1] else path
  }

  /** The path of array element i below path. */
  function IndexPath(path: string, i: nat): string
  {
    path + "[" + NatToString(i) + "]."
  }

  /** The path of object member key below path. */
  function KeyPath(path: string, key: string): string
  {
    path + key + "."
  }

  /** flattenJSON(j, path): leaves become entries; arrays and objects merge their children's objects in order. */
  function Flatten(j: Json, path: string): map<string, Json>
    decreases j, 1
  {
    match j
    case JArr(items) => FlattenItems(items, path)
    case JObj(members) => FlattenMembers(members, path)
    case _ => map[StripDot(path) := j]
  }

  /** The reduce over an array's indices: each element's object spread over the ones before. */
  function FlattenItems(items: seq<Json>, path: string): map<string, Json>
    decreases items, 0
  {
    if |items| == 0 then map[]
    else FlattenItems(items[..|items| - 1], path) + Flatten(items[|items| - 1], IndexPath(path, |items| - 1))
  }

  /** The reduce over an object's keys: each member's object spread over the ones before. */
  function FlattenMembers(members: seq<Member>, path: string): map<string, Json>
    decreases members, 0
  {
    if |members| == 0 then map[]
    else
      var last := members[|members| - 1];
      FlattenMembers(members[..|members| - 1], path) + Flatten(last.value, KeyPath(path, last.key))
  }

  /** The reference reading: every leaf with its path, in visiting order, duplicates kept. */
  function Leaves(j: Json, path: string): seq<(string, Json)>
    decreases j, 1
  {
    match j
    case JArr(items) => ItemLeaves(items, path)
    case JObj(members) => MemberLeaves(members, path)
    case _ => [(StripDot(path), j)]
  }

  function ItemLeaves(items: seq<Json>, path: string): seq<(string, Json)>
    decreases items, 0
  {
    if |items| == 0 then []
    else ItemLeaves(items[..|items| - 1], path) + Leaves(items[|items| - 1], IndexPath(path, |items| - 1))
  }

  function MemberLeaves(members: seq<Member>, path: string): seq<(string, Json)>
    decreases members, 0
  {
    if |members| == 0 then []
    else
      var last := members[|members| - 1];
      MemberLeaves(members[..|members| - 1], path) + Leaves(last.value, KeyPath(path, last.key))
  }

  /** An object built from entries in order, a later entry overwriting an earlier one with the same key. */
  function ToMap(entries: seq<(string, Json)>): map<string, Json>
  {
    if |entries| == 0 then map[]
    else ToMap(entries[..|entries| - 1])[entries[|entries| - 1].0 := entries[|entries| - 1].1]
  }

  lemma {:induction false} ToMapAppend(a: seq<(string, Json)>, b: seq<(string, Json)>)
    ensures ToMap(a + b) == ToMap(a) + ToMap(b)
    decreases |b|
  {
    if |b| > 0 {
      var b' := b[..|b| - 1];
      assert (a + b)[..|a + b| - 1] == a + b';
      ToMapAppend(a, b');
    } else {
      assert a + b == a;
    }
  }

  /** An entry's key is in the object, with the value of the last entry that has that key. */
  lemma {:induction false} ToMapLastWins(entries: seq<(string, Json)>, i: nat)
    requires i < |entries|
    ensures entries[i].0 in ToMap(entries)
    ensures (forall k | i < k < |entries| :: entries[k].0 != entries[i].0) ==> ToMap(entries)[entries[i].0] == entries[i].1
    decreases |entries|
  {
    if i < |entries| - 1 {
      ToMapLastWins(entries[..|entries| - 1], i);
    }
  }

  /** Every key of the object comes from some entry, and its value is that of an entry with the key. */
  lemma {:induction false} ToMapFromEntries(entries: seq<(string, Json)>, key: string)
    requires key in ToMap(entries)
    ensures exists i | 0 <= i < |entries| :: entries[i] == (key, ToMap(entries)[key])
    decreases |entries|
  {
    var n := |entries| - 1;
    if entries[n].0 != key {
      ToMapFromEntries(entries[..n], key);
      var i :| 0 <= i < n && entries[..n][i] == (key, ToMap(entries[..n])[key]);
      assert entries[i] == (key, ToMap(entries)[key]);
    } else {
      assert entries[n] == (key, ToMap(entries)[key]);
    }
  }

  /**
   * flattenJSON is the object built from the leaves in visiting order: the
   * spreads in the reduce are the same as writing the leaves one after another.
   */
  lemma {:induction false} FlattenIsLeaves(j: Json, path: string)
    ensures Flatten(j, path) == ToMap(Leaves(j, path))
    decreases j, 1
  {
    match j
    case JArr(items) => ItemsAreLeaves(items, path);
    case JObj(members) => MembersAreLeaves(members, path);
    case _ =>
  }

  lemma {:induction false} ItemsAreLeaves(items: seq<Json>, path: string)
    ensures FlattenItems(items, path) == ToMap(ItemLeaves(items, path))
    decreases items, 0
  {
    if |items| > 0 {
      var n := |items| - 1;
      ItemsAreLeaves(items[..n], path);
      FlattenIsLeaves(items[n], IndexPath(path, n));
      ToMapAppend(ItemLeaves(items[..n], path), Leaves(items[n], IndexPath(path, n)));
    }
  }

  lemma {:induction false} MembersAreLeaves(members: seq<Member>, path: string)
    ensures FlattenMembers(members, path) == ToMap(MemberLeaves(members, path))
    decreases members, 0
  {
    if |members| > 0 {
      var n := |members| - 1;
      MembersAreLeaves(members[..n], path);
      FlattenIsLeaves(members[n].value, KeyPath(path, members[n].key));
      ToMapAppend(MemberLeaves(members[..n], path), Leaves(members[n].value, KeyPath(path, members[n].key)));
    }
  }

  /** Every visited value is a leaf, and its path starts with the path it was reached from (less a trailing dot). */
  lemma {:induction false} LeavesShape(j: Json, path: string)
    ensures forall e | e in Leaves(j, path) :: e.1.IsLeaf() && StripDot(path) <= e.0
    ensures !j.IsLeaf() ==> forall e | e in Leaves(j, path) :: path <= e.0
    decreases j, 1
  {
    match j
    case JArr(items) => ItemLeavesShape(items, path);
    case JObj(members) => MemberLeavesShape(members, path);
    case _ =>
  }

  lemma {:induction false} ItemLeavesShape(items: seq<Json>, path: string)
    ensures forall e | e in ItemLeaves(items, path) :: e.1.IsLeaf() && path <= e.0
    decreases items, 0
  {
    if |items| > 0 {
      var n := |items| - 1;
      ItemLeavesShape(items[..n], path);
      var p := IndexPath(path, n);
      LeavesShape(items[n], p);
      assert StripDot(p) == path + "[" + NatToString(n) + "]";
      assert path <= StripDot(p);
    }
  }

  lemma {:induction false} MemberLeavesShape(members: seq<Member>, path: string)
    ensures forall e | e in MemberLeaves(members, path) :: e.1.IsLeaf() && path <= e.0
    decreases members, 0
  {
    if |members| > 0 {
      var n := |members| - 1;
      MemberLeavesShape(members[..n], path);
      var p := KeyPath(path, members[n].key);
      LeavesShape(members[n].value, p);
      assert StripDot(p) == path + members[n].key;
      assert path <= StripDot(p);
    }
  }

  /**
   * The flat object's values are exactly leaves of the input: each key is the
   * path of a leaf holding its value, and each leaf's path is a key, holding
   * that leaf unless a later leaf has the same path.
   */
  lemma FlattenMeaning(j: Json, path: string)
    ensures forall k | k in Flatten(j, path) :: Flatten(j, path)[k].IsLeaf() && (k, Flatten(j, path)[k]) in Leaves(j, path)
    ensures forall i | 0 <= i < |Leaves(j, path)| :: Leaves(j, path)[i].0 in Flatten(j, path)
    ensures forall i | 0 <= i < |Leaves(j, path)| ::
      (forall k | i < k < |Leaves(j, path)| :: Leaves(j, path)[k].0 != Leaves(j, path)[i].0)
      ==> Flatten(j, path)[Leaves(j, path)[i].0] == Leaves(j, path)[i].1
  {
    var es := Leaves(j, path);
    FlattenIsLeaves(j, path);
    LeavesShape(j, path);
    forall k | k in Flatten(j, path)
      ensures (k, Flatten(j, path)[k]) in es
    {
      ToMapFromEntries(es, k);
    }
    forall i | 0 <= i < |es|
      ensures es[i].0 in Flatten(j, path)
      ensures (forall k | i < k < |es| :: es[k].0 != es[i].0) ==> Flatten(j, path)[es[i].0] == es[i].1
    {
      ToMapLastWins(es, i);
    }
  }

  /** A leaf gives the one entry at its path less one trailing dot. */
  lemma LeafEntry(j: Json, path: string)
    requires j.IsLeaf()
    ensures Flatten(j, path) == map[StripDot(path) := j]
    ensures |StripDot(path)| == |path| - (if |path| > 0 && path[|path| - 1] == '.' then 1 else 0)
  {
  }

  /** Empty arrays and objects, and arrays and objects of them, contribute nothing. */
  lemma {:induction false} EmptyContributesNothing(j: Json, path: string)
    requires Empty(j)
    ensures Flatten(j, path) == map[]
    decreases j, 1
  {
    match j
    case JArr(items) => EmptyItems(items, path);
    case JObj(members) => EmptyMembers(members, path);
  }

  /** A JSON tree with no leaves. */
  predicate Empty(j: Json)
    decreases j, 1
  {
    match j
    case JArr(items) => EmptyAll(items)
    case JObj(members) => EmptyAllMembers(members)
    case _ => false
  }

  predicate EmptyAll(items: seq<Json>)
    decreases items, 0
  {
    |items| == 0 || (EmptyAll(items[..|items| - 1]) && Empty(items[|items| - 1]))
  }

  predicate EmptyAllMembers(members: seq<Member>)
    decreases members, 0
  {
    |members| == 0 || (EmptyAllMembers(members[..|members| - 1]) && Empty(members[|members| - 1].value))
  }

  lemma {:induction false} EmptyItems(items: seq<Json>, path: string)
    requires EmptyAll(items)
    ensures FlattenItems(items, path) == map[]
    decreases items, 0
  {
    if |items| > 0 {
      EmptyItems(items[..|items| - 1], path);
      EmptyContributesNothing(items[|items| - 1], IndexPath(path, |items| - 1));
    }
  }

  lemma {:induction false} EmptyMembers(members: seq<Member>, path: string)
    requires EmptyAllMembers(members)
    ensures FlattenMembers(members, path) == map[]
    decreases members, 0
  {
    if |members| > 0 {
      var last := members[|members| - 1];
      EmptyMembers(members[..|members| - 1], path);
      EmptyContributesNothing(last.value, KeyPath(path, last.key));
    }
  }

  /** For an object, a later member's entries win over an earlier member's at the same path. */
  lemma MembersLaterWins(members: seq<Member>, path: string, key: string)
    requires |members| > 0
    requires key in Flatten(members[|members| - 1].value, KeyPath(path, members[|members| - 1].key))
    ensures FlattenMembers(members, path)[key]
      == Flatten(members[|members| - 1].value, KeyPath(path, members[|members| - 1].key))[key]
  {
  }
}
