/**
 Configuration documents as trees, and the merge that writes a changed configuration back into
 a document it must otherwise leave alone.

 Comments, styles, anchors and the text form of the document are not part of the trees.
 */
module ConfigTree {
  import opened Basics

  datatype Tag = Str | Int | Bool

  /** A resolved scalar; `text` is what the source calls its Value. */
  datatype Literal = Literal(tag: Tag, text: string)

  datatype Field = Field(key: string, value: Node)

  datatype Node =
    | Null
    | Scalar(literal: Literal)
    | Mapping(fields: seq<Field>)
    | Sequence(items: seq<Node>)

  // ----- fields of mappings -----

  function Lookup(fields: seq<Field>, key: string): Option<Node> {
    if fields == [] then None
    else if fields[0].key == key then Some(fields[0].value)
    else Lookup(fields[1..], key)
  }

  function NodeField(n: Option<Node>, key: string): Option<Node> {
    if n.Some? && n.value.Mapping? then Lookup(n.value.fields, key) else None
  }

  /** Replaces the first field with the key, or appends one. */
  function SetField(fields: seq<Field>, key: string, value: Node): seq<Field> {
    if fields == [] then [Field(key, value)]
    else if fields[0].key == key then [Field(key, value)] + fields[1..]
    else [fields[0]] + SetField(fields[1..], key, value)
  }

  predicate NoDuplicate(fields: seq<Field>) {
    fields == [] || (Lookup(fields[1..], fields[0].key).None? && NoDuplicate(fields[1..]))
  }

  lemma {:induction false} LookupSet(fields: seq<Field>, key: string, value: Node, other: string)
    ensures Lookup(SetField(fields, key, value), other) == if other == key then Some(value) else Lookup(fields, other)
  {
    if fields != [] && fields[0].key != key {
      LookupSet(fields[1..], key, value, other);
    }
  }

  lemma {:induction false} SetKeepsUnique(fields: seq<Field>, key: string, value: Node)
    requires NoDuplicate(fields)
    ensures NoDuplicate(SetField(fields, key, value))
  {
    if fields != [] && fields[0].key != key {
      SetKeepsUnique(fields[1..], key, value);
      LookupSet(fields[1..], key, value, fields[0].key);
    }
  }

  /** Setting a field to what it is already changes nothing. */
  lemma {:induction false} SetSame(fields: seq<Field>, key: string)
    requires Lookup(fields, key).Some?
    ensures SetField(fields, key, Lookup(fields, key).value) == fields
  {
    if fields[0].key != key {
      SetSame(fields[1..], key);
    }
  }

  // ----- items of sequences -----

  function IdText(n: Node): string {
    if n.Scalar? then n.literal.text else ""
  }

  function IdOf(item: Node): Option<string> {
    match NodeField(Some(item), "id")
    case None => None
    case Some(n) => Some(IdText(n))
  }

  function ItemsOf(n: Option<Node>): seq<Node> {
    if n.Some? && n.value.Sequence? then n.value.items else []
  }

  /** The first item with the id. */
  function FindById(items: seq<Node>, id: string): Option<Node> {
    if items == [] then None
    else if IdOf(items[0]) == Some(id) then Some(items[0])
    else FindById(items[1..], id)
  }

  lemma {:induction false} FoundById(items: seq<Node>, id: string)
    ensures FindById(items, id).None? ==> forall x | x in items :: IdOf(x) != Some(id)
    ensures FindById(items, id).Some?
            ==> FindById(items, id).value in items && IdOf(FindById(items, id).value) == Some(id)
  {
    if items != [] && IdOf(items[0]) != Some(id) {
      FoundById(items[1..], id);
      assert items == [items[0]] + items[1..];
    }
  }

  ghost predicate UniqueIds(items: seq<Node>) {
    forall i, j | 0 <= i < j < |items| :: IdOf(items[i]) == None || IdOf(items[i]) != IdOf(items[j])
  }

  lemma {:induction false} FindUnique(items: seq<Node>, k: nat)
    requires UniqueIds(items) && k < |items| && IdOf(items[k]).Some?
    ensures FindById(items, IdOf(items[k]).value) == Some(items[k])
  {
    if k > 0 {
      assert IdOf(items[0]) == None || IdOf(items[0]) != IdOf(items[k]);
      assert items[1..][k - 1] == items[k];
      FindUnique(items[1..], k - 1);
    }
  }

  lemma {:induction false} FindAppend(items: seq<Node>, more: seq<Node>, id: string)
    ensures FindById(items + more, id) == if FindById(items, id).Some? then FindById(items, id) else FindById(more, id)
  {
    if items == [] {
      assert items + more == more;
    } else {
      assert (items + more)[1..] == items[1..] + more;
      FindAppend(items[1..], more, id);
    }
  }

  // ----- equality of values -----

  /** What a node decodes to when nothing is expected of it: mappings are unordered and must not repeat a key. */
  datatype Any = ANull | ALiteral(literal: Literal) | AMap(entries: map<string, Any>) | AList(elements: seq<Any>)

  function AnyOf(n: Node): Option<Any> {
    match n
    case Null => Some(ANull)
    case Scalar(literal) => Some(ALiteral(literal))
    case Mapping(fields) =>
      (match AnyFields(fields) case None => None case Some(m) => Some(AMap(m)))
    case Sequence(items) =>
      (match AnyItems(items) case None => None case Some(s) => Some(AList(s)))
  }

  function AnyFields(fields: seq<Field>): Option<map<string, Any>> {
    if fields == [] then Some(map[]) else
    match (AnyOf(fields[0].value), AnyFields(fields[1..]))
    case (Some(v), Some(m)) => if fields[0].key in m then None else Some(m[fields[0].key := v])
    case _ => None
  }

  function AnyItems(items: seq<Node>): Option<seq<Any>> {
    if items == [] then Some([]) else
    match (AnyOf(items[0]), AnyItems(items[1..]))
    case (Some(v), Some(s)) => Some([v] + s)
    case _ => None
  }

  /** equalNode: both absent, or both decodable and to the same value. */
  predicate EqualNode(a: Option<Node>, b: Option<Node>) {
    if a.None? || b.None? then a == b
    else AnyOf(a.value).Some? && AnyOf(b.value).Some? && AnyOf(a.value) == AnyOf(b.value)
  }

  lemma {:induction false} AnyLookup(fields: seq<Field>, key: string)
    requires AnyFields(fields).Some?
    ensures key in AnyFields(fields).value <==> Lookup(fields, key).Some?
    ensures key in AnyFields(fields).value ==>
              AnyOf(Lookup(fields, key).value) == Some(AnyFields(fields).value[key])
  {
    if fields != [] {
      AnyLookup(fields[1..], key);
      AnyLookup(fields[1..], fields[0].key);
    }
  }

  /** Equal mappings agree on every key. */
  lemma EqualMappings(a: seq<Field>, b: seq<Field>, key: string)
    requires EqualNode(Some(Mapping(a)), Some(Mapping(b)))
    ensures EqualNode(Lookup(a, key), Lookup(b, key))
  {
    AnyLookup(a, key);
    AnyLookup(b, key);
  }

  lemma {:induction false} AnyItemsAt(items: seq<Node>)
    requires AnyItems(items).Some?
    ensures |AnyItems(items).value| == |items|
    ensures forall k | 0 <= k < |items| :: AnyOf(items[k]) == Some(AnyItems(items).value[k])
  {
    if items != [] {
      AnyItemsAt(items[1..]);
      var rest := AnyItems(items[1..]).value;
      forall k | 0 <= k < |items|
        ensures AnyOf(items[k]) == Some(AnyItems(items).value[k])
      {
        if k > 0 {
          assert items[k] == items[1..][k - 1] && AnyItems(items).value[k] == rest[k - 1];
        }
      }
    }
  }

  lemma EqualSequences(a: seq<Node>, b: seq<Node>)
    requires EqualNode(Some(Sequence(a)), Some(Sequence(b)))
    ensures |a| == |b| && forall k | 0 <= k < |a| :: EqualNode(Some(a[k]), Some(b[k]))
  {
    AnyItemsAt(a);
    AnyItemsAt(b);
  }

  lemma {:induction false} ListDecodes(items: seq<Node>)
    ensures AnyItems(items).Some? <==> forall k | 0 <= k < |items| :: AnyOf(items[k]).Some?
  {
    if items != [] {
      ListDecodes(items[1..]);
      assert forall k | 0 < k < |items| :: items[k] == items[1..][k - 1];
      assert items[0] in items;
      assert (forall k | 0 <= k < |items| :: AnyOf(items[k]).Some?) ==>
          forall k | 0 <= k < |items[1..]| :: items[1..][k] == items[k + 1] && AnyOf(items[k + 1]).Some?;
    }
  }

  lemma {:induction false} MappingDecodes(fields: seq<Field>)
    ensures AnyFields(fields).Some? <==>
              NoDuplicate(fields) && forall k | 0 <= k < |fields| :: AnyOf(fields[k].value).Some?
  {
    if fields != [] {
      var rest := fields[1..];
      MappingDecodes(rest);
      assert forall k | 0 <= k < |rest| :: rest[k] == fields[k + 1];
      assert forall k | 0 < k < |fields| :: fields[k] == rest[k - 1];
      if AnyFields(rest).Some? {
        AnyLookup(rest, fields[0].key);
      }
    }
  }

  lemma {:induction false} LookupAt(fields: seq<Field>, k: nat)
    requires NoDuplicate(fields) && k < |fields|
    ensures Lookup(fields, fields[k].key) == Some(fields[k].value)
  {
    if k > 0 {
      LookupAt(fields[1..], k - 1);
    }
  }

  lemma SequencesAreEqual(a: seq<Node>, b: seq<Node>)
    requires |a| == |b| && forall k | 0 <= k < |a| :: EqualNode(Some(a[k]), Some(b[k]))
    ensures EqualNode(Some(Sequence(a)), Some(Sequence(b)))
  {
    ListDecodes(a);
    ListDecodes(b);
    AnyItemsAt(a);
    AnyItemsAt(b);
    assert AnyItems(a).value == AnyItems(b).value;
  }

  /** Under every key both have nothing, or equal nodes. */
  ghost predicate SameFields(a: seq<Field>, b: seq<Field>) {
    forall key: string :: EqualNode(Lookup(a, key), Lookup(b, key))
  }

  lemma KeysDecode(a: seq<Field>, b: seq<Field>)
    requires NoDuplicate(a) && SameFields(a, b)
    ensures AnyFields(a).Some?
  {
    forall k | 0 <= k < |a|
      ensures AnyOf(a[k].value).Some?
    {
      LookupAt(a, k);
      assert EqualNode(Lookup(a, a[k].key), Lookup(b, a[k].key));
    }
    MappingDecodes(a);
  }

  lemma MappingsAreEqual(a: seq<Field>, b: seq<Field>)
    requires NoDuplicate(a) && NoDuplicate(b) && SameFields(a, b)
    ensures EqualNode(Some(Mapping(a)), Some(Mapping(b)))
  {
    KeysDecode(a, b);
    KeysDecode(b, a);
    var m, n := AnyFields(a).value, AnyFields(b).value;
    forall key
      ensures key in m <==> key in n
      ensures key in m ==> m[key] == n[key]
    {
      AnyLookup(a, key);
      AnyLookup(b, key);
      assert EqualNode(Lookup(a, key), Lookup(b, key));
    }
    assert m == n;
  }

  /**
   When two nodes are equal: null only to null, a scalar only to the same one, sequences element by
   element, and mappings without a repeated key, in whatever order, key by key.
   */
  lemma EqualNodesAre(a: Node, b: Node)
    ensures a.Null? ==> (EqualNode(Some(a), Some(b)) <==> b.Null?)
    ensures a.Scalar? ==> (EqualNode(Some(a), Some(b)) <==> b == a)
    ensures a.Sequence? ==>
              (EqualNode(Some(a), Some(b)) <==>
                 b.Sequence? && |b.items| == |a.items|
                 && forall k | 0 <= k < |a.items| :: EqualNode(Some(a.items[k]), Some(b.items[k])))
    ensures a.Mapping? ==>
              (EqualNode(Some(a), Some(b)) <==>
                 b.Mapping? && NoDuplicate(a.fields) && NoDuplicate(b.fields) && SameFields(a.fields, b.fields))
  {
    if a.Sequence? && b.Sequence? {
      if EqualNode(Some(a), Some(b)) {
        EqualSequences(a.items, b.items);
      } else if |a.items| == |b.items| && forall k | 0 <= k < |a.items| ::
          EqualNode(Some(a.items[k]), Some(b.items[k])) {
        SequencesAreEqual(a.items, b.items);
      }
    } else if a.Mapping? && b.Mapping? {
      if EqualNode(Some(a), Some(b)) {
        MappingDecodes(a.fields);
        MappingDecodes(b.fields);
        forall key
          ensures EqualNode(Lookup(a.fields, key), Lookup(b.fields, key))
        {
          EqualMappings(a.fields, b.fields, key);
        }
      } else if NoDuplicate(a.fields) && NoDuplicate(b.fields) && SameFields(a.fields, b.fields) {
        MappingsAreEqual(a.fields, b.fields);
      }
    }
  }

  // ----- the merge -----

  function Wrapped<T>(part: Option<T>, wrap: T -> Node): Option<Node> {
    match part case None => None case Some(x) => Some(wrap(x))
  }

  function Width(n: Node): nat {
    if n.Mapping? then |n.fields| else if n.Sequence? then |n.items| else 0
  }

  /**
   mergeConfigNode. The result is None where the source returns a nil node: nothing changed and
   there is no original. A nil node inside a sequence makes the whole tree unusable and is None too.
   */
  function Merge(original: Option<Node>, before: Option<Node>, after: Node): Option<Node>
    decreases after, Width(after) + 1
  {
    if EqualNode(before, Some(after)) then original
    else if original.None? then Some(after)
    else if after.Mapping? && original.value.Mapping? then
      Wrapped(MergeFields(original.value.fields, original.value, before, after, 0), fields => Mapping(fields))
    else if after.Sequence? && original.value.Sequence? then
      Wrapped(MergeItems(original.value.items, before, after, 0), items => Sequence(items))
    else Some(after)
  }

  /** The fields of `after` from `i` on, merged into `out`. */
  function MergeFields(out: seq<Field>, original: Node, before: Option<Node>, after: Node, i: nat): Option<seq<Field>>
    requires after.Mapping? && i <= |after.fields|
    decreases after, |after.fields| - i
  {
    if i == |after.fields| then Some(out) else
    var f := after.fields[i];
    var was := NodeField(before, f.key);
    if EqualNode(was, Some(f.value)) then MergeFields(out, original, before, after, i + 1) else
    var merged := Merge(NodeField(Some(original), f.key), was, f.value);
    if merged.None? then None
    else MergeFields(SetField(out, f.key, merged.value), original, before, after, i + 1)
  }

  function MergeItem(original: seq<Node>, before: Option<Node>, item: Node): Option<Node>
    decreases item, Width(item) + 2
  {
    match IdOf(item)
    case None => Some(item)
    case Some(id) => Merge(FindById(original, id), FindById(ItemsOf(before), id), item)
  }

  /** The items of `after` from `i` on. */
  function MergeItems(original: seq<Node>, before: Option<Node>, after: Node, i: nat): Option<seq<Node>>
    requires after.Sequence? && i <= |after.items|
    decreases after, |after.items| - i
  {
    if i == |after.items| then Some([]) else
    match (MergeItem(original, before, after.items[i]), MergeItems(original, before, after, i + 1))
    case (Some(item), Some(rest)) => Some([item] + rest)
    case _ => None
  }

  /** What the merged mapping holds under each key. */
  lemma {:induction false} MergedField(
    out: seq<Field>, original: Node, before: Option<Node>, after: Node, i: nat, key: string)
    requires after.Mapping? && i <= |after.fields| && NoDuplicate(after.fields[i..])
    requires MergeFields(out, original, before, after, i).Some?
    ensures var r := MergeFields(out, original, before, after, i).value;
            var now, was := Lookup(after.fields[i..], key), NodeField(before, key);
            && (NoDuplicate(out) ==> NoDuplicate(r))
            && if now.None? || EqualNode(was, now) then Lookup(r, key) == Lookup(out, key)
               else && Lookup(r, key).Some?
                    && Lookup(r, key) == Merge(NodeField(Some(original), key), was, now.value)
    decreases |after.fields| - i
  {
    if i < |after.fields| {
      var f := after.fields[i];
      var was := NodeField(before, f.key);
      assert after.fields[i..] == [f] + after.fields[i + 1..];
      assert after.fields[i..][1..] == after.fields[i + 1..];
      if EqualNode(was, Some(f.value)) {
        MergedField(out, original, before, after, i + 1, key);
      } else {
        var merged := Merge(NodeField(Some(original), f.key), was, f.value).value;
        MergedField(SetField(out, f.key, merged), original, before, after, i + 1, key);
        LookupSet(out, f.key, merged, key);
        if NoDuplicate(out) {
          SetKeepsUnique(out, f.key, merged);
        }
      }
    }
  }

  ghost predicate FieldMerges(original: Node, before: Option<Node>, f: Field) {
    var was := NodeField(before, f.key);
    EqualNode(was, Some(f.value)) || Merge(NodeField(Some(original), f.key), was, f.value).Some?
  }

  /** The merged mapping exists if every changed field can be merged. */
  lemma {:induction false} FieldsMerge(out: seq<Field>, original: Node, before: Option<Node>, after: Node, i: nat)
    requires after.Mapping? && i <= |after.fields|
    requires forall k | i <= k < |after.fields| :: FieldMerges(original, before, after.fields[k])
    ensures MergeFields(out, original, before, after, i).Some?
    decreases |after.fields| - i
  {
    if i < |after.fields| {
      var f := after.fields[i];
      var was := NodeField(before, f.key);
      if EqualNode(was, Some(f.value)) {
        FieldsMerge(out, original, before, after, i + 1);
      } else {
        FieldsMerge(SetField(out, f.key, Merge(NodeField(Some(original), f.key), was, f.value).value),
                    original, before, after, i + 1);
      }
    }
  }

  lemma {:induction false} MergedItems(original: seq<Node>, before: Option<Node>, after: Node, i: nat)
    requires after.Sequence? && i <= |after.items|
    requires forall k | i <= k < |after.items| :: MergeItem(original, before, after.items[k]).Some?
    ensures MergeItems(original, before, after, i).Some?
    ensures var r := MergeItems(original, before, after, i).value;
            && |r| == |after.items| - i
            && forall k | 0 <= k < |r| :: Some(r[k]) == MergeItem(original, before, after.items[i + k])
    decreases |after.items| - i
  {
    if i < |after.items| {
      MergedItems(original, before, after, i + 1);
    }
  }

  // ----- the merge as the source runs it -----

  method MergeConfigNode(original: Option<Node>, before: Option<Node>, after: Node) returns (r: Option<Node>)
    ensures r == Merge(original, before, after)
    decreases after
  {
    if EqualNode(before, Some(after)) {
      return original;
    }
    if original.None? {
      return Some(after);
    }
    var node := original.value;
    if after.Mapping? && node.Mapping? {
      var out := node.fields;
      for i := 0 to |after.fields|
        invariant MergeFields(out, node, before, after, i) == MergeFields(node.fields, node, before, after, 0)
      {
        var f := after.fields[i];
        var was := NodeField(before, f.key);
        if EqualNode(was, Some(f.value)) {
          continue;
        }
        var merged := MergeConfigNode(NodeField(original, f.key), was, f.value);
        if merged.None? {
          return None;
        }
        out := Replace(out, f.key, merged.value);
      }
      return Some(Mapping(out));
    }
    if after.Sequence? && node.Sequence? {
      var out := [];
      ghost var whole := MergeItems(node.items, before, after, 0);
      assert whole.Some? ==> out + whole.value == whole.value;
      for i := 0 to |after.items|
        invariant |out| == i
        invariant whole ==
                  match MergeItems(node.items, before, after, i) case None => None case Some(rest) => Some(out + rest)
      {
        var id := IdOf(after.items[i]);
        var item := Some(after.items[i]);
        if id.Some? {
          var was := FindById(ItemsOf(before), id.value);
          var orig := FindById(node.items, id.value);
          item := MergeConfigNode(orig, was, after.items[i]);
        }
        if item.None? {
          return None;
        }
        AppendItem(out, item.value, MergeItems(node.items, before, after, i + 1));
        out := out + [item.value];
      }
      assert out + [] == out;
      return Some(Sequence(out));
    }
    return Some(after);
  }

  lemma AppendItem(out: seq<Node>, item: Node, rest: Option<seq<Node>>)
    ensures rest.Some? ==> out + ([item] + rest.value) == out + [item] + rest.value
  {
    if rest.Some? {
      assert out + ([item] + rest.value) == out + [item] + rest.value;
    }
  }

  /** The inner loop over the fields of the copy. */
  method Replace(fields: seq<Field>, key: string, value: Node) returns (out: seq<Field>)
    ensures out == SetField(fields, key, value)
  {
    for j := 0 to |fields|
      invariant SetField(fields, key, value) == fields[..j] + SetField(fields[j..], key, value)
    {
      if fields[j].key == key {
        return fields[..j] + [Field(key, value)] + fields[j + 1..];
      }
      assert fields[..j + 1] == fields[..j] + [fields[j]];
    }
    assert fields[..|fields|] == fields;
    return fields + [Field(key, value)];
  }
}
