/**
 The typed configuration: what a schema reads out of a document over its defaults, how fields that
 depend on a neighbour are then adjusted, and what is written. Unknown keys are ignored when
 reading and absent when writing.
 */
module ConfigSchema {
  import opened Basics
  import opened ConfigTree

  /**
   `read` is what loading makes of one scalar: it converts and normalizes it, or rejects it.
   `fallback` is the default for a missing or null scalar.
   */
  datatype LeafSpec = LeafSpec(read: Literal -> Option<Literal>, fallback: Literal)

  /**
   A field that is `omitEmpty` is not written while it has its zero value. A field with `dependsOn` is
   adjusted, after everything has been read, by the scalar with that index in the same mapping.
   */
  datatype Branch = Branch(
    key: string, schema: Schema, omitEmpty: bool, dependsOn: Option<nat>, adjust: (Literal, Literal) -> Literal)

  datatype Schema =
    | Leaf(leaf: LeafSpec)
    | Names(readAll: seq<Literal> -> Option<seq<Literal>>)
    | Items(item: Schema)
    | Struct(branches: seq<Branch>)

  datatype Value =
    | VLeaf(literal: Literal)
    | VNames(names: seq<Literal>)
    | VItems(items: seq<Value>)
    | VStruct(values: seq<Value>)

  // ----- well-formed schemas and values -----

  ghost predicate DistinctKeys(branches: seq<Branch>) {
    forall i, j | 0 <= i < j < |branches| :: branches[i].key != branches[j].key
  }

  /** A scalar as reading leaves it. */
  ghost predicate Normal(s: Schema, l: Literal) {
    s.Leaf? && s.leaf.read(l) == Some(l)
  }

  /**
   What loading does to a scalar that depends on another one. Adjusting twice is adjusting once and
   gives a normalized scalar. And it shows: a value that was changed for one neighbour would not
   have come out the same for another neighbour which accepts it.
   */
  ghost predicate AdjustOk(value: Schema, neighbour: Schema, adjust: (Literal, Literal) -> Literal) {
    && (forall x, c | Normal(value, x) && Normal(neighbour, c) ::
          Normal(value, adjust(x, c)) && adjust(adjust(x, c), c) == adjust(x, c))
    && (forall x, c, d | Normal(value, x) && Normal(neighbour, c) && Normal(neighbour, d) && c != d ::
          adjust(x, c) != x && adjust(adjust(x, c), d) == adjust(x, c) ==> adjust(x, d) != adjust(x, c))
  }

  ghost predicate DependsOk(branches: seq<Branch>, i: nat)
    requires i < |branches|
  {
    branches[i].dependsOn.Some? ==>
      var g := branches[i].dependsOn.value;
      && g < |branches| && branches[g].dependsOn.None? && branches[g].schema.Leaf?
      && branches[i].schema.Leaf? && !branches[i].omitEmpty
      && AdjustOk(branches[i].schema, branches[g].schema, branches[i].adjust)
  }

  /** The id of an item is read from the text alone, and a missing one from the empty text. */
  ghost predicate IdLeafOk(leaf: LeafSpec) {
    && leaf.fallback.text == ""
    && forall l: Literal, m: Literal | l.text == m.text && leaf.read(l).Some? && leaf.read(m).Some? ::
         leaf.read(l).value.text == leaf.read(m).value.text
  }

  ghost predicate ItemSchemaOk(item: Schema) {
    && item.Struct? && |item.branches| > 0
    && (forall i | 0 <= i < |item.branches| :: item.branches[i].schema.Leaf?)
    && var first := item.branches[0];
    first.key == "id" && !first.omitEmpty && first.dependsOn.None? && first.schema.Leaf? && IdLeafOk(first.schema.leaf)
  }

  /** Reading is done once: what was read reads as itself. */
  ghost predicate SchemaOk(s: Schema) {
    match s
    case Leaf(leaf) => forall l :: leaf.read(l).Some? ==> leaf.read(leaf.read(l).value) == leaf.read(l)
    case Names(readAll) => forall l :: readAll(l).Some? ==> readAll(readAll(l).value) == readAll(l)
    case Items(item) => SchemaOk(item) && ItemSchemaOk(item)
    case Struct(branches) =>
      && DistinctKeys(branches)
      && forall i | 0 <= i < |branches| ::
           SchemaOk(branches[i].schema) && DependsOk(branches, i)
               && (branches[i].omitEmpty ==> branches[i].schema.Leaf?)
  }

  function ItemId(v: Value): string {
    if v.VStruct? && |v.values| > 0 && v.values[0].VLeaf? then v.values[0].literal.text else ""
  }

  /** A normalized configuration of the schema, with distinct item ids. */
  ghost predicate Fits(s: Schema, v: Value)
    decreases s, v
  {
    match s
    case Leaf(leaf) => v.VLeaf? && leaf.read(v.literal) == Some(v.literal)
    case Names(readAll) => v.VNames? && readAll(v.names) == Some(v.names)
    case Items(item) =>
      && v.VItems?
      && (forall k | 0 <= k < |v.items| :: Fits(item, v.items[k]))
      && (forall j, k | 0 <= j < k < |v.items| :: ItemId(v.items[j]) != ItemId(v.items[k]))
    case Struct(branches) =>
      && v.VStruct? && |v.values| == |branches|
      && forall i | 0 <= i < |branches| :: Fits(branches[i].schema, v.values[i])
  }

  // ----- reading -----

  function ReadLeaf(leaf: LeafSpec, n: Option<Node>): Option<Literal> {
    if n.None? || n.value.Null? then leaf.read(leaf.fallback)
    else if n.value.Scalar? then leaf.read(n.value.literal)
    else None
  }

  /** The scalars of a list; a null element is the empty string. */
  function ReadNames(items: seq<Node>): Option<seq<Literal>> {
    if items == [] then Some([]) else
    var rest := ReadNames(items[1..]);
    if rest.None? then None
    else if items[0].Null? then Some([Literal(Str, "")] + rest.value)
    else if items[0].Scalar? then Some([items[0].literal] + rest.value)
    else None
  }

  function Breadth(s: Schema): nat {
    if s.Struct? then |s.branches| + 2 else 2
  }

  function Decode(s: Schema, n: Option<Node>): Option<Value>
    decreases s, Breadth(s), 0
  {
    match s
    case Leaf(leaf) =>
      var l := ReadLeaf(leaf, n);
      if l.Some? then Some(VLeaf(l.value)) else None
    case Names(readAll) =>
      if n.Some? && !n.value.Null? && !n.value.Sequence? then None else
      var raw := ReadNames(ItemsOf(n));
      var names := if raw.Some? then readAll(raw.value) else None;
      if names.Some? then Some(VNames(names.value)) else None
    case Items(item) =>
      if n.Some? && !n.value.Null? && !n.value.Sequence? then None else
      var items := DecodeItems(item, ItemsOf(n));
      if items.Some? then Some(VItems(items.value)) else None
    case Struct(branches) =>
      if n.Some? && !n.value.Null? && !n.value.Mapping? then None
      else if n.Some? && n.value.Mapping? && !NoDuplicate(n.value.fields) then None
      else
        var values := DecodeFrom(s, n, 0);
        if values.Some? then Some(VStruct(values.value)) else None
  }

  function DecodeFrom(s: Schema, n: Option<Node>, i: nat): Option<seq<Value>>
    requires s.Struct? && i <= |s.branches|
    decreases s, |s.branches| - i + 1, 0
  {
    if i == |s.branches| then Some([]) else
    var v := Decode(s.branches[i].schema, NodeField(n, s.branches[i].key));
    var rest := DecodeFrom(s, n, i + 1);
    if v.Some? && rest.Some? then Some([v.value] + rest.value) else None
  }

  function DecodeItems(item: Schema, items: seq<Node>): Option<seq<Value>>
    decreases item, Breadth(item) + 1, |items|
  {
    if items == [] then Some([]) else
    var v := Decode(item, Some(items[0]));
    var rest := DecodeItems(item, items[1..]);
    if v.Some? && rest.Some? then Some([v.value] + rest.value) else None
  }

  // ----- adjusting -----

  /** A scalar after its neighbour has been looked at. */
  function Adjusted(b: Branch, values: seq<Value>, v: Value): Value {
    if b.dependsOn.Some? && b.dependsOn.value < |values| && v.VLeaf? && values[b.dependsOn.value].VLeaf?
    then VLeaf(b.adjust(v.literal, values[b.dependsOn.value].literal)) else v
  }

  /** What normalizing makes of a configuration as read. */
  function Settle(s: Schema, v: Value): (r: Value)
    ensures r.VStruct? == v.VStruct? && r.VLeaf? == v.VLeaf? && r.VItems? == v.VItems?
    ensures v.VStruct? ==> |r.values| == |v.values|
    ensures v.VItems? ==> |r.items| == |v.items|
    decreases s
  {
    match (s, v)
    case (Items(item), VItems(items)) =>
      VItems(seq(|items|, k requires 0 <= k < |items| => Settle(item, items[k])))
    case (Struct(branches), VStruct(values)) =>
      if |values| != |branches| then v else
      VStruct(seq(|values|, i requires 0 <= i < |values| =>
          Adjusted(branches[i], values, Settle(branches[i].schema, values[i]))))
    case _ => v
  }

  /** Loading: the document reads as a configuration, and normalizing that gives `v`. */
  ghost predicate Loads(s: Schema, n: Option<Node>, v: Value) {
    Decode(s, n).Some? && Settle(s, Decode(s, n).value) == v
  }

  /** A configuration that normalizing leaves alone. */
  ghost predicate Settled(s: Schema, v: Value) {
    Settle(s, v) == v
  }

  // ----- writing -----

  function Omitted(b: Branch, v: Value): bool {
    b.omitEmpty && b.schema.Leaf? && v == VLeaf(b.schema.leaf.fallback)
  }

  function EncodeNames(names: seq<Literal>): (r: seq<Node>)
    ensures |r| == |names| && forall k | 0 <= k < |r| :: r[k] == Scalar(names[k])
  {
    seq(|names|, k requires 0 <= k < |names| => Scalar(names[k]))
  }

  function Encode(s: Schema, v: Value): Node
    decreases s, Breadth(s), 0
  {
    match (s, v)
    case (Leaf(_), VLeaf(literal)) => Scalar(literal)
    case (Names(_), VNames(names)) => Sequence(EncodeNames(names))
    case (Items(item), VItems(items)) => Sequence(EncodeItems(item, items))
    case (Struct(_), VStruct(values)) => Mapping(if |values| == |s.branches| then EncodeFrom(s, values, 0) else [])
    case _ => Null
  }

  function EncodeFrom(s: Schema, values: seq<Value>, i: nat): seq<Field>
    requires s.Struct? && |values| == |s.branches| && i <= |values|
    decreases s, |s.branches| - i + 1, 0
  {
    if i == |values| then [] else
    var rest := EncodeFrom(s, values, i + 1);
    if Omitted(s.branches[i], values[i]) then rest
    else [Field(s.branches[i].key, Encode(s.branches[i].schema, values[i]))] + rest
  }

  function EncodeItems(item: Schema, items: seq<Value>): (r: seq<Node>)
    ensures |r| == |items|
    decreases item, Breadth(item) + 1, |items|
  {
    if items == [] then [] else [Encode(item, items[0])] + EncodeItems(item, items[1..])
  }

  lemma {:induction false} EncodedItem(item: Schema, items: seq<Value>, k: nat)
    requires k < |items|
    ensures EncodeItems(item, items)[k] == Encode(item, items[k])
  {
    if k > 0 {
      EncodedItem(item, items[1..], k - 1);
    }
  }

  /** The written mapping has one field for each value that is not omitted. */
  lemma {:induction false} EncodedField(s: Schema, values: seq<Value>, i: nat, key: string)
    requires s.Struct? && |values| == |s.branches| && i <= |values| && DistinctKeys(s.branches)
    ensures NoDuplicate(EncodeFrom(s, values, i))
    ensures (forall j | i <= j < |values| :: s.branches[j].key != key) ==> Lookup(EncodeFrom(s, values, i), key).None?
    ensures forall j | i <= j < |values| && s.branches[j].key == key ::
              Lookup(EncodeFrom(s, values, i), key) ==
              if Omitted(s.branches[j], values[j]) then None else Some(Encode(s.branches[j].schema, values[j]))
    decreases |values| - i
  {
    if i < |values| {
      EncodedField(s, values, i + 1, key);
      EncodedField(s, values, i + 1, s.branches[i].key);
    }
  }

  lemma EncodedBranch(s: Schema, values: seq<Value>, j: nat)
    requires s.Struct? && |values| == |s.branches| && DistinctKeys(s.branches) && j < |values|
    ensures NodeField(Some(Encode(s, VStruct(values))), s.branches[j].key) ==
            if Omitted(s.branches[j], values[j]) then None else Some(Encode(s.branches[j].schema, values[j]))
    ensures Encode(s, VStruct(values)).Mapping? && NoDuplicate(Encode(s, VStruct(values)).fields)
  {
    EncodedField(s, values, 0, s.branches[j].key);
  }

  /** Every field written belongs to a branch. */
  lemma {:induction false} EncodedOnlyBranches(s: Schema, values: seq<Value>, i: nat, k: nat) returns (j: nat)
    requires s.Struct? && |values| == |s.branches| && i <= |values| && k < |EncodeFrom(s, values, i)|
    ensures i <= j < |values| && !Omitted(s.branches[j], values[j])
    ensures EncodeFrom(s, values, i)[k] == Field(s.branches[j].key, Encode(s.branches[j].schema, values[j]))
    decreases |values| - i
  {
    if Omitted(s.branches[i], values[i]) {
      j := EncodedOnlyBranches(s, values, i + 1, k);
    } else if k == 0 {
      j := i;
    } else {
      j := EncodedOnlyBranches(s, values, i + 1, k - 1);
    }
  }

  // ----- reading by position -----

  lemma {:induction false} DecodedFrom(s: Schema, n: Option<Node>, i: nat)
    requires s.Struct? && i <= |s.branches|
    ensures DecodeFrom(s, n, i).Some? <==>
            forall j | i <= j < |s.branches| :: Decode(s.branches[j].schema, NodeField(n, s.branches[j].key)).Some?
    ensures DecodeFrom(s, n, i).Some? ==>
              var r := DecodeFrom(s, n, i).value;
              && |r| == |s.branches| - i
              && forall j | i <= j < |s.branches| ::
                   Decode(s.branches[j].schema, NodeField(n, s.branches[j].key)) == Some(r[j - i])
    decreases |s.branches| - i
  {
    if i < |s.branches| {
      DecodedFrom(s, n, i + 1);
    }
  }

  lemma DecodedStruct(s: Schema, n: Option<Node>)
    requires s.Struct? && Decode(s, n).Some?
    ensures Decode(s, n).value.VStruct? && |Decode(s, n).value.values| == |s.branches|
  {
    DecodedFrom(s, n, 0);
  }

  ghost predicate MappingOrMissing(n: Option<Node>) {
    n.None? || n.value.Null? || (n.value.Mapping? && NoDuplicate(n.value.fields))
  }

  ghost predicate FieldsDecodeAs(s: Schema, n: Option<Node>, values: seq<Value>)
    requires s.Struct? && |values| == |s.branches|
  {
    forall j | 0 <= j < |values| :: Decode(s.branches[j].schema, NodeField(n, s.branches[j].key)) == Some(values[j])
  }

  /** A mapping reads as a value exactly if each of its known fields does. */
  lemma DecodesAs(s: Schema, n: Option<Node>, values: seq<Value>)
    requires s.Struct? && |values| == |s.branches|
    ensures Decode(s, n) == Some(VStruct(values)) <==> MappingOrMissing(n) && FieldsDecodeAs(s, n, values)
  {
    FieldsDecode(s, n, values);
  }

  lemma FieldsDecode(s: Schema, n: Option<Node>, values: seq<Value>)
    requires s.Struct? && |values| == |s.branches|
    ensures DecodeFrom(s, n, 0) == Some(values) <==> FieldsDecodeAs(s, n, values)
  {
    DecodedFrom(s, n, 0);
    if FieldsDecodeAs(s, n, values) {
      assert DecodeFrom(s, n, 0).value == values;
    }
  }

  lemma {:induction false} DecodedItems(item: Schema, items: seq<Node>)
    ensures DecodeItems(item, items).Some? <==> forall k | 0 <= k < |items| :: Decode(item, Some(items[k])).Some?
    ensures DecodeItems(item, items).Some? ==>
              && |DecodeItems(item, items).value| == |items|
              && forall k | 0 <= k < |items| :: Decode(item, Some(items[k])) == Some(DecodeItems(item, items).value[k])
  {
    if items != [] {
      DecodedItems(item, items[1..]);
      assert forall k | 1 <= k < |items| :: items[k] == items[1..][k - 1];
      if forall k | 0 <= k < |items| :: Decode(item, Some(items[k])).Some? {
        assert forall k | 0 <= k < |items[1..]| ::
            Decode(item, Some(items[1..][k])) == Decode(item, Some(items[k + 1]));
      }
    }
  }

  lemma ItemsDecodeAs(item: Schema, items: seq<Node>, values: seq<Value>)
    ensures DecodeItems(item, items) == Some(values) <==>
            |items| == |values| && forall k | 0 <= k < |items| :: Decode(item, Some(items[k])) == Some(values[k])
  {
    DecodedItems(item, items);
    if |items| == |values| && forall k | 0 <= k < |items| :: Decode(item, Some(items[k])) == Some(values[k]) {
      assert DecodeItems(item, items).value == values;
    }
  }

  lemma {:induction false} NamesRoundTrip(names: seq<Literal>)
    ensures ReadNames(EncodeNames(names)) == Some(names)
  {
    if names != [] {
      NamesRoundTrip(names[1..]);
      assert EncodeNames(names)[1..] == EncodeNames(names[1..]);
      assert names == [names[0]] + names[1..];
    }
  }

  // ----- reading what was written -----

  /** Decoding undoes encoding. */
  lemma {:induction false} EncodeDecodes(s: Schema, v: Value)
    requires SchemaOk(s) && Fits(s, v)
    ensures Decode(s, Some(Encode(s, v))) == Some(v)
    decreases s, v
  {
    match s
    case Leaf(_) =>
    case Names(_) => NamesRoundTrip(v.names);
    case Items(item) =>
      forall k | 0 <= k < |v.items|
        ensures Decode(item, Some(EncodeItems(item, v.items)[k])) == Some(v.items[k])
      {
        EncodedItem(item, v.items, k);
        EncodeDecodes(item, v.items[k]);
      }
      ItemsDecodeAs(item, EncodeItems(item, v.items), v.items);
    case Struct(branches) =>
      var n := Some(Encode(s, v));
      assert v == VStruct(v.values);
      EncodedField(s, v.values, 0, "");
      forall j | 0 <= j < |branches|
        ensures Decode(branches[j].schema, NodeField(n, branches[j].key)) == Some(v.values[j])
      {
        EncodedBranch(s, v.values, j);
        EncodeDecodes(branches[j].schema, v.values[j]);
      }
      DecodesAs(s, n, v.values);
  }

  lemma {:induction false} AnyFieldsDecodes(fields: seq<Field>)
    requires NoDuplicate(fields) && forall k | 0 <= k < |fields| :: AnyOf(fields[k].value).Some?
    ensures AnyFields(fields).Some?
  {
    if fields != [] {
      assert forall k | 0 <= k < |fields[1..]| :: fields[1..][k] == fields[k + 1];
      AnyFieldsDecodes(fields[1..]);
      AnyLookup(fields[1..], fields[0].key);
    }
  }

  lemma {:induction false} AnyItemsDecodes(items: seq<Node>)
    requires forall k | 0 <= k < |items| :: AnyOf(items[k]).Some?
    ensures AnyItems(items).Some?
  {
    if items != [] {
      assert forall k | 0 <= k < |items[1..]| :: items[1..][k] == items[k + 1];
      AnyItemsDecodes(items[1..]);
    }
  }

  lemma {:induction false} EncodedIsAny(s: Schema, v: Value)
    requires SchemaOk(s) && Fits(s, v)
    ensures AnyOf(Encode(s, v)).Some?
    decreases s, v
  {
    match s
    case Leaf(_) =>
    case Names(_) => AnyItemsDecodes(EncodeNames(v.names));
    case Items(item) =>
      forall k | 0 <= k < |v.items|
        ensures AnyOf(EncodeItems(item, v.items)[k]).Some?
      {
        EncodedItem(item, v.items, k);
        EncodedIsAny(item, v.items[k]);
      }
      AnyItemsDecodes(EncodeItems(item, v.items));
    case Struct(branches) =>
      var fields := EncodeFrom(s, v.values, 0);
      EncodedField(s, v.values, 0, "");
      forall k | 0 <= k < |fields|
        ensures AnyOf(fields[k].value).Some?
      {
        var j := EncodedOnlyBranches(s, v.values, 0, k);
        EncodedIsAny(branches[j].schema, v.values[j]);
      }
      AnyFieldsDecodes(fields);
  }

  /** Comparing written trees is comparing configurations. */
  lemma EqualMeansSame(s: Schema, a: Value, b: Value)
    requires SchemaOk(s) && Fits(s, a) && Fits(s, b)
    ensures EqualNode(Some(Encode(s, a)), Some(Encode(s, b))) <==> a == b
  {
    EncodedIsAny(s, a);
    if EqualNode(Some(Encode(s, a)), Some(Encode(s, b))) {
      EqualMeansSameValue(s, a, b);
    }
  }

  lemma {:induction false} EqualMeansSameValue(s: Schema, a: Value, b: Value)
    requires SchemaOk(s) && Fits(s, a) && Fits(s, b)
    requires EqualNode(Some(Encode(s, a)), Some(Encode(s, b)))
    ensures a == b
    decreases s, a
  {
    match s
    case Leaf(_) =>
    case Names(_) =>
      EqualSequences(EncodeNames(a.names), EncodeNames(b.names));
      assert forall k | 0 <= k < |a.names| :: a.names[k] == b.names[k] by {
        forall k | 0 <= k < |a.names|
          ensures a.names[k] == b.names[k]
        {
          assert EqualNode(Some(EncodeNames(a.names)[k]), Some(EncodeNames(b.names)[k]));
        }
      }
    case Items(item) =>
      EqualSequences(EncodeItems(item, a.items), EncodeItems(item, b.items));
      forall k | 0 <= k < |a.items|
        ensures a.items[k] == b.items[k]
      {
        EncodedItem(item, a.items, k);
        EncodedItem(item, b.items, k);
        EqualMeansSameValue(item, a.items[k], b.items[k]);
      }
    case Struct(branches) =>
      forall j | 0 <= j < |branches|
        ensures a.values[j] == b.values[j]
      {
        assert a == VStruct(a.values) && b == VStruct(b.values);
        EncodedBranch(s, a.values, j);
        EncodedBranch(s, b.values, j);
        EqualMappings(EncodeFrom(s, a.values, 0), EncodeFrom(s, b.values, 0), branches[j].key);
        if !Omitted(branches[j], a.values[j]) {
          EqualMeansSameValue(branches[j].schema, a.values[j], b.values[j]);
        }
      }
  }
}
