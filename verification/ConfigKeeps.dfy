/** The merge keeps every key the schema does not know, at every level, in every item that stays. */
module ConfigKeeps {
  import opened Basics
  import opened ConfigTree
  import opened ConfigSchema
  import opened ConfigMerge

  ghost predicate UnknownTo(s: Schema, key: string) {
    s.Struct? ==> forall i | 0 <= i < |s.branches| :: s.branches[i].key != key
  }

  /**
   Every key outside the schema has the value it had, at every level; and every item written under
   an id that the new configuration `a` still has is still there under that id.
   */
  ghost predicate Keeps(s: Schema, o: Option<Node>, r: Option<Node>, a: Value)
    decreases s, 0
  {
    match (s, a)
    case (Struct(branches), VStruct(values)) =>
      o.Some? && o.value.Mapping? && |values| == |branches| ==>
        && r.Some? && r.value.Mapping?
        && (forall key: string | UnknownTo(s, key) :: NodeField(r, key) == NodeField(o, key))
        && forall i | 0 <= i < |branches| ::
             Keeps(branches[i].schema, NodeField(o, branches[i].key), NodeField(r, branches[i].key), values[i])
    case (Items(item), VItems(items)) =>
      forall k, x | 0 <= k < |items| && x in ItemsOf(o) && IdOf(x) == Some(ItemId(items[k])) ::
          ItemKept(item, x, r, items[k])
    case _ => true
  }

  ghost predicate ItemKept(item: Schema, x: Node, r: Option<Node>, now: Value)
    decreases item, 1
  {
    var y := FindById(ItemsOf(r), ItemId(now));
    y.Some? && Keeps(item, Some(x), y, now)
  }

  /** In every list, no two items are written with the same id. */
  ghost predicate IdsUnique(s: Schema, n: Option<Node>) {
    match s
    case Items(item) => UniqueIds(ItemsOf(n))
    case Struct(branches) =>
      forall i | 0 <= i < |branches| :: IdsUnique(branches[i].schema, NodeField(n, branches[i].key))
    case _ => true
  }

  // ----- ids as written and as read -----

  /** What an id is read as. */
  lemma ReadId(item: Schema, x: Node)
    requires SchemaOk(Items(item)) && Decode(item, Some(x)).Some?
    ensures Decode(item, Some(x)).value.VStruct?
    ensures var v := Decode(item, Some(x)).value;
            |v.values| > 0 && Decode(item.branches[0].schema, NodeField(Some(x), "id")) == Some(v.values[0])
                && v.values[0].VLeaf?
  {
    DecodedStruct(item, Some(x));
    DecodesAs(item, Some(x), Decode(item, Some(x)).value.values);
  }

  /** Items written with the same id are read with the same id. */
  lemma SameTextSameId(item: Schema, x: Node, y: Node)
    requires SchemaOk(Items(item)) && Decode(item, Some(x)).Some? && Decode(item, Some(y)).Some?
    requires IdOf(x).Some? && IdOf(x) == IdOf(y)
    ensures ItemId(Decode(item, Some(x)).value) == ItemId(Decode(item, Some(y)).value)
  {
    ReadId(item, x);
    ReadId(item, y);
  }

  /** An item written with a normalized id is read with it. */
  lemma NormalIdIsRead(item: Schema, x: Node, now: Value)
    requires SchemaOk(Items(item)) && Decode(item, Some(x)).Some? && Fits(item, now) && IdOf(x) == Some(ItemId(now))
    ensures ItemId(Decode(item, Some(x)).value) == ItemId(now)
  {
    ReadId(item, x);
    assert Fits(item.branches[0].schema, now.values[0]);
    var l := now.values[0].literal;
    assert item.branches[0].schema.leaf.read(l) == Some(l);
  }

  lemma SettledId(item: Schema, v: Value)
    requires ItemSchemaOk(item) && v.VStruct? && |v.values| == |item.branches|
    ensures ItemId(Settle(item, v)) == ItemId(v)
  {
    assert Settle(item, v).values[0] == v.values[0];
  }

  /** The items of a list that loads, one by one. */
  lemma LoadedItems(item: Schema, n: Option<Node>, v: Value)
    requires SchemaOk(Items(item)) && Loads(Items(item), n, v)
    ensures v.VItems? && |v.items| == |ItemsOf(n)|
    ensures forall k | 0 <= k < |v.items| ::
              Decode(item, Some(ItemsOf(n)[k])).Some?
                  && ItemId(Decode(item, Some(ItemsOf(n)[k])).value) == ItemId(v.items[k])
    ensures forall k | 0 <= k < |v.items| :: Loads(item, Some(ItemsOf(n)[k]), v.items[k])
  {
    DecodedItems(item, ItemsOf(n));
    forall k | 0 <= k < |v.items|
      ensures ItemId(Decode(item, Some(ItemsOf(n)[k])).value) == ItemId(v.items[k])
    {
      DecodedStruct(item, Some(ItemsOf(n)[k]));
      SettledId(item, Decode(item, Some(ItemsOf(n)[k])).value);
    }
  }

  /** A field that depends on nothing loads by itself. */
  lemma FieldLoads(s: Schema, n: Option<Node>, v: Value, i: nat)
    requires SchemaOk(s) && s.Struct? && Loads(s, n, v) && i < |s.branches| && s.branches[i].dependsOn.None?
    ensures v.VStruct? && |v.values| == |s.branches|
    ensures Loads(s.branches[i].schema, NodeField(n, s.branches[i].key), v.values[i])
  {
    DecodedStruct(s, n);
    var d := Decode(s, n).value;
    DecodesAs(s, n, d.values);
    assert Settle(s, d).values[i] == Settle(s.branches[i].schema, d.values[i]);
  }

  lemma FindMember(items: seq<Node>, x: Node)
    requires UniqueIds(items) && x in items && IdOf(x).Some?
    ensures FindById(items, IdOf(x).value) == Some(x)
  {
    var k :| 0 <= k < |items| && items[k] == x;
    FindUnique(items, k);
  }

  // ----- keeping -----

  lemma {:induction false} KeepsSelf(s: Schema, o: Option<Node>, a: Value)
    requires SchemaOk(s) && IdsUnique(s, o)
    ensures Keeps(s, o, o, a)
    decreases s
  {
    match (s, a)
    case (Struct(branches), VStruct(values)) =>
      if |values| == |branches| {
        forall i | 0 <= i < |branches|
          ensures Keeps(branches[i].schema, NodeField(o, branches[i].key), NodeField(o, branches[i].key), values[i])
        {
          KeepsSelf(branches[i].schema, NodeField(o, branches[i].key), values[i]);
        }
      }
    case (Items(item), VItems(items)) =>
      forall k, x | 0 <= k < |items| && x in ItemsOf(o) && IdOf(x) == Some(ItemId(items[k]))
        ensures ItemKept(item, x, o, items[k])
      {
        FindMember(ItemsOf(o), x);
        ItemKeepsSelf(item, x, items[k]);
      }
    case _ =>
  }

  lemma ItemKeepsSelf(item: Schema, x: Node, a: Value)
    requires ItemSchemaOk(item)
    ensures Keeps(item, Some(x), Some(x), a)
  {
  }

  /** Merging keeps every key outside the schema. */
  lemma {:induction false} MergeKeeps(s: Schema, o: Option<Node>, b: Option<Value>, a: Value)
    requires SchemaOk(s) && Fits(s, a) && (b.Some? ==> Fits(s, b.value)) && IdsUnique(s, o)
    requires Merge(o, EncodeOption(s, b), Encode(s, a)).Some?
    ensures Keeps(s, o, Merge(o, EncodeOption(s, b), Encode(s, a)), a)
    decreases s, 3
  {
    if b == Some(a) {
      EqualMeansSame(s, a, a);
      KeepsSelf(s, o, a);
    } else if o.Some? && s.Struct? && o.value.Mapping? {
      StructKeeps(s, o, b, a);
    } else if o.Some? && s.Items? && o.value.Sequence? {
      ItemsKeep(s.item, o, b, a);
    }
  }

  lemma {:induction false} StructKeeps(s: Schema, o: Option<Node>, b: Option<Value>, a: Value)
    requires SchemaOk(s) && Fits(s, a) && (b.Some? ==> Fits(s, b.value)) && IdsUnique(s, o)
    requires s.Struct? && o.Some? && o.value.Mapping? && b != Some(a)
    requires Merge(o, EncodeOption(s, b), Encode(s, a)).Some?
    ensures Keeps(s, o, Merge(o, EncodeOption(s, b), Encode(s, a)), a)
    decreases s, 2
  {
    var before, after := EncodeOption(s, b), Encode(s, a);
    var r := Merge(o, before, after);
    assert a == VStruct(a.values);
    if b.Some? {
      EqualMeansSame(s, b.value, a);
    }
    assert after.fields[0..] == after.fields;
    forall key: string
      ensures var now := Lookup(after.fields, key);
              if now.None? || EqualNode(NodeField(before, key), now) then NodeField(r, key) == NodeField(o, key)
              else && NodeField(r, key).Some?
                   && NodeField(r, key) == Merge(NodeField(o, key), NodeField(before, key), now.value)
    {
      EncodedField(s, a.values, 0, key);
      MergedField(o.value.fields, o.value, before, after, 0, key);
    }
    forall key: string | UnknownTo(s, key)
      ensures NodeField(r, key) == NodeField(o, key)
    {
      EncodedField(s, a.values, 0, key);
    }
    forall j | 0 <= j < |s.branches|
      ensures Keeps(s.branches[j].schema, NodeField(o, s.branches[j].key), NodeField(r, s.branches[j].key), a.values[j])
    {
      if !s.branches[j].schema.Leaf? {
        EncodedBranch(s, a.values, j);
        BranchKeeps(s, o, b, a, j);
      }
    }
  }

  lemma {:induction false} BranchKeeps(s: Schema, o: Option<Node>, b: Option<Value>, a: Value, j: nat)
    requires SchemaOk(s) && Fits(s, a) && (b.Some? ==> Fits(s, b.value)) && IdsUnique(s, o)
    requires s.Struct? && j < |s.branches| && !s.branches[j].schema.Leaf?
    requires var branch := s.branches[j];
             var part, was, now := NodeField(o, branch.key), NodeField(EncodeOption(s, b), branch.key),
                 Encode(branch.schema, a.values[j]);
             !EqualNode(was, Some(now)) ==> Merge(part, was, now).Some?
    ensures var branch := s.branches[j];
            var part, was, now := NodeField(o, branch.key), NodeField(EncodeOption(s, b), branch.key),
                Encode(branch.schema, a.values[j]);
            Keeps(branch.schema, part, if EqualNode(was, Some(now)) then part else Merge(part, was, now), a.values[j])
    decreases s, 0
  {
    var branch, now := s.branches[j], a.values[j];
    var part := NodeField(o, branch.key);
    if b.None? {
      MergeKeeps(branch.schema, part, None, now);
    } else {
      assert b.value == VStruct(b.value.values);
      EncodedBranch(s, b.value.values, j);
      EqualMeansSame(branch.schema, b.value.values[j], now);
      if b.value.values[j] == now {
        KeepsSelf(branch.schema, part, now);
      } else {
        MergeKeeps(branch.schema, part, Some(b.value.values[j]), now);
      }
    }
  }

  lemma {:induction false} ItemsKeep(item: Schema, o: Option<Node>, b: Option<Value>, a: Value)
    requires SchemaOk(Items(item)) && Fits(Items(item), a) && (b.Some? ==> Fits(Items(item), b.value))
    requires o.Some? && UniqueIds(ItemsOf(o)) && b != Some(a) && o.value.Sequence?
    requires Merge(o, EncodeOption(Items(item), b), Encode(Items(item), a)).Some?
    ensures Keeps(Items(item), o, Merge(o, EncodeOption(Items(item), b), Encode(Items(item), a)), a)
    decreases item, 5
  {
    var before, after := EncodeOption(Items(item), b), Encode(Items(item), a);
    if b.Some? {
      EqualMeansSame(Items(item), b.value, a);
    }
    var merged := MergeItems(o.value.items, before, after, 0).value;
    MergedLength(o.value.items, before, after, 0);
    forall k | 0 <= k < |a.items|
      ensures IdOf(merged[k]) == Some(ItemId(a.items[k]))
      ensures var x := FindById(o.value.items, ItemId(a.items[k]));
              x.Some? ==> Keeps(item, x, Some(merged[k]), a.items[k])
    {
      MergedItemAt(o.value.items, before, after, 0, k);
      ItemKeeps(item, o, b, a, k, merged[k]);
    }
    forall k, x | 0 <= k < |a.items| && x in o.value.items && IdOf(x) == Some(ItemId(a.items[k]))
      ensures ItemKept(item, x, Some(Sequence(merged)), a.items[k])
    {
      FindMember(o.value.items, x);
      FindUnique(merged, k);
    }
  }

  lemma {:induction false} ItemKeeps(item: Schema, o: Option<Node>, b: Option<Value>, a: Value, k: nat, y: Node)
    requires SchemaOk(Items(item)) && Fits(Items(item), a) && (b.Some? ==> Fits(Items(item), b.value))
    requires k < |a.items|
    requires MergeItem(ItemsOf(o), EncodeOption(Items(item), b), EncodeItems(item, a.items)[k]) == Some(y)
    ensures IdOf(y) == Some(ItemId(a.items[k]))
    ensures var x := FindById(ItemsOf(o), ItemId(a.items[k]));
            x.Some? ==> Keeps(item, x, Some(y), a.items[k])
    decreases item, 4
  {
    EncodedItem(item, a.items, k);
    EncodedId(item, a.items[k]);
    var id := ItemId(a.items[k]);
    var was, orig := ItemOf(b, id), FindById(ItemsOf(o), id);
    ItemBefore(item, b, id);
    FoundById(ItemsOf(o), id);
    MergedId(item, orig, was, a.items[k]);
    assert IdsUnique(item, orig);
    MergeKeeps(item, orig, was, a.items[k]);
  }
}
