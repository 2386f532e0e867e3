/**
 A document that holds a configuration: it can be read, and its lists have the items of the
 configuration, by id. This is less than loading as the configuration, and every save keeps it.
 */
module ConfigHolds {
  import opened Basics
  import opened ConfigTree
  import opened ConfigSchema
  import opened ConfigMerge
  import opened ConfigKeeps

  /** The lists of both configurations have the same ids in the same order. */
  ghost predicate SameIds(s: Schema, d: Value, v: Value)
    decreases s
  {
    match s
    case Items(_) =>
      && d.VItems? && v.VItems? && |d.items| == |v.items|
      && forall k | 0 <= k < |v.items| :: ItemId(d.items[k]) == ItemId(v.items[k])
    case Struct(branches) =>
      && d.VStruct? && v.VStruct? && |d.values| == |v.values| == |branches|
      && forall i | 0 <= i < |branches| :: SameIds(branches[i].schema, d.values[i], v.values[i])
    case _ => true
  }

  ghost predicate Holds(s: Schema, n: Option<Node>, v: Value) {
    Decode(s, n).Some? && SameIds(s, Decode(s, n).value, v)
  }

  lemma {:induction false} SameIdsReflexive(s: Schema, v: Value)
    requires Fits(s, v)
    ensures SameIds(s, v, v)
    decreases s
  {
    if s.Struct? {
      forall i | 0 <= i < |s.branches|
        ensures SameIds(s.branches[i].schema, v.values[i], v.values[i])
      {
        SameIdsReflexive(s.branches[i].schema, v.values[i]);
      }
    }
  }

  /** A document holds what it loads as. */
  lemma {:induction false} LoadsHolds(s: Schema, n: Option<Node>, v: Value)
    requires SchemaOk(s) && Loads(s, n, v)
    ensures Holds(s, n, v)
    decreases s
  {
    match s
    case Items(item) =>
      LoadedItems(item, n, v);
      DecodedItems(item, ItemsOf(n));
    case Struct(branches) =>
      DecodedStruct(s, n);
      DecodesAs(s, n, Decode(s, n).value.values);
      forall i | 0 <= i < |branches|
        ensures SameIds(branches[i].schema, Decode(s, n).value.values[i], v.values[i])
      {
        if branches[i].schema.Struct? || branches[i].schema.Items? {
          FieldLoads(s, n, v, i);
          LoadsHolds(branches[i].schema, NodeField(n, branches[i].key), v.values[i]);
        }
      }
    case _ =>
  }

  /** The items of a list that is held, one by one. */
  lemma HeldItems(item: Schema, n: Option<Node>, v: Value)
    requires Holds(Items(item), n, v)
    ensures v.VItems? && |v.items| == |ItemsOf(n)|
    ensures forall k | 0 <= k < |v.items| ::
              && Decode(item, Some(ItemsOf(n)[k])).Some?
              && ItemId(Decode(item, Some(ItemsOf(n)[k])).value) == ItemId(v.items[k])
  {
    DecodedItems(item, ItemsOf(n));
  }

  lemma HeldField(s: Schema, n: Option<Node>, v: Value, i: nat)
    requires s.Struct? && Holds(s, n, v) && i < |s.branches|
    ensures v.VStruct? && |v.values| == |s.branches|
    ensures Holds(s.branches[i].schema, NodeField(n, s.branches[i].key), v.values[i])
  {
    DecodedStruct(s, n);
    DecodesAs(s, n, Decode(s, n).value.values);
  }

  /** A document that holds a valid configuration has no two items written with the same id in one list. */
  lemma {:induction false} HeldIdsUnique(s: Schema, n: Option<Node>, v: Value)
    requires SchemaOk(s) && Fits(s, v) && Holds(s, n, v)
    ensures IdsUnique(s, n)
    decreases s
  {
    match s
    case Items(item) =>
      HeldItems(item, n, v);
      forall i, j | 0 <= i < j < |ItemsOf(n)| && IdOf(ItemsOf(n)[i]).Some?
        ensures IdOf(ItemsOf(n)[i]) != IdOf(ItemsOf(n)[j])
      {
        if IdOf(ItemsOf(n)[i]) == IdOf(ItemsOf(n)[j]) {
          SameTextSameId(item, ItemsOf(n)[i], ItemsOf(n)[j]);
        }
      }
    case Struct(branches) =>
      forall i | 0 <= i < |branches|
        ensures IdsUnique(branches[i].schema, NodeField(n, branches[i].key))
      {
        HeldField(s, n, v, i);
        HeldIdsUnique(branches[i].schema, NodeField(n, branches[i].key), v.values[i]);
      }
    case _ =>
  }

  // ----- a merge keeps it -----

  /** Where a list has not changed, the document holds it. */
  ghost predicate KeptLists(s: Schema, o: Option<Node>, b: Value, a: Value)
    decreases s
  {
    match s
    case Items(_) => b == a ==> Holds(s, o, a)
    case Struct(branches) =>
      b.VStruct? && a.VStruct? && |b.values| == |a.values| == |branches| ==>
        forall i | 0 <= i < |branches| ::
          KeptLists(branches[i].schema, NodeField(o, branches[i].key), b.values[i], a.values[i])
    case _ => true
  }

  lemma {:induction false} HeldIsKept(s: Schema, o: Option<Node>, b: Value, a: Value)
    requires Holds(s, o, b)
    ensures KeptLists(s, o, b, a)
    decreases s
  {
    if s.Struct? && b.VStruct? && a.VStruct? && |b.values| == |a.values| == |s.branches| {
      forall i | 0 <= i < |s.branches|
        ensures KeptLists(s.branches[i].schema, NodeField(o, s.branches[i].key), b.values[i], a.values[i])
      {
        HeldField(s, o, b, i);
        HeldIsKept(s.branches[i].schema, NodeField(o, s.branches[i].key), b.values[i], a.values[i]);
      }
    }
  }

  /** A document with nothing changed holds what it held. */
  lemma {:induction false} KeptHolds(s: Schema, o: Option<Node>, a: Value)
    requires Fits(s, a) && Decode(s, o).Some? && KeptLists(s, o, a, a)
    ensures Holds(s, o, a)
    decreases s
  {
    if s.Struct? {
      DecodedStruct(s, o);
      DecodesAs(s, o, Decode(s, o).value.values);
      forall i | 0 <= i < |s.branches|
        ensures SameIds(s.branches[i].schema, Decode(s, o).value.values[i], a.values[i])
      {
        KeptHolds(s.branches[i].schema, NodeField(o, s.branches[i].key), a.values[i]);
      }
    }
  }

  /** A patched item has the id it was found by. */
  lemma PatchedId(item: Schema, orig: Node, was: Option<Value>, now: Value)
    requires SchemaOk(Items(item)) && Fits(item, now) && Decode(item, Some(orig)).Some?
    requires IdOf(orig) == Some(ItemId(now))
    ensures ItemId(Patched(item, Some(orig), was, now)) == ItemId(now)
  {
    NormalIdIsRead(item, orig, now);
    if was != Some(now) {
      ReadId(item, orig);
      var id := item.branches[0];
      assert !Omitted(id, now.values[0]) && Fits(id.schema, now.values[0]);
      assert Patched(item, Some(orig), was, now).values[0]
          == Patched(id.schema, NodeField(Some(orig), "id"), BranchOf(was, 0), now.values[0]);
    }
  }

  /** What a merge reads as has the lists of the new configuration, whether or not it is that configuration. */
  lemma {:induction false} PatchedSameIds(s: Schema, o: Option<Node>, b: Value, a: Value)
    requires SchemaOk(s) && Fits(s, a) && Fits(s, b) && Decode(s, o).Some? && KeptLists(s, o, b, a)
    ensures SameIds(s, Patched(s, o, Some(b), a), a)
    decreases s
  {
    SameIdsReflexive(s, a);
    if b == a {
      KeptHolds(s, o, a);
    } else {
      match s
      case Items(item) =>
        var p := Patched(s, o, Some(b), a);
        forall k | 0 <= k < |a.items|
          ensures ItemId(p.items[k]) == ItemId(a.items[k])
        {
          var id := ItemId(a.items[k]);
          if FindById(ItemsOf(o), id).Some? {
            FoundById(ItemsOf(o), id);
            FoundDecodes(item, o, id);
            PatchedId(item, FindById(ItemsOf(o), id).value, ItemOf(Some(b), id), a.items[k]);
          }
        }
      case Struct(branches) =>
        if o.Some? && o.value.Mapping? {
          forall i | 0 <= i < |branches|
            ensures SameIds(branches[i].schema, PatchedField(s, o, Some(b), a, i), a.values[i])
          {
            PartDecodes(s, o, i);
            PatchedSameIds(branches[i].schema, NodeField(o, branches[i].key), b.values[i], a.values[i]);
          }
        }
      case _ =>
    }
  }

  /** A merged document holds the new configuration. */
  lemma MergeHolds(s: Schema, o: Option<Node>, b: Value, a: Value)
    requires SchemaOk(s) && Fits(s, a) && Fits(s, b) && Decode(s, o).Some? && KeptLists(s, o, b, a)
    ensures var r := Merge(o, Some(Encode(s, b)), Encode(s, a));
            r.Some? ==> Holds(s, r, a)
  {
    MergeDecodes(s, o, Some(b), a);
    PatchedSameIds(s, o, b, a);
  }
}
