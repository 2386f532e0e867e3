/**
 The merge against the schema: what the merged document reads as, when there is one at all, when
 loading it gives the new configuration, and that every key the schema does not know stays.
 */
module ConfigMerge {
  import opened Basics
  import opened ConfigTree
  import opened ConfigSchema

  function EncodeOption(s: Schema, v: Option<Value>): Option<Node> {
    if v.Some? then Some(Encode(s, v.value)) else None
  }

  function FindValue(items: seq<Value>, id: string): Option<Value> {
    if items == [] then None
    else if ItemId(items[0]) == id then Some(items[0])
    else FindValue(items[1..], id)
  }

  /** The part of the earlier configuration that belongs to a field, or to the item with an id. */
  function BranchOf(b: Option<Value>, i: nat): Option<Value> {
    if b.Some? && b.value.VStruct? && i < |b.value.values| then Some(b.value.values[i]) else None
  }

  function ItemOf(b: Option<Value>, id: string): Option<Value> {
    if b.Some? && b.value.VItems? then FindValue(b.value.items, id) else None
  }

  /** What the document reads as where it stays as it is. */
  ghost function ReadOr(s: Schema, o: Option<Node>, v: Value): Value {
    if Decode(s, o).Some? then Decode(s, o).value else v
  }

  /**
   What the merged document reads as. Parts that did not change stay, and are read from the document
   once more; so are changed fields that are left out because they have become empty.
   */
  ghost function Patched(s: Schema, o: Option<Node>, b: Option<Value>, a: Value): Value
    decreases s
  {
    if b == Some(a) then ReadOr(s, o, a) else
    match (s, a)
    case (Items(item), VItems(items)) =>
      VItems(seq(|items|, k requires 0 <= k < |items| =>
        var orig := FindById(ItemsOf(o), ItemId(items[k]));
        if orig.None? then items[k] else Patched(item, orig, ItemOf(b, ItemId(items[k])), items[k])))
    case (Struct(branches), VStruct(values)) =>
      if o.None? || !o.value.Mapping? || |values| != |branches| then a else
      VStruct(seq(|values|, i requires 0 <= i < |values| =>
        var part := NodeField(o, branches[i].key);
        if Omitted(branches[i], values[i]) then ReadOr(branches[i].schema, part, values[i])
        else Patched(branches[i].schema, part, BranchOf(b, i), values[i])))
    case _ => a
  }

  /**
   The merge has nothing to put in a place: somewhere below, in a list that changed, an item is what
   it was, and the document has no item under its id.
   */
  ghost predicate Lost(s: Schema, o: Option<Node>, b: Option<Value>, a: Value)
    decreases s, 1
  {
    if b == Some(a) then o.None?
    else if o.None? then false
    else
      match (s, a)
      case (Items(item), VItems(items)) =>
        o.value.Sequence? && exists k | 0 <= k < |items| :: ItemLost(item, o, b, items[k])
      case (Struct(branches), VStruct(values)) =>
        o.value.Mapping? && |values| == |branches| && exists i | 0 <= i < |values| :: FieldLost(s, o, b, a, i)
      case _ => false
  }

  ghost predicate FieldLost(s: Schema, o: Option<Node>, b: Option<Value>, a: Value, i: nat)
    requires s.Struct? && a.VStruct? && i < |a.values| == |s.branches|
    decreases s, 0
  {
    && !Omitted(s.branches[i], a.values[i]) && BranchOf(b, i) != Some(a.values[i])
    && Lost(s.branches[i].schema, NodeField(o, s.branches[i].key), BranchOf(b, i), a.values[i])
  }

  ghost predicate ItemLost(item: Schema, o: Option<Node>, b: Option<Value>, now: Value)
    decreases item, 2
  {
    Lost(item, FindById(ItemsOf(o), ItemId(now)), ItemOf(b, ItemId(now)), now)
  }

  // ----- items by id -----

  lemma EncodedId(item: Schema, v: Value)
    requires SchemaOk(Items(item)) && Fits(item, v)
    ensures IdOf(Encode(item, v)) == Some(ItemId(v))
  {
    assert v == VStruct(v.values);
    assert Fits(item.branches[0].schema, v.values[0]);
    EncodedBranch(item, v.values, 0);
  }

  lemma {:induction false} FindEncoded(item: Schema, items: seq<Value>, id: string)
    requires SchemaOk(Items(item)) && forall k | 0 <= k < |items| :: Fits(item, items[k])
    ensures FindById(EncodeItems(item, items), id) == EncodeOption(item, FindValue(items, id))
  {
    if items != [] {
      EncodedId(item, items[0]);
      FindEncoded(item, items[1..], id);
    }
  }

  lemma {:induction false} FoundValue(items: seq<Value>, id: string)
    ensures FindValue(items, id).Some?
            ==> FindValue(items, id).value in items && ItemId(FindValue(items, id).value) == id
    ensures FindValue(items, id).None? ==> forall v | v in items :: ItemId(v) != id
  {
    if items != [] && ItemId(items[0]) != id {
      FoundValue(items[1..], id);
      assert items == [items[0]] + items[1..];
    }
  }

  /** Items found by id decode if all do. */
  lemma FoundDecodes(item: Schema, o: Option<Node>, id: string)
    requires Decode(Items(item), o).Some? && FindById(ItemsOf(o), id).Some?
    ensures Decode(item, FindById(ItemsOf(o), id)).Some?
  {
    FoundById(ItemsOf(o), id);
    DecodedItems(item, ItemsOf(o));
    var k :| 0 <= k < |ItemsOf(o)| && ItemsOf(o)[k] == FindById(ItemsOf(o), id).value;
  }

  /** The baseline's item under an id. */
  lemma ItemBefore(item: Schema, b: Option<Value>, id: string)
    requires SchemaOk(Items(item)) && (b.Some? ==> Fits(Items(item), b.value))
    ensures FindById(ItemsOf(EncodeOption(Items(item), b)), id) == EncodeOption(item, ItemOf(b, id))
    ensures ItemOf(b, id).Some? ==> Fits(item, ItemOf(b, id).value)
  {
    if b.Some? {
      FindEncoded(item, b.value.items, id);
      FoundValue(b.value.items, id);
    }
  }

  // ----- what the merged document reads as -----

  /** A changed scalar or list of scalars is written as it is. */
  lemma MergePlain(o: Option<Node>, before: Option<Node>, after: Node)
    requires after.Scalar? || (after.Sequence? && forall k | 0 <= k < |after.items| :: after.items[k].Scalar?)
    requires !EqualNode(before, Some(after))
    ensures Merge(o, before, after) == Some(after)
  {
    if o.Some? && after.Sequence? && o.value.Sequence? {
      MergedItems(o.value.items, before, after, 0);
      assert MergeItems(o.value.items, before, after, 0).value == after.items;
    }
  }

  /** The parts of a mapping that decodes decode. */
  lemma PartDecodes(s: Schema, o: Option<Node>, i: nat)
    requires s.Struct? && Decode(s, o).Some? && i < |s.branches|
    ensures Decode(s.branches[i].schema, NodeField(o, s.branches[i].key)).Some?
  {
    DecodedFrom(s, o, 0);
  }

  /**
   There is a merged document exactly if no unchanged item is lost, and it reads as the new
   configuration patched over what the document says.
   */
  lemma {:induction false} MergeDecodes(s: Schema, o: Option<Node>, b: Option<Value>, a: Value)
    requires SchemaOk(s) && Fits(s, a) && (b.Some? ==> Fits(s, b.value)) && Decode(s, o).Some?
    ensures var r := Merge(o, EncodeOption(s, b), Encode(s, a));
            && (r.None? <==> Lost(s, o, b, a))
            && (r.Some? ==> Decode(s, r) == Some(Patched(s, o, b, a)))
    decreases s, 3
  {
    var before, after := EncodeOption(s, b), Encode(s, a);
    if b.Some? {
      EqualMeansSame(s, b.value, a);
    }
    EncodeDecodes(s, a);
    if b == Some(a) {
    } else if o.Some? {
      match s
      case Leaf(_) => MergePlain(o, before, after);
      case Names(_) => MergePlain(o, before, after);
      case Items(item) =>
        if o.value.Sequence? {
          MergeItemsDecode(item, o, b, a);
        } else {
          NothingFound(item, o, b, a);
        }
      case Struct(_) =>
        assert a == VStruct(a.values);
        if o.value.Mapping? {
          MergeStructDecodes(s, o, b, a);
        }
    } else if s.Items? {
      NothingFound(s.item, o, b, a);
    }
  }

  lemma NothingFound(item: Schema, o: Option<Node>, b: Option<Value>, a: Value)
    requires ItemsOf(o) == [] && a.VItems? && b != Some(a)
    ensures Patched(Items(item), o, b, a) == a
  {
    assert Patched(Items(item), o, b, a).items == a.items;
  }

  /** What one field of the merged mapping reads as. */
  ghost function PatchedField(s: Schema, o: Option<Node>, b: Option<Value>, a: Value, i: nat): Value
    requires s.Struct? && a.VStruct? && i < |a.values| == |s.branches|
  {
    var part := NodeField(o, s.branches[i].key);
    if Omitted(s.branches[i], a.values[i]) then ReadOr(s.branches[i].schema, part, a.values[i])
    else Patched(s.branches[i].schema, part, BranchOf(b, i), a.values[i])
  }

  /** One written field: skipped if it is what it was, or merged. */
  lemma {:induction false} BranchMerges(s: Schema, o: Option<Node>, b: Option<Value>, a: Value, j: nat)
    requires SchemaOk(s) && Fits(s, a) && (b.Some? ==> Fits(s, b.value)) && Decode(s, o).Some?
    requires s.Struct? && j < |s.branches| && !Omitted(s.branches[j], a.values[j])
    ensures var branch := s.branches[j];
            var part, was, now := NodeField(o, branch.key), NodeField(EncodeOption(s, b), branch.key),
                Encode(branch.schema, a.values[j]);
            && (EqualNode(was, Some(now)) <==> BranchOf(b, j) == Some(a.values[j]))
            && if EqualNode(was, Some(now)) then Decode(branch.schema, part) == Some(PatchedField(s, o, b, a, j))
               else && (Merge(part, was, now).None? <==> FieldLost(s, o, b, a, j))
                    && (Merge(part, was, now).Some?
                        ==> Decode(branch.schema, Merge(part, was, now)) == Some(PatchedField(s, o, b, a, j)))
    decreases s, 0
  {
    var branch, now := s.branches[j], a.values[j];
    var part := NodeField(o, branch.key);
    PartDecodes(s, o, j);
    if b.None? {
      MergeDecodes(branch.schema, part, None, now);
    } else {
      assert b.value == VStruct(b.value.values);
      var earlier := b.value.values[j];
      EncodedBranch(s, b.value.values, j);
      if Omitted(branch, earlier) {
        MergePlain(part, None, Encode(branch.schema, now));
        EncodeDecodes(branch.schema, now);
      } else {
        EqualMeansSame(branch.schema, earlier, now);
        MergeDecodes(branch.schema, part, Some(earlier), now);
      }
    }
  }

  lemma {:induction false} MergeStructDecodes(s: Schema, o: Option<Node>, b: Option<Value>, a: Value)
    requires SchemaOk(s) && Fits(s, a) && (b.Some? ==> Fits(s, b.value)) && Decode(s, o).Some?
    requires s.Struct? && o.Some? && o.value.Mapping? && b != Some(a)
    ensures var r := Merge(o, EncodeOption(s, b), Encode(s, a));
            && (r.None? <==> Lost(s, o, b, a))
            && (r.Some? ==> Decode(s, r) == Some(Patched(s, o, b, a)))
    decreases s, 2
  {
    var before, after := EncodeOption(s, b), Encode(s, a);
    assert a == VStruct(a.values);
    if b.Some? {
      EqualMeansSame(s, b.value, a);
    }
    EncodedField(s, a.values, 0, "");
    assert after.fields[0..] == after.fields;
    if i :| 0 <= i < |a.values| && FieldLost(s, o, b, a, i) {
      EncodedBranch(s, a.values, i);
      BranchMerges(s, o, b, a, i);
      if MergeFields(o.value.fields, o.value, before, after, 0).Some? {
        MergedField(o.value.fields, o.value, before, after, 0, s.branches[i].key);
        assert false;
      }
    } else {
      StructMerges(s, o, b, a);
    }
  }

  lemma {:induction false} StructMerges(s: Schema, o: Option<Node>, b: Option<Value>, a: Value)
    requires SchemaOk(s) && Fits(s, a) && (b.Some? ==> Fits(s, b.value)) && Decode(s, o).Some?
    requires s.Struct? && o.Some? && o.value.Mapping? && b != Some(a)
    requires forall i | 0 <= i < |a.values| :: !FieldLost(s, o, b, a, i)
    ensures var r := Merge(o, EncodeOption(s, b), Encode(s, a));
            r.Some? && Decode(s, r) == Some(Patched(s, o, b, a))
    decreases s, 1
  {
    var before, after := EncodeOption(s, b), Encode(s, a);
    assert a == VStruct(a.values);
    if b.Some? {
      EqualMeansSame(s, b.value, a);
    }
    EncodedField(s, a.values, 0, "");
    forall k | 0 <= k < |after.fields|
      ensures FieldMerges(o.value, before, after.fields[k])
    {
      var j := EncodedOnlyBranches(s, a.values, 0, k);
      BranchMerges(s, o, b, a, j);
    }
    FieldsMerge(o.value.fields, o.value, before, after, 0);
    var r := Merge(o, before, after);
    assert after.fields[0..] == after.fields;
    var patched := Patched(s, o, b, a).values;
    forall j | 0 <= j < |s.branches|
      ensures Decode(s.branches[j].schema, NodeField(r, s.branches[j].key)) == Some(patched[j])
    {
      EncodedBranch(s, a.values, j);
      MergedField(o.value.fields, o.value, before, after, 0, s.branches[j].key);
      if Omitted(s.branches[j], a.values[j]) {
        PartDecodes(s, o, j);
      } else {
        BranchMerges(s, o, b, a, j);
      }
    }
    MergedField(o.value.fields, o.value, before, after, 0, "");
    DecodesAs(s, r, patched);
  }

  ghost function PatchedItem(item: Schema, o: Option<Node>, b: Option<Value>, now: Value): Value {
    var orig := FindById(ItemsOf(o), ItemId(now));
    if orig.None? then now else Patched(item, orig, ItemOf(b, ItemId(now)), now)
  }

  lemma {:induction false} MergeOneItem(item: Schema, o: Option<Node>, b: Option<Value>, now: Value)
    requires SchemaOk(Items(item)) && Fits(item, now) && (b.Some? ==> Fits(Items(item), b.value))
    requires Decode(Items(item), o).Some?
    ensures var r := MergeItem(ItemsOf(o), EncodeOption(Items(item), b), Encode(item, now));
            && (r.None? <==> ItemLost(item, o, b, now))
            && (r.Some? ==> Decode(item, r) == Some(PatchedItem(item, o, b, now)) && IdOf(r.value) == Some(ItemId(now)))
    decreases item, 4
  {
    var id := ItemId(now);
    var was, orig := ItemOf(b, id), FindById(ItemsOf(o), id);
    EncodedId(item, now);
    ItemBefore(item, b, id);
    FoundById(ItemsOf(o), id);
    MergedId(item, orig, was, now);
    if orig.Some? {
      FoundDecodes(item, o, id);
      MergeDecodes(item, orig, was, now);
    } else {
      if was.Some? {
        EqualMeansSame(item, was.value, now);
      }
      EncodeDecodes(item, now);
    }
  }

  /** A merged item keeps the id it was found by. */
  lemma MergedId(item: Schema, orig: Option<Node>, was: Option<Value>, now: Value)
    requires SchemaOk(Items(item)) && Fits(item, now)
    requires orig.Some? ==> IdOf(orig.value) == Some(ItemId(now))
    ensures var r := Merge(orig, EncodeOption(item, was), Encode(item, now));
            r.Some? ==> IdOf(r.value) == Some(ItemId(now))
  {
    var before, after := EncodeOption(item, was), Encode(item, now);
    var r := Merge(orig, before, after);
    EncodedId(item, now);
    if r.Some? && orig.Some? && !EqualNode(before, Some(after)) {
      assert now == VStruct(now.values);
      EncodedBranch(item, now.values, 0);
      assert after.fields[0..] == after.fields;
      MergedField(orig.value.fields, orig.value, before, after, 0, "id");
      assert Fits(item.branches[0].schema, now.values[0]);
      var id := Scalar(now.values[0].literal);
      if !EqualNode(NodeField(before, "id"), Some(id)) {
        MergePlain(NodeField(orig, "id"), NodeField(before, "id"), id);
      }
    }
  }

  lemma {:induction false} MergeItemsDecode(item: Schema, o: Option<Node>, b: Option<Value>, a: Value)
    requires SchemaOk(Items(item)) && Fits(Items(item), a) && (b.Some? ==> Fits(Items(item), b.value))
    requires Decode(Items(item), o).Some? && o.Some? && o.value.Sequence? && b != Some(a)
    ensures var r := Merge(o, EncodeOption(Items(item), b), Encode(Items(item), a));
            && (r.None? <==> Lost(Items(item), o, b, a))
            && (r.Some? ==> Decode(Items(item), r) == Some(Patched(Items(item), o, b, a)))
    decreases item, 5
  {
    var before, after := EncodeOption(Items(item), b), Encode(Items(item), a);
    if b.Some? {
      EqualMeansSame(Items(item), b.value, a);
    }
    assert after.Sequence? && |after.items| == |a.items|;
    forall k | 0 <= k < |a.items|
      ensures ItemMergesAs(item, o, b, a.items[k], MergeItem(o.value.items, before, after.items[k]))
    {
      EncodedItem(item, a.items, k);
      MergeOneItem(item, o, b, a.items[k]);
    }
    ListLostMeans(item, o, b, a);
    ListPatchedMeans(item, o, b, a);
    hide ItemMergesAs, Decode, Lost, Patched, Encode, Fits, SchemaOk, MergeItems;
    ItemsMergeAs(item, o, b, a.items, before, after, Patched(Items(item), o, b, a).items);
  }

  /** One item of the list: lost, or merged to what it is patched to. */
  ghost predicate ItemMergesAs(item: Schema, o: Option<Node>, b: Option<Value>, now: Value, r: Option<Node>) {
    && (r.None? <==> ItemLost(item, o, b, now))
    && (r.Some? ==> Decode(item, r) == Some(PatchedItem(item, o, b, now)))
  }

  lemma ItemsMergeAs(
    item: Schema, o: Option<Node>, b: Option<Value>, items: seq<Value>, before: Option<Node>, after: Node,
        patched: seq<Value>)
    requires after.Sequence? && |after.items| == |items| == |patched|
    requires forall k | 0 <= k < |items| ::
             ItemMergesAs(item, o, b, items[k], MergeItem(ItemsOf(o), before, after.items[k]))
    requires forall k | 0 <= k < |items| :: patched[k] == PatchedItem(item, o, b, items[k])
    ensures var merged := MergeItems(ItemsOf(o), before, after, 0);
            && (merged.None? <==> exists k | 0 <= k < |items| :: ItemLost(item, o, b, items[k]))
            && (merged.Some? ==> Decode(Items(item), Some(Sequence(merged.value))) == Some(VItems(patched)))
  {
    hide MergeItems, MergeItem, Decode, ItemLost, PatchedItem;
    if k :| 0 <= k < |items| && ItemLost(item, o, b, items[k]) {
      if MergeItems(ItemsOf(o), before, after, 0).Some? {
        MergedItemAt(ItemsOf(o), before, after, 0, k);
        assert false;
      }
    } else {
      MergedItems(ItemsOf(o), before, after, 0);
      SequenceDecodes(item, MergeItems(ItemsOf(o), before, after, 0).value, patched);
    }
  }

  lemma ListLostMeans(item: Schema, o: Option<Node>, b: Option<Value>, a: Value)
    requires o.Some? && o.value.Sequence? && a.VItems? && b != Some(a)
    ensures Lost(Items(item), o, b, a) <==> exists k | 0 <= k < |a.items| :: ItemLost(item, o, b, a.items[k])
  {
  }

  lemma ListPatchedMeans(item: Schema, o: Option<Node>, b: Option<Value>, a: Value)
    requires a.VItems? && b != Some(a)
    ensures var p := Patched(Items(item), o, b, a);
            p.VItems? && |p.items| == |a.items| && forall k | 0 <= k < |a.items| ::
                p.items[k] == PatchedItem(item, o, b, a.items[k])
  {
  }

  lemma SequenceDecodes(item: Schema, items: seq<Node>, values: seq<Value>)
    requires |items| == |values| && forall k | 0 <= k < |items| :: Decode(item, Some(items[k])) == Some(values[k])
    ensures Decode(Items(item), Some(Sequence(items))) == Some(VItems(values))
  {
    ItemsDecodeAs(item, items, values);
  }

  lemma {:induction false} MergedItemAt(original: seq<Node>, before: Option<Node>, after: Node, i: nat, k: nat)
    requires after.Sequence? && i <= k < |after.items| && MergeItems(original, before, after, i).Some?
    ensures |MergeItems(original, before, after, i).value| == |after.items| - i
    ensures MergeItem(original, before, after.items[k]) == Some(MergeItems(original, before, after, i).value[k - i])
    decreases k - i
  {
    MergedLength(original, before, after, i);
    if i < k {
      MergedItemAt(original, before, after, i + 1, k);
    }
  }

  lemma {:induction false} MergedLength(original: seq<Node>, before: Option<Node>, after: Node, i: nat)
    requires after.Sequence? && i <= |after.items| && MergeItems(original, before, after, i).Some?
    ensures |MergeItems(original, before, after, i).value| == |after.items| - i
    decreases |after.items| - i
  {
    if i < |after.items| {
      MergedLength(original, before, after, i + 1);
    }
  }

  /** Inside a mapping with scalar fields only, such as an item, nothing can be lost. */
  lemma ItemLostIff(item: Schema, orig: Option<Node>, was: Option<Value>, now: Value)
    requires item.Struct? && forall i | 0 <= i < |item.branches| :: item.branches[i].schema.Leaf?
    ensures Lost(item, orig, was, now) <==> was == Some(now) && orig.None?
  {
    if now.VStruct? && |now.values| == |item.branches| {
      forall i | 0 <= i < |now.values|
        ensures !FieldLost(item, orig, was, now, i)
      {
        assert item.branches[i].schema.Leaf?;
      }
    }
  }

  lemma ListLost(item: Schema, items: seq<Node>, b: Value, a: Value)
    requires ItemSchemaOk(item) && a.VItems? && b.VItems? && a != b
    ensures Lost(Items(item), Some(Sequence(items)), Some(b), a)
            <==> exists k :: 0 <= k < |a.items| && FindById(items, ItemId(a.items[k])).None?
                             && FindValue(b.items, ItemId(a.items[k])) == Some(a.items[k])
  {
    var o := Some(Sequence(items));
    forall k | 0 <= k < |a.items|
      ensures ItemLost(item, o, Some(b), a.items[k])
              <==> && FindById(items, ItemId(a.items[k])).None?
                   && FindValue(b.items, ItemId(a.items[k])) == Some(a.items[k])
    {
      ItemLostIff(item, FindById(items, ItemId(a.items[k])), ItemOf(Some(b), ItemId(a.items[k])), a.items[k]);
    }
  }

  /**
   For every list of a document, with ids written in any way: the merge of a changed list fails
   exactly if some item of the new list equals the baseline's item of its id, and no item of the
   document is written with that id.
   */
  lemma ListLostIff(item: Schema, items: seq<Node>, b: Value, a: Value)
    requires SchemaOk(Items(item)) && Fits(Items(item), a) && Fits(Items(item), b) && a != b
    requires Decode(Items(item), Some(Sequence(items))).Some?
    ensures Merge(Some(Sequence(items)), Some(Encode(Items(item), b)), Encode(Items(item), a)).None?
            <==> exists k :: 0 <= k < |a.items| && FindById(items, ItemId(a.items[k])).None?
                             && FindValue(b.items, ItemId(a.items[k])) == Some(a.items[k])
  {
    hide Merge, Decode, Lost;
    MergeDecodes(Items(item), Some(Sequence(items)), Some(b), a);
    ListLost(item, items, b, a);
  }
}
