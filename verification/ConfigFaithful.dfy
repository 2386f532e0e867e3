/**
 When a merged document loads as the new configuration: the exact condition, field by field, on
 what the document says, what it was last loaded as, and what is saved.
 */
module ConfigFaithful {
  import opened Basics
  import opened ConfigTree
  import opened ConfigSchema
  import opened ConfigMerge

  // ----- what is known of a document about to be merged into -----

  /**
   `b` is the configuration the document was last loaded or saved as, or None for a resource that
   has just moved here. Where something is to be kept, the document loads as it.
   */
  ghost predicate Known(s: Schema, o: Option<Node>, b: Option<Value>, a: Value)
    decreases s, 1
  {
    match s
    case Leaf(_) => b == Some(a) ==> Decode(s, o) == Some(a)
    case Names(_) => b == Some(a) ==> Decode(s, o) == Some(a)
    case Items(item) =>
      if b == Some(a) then Loads(s, o, a)
      else a.VItems? && forall k | 0 <= k < |a.items| :: ItemKnown(item, o, b, a.items[k])
    case Struct(branches) =>
      && a.VStruct? && |a.values| == |branches|
      && (b.Some? ==> b.value.VStruct? && |b.value.values| == |branches|)
      && forall i | 0 <= i < |branches| :: FieldKnown(s, o, b, a, i)
  }

  ghost predicate FieldKnown(s: Schema, o: Option<Node>, b: Option<Value>, a: Value, i: nat)
    requires s.Struct? && a.VStruct? && i < |a.values| == |s.branches|
    decreases s, 0
  {
    var branch := s.branches[i];
    if branch.dependsOn.None? then Known(branch.schema, NodeField(o, branch.key), BranchOf(b, i), a.values[i])
    else b.Some? ==> DependentKnown(s, o, b.value, i)
  }

  /** A dependent field of the earlier configuration is the adjusted one of the document. */
  ghost predicate DependentKnown(s: Schema, o: Option<Node>, b: Value, i: nat)
    requires s.Struct? && i < |s.branches| && s.branches[i].dependsOn.Some?
  {
    var branch, g := s.branches[i], s.branches[i].dependsOn.value;
    && g < |s.branches| && b.VStruct? && |b.values| == |s.branches|
    && var raw, guide := Decode(branch.schema, NodeField(o, branch.key)),
        Decode(s.branches[g].schema, NodeField(o, s.branches[g].key));
    && raw.Some? && guide.Some? && raw.value.VLeaf? && guide.value.VLeaf?
    && b.values[i] == VLeaf(branch.adjust(raw.value.literal, guide.value.literal))
    && b.values[g] == guide.value
  }

  ghost predicate ItemKnown(item: Schema, o: Option<Node>, b: Option<Value>, now: Value)
    decreases item, 2
  {
    var orig := FindById(ItemsOf(o), ItemId(now));
    orig.Some? ==> Known(item, orig, ItemOf(b, ItemId(now)), now)
  }

  // ----- the condition -----

  /**
   The document does not bring back anything the new configuration has replaced. There are two
   ways it could: a field that is left out because it has become empty stands in the document with
   another value; or a field that did not change was written differently from how it was loaded,
   because of the neighbour it depends on, and that neighbour changes now.
   */
  ghost predicate Faithful(s: Schema, o: Option<Node>, b: Option<Value>, a: Value)
    decreases s, 1
  {
    match s
    case Items(item) =>
        b != Some(a) && a.VItems? ==> forall k | 0 <= k < |a.items| :: ItemFaithful(item, o, b, a.items[k])
    case Struct(branches) =>
      o.Some? && o.value.Mapping? && a.VStruct? && |a.values| == |branches| ==>
        forall i | 0 <= i < |branches| :: FieldFaithful(s, o, b, a, i)
    case _ => true
  }

  ghost predicate ItemFaithful(item: Schema, o: Option<Node>, b: Option<Value>, now: Value)
    decreases item, 2
  {
    var orig := FindById(ItemsOf(o), ItemId(now));
    orig.Some? ==> Faithful(item, orig, ItemOf(b, ItemId(now)), now)
  }

  ghost predicate FieldFaithful(s: Schema, o: Option<Node>, b: Option<Value>, a: Value, i: nat)
    requires s.Struct? && a.VStruct? && i < |a.values| == |s.branches|
    decreases s, 0
  {
    var branch := s.branches[i];
    var part := NodeField(o, branch.key);
    && Faithful(branch.schema, part, BranchOf(b, i), a.values[i])
    && (Omitted(branch, a.values[i]) || KeptBesideChange(branch, b, a, i)
        ==> Decode(branch.schema, part) == Some(a.values[i]))
  }

  /** The field stays as it is written while the neighbour it depends on changes. */
  predicate KeptBesideChange(branch: Branch, b: Option<Value>, a: Value, i: nat)
    requires a.VStruct? && i < |a.values|
  {
    && branch.dependsOn.Some? && BranchOf(b, i) == Some(a.values[i])
    && var g := branch.dependsOn.value; g < |a.values| && BranchOf(b, g) != Some(a.values[g])
  }

  // ----- the condition is exact -----

  lemma ReadIsNormal(s: Schema, n: Option<Node>)
    requires SchemaOk(s) && s.Leaf? && Decode(s, n).Some?
    ensures Decode(s, n).value.VLeaf? && Normal(s, Decode(s, n).value.literal)
  {
  }

  /** A mapping is patched field by field, also when nothing has changed. */
  lemma PatchedStruct(s: Schema, o: Option<Node>, b: Option<Value>, a: Value)
    requires SchemaOk(s) && Fits(s, a) && s.Struct? && Decode(s, o).Some? && o.Some? && o.value.Mapping?
    ensures var p := Patched(s, o, b, a);
            && p.VStruct? && |p.values| == |s.branches|
            && forall i | 0 <= i < |s.branches| :: p.values[i] == PatchedField(s, o, b, a, i)
  {
    var p := Patched(s, o, b, a);
    if b == Some(a) {
      DecodedStruct(s, o);
      DecodesAs(s, o, p.values);
      forall i | 0 <= i < |s.branches|
        ensures p.values[i] == PatchedField(s, o, b, a, i)
      {
        assert BranchOf(b, i) == Some(a.values[i]);
      }
    }
  }

  /** A field that depends on nothing loads as its new value exactly if it is faithful. */
  lemma {:induction false} PlainField(s: Schema, o: Option<Node>, b: Option<Value>, a: Value, i: nat)
    requires SchemaOk(s) && Fits(s, a) && Settled(s, a) && (b.Some? ==> Fits(s, b.value))
    requires s.Struct? && Decode(s, o).Some? && Known(s, o, b, a) && i < |s.branches| && s.branches[i].dependsOn.None?
    ensures Settle(s.branches[i].schema, PatchedField(s, o, b, a, i)) == a.values[i] <==> FieldFaithful(s, o, b, a, i)
    decreases s, 0
  {
    var branch := s.branches[i];
    var part := NodeField(o, branch.key);
    PartDecodes(s, o, i);
    assert FieldKnown(s, o, b, a, i);
    assert Settle(s, a).values[i] == Settle(branch.schema, a.values[i]);
    if !Omitted(branch, a.values[i]) {
      FaithfulIff(branch.schema, part, BranchOf(b, i), a.values[i]);
    }
  }

  /** Beside a neighbour that loads as its new value, so does a dependent field exactly if it is faithful. */
  lemma DependentField(s: Schema, o: Option<Node>, b: Option<Value>, a: Value, i: nat)
    requires SchemaOk(s) && Fits(s, a) && Settled(s, a) && (b.Some? ==> Fits(s, b.value))
    requires s.Struct? && Decode(s, o).Some? && Known(s, o, b, a) && i < |s.branches| && s.branches[i].dependsOn.Some?
    ensures var branch, p := s.branches[i], PatchedField(s, o, b, a, i);
            && p.VLeaf? && a.values[branch.dependsOn.value].VLeaf?
            && (VLeaf(branch.adjust(p.literal, a.values[branch.dependsOn.value].literal)) == a.values[i]
                <==> FieldFaithful(s, o, b, a, i))
  {
    var branch := s.branches[i];
    var g := branch.dependsOn.value;
    assert DependsOk(s.branches, i);
    PartDecodes(s, o, i);
    ReadIsNormal(branch.schema, NodeField(o, branch.key));
    assert FieldKnown(s, o, b, a, i);
    assert Fits(branch.schema, a.values[i]) && Fits(s.branches[g].schema, a.values[g]);
    assert Settle(s, a).values[i] == Adjusted(branch, a.values, a.values[i]);
    if BranchOf(b, i) == Some(a.values[i]) {
      assert Fits(s.branches[g].schema, b.value.values[g]);
      Kept(branch.schema, s.branches[g].schema, branch.adjust,
          Decode(branch.schema, NodeField(o, branch.key)).value.literal,
           b.value.values[g].literal, a.values[g].literal);
    }
  }

  /**
   What was written as `x` and loaded as `adjust(x, c)` beside `c` loads as the same beside `d` only
   if nothing was adjusted or `d` is `c`.
   */
  lemma Kept(value: Schema, guide: Schema, adjust: (Literal, Literal) -> Literal, x: Literal, c: Literal, d: Literal)
    requires AdjustOk(value, guide, adjust) && Normal(value, x) && Normal(guide, c) && Normal(guide, d)
    requires adjust(adjust(x, c), d) == adjust(x, c)
    ensures adjust(x, d) == adjust(x, c) <==> x == adjust(x, c) || c == d
  {
  }

  /** The merged document loads as the new configuration exactly if it is faithful. */
  lemma {:induction false} FaithfulIff(s: Schema, o: Option<Node>, b: Option<Value>, a: Value)
    requires SchemaOk(s) && Fits(s, a) && Settled(s, a) && (b.Some? ==> Fits(s, b.value))
    requires Decode(s, o).Some? && Known(s, o, b, a)
    ensures Settle(s, Patched(s, o, b, a)) == a <==> Faithful(s, o, b, a)
    decreases s, 3
  {
    match s
    case Leaf(_) =>
    case Names(_) =>
    case Items(item) =>
      if b != Some(a) {
        ItemsFaithfulIff(item, o, b, a);
      }
    case Struct(_) =>
      if o.Some? && o.value.Mapping? {
        StructFaithfulIff(s, o, b, a);
      } else if b == Some(a) {
        MissingLoads(s, o, b, a);
      }
  }

  lemma {:induction false} StructFaithfulIff(s: Schema, o: Option<Node>, b: Option<Value>, a: Value)
    requires SchemaOk(s) && Fits(s, a) && Settled(s, a) && (b.Some? ==> Fits(s, b.value))
    requires s.Struct? && Decode(s, o).Some? && Known(s, o, b, a) && o.Some? && o.value.Mapping?
    ensures Settle(s, Patched(s, o, b, a)) == a <==> Faithful(s, o, b, a)
    decreases s, 2
  {
    PatchedStruct(s, o, b, a);
    var r := Settle(s, Patched(s, o, b, a));
    assert a == VStruct(a.values);
    assert Faithful(s, o, b, a) <==> AllFaithful(s, o, b, a);
    if Faithful(s, o, b, a) {
      forall i | 0 <= i < |s.branches|
        ensures r.values[i] == a.values[i]
      {
        FieldLoadsIff(s, o, b, a, i);
        if s.branches[i].dependsOn.Some? {
          FieldLoadsIff(s, o, b, a, s.branches[i].dependsOn.value);
        }
      }
      assert r.values == a.values;
    }
    if r == a {
      forall i | 0 <= i < |s.branches|
        ensures FieldFaithful(s, o, b, a, i)
      {
        FieldLoadsIff(s, o, b, a, i);
      }
    }
  }

  ghost predicate AllFaithful(s: Schema, o: Option<Node>, b: Option<Value>, a: Value)
    requires s.Struct? && a.VStruct? && |a.values| == |s.branches|
  {
    forall i | 0 <= i < |s.branches| :: FieldFaithful(s, o, b, a, i)
  }

  /** One field of the merged mapping, after normalizing. */
  lemma {:induction false} FieldLoadsIff(s: Schema, o: Option<Node>, b: Option<Value>, a: Value, i: nat)
    requires SchemaOk(s) && Fits(s, a) && Settled(s, a) && (b.Some? ==> Fits(s, b.value))
    requires s.Struct? && Decode(s, o).Some? && Known(s, o, b, a) && o.Some? && o.value.Mapping? && i < |s.branches|
    ensures var r, on := Settle(s, Patched(s, o, b, a)), s.branches[i].dependsOn;
            && r.VStruct? && |r.values| == |s.branches|
            && (on.Some? ==> on.value < |s.branches| && s.branches[on.value].dependsOn.None?)
            && (on.None? || r.values[on.value] == a.values[on.value] ==>
                  (r.values[i] == a.values[i] <==> FieldFaithful(s, o, b, a, i)))
    decreases s, 1
  {
    PatchedStruct(s, o, b, a);
    assert DependsOk(s.branches, i);
    if s.branches[i].dependsOn.None? {
      PlainField(s, o, b, a, i);
    } else {
      DependentField(s, o, b, a, i);
    }
  }

  /** A missing section that has not changed loads as it did. */
  lemma {:induction false} MissingLoads(s: Schema, o: Option<Node>, b: Option<Value>, a: Value)
    requires SchemaOk(s) && Fits(s, a) && Settled(s, a) && b == Some(a)
    requires Decode(s, o).Some? && Known(s, o, b, a)
    ensures Loads(s, o, a)
    decreases s
  {
    if s.Struct? {
      var d := Decode(s, o).value;
      DecodedStruct(s, o);
      DecodesAs(s, o, d.values);
      assert a == VStruct(a.values);
      forall i | 0 <= i < |s.branches|
        ensures Settle(s, d).values[i] == a.values[i]
      {
        assert FieldKnown(s, o, b, a, i) && DependsOk(s.branches, i);
        assert Settle(s, a).values[i] == Adjusted(s.branches[i], a.values, Settle(s.branches[i].schema, a.values[i]));
        if s.branches[i].dependsOn.None? {
          MissingLoads(s.branches[i].schema, NodeField(o, s.branches[i].key), BranchOf(b, i), a.values[i]);
        }
      }
      assert Settle(s, d).values == a.values;
    }
  }

  lemma {:induction false} ItemsFaithfulIff(item: Schema, o: Option<Node>, b: Option<Value>, a: Value)
    requires SchemaOk(Items(item)) && Fits(Items(item), a) && Settled(Items(item), a)
    requires (b.Some? ==> Fits(Items(item), b.value))
    requires Decode(Items(item), o).Some? && Known(Items(item), o, b, a) && b != Some(a)
    ensures Settle(Items(item), Patched(Items(item), o, b, a)) == a <==> Faithful(Items(item), o, b, a)
    decreases item, 4
  {
    var p := Patched(Items(item), o, b, a);
    var r := Settle(Items(item), p);
    forall k | 0 <= k < |a.items|
      ensures r.items[k] == a.items[k] <==> ItemFaithful(item, o, b, a.items[k])
    {
      var id := ItemId(a.items[k]);
      var orig := FindById(ItemsOf(o), id);
      assert Settle(Items(item), a).items[k] == Settle(item, a.items[k]);
      if orig.Some? {
        FoundDecodes(item, o, id);
        ItemBefore(item, b, id);
        assert ItemKnown(item, o, b, a.items[k]);
        FaithfulIff(item, orig, ItemOf(b, id), a.items[k]);
      }
    }
    if Faithful(Items(item), o, b, a) {
      assert r.items == a.items;
    }
  }

  /** Putting the two together: what a merge gives, and when it is what was meant. */
  lemma MergeLoadsIff(s: Schema, o: Option<Node>, b: Option<Value>, a: Value)
    requires SchemaOk(s) && Fits(s, a) && Settled(s, a) && (b.Some? ==> Fits(s, b.value))
    requires Decode(s, o).Some? && Known(s, o, b, a)
    ensures var r := Merge(o, EncodeOption(s, b), Encode(s, a));
            r.Some? && Loads(s, r, a) <==> !Lost(s, o, b, a) && Faithful(s, o, b, a)
  {
    MergeDecodes(s, o, b, a);
    FaithfulIff(s, o, b, a);
  }
}
