/**
 Saving the program's configuration as a whole: exactly when a save reads back, said of the
 document, the baseline and the new configuration as a caller has them.
 */
module ConfigProgramSave {
  import opened Basics
  import opened ConfigTree
  import opened ConfigSchema
  import opened ConfigMerge
  import opened ConfigKeeps
  import opened ConfigHolds
  import opened ConfigFaithful
  import opened ConfigCarry
  import opened ConfigSave
  import opened ConfigProgram
  import opened ConfigSaveLimits

  // ----- fields that cannot come back -----

  ghost predicate ReadsText(s: Schema) {
    s.Leaf? && forall l :: s.leaf.read(l) == Some(l) ==> l.tag == Str
  }

  /**
   Nothing of the section is ever left out, and only items look at a neighbour: at their id, which
   is text, as the roots of the file picker do for their name.
   */
  ghost predicate Steady(s: Schema) {
    match s
    case Items(item) =>
      item.Struct? && forall i | 0 <= i < |item.branches| ::
        && !item.branches[i].omitEmpty && item.branches[i].schema.Leaf?
        && (item.branches[i].dependsOn.Some?
            ==> item.branches[i].dependsOn == Some(0) && ReadsText(item.branches[0].schema))
    case Struct(branches) =>
      forall i | 0 <= i < |branches| ::
        !branches[i].omitEmpty && branches[i].dependsOn.None? && Steady(branches[i].schema)
    case _ => true
  }

  ghost predicate AllSteady(branches: seq<Branch>) {
    StandAlone(branches) && forall i | 0 <= i < |branches| :: !branches[i].omitEmpty && Steady(branches[i].schema)
  }

  /** Two normalized texts of the same id are the same literal. */
  lemma SameId(item: Schema, was: Value, now: Value)
    requires SchemaOk(Items(item)) && ReadsText(item.branches[0].schema) && Fits(item, was) && Fits(item, now)
    requires ItemId(was) == ItemId(now)
    ensures was.values[0] == now.values[0]
  {
    var id := item.branches[0].schema;
    assert Fits(id, was.values[0]) && Fits(id, now.values[0]);
  }

  lemma SteadyItem(item: Schema, orig: Option<Node>, was: Option<Value>, now: Value)
    requires SchemaOk(Items(item)) && Steady(Items(item)) && Fits(item, now)
    requires was.Some? ==> Fits(item, was.value) && ItemId(was.value) == ItemId(now)
    ensures Faithful(item, orig, was, now)
  {
    forall i | 0 <= i < |item.branches|
      ensures FieldFaithful(item, orig, was, now, i)
    {
      if was.Some? && item.branches[i].dependsOn.Some? {
        SameId(item, was.value, now);
      }
    }
  }

  lemma {:induction false} SteadyFaithful(s: Schema, o: Option<Node>, b: Value, a: Value)
    requires SchemaOk(s) && Steady(s) && Fits(s, a) && Fits(s, b)
    ensures Faithful(s, o, Some(b), a)
    decreases s
  {
    match s
    case Items(item) =>
      forall k | 0 <= k < |a.items|
        ensures ItemFaithful(item, o, Some(b), a.items[k])
      {
        var id := ItemId(a.items[k]);
        ItemBefore(item, Some(b), id);
        FoundValue(b.items, id);
        SteadyItem(item, FindById(ItemsOf(o), id), ItemOf(Some(b), id), a.items[k]);
      }
    case Struct(branches) =>
      forall i | 0 <= i < |branches|
        ensures FieldFaithful(s, o, Some(b), a, i)
      {
        SteadyFaithful(branches[i].schema, NodeField(o, branches[i].key), b.values[i], a.values[i]);
      }
    case _ =>
  }

  // ----- one resource, wherever it was -----

  /** A value of the resource schema, field by field. */
  function AsResource(v: Value): Resource {
    if v.VStruct? && |v.values| == 6 && forall i | 0 <= i < 6 :: v.values[i].VLeaf? then
      Resource(v.values[ID].literal.text, v.values[NAME].literal.text, v.values[TYPE].literal.text,
               v.values[PATH].literal.text, v.values[DOWNLOAD].literal == Truth(true), v.values[UPLOAD].literal
                   == Truth(true))
    else Resource("", "", "", "", false, false)
  }

  lemma FieldFits(s: Schema, v: Value, i: nat)
    requires s.Struct? && Fits(s, v) && i < |s.branches| && s.branches[i].schema.Leaf?
    ensures |v.values| == |s.branches| && v.values[i].VLeaf? && Normal(s.branches[i].schema, v.values[i].literal)
  {
    assert Fits(s.branches[i].schema, v.values[i]);
  }

  lemma IsResource(t: Texts, inDirs: bool, v: Value)
    requires Fits(ResourceSchema(t, inDirs), v)
    ensures ResourceValue(AsResource(v)) == v && ItemId(v) == AsResource(v).id
  {
    var item := ResourceSchema(t, inDirs);
    ResourceBranches(t, inDirs);
    hide ResourceSchema;
    forall i | 0 <= i < 6
      ensures v.values[i].VLeaf? && Normal(item.branches[i].schema, v.values[i].literal)
    {
      FieldFits(item, v, i);
    }
    ResourceValues(AsResource(v));
    assert ResourceValue(AsResource(v)).values == v.values;
  }

  /** The document writes a type for the resource that is not read as empty in this list. */
  ghost predicate WritesType(t: Texts, inDirs: bool, o: Node) {
    Decode(Leaf(TypeLeaf(t, inDirs)), NodeField(Some(o), "type")) != Some(VLeaf(Text("")))
  }

  /**
   The document brings something of the resource back: a type although it is now empty, or uploads
   when a file of this list stops being one. `was` is None if the resource has just come to the list.
   */
  ghost predicate Reverts(t: Texts, inDirs: bool, o: Node, was: Option<Value>, now: Resource) {
    || (now.kind == "" && WritesType(t, inDirs, o))
    || (was.Some? && FreesUpload(t, o, AsResource(was.value), now))
  }

  lemma MovedFaithfulIff(t: Texts, inDirs: bool, o: Node, a: Resource)
    requires o.Mapping?
    ensures Faithful(ResourceSchema(t, inDirs), Some(o), None, ResourceValue(a)) <==> !Reverts(t, inDirs, o, None, a)
  {
    var item, now := ResourceSchema(t, inDirs), ResourceValue(a);
    ResourceBranches(t, inDirs);
    ResourceValues(a);
    forall i | 0 <= i < 6
      ensures FieldFaithful(item, Some(o), None, now, i) <==> (i == TYPE ==> !Reverts(t, inDirs, o, None, a))
    {
      ResourceKeeps(t, inDirs, a, a, i);
      ScalarFaithful(item, Some(o), None, now, i);
      hide FieldFaithful, Omitted, Decode, ResourceSchema, ResourceValue;
    }
    hide FieldFaithful, Reverts, ResourceSchema, ResourceValue;
    assert FieldFaithful(item, Some(o), None, now, TYPE) <==> !Reverts(t, inDirs, o, None, a);
  }

  lemma StayedFaithfulIff(t: Texts, inDirs: bool, o: Node, b: Value, a: Value)
    requires TextsOk(t) && ItemId(b) == ItemId(a)
    requires var item := ResourceSchema(t, inDirs); Loads(item, Some(o), b) && Fits(item, b) && MaySave(item, a)
    ensures Faithful(ResourceSchema(t, inDirs), Some(o), Some(b), a) <==> !Reverts(t, inDirs, o, Some(b), AsResource(a))
  {
    IsResource(t, inDirs, b);
    IsResource(t, inDirs, a);
    ResourceFields(t, inDirs, o, AsResource(b));
    ResourceBranches(t, inDirs);
    hide ResourceSchema, Loads, Fits, MaySave, TextsOk, Faithful, FreesUpload, Decode;
    ResourceFaithfulIff(t, inDirs, o, AsResource(b), AsResource(a));
  }

  // ----- one list -----

  /** Nothing of this resource comes back, wherever in the document its original is. */
  ghost predicate ResourceStands(t: Texts, inDirs: bool, source: seq<Node>, b: Value, now: Value) {
    var o := FindById(source, ItemId(now));
    o.Some? ==> !Reverts(t, inDirs, o.value, ItemOf(Some(b), ItemId(now)), AsResource(now))
  }

  /** The resource has not changed, and the document does not write it under its id. */
  ghost predicate ResourceLost(source: seq<Node>, b: Value, now: Value) {
    FindById(source, ItemId(now)).None? && ItemOf(Some(b), ItemId(now)) == Some(now)
  }

  /** A list of the document, all resources of the document, and what the list was loaded as. */
  ghost predicate ListGiven(t: Texts, inDirs: bool, list: Option<Node>, source: seq<Node>, b: Value, a: Value) {
    var item := ResourceSchema(t, inDirs);
    && TextsOk(t) && SchemaOk(Items(item)) && Fits(Items(item), b) && MaySave(Items(item), a)
    && Loads(Items(item), list, b) && SourceApart(item, ItemsOf(list), source, b)
    && UniqueIds(ItemsOf(list)) && UniqueIds(source) && forall z | z in ItemsOf(list) :: z in source
  }

  /** The list after carrying. */
  ghost function ListAfter(t: Texts, inDirs: bool, list: Option<Node>, source: seq<Node>, a: Value): Option<Node>
    requires a.VItems?
  {
    CarriedNode(list, Missing(ItemsOf(list), EncodeItems(ResourceSchema(t, inDirs), a.items), source))
  }

  /** After carrying, the list has the original of every resource it is to have, from wherever it was. */
  lemma SourceFinds(item: Schema, list: Option<Node>, source: seq<Node>, a: Value, k: nat)
    requires SchemaOk(Items(item)) && Fits(Items(item), a) && k < |a.items|
    requires UniqueIds(ItemsOf(list)) && UniqueIds(source) && forall z | z in ItemsOf(list) :: z in source
    ensures FindById(ItemsOf(CarriedNode(list, Missing(ItemsOf(list), EncodeItems(item, a.items), source))),
            ItemId(a.items[k]))
            == FindById(source, ItemId(a.items[k]))
  {
    var items, wanted, id := ItemsOf(list), EncodeItems(item, a.items), ItemId(a.items[k]);
    var moved := Missing(items, wanted, source);
    EncodedItem(item, a.items, k);
    EncodedId(item, a.items[k]);
    MissingItems(items, wanted, source);
    assert items + [] == items;
    FoundById(items + moved, id);
    FoundById(source, id);
    if FindById(items + moved, id).Some? {
      FindMember(source, FindById(items + moved, id).value);
    } else if FindById(source, id).Some? {
      ArrivesInList(items, wanted, source, FindById(source, id).value, k);
      assert false;
    }
  }

  /** The document item found under an id loads as the item the configuration has under it. */
  lemma FoundLoads(item: Schema, list: Option<Node>, v: Value, now: Value, o: Node)
    requires SchemaOk(Items(item)) && Fits(Items(item), v) && Loads(Items(item), list, v) && Fits(item, now)
    requires FindById(ItemsOf(list), ItemId(now)) == Some(o)
    ensures FindValue(v.items, ItemId(now)).Some?
    ensures Loads(item, Some(o), FindValue(v.items, ItemId(now)).value)
    ensures Fits(item, FindValue(v.items, ItemId(now)).value)
  {
    FoundById(ItemsOf(list), ItemId(now));
    LoadedItems(item, list, v);
    var j :| 0 <= j < |ItemsOf(list)| && ItemsOf(list)[j] == o;
    NormalIdIsRead(item, o, now);
    FindValueAt(v.items, j);
  }

  /** What the document says of a resource that was in this list. */
  lemma OriginalLoads(t: Texts, inDirs: bool, list: Option<Node>, source: seq<Node>, b: Value, a: Value, k: nat)
    requires ListGiven(t, inDirs, list, source, b, a) && k < |a.items|
    ensures var id, item := ItemId(a.items[k]), ResourceSchema(t, inDirs);
            var o, was := FindById(source, id), ItemOf(Some(b), id);
            && (was.Some? ==> Fits(item, was.value) && ItemId(was.value) == id)
            && (o.Some? ==> o.value.Mapping? && (was.Some? ==> Loads(item, o, was.value)))
  {
    var item, now := ResourceSchema(t, inDirs), a.items[k];
    var id := ItemId(now);
    hide ResourceSchema, TextsOk;
    ItemBefore(item, Some(b), id);
    FoundValue(b.items, id);
    FoundById(source, id);
    if FindById(source, id).Some? && ItemOf(Some(b), id).Some? {
      var x := FindById(source, id).value;
      NormalIdIsRead(item, x, now);
      assert x in ItemsOf(list);
      FindMember(ItemsOf(list), x);
      FoundLoads(item, list, b, now, x);
    }
  }

  lemma ItemFaithfulIff(t: Texts, inDirs: bool, list: Option<Node>, source: seq<Node>, b: Value, a: Value, k: nat)
    requires ListGiven(t, inDirs, list, source, b, a) && k < |a.items|
    ensures ItemFaithful(ResourceSchema(t, inDirs), ListAfter(t, inDirs, list, source, a), Some(b), a.items[k])
            <==> ResourceStands(t, inDirs, source, b, a.items[k])
  {
    var item, now := ResourceSchema(t, inDirs), a.items[k];
    var id := ItemId(now);
    var o, was := FindById(source, id), ItemOf(Some(b), id);
    SourceFinds(item, list, source, a, k);
    OriginalLoads(t, inDirs, list, source, b, a, k);
    assert Settle(Items(item), a).items[k] == Settle(item, now);
    assert MaySave(item, now);
    if o.Some? {
      hide ResourceSchema, ListGiven, Reverts, Faithful, Loads, Missing, Fits, MaySave, Settle;
      if was.Some? {
        StayedFaithfulIff(t, inDirs, o.value, was.value, now);
      } else {
        IsResource(t, inDirs, now);
        MovedFaithfulIff(t, inDirs, o.value, AsResource(now));
      }
    }
  }

  /** In a list that has not changed, everything stands. */
  lemma UnchangedStands(t: Texts, inDirs: bool, list: Option<Node>, source: seq<Node>, b: Value, k: nat)
    requires ListGiven(t, inDirs, list, source, b, b) && k < |b.items|
    ensures ResourceStands(t, inDirs, source, b, b.items[k])
  {
    var now := b.items[k];
    OriginalLoads(t, inDirs, list, source, b, b, k);
    FindValueAt(b.items, k);
    var o := FindById(source, ItemId(now));
    if o.Some? {
      var r := AsResource(now);
      IsResource(t, inDirs, now);
      ResourceFields(t, inDirs, o.value, r);
      ResourceBranches(t, inDirs);
    }
  }

  lemma ListFaithfulIff(t: Texts, inDirs: bool, list: Option<Node>, source: seq<Node>, b: Value, a: Value)
    requires ListGiven(t, inDirs, list, source, b, a)
    ensures Faithful(Items(ResourceSchema(t, inDirs)), ListAfter(t, inDirs, list, source, a), Some(b), a)
            <==> forall k | 0 <= k < |a.items| :: ResourceStands(t, inDirs, source, b, a.items[k])
  {
    if b == a {
      forall k | 0 <= k < |a.items|
        ensures ResourceStands(t, inDirs, source, b, a.items[k])
      {
        UnchangedStands(t, inDirs, list, source, b, k);
      }
    } else {
      forall k | 0 <= k < |a.items|
        ensures ItemFaithful(ResourceSchema(t, inDirs), ListAfter(t, inDirs, list, source, a), Some(b), a.items[k])
                <==> ResourceStands(t, inDirs, source, b, a.items[k])
      {
        ItemFaithfulIff(t, inDirs, list, source, b, a, k);
      }
      hide ItemFaithful, ResourceStands, ListGiven, ListAfter;
    }
  }

  lemma ListIsLostIff(t: Texts, inDirs: bool, list: Option<Node>, source: seq<Node>, b: Value, a: Value)
    requires ListGiven(t, inDirs, list, source, b, a) && b != a
    ensures Lost(Items(ResourceSchema(t, inDirs)), ListAfter(t, inDirs, list, source, a), Some(b), a)
            <==> exists k :: 0 <= k < |a.items| && ResourceLost(source, b, a.items[k])
  {
    var item, after := ResourceSchema(t, inDirs), ListAfter(t, inDirs, list, source, a);
    forall k | 0 <= k < |a.items|
      ensures ItemLost(item, after, Some(b), a.items[k]) <==> ResourceLost(source, b, a.items[k])
    {
      SourceFinds(item, list, source, a, k);
      ItemLostIff(item, FindById(ItemsOf(after), ItemId(a.items[k])), ItemOf(Some(b), ItemId(a.items[k])), a.items[k]);
    }
    if after.Some? && after.value.Sequence? {
      ListLostMeans(item, after, Some(b), a);
    } else {
      LoadsHolds(Items(item), list, b);
      HeldItems(item, list, b);
    }
  }

  // ----- the storage section -----

  /** A document of the program, what it was loaded as, and what is to be saved. */
  ghost predicate Given(t: Texts, storage: seq<Branch>, more: seq<Branch>, doc: Node, b: Value, a: Value) {
    var root := ProgramRoot(t, storage, more);
    && TextsOk(t) && StandAlone(storage) && StandAlone(more)
    && DistinctKeys(StorageBranches(t, storage)) && DistinctKeys(TopBranches(t, storage, more))
    && Valid(root, b) && Valid(root, a) && doc.Mapping? && Loads(root.schema, Some(doc), b)
  }

  ghost function ListOf(root: Root, v: Value, inDirs: bool): Value
    requires Valid(root, v)
  {
    if inDirs then DirsOf(root, v) else SharesOf(root, v)
  }

  function ListKey(inDirs: bool): string {
    if inDirs then "dirs" else "shares"
  }

  ghost function ListNode(doc: Node, inDirs: bool): Option<Node> {
    NodeField(NodeField(Some(doc), "storage"), ListKey(inDirs))
  }

  ghost predicate AllStand(t: Texts, root: Root, doc: Node, b: Value, a: Value, inDirs: bool)
    requires Valid(root, b) && Valid(root, a)
  {
    var list := ListOf(root, a, inDirs);
    list.VItems? && forall k | 0 <= k < |list.items| ::
      ResourceStands(t, inDirs, Resources(doc), ListOf(root, b, inDirs), list.items[k])
  }

  /** The list changes while one of its resources does not, and the document does not write that one under its id. */
  ghost predicate ListLoses(root: Root, doc: Node, b: Value, a: Value, inDirs: bool)
    requires Valid(root, b) && Valid(root, a)
  {
    var list := ListOf(root, a, inDirs);
    && ListOf(root, b, inDirs) != list
    && list.VItems? && exists k | 0 <= k < |list.items| ::
        ResourceLost(Resources(doc), ListOf(root, b, inDirs), list.items[k])
  }

  lemma SettledPart(s: Schema, a: Value, i: nat)
    requires s.Struct? && Fits(s, a) && Settled(s, a) && i < |s.branches| && s.branches[i].dependsOn.None?
    ensures MaySave(s.branches[i].schema, a.values[i])
  {
    assert Settle(s, a).values[i] == Adjusted(s.branches[i], a.values, Settle(s.branches[i].schema, a.values[i]));
  }

  lemma ProgramSchemas(t: Texts, storage: seq<Branch>, more: seq<Branch>)
    requires RootOk(ProgramRoot(t, storage, more))
    ensures var root := ProgramRoot(t, storage, more);
            && DirItem(root) == ResourceSchema(t, true) && ShareItem(root) == ResourceSchema(t, false)
            && StorageSchema(root) == Struct(StorageBranches(t, storage))
  {
  }

  lemma ListIsGiven(t: Texts, storage: seq<Branch>, more: seq<Branch>, doc: Node, b: Value, a: Value, inDirs: bool)
    requires Given(t, storage, more, doc, b, a)
    ensures var root := ProgramRoot(t, storage, more);
            && ListOf(root, a, inDirs).VItems?
            && ListGiven(t, inDirs, ListNode(doc, inDirs), Resources(doc), ListOf(root, b, inDirs),
                ListOf(root, a, inDirs))
  {
    var root := ProgramRoot(t, storage, more);
    var section := NodeField(Some(doc), "storage");
    ProgramSchemas(t, storage, more);
    ResourceSchemaOk(t, inDirs);
    ListsStandAlone(root);
    LoadsHolds(root.schema, Some(doc), b);
    ResourcesAreUnique(root, doc, b);
    hide ResourceSchema, StorageBranches, TopBranches, Loads, Holds, Settle, TextsOk;
    FieldLoads(root.schema, Some(doc), b, root.storage);
    HeldField(root.schema, Some(doc), b, root.storage);
    SectionLoads(root, section, StorageOf(root, b), inDirs);
    SourcesApart(root, section, StorageOf(root, b));
    SettledPart(root.schema, a, root.storage);
    SettledPart(StorageSchema(root), StorageOf(root, a), if inDirs then root.dirs else root.shares);
    PrefixUnique(ItemsOf(NodeField(section, "dirs")), ItemsOf(NodeField(section, "shares")));
  }

  lemma SectionLoads(root: Root, section: Option<Node>, b: Value, inDirs: bool)
    requires RootOk(root) && Loads(StorageSchema(root), section, b) && Fits(StorageSchema(root), b)
    ensures var index := if inDirs then root.dirs else root.shares;
            Loads(StorageSchema(root).branches[index].schema, NodeField(section, ListKey(inDirs)), b.values[index])
  {
    ListsStandAlone(root);
    FieldLoads(StorageSchema(root), section, b, if inDirs then root.dirs else root.shares);
  }

  lemma PrefixUnique(xs: seq<Node>, ys: seq<Node>)
    requires UniqueIds(xs + ys)
    ensures UniqueIds(xs) && UniqueIds(ys)
  {
    forall i, j | 0 <= i < j < |xs|
      ensures IdOf(xs[i]) == None || IdOf(xs[i]) != IdOf(xs[j])
    {
      assert (xs + ys)[i] == xs[i] && (xs + ys)[j] == xs[j];
    }
    forall i, j | 0 <= i < j < |ys|
      ensures IdOf(ys[i]) == None || IdOf(ys[i]) != IdOf(ys[j])
    {
      assert (xs + ys)[|xs| + i] == ys[i] && (xs + ys)[|xs| + j] == ys[j];
    }
  }

  /** The storage section of the document after carrying. */
  ghost function SectionAfter(t: Texts, storage: seq<Branch>, more: seq<Branch>, doc: Node, a: Value): Option<Node>
    requires doc.Mapping?
  {
    NodeField(Some(Carry(doc, Encode(ProgramRoot(t, storage, more).schema, a))), "storage")
  }

  lemma SectionParts(t: Texts, storage: seq<Branch>, more: seq<Branch>, doc: Node, b: Value, a: Value, j: nat)
    requires Given(t, storage, more, doc, b, a) && j < |StorageBranches(t, storage)|
    requires NodeField(Some(doc), "storage").Some? && NodeField(Some(doc), "storage").value.Mapping?
    ensures var root, key := ProgramRoot(t, storage, more), StorageBranches(t, storage)[j].key;
            var after := SectionAfter(t, storage, more, doc, a);
            && ListOf(root, a, j == 0).VItems? && after.Some? && after.value.Mapping?
            && NodeField(after, key) ==
               if j < 2 then ListAfter(t, j == 0, ListNode(doc, j == 0), Resources(doc), ListOf(root, a, j == 0))
               else NodeField(NodeField(Some(doc), "storage"), key)
  {
    var root := ProgramRoot(t, storage, more);
    var section := NodeField(Some(doc), "storage").value;
    var wanted := NodeField(Some(Encode(root.schema, a)), "storage");
    assert a == VStruct(a.values);
    ProgramSchemas(t, storage, more);
    EncodedBranch(root.schema, a.values, root.storage);
    WantedLists(root, StorageOf(root, a));
    LookupSet(doc.fields, "storage", Mapping(CarryStorage(section.fields, wanted)), "storage");
    hide ResourceSchema, Encode, Loads, Settle, TextsOk, CarryStorage, Missing, Fits, AllSteady, SchemaOk;
    CarriedLists(section.fields, wanted, StorageBranches(t, storage)[j].key);
    assert StorageBranches(t, storage)[0].key == "dirs" && StorageBranches(t, storage)[1].key == "shares";
  }

  lemma AllStandIff(t: Texts, storage: seq<Branch>, more: seq<Branch>, doc: Node, b: Value, a: Value, inDirs: bool)
    requires Given(t, storage, more, doc, b, a)
    ensures var root := ProgramRoot(t, storage, more);
            var list, was, now := ListNode(doc, inDirs), ListOf(root, b, inDirs), ListOf(root, a, inDirs);
            && now.VItems?
            && (Faithful(Items(ResourceSchema(t, inDirs)), ListAfter(t, inDirs, list, Resources(doc), now), Some(was),
                now)
                <==> AllStand(t, root, doc, b, a, inDirs))
            && (was != now ==>
                  (Lost(Items(ResourceSchema(t, inDirs)), ListAfter(t, inDirs, list, Resources(doc), now), Some(was),
                      now)
                   <==> ListLoses(root, doc, b, a, inDirs)))
  {
    var root := ProgramRoot(t, storage, more);
    ListIsGiven(t, storage, more, doc, b, a, inDirs);
    var list, was, now := ListNode(doc, inDirs), ListOf(root, b, inDirs), ListOf(root, a, inDirs);
    hide ListGiven, Given, ResourceSchema, ListAfter, Lost, Faithful, ResourceStands, ResourceLost, Valid;
    ListFaithfulIff(t, inDirs, list, Resources(doc), was, now);
    if was != now {
      ListIsLostIff(t, inDirs, list, Resources(doc), was, now);
    }
  }

  /** A document without a storage section has no resources, and nothing of them to bring back or to lose. */
  lemma NoSection(t: Texts, storage: seq<Branch>, more: seq<Branch>, doc: Node, b: Value, a: Value, inDirs: bool)
    requires Given(t, storage, more, doc, b, a)
    requires var section := NodeField(Some(doc), "storage"); section.None? || !section.value.Mapping?
    ensures var root := ProgramRoot(t, storage, more);
            AllStand(t, root, doc, b, a, inDirs) && !ListLoses(root, doc, b, a, inDirs)
  {
    var root := ProgramRoot(t, storage, more);
    ListIsGiven(t, storage, more, doc, b, a, inDirs);
    var item := ResourceSchema(t, inDirs);
    assert Resources(doc) == [] && ItemsOf(ListNode(doc, inDirs)) == [];
    LoadsHolds(Items(item), ListNode(doc, inDirs), ListOf(root, b, inDirs));
    HeldItems(item, ListNode(doc, inDirs), ListOf(root, b, inDirs));
    hide Given, ResourceSchema, Reverts, Valid, Loads, Holds;
    assert forall id :: FindValue([], id).None?;
  }

  /** Two configurations of a mapping. */
  ghost predicate Pair(s: Schema, b: Value, a: Value) {
    s.Struct? && b.VStruct? && a.VStruct? && |b.values| == |a.values| == |s.branches|
  }

  /** One field brings nothing back. */
  ghost predicate PartStands(s: Schema, o: Option<Node>, b: Value, a: Value, i: nat)
    requires Pair(s, b, a) && i < |s.branches|
  {
    FieldFaithful(s, o, Some(b), a, i)
  }

  /** One field loses an item. */
  ghost predicate PartLost(s: Schema, o: Option<Node>, b: Value, a: Value, i: nat)
    requires Pair(s, b, a) && i < |s.branches|
  {
    FieldLost(s, o, Some(b), a, i)
  }

  /** A field that is always written and stands alone. */
  lemma PlainFieldIff(s: Schema, o: Option<Node>, b: Value, a: Value, i: nat)
    requires Pair(s, b, a) && i < |s.branches| && !s.branches[i].omitEmpty && s.branches[i].dependsOn.None?
    ensures PartStands(s, o, b, a, i)
            <==> Faithful(s.branches[i].schema, NodeField(o, s.branches[i].key), Some(b.values[i]), a.values[i])
    ensures PartLost(s, o, b, a, i)
            <==> b.values[i] != a.values[i]
                 && Lost(s.branches[i].schema, NodeField(o, s.branches[i].key), Some(b.values[i]), a.values[i])
  {
  }

  /** It comes down to the fields. */
  lemma StructIff(s: Schema, o: Option<Node>, b: Value, a: Value)
    requires Pair(s, b, a) && o.Some? && o.value.Mapping?
    ensures Faithful(s, o, Some(b), a) <==> forall i | 0 <= i < |s.branches| :: PartStands(s, o, b, a, i)
    ensures b != a ==> (Lost(s, o, Some(b), a) <==> exists i | 0 <= i < |s.branches| :: PartLost(s, o, b, a, i))
  {
    assert forall i | 0 <= i < |s.branches| :: PartStands(s, o, b, a, i) <==> FieldFaithful(s, o, Some(b), a, i);
    assert forall i | 0 <= i < |s.branches| :: PartLost(s, o, b, a, i) <==> FieldLost(s, o, Some(b), a, i);
  }

  /** A further field that has the same node in two documents fares the same in both. */
  lemma SameField(s: Schema, o: Option<Node>, n: Option<Node>, b: Value, a: Value, i: nat)
    requires Pair(s, b, a) && i < |s.branches| && NodeField(o, s.branches[i].key) == NodeField(n, s.branches[i].key)
    ensures PartStands(s, o, b, a, i) <==> PartStands(s, n, b, a, i)
    ensures PartLost(s, o, b, a, i) <==> PartLost(s, n, b, a, i)
  {
  }

  /** Where the document says nothing, nothing comes back and nothing is lost. */
  lemma {:induction false} FaithfulToNothing(s: Schema, b: Option<Value>, a: Value)
    ensures Faithful(s, None, b, a)
  {
  }

  lemma FieldOfNothing(s: Schema, o: Option<Node>, b: Value, a: Value, i: nat)
    requires Pair(s, b, a) && i < |s.branches| && s.branches[i].dependsOn.None? && Fits(s, a)
    requires NodeField(o, s.branches[i].key).None?
    ensures PartStands(s, o, b, a, i) && !PartLost(s, o, b, a, i)
  {
    FaithfulToNothing(s.branches[i].schema, BranchOf(Some(b), i), a.values[i]);
    assert Fits(s.branches[i].schema, a.values[i]);
    if BranchOf(Some(b), i) != Some(a.values[i]) {
      assert !Lost(s.branches[i].schema, None, BranchOf(Some(b), i), a.values[i]);
    }
  }

  /** One of the further fields from `from` on loses an item. */
  ghost predicate FurtherLoses(s: Schema, o: Option<Node>, b: Value, a: Value, from: nat)
    requires Pair(s, b, a)
  {
    exists i | from <= i < |s.branches| :: PartLost(s, o, b, a, i)
  }

  /** Nothing comes back in the further fields from `from` on. */
  ghost predicate FurtherStand(s: Schema, o: Option<Node>, b: Value, a: Value, from: nat)
    requires Pair(s, b, a)
  {
    forall i | from <= i < |s.branches| :: PartStands(s, o, b, a, i)
  }

  /** One field of the storage section: a list of resources, or a further field. */
  lemma SectionPartIff(t: Texts, storage: seq<Branch>, more: seq<Branch>, doc: Node, b: Value, a: Value, j: nat)
    requires Given(t, storage, more, doc, b, a) && j < |StorageBranches(t, storage)|
    requires NodeField(Some(doc), "storage").Some? && NodeField(Some(doc), "storage").value.Mapping?
    ensures var root := ProgramRoot(t, storage, more);
            var s, section, after := StorageSchema(root), NodeField(Some(doc), "storage"),
                SectionAfter(t, storage, more, doc, a);
            var was, now := StorageOf(root, b), StorageOf(root, a);
            && j < |s.branches| && Pair(s, was, now)
            && (PartStands(s, after, was, now, j)
                <==> if j < 2 then AllStand(t, root, doc, b, a, j == 0) else PartStands(s, section, was, now, j))
            && (PartLost(s, after, was, now, j)
                <==> if j < 2 then ListLoses(root, doc, b, a, j == 0) else PartLost(s, section, was, now, j))
  {
    var root := ProgramRoot(t, storage, more);
    var s, was, now := StorageSchema(root), StorageOf(root, b), StorageOf(root, a);
    var section, after := NodeField(Some(doc), "storage"), SectionAfter(t, storage, more, doc, a);
    ProgramSchemas(t, storage, more);
    SectionParts(t, storage, more, doc, b, a, j);
    hide Faithful, Lost, Encode, Loads, Fits, Settle, ResourceSchema;
    if j < 2 {
      assert s.branches[j].schema == Items(ResourceSchema(t, j == 0));
      AllStandIff(t, storage, more, doc, b, a, j == 0);
      hide AllStand, Given, PartStands, PartLost;
      PlainFieldIff(s, after, was, now, j);
    } else {
      SameField(s, after, section, was, now, j);
    }
  }

  /** The two lists first, then the further fields. */
  lemma ListsThenFurther(
    s: Schema, after: Option<Node>, section: Option<Node>, b: Value, a: Value, dirs: bool, shares: bool)
    requires Pair(s, b, a) && |s.branches| >= 2
    requires PartLost(s, after, b, a, 0) <==> dirs
    requires PartLost(s, after, b, a, 1) <==> shares
    requires forall j | 2 <= j < |s.branches| :: PartLost(s, after, b, a, j) <==> PartLost(s, section, b, a, j)
    ensures (exists j | 0 <= j < |s.branches| :: PartLost(s, after, b, a, j))
            <==> dirs || shares || FurtherLoses(s, section, b, a, 2)
  {
    hide PartLost;
  }

  ghost predicate StorageStands(t: Texts, root: Root, doc: Node, b: Value, a: Value)
    requires Valid(root, b) && Valid(root, a) && Pair(StorageSchema(root), StorageOf(root, b), StorageOf(root, a))
  {
    && AllStand(t, root, doc, b, a, true) && AllStand(t, root, doc, b, a, false)
    && FurtherStand(StorageSchema(root), NodeField(Some(doc), "storage"), StorageOf(root, b), StorageOf(root, a), 2)
  }

  ghost predicate StorageLoses(root: Root, doc: Node, b: Value, a: Value)
    requires Valid(root, b) && Valid(root, a) && Pair(StorageSchema(root), StorageOf(root, b), StorageOf(root, a))
  {
    || ListLoses(root, doc, b, a, true) || ListLoses(root, doc, b, a, false)
    || FurtherLoses(StorageSchema(root), NodeField(Some(doc), "storage"), StorageOf(root, b), StorageOf(root, a), 2)
  }

  /** What becomes of the storage section, in terms of the document as it was loaded. */
  lemma SectionIff(t: Texts, storage: seq<Branch>, more: seq<Branch>, doc: Node, b: Value, a: Value)
    requires Given(t, storage, more, doc, b, a)
    requires NodeField(Some(doc), "storage").Some? && NodeField(Some(doc), "storage").value.Mapping?
    ensures var root := ProgramRoot(t, storage, more);
            var s, after := StorageSchema(root), SectionAfter(t, storage, more, doc, a);
            var was, now := StorageOf(root, b), StorageOf(root, a);
            && Pair(s, was, now)
            && (Faithful(s, after, Some(was), now) <==> StorageStands(t, root, doc, b, a))
            && (was != now ==> (Lost(s, after, Some(was), now) <==> StorageLoses(root, doc, b, a)))
  {
    var root := ProgramRoot(t, storage, more);
    var s, section, after := StorageSchema(root), NodeField(Some(doc), "storage"),
        SectionAfter(t, storage, more, doc, a);
    var was, now := StorageOf(root, b), StorageOf(root, a);
    ProgramSchemas(t, storage, more);
    Pairs(root, b, a);
    SectionParts(t, storage, more, doc, b, a, 0);
    assert |s.branches| >= 2;
    hide Faithful, Lost, Given, SectionAfter, PartStands, PartLost, AllStand, ListLoses, Fits, ResourceSchema, RootOk;
    forall j | 0 <= j < |s.branches|
      ensures PartStands(s, after, was, now, j)
              <==> if j < 2 then AllStand(t, root, doc, b, a, j == 0) else PartStands(s, section, was, now, j)
      ensures PartLost(s, after, was, now, j)
              <==> if j < 2 then ListLoses(root, doc, b, a, j == 0) else PartLost(s, section, was, now, j)
    {
      SectionPartIff(t, storage, more, doc, b, a, j);
    }
    StructIff(s, after, was, now);
    ListsThenStand(s, after, section, was, now, AllStand(t, root, doc, b, a, true),
        AllStand(t, root, doc, b, a, false));
    ListsThenFurther(s, after, section, was, now, ListLoses(root, doc, b, a, true), ListLoses(root, doc, b, a, false));
  }

  lemma ListsThenStand(
    s: Schema, after: Option<Node>, section: Option<Node>, b: Value, a: Value, dirs: bool, shares: bool)
    requires Pair(s, b, a) && |s.branches| >= 2
    requires PartStands(s, after, b, a, 0) <==> dirs
    requires PartStands(s, after, b, a, 1) <==> shares
    requires forall j | 2 <= j < |s.branches| :: PartStands(s, after, b, a, j) <==> PartStands(s, section, b, a, j)
    ensures (forall j | 0 <= j < |s.branches| :: PartStands(s, after, b, a, j))
            <==> dirs && shares && FurtherStand(s, section, b, a, 2)
  {
    hide PartStands;
  }

  lemma Pairs(root: Root, b: Value, a: Value)
    requires Valid(root, b) && Valid(root, a)
    ensures Pair(root.schema, b, a) && Pair(StorageSchema(root), StorageOf(root, b), StorageOf(root, a))
  {
  }

  // ----- lifetimes -----

  function Seconds(t: Texts, v: Value, i: nat): int {
    if v.VStruct? && i < |v.values| && v.values[i].VLeaf? then t.number(v.values[i].literal.text) else 0
  }

  /** A lifetime that loading had cut stays as it is beside a larger maximum. */
  ghost predicate LifetimeReverts(t: Texts, key: string, default: int, o: Option<Node>, b: Value, a: Value) {
    && WritesAbove(t, o, key, default, Seconds(t, b, 1))
    && Seconds(t, a, 0) == Seconds(t, b, 1) < Seconds(t, a, 1)
  }

  lemma IsLifetime(t: Texts, key: string, default: int, maxKey: string, maxDefault: int, v: Value)
    requires TextsOk(t) && Fits(LifetimeSchema(t, key, default, maxKey, maxDefault), v)
    ensures LifetimeValue(t, Seconds(t, v, 0), Seconds(t, v, 1)) == v
    ensures Settled(LifetimeSchema(t, key, default, maxKey, maxDefault), v) ==> Seconds(t, v, 0) <= Seconds(t, v, 1)
  {
    var s := LifetimeSchema(t, key, default, maxKey, maxDefault);
    FieldFits(s, v, 0);
    FieldFits(s, v, 1);
    assert LifetimeValue(t, Seconds(t, v, 0), Seconds(t, v, 1)).values == v.values;
    if Settled(s, v) {
      assert Settle(s, v).values[0] == Adjusted(s.branches[0], v.values, v.values[0]);
    }
  }

  lemma LifetimeIff(
    t: Texts, key: string, default: int, maxKey: string, maxDefault: int, o: Option<Node>, b: Value, a: Value)
    requires TextsOk(t) && key != maxKey
    requires var s := LifetimeSchema(t, key, default, maxKey, maxDefault); Loads(s, o, b) && Fits(s, b) && MaySave(s, a)
    ensures var s := LifetimeSchema(t, key, default, maxKey, maxDefault);
            && (Faithful(s, o, Some(b), a) <==> !LifetimeReverts(t, key, default, o, b, a))
            && (b != a ==> !Lost(s, o, Some(b), a))
  {
    var s := LifetimeSchema(t, key, default, maxKey, maxDefault);
    IsLifetime(t, key, default, maxKey, maxDefault, b);
    IsLifetime(t, key, default, maxKey, maxDefault, a);
    ItemLostIff(s, o, Some(b), a);
    hide LifetimeSchema, LifetimeValue, Faithful, Lost, Loads, Fits, Settle, WritesAbove, TextsOk;
    LifetimeFaithfulIff(t, key, default, maxKey, maxDefault, o,
                        Seconds(t, b, 0), Seconds(t, b, 1), Seconds(t, a, 0), Seconds(t, a, 1));
  }

  // ----- the whole configuration -----

  ghost predicate DownloadsRevert(t: Texts, doc: Node, b: Value, a: Value) {
    && b.VStruct? && a.VStruct? && |b.values| == |a.values| >= 3
    && LifetimeReverts(t, "lease_ttl_seconds", 7200, NodeField(Some(doc), "downloads"), b.values[1], a.values[1])
  }

  ghost predicate TokensRevert(t: Texts, doc: Node, b: Value, a: Value) {
    && b.VStruct? && a.VStruct? && |b.values| == |a.values| >= 3
    && LifetimeReverts(t, "default_ttl_seconds", 3600, NodeField(Some(doc), "tokens"), b.values[2], a.values[2])
  }

  /** The storage section as a part of the document. */
  lemma StoragePart(t: Texts, storage: seq<Branch>, more: seq<Branch>, doc: Node, b: Value, a: Value)
    requires Given(t, storage, more, doc, b, a)
    ensures var root := ProgramRoot(t, storage, more);
            var carried := Some(Carry(doc, Encode(root.schema, a)));
            && Pair(root.schema, b, a) && Pair(StorageSchema(root), StorageOf(root, b), StorageOf(root, a))
            && (PartStands(root.schema, carried, b, a, 0) <==> StorageStands(t, root, doc, b, a))
            && (PartLost(root.schema, carried, b, a, 0) <==> StorageLoses(root, doc, b, a))
  {
    var root := ProgramRoot(t, storage, more);
    var section, carried := NodeField(Some(doc), "storage"), Some(Carry(doc, Encode(root.schema, a)));
    Pairs(root, b, a);
    ProgramSchemas(t, storage, more);
    PlainFieldIff(root.schema, carried, b, a, 0);
    if section.Some? && section.value.Mapping? {
      SectionIff(t, storage, more, doc, b, a);
      if StorageOf(root, b) == StorageOf(root, a) {
        SameLosesNothing(root, doc, b, a);
      }
    } else {
      EmptyStorage(t, storage, more, doc, b, a);
    }
  }

  lemma SameLosesNothing(root: Root, doc: Node, b: Value, a: Value)
    requires Valid(root, b) && Valid(root, a) && StorageOf(root, b) == StorageOf(root, a)
    requires Pair(StorageSchema(root), StorageOf(root, b), StorageOf(root, a))
    ensures !StorageLoses(root, doc, b, a)
  {
  }

  /** A document without a storage section. */
  lemma EmptyStorage(t: Texts, storage: seq<Branch>, more: seq<Branch>, doc: Node, b: Value, a: Value)
    requires Given(t, storage, more, doc, b, a)
    requires var section := NodeField(Some(doc), "storage"); section.None? || !section.value.Mapping?
    ensures var root := ProgramRoot(t, storage, more);
            var carried := Some(Carry(doc, Encode(root.schema, a)));
            && Pair(root.schema, b, a) && Pair(StorageSchema(root), StorageOf(root, b), StorageOf(root, a))
            && Faithful(StorageSchema(root), NodeField(carried, "storage"), Some(StorageOf(root, b)),
                StorageOf(root, a))
            && (b.values[0] != a.values[0] ==>
                  !Lost(StorageSchema(root), NodeField(carried, "storage"), Some(StorageOf(root, b)),
                      StorageOf(root, a)))
            && StorageStands(t, root, doc, b, a) && !StorageLoses(root, doc, b, a)
  {
    var root := ProgramRoot(t, storage, more);
    Pairs(root, b, a);
    ProgramSchemas(t, storage, more);
    NoSection(t, storage, more, doc, b, a, true);
    NoSection(t, storage, more, doc, b, a, false);
    hide AllStand, ListLoses, PartStands, PartLost, ResourceSchema, Loads, Encode;
    assert forall j | 2 <= j < |StorageBranches(t, storage)| :: StorageBranches(t, storage)[j] == storage[j - 2];
    FurtherNothing(StorageSchema(root), NodeField(Some(doc), "storage"), StorageOf(root, b), StorageOf(root, a), 2);
  }

  lemma FurtherNothing(s: Schema, o: Option<Node>, b: Value, a: Value, from: nat)
    requires Pair(s, b, a) && Fits(s, a) && (o.None? || !o.value.Mapping?)
    requires forall i | from <= i < |s.branches| :: s.branches[i].dependsOn.None?
    ensures FurtherStand(s, o, b, a, from) && !FurtherLoses(s, o, b, a, from)
  {
    hide PartStands, PartLost, Fits;
    forall i | from <= i < |s.branches|
      ensures PartStands(s, o, b, a, i) && !PartLost(s, o, b, a, i)
    {
      FieldOfNothing(s, o, b, a, i);
    }
  }

  /** The other sections: two with lifetimes, and further ones. */
  lemma OtherPart(t: Texts, storage: seq<Branch>, more: seq<Branch>, doc: Node, b: Value, a: Value, i: nat)
    requires Given(t, storage, more, doc, b, a) && 0 < i < |TopBranches(t, storage, more)|
    ensures var root := ProgramRoot(t, storage, more);
            var carried := Some(Carry(doc, Encode(root.schema, a)));
            && Pair(root.schema, b, a)
            && (PartStands(root.schema, carried, b, a, i)
                <==> if i == 1 then !DownloadsRevert(t, doc, b, a) else if i == 2 then !TokensRevert(t, doc, b, a)
                     else PartStands(root.schema, Some(doc), b, a, i))
            && (PartLost(root.schema, carried, b, a, i) <==> i >= 3 && PartLost(root.schema, Some(doc), b, a, i))
  {
    var root := ProgramRoot(t, storage, more);
    var s, carried := root.schema, Some(Carry(doc, Encode(root.schema, a)));
    Pairs(root, b, a);
    SameSection(root, doc, a, i);
    assert Fits(s.branches[i].schema, b.values[i]);
    if i < 3 {
      FieldLoads(s, Some(doc), b, i);
      SettledPart(s, a, i);
      hide Faithful, Lost, Encode, Loads, Fits, Settle, StorageBranches, LifetimeSchema, LifetimeReverts, RootOk,
          SchemaOk;
      hide PartStands, PartLost;
      PlainFieldIff(s, carried, b, a, i);
      if i == 1 {
        LifetimeIff(t, "lease_ttl_seconds", 7200, "lease_max_ttl_seconds", 21600,
                    NodeField(Some(doc), "downloads"), b.values[1], a.values[1]);
      } else {
        LifetimeIff(t, "default_ttl_seconds", 3600, "max_ttl_seconds", 86400,
                    NodeField(Some(doc), "tokens"), b.values[2], a.values[2]);
      }
    } else {
      SameField(s, carried, Some(doc), b, a, i);
    }
  }

  /** Nothing that has not changed is lost: no resource of either list, no item of any further list. */
  ghost predicate NothingLost(root: Root, doc: Node, b: Value, a: Value)
    requires Valid(root, b) && Valid(root, a)
  {
    && Pair(root.schema, b, a) && Pair(StorageSchema(root), StorageOf(root, b), StorageOf(root, a))
    && !StorageLoses(root, doc, b, a) && !FurtherLoses(root.schema, Some(doc), b, a, 3)
  }

  /** The document brings nothing back: no type, no uploads, no lifetime, and nothing in the further fields. */
  ghost predicate NothingComesBack(t: Texts, root: Root, doc: Node, b: Value, a: Value)
    requires Valid(root, b) && Valid(root, a)
  {
    && Pair(root.schema, b, a) && Pair(StorageSchema(root), StorageOf(root, b), StorageOf(root, a))
    && StorageStands(t, root, doc, b, a)
    && !DownloadsRevert(t, doc, b, a) && !TokensRevert(t, doc, b, a)
    && FurtherStand(root.schema, Some(doc), b, a, 3)
  }

  lemma RootIff(t: Texts, storage: seq<Branch>, more: seq<Branch>, doc: Node, b: Value, a: Value)
    requires Given(t, storage, more, doc, b, a)
    ensures var root := ProgramRoot(t, storage, more);
            var carried := Some(Carry(doc, Encode(root.schema, a)));
            && (Faithful(root.schema, carried, Some(b), a) <==> NothingComesBack(t, root, doc, b, a))
            && (Lost(root.schema, carried, Some(b), a) <==> !NothingLost(root, doc, b, a))
  {
    var root := ProgramRoot(t, storage, more);
    var s, carried := root.schema, Some(Carry(doc, Encode(root.schema, a)));
    Pairs(root, b, a);
    SameSection(root, doc, a, 1);
    StoragePart(t, storage, more, doc, b, a);
    assert |s.branches| >= 3;
    hide Faithful, Lost, Given, Carry, Encode, PartStands, PartLost, StorageStands, StorageLoses;
    hide DownloadsRevert, TokensRevert, Valid, RootOk, ProgramRoot;
    forall i | 1 <= i < |s.branches|
      ensures PartStands(s, carried, b, a, i)
              <==> if i == 1 then !DownloadsRevert(t, doc, b, a) else if i == 2 then !TokensRevert(t, doc, b, a)
                   else PartStands(s, Some(doc), b, a, i)
      ensures PartLost(s, carried, b, a, i) <==> i >= 3 && PartLost(s, Some(doc), b, a, i)
    {
      OtherPart(t, storage, more, doc, b, a, i);
    }
    AnyPartLost(s, carried, Some(doc), b, a, StorageLoses(root, doc, b, a));
    AllPartsStand(s, carried, Some(doc), b, a, StorageStands(t, root, doc, b, a),
                  !DownloadsRevert(t, doc, b, a), !TokensRevert(t, doc, b, a));
  }

  lemma AnyPartLost(s: Schema, carried: Option<Node>, doc: Option<Node>, b: Value, a: Value, storage: bool)
    requires Pair(s, b, a) && |s.branches| >= 3 && carried.Some? && carried.value.Mapping?
    requires PartLost(s, carried, b, a, 0) <==> storage
    requires forall i | 1 <= i < |s.branches| ::
               PartLost(s, carried, b, a, i) <==> i >= 3 && PartLost(s, doc, b, a, i)
    ensures Lost(s, carried, Some(b), a) <==> storage || FurtherLoses(s, doc, b, a, 3)
  {
    if b == a {
      assert forall i | 0 <= i < |s.branches| :: !PartLost(s, carried, b, a, i) && !PartLost(s, doc, b, a, i);
    } else {
      StructIff(s, carried, b, a);
      hide PartLost, Lost;
    }
  }

  lemma AllPartsStand(
    s: Schema, carried: Option<Node>, doc: Option<Node>, b: Value, a: Value, storage: bool, downloads: bool,
        tokens: bool)
    requires Pair(s, b, a) && |s.branches| >= 3 && carried.Some? && carried.value.Mapping?
    requires PartStands(s, carried, b, a, 0) <==> storage
    requires forall i | 1 <= i < |s.branches| ::
               PartStands(s, carried, b, a, i)
               <==> if i == 1 then downloads else if i == 2 then tokens else PartStands(s, doc, b, a, i)
    ensures Faithful(s, carried, Some(b), a) <==> storage && downloads && tokens && FurtherStand(s, doc, b, a, 3)
  {
    StructIff(s, carried, b, a);
    hide PartStands, Faithful;
    assert PartStands(s, carried, b, a, 1) <==> downloads;
    assert PartStands(s, carried, b, a, 2) <==> tokens;
  }

  /**
   The program's configuration, with any further fields: for every document that loads and every
   configuration that may be saved, there is a saved document exactly if no unchanged resource or
   item is written under another id than its own in a list that changes; and it loads as what was
   saved exactly if no resource of either list gets a type or uploads back, no lifetime that was cut
   stands beside a larger maximum, and nothing comes back in the further fields.
   */
  lemma ProgramLoadsIff(t: Texts, storage: seq<Branch>, more: seq<Branch>, doc: Node, b: Value, a: Value)
    requires Given(t, storage, more, doc, b, a)
    ensures var root := ProgramRoot(t, storage, more);
            var saved := Save(root.schema, doc, b, a);
            && (saved.Some? <==> NothingLost(root, doc, b, a))
            && (saved.Some? ==> (Loads(root.schema, saved, a) <==> NothingComesBack(t, root, doc, b, a)))
  {
    var root := ProgramRoot(t, storage, more);
    LoadsHolds(root.schema, Some(doc), b);
    RootIff(t, storage, more, doc, b, a);
    hide Save, Loads, Faithful, Lost, NothingLost, NothingComesBack;
    SaveRoundTrip(root, doc, b, a);
    SaveFailsIff(root, doc, b, a);
  }

  /**
   Further fields that are always written and look at no neighbour, except an item at its id, never
   bring anything back.
   */
  lemma SteadyFieldsStand(s: Schema, o: Option<Node>, b: Value, a: Value, from: nat)
    requires SchemaOk(s) && Pair(s, b, a) && Fits(s, b) && Fits(s, a) && from <= |s.branches|
    requires AllSteady(s.branches[from..])
    ensures FurtherStand(s, o, b, a, from)
  {
    forall i | from <= i < |s.branches|
      ensures PartStands(s, o, b, a, i)
    {
      assert s.branches[i] == s.branches[from..][i - from];
      PlainFieldIff(s, o, b, a, i);
      SteadyFaithful(s.branches[i].schema, NodeField(o, s.branches[i].key), b.values[i], a.values[i]);
    }
  }

  /** A save that reads back is faithful in every section that carrying leaves alone. */
  lemma SectionIsFaithful(root: Root, doc: Node, b: Value, a: Value, i: nat)
    requires Valid(root, b) && Valid(root, a) && doc.Mapping? && Loads(root.schema, Some(doc), b)
    requires Save(root.schema, doc, b, a).Some? && Loads(root.schema, Save(root.schema, doc, b, a), a)
    requires i < |root.schema.branches| && i != root.storage
    ensures Faithful(root.schema.branches[i].schema, NodeField(Some(doc), root.schema.branches[i].key),
                     Some(b.values[i]), a.values[i])
  {
    var s := root.schema;
    var carried := Carry(doc, Encode(s, a));
    SaveRoundTrip(root, doc, b, a);
    assert FieldFaithful(s, Some(carried), Some(b), a, i);
    SameSection(root, doc, a, i);
  }

  /**
   A save in which a resource of either list frees uploads does not read back, whatever else the
   configuration holds and whatever else is changed.
   */
  lemma SaveFreesUpload(
    t: Texts, storage: seq<Branch>, more: seq<Branch>, doc: Node, b: Value, a: Value, inDirs: bool, k: nat, o: Node,
        was: Value)
    requires Given(t, storage, more, doc, b, a)
    requires var root := ProgramRoot(t, storage, more);
             var list := ListOf(root, a, inDirs);
             && list.VItems? && k < |list.items| && FindById(Resources(doc), ItemId(list.items[k])) == Some(o)
             && ItemOf(Some(ListOf(root, b, inDirs)), ItemId(list.items[k])) == Some(was)
             && FreesUpload(t, o, AsResource(was), AsResource(list.items[k]))
    ensures var root := ProgramRoot(t, storage, more);
            var saved := Save(root.schema, doc, b, a);
            !(saved.Some? && Loads(root.schema, saved, a))
  {
    var root := ProgramRoot(t, storage, more);
    var list := ListOf(root, a, inDirs);
    assert !ResourceStands(t, inDirs, Resources(doc), ListOf(root, b, inDirs), list.items[k]);
    assert !AllStand(t, root, doc, b, a, inDirs);
    hide Given, AllStand, Save, Loads;
    ProgramLoadsIff(t, storage, more, doc, b, a);
  }

  // ----- a whole document -----

  /** A mapping whose fields stand alone loads if each of them does. */
  lemma StructLoads(s: Schema, n: Option<Node>, v: Value)
    requires s.Struct? && v.VStruct? && |v.values| == |s.branches| && MappingOrMissing(n)
    requires forall i | 0 <= i < |s.branches| ::
               s.branches[i].dependsOn.None? && Loads(s.branches[i].schema, NodeField(n, s.branches[i].key),
                   v.values[i])
    ensures Loads(s, n, v)
  {
    PartsDecode(s, n);
    DecodedStruct(s, n);
    var d := Decode(s, n).value;
    DecodesAs(s, n, d.values);
    hide Decode;
    forall i | 0 <= i < |s.branches|
      ensures Settle(s, d).values[i] == v.values[i]
    {
      assert Loads(s.branches[i].schema, NodeField(n, s.branches[i].key), v.values[i]);
    }
    assert Settle(s, d).values == v.values;
  }

  lemma StructMaySave(s: Schema, v: Value)
    requires s.Struct? && v.VStruct? && |v.values| == |s.branches|
    requires forall i | 0 <= i < |s.branches| ::
             s.branches[i].dependsOn.None? && MaySave(s.branches[i].schema, v.values[i])
    ensures MaySave(s, v)
  {
    assert Settle(s, v).values == v.values;
  }

  lemma MissingLifetimes(t: Texts, key: string, default: int, maxKey: string, maxDefault: int)
    requires TextsOk(t) && key != maxKey && default <= maxDefault
    ensures var s := LifetimeSchema(t, key, default, maxKey, maxDefault);
            Loads(s, None, LifetimeValue(t, default, maxDefault)) && MaySave(s, LifetimeValue(t, default, maxDefault))
  {
    var s, v := LifetimeSchema(t, key, default, maxKey, maxDefault), LifetimeValue(t, default, maxDefault);
    LifetimeFits(t, key, default, maxKey, maxDefault, default, maxDefault);
    assert t.number(t.show(default)) == default && t.number(t.show(maxDefault)) == maxDefault;
    forall i | 0 <= i < 2
      ensures Decode(s.branches[i].schema, NodeField(None, s.branches[i].key)) == Some(v.values[i])
    {
    }
    DecodesAs(s, None, v.values);
  }

  function OneDir(r: Resource): Value {
    VStruct([VItems([ResourceValue(r)]), VItems([])])
  }

  function OneDirConfig(t: Texts, r: Resource): Value {
    VStruct([OneDir(r), LifetimeValue(t, 7200, 21600), LifetimeValue(t, 3600, 86400)])
  }

  function OneDirDocument(o: Node): Node {
    Mapping([Field("storage", Mapping([Field("dirs", Sequence([o]))]))])
  }

  lemma OneField(key: string, n: Node)
    ensures var m := Mapping([Field(key, n)]);
            NoDuplicate(m.fields) && forall k :: NodeField(Some(m), k) == if k == key then Some(n) else None
  {
    var fields := [Field(key, n)];
    assert fields[1..] == [];
    forall k
      ensures Lookup(fields, k) == if k == key then Some(n) else None
    {
      assert Lookup([], k) == None;
    }
  }

  lemma OneDirMaySave(t: Texts, r: Resource)
    requires TextsOk(t) && MaySave(ResourceSchema(t, true), ResourceValue(r))
    ensures MaySave(ProgramRoot(t, [], []).schema, OneDirConfig(t, r))
    ensures MaySave(Struct(StorageBranches(t, [])), OneDir(r))
  {
    var dirs, shares := Items(ResourceSchema(t, true)), Items(ResourceSchema(t, false));
    assert Settle(dirs, VItems([ResourceValue(r)])).items == [ResourceValue(r)];
    assert Settle(shares, VItems([])).items == [];
    assert MaySave(dirs, VItems([ResourceValue(r)])) && MaySave(shares, VItems([]));
    MissingLifetimes(t, "lease_ttl_seconds", 7200, "lease_max_ttl_seconds", 21600);
    MissingLifetimes(t, "default_ttl_seconds", 3600, "max_ttl_seconds", 86400);
    hide ResourceSchema, ResourceValue, LifetimeSchema, LifetimeValue, MaySave;
    assert StorageBranches(t, []) + [] == StorageBranches(t, []);
    StructMaySave(Struct(StorageBranches(t, [])), OneDir(r));
    StructMaySave(Struct(TopBranches(t, [], [])), OneDirConfig(t, r));
  }

  lemma OneDirLoads(t: Texts, o: Node, r: Resource)
    requires TextsOk(t) && Loads(ResourceSchema(t, true), Some(o), ResourceValue(r))
    ensures Loads(ProgramRoot(t, [], []).schema, Some(OneDirDocument(o)), OneDirConfig(t, r))
  {
    var storage := Mapping([Field("dirs", Sequence([o]))]);
    OneField("dirs", Sequence([o]));
    OneField("storage", storage);
    OneItemLoads(ResourceSchema(t, true), o, ResourceValue(r));
    assert Settle(Items(ResourceSchema(t, false)), VItems([])).items == [];
    assert DecodeItems(ResourceSchema(t, false), []) == Some([]) && ItemsOf(None) == [];
    assert Loads(Items(ResourceSchema(t, false)), None, VItems([]));
    MissingLifetimes(t, "lease_ttl_seconds", 7200, "lease_max_ttl_seconds", 21600);
    MissingLifetimes(t, "default_ttl_seconds", 3600, "max_ttl_seconds", 86400);
    hide ResourceSchema, ResourceValue, LifetimeSchema, LifetimeValue, Loads;
    StructLoads(Struct(StorageBranches(t, [])), Some(storage), OneDir(r));
    StructLoads(Struct(TopBranches(t, [], [])), Some(OneDirDocument(o)), OneDirConfig(t, r));
  }

  lemma OneDirIsValid(t: Texts, r: Resource)
    requires TextsOk(t) && MaySave(ResourceSchema(t, true), ResourceValue(r))
    ensures var root := ProgramRoot(t, [], []);
            && Valid(root, OneDirConfig(t, r)) && DirsOf(root, OneDirConfig(t, r)) == VItems([ResourceValue(r)])
    ensures DistinctKeys(StorageBranches(t, [])) && DistinctKeys(TopBranches(t, [], []))
  {
    ProgramRootOk(t, [], []);
    OneDirMaySave(t, r);
  }

  /** What a mapping of fields that stand alone is patched to. */
  lemma StructSettles(s: Schema, o: Option<Node>, b: Value, a: Value, v: Value)
    requires SchemaOk(s) && Fits(s, a) && Pair(s, b, a) && v.VStruct? && |v.values| == |s.branches|
    requires Decode(s, o).Some? && o.Some? && o.value.Mapping?
    requires forall i | 0 <= i < |s.branches| :: !s.branches[i].omitEmpty && s.branches[i].dependsOn.None?
    requires forall i | 0 <= i < |s.branches| ::
               PatchesTo(s.branches[i].schema, NodeField(o, s.branches[i].key), b.values[i], a.values[i], v.values[i])
    ensures PatchesTo(s, o, b, a, v)
  {
    PatchedStruct(s, o, Some(b), a);
    var p := Patched(s, o, Some(b), a);
    hide Decode, Fits, SchemaOk, Patched;
    forall i | 0 <= i < |s.branches|
      ensures Settle(s, p).values[i] == v.values[i]
    {
      assert PatchesTo(s.branches[i].schema, NodeField(o, s.branches[i].key), b.values[i], a.values[i], v.values[i]);
    }
    assert Settle(s, p).values == v.values;
  }

  /** What is merged here loads as `v`. */
  ghost predicate PatchesTo(s: Schema, o: Option<Node>, b: Value, a: Value, v: Value) {
    Settle(s, Patched(s, o, Some(b), a)) == v
  }

  /** A part that has not changed stays as it loads. */
  lemma UnchangedPatches(s: Schema, o: Option<Node>, v: Value)
    requires Loads(s, o, v)
    ensures PatchesTo(s, o, v, v, v)
  {
  }

  lemma OneDirPatches(t: Texts, o: Node, was: Resource, now: Resource)
    requires TextsOk(t) && was.id == now.id && FreesUpload(t, o, was, now) && !EmptiesType(was, now)
    requires FindById([o], now.id) == Some(o)
    requires var item := ResourceSchema(t, true);
             && Loads(item, Some(o), ResourceValue(was)) && Fits(item, ResourceValue(was))
                 && MaySave(item, ResourceValue(now))
    ensures PatchesTo(Items(ResourceSchema(t, true)), Some(Sequence([o])), VItems([ResourceValue(was)]),
            VItems([ResourceValue(now)]),
                      VItems([ResourceValue(now.(upload := true))]))
  {
    var item, freed := ResourceSchema(t, true), ResourceValue(now.(upload := true));
    ResourceValues(was);
    ResourceValues(now);
    assert ResourceValue(was) != ResourceValue(now) by {
      assert ResourceValue(was).values[TYPE] != ResourceValue(now).values[TYPE];
    }
    assert ItemId(ResourceValue(was)) == was.id && ItemId(ResourceValue(now)) == now.id;
    FreedIsPatched(t, true, o, was, now);
    assert PatchesTo(item, Some(o), ResourceValue(was), ResourceValue(now), freed);
    hide *;
    OneItemPatches(item, o, ResourceValue(was), ResourceValue(now), freed);
  }

  lemma OneItemPatches(item: Schema, o: Node, v: Value, w: Value, f: Value)
    requires PatchesTo(item, Some(o), v, w, f) && v != w && ItemId(v) == ItemId(w)
    requires FindById([o], ItemId(w)) == Some(o)
    ensures PatchesTo(Items(item), Some(Sequence([o])), VItems([v]), VItems([w]), VItems([f]))
  {
    var list, b, a := Some(Sequence([o])), VItems([v]), VItems([w]);
    assert b.items[0] != a.items[0];
    assert ItemOf(Some(b), ItemId(w)) == Some(v);
    assert Patched(Items(item), list, Some(b), a).items == [Patched(item, Some(o), Some(v), w)];
    assert Settle(Items(item), Patched(Items(item), list, Some(b), a)).items == [f];
  }

  /** Nothing is carried into a list of the one directory it has. */
  lemma OneDirStays(t: Texts, o: Node, now: Resource)
    requires TextsOk(t) && MaySave(ResourceSchema(t, true), ResourceValue(now)) && FindById([o], now.id) == Some(o)
    ensures Missing([o], EncodeItems(ResourceSchema(t, true), [ResourceValue(now)]), [o] + []) == []
  {
    var item := ResourceSchema(t, true);
    ResourceSchemaOk(t, true);
    EncodedItem(item, [ResourceValue(now)], 0);
    EncodedId(item, ResourceValue(now));
    NothingMissing([o], EncodeItems(item, [ResourceValue(now)]), [o] + []);
  }

  /** The carried document is the document. */
  lemma OneDirCarried(t: Texts, o: Node, was: Resource, now: Resource)
    requires var root := ProgramRoot(t, [], []);
             Given(t, [], [], OneDirDocument(o), OneDirConfig(t, was), OneDirConfig(t, now))
    requires MaySave(ResourceSchema(t, true), ResourceValue(now)) && FindById([o], now.id) == Some(o)
    ensures Carry(OneDirDocument(o), Encode(ProgramRoot(t, [], []).schema, OneDirConfig(t, now))) == OneDirDocument(o)
  {
    var root, doc, a := ProgramRoot(t, [], []), OneDirDocument(o), OneDirConfig(t, now);
    var section := Mapping([Field("dirs", Sequence([o]))]);
    var wanted := NodeField(Some(Encode(root.schema, a)), "storage");
    OneField("dirs", Sequence([o]));
    OneField("storage", section);
    OneDirStays(t, o, now);
    OneDirWanted(t, was, now, doc);
    hide Encode, Given, MaySave, ResourceSchema, ResourceValue, ProgramRoot, OneDirConfig;
    hide Missing, EncodeItems, NodeField;
    NothingToCarry(section, wanted);
    hide CarryStorage;
    SetSame(doc.fields, "storage");
  }

  lemma OneDirWanted(t: Texts, was: Resource, now: Resource, doc: Node)
    requires Given(t, [], [], doc, OneDirConfig(t, was), OneDirConfig(t, now))
    ensures var wanted := NodeField(Some(Encode(ProgramRoot(t, [], []).schema, OneDirConfig(t, now))), "storage");
            && ItemsOf(NodeField(wanted, "dirs")) == EncodeItems(ResourceSchema(t, true), [ResourceValue(now)])
            && ItemsOf(NodeField(wanted, "shares")) == []
  {
    var root, a := ProgramRoot(t, [], []), OneDirConfig(t, now);
    ProgramSchemas(t, [], []);
    assert StorageOf(root, a) == OneDir(now) && a == VStruct(a.values);
    EncodedBranch(root.schema, a.values, root.storage);
    WantedLists(root, StorageOf(root, a));
    assert EncodeItems(ShareItem(root), []) == [];
  }

  /** Where neither list misses anything, carrying changes nothing. */
  lemma NothingToCarry(storage: Node, wanted: Option<Node>)
    requires storage.Mapping?
    requires var dirs, shares := ItemsOf(NodeField(Some(storage), "dirs")), ItemsOf(NodeField(Some(storage), "shares"));
             && Missing(dirs, ItemsOf(NodeField(wanted, "dirs")), dirs + shares) == []
             && Missing(shares, ItemsOf(NodeField(wanted, "shares")), dirs + shares) == []
    ensures CarryStorage(storage.fields, wanted) == storage.fields
  {
    hide Missing;
  }

  /**
   The same in a whole save: a document with nothing but that file among its directories, saved
   with the file turned into a directory, is saved, and loads as what was saved with uploads allowed.
   */
  lemma WholeSaveReverts(t: Texts, id: string, path: string)
    requires TextsOk(t) && t.trim(id) == id && t.place(path) == path && id != ""
    ensures var root, doc := ProgramRoot(t, [], []), OneDirDocument(FileNode(id, path));
            var was, now := Resource(id, id, "file", path, false, false),
                Resource(id, id, "directory", path, false, false);
            var b, a, read := OneDirConfig(t, was), OneDirConfig(t, now), OneDirConfig(t, now.(upload := true));
            && Given(t, [], [], doc, b, a)
            && var saved := Save(root.schema, doc, b, a);
               saved.Some? && Loads(root.schema, saved, read) && !Loads(root.schema, saved, a)
  {
    var o := FileNode(id, path);
    var was, now := Resource(id, id, "file", path, false, false), Resource(id, id, "directory", path, false, false);
    FileReads(t, id, id, path);
    FitsResource(t, true, was);
    FitsResource(t, true, now);
    FileNodeFields(id, path);
    assert FreesUpload(t, o, was, now) && FindById([o], id) == Some(o);
    FreedIsAnother(t, now);
    hide ResourceSchema, ResourceValue, Loads, MaySave, FreesUpload, FileNode, TextsOk, OneDirConfig, ProgramRoot;
    OneDirIsGiven(t, o, was, now);
    OneDirSaved(t, o, was, now);
  }

  lemma FreedIsAnother(t: Texts, now: Resource)
    requires !now.upload
    ensures OneDirConfig(t, now.(upload := true)) != OneDirConfig(t, now)
  {
    ResourceValues(now);
    ResourceValues(now.(upload := true));
    assert OneDirConfig(t, now).values[0].values[0].items[0].values[UPLOAD] == VLeaf(Truth(false));
    assert OneDirConfig(t, now.(upload := true)).values[0].values[0].items[0].values[UPLOAD] == VLeaf(Truth(true));
  }

  lemma OneDirIsGiven(t: Texts, o: Node, was: Resource, now: Resource)
    requires TextsOk(t) && Loads(ResourceSchema(t, true), Some(o), ResourceValue(was))
    requires MaySave(ResourceSchema(t, true), ResourceValue(was))
    requires MaySave(ResourceSchema(t, true), ResourceValue(now))
    ensures Given(t, [], [], OneDirDocument(o), OneDirConfig(t, was), OneDirConfig(t, now))
  {
    hide ResourceSchema, ResourceValue, Loads, MaySave, TextsOk;
    OneDirLoads(t, o, was);
    OneDirIsValid(t, was);
    OneDirIsValid(t, now);
  }

  lemma OneDirSaved(t: Texts, o: Node, was: Resource, now: Resource)
    requires TextsOk(t) && was.id == now.id && FreesUpload(t, o, was, now) && !EmptiesType(was, now)
    requires FindById([o], now.id) == Some(o)
    requires Loads(ResourceSchema(t, true), Some(o), ResourceValue(was))
    requires MaySave(ResourceSchema(t, true), ResourceValue(was))
    requires MaySave(ResourceSchema(t, true), ResourceValue(now))
    ensures var root := ProgramRoot(t, [], []);
            var saved := Save(root.schema, OneDirDocument(o), OneDirConfig(t, was), OneDirConfig(t, now));
            saved.Some? && Loads(root.schema, saved, OneDirConfig(t, now.(upload := true)))
  {
    var root, doc := ProgramRoot(t, [], []), OneDirDocument(o);
    var b, a, read := OneDirConfig(t, was), OneDirConfig(t, now), OneDirConfig(t, now.(upload := true));
    OneDirIsGiven(t, o, was, now);
    OneDirCarried(t, o, was, now);
    OneDirNothingLost(t, o, was, now);
    OneDirRead(t, o, was, now);
    hide Given, OneDirConfig, ProgramRoot, OneDirDocument, Save, Loads, NothingLost, NothingComesBack, FreesUpload,
        MaySave;
    ProgramLoadsIff(t, [], [], doc, b, a);
    SavedAsPatched(root, doc, b, a, read);
  }

  lemma SavedAsPatched(root: Root, doc: Node, b: Value, a: Value, read: Value)
    requires Valid(root, b) && Valid(root, a) && Loads(root.schema, Some(doc), b)
    requires Carry(doc, Encode(root.schema, a)) == doc && Save(root.schema, doc, b, a).Some?
    requires PatchesTo(root.schema, Some(doc), b, a, read)
    ensures Loads(root.schema, Save(root.schema, doc, b, a), read)
  {
    MergeDecodes(root.schema, Some(doc), Some(b), a);
  }

  lemma OneDirNothingLost(t: Texts, o: Node, was: Resource, now: Resource)
    requires Given(t, [], [], OneDirDocument(o), OneDirConfig(t, was), OneDirConfig(t, now))
    requires FindById([o], now.id) == Some(o)
    ensures NothingLost(ProgramRoot(t, [], []), OneDirDocument(o), OneDirConfig(t, was), OneDirConfig(t, now))
  {
    var root, doc := ProgramRoot(t, [], []), OneDirDocument(o);
    var b, a := OneDirConfig(t, was), OneDirConfig(t, now);
    Pairs(root, b, a);
    ProgramSchemas(t, [], []);
    OneField("dirs", Sequence([o]));
    OneField("storage", Mapping([Field("dirs", Sequence([o]))]));
    assert Resources(doc) == [o];
    assert DirsOf(root, a).items == [ResourceValue(now)] && SharesOf(root, a).items == [];
    assert ItemId(ResourceValue(now)) == now.id;
    hide Given, Loads, Valid, Fits, ResourceSchema, PartLost;
  }

  lemma OneDirRead(t: Texts, o: Node, was: Resource, now: Resource)
    requires TextsOk(t) && was.id == now.id && FreesUpload(t, o, was, now) && !EmptiesType(was, now)
    requires FindById([o], now.id) == Some(o)
    requires Loads(ResourceSchema(t, true), Some(o), ResourceValue(was))
    requires MaySave(ResourceSchema(t, true), ResourceValue(was))
    requires MaySave(ResourceSchema(t, true), ResourceValue(now))
    requires Given(t, [], [], OneDirDocument(o), OneDirConfig(t, was), OneDirConfig(t, now))
    ensures PatchesTo(ProgramRoot(t, [], []).schema, Some(OneDirDocument(o)),
                      OneDirConfig(t, was), OneDirConfig(t, now), OneDirConfig(t, now.(upload := true)))
  {
    var root, doc := ProgramRoot(t, [], []), OneDirDocument(o);
    var b, a, read := OneDirConfig(t, was), OneDirConfig(t, now), OneDirConfig(t, now.(upload := true));
    OneField("storage", Mapping([Field("dirs", Sequence([o]))]));
    ProgramRootOk(t, [], []);
    Pairs(root, b, a);
    hide ResourceSchema, ResourceValue, LifetimeSchema, LifetimeValue, PatchesTo, Settle, Fits, SchemaOk, Decode;
    StorageRead(t, o, was, now);
    NoLifetimes(t);
    OneDirParts(t, o, b, a, read);
    hide ProgramRoot, OneDirConfig, OneDirDocument, TextsOk, MaySave, FreesUpload, Loads;
    StructSettles(root.schema, Some(doc), b, a, read);
  }

  /** The three sections of that configuration. */
  lemma OneDirParts(t: Texts, o: Node, b: Value, a: Value, read: Value)
    requires b.VStruct? && a.VStruct? && read.VStruct? && |b.values| == |a.values| == |read.values| == 3
    requires PatchesTo(Struct(StorageBranches(t, [])), Some(Mapping([Field("dirs", Sequence([o]))])),
                       b.values[0], a.values[0], read.values[0])
    requires PatchesTo(DownloadsSchema(t), None, b.values[1], a.values[1], read.values[1])
    requires PatchesTo(TokensSchema(t), None, b.values[2], a.values[2], read.values[2])
    ensures var s := ProgramRoot(t, [], []).schema;
            && s.Struct? && |s.branches| == 3
            && OneDirDocument(o).Mapping?
            && forall i | 0 <= i < 3 ::
                 && !s.branches[i].omitEmpty && s.branches[i].dependsOn.None?
                 && PatchesTo(s.branches[i].schema, NodeField(Some(OneDirDocument(o)), s.branches[i].key),
                              b.values[i], a.values[i], read.values[i])
  {
    OneField("storage", Mapping([Field("dirs", Sequence([o]))]));
    hide PatchesTo, LifetimeSchema, StorageBranches, NodeField;
  }

  lemma NoLifetimes(t: Texts)
    requires TextsOk(t)
    ensures PatchesTo(DownloadsSchema(t), None, LifetimeValue(t, 7200, 21600), LifetimeValue(t, 7200, 21600),
            LifetimeValue(t, 7200, 21600))
    ensures PatchesTo(TokensSchema(t), None, LifetimeValue(t, 3600, 86400), LifetimeValue(t, 3600, 86400),
            LifetimeValue(t, 3600, 86400))
  {
    MissingLifetimes(t, "lease_ttl_seconds", 7200, "lease_max_ttl_seconds", 21600);
    MissingLifetimes(t, "default_ttl_seconds", 3600, "max_ttl_seconds", 86400);
    hide LifetimeSchema, LifetimeValue, Loads, PatchesTo;
    UnchangedPatches(DownloadsSchema(t), None, LifetimeValue(t, 7200, 21600));
    UnchangedPatches(TokensSchema(t), None, LifetimeValue(t, 3600, 86400));
  }

  lemma NoShares(t: Texts)
    ensures var shares := Items(ResourceSchema(t, false)); PatchesTo(shares, None, VItems([]), VItems([]), VItems([]))
  {
    var item := ResourceSchema(t, false);
    assert DecodeItems(item, []) == Some([]) && ItemsOf(None) == [];
    hide ResourceSchema;
    assert Settle(Items(item), VItems([])).items == [];
    UnchangedPatches(Items(item), None, VItems([]));
  }

  lemma StorageRead(t: Texts, o: Node, was: Resource, now: Resource)
    requires TextsOk(t) && was.id == now.id && FreesUpload(t, o, was, now) && !EmptiesType(was, now)
    requires FindById([o], now.id) == Some(o)
    requires Loads(ResourceSchema(t, true), Some(o), ResourceValue(was))
    requires MaySave(ResourceSchema(t, true), ResourceValue(was))
    requires MaySave(ResourceSchema(t, true), ResourceValue(now))
    requires Given(t, [], [], OneDirDocument(o), OneDirConfig(t, was), OneDirConfig(t, now))
    ensures PatchesTo(Struct(StorageBranches(t, [])), Some(Mapping([Field("dirs", Sequence([o]))])),
                      OneDir(was), OneDir(now), OneDir(now.(upload := true)))
  {
    var root, section := ProgramRoot(t, [], []), Mapping([Field("dirs", Sequence([o]))]);
    OneField("dirs", Sequence([o]));
    OneField("storage", section);
    OneDirPatches(t, o, was, now);
    NoShares(t);
    ProgramSchemas(t, [], []);
    OneDirMaySave(t, now);
    PartDecodes(root.schema, Some(OneDirDocument(o)), 0);
    hide ResourceSchema, ResourceValue, Loads, PatchesTo, TextsOk, FreesUpload, Settle, Fits, LifetimeSchema;
    StructSettles(Struct(StorageBranches(t, [])), Some(section), OneDir(was), OneDir(now),
        OneDir(now.(upload := true)));
  }
}
