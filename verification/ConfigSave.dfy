/**
 Saving a configuration: the change since the last save is merged into the document, and document
 and baseline move on together. What a save gives back, and what a chain of saves keeps.
 */
module ConfigSave {
  import opened Basics
  import opened ConfigTree
  import opened ConfigSchema
  import opened ConfigMerge
  import opened ConfigKeeps
  import opened ConfigHolds
  import opened ConfigFaithful
  import opened ConfigCarry

  // ----- the laws of saving -----

  /**
   The saved document loads as the new configuration exactly if, in the document with the moved
   originals, no unchanged resource is lost and every field is faithful: none that is left out when
   empty has been emptied, and none was written differently from how it was loaded while the
   neighbour it depends on changes.
   */
  lemma SaveRoundTrip(root: Root, doc: Node, b: Value, a: Value)
    requires Valid(root, b) && Valid(root, a) && doc.Mapping? && Loads(root.schema, Some(doc), b)
    ensures var saved, carried := Save(root.schema, doc, b, a), Some(Carry(doc, Encode(root.schema, a)));
            saved.Some? && Loads(root.schema, saved, a)
            <==> !Lost(root.schema, carried, Some(b), a) && Faithful(root.schema, carried, Some(b), a)
  {
    CarriedIsReady(root, doc, b, a, true);
    MergeLoadsIff(root.schema, Some(Carry(doc, Encode(root.schema, a))), Some(b), a);
  }

  /** The save fails exactly if an unchanged resource is lost; nothing else can stop it. */
  lemma SaveFailsIff(root: Root, doc: Node, b: Value, a: Value)
    requires Valid(root, b) && Valid(root, a) && doc.Mapping? && Holds(root.schema, Some(doc), b)
    ensures Save(root.schema, doc, b, a).None?
            <==> Lost(root.schema, Some(Carry(doc, Encode(root.schema, a))), Some(b), a)
  {
    CarriedIsReady(root, doc, b, a, false);
    MergeDecodes(root.schema, Some(Carry(doc, Encode(root.schema, a))), Some(b), a);
  }

  /**
   A saved document need not load as the configuration, but it holds it: it can be read, and its
   lists have the resources of the configuration. That is all the next save needs to keep things.
   */
  lemma SaveHolds(root: Root, doc: Node, b: Value, a: Value)
    requires Valid(root, b) && Valid(root, a) && doc.Mapping? && Holds(root.schema, Some(doc), b)
    requires Save(root.schema, doc, b, a).Some?
    ensures Save(root.schema, doc, b, a).value.Mapping? && Holds(root.schema, Save(root.schema, doc, b, a), a)
  {
    CarriedIsReady(root, doc, b, a, false);
    MergeHolds(root.schema, Some(Carry(doc, Encode(root.schema, a))), b, a);
    assert a == VStruct(a.values);
  }

  /** Saving again what was saved last leaves the very same tree, whether or not that save reads back. */
  lemma UnchangedSave(root: Root, doc: Node, b: Value)
    requires Valid(root, b) && doc.Mapping? && Holds(root.schema, Some(doc), b)
    ensures Save(root.schema, doc, b, b) == Some(doc)
  {
    var s := root.schema;
    EqualMeansSame(s, b, b);
    var storage := NodeField(Some(doc), "storage");
    if storage.Some? && storage.value.Mapping? {
      assert b == VStruct(b.values);
      EncodedBranch(s, b.values, root.storage);
      HeldField(s, Some(doc), b, root.storage);
      NothingCarried(root, storage.value, b.values[root.storage]);
      SetSame(doc.fields, "storage");
    }
  }

  lemma NothingCarried(root: Root, storage: Node, b: Value)
    requires RootOk(root) && storage.Mapping? && Holds(StorageSchema(root), Some(storage), b)
    requires Fits(StorageSchema(root), b) && Apart(b.values[root.dirs], b.values[root.shares])
    ensures CarryStorage(storage.fields, Some(Encode(StorageSchema(root), b))) == storage.fields
  {
    var source := ItemsOf(Lookup(storage.fields, "dirs")) + ItemsOf(Lookup(storage.fields, "shares"));
    SourcesApart(root, Some(storage), b);
    WantedLists(root, b);
    UnchangedListStays(DirItem(root), Lookup(storage.fields, "dirs"), source, b.values[root.dirs]);
    UnchangedListStays(ShareItem(root), Lookup(storage.fields, "shares"), source, b.values[root.shares]);
  }

  // ----- unknown keys across a save -----

  /**
   Saving keeps every key outside the schema, at every level and in every resource that stays in
   its list, whether or not the save reads back.
   */
  lemma SaveKeepsUnknown(root: Root, doc: Node, b: Value, a: Value)
    requires Valid(root, b) && Valid(root, a) && doc.Mapping? && Holds(root.schema, Some(doc), b)
    requires Save(root.schema, doc, b, a).Some?
    ensures Keeps(root.schema, Some(doc), Save(root.schema, doc, b, a), a)
    ensures Keeps(root.schema, Some(Carry(doc, Encode(root.schema, a))), Save(root.schema, doc, b, a), a)
  {
    var s := root.schema;
    var carried, saved := Carry(doc, Encode(s, a)), Save(s, doc, b, a);
    CarriedIsReady(root, doc, b, a, false);
    MergeKeeps(s, Some(carried), Some(b), a);
    var storage := NodeField(Some(doc), "storage");
    if storage.Some? && storage.value.Mapping? {
      DocumentKeepsThroughCarry(root, doc, a, saved);
    }
  }

  lemma DocumentKeepsThroughCarry(root: Root, doc: Node, a: Value, saved: Option<Node>)
    requires RootOk(root) && Fits(root.schema, a) && doc.Mapping?
    requires NodeField(Some(doc), "storage").Some? && NodeField(Some(doc), "storage").value.Mapping?
    requires Keeps(root.schema, Some(Carry(doc, Encode(root.schema, a))), saved, a)
    ensures Keeps(root.schema, Some(doc), saved, a)
  {
    var s, storage := root.schema, NodeField(Some(doc), "storage");
    var carried := Carry(doc, Encode(s, a));
    var after := NodeField(Some(Encode(s, a)), "storage");
    var section := Mapping(CarryStorage(storage.value.fields, after));
    assert a == VStruct(a.values);
    forall key: string
      ensures NodeField(Some(carried), key) == if key == "storage" then Some(section) else NodeField(Some(doc), key)
    {
      LookupSet(doc.fields, "storage", section, key);
    }
    forall i | 0 <= i < |s.branches|
      ensures Keeps(s.branches[i].schema, NodeField(Some(doc), s.branches[i].key), NodeField(saved, s.branches[i].key),
              a.values[i])
    {
      assert Keeps(s.branches[i].schema, NodeField(Some(carried), s.branches[i].key),
          NodeField(saved, s.branches[i].key), a.values[i]);
      if i == root.storage {
        StorageKeepsThroughCarry(root, storage.value, after, NodeField(saved, "storage"), a.values[i]);
      }
    }
  }

  lemma StorageKeepsThroughCarry(root: Root, storage: Node, after: Option<Node>, saved: Option<Node>, a: Value)
    requires RootOk(root) && storage.Mapping? && Fits(StorageSchema(root), a)
    requires Keeps(StorageSchema(root), Some(Mapping(CarryStorage(storage.fields, after))), saved, a)
    ensures Keeps(StorageSchema(root), Some(storage), saved, a)
  {
    var s := StorageSchema(root);
    var section := Some(Mapping(CarryStorage(storage.fields, after)));
    assert a == VStruct(a.values);
    forall key: string | UnknownTo(s, key)
      ensures NodeField(saved, key) == NodeField(Some(storage), key)
    {
      CarriedLists(storage.fields, after, key);
      assert s.branches[root.dirs].key == "dirs" && s.branches[root.shares].key == "shares";
    }
    forall i | 0 <= i < |s.branches|
      ensures Keeps(s.branches[i].schema, NodeField(Some(storage), s.branches[i].key),
              NodeField(saved, s.branches[i].key), a.values[i])
    {
      CarriedLists(storage.fields, after, s.branches[i].key);
      assert Keeps(s.branches[i].schema, NodeField(section, s.branches[i].key), NodeField(saved, s.branches[i].key),
          a.values[i]);
      if i == root.dirs || i == root.shares {
        assert s.branches[i].schema.Items?;
      } else {
        assert s.branches[i].key != "dirs" && s.branches[i].key != "shares";
      }
    }
  }

  /** All resources of a document. */
  function Resources(doc: Node): seq<Node> {
    var storage := NodeField(Some(doc), "storage");
    ItemsOf(NodeField(storage, "dirs")) + ItemsOf(NodeField(storage, "shares"))
  }

  ghost predicate HasResource(root: Root, v: Value, id: string)
    requires RootOk(root) && Fits(root.schema, v)
  {
    FindValue(DirsOf(root, v).items, id).Some? || FindValue(SharesOf(root, v).items, id).Some?
  }

  /** The two lists of a document. */
  lemma HeldLists(root: Root, doc: Node, v: Value)
    requires Valid(root, v) && Holds(root.schema, Some(doc), v)
    ensures var storage := NodeField(Some(doc), "storage");
            && Holds(StorageSchema(root), storage, StorageOf(root, v))
            && Holds(Items(DirItem(root)), NodeField(storage, "dirs"), DirsOf(root, v))
            && Holds(Items(ShareItem(root)), NodeField(storage, "shares"), SharesOf(root, v))
  {
    HeldField(root.schema, Some(doc), v, root.storage);
    SectionLists(root, NodeField(Some(doc), "storage"), StorageOf(root, v), false);
  }

  /** No two resources of a document are written with the same id, whichever list they are in. */
  lemma ResourcesAreUnique(root: Root, doc: Node, v: Value)
    requires Valid(root, v) && Holds(root.schema, Some(doc), v)
    ensures UniqueIds(Resources(doc))
  {
    var d, h := DirItem(root), ShareItem(root);
    HeldLists(root, doc, v);
    var storage := NodeField(Some(doc), "storage");
    var dirs, shares := NodeField(storage, "dirs"), NodeField(storage, "shares");
    HeldIdsUnique(Items(d), dirs, DirsOf(root, v));
    HeldIdsUnique(Items(h), shares, SharesOf(root, v));
    ListsAreApart(d, h, dirs, shares, DirsOf(root, v), SharesOf(root, v));
    HeldItems(d, dirs, DirsOf(root, v));
    forall x, y | x in ItemsOf(dirs) && y in ItemsOf(shares) && IdOf(x).Some?
      ensures IdOf(x) != IdOf(y)
    {
      var j :| 0 <= j < |ItemsOf(dirs)| && ItemsOf(dirs)[j] == x;
      FoundValue(DirsOf(root, v).items, ItemId(Decode(d, Some(y)).value));
      if IdOf(x) == IdOf(y) {
        SameTextSameId(d, x, y);
      }
    }
    UniqueTogether(ItemsOf(dirs), ItemsOf(shares));
  }

  lemma UniqueTogether(xs: seq<Node>, ys: seq<Node>)
    requires UniqueIds(xs) && UniqueIds(ys)
    requires forall x, y | x in xs && y in ys && IdOf(x).Some? :: IdOf(x) != IdOf(y)
    ensures UniqueIds(xs + ys)
  {
  }

  /** The place of a resource in a configuration. */
  ghost predicate InList(root: Root, v: Value, id: string, index: nat, k: nat)
    requires RootOk(root) && Fits(root.schema, v)
  {
    && (index == root.dirs || index == root.shares)
    && var list := StorageOf(root, v).values[index];
    list.VItems? && k < |list.items| && ItemId(list.items[k]) == id
  }

  lemma {:induction false} ValueAt(items: seq<Value>, id: string) returns (k: nat)
    requires FindValue(items, id).Some?
    ensures k < |items| && ItemId(items[k]) == id
  {
    if ItemId(items[0]) == id {
      k := 0;
    } else {
      k := ValueAt(items[1..], id);
      k := k + 1;
    }
  }

  /**
   A resource that the document writes under its id and the new configuration still has keeps every
   key outside the schema, also when it moves from one list to the other, and whether or not the
   save reads back.
   */
  lemma SaveKeepsResource(root: Root, doc: Node, b: Value, a: Value, saved: Node, id: string, key: string)
    requires Valid(root, b) && Valid(root, a) && doc.Mapping? && Holds(root.schema, Some(doc), b)
    requires Save(root.schema, doc, b, a) == Some(saved)
    requires FindById(Resources(doc), id).Some? && HasResource(root, a, id) && UnknownTo(DirItem(root), key)
    ensures FindById(Resources(saved), id).Some?
    ensures NodeField(FindById(Resources(saved), id), key) == NodeField(FindById(Resources(doc), id), key)
  {
    SaveHolds(root, doc, b, a);
    SaveKeepsUnknown(root, doc, b, a);
    var now := NodeField(Some(saved), "storage");
    FindAppend(ItemsOf(NodeField(now, "dirs")), ItemsOf(NodeField(now, "shares")), id);
    hide Save, Holds, Encode, Valid, Carry;
    if FindValue(DirsOf(root, a).items, id).Some? {
      var k := ValueAt(DirsOf(root, a).items, id);
      ResourceStays(root, doc, b, a, saved, id, key, root.dirs, k);
    } else {
      var k := ValueAt(SharesOf(root, a).items, id);
      ResourceStays(root, doc, b, a, saved, id, key, root.shares, k);
      NotElsewhere(root, saved, a, id, k);
    }
  }

  /** A resource of the shares is not written among the dirs. */
  lemma NotElsewhere(root: Root, saved: Node, a: Value, id: string, k: nat)
    requires Valid(root, a) && Holds(root.schema, Some(saved), a) && InList(root, a, id, root.shares, k)
    ensures FindById(ItemsOf(NodeField(NodeField(Some(saved), "storage"), "dirs")), id).None?
  {
    var d := DirItem(root);
    HeldLists(root, saved, a);
    var dirs := NodeField(NodeField(Some(saved), "storage"), "dirs");
    HeldItems(d, dirs, DirsOf(root, a));
    FoundById(ItemsOf(dirs), id);
    if FindById(ItemsOf(dirs), id).Some? {
      var x := FindById(ItemsOf(dirs), id).value;
      var j :| 0 <= j < |ItemsOf(dirs)| && ItemsOf(dirs)[j] == x;
      ReadByBoth(d, ShareItem(root), x);
      NormalIdIsRead(ShareItem(root), x, SharesOf(root, a).items[k]);
      assert false;
    }
  }

  /** The original of a resource is in the carried list it is wanted in, and so in the saved one. */
  lemma ResourceStays(
    root: Root, doc: Node, b: Value, a: Value, saved: Node, id: string, key: string, index: nat, k: nat)
    requires Valid(root, b) && Valid(root, a) && doc.Mapping? && Holds(root.schema, Some(doc), b)
    requires Keeps(root.schema, Some(Carry(doc, Encode(root.schema, a))), Some(saved), a)
    requires FindById(Resources(doc), id).Some? && InList(root, a, id, index, k) && UnknownTo(DirItem(root), key)
    ensures var list := NodeField(NodeField(Some(saved), "storage"), StorageSchema(root).branches[index].key);
            && FindById(ItemsOf(list), id).Some?
            && NodeField(FindById(ItemsOf(list), id), key) == NodeField(FindById(Resources(doc), id), key)
  {
    var after := Encode(root.schema, a);
    ResourcesAreUnique(root, doc, b);
    OriginalArrives(root, doc, b, a, id, index, k);
    var storage := NodeField(Some(doc), "storage").value;
    var carried := Mapping(CarryStorage(storage.fields, NodeField(Some(after), "storage")));
    LookupSet(doc.fields, "storage", carried, "storage");
    hide Valid, Holds, Encode, CarryStorage, Keeps, Fits, RootOk;
    ListKeeps(root, Carry(doc, after), carried, saved, a, index);
    var x := FindById(Resources(doc), id).value;
    FoundById(Resources(doc), id);
    ItemStays(root, carried, saved, a, x, id, key, index, k);
  }

  lemma ItemStays(
    root: Root, storage: Node, saved: Node, a: Value, x: Node, id: string, key: string, index: nat, k: nat)
    requires RootOk(root) && Fits(root.schema, a) && InList(root, a, id, index, k) && UnknownTo(DirItem(root), key)
    requires var branch := StorageSchema(root).branches[index];
             && Keeps(branch.schema, NodeField(Some(storage), branch.key),
                 NodeField(NodeField(Some(saved), "storage"), branch.key),
                      StorageOf(root, a).values[index])
             && x in ItemsOf(NodeField(Some(storage), branch.key)) && IdOf(x) == Some(id)
    ensures var list := NodeField(NodeField(Some(saved), "storage"), StorageSchema(root).branches[index].key);
            && FindById(ItemsOf(list), id).Some?
            && NodeField(FindById(ItemsOf(list), id), key) == NodeField(Some(x), key)
  {
    SameUnknown(root, index, key);
    var branch, list := StorageSchema(root).branches[index], StorageOf(root, a).values[index];
    var there := NodeField(NodeField(Some(saved), "storage"), branch.key);
    var item := branch.schema.item;
    assert branch.schema == Items(item) && list == VItems(list.items);
    assert ItemKept(item, x, there, list.items[k]);
    assert Fits(branch.schema, list) && Fits(item, list.items[k]);
    KeptKey(item, x, FindById(ItemsOf(there), id), list.items[k], key);
  }

  lemma KeptKey(item: Schema, x: Node, y: Option<Node>, now: Value, key: string)
    requires item.Struct? && Fits(item, now) && Keeps(item, Some(x), y, now) && UnknownTo(item, key) && IdOf(x).Some?
    ensures NodeField(y, key) == NodeField(Some(x), key)
  {
    assert now == VStruct(now.values) && x.Mapping?;
  }

  lemma SameUnknown(root: Root, index: nat, key: string)
    requires RootOk(root) && (index == root.dirs || index == root.shares) && UnknownTo(DirItem(root), key)
    ensures StorageSchema(root).branches[index].schema.Items?
    ensures UnknownTo(StorageSchema(root).branches[index].schema.item, key)
    ensures StorageSchema(root).branches[index].schema.item.Struct?
  {
    forall i | 0 <= i < |ShareItem(root).branches|
      ensures ShareItem(root).branches[i].key != key
    {
      assert DirItem(root).branches[i].key != key;
    }
  }

  /** Keeping goes down from the document to one list. */
  lemma ListKeeps(root: Root, doc: Node, storage: Node, saved: Node, a: Value, index: nat)
    requires RootOk(root) && Fits(root.schema, a) && index < |StorageSchema(root).branches|
    requires doc.Mapping? && NodeField(Some(doc), "storage") == Some(storage) && storage.Mapping?
    requires Keeps(root.schema, Some(doc), Some(saved), a)
    ensures var branch := StorageSchema(root).branches[index];
            Keeps(branch.schema, NodeField(Some(storage), branch.key),
                NodeField(NodeField(Some(saved), "storage"), branch.key),
                  StorageOf(root, a).values[index])
  {
    var s := root.schema;
    assert a == VStruct(a.values) && StorageOf(root, a) == VStruct(StorageOf(root, a).values);
    assert Keeps(s.branches[root.storage].schema, NodeField(Some(doc), s.branches[root.storage].key),
                 NodeField(Some(saved), s.branches[root.storage].key), a.values[root.storage]);
  }

  lemma OriginalArrives(root: Root, doc: Node, b: Value, a: Value, id: string, index: nat, k: nat)
    requires Valid(root, b) && Valid(root, a) && doc.Mapping? && Holds(root.schema, Some(doc), b)
    requires UniqueIds(Resources(doc)) && FindById(Resources(doc), id).Some? && InList(root, a, id, index, k)
    ensures NodeField(Some(doc), "storage").Some? && NodeField(Some(doc), "storage").value.Mapping?
    ensures FindById(Resources(doc), id).value
            in ItemsOf(Lookup(CarryStorage(NodeField(Some(doc), "storage").value.fields,
                NodeField(Some(Encode(root.schema, a)), "storage")),
                              StorageSchema(root).branches[index].key))
  {
    var storage := NodeField(Some(doc), "storage");
    var after := NodeField(Some(Encode(root.schema, a)), "storage");
    var name := StorageSchema(root).branches[index].key;
    var list, wanted, source := ItemsOf(NodeField(storage, name)), ItemsOf(NodeField(after, name)), Resources(doc);
    var x := FindById(source, id).value;
    FoundById(source, id);
    assert a == VStruct(a.values);
    EncodedBranch(root.schema, a.values, root.storage);
    WantedAt(root, StorageOf(root, a), id, index, k);
    HeldLists(root, doc, b);
    HeldIdsUnique(Items(DirItem(root)), NodeField(storage, "dirs"), DirsOf(root, b));
    HeldIdsUnique(Items(ShareItem(root)), NodeField(storage, "shares"), SharesOf(root, b));
    assert storage.Some? && storage.value.Mapping?;
    hide Holds, Valid, Carry, Fits, Encode;
    ArrivesInList(list, wanted, source, x, k);
    CarriedLists(storage.value.fields, after, name);
    assert list + [] == list;
  }

  lemma WantedAt(root: Root, a: Value, id: string, index: nat, k: nat)
    requires RootOk(root) && Fits(StorageSchema(root), a) && (index == root.dirs || index == root.shares)
    requires a.values[index].VItems? && k < |a.values[index].items| && ItemId(a.values[index].items[k]) == id
    ensures var wanted := ItemsOf(NodeField(Some(Encode(StorageSchema(root), a)),
            StorageSchema(root).branches[index].key));
            k < |wanted| && IdOf(wanted[k]) == Some(id)
  {
    var item := if index == root.dirs then DirItem(root) else ShareItem(root);
    WantedLists(root, a);
    assert Fits(Items(item), a.values[index]);
    EncodedItem(item, a.values[index].items, k);
    EncodedId(item, a.values[index].items[k]);
  }

  lemma ArrivesInList(list: seq<Node>, wanted: seq<Node>, source: seq<Node>, x: Node, k: nat)
    requires UniqueIds(list) && UniqueIds(source) && forall z | z in list :: z in source
    requires x in source && k < |wanted| && IdOf(wanted[k]).Some? && IdOf(x) == IdOf(wanted[k])
    ensures x in list + Missing(list, wanted, source)
  {
    var id := IdOf(x).value;
    FindLastIsMember(source, id);
    MissingArrive(list, wanted, source, k);
    MissingItems(list, wanted, source);
    var z := FindById(list + Missing(list, wanted, source), id).value;
    FoundById(list + Missing(list, wanted, source), id);
    FindMember(source, x);
    FindMember(source, z);
  }

  // ----- chains of saves -----

  ghost predicate ChainValid(root: Root, configs: seq<Value>) {
    RootOk(root) && forall i | 0 <= i < |configs| :: Valid(root, configs[i])
  }

  /**
   Saves one after the other, each from the document and baseline the last one left, the first from
   a document just loaded. Nothing is asked of a save but that there is a document.
   */
  ghost predicate IsChain(root: Root, docs: seq<Node>, configs: seq<Value>) {
    && |docs| == |configs| >= 1
    && ChainValid(root, configs) && docs[0].Mapping? && Loads(root.schema, Some(docs[0]), configs[0])
    && forall i | 0 <= i < |docs| - 1 :: SaveStep(root, docs[i], configs[i], docs[i + 1], configs[i + 1])
  }

  ghost predicate SaveStep(root: Root, doc: Node, b: Value, saved: Node, a: Value) {
    Save(root.schema, doc, b, a) == Some(saved)
  }

  /** Every document of a chain can be read and has the resources of its configuration. */
  lemma {:induction false} ChainHolds(root: Root, docs: seq<Node>, configs: seq<Value>, i: nat)
    requires IsChain(root, docs, configs) && i < |docs|
    ensures docs[i].Mapping? && Holds(root.schema, Some(docs[i]), configs[i]) && Valid(root, configs[i])
  {
    if i == 0 {
      LoadsHolds(root.schema, Some(docs[0]), configs[0]);
    } else {
      ChainHolds(root, docs, configs, i - 1);
      assert SaveStep(root, docs[i - 1], configs[i - 1], docs[(i - 1) + 1], configs[(i - 1) + 1]);
      hide Save, Holds;
      SaveHolds(root, docs[i - 1], configs[i - 1], configs[i]);
    }
  }

  /** One save of a chain. */
  lemma ChainStep(root: Root, docs: seq<Node>, configs: seq<Value>, i: nat)
    requires IsChain(root, docs, configs) && i + 1 < |docs|
    ensures |docs| == |configs| && Valid(root, configs[i]) && Valid(root, configs[i + 1])
    ensures docs[i].Mapping? && Holds(root.schema, Some(docs[i]), configs[i])
    ensures Save(root.schema, docs[i], configs[i], configs[i + 1]) == Some(docs[i + 1])
  {
    ChainHolds(root, docs, configs, i);
    assert SaveStep(root, docs[i], configs[i], docs[i + 1], configs[i + 1]);
  }

  /** Anywhere along a chain, saving again without a change leaves the tree alone. */
  lemma ChainSavesAgain(root: Root, docs: seq<Node>, configs: seq<Value>, i: nat)
    requires IsChain(root, docs, configs) && i < |docs|
    ensures Save(root.schema, docs[i], configs[i], configs[i]) == Some(docs[i])
  {
    ChainHolds(root, docs, configs, i);
    UnchangedSave(root, docs[i], configs[i]);
  }

  /** The save from this document to the next configuration brings nothing back. */
  ghost predicate FaithfulStep(root: Root, doc: Node, b: Value, a: Value) {
    Faithful(root.schema, Some(Carry(doc, Encode(root.schema, a))), Some(b), a)
  }

  /** As long as every save so far was faithful, the document loads as its configuration; and only as long as that. */
  lemma {:induction false} ChainLoads(root: Root, docs: seq<Node>, configs: seq<Value>, i: nat)
    requires IsChain(root, docs, configs) && i < |docs|
    requires forall k | 0 <= k < i :: FaithfulStep(root, docs[k], configs[k], configs[k + 1])
    ensures Loads(root.schema, Some(docs[i]), configs[i])
    ensures i + 1 < |docs| ==>
              (Loads(root.schema, Some(docs[i + 1]), configs[i + 1])
               <==> FaithfulStep(root, docs[i], configs[i], configs[i + 1]))
  {
    if i > 0 {
      ChainLoads(root, docs, configs, i - 1);
    }
    if i + 1 < |docs| {
      ChainStep(root, docs, configs, i);
      hide Save, Loads, Holds, Faithful, Lost, IsChain;
      SaveRoundTrip(root, docs[i], configs[i], configs[i + 1]);
      SaveFailsIff(root, docs[i], configs[i], configs[i + 1]);
    }
  }

  /** Following keys down from the root. */
  function At(n: Option<Node>, path: seq<string>): Option<Node>
    decreases |path|
  {
    if path == [] then n else At(NodeField(n, path[0]), path[1..])
  }

  /** A path that leaves the schema: known sections, then a key the schema does not have. */
  ghost predicate OutsideSchema(s: Schema, path: seq<string>)
    decreases |path|
  {
    && path != [] && s.Struct?
    && (UnknownTo(s, path[0])
        || exists i ::
            0 <= i < |s.branches| && s.branches[i].key == path[0] && OutsideSchema(s.branches[i].schema, path[1..]))
  }

  lemma {:induction false} KeepsAt(s: Schema, o: Option<Node>, r: Option<Node>, a: Value, path: seq<string>)
    requires Keeps(s, o, r, a) && Fits(s, a) && OutsideSchema(s, path) && At(o, path).Some?
    ensures At(r, path) == At(o, path)
    decreases |path|
  {
    AtNothing(path[1..]);
    if !UnknownTo(s, path[0]) {
      var i :| 0 <= i < |s.branches| && s.branches[i].key == path[0] && OutsideSchema(s.branches[i].schema, path[1..]);
      assert a == VStruct(a.values);
      KeepsAt(s.branches[i].schema, NodeField(o, path[0]), NodeField(r, path[0]), a.values[i], path[1..]);
    }
  }

  lemma {:induction false} AtNothing(path: seq<string>)
    ensures At(None, path) == None
    decreases |path|
  {
    if path != [] {
      AtNothing(path[1..]);
    }
  }

  /** Between any two documents of a chain, whatever stands outside the schema keeps its value. */
  lemma {:induction false} ChainKeepsUnknown(
    root: Root, docs: seq<Node>, configs: seq<Value>, i: nat, j: nat, path: seq<string>)
    requires IsChain(root, docs, configs) && i <= j < |docs|
    requires OutsideSchema(root.schema, path) && At(Some(docs[i]), path).Some?
    ensures At(Some(docs[j]), path) == At(Some(docs[i]), path)
    decreases j
  {
    if i < j {
      ChainKeepsUnknown(root, docs, configs, i, j - 1, path);
      ChainStep(root, docs, configs, j - 1);
      hide IsChain, Holds;
      SaveKeepsUnknown(root, docs[j - 1], configs[j - 1], configs[j]);
      KeepsAt(root.schema, Some(docs[j - 1]), Some(docs[j]), configs[j], path);
    }
  }

  /** One save of a chain keeps the extension keys of a resource that is not removed. */
  lemma ChainStepKeeps(root: Root, docs: seq<Node>, configs: seq<Value>, i: nat, id: string, key: string)
    requires IsChain(root, docs, configs) && i + 1 < |docs| && UnknownTo(DirItem(root), key)
    requires FindById(Resources(docs[i]), id).Some? && HasResource(root, configs[i + 1], id)
    ensures FindById(Resources(docs[i + 1]), id).Some?
    ensures NodeField(FindById(Resources(docs[i + 1]), id), key) == NodeField(FindById(Resources(docs[i]), id), key)
  {
    ChainStep(root, docs, configs, i);
    hide *;
    SaveKeepsResource(root, docs[i], configs[i], configs[i + 1], docs[i + 1], id, key);
  }

  /** The resource is in every configuration from one point of the chain to another. */
  ghost predicate Stays(root: Root, configs: seq<Value>, i: nat, j: nat, id: string)
    requires ChainValid(root, configs) && j < |configs|
  {
    forall k | i <= k <= j :: HasResource(root, configs[k], id)
  }

  /**
   Between any two documents of a chain, a resource that the first one writes under its id, and that
   is never removed, keeps its extension keys, wherever it moves.
   */
  lemma {:induction false} ChainKeepsResource(
    root: Root, docs: seq<Node>, configs: seq<Value>, i: nat, j: nat, id: string, key: string)
    requires IsChain(root, docs, configs) && i <= j < |docs| && UnknownTo(DirItem(root), key)
    requires FindById(Resources(docs[i]), id).Some? && Stays(root, configs, i, j, id)
    ensures FindById(Resources(docs[j]), id).Some?
    ensures NodeField(FindById(Resources(docs[j]), id), key) == NodeField(FindById(Resources(docs[i]), id), key)
    decreases j
  {
    hide Loads, Fits, RootOk, Resources, SaveStep, HasResource, UnknownTo;
    if i < j {
      assert Stays(root, configs, i, j - 1, id);
      assert HasResource(root, configs[j], id);
      ChainKeepsResource(root, docs, configs, i, j - 1, id, key);
      ChainStepKeeps(root, docs, configs, j - 1, id, key);
    }
  }

  // ----- saving in place -----

  /** The source a loaded configuration carries: the document and the configuration it was last read or saved as. */
  class ConfigSource {
    var document: Node
    var baseline: Value

    constructor (document: Node, baseline: Value)
      ensures this.document == document && this.baseline == baseline
    {
      this.document, this.baseline := document, baseline;
    }

    /** Merges the change since the baseline into the document; both move on together, or neither does. */
    method SettingsForSave(s: Schema, next: Value) returns (r: Option<Node>)
      modifies this
      ensures r == Save(s, old(document), old(baseline), next)
      ensures if r.Some? then document == r.value && baseline == next
              else document == old(document) && baseline == old(baseline)
    {
      var after, before := Encode(s, next), Encode(s, baseline);
      var doc := CarryMoved(document, after);
      r := MergeConfigNode(Some(doc), Some(before), after);
      if r.Some? {
        document, baseline := r.value, next;
      }
    }
  }
}
