/**
 Resources that move between the two lists of the storage section: their originals are appended to
 the list they moved to before the change is merged, so that they take their extension keys along.
 The two lists read an item differently, and a carried original is read by the list it arrives in.
 */
module ConfigCarry {
  import opened Basics
  import opened ConfigTree
  import opened ConfigSchema
  import opened ConfigMerge
  import opened ConfigFaithful
  import opened ConfigKeeps
  import opened ConfigHolds

  /** The schema and where its storage section with the two resource lists is. */
  datatype Root = Root(schema: Schema, storage: nat, dirs: nat, shares: nat)

  ghost predicate RootOk(root: Root) {
    && SchemaOk(root.schema) && root.schema.Struct? && root.storage < |root.schema.branches|
    && var section := root.schema.branches[root.storage];
    && section.key == "storage" && section.schema.Struct? && !section.omitEmpty
    && root.dirs < |section.schema.branches| && root.shares < |section.schema.branches| && root.dirs != root.shares
    && var dirs, shares := section.schema.branches[root.dirs], section.schema.branches[root.shares];
    && dirs.key == "dirs" && shares.key == "shares" && !dirs.omitEmpty && !shares.omitEmpty
    && dirs.schema.Items? && shares.schema.Items? && SameShape(dirs.schema.item, shares.schema.item)
  }

  /**
   Items of both lists are written the same way: the same keys with the same kind of scalar, and
   the same id. What a list makes of the other scalars is its own affair.
   */
  ghost predicate SameShape(d: Schema, h: Schema) {
    && d.Struct? && h.Struct? && |d.branches| == |h.branches| > 0
    && d.branches[0].schema == h.branches[0].schema
    && forall i | 0 <= i < |d.branches| ::
         d.branches[i].key == h.branches[i].key && SameScalars(d.branches[i].schema, h.branches[i].schema)
  }

  ghost predicate SameScalars(d: Schema, h: Schema) {
    && d.Leaf? && h.Leaf?
    && (d.leaf.read(d.leaf.fallback).Some? <==> h.leaf.read(h.leaf.fallback).Some?)
    && forall l :: d.leaf.read(l).Some? <==> h.leaf.read(l).Some?
  }

  function StorageSchema(root: Root): (s: Schema)
    requires RootOk(root)
    ensures s.Struct? && SchemaOk(s) && DistinctKeys(s.branches)
    ensures root.dirs < |s.branches| && root.shares < |s.branches|
  {
    root.schema.branches[root.storage].schema
  }

  function DirItem(root: Root): (item: Schema)
    requires RootOk(root)
    ensures SchemaOk(Items(item)) && StorageSchema(root).branches[root.dirs].schema == Items(item)
  {
    assert SchemaOk(StorageSchema(root).branches[root.dirs].schema);
    StorageSchema(root).branches[root.dirs].schema.item
  }

  function ShareItem(root: Root): (item: Schema)
    requires RootOk(root)
    ensures SchemaOk(Items(item)) && StorageSchema(root).branches[root.shares].schema == Items(item)
    ensures SameShape(DirItem(root), item)
  {
    assert SchemaOk(StorageSchema(root).branches[root.shares].schema);
    StorageSchema(root).branches[root.shares].schema.item
  }

  /** Lists and sections are never adjusted by a neighbour. */
  lemma ListsStandAlone(root: Root)
    requires RootOk(root)
    ensures root.schema.branches[root.storage].dependsOn.None?
    ensures StorageSchema(root).branches[root.dirs].dependsOn.None?
    ensures StorageSchema(root).branches[root.shares].dependsOn.None?
  {
    assert DependsOk(root.schema.branches, root.storage);
    assert DependsOk(StorageSchema(root).branches, root.dirs) && DependsOk(StorageSchema(root).branches, root.shares);
  }

  // ----- moved resources -----

  /** byID: a later item with the same id replaces an earlier one. */
  function FindLast(items: seq<Node>, id: string): Option<Node> {
    if items == [] then None
    else if FindLast(items[1..], id).Some? then FindLast(items[1..], id)
    else if IdOf(items[0]) == Some(id) then Some(items[0])
    else None
  }

  /** The originals to append for wanted items that the list does not have. */
  function Missing(present: seq<Node>, wanted: seq<Node>, source: seq<Node>): seq<Node>
    decreases |wanted|
  {
    if wanted == [] then [] else
    var id := IdOf(wanted[0]);
    if id.None? || FindLast(source, id.value).None? || FindById(present, id.value).Some?
    then Missing(present, wanted[1..], source)
    else
      var moved := FindLast(source, id.value).value;
      [moved] + Missing(present + [moved], wanted[1..], source)
  }

  function CarryList(storage: seq<Field>, key: string, wanted: seq<Node>, source: seq<Node>): seq<Field> {
    var list := ItemsOf(Lookup(storage, key));
    var moved := Missing(list, wanted, source);
    if moved == [] then storage else SetField(storage, key, Sequence(list + moved))
  }

  function CarryStorage(storage: seq<Field>, after: Option<Node>): seq<Field> {
    var source := ItemsOf(Lookup(storage, "dirs")) + ItemsOf(Lookup(storage, "shares"));
    CarryList(CarryList(storage, "dirs", ItemsOf(NodeField(after, "dirs")), source),
              "shares", ItemsOf(NodeField(after, "shares")), source)
  }

  /** The document with the originals of moved resources appended to the list they moved to. */
  function Carry(doc: Node, after: Node): Node {
    var storage := NodeField(Some(doc), "storage");
    if storage.None? || !storage.value.Mapping? then doc
    else Mapping(SetField(doc.fields, "storage",
                          Mapping(CarryStorage(storage.value.fields, NodeField(Some(after), "storage")))))
  }

  function Save(s: Schema, doc: Node, baseline: Value, next: Value): Option<Node> {
    Merge(Some(Carry(doc, Encode(s, next))), Some(Encode(s, baseline)), Encode(s, next))
  }

  // ----- configurations -----

  function StorageOf(root: Root, v: Value): (storage: Value)
    requires RootOk(root) && Fits(root.schema, v)
    ensures Fits(StorageSchema(root), storage)
  {
    v.values[root.storage]
  }

  function DirsOf(root: Root, v: Value): (list: Value)
    requires RootOk(root) && Fits(root.schema, v)
    ensures Fits(Items(DirItem(root)), list)
  {
    StorageOf(root, v).values[root.dirs]
  }

  function SharesOf(root: Root, v: Value): (list: Value)
    requires RootOk(root) && Fits(root.schema, v)
    ensures Fits(Items(ShareItem(root)), list)
  {
    StorageOf(root, v).values[root.shares]
  }

  /** No resource of one list has the id of one of the other. */
  ghost predicate Apart(dirs: Value, shares: Value) {
    dirs.VItems? && shares.VItems? && forall x, y | x in dirs.items && y in shares.items :: ItemId(x) != ItemId(y)
  }

  /** A normalized, valid configuration: ids are unique over both lists. */
  ghost predicate Valid(root: Root, v: Value) {
    RootOk(root) && Fits(root.schema, v) && Settled(root.schema, v) && Apart(DirsOf(root, v), SharesOf(root, v))
  }

  // ----- what carrying does to a list -----

  lemma {:induction false} FindLastIsMember(items: seq<Node>, id: string)
    ensures FindLast(items, id).Some?
            ==> FindLast(items, id).value in items && IdOf(FindLast(items, id).value) == Some(id)
    ensures FindLast(items, id).None? ==> forall x | x in items :: IdOf(x) != Some(id)
  {
    if items != [] {
      FindLastIsMember(items[1..], id);
      assert items == [items[0]] + items[1..];
    }
  }

  /** Nothing is carried into a list that has every wanted item the document has at all. */
  lemma {:induction false} NothingMissing(present: seq<Node>, wanted: seq<Node>, source: seq<Node>)
    requires forall k | 0 <= k < |wanted| ::
               IdOf(wanted[k]).None? || FindById(present, IdOf(wanted[k]).value).Some?
                   || FindLast(source, IdOf(wanted[k]).value).None?
    ensures Missing(present, wanted, source) == []
  {
    if wanted != [] {
      assert forall k | 0 <= k < |wanted[1..]| :: wanted[1..][k] == wanted[k + 1];
      NothingMissing(present, wanted[1..], source);
    }
  }

  lemma UniqueAppend(items: seq<Node>, x: Node)
    requires UniqueIds(items) && IdOf(x).Some? && FindById(items, IdOf(x).value).None?
    ensures UniqueIds(items + [x])
  {
    FoundById(items, IdOf(x).value);
  }

  /** What is carried comes from the document, is wanted, and was not in the list. */
  lemma {:induction false} MissingItems(present: seq<Node>, wanted: seq<Node>, source: seq<Node>)
    requires UniqueIds(present)
    ensures UniqueIds(present + Missing(present, wanted, source))
    ensures forall x | x in Missing(present, wanted, source) ::
              x in source && IdOf(x).Some? && FindById(present, IdOf(x).value).None?
    decreases |wanted|
  {
    if wanted != [] {
      var id := IdOf(wanted[0]);
      if id.None? || FindLast(source, id.value).None? || FindById(present, id.value).Some? {
        MissingItems(present, wanted[1..], source);
      } else {
        var moved := FindLast(source, id.value).value;
        FindLastIsMember(source, id.value);
        UniqueAppend(present, moved);
        MissingItems(present + [moved], wanted[1..], source);
        var rest := Missing(present + [moved], wanted[1..], source);
        assert present + Missing(present, wanted, source) == present + [moved] + rest;
        forall x | x in rest
          ensures FindById(present, IdOf(x).value).None?
        {
          FindAppend(present, [moved], IdOf(x).value);
        }
      }
    } else {
      assert present + [] == present;
    }
  }

  /** Every wanted item the document has somewhere is in the list afterwards. */
  lemma {:induction false} MissingArrive(present: seq<Node>, wanted: seq<Node>, source: seq<Node>, k: nat)
    requires k < |wanted| && IdOf(wanted[k]).Some? && FindLast(source, IdOf(wanted[k]).value).Some?
    ensures FindById(present + Missing(present, wanted, source), IdOf(wanted[k]).value).Some?
    decreases |wanted|
  {
    var id := IdOf(wanted[k]).value;
    FindAppend(present, Missing(present, wanted, source), id);
    var first := IdOf(wanted[0]);
    var skip := first.None? || FindLast(source, first.value).None? || FindById(present, first.value).Some?;
    if FindById(present, id).None? {
      if k == 0 {
        FindLastIsMember(source, id);
      } else if skip {
        MissingArrive(present, wanted[1..], source, k - 1);
        FindAppend(present, Missing(present, wanted[1..], source), id);
      } else {
        var moved := FindLast(source, first.value).value;
        var rest := Missing(present + [moved], wanted[1..], source);
        MissingArrive(present + [moved], wanted[1..], source, k - 1);
        assert present + Missing(present, wanted, source) == present + [moved] + rest;
      }
    }
  }

  lemma CarriedLists(storage: seq<Field>, after: Option<Node>, key: string)
    ensures var source := ItemsOf(Lookup(storage, "dirs")) + ItemsOf(Lookup(storage, "shares"));
            var list := ItemsOf(Lookup(storage, key));
            var moved := Missing(list, ItemsOf(NodeField(after, key)), source);
            Lookup(CarryStorage(storage, after), key) ==
            if (key == "dirs" || key == "shares") && moved != [] then Some(Sequence(list + moved))
                else Lookup(storage, key)
  {
    var source := ItemsOf(Lookup(storage, "dirs")) + ItemsOf(Lookup(storage, "shares"));
    var first := CarryList(storage, "dirs", ItemsOf(NodeField(after, "dirs")), source);
    var d, h := ItemsOf(Lookup(storage, "dirs")), ItemsOf(Lookup(storage, "shares"));
    LookupSet(storage, "dirs", Sequence(d + Missing(d, ItemsOf(NodeField(after, "dirs")), source)), key);
    LookupSet(storage, "dirs", Sequence(d + Missing(d, ItemsOf(NodeField(after, "dirs")), source)), "shares");
    LookupSet(first, "shares", Sequence(h + Missing(h, ItemsOf(NodeField(after, "shares")), source)), key);
  }

  lemma CarriedStorageIsUnique(storage: seq<Field>, after: Option<Node>)
    requires NoDuplicate(storage)
    ensures NoDuplicate(CarryStorage(storage, after))
  {
    var source := ItemsOf(Lookup(storage, "dirs")) + ItemsOf(Lookup(storage, "shares"));
    var first := CarryList(storage, "dirs", ItemsOf(NodeField(after, "dirs")), source);
    var d, h := ItemsOf(Lookup(storage, "dirs")), ItemsOf(Lookup(first, "shares"));
    SetKeepsUnique(storage, "dirs", Sequence(d + Missing(d, ItemsOf(NodeField(after, "dirs")), source)));
    SetKeepsUnique(first, "shares", Sequence(h + Missing(h, ItemsOf(NodeField(after, "shares")), source)));
  }

  // ----- the carried document is still known -----

  /** A document that loads as the baseline is known, whatever the next configuration. */
  lemma {:induction false} LoadedIsKnown(s: Schema, o: Option<Node>, b: Value, a: Value)
    requires SchemaOk(s) && Fits(s, a) && Fits(s, b) && Loads(s, o, b)
    ensures Known(s, o, Some(b), a)
    decreases s, 1
  {
    match s
    case Leaf(_) =>
    case Names(_) =>
    case Items(item) =>
      if b != a {
        forall k | 0 <= k < |a.items|
          ensures ItemKnown(item, o, Some(b), a.items[k])
        {
          LoadedItemIsKnown(item, o, b, a.items[k]);
        }
      }
    case Struct(branches) =>
      forall i | 0 <= i < |branches|
        ensures FieldKnown(s, o, Some(b), a, i)
      {
        if branches[i].dependsOn.None? {
          FieldLoads(s, o, b, i);
          LoadedIsKnown(branches[i].schema, NodeField(o, branches[i].key), b.values[i], a.values[i]);
        } else {
          DependentLoads(s, o, b, i);
        }
      }
  }

  lemma DependentLoads(s: Schema, o: Option<Node>, b: Value, i: nat)
    requires SchemaOk(s) && s.Struct? && Loads(s, o, b) && i < |s.branches| && s.branches[i].dependsOn.Some?
    ensures DependentKnown(s, o, b, i)
  {
    assert DependsOk(s.branches, i);
    DecodedStruct(s, o);
    var d := Decode(s, o).value;
    DecodesAs(s, o, d.values);
    var g := s.branches[i].dependsOn.value;
    PartDecodes(s, o, i);
    PartDecodes(s, o, g);
    ReadIsNormal(s.branches[i].schema, NodeField(o, s.branches[i].key));
    ReadIsNormal(s.branches[g].schema, NodeField(o, s.branches[g].key));
    assert Settle(s, d).values[i] == Adjusted(s.branches[i], d.values, d.values[i]);
    assert Settle(s, d).values[g] == d.values[g];
  }

  /** An item of the document and the item it was loaded as are found by the same id. */
  lemma {:induction false} LoadedItemIsKnown(item: Schema, o: Option<Node>, b: Value, now: Value)
    requires SchemaOk(Items(item)) && Fits(item, now) && Fits(Items(item), b) && Loads(Items(item), o, b)
    ensures ItemKnown(item, o, Some(b), now)
    decreases item, 2
  {
    var id := ItemId(now);
    var orig := FindById(ItemsOf(o), id);
    FoundById(ItemsOf(o), id);
    LoadedItems(item, o, b);
    if orig.Some? {
      var j :| 0 <= j < |ItemsOf(o)| && ItemsOf(o)[j] == orig.value;
      NormalIdIsRead(item, orig.value, now);
      FindValueAt(b.items, j);
      LoadedIsKnown(item, orig, b.items[j], now);
    }
  }

  lemma {:induction false} FindValueAt(items: seq<Value>, j: nat)
    requires j < |items| && forall i, k | 0 <= i < k < |items| :: ItemId(items[i]) != ItemId(items[k])
    ensures FindValue(items, ItemId(items[j])) == Some(items[j])
  {
    if j > 0 {
      FindValueAt(items[1..], j - 1);
    }
  }

  /** An original that has just arrived has no baseline, and all of it may be written. */
  lemma MovedIsKnown(item: Schema, orig: Option<Node>, now: Value)
    requires SchemaOk(Items(item)) && Fits(item, now)
    ensures Known(item, orig, None, now)
  {
    forall i | 0 <= i < |item.branches|
      ensures FieldKnown(item, orig, None, now, i)
    {
      assert item.branches[i].schema.Leaf?;
    }
  }

  /** Whatever the document has elsewhere decodes here too, and has an id that no item of this list had. */
  ghost predicate SourceApart(item: Schema, items: seq<Node>, source: seq<Node>, b: Value) {
    && b.VItems?
    && (forall x | x in source :: Decode(item, Some(x)).Some?)
    && (forall x | x in source && x !in items :: FindValue(b.items, ItemId(Decode(item, Some(x)).value)).None?)
  }

  /** What is carried is not written under any id the list had. */
  lemma CarriedIsNew(item: Schema, items: seq<Node>, source: seq<Node>, b: Value, x: Node, now: Value)
    requires SchemaOk(Items(item)) && Fits(item, now) && SourceApart(item, items, source, b)
    requires x in source && IdOf(x) == Some(ItemId(now)) && FindById(items, ItemId(now)).None?
    ensures FindValue(b.items, ItemId(now)).None?
  {
    FoundById(items, ItemId(now));
    NormalIdIsRead(item, x, now);
  }

  /** Nothing is carried into a list that stays as it is. */
  lemma UnchangedListStays(item: Schema, list: Option<Node>, source: seq<Node>, b: Value)
    requires SchemaOk(Items(item)) && Fits(Items(item), b) && SourceApart(item, ItemsOf(list), source, b)
    ensures Missing(ItemsOf(list), EncodeItems(item, b.items), source) == []
  {
    var items, wanted := ItemsOf(list), EncodeItems(item, b.items);
    forall k | 0 <= k < |wanted|
      ensures IdOf(wanted[k]).Some?
      ensures FindById(items, IdOf(wanted[k]).value).Some? || FindLast(source, IdOf(wanted[k]).value).None?
    {
      EncodedItem(item, b.items, k);
      EncodedId(item, b.items[k]);
      var id := ItemId(b.items[k]);
      FindLastIsMember(source, id);
      if FindById(items, id).None? && FindLast(source, id).Some? {
        CarriedIsNew(item, items, source, b, FindLast(source, id).value, b.items[k]);
        FindValueAt(b.items, k);
      }
    }
    NothingMissing(items, wanted, source);
  }

  ghost function CarriedNode(list: Option<Node>, moved: seq<Node>): Option<Node> {
    if moved == [] then list else Some(Sequence(ItemsOf(list) + moved))
  }

  /** The document loads as the configuration, or (not `exact`) at least holds it. */
  ghost predicate Stands(s: Schema, n: Option<Node>, v: Value, exact: bool) {
    if exact then Loads(s, n, v) else Holds(s, n, v)
  }

  lemma StandsHolds(s: Schema, n: Option<Node>, v: Value, exact: bool)
    requires SchemaOk(s) && Stands(s, n, v, exact)
    ensures Holds(s, n, v)
  {
    if exact {
      LoadsHolds(s, n, v);
    }
  }

  lemma FieldStands(s: Schema, n: Option<Node>, v: Value, i: nat, exact: bool)
    requires SchemaOk(s) && s.Struct? && Stands(s, n, v, exact) && i < |s.branches| && s.branches[i].dependsOn.None?
    ensures v.VStruct? && |v.values| == |s.branches|
    ensures Stands(s.branches[i].schema, NodeField(n, s.branches[i].key), v.values[i], exact)
  {
    if exact {
      FieldLoads(s, n, v, i);
    } else {
      HeldField(s, n, v, i);
    }
  }

  /** What the merge needs of a document: all of it if the result is to load, the first part to keep what it holds. */
  ghost predicate Ready(s: Schema, o: Option<Node>, b: Value, a: Value, exact: bool) {
    Decode(s, o).Some? && IdsUnique(s, o) && KeptLists(s, o, b, a) && (exact ==> Known(s, o, Some(b), a))
  }

  /** A list after carrying, against the list of the baseline and the wanted one. */
  lemma CarriedListStands(item: Schema, list: Option<Node>, source: seq<Node>, b: Value, a: Value, exact: bool)
    requires SchemaOk(Items(item)) && Fits(Items(item), b) && Fits(Items(item), a)
    requires Stands(Items(item), list, b, exact) && SourceApart(item, ItemsOf(list), source, b)
    ensures Ready(Items(item), CarriedNode(list, Missing(ItemsOf(list), EncodeItems(item, a.items), source)), b, a,
            exact)
  {
    var moved := Missing(ItemsOf(list), EncodeItems(item, a.items), source);
    StandsHolds(Items(item), list, b, exact);
    HeldIdsUnique(Items(item), list, b);
    MissingItems(ItemsOf(list), EncodeItems(item, a.items), source);
    if moved != [] {
      CarriedDecodes(item, list, moved);
    }
    if b == a {
      UnchangedListStays(item, list, source, b);
    }
    if exact {
      CarriedListIsKnown(item, list, source, b, a);
    }
  }

  lemma CarriedListIsKnown(item: Schema, list: Option<Node>, source: seq<Node>, b: Value, a: Value)
    requires SchemaOk(Items(item)) && Fits(Items(item), b) && Fits(Items(item), a) && Loads(Items(item), list, b)
    requires SourceApart(item, ItemsOf(list), source, b)
    ensures Known(Items(item), CarriedNode(list, Missing(ItemsOf(list), EncodeItems(item, a.items), source)), Some(b),
            a)
  {
    var moved := Missing(ItemsOf(list), EncodeItems(item, a.items), source);
    LoadedIsKnown(Items(item), list, b, a);
    LoadsHolds(Items(item), list, b);
    HeldIdsUnique(Items(item), list, b);
    MissingItems(ItemsOf(list), EncodeItems(item, a.items), source);
    if b == a {
      UnchangedListStays(item, list, source, b);
    } else if moved != [] {
      forall k | 0 <= k < |a.items|
        ensures ItemKnown(item, CarriedNode(list, moved), Some(b), a.items[k])
      {
        CarriedItemIsKnown(item, list, moved, source, b, a.items[k]);
      }
    }
  }

  lemma CarriedDecodes(item: Schema, list: Option<Node>, moved: seq<Node>)
    requires Decode(Items(item), list).Some? && moved != [] && forall x | x in moved :: Decode(item, Some(x)).Some?
    ensures Decode(Items(item), CarriedNode(list, moved)).Some?
  {
    DecodedItems(item, ItemsOf(list));
    DecodedItems(item, ItemsOf(list) + moved);
  }

  lemma CarriedItemIsKnown(item: Schema, list: Option<Node>, moved: seq<Node>, source: seq<Node>, b: Value, now: Value)
    requires SchemaOk(Items(item)) && Fits(item, now) && Fits(Items(item), b) && Loads(Items(item), list, b)
    requires SourceApart(item, ItemsOf(list), source, b) && moved != [] && forall x | x in moved :: x in source
    ensures ItemKnown(item, CarriedNode(list, moved), Some(b), now)
  {
    var id := ItemId(now);
    FindAppend(ItemsOf(list), moved, id);
    FoundById(moved, id);
    if FindById(ItemsOf(list), id).Some? {
      LoadedItemIsKnown(item, list, b, now);
    } else if FindById(moved, id).Some? {
      CarriedIsNew(item, ItemsOf(list), source, b, FindById(moved, id).value, now);
      MovedIsKnown(item, FindById(moved, id), now);
    }
  }

  // ----- one list's items in the other -----

  lemma ScalarRead(d: Schema, h: Schema, n: Option<Node>)
    requires SameScalars(d, h) || SameScalars(h, d)
    ensures Decode(d, n).Some? <==> Decode(h, n).Some?
  {
  }

  lemma ReadsBoth(d: Schema, h: Schema, n: Option<Node>)
    requires (SameShape(d, h) || SameShape(h, d)) && Decode(d, n).Some?
    ensures Decode(h, n).Some?
  {
    DecodedFrom(h, n, 0);
    forall i | 0 <= i < |d.branches|
      ensures Decode(h.branches[i].schema, NodeField(n, h.branches[i].key)).Some?
    {
      PartDecodes(d, n, i);
      ScalarRead(d.branches[i].schema, h.branches[i].schema, NodeField(n, d.branches[i].key));
    }
  }

  /** An item that one list can read, the other can read too, and with the same id. */
  lemma ReadByBoth(d: Schema, h: Schema, x: Node)
    requires SchemaOk(Items(d)) && SchemaOk(Items(h)) && (SameShape(d, h) || SameShape(h, d))
    requires Decode(d, Some(x)).Some?
    ensures Decode(h, Some(x)).Some? && ItemId(Decode(h, Some(x)).value) == ItemId(Decode(d, Some(x)).value)
  {
    ReadsBoth(d, h, Some(x));
    hide Decode;
    ReadId(d, x);
    ReadId(h, x);
  }

  /** The items of one list are apart from those of the other. */
  lemma ListsAreApart(d: Schema, h: Schema, dirs: Option<Node>, shares: Option<Node>, b: Value, c: Value)
    requires SchemaOk(Items(d)) && SchemaOk(Items(h)) && (SameShape(d, h) || SameShape(h, d))
    requires Holds(Items(d), dirs, b) && Holds(Items(h), shares, c) && (Apart(b, c) || Apart(c, b))
    ensures forall x | x in ItemsOf(shares) ::
              Decode(d, Some(x)).Some? && FindValue(b.items, ItemId(Decode(d, Some(x)).value)).None?
    ensures forall x | x in ItemsOf(dirs) :: Decode(d, Some(x)).Some?
  {
    HeldItems(d, dirs, b);
    HeldItems(h, shares, c);
    forall x | x in ItemsOf(shares)
      ensures Decode(d, Some(x)).Some? && FindValue(b.items, ItemId(Decode(d, Some(x)).value)).None?
    {
      var j :| 0 <= j < |ItemsOf(shares)| && ItemsOf(shares)[j] == x;
      ReadByBoth(h, d, x);
      FoundValue(b.items, ItemId(c.items[j]));
    }
  }

  /** The two lists of a storage section. */
  lemma SectionLists(root: Root, storage: Option<Node>, b: Value, exact: bool)
    requires RootOk(root) && Stands(StorageSchema(root), storage, b, exact) && Fits(StorageSchema(root), b)
    ensures Stands(Items(DirItem(root)), NodeField(storage, "dirs"), b.values[root.dirs], exact)
    ensures Stands(Items(ShareItem(root)), NodeField(storage, "shares"), b.values[root.shares], exact)
  {
    ListsStandAlone(root);
    FieldStands(StorageSchema(root), storage, b, root.dirs, exact);
    FieldStands(StorageSchema(root), storage, b, root.shares, exact);
  }

  lemma SourcesApart(root: Root, storage: Option<Node>, b: Value)
    requires RootOk(root) && Holds(StorageSchema(root), storage, b) && Fits(StorageSchema(root), b)
    requires Apart(b.values[root.dirs], b.values[root.shares])
    ensures var dirs, shares := ItemsOf(NodeField(storage, "dirs")), ItemsOf(NodeField(storage, "shares"));
            && SourceApart(DirItem(root), dirs, dirs + shares, b.values[root.dirs])
            && SourceApart(ShareItem(root), shares, dirs + shares, b.values[root.shares])
  {
    var d, h := DirItem(root), ShareItem(root);
    var dirs, shares := NodeField(storage, "dirs"), NodeField(storage, "shares");
    SectionLists(root, storage, b, false);
    ListsAreApart(d, h, dirs, shares, b.values[root.dirs], b.values[root.shares]);
    ListsAreApart(h, d, shares, dirs, b.values[root.shares], b.values[root.dirs]);
  }

  /** What the storage section wants: the encoded lists. */
  lemma WantedLists(root: Root, a: Value)
    requires RootOk(root) && Fits(StorageSchema(root), a)
    ensures var after := Some(Encode(StorageSchema(root), a));
            && a.values[root.dirs].VItems? && a.values[root.shares].VItems?
            && ItemsOf(NodeField(after, "dirs")) == EncodeItems(DirItem(root), a.values[root.dirs].items)
            && ItemsOf(NodeField(after, "shares")) == EncodeItems(ShareItem(root), a.values[root.shares].items)
  {
    assert a == VStruct(a.values);
    EncodedBranch(StorageSchema(root), a.values, root.dirs);
    EncodedBranch(StorageSchema(root), a.values, root.shares);
    assert Fits(StorageSchema(root).branches[root.dirs].schema, a.values[root.dirs]);
    assert Fits(StorageSchema(root).branches[root.shares].schema, a.values[root.shares]);
  }

  // ----- the carried document -----

  /** What the merge needs of one field of the carried document. */
  ghost predicate PartReady(s: Schema, o: Option<Node>, b: Value, a: Value, i: nat, exact: bool)
    requires s.Struct? && a.VStruct? && b.VStruct? && i < |a.values| == |b.values| == |s.branches|
  {
    var part := NodeField(o, s.branches[i].key);
    && Decode(s.branches[i].schema, part).Some? && IdsUnique(s.branches[i].schema, part)
    && KeptLists(s.branches[i].schema, part, b.values[i], a.values[i])
    && (exact ==> FieldKnown(s, o, Some(b), a, i))
  }

  lemma StandsReady(s: Schema, o: Option<Node>, b: Value, a: Value, exact: bool)
    requires SchemaOk(s) && Fits(s, a) && Fits(s, b) && Stands(s, o, b, exact)
    ensures Ready(s, o, b, a, exact)
  {
    StandsHolds(s, o, b, exact);
    HeldIdsUnique(s, o, b);
    HeldIsKept(s, o, b, a);
    if exact {
      LoadedIsKnown(s, o, b, a);
    }
  }

  lemma ReadyPart(s: Schema, o: Option<Node>, b: Value, a: Value, i: nat, exact: bool)
    requires s.Struct? && a.VStruct? && b.VStruct? && i < |a.values| == |b.values| == |s.branches|
    requires Ready(s, o, b, a, exact)
    ensures PartReady(s, o, b, a, i, exact)
  {
    PartDecodes(s, o, i);
  }

  lemma PartsDecode(s: Schema, o: Option<Node>)
    requires s.Struct? && MappingOrMissing(o)
    requires forall i | 0 <= i < |s.branches| :: Decode(s.branches[i].schema, NodeField(o, s.branches[i].key)).Some?
    ensures Decode(s, o).Some?
  {
    DecodedFrom(s, o, 0);
  }

  lemma PartsAreReady(s: Schema, o: Option<Node>, b: Value, a: Value, exact: bool)
    requires s.Struct? && a.VStruct? && b.VStruct? && |a.values| == |b.values| == |s.branches| && MappingOrMissing(o)
    requires forall i | 0 <= i < |s.branches| :: PartReady(s, o, b, a, i, exact)
    ensures Ready(s, o, b, a, exact)
  {
    hide Decode, FieldKnown, MappingOrMissing;
    forall i | 0 <= i < |s.branches|
      ensures Decode(s.branches[i].schema, NodeField(o, s.branches[i].key)).Some?
      ensures IdsUnique(s.branches[i].schema, NodeField(o, s.branches[i].key))
      ensures KeptLists(s.branches[i].schema, NodeField(o, s.branches[i].key), b.values[i], a.values[i])
      ensures exact ==> FieldKnown(s, o, Some(b), a, i)
    {
      assert PartReady(s, o, b, a, i, exact);
    }
    PartsDecode(s, o);
    assert IdsUnique(s, o);
    assert KeptLists(s, o, b, a);
    assert exact ==> Known(s, o, Some(b), a);
  }

  /** Fields that carrying leaves alone are as ready as before. */
  lemma SamePartReady(s: Schema, o: Option<Node>, n: Option<Node>, b: Value, a: Value, i: nat, exact: bool)
    requires s.Struct? && a.VStruct? && b.VStruct? && i < |a.values| == |b.values| == |s.branches|
    requires PartReady(s, o, b, a, i, exact)
    requires NodeField(n, s.branches[i].key) == NodeField(o, s.branches[i].key)
    requires s.branches[i].dependsOn.Some? ==>
               var g := s.branches[i].dependsOn.value;
               g < |s.branches| ==> NodeField(n, s.branches[g].key) == NodeField(o, s.branches[g].key)
    ensures PartReady(s, n, b, a, i, exact)
  {
  }

  /** The storage section after carrying, towards `a`. */
  ghost function CarriedSection(root: Root, storage: Node, a: Value): Option<Node>
    requires RootOk(root) && storage.Mapping?
  {
    Some(Mapping(CarryStorage(storage.fields, Some(Encode(StorageSchema(root), a)))))
  }

  ghost predicate SectionStands(root: Root, storage: Node, b: Value, a: Value, exact: bool) {
    && RootOk(root) && storage.Mapping? && Stands(StorageSchema(root), Some(storage), b, exact)
    && Fits(StorageSchema(root), b) && Fits(StorageSchema(root), a) && Apart(b.values[root.dirs], b.values[root.shares])
  }

  lemma CarriedStorageIsReady(root: Root, storage: Node, b: Value, a: Value, exact: bool)
    requires SectionStands(root, storage, b, a, exact)
    ensures Ready(StorageSchema(root), CarriedSection(root, storage, a), b, a, exact)
  {
    var s := StorageSchema(root);
    StandsHolds(s, Some(storage), b, exact);
    CarriedStorageIsUnique(storage.fields, Some(Encode(s, a)));
    hide Encode, CarryStorage, Known, IdsUnique, KeptLists;
    forall i | 0 <= i < |s.branches|
      ensures PartReady(s, CarriedSection(root, storage, a), b, a, i, exact)
    {
      CarriedPartIsReady(root, storage, b, a, i, exact);
    }
    PartsAreReady(s, CarriedSection(root, storage, a), b, a, exact);
  }

  lemma CarriedPartIsReady(root: Root, storage: Node, b: Value, a: Value, i: nat, exact: bool)
    requires SectionStands(root, storage, b, a, exact) && i < |StorageSchema(root).branches|
    ensures PartReady(StorageSchema(root), CarriedSection(root, storage, a), b, a, i, exact)
  {
    var s := StorageSchema(root);
    ListKeys(root, i);
    assert DependsOk(s.branches, i);
    hide Encode, Decode, CarryStorage, Missing, Known, IdsUnique, Stands, PartReady, Ready, RootOk, SchemaOk, KeptLists;
    if i == root.dirs || i == root.shares {
      CarriedListIsReady(root, storage, b, a, i, exact);
      ListPartIsReady(s, storage, Some(Encode(s, a)), b, a, i, exact);
    } else {
      StandsReady(s, Some(storage), b, a, exact);
      ReadyPart(s, Some(storage), b, a, i, exact);
      OtherPartIsReady(s, storage, Some(Encode(s, a)), b, a, i, exact);
    }
  }

  /** Only the two lists have their names. */
  lemma ListKeys(root: Root, i: nat)
    requires RootOk(root) && i < |StorageSchema(root).branches|
    ensures var branches := StorageSchema(root).branches;
            && (branches[i].key == "dirs" <==> i == root.dirs) && (branches[i].key == "shares" <==> i == root.shares)
            && (forall g | 0 <= g < |branches| && (branches[g].key == "dirs" || branches[g].key == "shares") ::
                  branches[g].schema.Items?)
            && branches[root.dirs].dependsOn.None? && branches[root.shares].dependsOn.None?
  {
    ListsStandAlone(root);
  }

  /** One of the two lists after carrying. */
  ghost function CarriedList(storage: Node, key: string, after: Option<Node>): Option<Node>
    requires storage.Mapping?
  {
    var list := Lookup(storage.fields, key);
    var source := ItemsOf(Lookup(storage.fields, "dirs")) + ItemsOf(Lookup(storage.fields, "shares"));
    CarriedNode(list, Missing(ItemsOf(list), ItemsOf(NodeField(after, key)), source))
  }

  lemma ListPartIsReady(s: Schema, storage: Node, after: Option<Node>, b: Value, a: Value, i: nat, exact: bool)
    requires s.Struct? && storage.Mapping? && a.VStruct? && b.VStruct? && i < |a.values| == |b.values| == |s.branches|
    requires (s.branches[i].key == "dirs" || s.branches[i].key == "shares") && s.branches[i].dependsOn.None?
    requires Ready(s.branches[i].schema, CarriedList(storage, s.branches[i].key, after), b.values[i], a.values[i],
             exact)
    ensures PartReady(s, Some(Mapping(CarryStorage(storage.fields, after))), b, a, i, exact)
  {
    CarriedLists(storage.fields, after, s.branches[i].key);
    hide Decode, CarryStorage, Missing, Known, IdsUnique, KeptLists;
  }

  lemma OtherPartIsReady(s: Schema, storage: Node, after: Option<Node>, b: Value, a: Value, i: nat, exact: bool)
    requires s.Struct? && storage.Mapping? && a.VStruct? && b.VStruct? && i < |a.values| == |b.values| == |s.branches|
    requires PartReady(s, Some(storage), b, a, i, exact)
    requires DependsOk(s.branches, i) && s.branches[i].key != "dirs" && s.branches[i].key != "shares"
    requires forall g | 0 <= g < |s.branches| && (s.branches[g].key == "dirs" || s.branches[g].key == "shares") ::
               s.branches[g].schema.Items?
    ensures PartReady(s, Some(Mapping(CarryStorage(storage.fields, after))), b, a, i, exact)
  {
    CarriedLists(storage.fields, after, s.branches[i].key);
    var on := s.branches[i].dependsOn;
    if on.Some? {
      CarriedLists(storage.fields, after, s.branches[on.value].key);
    }
    hide CarryStorage, Missing, PartReady;
    SamePartReady(s, Some(storage), Some(Mapping(CarryStorage(storage.fields, after))), b, a, i, exact);
  }

  lemma CarriedListIsReady(root: Root, storage: Node, b: Value, a: Value, i: nat, exact: bool)
    requires SectionStands(root, storage, b, a, exact) && (i == root.dirs || i == root.shares)
    ensures var s := StorageSchema(root);
            Ready(s.branches[i].schema, CarriedList(storage, s.branches[i].key, Some(Encode(s, a))), b.values[i],
                a.values[i], exact)
  {
    var s := StorageSchema(root);
    var source := ItemsOf(Lookup(storage.fields, "dirs")) + ItemsOf(Lookup(storage.fields, "shares"));
    StandsHolds(s, Some(storage), b, exact);
    SectionLists(root, Some(storage), b, exact);
    SourcesApart(root, Some(storage), b);
    WantedLists(root, a);
    assert Fits(s.branches[i].schema, b.values[i]) && Fits(s.branches[i].schema, a.values[i]);
    hide Encode, Decode, Stands, CarryStorage, Missing, Ready, Fits;
    CarriedListStands(if i == root.dirs then DirItem(root) else ShareItem(root),
                      Lookup(storage.fields, s.branches[i].key), source, b.values[i], a.values[i], exact);
  }

  /**
   After carrying, every original is read by the list it arrived in, ids stay unique, and lists that
   have not changed stay; and if the document loads as the baseline, what is to be kept still does.
   */
  lemma CarriedIsReady(root: Root, doc: Node, b: Value, a: Value, exact: bool)
    requires Valid(root, b) && Valid(root, a) && doc.Mapping? && Stands(root.schema, Some(doc), b, exact)
    ensures Ready(root.schema, Some(Carry(doc, Encode(root.schema, a))), b, a, exact)
  {
    var s := root.schema;
    var storage := NodeField(Some(doc), "storage");
    StandsReady(s, Some(doc), b, a, exact);
    if storage.Some? && storage.value.Mapping? {
      var carried := Carry(doc, Encode(s, a));
      assert NoDuplicate(doc.fields);
      SetKeepsUnique(doc.fields, "storage",
                     Mapping(CarryStorage(storage.value.fields, NodeField(Some(Encode(s, a)), "storage"))));
      hide Encode, Decode, CarryStorage, Known, IdsUnique, KeptLists, Stands, PartReady;
      forall i | 0 <= i < |s.branches|
        ensures PartReady(s, Some(carried), b, a, i, exact)
      {
        CarriedSectionIsReady(root, doc, b, a, i, exact);
      }
      PartsAreReady(s, Some(carried), b, a, exact);
    }
  }

  /** Carrying changes the storage section only. */
  lemma SameSection(root: Root, doc: Node, a: Value, i: nat)
    requires RootOk(root) && doc.Mapping? && i < |root.schema.branches| && i != root.storage
    ensures var key, carried := root.schema.branches[i].key, Carry(doc, Encode(root.schema, a));
            carried.Mapping? && NodeField(Some(carried), key) == NodeField(Some(doc), key)
  {
    var storage := NodeField(Some(doc), "storage");
    assert root.schema.branches[i].key != "storage";
    if storage.Some? && storage.value.Mapping? {
      var after := NodeField(Some(Encode(root.schema, a)), "storage");
      LookupSet(doc.fields, "storage", Mapping(CarryStorage(storage.value.fields, after)), root.schema.branches[i].key);
    }
  }

  lemma StorageSectionIsReady(root: Root, doc: Node, b: Value, a: Value, exact: bool)
    requires Valid(root, b) && Valid(root, a) && doc.Mapping? && Stands(root.schema, Some(doc), b, exact)
    requires NodeField(Some(doc), "storage").Some? && NodeField(Some(doc), "storage").value.Mapping?
    ensures PartReady(root.schema, Some(Carry(doc, Encode(root.schema, a))), b, a, root.storage, exact)
  {
    var s, storage := root.schema, NodeField(Some(doc), "storage").value;
    assert b == VStruct(b.values) && a == VStruct(a.values);
    ListsStandAlone(root);
    EncodedBranch(s, a.values, root.storage);
    hide Encode, Decode, CarryStorage, Stands, Known, IdsUnique, KeptLists;
    LookupSet(doc.fields, "storage",
              Mapping(CarryStorage(storage.fields, NodeField(Some(Encode(s, a)), "storage"))), "storage");
    FieldStands(s, Some(doc), b, root.storage, exact);
    CarriedStorageIsReady(root, storage, b.values[root.storage], a.values[root.storage], exact);
  }

  lemma CarriedSectionIsReady(root: Root, doc: Node, b: Value, a: Value, i: nat, exact: bool)
    requires Valid(root, b) && Valid(root, a) && doc.Mapping? && Stands(root.schema, Some(doc), b, exact)
    requires i < |root.schema.branches|
    requires NodeField(Some(doc), "storage").Some? && NodeField(Some(doc), "storage").value.Mapping?
    ensures PartReady(root.schema, Some(Carry(doc, Encode(root.schema, a))), b, a, i, exact)
  {
    var s := root.schema;
    assert b == VStruct(b.values) && a == VStruct(a.values);
    assert DependsOk(s.branches, i);
    hide Encode, Decode, CarryStorage, Stands, Known, IdsUnique, KeptLists;
    if i == root.storage {
      StorageSectionIsReady(root, doc, b, a, exact);
    } else {
      StandsReady(s, Some(doc), b, a, exact);
      ReadyPart(s, Some(doc), b, a, i, exact);
      SameSection(root, doc, a, i);
      if s.branches[i].dependsOn.Some? {
        SameSection(root, doc, a, s.branches[i].dependsOn.value);
      }
      hide Carry, PartReady;
      SamePartReady(s, Some(doc), Some(Carry(doc, Encode(s, a))), b, a, i, exact);
    }
  }

  // ----- carrying as the source does it -----

  /** The originals of all resources by id. */
  method CollectById(items: seq<Node>) returns (byId: map<string, Node>)
    ensures forall id :: id in byId <==> FindLast(items, id).Some?
    ensures forall id | id in byId :: FindLast(items, id) == Some(byId[id])
  {
    byId := map[];
    for k := 0 to |items|
      invariant forall id :: id in byId <==> FindLast(items[..k], id).Some?
      invariant forall id | id in byId :: FindLast(items[..k], id) == Some(byId[id])
    {
      var id := IdOf(items[k]);
      assert items[..k + 1] == items[..k] + [items[k]];
      forall x: string
        ensures FindLast(items[..k + 1], x) == if id == Some(x) then Some(items[k]) else FindLast(items[..k], x)
      {
        FindLastAppend(items[..k], items[k], x);
      }
      if id.Some? {
        byId := byId[id.value := items[k]];
      }
    }
    assert items[..|items|] == items;
  }

  lemma {:induction false} FindLastAppend(items: seq<Node>, x: Node, id: string)
    ensures FindLast(items + [x], id) == if IdOf(x) == Some(id) then Some(x) else FindLast(items, id)
  {
    if items != [] {
      assert (items + [x])[1..] == items[1..] + [x];
      FindLastAppend(items[1..], x, id);
    }
  }

  lemma AppendMoved(list: seq<Node>, moved: seq<Node>, original: Node, rest: seq<Node>)
    ensures list + (moved + [original]) == list + moved + [original]
    ensures moved + ([original] + rest) == moved + [original] + rest
  {
  }

  method CarryMissing(list: seq<Node>, wanted: seq<Node>, byId: map<string, Node>, ghost source: seq<Node>)
    returns (moved: seq<Node>)
    requires forall id :: id in byId <==> FindLast(source, id).Some?
    requires forall id | id in byId :: FindLast(source, id) == Some(byId[id])
    ensures moved == Missing(list, wanted, source)
  {
    moved := [];
    assert list + [] == list;
    for k := 0 to |wanted|
      invariant moved + Missing(list + moved, wanted[k..], source) == Missing(list, wanted, source)
    {
      var id := IdOf(wanted[k]);
      assert wanted[k..] == [wanted[k]] + wanted[k + 1..];
      if id.Some? && id.value in byId && FindById(list + moved, id.value).None? {
        var original := byId[id.value];
        AppendMoved(list, moved, original, Missing(list + moved + [original], wanted[k + 1..], source));
        moved := moved + [original];
      }
    }
    assert moved + [] == moved;
  }

  /** The part of settingsForSave that carries resources between dirs and shares. */
  method CarryMoved(doc: Node, after: Node) returns (r: Node)
    ensures r == Carry(doc, after)
  {
    var storage := NodeField(Some(doc), "storage");
    if storage.None? || !storage.value.Mapping? {
      return doc;
    }
    var fields := storage.value.fields;
    ghost var source := ItemsOf(Lookup(fields, "dirs")) + ItemsOf(Lookup(fields, "shares"));
    var byId := CollectById(ItemsOf(Lookup(fields, "dirs")) + ItemsOf(Lookup(fields, "shares")));
    var section := NodeField(Some(after), "storage");
    var keys := ["dirs", "shares"];
    for k := 0 to 2
      invariant k == 0 ==> fields == storage.value.fields
      invariant k == 1 ==> fields == CarryList(storage.value.fields, "dirs", ItemsOf(NodeField(section, "dirs")),
          source)
      invariant k == 2 ==> fields == CarryStorage(storage.value.fields, section)
    {
      var list := ItemsOf(Lookup(fields, keys[k]));
      var moved := CarryMissing(list, ItemsOf(NodeField(section, keys[k])), byId, source);
      if moved != [] {
        fields := Replace(fields, keys[k], Sequence(list + moved));
      }
    }
    var whole := Replace(doc.fields, "storage", Mapping(fields));
    return Mapping(whole);
  }
}
