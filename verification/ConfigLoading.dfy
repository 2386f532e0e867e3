/**
 What the program's configuration document means: every entry of the two resource lists and every
 lifetime, from the scalars the document has, and what a missing one stands for.
 */
module ConfigLoading {
  import opened Basics
  import opened ConfigTree
  import opened ConfigSchema
  import opened ConfigKeeps
  import opened ConfigProgram
  import opened ConfigSaveLimits

  /** The text a document has under a key; nothing, if the key is missing or null. */
  function TextAt(n: Option<Node>, key: string): string {
    match NodeField(n, key)
    case Some(Scalar(l)) => l.text
    case _ => ""
  }

  function SaysTrue(t: Texts, n: Option<Node>, key: string): bool {
    match NodeField(n, key)
    case Some(Scalar(l)) => l.tag == Bool && t.truth(l.text)
    case _ => false
  }

  function NumberAt(t: Texts, n: Option<Node>, key: string, default: int): int {
    match NodeField(n, key)
    case Some(Scalar(l)) => t.number(l.text)
    case _ => default
  }

  // ----- resources -----

  /** A resource as the document writes it. */
  function AsWritten(t: Texts, inDirs: bool, o: Node): Resource {
    var id, name := t.trim(TextAt(Some(o), "id")), t.trim(TextAt(Some(o), "name"));
    var typed := t.lower(t.trim(TextAt(Some(o), "type")));
    var kind := if typed in {"dir", "folder"} then "directory" else if typed == "" && inDirs then "directory"
        else typed;
    Resource(id, if name == "" then id else name, kind, t.place(TextAt(Some(o), "path")),
             SaysTrue(t, Some(o), "allow_download"), SaysTrue(t, Some(o), "allow_upload") && kind != "file")
  }

  ghost predicate ScalarAt(o: Node, key: string) {
    match NodeField(Some(o), key)
    case Some(n) => n.Null? || n.Scalar?
    case None => true
  }

  ghost predicate BoolAt(o: Node, key: string) {
    match NodeField(Some(o), key)
    case Some(n) => n.Null? || (n.Scalar? && n.literal.tag == Bool)
    case None => true
  }

  /**
   An entry that can be read: a mapping, or null, with scalars for the known keys and truth values
   for the permissions.
   */
  ghost predicate Readable(o: Node) {
    && (o.Null? || (o.Mapping? && NoDuplicate(o.fields)))
    && ScalarAt(o, "id") && ScalarAt(o, "name") && ScalarAt(o, "type") && ScalarAt(o, "path")
    && BoolAt(o, "allow_download") && BoolAt(o, "allow_upload")
  }

  lemma TextReads(f: string -> string, o: Node, key: string)
    requires f("") == ""
    ensures Decode(Leaf(TextLeaf(f)), NodeField(Some(o), key))
            == if ScalarAt(o, key) then Some(VLeaf(Text(f(TextAt(Some(o), key))))) else None
  {
  }

  lemma BoolReads(t: Texts, o: Node, key: string)
    requires TextsOk(t)
    ensures Decode(Leaf(BoolLeaf(t)), NodeField(Some(o), key))
            == if BoolAt(o, key) then Some(VLeaf(Truth(SaysTrue(t, Some(o), key)))) else None
  {
  }

  lemma TypeReads(t: Texts, inDirs: bool, o: Node)
    requires TextsOk(t)
    ensures Decode(Leaf(TypeLeaf(t, inDirs)), NodeField(Some(o), "type"))
            == if ScalarAt(o, "type") then Some(VLeaf(Text(AsWritten(t, inDirs, o).kind))) else None
  {
    assert ResourceType(t, TextAt(Some(o), "type"), inDirs) == AsWritten(t, inDirs, o).kind;
    assert ResourceType(t, "", inDirs) == if inDirs then "directory" else "";
  }

  /** The six fields as read, before they look at one another. */
  function RawResource(t: Texts, inDirs: bool, o: Node): Value {
    VStruct([VLeaf(Text(t.trim(TextAt(Some(o), "id")))), VLeaf(Text(t.trim(TextAt(Some(o), "name")))),
             VLeaf(Text(AsWritten(t, inDirs, o).kind)), VLeaf(Text(t.place(TextAt(Some(o), "path")))),
             VLeaf(Truth(SaysTrue(t, Some(o), "allow_download"))), VLeaf(Truth(SaysTrue(t, Some(o), "allow_upload")))])
  }

  lemma FieldReads(t: Texts, inDirs: bool, o: Node, i: nat)
    requires TextsOk(t) && i < 6
    ensures var branch := ResourceSchema(t, inDirs).branches[i];
            Decode(branch.schema, NodeField(Some(o), branch.key))
            == if (if i < 4 then ScalarAt(o, branch.key) else BoolAt(o, branch.key))
               then Some(RawResource(t, inDirs, o).values[i]) else None
  {
    ResourceBranches(t, inDirs);
    TextReads(t.trim, o, "id");
    TextReads(t.trim, o, "name");
    TypeReads(t, inDirs, o);
    TextReads(t.place, o, "path");
    BoolReads(t, o, "allow_download");
    BoolReads(t, o, "allow_upload");
    hide ResourceSchema, Decode, TypeLeaf, BoolLeaf, TextLeaf, AsWritten;
  }

  lemma RawReads(t: Texts, inDirs: bool, o: Node)
    requires TextsOk(t)
    ensures Decode(ResourceSchema(t, inDirs), Some(o)) == if Readable(o) then Some(RawResource(t, inDirs, o)) else None
  {
    var item, raw := ResourceSchema(t, inDirs), RawResource(t, inDirs, o);
    ResourceBranches(t, inDirs);
    forall i | 0 <= i < 6
      ensures var branch := item.branches[i];
              Decode(branch.schema, NodeField(Some(o), branch.key))
              == if (if i < 4 then ScalarAt(o, branch.key) else BoolAt(o, branch.key)) then Some(raw.values[i])
                  else None
    {
      FieldReads(t, inDirs, o, i);
    }
    hide ResourceSchema, TextsOk, AsWritten, ScalarAt, BoolAt;
    DecodesAs(item, Some(o), raw.values);
    if Decode(item, Some(o)).Some? {
      DecodedStruct(item, Some(o));
      var d := Decode(item, Some(o)).value;
      DecodesAs(item, Some(o), d.values);
      AllRead(t, inDirs, o, d);
    }
  }

  lemma AllRead(t: Texts, inDirs: bool, o: Node, d: Value)
    requires TextsOk(t) && d.VStruct? && |d.values| == 6
    requires MappingOrMissing(Some(o)) && FieldsDecodeAs(ResourceSchema(t, inDirs), Some(o), d.values)
    ensures Readable(o)
  {
    ResourceBranches(t, inDirs);
    forall i | 0 <= i < 6
      ensures var key := ResourceSchema(t, inDirs).branches[i].key; if i < 4 then ScalarAt(o, key) else BoolAt(o, key)
    {
      FieldReads(t, inDirs, o, i);
      assert Decode(ResourceSchema(t, inDirs).branches[i].schema,
          NodeField(Some(o), ResourceSchema(t, inDirs).branches[i].key)) == Some(d.values[i]);
    }
    hide ResourceSchema, ScalarAt, BoolAt;
    assert ResourceSchema(t, inDirs).branches[ID].key == "id" && ResourceSchema(t, inDirs).branches[NAME].key == "name";
    assert ResourceSchema(t, inDirs).branches[TYPE].key == "type"
        && ResourceSchema(t, inDirs).branches[PATH].key == "path";
    assert ResourceSchema(t, inDirs).branches[DOWNLOAD].key == "allow_download";
    assert ResourceSchema(t, inDirs).branches[UPLOAD].key == "allow_upload";
  }

  /**
   What an entry loads as, whichever list it is in: id and path trimmed, the name likewise or else the
   id, the type in lower case, with dir and folder meaning directory, and so does no type in the list
   of directories, while in the other list it stays empty; permissions as written, except that nothing
   is uploaded to a file. And an entry loads exactly if it can be read.
   */
  lemma EntryLoadsAsWritten(t: Texts, inDirs: bool, o: Node)
    requires TextsOk(t)
    ensures Decode(ResourceSchema(t, inDirs), Some(o)).Some? <==> Readable(o)
    ensures Readable(o) ==> Loads(ResourceSchema(t, inDirs), Some(o), ResourceValue(AsWritten(t, inDirs, o)))
  {
    RawReads(t, inDirs, o);
    AdjustedResource(t, inDirs, o);
    hide ResourceSchema, ResourceValue, Decode, AsWritten, RawResource, TextsOk, Settle, Readable;
  }

  lemma AdjustedResource(t: Texts, inDirs: bool, o: Node)
    ensures Settle(ResourceSchema(t, inDirs), RawResource(t, inDirs, o)) == ResourceValue(AsWritten(t, inDirs, o))
  {
    var item, raw, r := ResourceSchema(t, inDirs), RawResource(t, inDirs, o), AsWritten(t, inDirs, o);
    ResourceBranches(t, inDirs);
    ResourceValues(r);
    hide ResourceSchema, ResourceValue;
    forall i | 0 <= i < 6
      ensures Adjusted(item.branches[i], raw.values, raw.values[i]) == ResourceValue(r).values[i]
    {
    }
    SettlesTo(item, raw, ResourceValue(r));
  }

  lemma SettlesTo(item: Schema, raw: Value, v: Value)
    requires item.Struct? && raw.VStruct? && v.VStruct? && |raw.values| == |v.values| == |item.branches|
    requires forall i | 0 <= i < |item.branches| ::
               item.branches[i].schema.Leaf? && Adjusted(item.branches[i], raw.values, raw.values[i]) == v.values[i]
    ensures Settle(item, raw) == v
  {
    assert Settle(item, raw).values == v.values;
  }

  /** The cases one by one, for an entry that loads as `r`. */
  lemma EntryCases(t: Texts, inDirs: bool, o: Node, r: Resource)
    requires TextsOk(t) && Loads(ResourceSchema(t, inDirs), Some(o), ResourceValue(r))
    ensures var typed := t.lower(t.trim(TextAt(Some(o), "type")));
            && (inDirs && typed == "" ==> r.kind == "directory")
            && (!inDirs && typed == "" ==> r.kind == "")
            && (typed == "dir" || typed == "folder" ==> r.kind == "directory")
            && (typed != "" && typed != "dir" && typed != "folder" ==> r.kind == typed)
    ensures r.id == t.trim(TextAt(Some(o), "id"))
    ensures r.name == if t.trim(TextAt(Some(o), "name")) == "" then r.id else t.trim(TextAt(Some(o), "name"))
    ensures r.path == t.place(TextAt(Some(o), "path"))
    ensures r.download <==> SaysTrue(t, Some(o), "allow_download")
    ensures r.upload <==> SaysTrue(t, Some(o), "allow_upload") && r.kind != "file"
  {
    EntryLoadsAsWritten(t, inDirs, o);
    SameResource(r, AsWritten(t, inDirs, o));
  }

  lemma SameResource(r: Resource, q: Resource)
    ensures ResourceValue(r) == ResourceValue(q) ==> r == q
  {
    if ResourceValue(r) == ResourceValue(q) {
      ResourceValues(r);
      ResourceValues(q);
      var v := ResourceValue(r).values;
      assert v[ID] == VLeaf(Text(r.id)) == VLeaf(Text(q.id)) && v[NAME] == VLeaf(Text(r.name)) == VLeaf(Text(q.name));
      assert v[TYPE] == VLeaf(Text(r.kind)) == VLeaf(Text(q.kind))
          && v[PATH] == VLeaf(Text(r.path)) == VLeaf(Text(q.path));
      assert v[DOWNLOAD] == VLeaf(Truth(r.download)) == VLeaf(Truth(q.download));
      assert v[UPLOAD] == VLeaf(Truth(r.upload)) == VLeaf(Truth(q.upload));
    }
  }

  // ----- lifetimes -----

  /**
   A section with a lifetime and its maximum loads as what it says, or as the defaults where it says
   nothing, with the lifetime cut to the maximum.
   */
  lemma LifetimeLoadsAsWritten(
    t: Texts, key: string, default: int, maxKey: string, maxDefault: int, n: Option<Node>, v: Value)
    requires TextsOk(t) && key != maxKey && Loads(LifetimeSchema(t, key, default, maxKey, maxDefault), n, v)
    ensures var written, max := NumberAt(t, n, key, default), NumberAt(t, n, maxKey, maxDefault);
            v == VStruct([VLeaf(Number(t, if written > max then max else written)), VLeaf(Number(t, max))])
  {
    var s := LifetimeSchema(t, key, default, maxKey, maxDefault);
    DecodedStruct(s, n);
    var d := Decode(s, n).value;
    DecodesAs(s, n, d.values);
    assert s.branches[0].key == key && s.branches[0].schema == Leaf(IntLeaf(t, default));
    assert s.branches[1].key == maxKey && s.branches[1].schema == Leaf(IntLeaf(t, maxDefault));
    assert Decode(s.branches[0].schema, NodeField(n, s.branches[0].key)) == Some(d.values[0]);
    assert Decode(s.branches[1].schema, NodeField(n, s.branches[1].key)) == Some(d.values[1]);
    NumberReads(t, n, key, default);
    NumberReads(t, n, maxKey, maxDefault);
    var written, max := NumberAt(t, n, key, default), NumberAt(t, n, maxKey, maxDefault);
    assert t.number(t.show(written)) == written && t.number(t.show(max)) == max;
    assert Settle(s, d).values == [VLeaf(Number(t, if written > max then max else written)), VLeaf(Number(t, max))];
  }

  lemma NumberReads(t: Texts, n: Option<Node>, key: string, default: int)
    requires TextsOk(t) && Decode(Leaf(IntLeaf(t, default)), NodeField(n, key)).Some?
    ensures Decode(Leaf(IntLeaf(t, default)), NodeField(n, key)) == Some(VLeaf(Number(t, NumberAt(t, n, key, default))))
  {
    assert t.number(t.show(default)) == default;
  }

  // ----- the whole document -----

  /** The entries of a list, one by one, are those of the document. */
  ghost predicate ListAsWritten(t: Texts, inDirs: bool, list: Option<Node>, v: Value) {
    && v.VItems? && |v.items| == |ItemsOf(list)|
    && forall k | 0 <= k < |v.items| ::
         Readable(ItemsOf(list)[k]) && v.items[k] == ResourceValue(AsWritten(t, inDirs, ItemsOf(list)[k]))
  }

  lemma ListLoadsAsWritten(t: Texts, inDirs: bool, list: Option<Node>, v: Value)
    requires TextsOk(t) && Loads(Items(ResourceSchema(t, inDirs)), list, v)
    ensures ListAsWritten(t, inDirs, list, v)
  {
    var item := ResourceSchema(t, inDirs);
    ResourceSchemaOk(t, inDirs);
    hide ResourceSchema, AsWritten, ResourceValue;
    LoadedItems(item, list, v);
    forall k | 0 <= k < |v.items|
      ensures Readable(ItemsOf(list)[k]) && v.items[k] == ResourceValue(AsWritten(t, inDirs, ItemsOf(list)[k]))
    {
      EntryLoadsAsWritten(t, inDirs, ItemsOf(list)[k]);
    }
  }

  lemma {:induction false} EntriesDecode(item: Schema, items: seq<Node>)
    ensures DecodeItems(item, items).Some? <==> forall k | 0 <= k < |items| :: Decode(item, Some(items[k])).Some?
  {
    if items != [] {
      var rest := items[1..];
      EntriesDecode(item, rest);
      hide Decode;
      assert forall k | 0 <= k < |rest| :: rest[k] == items[k + 1];
      assert forall k | 0 < k < |items| :: items[k] == rest[k - 1];
    }
  }

  /** A list of resources can be read exactly if it is missing, null, or a sequence of entries that all can. */
  lemma ListLoadsIff(t: Texts, inDirs: bool, list: Option<Node>)
    requires TextsOk(t)
    ensures Decode(Items(ResourceSchema(t, inDirs)), list).Some? <==>
              || list.None? || list.value.Null?
              || (list.value.Sequence? && forall k | 0 <= k < |list.value.items| :: Readable(list.value.items[k]))
  {
    var item, items := ResourceSchema(t, inDirs), ItemsOf(list);
    EntriesDecode(item, items);
    hide ResourceSchema, Readable, TextsOk;
    forall k | 0 <= k < |items|
      ensures Decode(item, Some(items[k])).Some? <==> Readable(items[k])
    {
      EntryLoadsAsWritten(t, inDirs, items[k]);
    }
  }

  lemma {:induction false} NamesRead(items: seq<Node>, raw: seq<Literal>)
    requires |raw| == |items|
    requires forall k | 0 <= k < |items| :: raw[k] == if items[k].Scalar? then items[k].literal else Literal(Str, "")
    ensures ReadNames(items) == if forall k | 0 <= k < |items| ::
            items[k].Scalar? || items[k].Null? then Some(raw) else None
  {
    if items != [] {
      var rest := items[1..];
      NamesRead(rest, raw[1..]);
      assert forall k | 0 <= k < |rest| :: rest[k] == items[k + 1];
      assert forall k | 0 < k < |items| :: items[k] == rest[k - 1];
      assert raw == [raw[0]] + raw[1..];
    } else {
      assert raw == [];
    }
  }

  /**
   A list of scalars can be read exactly if it is missing, null, or a sequence of scalars and nulls whose
   texts are accepted; a null counts as the empty text.
   */
  lemma NamesLoadAsWritten(readAll: seq<Literal> -> Option<seq<Literal>>, n: Option<Node>, raw: seq<Literal>)
    requires var items := ItemsOf(n);
             && |raw| == |items|
             && forall k | 0 <= k < |items| :: raw[k] == if items[k].Scalar? then items[k].literal else Literal(Str, "")
    ensures Decode(Names(readAll), n)
            == if && (n.None? || n.value.Null? || n.value.Sequence?)
                  && (forall k | 0 <= k < |ItemsOf(n)| :: ItemsOf(n)[k].Scalar? || ItemsOf(n)[k].Null?)
                  && readAll(raw).Some?
               then Some(VNames(readAll(raw).value)) else None
  {
    NamesRead(ItemsOf(n), raw);
  }

  /**
   The program's configuration as loaded: the directories are the entries of storage.dirs, the shares
   those of storage.shares, and the lifetimes of leases and tokens those of their sections, with two
   and six hours, and one hour and a day, where nothing is said; and every further field, at the top
   and in the section of storage, loads what stands under its key.
   */
  lemma ProgramLoadsAsWritten(t: Texts, storage: seq<Branch>, more: seq<Branch>, doc: Node, v: Value)
    requires TextsOk(t) && StandAlone(storage) && StandAlone(more)
    requires DistinctKeys(StorageBranches(t, storage)) && DistinctKeys(TopBranches(t, storage, more))
    requires Loads(ProgramRoot(t, storage, more).schema, Some(doc), v)
    ensures v.VStruct? && |v.values| == 3 + |more| && v.values[0].VStruct? && |v.values[0].values| == 2 + |storage|
    ensures forall i | 0 <= i < |storage| ::
              Loads(storage[i].schema, NodeField(NodeField(Some(doc), "storage"), storage[i].key),
                  v.values[0].values[2 + i])
    ensures forall i | 0 <= i < |more| :: Loads(more[i].schema, NodeField(Some(doc), more[i].key), v.values[3 + i])
    ensures ListAsWritten(t, true, NodeField(NodeField(Some(doc), "storage"), "dirs"), v.values[0].values[0])
    ensures ListAsWritten(t, false, NodeField(NodeField(Some(doc), "storage"), "shares"), v.values[0].values[1])
    ensures var n := NodeField(Some(doc), "downloads");
            var ttl, max := NumberAt(t, n, "lease_ttl_seconds", 2 * 3600),
                NumberAt(t, n, "lease_max_ttl_seconds", 6 * 3600);
            v.values[1] == VStruct([VLeaf(Number(t, if ttl > max then max else ttl)), VLeaf(Number(t, max))])
    ensures var n := NodeField(Some(doc), "tokens");
            var ttl, max := NumberAt(t, n, "default_ttl_seconds", 3600), NumberAt(t, n, "max_ttl_seconds", 24 * 3600);
            v.values[2] == VStruct([VLeaf(Number(t, if ttl > max then max else ttl)), VLeaf(Number(t, max))])
  {
    var s := ProgramRoot(t, storage, more).schema;
    ProgramRootOk(t, storage, more);
    hide LifetimeSchema, ResourceSchema, Loads, SchemaOk, TextsOk, StandAlone, DistinctKeys;
    assert |s.branches| >= 3;
    FieldLoads(s, Some(doc), v, 0);
    FieldLoads(s, Some(doc), v, 1);
    FieldLoads(s, Some(doc), v, 2);
    LifetimeLoadsAsWritten(t, "lease_ttl_seconds", 7200, "lease_max_ttl_seconds", 21600,
        NodeField(Some(doc), "downloads"), v.values[1]);
    LifetimeLoadsAsWritten(t, "default_ttl_seconds", 3600, "max_ttl_seconds", 86400, NodeField(Some(doc), "tokens"),
        v.values[2]);
    StorageLoadsAsWritten(t, storage, NodeField(Some(doc), "storage"), v.values[0]);
    FurtherLoad(s, more, Some(doc), v, 3);
  }

  /** Further fields stand at the end of a section and look at no neighbour. */
  lemma FurtherLoad(s: Schema, more: seq<Branch>, n: Option<Node>, v: Value, from: nat)
    requires SchemaOk(s) && s.Struct? && Loads(s, n, v) && StandAlone(more)
    requires from <= |s.branches| && s.branches[from..] == more
    ensures v.VStruct? && |v.values| == from + |more|
    ensures forall i | 0 <= i < |more| :: Loads(more[i].schema, NodeField(n, more[i].key), v.values[from + i])
  {
    hide SchemaOk, Loads;
    DecodedLength(s, n, v);
    forall i | 0 <= i < |more|
      ensures Loads(more[i].schema, NodeField(n, more[i].key), v.values[from + i])
    {
      assert s.branches[from + i] == s.branches[from..][i] == more[i];
      FieldLoads(s, n, v, from + i);
    }
  }

  lemma DecodedLength(s: Schema, n: Option<Node>, v: Value)
    requires s.Struct? && Loads(s, n, v)
    ensures v.VStruct? && |v.values| == |s.branches|
  {
    DecodedStruct(s, n);
    DecodesAs(s, n, Decode(s, n).value.values);
  }

  lemma StorageLoadsAsWritten(t: Texts, storage: seq<Branch>, n: Option<Node>, v: Value)
    requires TextsOk(t) && StandAlone(storage) && DistinctKeys(StorageBranches(t, storage))
    requires Loads(Struct(StorageBranches(t, storage)), n, v)
    ensures v.VStruct? && |v.values| == 2 + |storage|
    ensures forall i | 0 <= i < |storage| ::
              Loads(storage[i].schema, NodeField(n, storage[i].key), v.values[2 + i])
    ensures ListAsWritten(t, true, NodeField(n, "dirs"), v.values[0])
    ensures ListAsWritten(t, false, NodeField(n, "shares"), v.values[1])
  {
    StorageOk(t, storage);
    hide ResourceSchema, Loads, SchemaOk, TextsOk, StandAlone, DistinctKeys;
    FieldLoads(Struct(StorageBranches(t, storage)), n, v, 0);
    FieldLoads(Struct(StorageBranches(t, storage)), n, v, 1);
    ListLoadsAsWritten(t, true, NodeField(n, "dirs"), v.values[0]);
    ListLoadsAsWritten(t, false, NodeField(n, "shares"), v.values[1]);
    FurtherLoad(Struct(StorageBranches(t, storage)), storage, n, v, 2);
  }
}
