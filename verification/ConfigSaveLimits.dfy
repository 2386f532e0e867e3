/**
 Where saving does not give the program's configuration back: what becomes of a resource and of a
 pair of lifetimes, with the exact condition on document, baseline and new value.
 */
module ConfigSaveLimits {
  import opened Basics
  import opened ConfigTree
  import opened ConfigSchema
  import opened ConfigMerge
  import opened ConfigKeeps
  import opened ConfigFaithful
  import opened ConfigCarry
  import opened ConfigProgram

  /** A configuration a caller may save. */
  ghost predicate MaySave(s: Schema, v: Value) {
    Fits(s, v) && Settled(s, v)
  }

  // ----- one resource -----

  /** The document allows uploads, whatever loading makes of it. */
  ghost predicate WritesUpload(t: Texts, o: Node) {
    Decode(Leaf(BoolLeaf(t)), NodeField(Some(o), "allow_upload")) == Some(VLeaf(Truth(true)))
  }

  /** The type was set to empty, which is how it is left out. */
  predicate EmptiesType(b: Resource, a: Resource) {
    a.kind == "" && b.kind != ""
  }

  /** A file whose document allows uploads all the same stops being a file, without uploads being asked for. */
  ghost predicate FreesUpload(t: Texts, o: Node, b: Resource, a: Resource) {
    WritesUpload(t, o) && b.kind == "file" && a.kind != "file" && !a.upload
  }

  lemma ResourceReady(t: Texts, inDirs: bool, o: Node, b: Resource, a: Resource)
    requires TextsOk(t) && b.id == a.id
    requires var item := ResourceSchema(t, inDirs);
             Loads(item, Some(o), ResourceValue(b)) && Fits(item, ResourceValue(b)) && MaySave(item, ResourceValue(a))
    ensures var item := ResourceSchema(t, inDirs);
            && SchemaOk(item) && Decode(item, Some(o)).Some?
                && Known(item, Some(o), Some(ResourceValue(b)), ResourceValue(a))
            && !Lost(item, Some(o), Some(ResourceValue(b)), ResourceValue(a))
  {
    var item := ResourceSchema(t, inDirs);
    ResourceSchemaOk(t, inDirs);
    hide ResourceSchema, SchemaOk;
    LoadedIsKnown(item, Some(o), ResourceValue(b), ResourceValue(a));
    ItemLostIff(item, Some(o), Some(ResourceValue(b)), ResourceValue(a));
  }

  lemma ResourceBranches(t: Texts, inDirs: bool)
    ensures ResourceSchema(t, inDirs).Struct?
    ensures var branches := ResourceSchema(t, inDirs).branches;
            && |branches| == 6
            && branches[ID] == Branch("id", Leaf(TextLeaf(t.trim)), false, None, Alone)
            && branches[NAME] == Branch("name", Leaf(TextLeaf(t.trim)), false, Some(ID), NamedById)
            && branches[TYPE] == Branch("type", Leaf(TypeLeaf(t, inDirs)), true, None, Alone)
            && branches[PATH] == Branch("path", Leaf(TextLeaf(t.place)), false, None, Alone)
            && branches[DOWNLOAD] == Branch("allow_download", Leaf(BoolLeaf(t)), false, None, Alone)
            && branches[UPLOAD] == Branch("allow_upload", Leaf(BoolLeaf(t)), false, Some(TYPE), NoUploadToFile)
  {
  }

  lemma ResourceValues(r: Resource)
    ensures ResourceValue(r).VStruct?
    ensures ResourceValue(r).values ==
            [VLeaf(Text(r.id)), VLeaf(Text(r.name)), VLeaf(Text(r.kind)), VLeaf(Text(r.path)),
             VLeaf(Truth(r.download)), VLeaf(Truth(r.upload))]
  {
  }

  /** What the document says of a resource that loads as `b`. */
  lemma ResourceFields(t: Texts, inDirs: bool, o: Node, b: Resource)
    requires TextsOk(t) && Loads(ResourceSchema(t, inDirs), Some(o), ResourceValue(b))
    ensures var branches := ResourceSchema(t, inDirs).branches;
            && |branches| == 6
            && Decode(branches[ID].schema, NodeField(Some(o), "id")) == Some(VLeaf(Text(b.id)))
            && Decode(branches[TYPE].schema, NodeField(Some(o), "type")) == Some(VLeaf(Text(b.kind)))
            && Decode(branches[UPLOAD].schema, NodeField(Some(o), "allow_upload")).Some?
            && (b.upload <==> WritesUpload(t, o) && b.kind != "file")
  {
    var item := ResourceSchema(t, inDirs);
    ResourceBranches(t, inDirs);
    ResourceValues(b);
    ResourceSchemaOk(t, inDirs);
    ReadsTruthIfAny(t, NodeField(Some(o), "allow_upload"));
    hide ResourceSchema, ResourceValue, Loads, SchemaOk, ItemSchemaOk, Decode, TextLeaf, TypeLeaf, BoolLeaf, TextsOk;
    LeafLoads(item, o, ResourceValue(b), ID);
    LeafLoads(item, o, ResourceValue(b), TYPE);
    DependentLoads(item, Some(o), ResourceValue(b), UPLOAD);
  }

  lemma LeafLoads(item: Schema, o: Node, v: Value, i: nat)
    requires SchemaOk(item) && item.Struct? && Loads(item, Some(o), v) && i < |item.branches|
    requires item.branches[i].dependsOn.None? && item.branches[i].schema.Leaf?
    ensures v.VStruct? && |v.values| == |item.branches|
    ensures Decode(item.branches[i].schema, NodeField(Some(o), item.branches[i].key)) == Some(v.values[i])
  {
    FieldLoads(item, Some(o), v, i);
    PartDecodes(item, Some(o), i);
  }

  lemma ReadsTruthIfAny(t: Texts, n: Option<Node>)
    ensures Decode(Leaf(BoolLeaf(t)), n).Some? ==>
              Decode(Leaf(BoolLeaf(t)), n).value == VLeaf(Truth(true))
                  || Decode(Leaf(BoolLeaf(t)), n).value == VLeaf(Truth(false))
  {
    if Decode(Leaf(BoolLeaf(t)), n).Some? {
      ReadsTruth(t, n);
    }
  }

  lemma ReadsTruth(t: Texts, n: Option<Node>)
    requires Decode(Leaf(BoolLeaf(t)), n).Some?
    ensures Decode(Leaf(BoolLeaf(t)), n).value == VLeaf(Truth(true))
            || Decode(Leaf(BoolLeaf(t)), n).value == VLeaf(Truth(false))
  {
  }

  /**
   For every document item, whichever list it is in: saving a changed resource reads back exactly
   if its type is not emptied and it does not free uploads. The callers of the program always fill
   in a type, so for them only the second can happen.
   */
  lemma ResourceLoadsIff(t: Texts, inDirs: bool, o: Node, b: Resource, a: Resource)
    requires TextsOk(t) && b.id == a.id
    requires var item := ResourceSchema(t, inDirs);
             Loads(item, Some(o), ResourceValue(b)) && Fits(item, ResourceValue(b)) && MaySave(item, ResourceValue(a))
    ensures var item := ResourceSchema(t, inDirs);
            var saved := Merge(Some(o), Some(Encode(item, ResourceValue(b))), Encode(item, ResourceValue(a)));
            && saved.Some?
            && (Loads(item, saved, ResourceValue(a)) <==> !EmptiesType(b, a) && !FreesUpload(t, o, b, a))
  {
    var item := ResourceSchema(t, inDirs);
    ResourceReady(t, inDirs, o, b, a);
    MergeDecodes(item, Some(o), Some(ResourceValue(b)), ResourceValue(a));
    MergeLoadsIff(item, Some(o), Some(ResourceValue(b)), ResourceValue(a));
    ResourceFaithfulIff(t, inDirs, o, b, a);
  }

  lemma ResourceFaithfulIff(t: Texts, inDirs: bool, o: Node, b: Resource, a: Resource)
    requires TextsOk(t) && b.id == a.id
    requires var item := ResourceSchema(t, inDirs);
             Loads(item, Some(o), ResourceValue(b)) && Fits(item, ResourceValue(b)) && MaySave(item, ResourceValue(a))
    ensures Faithful(ResourceSchema(t, inDirs), Some(o), Some(ResourceValue(b)), ResourceValue(a))
            <==> !EmptiesType(b, a) && !FreesUpload(t, o, b, a)
  {
    var item, was, now := ResourceSchema(t, inDirs), Some(ResourceValue(b)), ResourceValue(a);
    ResourceFields(t, inDirs, o, b);
    if o.Mapping? {
      forall i | 0 <= i < 6
        ensures FieldFaithful(item, Some(o), was, now, i)
                <==> (i == TYPE ==> !EmptiesType(b, a)) && (i == UPLOAD ==> !FreesUpload(t, o, b, a))
      {
        FieldOfResource(t, inDirs, o, b, a, i);
      }
      assert FieldFaithful(item, Some(o), was, now, TYPE) && FieldFaithful(item, Some(o), was, now, UPLOAD)
        <==> !EmptiesType(b, a) && !FreesUpload(t, o, b, a);
    } else {
      NothingWritten(t, inDirs, o, b, a);
    }
  }

  lemma ScalarFaithful(s: Schema, o: Option<Node>, b: Option<Value>, a: Value, i: nat)
    requires s.Struct? && a.VStruct? && i < |a.values| == |s.branches| && s.branches[i].schema.Leaf?
    ensures FieldFaithful(s, o, b, a, i)
            <==> (Omitted(s.branches[i], a.values[i]) || KeptBesideChange(s.branches[i], b, a, i) ==>
                    Decode(s.branches[i].schema, NodeField(o, s.branches[i].key)) == Some(a.values[i]))
  {
    hide Decode;
  }

  /** Which fields of a resource are left out, and which stay beside a neighbour that changes. */
  lemma ResourceKeeps(t: Texts, inDirs: bool, b: Resource, a: Resource, i: nat)
    requires b.id == a.id && i < 6
    ensures var branch := ResourceSchema(t, inDirs).branches[i];
            && branch.schema.Leaf?
            && (Omitted(branch, ResourceValue(a).values[i]) <==> i == TYPE && a.kind == "")
            && (KeptBesideChange(branch, Some(ResourceValue(b)), ResourceValue(a), i)
                <==> i == UPLOAD && a.upload == b.upload && a.kind != b.kind)
  {
    ResourceBranches(t, inDirs);
    ResourceValues(b);
    ResourceValues(a);
    assert TypeLeafDefault(t, inDirs) == Text("");
    hide ResourceSchema, ResourceValue, TypeLeaf, BoolLeaf, TextLeaf;
  }

  /** Field by field: only the type and the upload flag can fail, and only in these ways. */
  lemma FieldOfResource(t: Texts, inDirs: bool, o: Node, b: Resource, a: Resource, i: nat)
    requires TextsOk(t) && b.id == a.id && i < 6
    requires var item := ResourceSchema(t, inDirs);
             Loads(item, Some(o), ResourceValue(b)) && Fits(item, ResourceValue(b)) && MaySave(item, ResourceValue(a))
    ensures FieldFaithful(ResourceSchema(t, inDirs), Some(o), Some(ResourceValue(b)), ResourceValue(a), i)
            <==> (i == TYPE ==> !EmptiesType(b, a)) && (i == UPLOAD ==> !FreesUpload(t, o, b, a))
  {
    ResourceFields(t, inDirs, o, b);
    ResourceBranches(t, inDirs);
    ResourceValues(a);
    ResourceKeeps(t, inDirs, b, a, i);
    SettledUpload(t, inDirs, a);
    ReadsTruth(t, NodeField(Some(o), "allow_upload"));
    ScalarFaithful(ResourceSchema(t, inDirs), Some(o), Some(ResourceValue(b)), ResourceValue(a), i);
    hide ResourceSchema, ResourceValue, Loads, Fits, Settle, FieldFaithful, Omitted, KeptBesideChange, Decode, TextsOk;
    hide TypeLeaf, BoolLeaf, TextLeaf;
  }

  function TypeLeafDefault(t: Texts, inDirs: bool): (r: Literal)
    ensures r == TypeLeaf(t, inDirs).fallback && r == Text("")
  {
    Text("")
  }

  lemma SettledUpload(t: Texts, inDirs: bool, a: Resource)
    requires Settled(ResourceSchema(t, inDirs), ResourceValue(a))
    ensures a.kind == "file" ==> !a.upload
  {
    var item, v := ResourceSchema(t, inDirs), ResourceValue(a);
    assert Settle(item, v).values[UPLOAD] == Adjusted(item.branches[UPLOAD], v.values, v.values[UPLOAD]);
  }

  /** An empty element of a list is read as a resource of defaults, and written over as a whole. */
  lemma NothingWritten(t: Texts, inDirs: bool, o: Node, b: Resource, a: Resource)
    requires TextsOk(t) && !o.Mapping?
    requires var item := ResourceSchema(t, inDirs);
             Loads(item, Some(o), ResourceValue(b)) && Fits(item, ResourceValue(a))
    ensures !EmptiesType(b, a) && !FreesUpload(t, o, b, a)
  {
    ResourceFields(t, inDirs, o, b);
    assert Fits(ResourceSchema(t, inDirs).branches[TYPE].schema, ResourceValue(a).values[TYPE]);
    assert TypeLeaf(t, inDirs).read(Text(a.kind)) == Some(Text(a.kind));
    assert TypeLeaf(t, inDirs).read(Text("")) == Some(Text(ResourceType(t, "", inDirs)));
  }

  /** A field of the merged item that is faithful loads as its new value. */
  lemma LoadedField(t: Texts, inDirs: bool, o: Node, b: Resource, a: Resource, i: nat)
    requires TextsOk(t) && b.id == a.id && o.Mapping? && i < 6
    requires var item := ResourceSchema(t, inDirs);
             Loads(item, Some(o), ResourceValue(b)) && Fits(item, ResourceValue(b)) && MaySave(item, ResourceValue(a))
    ensures var r := Settle(ResourceSchema(t, inDirs),
            Patched(ResourceSchema(t, inDirs), Some(o), Some(ResourceValue(b)), ResourceValue(a)));
            && r.VStruct? && |r.values| == 6
            && (i != UPLOAD && !(i == TYPE && EmptiesType(b, a)) ==> r.values[i] == ResourceValue(a).values[i])
  {
    var item := ResourceSchema(t, inDirs);
    ResourceReady(t, inDirs, o, b, a);
    FieldOfResource(t, inDirs, o, b, a, i);
    FieldOfResource(t, inDirs, o, b, a, ID);
    FieldLoadsIff(item, Some(o), Some(ResourceValue(b)), ResourceValue(a), i);
    FieldLoadsIff(item, Some(o), Some(ResourceValue(b)), ResourceValue(a), ID);
  }

  /** The upload flag of the document counts again. */
  lemma UploadReturns(t: Texts, inDirs: bool, o: Node, b: Resource, a: Resource)
    requires TextsOk(t) && b.id == a.id && o.Mapping? && FreesUpload(t, o, b, a) && !EmptiesType(b, a)
    requires var item := ResourceSchema(t, inDirs);
             Loads(item, Some(o), ResourceValue(b)) && Fits(item, ResourceValue(b)) && MaySave(item, ResourceValue(a))
    ensures Settle(ResourceSchema(t, inDirs),
            Patched(ResourceSchema(t, inDirs), Some(o), Some(ResourceValue(b)), ResourceValue(a))).values[UPLOAD]
            == VLeaf(Truth(true))
  {
    var item, was, now := ResourceSchema(t, inDirs), Some(ResourceValue(b)), ResourceValue(a);
    ResourceFields(t, inDirs, o, b);
    ResourceReady(t, inDirs, o, b, a);
    PatchedStruct(item, Some(o), was, now);
    ResourceBranches(t, inDirs);
    ResourceValues(b);
    ResourceValues(a);
    ResourceKeeps(t, inDirs, b, a, TYPE);
    ResourceKeeps(t, inDirs, b, a, UPLOAD);
    hide ResourceSchema, ResourceValue, Loads, Fits, TextsOk, TypeLeaf, BoolLeaf, TextLeaf, Known, Lost, SchemaOk,
        Settled;
    ScalarPatched(item, Some(o), was, now, TYPE);
    ScalarPatched(item, Some(o), was, now, UPLOAD);
    hide Decode, PatchedField, Patched;
    AdjustedAt(item, Patched(item, Some(o), was, now), UPLOAD);
  }

  /** A scalar that is written: the document's if it has not changed, and the new one if it has. */
  lemma ScalarPatched(s: Schema, o: Option<Node>, b: Option<Value>, a: Value, i: nat)
    requires s.Struct? && a.VStruct? && i < |a.values| == |s.branches| && s.branches[i].schema.Leaf?
    requires !Omitted(s.branches[i], a.values[i])
    ensures PatchedField(s, o, b, a, i) ==
            if BranchOf(b, i) == Some(a.values[i])
                then ReadOr(s.branches[i].schema, NodeField(o, s.branches[i].key), a.values[i])
            else a.values[i]
  {
    hide Decode;
  }

  lemma AdjustedAt(s: Schema, p: Value, i: nat)
    requires s.Struct? && p.VStruct? && i < |p.values| == |s.branches| && s.branches[i].schema.Leaf?
    ensures Settle(s, p).values[i] == Adjusted(s.branches[i], p.values, p.values[i])
  {
  }

  /** What the merged item is read as when uploads are freed. */
  lemma FreedIsPatched(t: Texts, inDirs: bool, o: Node, b: Resource, a: Resource)
    requires TextsOk(t) && b.id == a.id
    requires var item := ResourceSchema(t, inDirs);
             Loads(item, Some(o), ResourceValue(b)) && Fits(item, ResourceValue(b)) && MaySave(item, ResourceValue(a))
    requires FreesUpload(t, o, b, a) && !EmptiesType(b, a)
    ensures var item := ResourceSchema(t, inDirs);
            Settle(item, Patched(item, Some(o), Some(ResourceValue(b)), ResourceValue(a)))
                == ResourceValue(a.(upload := true))
  {
    var item := ResourceSchema(t, inDirs);
    ResourceValues(a);
    ResourceValues(a.(upload := true));
    assert o.Mapping?;
    hide Faithful, Known, Lost, Fits, Settle, Patched, Decode, ResourceSchema, ResourceValue, SchemaOk, TextsOk,
        WritesUpload;
    var r := Settle(item, Patched(item, Some(o), Some(ResourceValue(b)), ResourceValue(a)));
    UploadReturns(t, inDirs, o, b, a);
    forall i | 0 <= i < 6
      ensures r.values[i] == ResourceValue(a.(upload := true)).values[i]
    {
      LoadedField(t, inDirs, o, b, a, i);
    }
    LoadedField(t, inDirs, o, b, a, ID);
    assert r.values == ResourceValue(a.(upload := true)).values;
  }

  /**
   What goes wrong when uploads are freed: whatever else is changed at the same time, the next load
   gives the resource that was saved, except that uploads are allowed.
   */
  lemma UploadComesBack(t: Texts, inDirs: bool, o: Node, b: Resource, a: Resource)
    requires TextsOk(t) && b.id == a.id
    requires var item := ResourceSchema(t, inDirs);
             Loads(item, Some(o), ResourceValue(b)) && Fits(item, ResourceValue(b)) && MaySave(item, ResourceValue(a))
    requires FreesUpload(t, o, b, a) && !EmptiesType(b, a)
    ensures var item := ResourceSchema(t, inDirs);
            Loads(item, Merge(Some(o), Some(Encode(item, ResourceValue(b))), Encode(item, ResourceValue(a))),
                  ResourceValue(a.(upload := true)))
  {
    var item := ResourceSchema(t, inDirs);
    ResourceReady(t, inDirs, o, b, a);
    FreedIsPatched(t, inDirs, o, b, a);
    hide Faithful, Known, Fits, ResourceSchema, ResourceValue, SchemaOk, TextsOk, FreesUpload;
    MergeDecodes(item, Some(o), Some(ResourceValue(b)), ResourceValue(a));
  }

  /** An emptied type is simply not written, and the document's is read again. */
  lemma EmptiedTypeComesBack(t: Texts, inDirs: bool, o: Node, b: Resource, a: Resource)
    requires TextsOk(t) && b.id == a.id && o.Mapping? && EmptiesType(b, a)
    requires var item := ResourceSchema(t, inDirs);
             Loads(item, Some(o), ResourceValue(b)) && Fits(item, ResourceValue(b)) && MaySave(item, ResourceValue(a))
    ensures var item := ResourceSchema(t, inDirs);
            var saved := Merge(Some(o), Some(Encode(item, ResourceValue(b))), Encode(item, ResourceValue(a)));
            && saved.Some? && Decode(item, saved).Some?
            && var r := Settle(item, Decode(item, saved).value);
               r.VStruct? && |r.values| == 6 && r.values[TYPE] == VLeaf(Text(b.kind))
  {
    var item, was, now := ResourceSchema(t, inDirs), Some(ResourceValue(b)), ResourceValue(a);
    ResourceFields(t, inDirs, o, b);
    ResourceReady(t, inDirs, o, b, a);
    MergeDecodes(item, Some(o), was, now);
    PatchedStruct(item, Some(o), was, now);
    var p := Patched(item, Some(o), was, now);
    ResourceBranches(t, inDirs);
    ResourceValues(a);
    ResourceKeeps(t, inDirs, b, a, TYPE);
    hide ResourceSchema, ResourceValue, Loads, Fits, TextsOk, Decode, Known, Lost, SchemaOk, Settled, Merge, Encode,
        Omitted, Patched;
    assert p.values[TYPE] == VLeaf(Text(b.kind));
    AdjustedAt(item, p, TYPE);
  }

  // ----- a concrete document -----

  function FileNode(id: string, path: string): Node {
    Mapping([Field("id", Scalar(Text(id))), Field("type", Scalar(Text("file"))), Field("path", Scalar(Text(path))),
             Field("allow_upload", Scalar(Truth(true)))])
  }

  /**
   There is such a document: a single file among the directories, written with uploads allowed. It
   loads without, and turned into a directory without uploads it is read back with uploads.
   */
  lemma FileBecomesDirectory(t: Texts, id: string, path: string)
    requires TextsOk(t) && t.trim(id) == id && t.place(path) == path && id != ""
    ensures var item, o := ResourceSchema(t, true), FileNode(id, path);
            var b, a := Resource(id, id, "file", path, false, false), Resource(id, id, "directory", path, false, false);
            && Loads(item, Some(o), ResourceValue(b)) && Fits(item, ResourceValue(b)) && MaySave(item, ResourceValue(a))
            && Loads(item, Merge(Some(o), Some(Encode(item, ResourceValue(b))), Encode(item, ResourceValue(a))),
                     ResourceValue(a.(upload := true)))
  {
    var item, o := ResourceSchema(t, true), FileNode(id, path);
    var b, a := Resource(id, id, "file", path, false, false), Resource(id, id, "directory", path, false, false);
    FileReads(t, id, id, path);
    FitsResource(t, true, b);
    FitsResource(t, true, a);
    FileNodeFields(id, path);
    assert WritesUpload(t, o);
    hide ResourceSchema, Fits, Settle, Decode, Merge, Encode;
    UploadComesBack(t, true, o, b, a);
  }

  lemma FileNodeFields(id: string, path: string)
    ensures var fields := FileNode(id, path).fields;
            && NoDuplicate(fields)
            && Lookup(fields, "id") == Some(Scalar(Text(id))) && Lookup(fields, "name") == None
            && Lookup(fields, "type") == Some(Scalar(Text("file")))
                && Lookup(fields, "path") == Some(Scalar(Text(path)))
            && Lookup(fields, "allow_download") == None && Lookup(fields, "allow_upload") == Some(Scalar(Truth(true)))
  {
    var fields := FileNode(id, path).fields;
    var upload := [fields[3]];
    var place, kind := [fields[2]] + upload, [fields[1], fields[2]] + upload;
    assert fields[1..] == kind && kind[1..] == place && place[1..] == upload && upload[1..] == [];
    forall key: string
      ensures Lookup(upload, key) == if key == "allow_upload" then Some(Scalar(Truth(true))) else None
      ensures Lookup(place, key) == if key == "path" then Some(Scalar(Text(path))) else Lookup(upload, key)
      ensures Lookup(kind, key) == if key == "type" then Some(Scalar(Text("file"))) else Lookup(place, key)
      ensures Lookup(fields, key) == if key == "id" then Some(Scalar(Text(id))) else Lookup(kind, key)
    {
    }
    assert NoDuplicate(upload) && NoDuplicate(place) && NoDuplicate(kind);
  }

  /** The file is read without uploads, and called by its id as it is read. */
  lemma FileReads(t: Texts, written: string, id: string, path: string)
    requires TextsOk(t) && t.trim(written) == id && t.place(path) == path && id != ""
    ensures Loads(ResourceSchema(t, true), Some(FileNode(written, path)),
            ResourceValue(Resource(id, id, "file", path, false, false)))
  {
    var item, o := ResourceSchema(t, true), FileNode(written, path);
    FileNodeFields(written, path);
    var raw := ResourceValue(Resource(id, "", "file", path, false, true));
    forall j | 0 <= j < 6
      ensures Decode(item.branches[j].schema, NodeField(Some(o), item.branches[j].key)) == Some(raw.values[j])
    {
    }
    DecodesAs(item, Some(o), raw.values);
    var r := ResourceValue(Resource(id, id, "file", path, false, false));
    assert Settle(item, raw).values == r.values;
  }

  lemma FitsResource(t: Texts, inDirs: bool, r: Resource)
    requires TextsOk(t) && t.trim(r.id) == r.id && t.trim(r.name) == r.name && t.place(r.path) == r.path && r.name != ""
    requires ResourceType(t, r.kind, inDirs) == r.kind && !r.upload
    ensures MaySave(ResourceSchema(t, inDirs), ResourceValue(r))
  {
    var item, v := ResourceSchema(t, inDirs), ResourceValue(r);
    forall j | 0 <= j < 6
      ensures Fits(item.branches[j].schema, v.values[j])
    {
    }
    assert Settle(item, v).values == v.values;
  }

  // ----- an id that loading trims -----

  /**
   A resource written with an id that is trimmed when it is loaded: for every such document item, as
   soon as another resource joins the list, the merge looks for the trimmed id, does not find it,
   and fails. ListLostIff says for all lists when this happens.
   */
  lemma UnnormalizedIdLosesItem(t: Texts, inDirs: bool, o: Node, b: Resource, other: Resource)
    requires TextsOk(t) && IdOf(o) != Some(b.id) && other.id != b.id
    requires var item := ResourceSchema(t, inDirs);
             Loads(item, Some(o), ResourceValue(b)) && Fits(item, ResourceValue(b)) && Fits(item, ResourceValue(other))
    ensures var list := Items(ResourceSchema(t, inDirs));
            var doc := Some(Sequence([o]));
            var before, after := VItems([ResourceValue(b)]), VItems([ResourceValue(b), ResourceValue(other)]);
            && Loads(list, doc, before)
            && Merge(doc, Some(Encode(list, before)), Encode(list, after)) == None
  {
    ResourceSchemaOk(t, inDirs);
    assert ItemId(ResourceValue(b)) == b.id && ItemId(ResourceValue(other)) == other.id;
    hide *;
    OneItemLoads(ResourceSchema(t, inDirs), o, ResourceValue(b));
    UnaddressedItemIsLost(ResourceSchema(t, inDirs), o, ResourceValue(b), ResourceValue(other));
  }

  /** An item that the document does not write under its id is lost as soon as another one joins it. */
  lemma UnaddressedItemIsLost(item: Schema, o: Node, v: Value, w: Value)
    requires SchemaOk(Items(item)) && Loads(item, Some(o), v) && Fits(item, v) && Fits(item, w)
    requires IdOf(o) != Some(ItemId(v)) && ItemId(w) != ItemId(v)
    ensures Merge(Some(Sequence([o])), Some(Encode(Items(item), VItems([v]))), Encode(Items(item), VItems([v, w])))
            == None
  {
    OneItemLoads(item, o, v);
    assert FindById([o], ItemId(v)).None? by {
      assert [o][1..] == [];
    }
    assert Fits(Items(item), VItems([v])) && Fits(Items(item), VItems([v, w]));
    assert FindValue(VItems([v]).items, ItemId(v)) == Some(v) && VItems([v, w]).items[0] == v;
    hide Loads, Merge, Encode, SchemaOk, Fits, Settle;
    ListLostIff(item, [o], VItems([v]), VItems([v, w]));
  }

  lemma OneItemLoads(item: Schema, o: Node, v: Value)
    requires Loads(item, Some(o), v)
    ensures Loads(Items(item), Some(Sequence([o])), VItems([v]))
  {
    var d := Decode(item, Some(o)).value;
    ItemsDecodeAs(item, [o], [d]);
    assert Settle(Items(item), VItems([d])).items == [v];
  }

  /** There is such a document: an id with a space around it, in a list with one resource. */
  lemma SpacedIdLoads(t: Texts, written: string, id: string, path: string)
    requires TextsOk(t) && t.trim(written) == id && written != id && t.place(path) == path && id != ""
    ensures var o, b := FileNode(written, path), Resource(id, id, "file", path, false, false);
            && Loads(ResourceSchema(t, true), Some(o), ResourceValue(b))
                && Fits(ResourceSchema(t, true), ResourceValue(b))
            && IdOf(o) == Some(written) && IdOf(o) != Some(b.id)
  {
    FileNodeFields(written, path);
    FileReads(t, written, id, path);
    FitsResource(t, true, Resource(id, id, "file", path, false, false));
  }

  // ----- a limit that cuts another field -----

  /** What the document says of the lifetime, before it is cut. */
  ghost predicate WritesAbove(t: Texts, o: Option<Node>, key: string, default: int, max: int) {
    && o.Some? && o.value.Mapping?
    && exists n :: n > max && Decode(Leaf(IntLeaf(t, default)), NodeField(o, key)) == Some(VLeaf(Number(t, n)))
  }

  lemma LifetimeFields(
    t: Texts, key: string, default: int, maxKey: string, maxDefault: int, o: Option<Node>, ttl: int, max: int)
    requires TextsOk(t) && key != maxKey
    requires Loads(LifetimeSchema(t, key, default, maxKey, maxDefault), o, LifetimeValue(t, ttl, max))
    ensures Decode(Leaf(IntLeaf(t, maxDefault)), NodeField(o, maxKey)) == Some(VLeaf(Number(t, max)))
    ensures exists n ::
            Decode(Leaf(IntLeaf(t, default)), NodeField(o, key)) == Some(VLeaf(Number(t, n))) && ttl == Min(n, max)
  {
    var s := LifetimeSchema(t, key, default, maxKey, maxDefault);
    DecodedStruct(s, o);
    var d := Decode(s, o).value;
    DecodesAs(s, o, d.values);
    assert Settle(s, d).values[0] == Adjusted(s.branches[0], d.values, d.values[0]);
    assert Settle(s, d).values[1] == Adjusted(s.branches[1], d.values, d.values[1]);
    var n := t.number(d.values[0].literal.text);
    assert t.number(t.show(n)) == n && t.number(t.show(max)) == max && t.number(t.show(ttl)) == ttl;
  }

  /**
   A document with a lifetime above its maximum loads with the lifetime cut. Saving a larger maximum
   beside the cut lifetime leaves the old lifetime in the document, and the next load no longer cuts
   it as before. This is the only way: for every section of a document, download leases and token
   lifetimes alike, the save reads back exactly if it is not the case.
   */
  lemma CutLifetimeReverts(
    t: Texts, key: string, default: int, maxKey: string, maxDefault: int, o: Option<Node>,
    ttl: int, max: int, nextTtl: int, nextMax: int)
    requires TextsOk(t) && key != maxKey && nextTtl <= nextMax && (o.Some? || (ttl, max) != (nextTtl, nextMax))
    requires Loads(LifetimeSchema(t, key, default, maxKey, maxDefault), o, LifetimeValue(t, ttl, max))
    ensures var s := LifetimeSchema(t, key, default, maxKey, maxDefault);
            var saved := Merge(o, Some(Encode(s, LifetimeValue(t, ttl, max))),
                Encode(s, LifetimeValue(t, nextTtl, nextMax)));
            && saved.Some?
            && (Loads(s, saved, LifetimeValue(t, nextTtl, nextMax))
                <==> !(WritesAbove(t, o, key, default, max) && nextTtl == max && nextMax > max))
  {
    var s := LifetimeSchema(t, key, default, maxKey, maxDefault);
    var b, a := LifetimeValue(t, ttl, max), LifetimeValue(t, nextTtl, nextMax);
    LifetimeSchemaOk(t, key, default, maxKey, maxDefault);
    LifetimeFits(t, key, default, maxKey, maxDefault, ttl, max);
    LifetimeFits(t, key, default, maxKey, maxDefault, nextTtl, nextMax);
    ItemLostIff(s, o, Some(b), a);
    LifetimesDiffer(t, ttl, max, nextTtl, nextMax);
    LifetimeFaithfulIff(t, key, default, maxKey, maxDefault, o, ttl, max, nextTtl, nextMax);
    hide Loads, Merge, Encode, SchemaOk, Fits, Settle, Faithful, Lost, TextsOk, LifetimeValue;
    LoadedIsKnown(s, o, b, a);
    assert Decode(s, o).Some? by {
      LoadsDecodes(s, o, b);
    }
    MergeLoadsIff(s, o, Some(b), a);
    MergeDecodes(s, o, Some(b), a);
  }

  lemma LoadsDecodes(s: Schema, o: Option<Node>, v: Value)
    requires Loads(s, o, v)
    ensures Decode(s, o).Some?
  {
  }

  lemma LifetimeFits(t: Texts, key: string, default: int, maxKey: string, maxDefault: int, ttl: int, max: int)
    requires TextsOk(t)
    ensures var s := LifetimeSchema(t, key, default, maxKey, maxDefault);
            Fits(s, LifetimeValue(t, ttl, max)) && (ttl <= max ==> Settled(s, LifetimeValue(t, ttl, max)))
  {
    var s, v := LifetimeSchema(t, key, default, maxKey, maxDefault), LifetimeValue(t, ttl, max);
    assert t.number(t.show(max)) == max && t.number(t.show(ttl)) == ttl;
    forall i | 0 <= i < 2
      ensures Fits(s.branches[i].schema, v.values[i])
    {
    }
    if ttl <= max {
      assert Settle(s, v).values == v.values;
    }
  }

  lemma LifetimesDiffer(t: Texts, ttl: int, max: int, nextTtl: int, nextMax: int)
    requires TextsOk(t)
    ensures LifetimeValue(t, ttl, max) == LifetimeValue(t, nextTtl, nextMax) <==> ttl == nextTtl && max == nextMax
    ensures Number(t, ttl) == Number(t, nextTtl) <==> ttl == nextTtl
    ensures Number(t, max) == Number(t, nextMax) <==> max == nextMax
  {
    assert t.number(t.show(max)) == max && t.number(t.show(ttl)) == ttl;
    assert t.number(t.show(nextMax)) == nextMax && t.number(t.show(nextTtl)) == nextTtl;
    assert LifetimeValue(t, ttl, max).values[0] == VLeaf(Number(t, ttl))
        && LifetimeValue(t, ttl, max).values[1] == VLeaf(Number(t, max));
    assert LifetimeValue(t, nextTtl, nextMax).values[0] == VLeaf(Number(t, nextTtl));
    assert LifetimeValue(t, nextTtl, nextMax).values[1] == VLeaf(Number(t, nextMax));
  }

  lemma LifetimeFaithfulIff(
    t: Texts, key: string, default: int, maxKey: string, maxDefault: int, o: Option<Node>,
    ttl: int, max: int, nextTtl: int, nextMax: int)
    requires TextsOk(t) && key != maxKey && nextTtl <= nextMax
    requires Loads(LifetimeSchema(t, key, default, maxKey, maxDefault), o, LifetimeValue(t, ttl, max))
    ensures Faithful(LifetimeSchema(t, key, default, maxKey, maxDefault), o, Some(LifetimeValue(t, ttl, max)),
            LifetimeValue(t, nextTtl, nextMax))
            <==> !(WritesAbove(t, o, key, default, max) && nextTtl == max && nextMax > max)
  {
    var s := LifetimeSchema(t, key, default, maxKey, maxDefault);
    var b, a := Some(LifetimeValue(t, ttl, max)), LifetimeValue(t, nextTtl, nextMax);
    LifetimeFields(t, key, default, maxKey, maxDefault, o, ttl, max);
    LifetimesDiffer(t, ttl, max, nextTtl, nextMax);
    var part := NodeField(o, key);
    var n :| Decode(Leaf(IntLeaf(t, default)), part) == Some(VLeaf(Number(t, n))) && ttl == Min(n, max);
    LifetimesDiffer(t, n, max, nextTtl, nextMax);
    if o.Some? && o.value.Mapping? {
      assert WritesAbove(t, o, key, default, max) <==> n > max by {
        forall m | Decode(Leaf(IntLeaf(t, default)), part) == Some(VLeaf(Number(t, m)))
          ensures m == n
        {
          LifetimesDiffer(t, m, max, n, max);
        }
      }
      hide Decode, Loads, TextsOk, WritesAbove, Number;
      assert FieldFaithful(s, o, b, a, 1);
      assert KeptBesideChange(s.branches[0], b, a, 0) <==> ttl == nextTtl && max != nextMax;
      assert FieldFaithful(s, o, b, a, 0) <==> (ttl == nextTtl && max != nextMax ==> n == nextTtl);
      assert Faithful(s, o, b, a) <==> FieldFaithful(s, o, b, a, 0) && FieldFaithful(s, o, b, a, 1);
    }
  }
}
