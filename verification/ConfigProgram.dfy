/**
 The program's own configuration: how it reads resources in its two lists, and the lifetimes that
 are cut to a maximum next to them. Other sections may be anything.

 Trimming, lower case, the resolution of paths and the text form of numbers are parameters.
 */
module ConfigProgram {
  import opened Basics
  import opened ConfigTree
  import opened ConfigSchema
  import opened ConfigCarry

  datatype Texts = Texts(
    trim: string -> string, lower: string -> string, place: string -> string,
    truth: string -> bool, number: string -> int, show: int -> string)

  ghost predicate TextsOk(t: Texts) {
    && (forall x :: t.trim(t.trim(x)) == t.trim(x))
    && (forall x :: Folded(t, Folded(t, x)) == Folded(t, x))
    && Folded(t, "") == "" && Folded(t, "directory") == "directory" && Folded(t, "file") == "file"
    && t.trim("") == "" && t.place("") == "" && (forall x :: t.place(t.place(x)) == t.place(x))
    && t.truth("true") && !t.truth("false")
    && (forall n :: t.number(t.show(n)) == n)
  }

  function Folded(t: Texts, x: string): string {
    t.lower(t.trim(x))
  }

  // ----- scalars -----

  function TextLeaf(f: string -> string): LeafSpec {
    LeafSpec((l: Literal) => Some(Literal(Str, f(l.text))), Literal(Str, ""))
  }

  function BoolLeaf(t: Texts): LeafSpec {
    LeafSpec((l: Literal) => if l.tag == Bool then Some(Truth(t.truth(l.text))) else None, Truth(false))
  }

  function IntLeaf(t: Texts, default: int): LeafSpec {
    LeafSpec((l: Literal) => if l.tag == Int then Some(Number(t, t.number(l.text))) else None, Number(t, default))
  }

  function Text(s: string): Literal {
    Literal(Str, s)
  }

  function Truth(yes: bool): Literal {
    Literal(Bool, if yes then "true" else "false")
  }

  function Number(t: Texts, n: int): Literal {
    Literal(Int, t.show(n))
  }

  // ----- what depends on a neighbour -----

  function Alone(x: Literal, c: Literal): Literal {
    x
  }

  /** A resource without a name is called by its id. */
  function NamedById(name: Literal, id: Literal): Literal {
    if name.text == "" then Text(id.text) else name
  }

  /** Nothing is uploaded to a single file. */
  function NoUploadToFile(upload: Literal, kind: Literal): Literal {
    if kind.text == "file" then Truth(false) else upload
  }

  function CutTo(t: Texts): (Literal, Literal) -> Literal {
    (x: Literal, max: Literal) => if t.number(x.text) > t.number(max.text) then max else x
  }

  // ----- resources -----

  /** normalizeResourceType: in the list of directories an empty type means directory. */
  function ResourceType(t: Texts, written: string, inDirs: bool): string {
    var kind := Folded(t, written);
    if kind == "dir" || kind == "folder" || (kind == "" && inDirs) then "directory" else kind
  }

  function TypeLeaf(t: Texts, inDirs: bool): LeafSpec {
    TextLeaf((x: string) => ResourceType(t, x, inDirs))
  }

  const ID := 0
  const NAME := 1
  const TYPE := 2
  const PATH := 3
  const DOWNLOAD := 4
  const UPLOAD := 5

  function ResourceSchema(t: Texts, inDirs: bool): Schema {
    Struct([
      Branch("id", Leaf(TextLeaf(t.trim)), false, None, Alone),
      Branch("name", Leaf(TextLeaf(t.trim)), false, Some(ID), NamedById),
      Branch("type", Leaf(TypeLeaf(t, inDirs)), true, None, Alone),
      Branch("path", Leaf(TextLeaf(t.place)), false, None, Alone),
      Branch("allow_download", Leaf(BoolLeaf(t)), false, None, Alone),
      Branch("allow_upload", Leaf(BoolLeaf(t)), false, Some(TYPE), NoUploadToFile)])
  }

  datatype Resource = Resource(id: string, name: string, kind: string, path: string, download: bool, upload: bool)

  function ResourceValue(r: Resource): Value {
    VStruct([VLeaf(Text(r.id)), VLeaf(Text(r.name)), VLeaf(Text(r.kind)), VLeaf(Text(r.path)),
             VLeaf(Truth(r.download)), VLeaf(Truth(r.upload))])
  }

  // ----- lifetimes -----

  /** A lifetime and the maximum it is cut to. */
  function LifetimeSchema(t: Texts, key: string, default: int, maxKey: string, maxDefault: int): Schema {
    Struct([
      Branch(key, Leaf(IntLeaf(t, default)), false, Some(1), CutTo(t)),
      Branch(maxKey, Leaf(IntLeaf(t, maxDefault)), false, None, Alone)])
  }

  function LifetimeValue(t: Texts, ttl: int, max: int): Value {
    VStruct([VLeaf(Number(t, ttl)), VLeaf(Number(t, max))])
  }

  function DownloadsSchema(t: Texts): Schema {
    LifetimeSchema(t, "lease_ttl_seconds", 7200, "lease_max_ttl_seconds", 21600)
  }

  function TokensSchema(t: Texts): Schema {
    LifetimeSchema(t, "default_ttl_seconds", 3600, "max_ttl_seconds", 86400)
  }

  // ----- the whole configuration -----

  /** Further fields that depend on nothing. */
  ghost predicate StandAlone(branches: seq<Branch>) {
    forall i | 0 <= i < |branches| :: SchemaOk(branches[i].schema) && branches[i].dependsOn.None?
      && (branches[i].omitEmpty ==> branches[i].schema.Leaf?)
  }

  function StorageBranches(t: Texts, more: seq<Branch>): seq<Branch> {
    [Branch("dirs", Items(ResourceSchema(t, true)), false, None, Alone),
     Branch("shares", Items(ResourceSchema(t, false)), false, None, Alone)] + more
  }

  function TopBranches(t: Texts, storage: seq<Branch>, more: seq<Branch>): seq<Branch> {
    [Branch("storage", Struct(StorageBranches(t, storage)), false, None, Alone),
     Branch("downloads", DownloadsSchema(t), false, None, Alone),
     Branch("tokens", TokensSchema(t), false, None, Alone)] + more
  }

  function ProgramRoot(t: Texts, storage: seq<Branch>, more: seq<Branch>): Root {
    Root(Struct(TopBranches(t, storage, more)), 0, 0, 1)
  }

  // ----- it is such a configuration as the laws of saving are about -----

  lemma TextLeafOk(f: string -> string)
    requires forall x :: f(f(x)) == f(x)
    ensures SchemaOk(Leaf(TextLeaf(f))) && IdLeafOk(TextLeaf(f))
  {
    var leaf := TextLeaf(f);
    forall l: Literal
      ensures leaf.read(leaf.read(l).value) == leaf.read(l)
    {
      assert leaf.read(l) == Some(Text(f(l.text)));
      assert f(f(l.text)) == f(l.text);
    }
  }

  lemma ScalarsOk(t: Texts, n: int)
    requires TextsOk(t)
    ensures SchemaOk(Leaf(TextLeaf(t.trim))) && SchemaOk(Leaf(TextLeaf(t.place))) && IdLeafOk(TextLeaf(t.trim))
    ensures SchemaOk(Leaf(BoolLeaf(t))) && SchemaOk(Leaf(IntLeaf(t, n)))
  {
    TextLeafOk(t.trim);
    TextLeafOk(t.place);
    var yes, number := BoolLeaf(t), IntLeaf(t, n);
    forall l: Literal | yes.read(l).Some?
      ensures yes.read(yes.read(l).value) == yes.read(l)
    {
      assert yes.read(l) == Some(Truth(t.truth(l.text)));
    }
    forall l: Literal | number.read(l).Some?
      ensures number.read(number.read(l).value) == number.read(l)
    {
      assert number.read(l) == Some(Number(t, t.number(l.text)));
      assert t.number(t.show(t.number(l.text))) == t.number(l.text);
    }
  }

  lemma TypeOk(t: Texts, inDirs: bool)
    requires TextsOk(t)
    ensures SchemaOk(Leaf(TypeLeaf(t, inDirs)))
    ensures forall x :: ResourceType(t, ResourceType(t, x, inDirs), inDirs) == ResourceType(t, x, inDirs)
  {
    forall x
      ensures ResourceType(t, ResourceType(t, x, inDirs), inDirs) == ResourceType(t, x, inDirs)
    {
      assert Folded(t, Folded(t, x)) == Folded(t, x);
    }
    TextLeafOk((x: string) => ResourceType(t, x, inDirs));
  }

  lemma NameAdjusts(t: Texts)
    requires TextsOk(t)
    ensures AdjustOk(Leaf(TextLeaf(t.trim)), Leaf(TextLeaf(t.trim)), NamedById)
  {
  }

  lemma UploadAdjusts(t: Texts, inDirs: bool)
    requires TextsOk(t)
    ensures AdjustOk(Leaf(BoolLeaf(t)), Leaf(TypeLeaf(t, inDirs)), NoUploadToFile)
  {
  }

  lemma LifetimeAdjusts(t: Texts, n: int, m: int)
    requires TextsOk(t)
    ensures AdjustOk(Leaf(IntLeaf(t, n)), Leaf(IntLeaf(t, m)), CutTo(t))
  {
  }

  lemma ResourceSchemaOk(t: Texts, inDirs: bool)
    requires TextsOk(t)
    ensures SchemaOk(ResourceSchema(t, inDirs)) && ItemSchemaOk(ResourceSchema(t, inDirs))
    ensures SchemaOk(Items(ResourceSchema(t, inDirs)))
  {
    ScalarsOk(t, 0);
    TypeOk(t, inDirs);
    NameAdjusts(t);
    UploadAdjusts(t, inDirs);
  }

  lemma LifetimeSchemaOk(t: Texts, key: string, default: int, maxKey: string, maxDefault: int)
    requires TextsOk(t) && key != maxKey
    ensures SchemaOk(LifetimeSchema(t, key, default, maxKey, maxDefault))
  {
    ScalarsOk(t, default);
    ScalarsOk(t, maxDefault);
    LifetimeAdjusts(t, default, maxDefault);
  }

  /** The two lists read the type of a resource differently, and are written alike all the same. */
  lemma ListsHaveSameShape(t: Texts)
    requires TextsOk(t)
    ensures SameShape(ResourceSchema(t, true), ResourceSchema(t, false))
    ensures ResourceSchema(t, true) != ResourceSchema(t, false)
  {
    assert TypeLeaf(t, true).read(Text("")) != TypeLeaf(t, false).read(Text(""));
  }

  lemma StandAloneOk(branches: seq<Branch>)
    requires DistinctKeys(branches) && StandAlone(branches)
    ensures SchemaOk(Struct(branches))
  {
  }

  lemma StorageOk(t: Texts, more: seq<Branch>)
    requires TextsOk(t) && StandAlone(more) && DistinctKeys(StorageBranches(t, more))
    ensures SchemaOk(Struct(StorageBranches(t, more)))
  {
    ResourceSchemaOk(t, true);
    ResourceSchemaOk(t, false);
    hide ResourceSchema, SchemaOk;
    StandAloneOk(StorageBranches(t, more));
  }

  /**
   The configuration of the program, with any further fields that depend on nothing, meets what the
   laws of saving ask.
   */
  lemma ProgramRootOk(t: Texts, storage: seq<Branch>, more: seq<Branch>)
    requires TextsOk(t) && StandAlone(storage) && StandAlone(more)
    requires DistinctKeys(StorageBranches(t, storage)) && DistinctKeys(TopBranches(t, storage, more))
    ensures RootOk(ProgramRoot(t, storage, more))
  {
    StorageOk(t, storage);
    ListsHaveSameShape(t);
    LifetimeSchemaOk(t, "lease_ttl_seconds", 7200, "lease_max_ttl_seconds", 21600);
    LifetimeSchemaOk(t, "default_ttl_seconds", 3600, "max_ttl_seconds", 86400);
    hide ResourceSchema, LifetimeSchema, SameShape, SchemaOk, DistinctKeys;
    assert StandAlone(TopBranches(t, storage, more));
    StandAloneOk(TopBranches(t, storage, more));
  }
}
