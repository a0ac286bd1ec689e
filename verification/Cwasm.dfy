/** The compiled-component cache: a content-addressed object store with an index per engine. */
module Cwasm {
  import opened Text
  import opened FileTree

  const MAX_INDEX_BYTES: nat := 4096
  const MAX_CWASM_BYTES: nat := 512 * 1024 * 1024
  const MAX_CACHE_BYTES: nat := 2 * 1024 * 1024 * 1024
  const MAX_CACHE_OBJECTS: nat := 1024

  datatype Component = Component(id: nat)

  /** What compiling and mapping give, per engine; what is not listed fails. */
  datatype Toolchain = Toolchain(
    artifacts: map<(string, Content), Content>,
    components: map<(string, Content), Component>)
  {
    function Compile(engine: string, wasm: Content): Option<Content> {
      if (engine, wasm) in artifacts then Some(artifacts[(engine, wasm)]) else None
    }

    function Deserialize(engine: string, artifact: Content): Option<Component> {
      if (engine, artifact) in components then Some(components[(engine, artifact)]) else None
    }

    /** What a source is without any cache. */
    function Direct(engine: string, wasm: Content): Option<Component> {
      match Compile(engine, wasm)
      case None => None
      case Some(artifact) => Deserialize(engine, artifact)
    }
  }

  /** Why an operation failed: an I/O fault other than a missing file, or anything else. */
  datatype Why = Unreadable | Unusable

  datatype Result<+T> = Success(value: T) | Failure(why: Why)

  datatype Lookup = Mapped(component: Component) | NotCached

  datatype Publication = Hit | Compiled | Repaired

  // Files two levels below the cache root.

  datatype Found = Missing | Faulty | Holds(content: Content)

  function ReadFile(root: Listing, dir: Name, file: Name): Found {
    if dir !in root then Missing
    else if root[dir].File? then Faulty
    else if file !in root[dir].entries then Missing
    else
      match root[dir].entries[file]
      case File(content) => Holds(content)
      case Dir(_) => Faulty
  }

  function EntriesOf(root: Listing, dir: Name): Listing {
    if dir in root && root[dir].Dir? then root[dir].entries else map[]
  }

  function WithFile(root: Listing, dir: Name, file: Name, content: Content): Listing {
    root[dir := Dir(EntriesOf(root, dir)[file := File(content)])]
  }

  function WithoutFile(root: Listing, dir: Name, file: Name): Listing
    requires ReadFile(root, dir, file).Holds?
  {
    root[dir := Dir(root[dir].entries - {file})]
  }

  function WithDir(root: Listing, dir: Name): Listing {
    if dir in root then root else root[dir := Dir(map[])]
  }

  /** The root without this file, if it is one. */
  function Without(root: Listing, dir: Name, file: Name): Listing {
    if ReadFile(root, dir, file).Holds? then WithoutFile(root, dir, file) else root
  }

  class Disk {
    var root: Listing

    constructor ()
      ensures root == map[]
    {
      root := map[];
    }

    method CreateDir(dir: Name) returns (ok: bool)
      modifies this
      ensures ok <==> dir !in old(root) || old(root)[dir].Dir?
      ensures root == WithDir(old(root), dir)
    {
      ok := dir !in root || root[dir].Dir?;
      if dir !in root {
        root := root[dir := Dir(map[])];
      }
    }

    /** Writes a file nobody has seen yet; an existing path is left alone and refused. */
    method PublishNew(dir: Name, file: Name, content: Content) returns (ok: bool)
      modifies this
      ensures ok <==> dir in old(root) && old(root)[dir].Dir? && ReadFile(old(root), dir, file).Missing?
      ensures root == if ok then WithFile(old(root), dir, file, content) else old(root)
    {
      ok := dir in root && root[dir].Dir? && file !in root[dir].entries;
      if ok {
        root := WithFile(root, dir, file, content);
      }
    }

    method RemoveFile(dir: Name, file: Name) returns (ok: bool)
      modifies this
      ensures ok <==> ReadFile(old(root), dir, file).Holds?
      ensures root == if ok then WithoutFile(old(root), dir, file) else old(root)
    {
      ok := ReadFile(root, dir, file).Holds?;
      if ok {
        root := WithoutFile(root, dir, file);
      }
    }
  }

  // Index entries.

  function Digits(n: nat): nat {
    if n < 10 then 1 else 1 + Digits(n / 10)
  }

  /** The bytes of an entry as it is written: two fields, a 64-character digest and a number. */
  function IndexFile(entry: Entry): Content {
    Json(entry, 86 + Digits(entry.bytes))
  }

  function PowerOfTen(k: nat): nat {
    if k == 0 then 1 else 10 * PowerOfTen(k - 1)
  }

  lemma {:induction false} DigitsBound(n: nat, k: nat)
    requires 0 < k && n < PowerOfTen(k)
    ensures Digits(n) <= k
  {
    if 10 <= n {
      assert 1 < k;
      DigitsBound(n / 10, k - 1);
    }
  }

  function ParseEntry(content: Content): Option<Entry> {
    match content
    case Json(entry, _) => if 0 < entry.bytes <= MAX_CWASM_BYTES then Some(entry) else None
    case Raw(_) => None
  }

  function ReadEntry(root: Listing, engine: string, source: Digest): Result<Option<Entry>> {
    match ReadFile(root, Engine(engine), Index(source))
    case Missing => Success(None)
    case Faulty => Failure(Unreadable)
    case Holds(content) =>
      if MAX_INDEX_BYTES < Len(content) then Failure(Unusable)
      else
        match ParseEntry(content)
        case Some(entry) => Success(Some(entry))
        case None => Failure(Unusable)
  }

  /** The file is an index of at most 4096 bytes that names an object of at most 512 MiB and not of none. */
  ghost predicate IsIndex(found: Found, entry: Entry) {
    && found.Holds? && found.content.Json? && found.content.entry == entry && found.content.size <= 4096
    && 0 < entry.bytes <= 536870912
  }

  lemma ReadEntryMeans(root: Listing, engine: string, source: Digest)
    ensures var found := ReadFile(root, Engine(engine), Index(source));
            match ReadEntry(root, engine, source)
            case Success(Some(entry)) => IsIndex(found, entry)
            case Success(None) => found.Missing?
            case Failure(Unreadable) => found.Faulty?
            case Failure(Unusable) => found.Holds? && forall entry :: !IsIndex(found, entry)
  {
  }

  /** Checks an object against the length and digest its entry claims. */
  function Verify(root: Listing, entry: Entry): Result<()> {
    match ReadFile(root, Objects, Object(entry.sha))
    case Missing => Failure(Unusable)
    case Faulty => Failure(Unreadable)
    case Holds(content) =>
      if Len(content) == entry.bytes && Digest(content) == entry.sha then Success(()) else Failure(Unusable)
  }

  function MapObject(tools: Toolchain, root: Listing, engine: string, entry: Entry): Option<Component> {
    match ReadFile(root, Objects, Object(entry.sha))
    case Holds(content) => tools.Deserialize(engine, content)
    case _ => None
  }

  /** What a load answers, and nothing else: the disk, what is mapped already, and the source decide. */
  function Load(tools: Toolchain, root: Listing, engine: string, loaded: map<Digest, Component>, source: Digest)
    : Result<Lookup>
  {
    match ReadEntry(root, engine, source)
    case Failure(why) => Failure(why)
    case Success(None) => Success(NotCached)
    case Success(Some(entry)) =>
      if entry.sha in loaded then Success(Mapped(loaded[entry.sha]))
      else
        match Verify(root, entry)
        case Failure(why) => Failure(why)
        case Success(_) =>
          match MapObject(tools, root, engine, entry)
          case Some(component) => Success(Mapped(component))
          case None => Failure(Unusable)
  }

  predicate Maps(looked: Result<Lookup>) {
    looked.Success? && looked.value.Mapped?
  }

  /** What stays mapped after a load: one component more, if the source loads. */
  function Remembered(tools: Toolchain, root: Listing, engine: string, loaded: map<Digest, Component>, source: Digest)
    : map<Digest, Component>
  {
    match (ReadEntry(root, engine, source), Load(tools, root, engine, loaded, source))
    case (Success(Some(entry)), Success(Mapped(component))) => loaded[entry.sha := component]
    case _ => loaded
  }

  /** What is stored where the index says. */
  function Named(root: Listing, entry: Entry): Found {
    ReadFile(root, Objects, Object(entry.sha))
  }

  /**
   * A source maps exactly if its index is well formed and the object it names is mapped already, or is
   * stored with just the length and the digest the index states and deserializes. It is not cached
   * exactly if it has no index, and cannot be read if a directory is in the place of a file that is needed.
   */
  lemma LoadMeans(tools: Toolchain, root: Listing, engine: string, loaded: map<Digest, Component>, source: Digest)
    ensures var found := ReadFile(root, Engine(engine), Index(source));
            match Load(tools, root, engine, loaded, source)
            case Success(Mapped(component)) =>
              exists entry :: IsIndex(found, entry)
                && if entry.sha in loaded then component == loaded[entry.sha]
                   else
                     && Named(root, entry).Holds? && Len(Named(root, entry).content) == entry.bytes
                     && Digest(Named(root, entry).content) == entry.sha
                     && tools.Deserialize(engine, Named(root, entry).content) == Some(component)
            case Success(NotCached) => found.Missing?
            case Failure(why) =>
              && !found.Missing?
              && (forall entry | IsIndex(found, entry) ::
                    && entry.sha !in loaded
                    && (Named(root, entry) == Holds(entry.sha.of) && Len(entry.sha.of) == entry.bytes ==>
                          tools.Deserialize(engine, entry.sha.of).None?))
              && (why.Unreadable? <==>
                  found.Faulty? || exists entry :: IsIndex(found, entry) && Named(root, entry).Faulty?)
  {
    ReadEntryMeans(root, engine, source);
    hide ReadEntry;
  }

  /** An index that can be read binds a source to what the engine makes of it. */
  ghost predicate Binds(tools: Toolchain, engine: string, source: Digest, found: Found) {
    match found
    case Holds(Json(entry, _)) =>
      0 < entry.bytes <= MAX_CWASM_BYTES ==>
        tools.Compile(engine, source.of) == Some(entry.sha.of) && entry.bytes == Len(entry.sha.of)
    case _ => true
  }

  /** No index was forged. Objects may be anything. */
  ghost predicate Trusted(tools: Toolchain, root: Listing) {
    forall engine, source :: Binds(tools, engine, source, ReadFile(root, Engine(engine), Index(source)))
  }

  /** Whatever is mapped is what its digest says. */
  ghost predicate MapsTruly(tools: Toolchain, engine: string, loaded: map<Digest, Component>) {
    forall sha | sha in loaded :: tools.Deserialize(engine, sha.of) == Some(loaded[sha])
  }

  /** A component that a load returns is the one that compiling the source directly gives. */
  lemma LoadAgrees(tools: Toolchain, root: Listing, engine: string, loaded: map<Digest, Component>, source: Digest)
    requires Trusted(tools, root) && MapsTruly(tools, engine, loaded)
    ensures match Load(tools, root, engine, loaded, source)
            case Success(Mapped(component)) => tools.Direct(engine, source.of) == Some(component)
            case _ => true
  {
    assert Binds(tools, engine, source, ReadFile(root, Engine(engine), Index(source)));
  }

  // Capacity.

  function NodeLen(node: Node): nat {
    if node.File? then Len(node.content) else 0
  }

  function Sizes(objects: Listing): map<Name, nat> {
    map name | name in objects :: NodeLen(objects[name])
  }

  /** An empty directory takes anything; otherwise the new object must fit both limits. */
  ghost predicate HasCapacity(objects: Listing, requested: nat) {
    || objects == map[]
    || (|objects| < MAX_CACHE_OBJECTS && requested + Total(Sizes(objects)) <= MAX_CACHE_BYTES)
  }

  lemma SizesTake(objects: Listing, name: Name)
    requires name in objects
    ensures Total(Sizes(objects)) == NodeLen(objects[name]) + Total(Sizes(objects - {name}))
    ensures |objects| == 1 + |objects - {name}|
  {
    assert Sizes(objects) - {name} == Sizes(objects - {name});
    TotalPicks(Sizes(objects), name);
    assert (objects - {name}).Keys == objects.Keys - {name};
  }

  /** The lengths of these files, directories counting nothing. */
  function LengthsOf(objects: Listing, names: seq<Name>): nat {
    if names == [] then 0
    else LengthsOf(objects, names[..|names| - 1]) + LengthOf(objects, names[|names| - 1])
  }

  function LengthOf(objects: Listing, name: Name): nat {
    if name !in objects then 0
    else
      match objects[name]
      case File(Raw(bytes)) => |bytes|
      case File(Json(_, size)) => size
      case Dir(_) => 0
  }

  /** These are the names of the entries, each once. */
  ghost predicate Enumerates(names: seq<Name>, objects: Listing) {
    && (forall name | name in names :: name in objects)
    && (forall name | name in objects :: name in names)
    && forall i, j | 0 <= i < j < |names| :: names[i] != names[j]
  }

  lemma EnumeratesFewer(names: seq<Name>, objects: Listing)
    requires Enumerates(names, objects)
    ensures names == [] ==> objects == map[]
    ensures names != [] ==>
      && names[|names| - 1] in objects && names[|names| - 1] !in names[..|names| - 1]
      && Enumerates(names[..|names| - 1], objects - {names[|names| - 1]})
  {
    if names != [] {
      var front, last := names[..|names| - 1], names[|names| - 1];
      forall name | name in objects && name != last ensures name in front {
        var i :| 0 <= i < |names| && names[i] == name;
        assert front[i] == name;
      }
    }
  }

  /** Listed in any order, the lengths add up to the total. */
  lemma {:induction false} TotalIsSum(objects: Listing, names: seq<Name>)
    requires Enumerates(names, objects)
    ensures Total(Sizes(objects)) == LengthsOf(objects, names) && |objects| == |names|
    decreases |names|
  {
    hide Enumerates;
    EnumeratesFewer(names, objects);
    if names == [] {
      assert Sizes(objects) == map[];
    } else {
      var front, last := names[..|names| - 1], names[|names| - 1];
      SizesTake(objects, last);
      TotalIsSum(objects - {last}, front);
      SameLengths(objects, last, front);
    }
  }

  lemma {:induction false} SameLengths(objects: Listing, name: Name, names: seq<Name>)
    requires name !in names
    ensures LengthsOf(objects, names) == LengthsOf(objects - {name}, names)
  {
    if names != [] {
      SameLengths(objects, name, names[..|names| - 1]);
    }
  }

  /** Walks the objects in any order and stops at the first that fills the cache. */
  method EnsureCapacity(objects: Listing, requested: nat) returns (ok: bool)
    requires requested <= MAX_CWASM_BYTES
    ensures ok <==> HasCapacity(objects, requested)
    ensures objects == map[] ==> ok
    ensures |objects| < 1024 && requested + Total(Sizes(objects)) <= 2147483648 ==> ok
    ensures objects != map[] && (1024 <= |objects| || 2147483648 < requested + Total(Sizes(objects))) ==> !ok
  {
    var bytes: nat, count: nat, rest := requested, 0, objects;
    while rest != map[]
      invariant count + |rest| == |objects|
      invariant bytes + Total(Sizes(rest)) == requested + Total(Sizes(objects))
      invariant 0 < count ==> count < MAX_CACHE_OBJECTS && bytes <= MAX_CACHE_BYTES
      decreases |rest|
    {
      var name :| name in rest;
      SizesTake(rest, name);
      bytes := Saturating(bytes + NodeLen(rest[name]));
      if !(count + 1 < MAX_CACHE_OBJECTS && bytes <= MAX_CACHE_BYTES) {
        return false;
      }
      count, rest := count + 1, rest - {name};
    }
    assert Sizes(rest) == map[];
    ok := true;
  }

  ghost predicate WithinLimits(objects: Listing) {
    |objects| <= MAX_CACHE_OBJECTS && Total(Sizes(objects)) <= MAX_CACHE_BYTES
  }

  /** One publication after the check stays within both limits, though the check skips an empty store. */
  lemma CapacityIsEnough(objects: Listing, name: Name, content: Content)
    requires HasCapacity(objects, Len(content)) && name !in objects && Len(content) <= MAX_CWASM_BYTES
    ensures WithinLimits(objects[name := File(content)])
  {
    var more := objects[name := File(content)];
    SizesTake(more, name);
    assert more - {name} == objects;
    if objects == map[] {
      assert Sizes(objects) == map[];
    }
  }

  lemma CapacityAfterRemoval(objects: Listing, name: Name, requested: nat)
    requires name in objects
    ensures HasCapacity(objects, requested) ==> HasCapacity(objects - {name}, requested)
    ensures WithinLimits(objects) ==> WithinLimits(objects - {name})
  {
    SizesTake(objects, name);
  }

  // What publishing does to the disk.

  function EntryOf(artifact: Content): Entry {
    Entry(Digest(artifact), Len(artifact))
  }

  /** Nothing is in the way of a directory here. */
  predicate DirFree(root: Listing, dir: Name) {
    dir !in root || root[dir].Dir?
  }

  predicate Intact(root: Listing, sha: Digest) {
    ReadFile(root, Objects, Object(sha)) == Holds(sha.of)
  }

  /** The root without this object, if what is stored under its digest is something else. */
  function WithoutDamaged(root: Listing, sha: Digest): Listing {
    if Intact(root, sha) then root else Without(root, Objects, Object(sha))
  }

  /** The root without the damaged object this source's index names, if it names one. */
  function ObjectCleared(root: Listing, engine: string, source: Digest): Listing {
    match ReadFile(root, Engine(engine), Index(source))
    case Holds(content) =>
      (match ParseEntry(content)
       case Some(entry) => WithoutDamaged(root, entry.sha)
       case None => root)
    case _ => root
  }

  /** What a repair leaves: a damaged object goes, and then the index that named it. */
  function Cleared(root: Listing, engine: string, source: Digest): Listing {
    Without(ObjectCleared(root, engine, source), Engine(engine), Index(source))
  }

  /** The index, or the object it names, is there but cannot be read. */
  predicate IndexUnreadable(root: Listing, engine: string, source: Digest) {
    match ReadFile(root, Engine(engine), Index(source))
    case Missing => false
    case Faulty => true
    case Holds(content) =>
      ParseEntry(content).Some? && ReadFile(root, Objects, Object(ParseEntry(content).value.sha)).Faulty?
  }

  /** Something else is stored under this digest. */
  predicate Damaged(root: Listing, sha: Digest) {
    ReadFile(root, Objects, Object(sha)).Holds? && !Intact(root, sha)
  }

  /** There is a place for the index, and for the object unless it is there already. */
  ghost predicate Storable(root: Listing, engine: string, artifact: Content) {
    && DirFree(root, Engine(engine))
    && (Intact(root, Digest(artifact))
        || (DirFree(root, Objects) && HasCapacity(EntriesOf(root, Objects), Len(artifact))))
  }

  /** What writing an artifact and then its index leaves, as far as it gets. */
  ghost function Stored(root: Listing, engine: string, source: Digest, artifact: Content): Listing {
    if !DirFree(root, Engine(engine)) then root
    else
      var entered := WithDir(root, Engine(engine));
      if Intact(root, Digest(artifact)) then Indexed(entered, engine, source, artifact)
      else
        var listed := WithDir(entered, Objects);
        if !Storable(root, engine, artifact) then listed
        else Indexed(WithFile(listed, Objects, Object(Digest(artifact)), artifact), engine, source, artifact)
  }

  function Indexed(root: Listing, engine: string, source: Digest, artifact: Content): Listing {
    WithFile(root, Engine(engine), Index(source), IndexFile(EntryOf(artifact)))
  }

  /** An artifact can be installed exactly when what is stored under its digest can be read or is not there. */
  ghost predicate Installable(tools: Toolchain, root: Listing, engine: string, artifact: Content) {
    && !ReadFile(root, Objects, Object(Digest(artifact))).Faulty?
    && Storable(WithoutDamaged(root, Digest(artifact)), engine, artifact)
    && tools.Deserialize(engine, artifact).Some?
  }

  ghost function Installed(root: Listing, engine: string, source: Digest, artifact: Content): Listing {
    if ReadFile(root, Objects, Object(Digest(artifact))).Faulty? then root
    else Stored(WithoutDamaged(root, Digest(artifact)), engine, source, artifact)
  }

  /** Whether a source that does not load can be published, and what trying leaves on disk. */
  ghost predicate Publishable(tools: Toolchain, root: Listing, engine: string, wasm: Content) {
    && !IndexUnreadable(root, engine, Digest(wasm))
    && match tools.Compile(engine, wasm)
       case None => false
       case Some(artifact) =>
         && Len(artifact) <= MAX_CWASM_BYTES
         && Installable(tools, Cleared(root, engine, Digest(wasm)), engine, artifact)
  }

  ghost function Published(tools: Toolchain, root: Listing, engine: string, wasm: Content): Listing {
    if IndexUnreadable(root, engine, Digest(wasm)) then root
    else
      var cleared := Cleared(root, engine, Digest(wasm));
      match tools.Compile(engine, wasm)
      case None => cleared
      case Some(artifact) =>
        if MAX_CWASM_BYTES < Len(artifact) then cleared else Installed(cleared, engine, Digest(wasm), artifact)
  }

  /**
   * What it takes to publish a source that does not load, from the disk as it is: its index is missing or
   * a file; it compiles to an artifact of at most 512 MiB that deserializes; what is stored under the
   * artifact's digest is missing or a file; both directories are free; and either the object is intact,
   * or no other objects are stored, or fewer than 1024 with room for it within 2 GiB.
   */
  ghost predicate CanPublish(tools: Toolchain, root: Listing, engine: string, wasm: Content) {
    && !ReadFile(root, Engine(engine), Index(Digest(wasm))).Faulty?
    && (Engine(engine) in root ==> root[Engine(engine)].Dir?)
    && match tools.Compile(engine, wasm)
       case None => false
       case Some(artifact) =>
         var stored := ReadFile(root, Objects, Object(Digest(artifact)));
         && Len(artifact) <= 536870912 && tools.Deserialize(engine, artifact).Some? && !stored.Faulty?
         && (stored == Holds(artifact)
             || ((Objects in root ==> root[Objects].Dir?)
                 && var others := EntriesOf(root, Objects) - {Object(Digest(artifact))};
                    || others == map[]
                    || (|others| < 1024 && Len(artifact) + Total(Sizes(others)) <= 2147483648)))
  }

  /** What stays mapped after publishing: the component that was returned, if one was. */
  ghost function Mapping(
    tools: Toolchain, root: Listing, engine: string, loaded: map<Digest, Component>, wasm: Content)
    : map<Digest, Component>
  {
    if Maps(Load(tools, root, engine, loaded, Digest(wasm))) then Remembered(tools, root, engine, loaded, Digest(wasm))
    else if Publishable(tools, root, engine, wasm) then
      var artifact := tools.Compile(engine, wasm).value;
      loaded[Digest(artifact) := tools.Deserialize(engine, artifact).value]
    else loaded
  }

  /** A readable index names an intact object. */
  predicate Ready(root: Listing, engine: string, source: Digest) {
    var read := ReadEntry(root, engine, source);
    read.Success? && read.value.Some? && Verify(root, read.value.value).Success?
  }

  /** The index, or the object of a well-formed one, cannot be read, which precompiling does not try to mend. */
  predicate EntryUnreadable(root: Listing, engine: string, source: Digest) {
    var read := ReadEntry(root, engine, source);
    || read == Failure(Unreadable)
    || (read.Success? && read.value.Some? && Verify(root, read.value.value) == Failure(Unreadable))
  }

  /** Precompiling leaves a source alone that is ready or that it cannot read. */
  predicate Untouched(root: Listing, engine: string, source: Digest) {
    Ready(root, engine, source) || EntryUnreadable(root, engine, source)
  }

  ghost function Precompiled(
    tools: Toolchain, root: Listing, engine: string, loaded: map<Digest, Component>, wasm: Content): Listing
  {
    var source := Digest(wasm);
    if Untouched(root, engine, source) || Maps(Load(tools, root, engine, loaded, source)) then root
    else Published(tools, root, engine, wasm)
  }

  /** Every index but one is untouched, and no intact object is lost or changed. */
  ghost predicate Keeps(root: Listing, root': Listing, engine: string, source: Digest) {
    && (forall e, s | (e, s) != (engine, source) ::
          ReadFile(root', Engine(e), Index(s)) == ReadFile(root, Engine(e), Index(s)))
    && (forall sha | Intact(root, sha) :: Intact(root', sha))
  }

  lemma KeepsTrust(tools: Toolchain, root: Listing, root': Listing, engine: string, source: Digest)
    requires Trusted(tools, root) && Keeps(root, root', engine, source)
    requires Binds(tools, engine, source, ReadFile(root', Engine(engine), Index(source)))
    ensures Trusted(tools, root')
  {
    forall e, s ensures Binds(tools, e, s, ReadFile(root', Engine(e), Index(s))) {
      assert Binds(tools, e, s, ReadFile(root, Engine(e), Index(s)));
    }
  }

  lemma ReadAfterWrite(root: Listing, dir: Name, file: Name, content: Content, dir': Name, file': Name)
    requires DirFree(root, dir)
    ensures ReadFile(WithFile(root, dir, file, content), dir', file') ==
            if (dir', file') == (dir, file) then Holds(content) else ReadFile(root, dir', file')
  {
  }

  lemma ReadAfterRemove(root: Listing, dir: Name, file: Name, dir': Name, file': Name)
    requires ReadFile(root, dir, file).Holds?
    ensures ReadFile(WithoutFile(root, dir, file), dir', file') ==
            if (dir', file') == (dir, file) then Missing else ReadFile(root, dir', file')
  {
  }

  lemma WriteKeeps(root: Listing, dir: Name, file: Name, content: Content, engine: string, source: Digest)
    requires DirFree(root, dir)
    requires (dir == Engine(engine) && file == Index(source)) || (dir == Objects && file == Object(Digest(content)))
    ensures Keeps(root, WithFile(root, dir, file, content), engine, source)
  {
    forall dir', file' ensures ReadFile(WithFile(root, dir, file, content), dir', file') ==
        if (dir', file') == (dir, file) then Holds(content) else ReadFile(root, dir', file') {
      ReadAfterWrite(root, dir, file, content, dir', file');
    }
  }

  lemma RemoveKeeps(root: Listing, dir: Name, file: Name, engine: string, source: Digest)
    requires ReadFile(root, dir, file).Holds?
    requires
      || (dir == Engine(engine) && file == Index(source))
      || (dir == Objects && file.Object? && !Intact(root, file.sha))
    ensures Keeps(root, WithoutFile(root, dir, file), engine, source)
  {
    forall dir', file' ensures ReadFile(WithoutFile(root, dir, file), dir', file') ==
        if (dir', file') == (dir, file) then Missing else ReadFile(root, dir', file') {
      ReadAfterRemove(root, dir, file, dir', file');
    }
  }

  lemma CreateKeeps(root: Listing, dir: Name, engine: string, source: Digest)
    requires dir !in root
    ensures Keeps(root, root[dir := Dir(map[])], engine, source)
    ensures forall d, f :: ReadFile(root[dir := Dir(map[])], d, f) == ReadFile(root, d, f)
  {
  }

  /** What publishing may do to the disk at every step of the way. */
  ghost predicate Settles(root: Listing, root': Listing, engine: string, source: Digest) {
    && Keeps(root, root', engine, source)
    && (forall dir | DirFree(root, dir) :: DirFree(root', dir))
    && (forall sha | !ReadFile(root, Objects, Object(sha)).Faulty? :: !ReadFile(root', Objects, Object(sha)).Faulty?)
    && (forall requested | HasCapacity(EntriesOf(root, Objects), requested) ::
          HasCapacity(EntriesOf(root', Objects), requested))
    && (WithinLimits(EntriesOf(root, Objects)) ==> WithinLimits(EntriesOf(root', Objects)))
  }

  lemma RemoveSettles(root: Listing, dir: Name, file: Name, engine: string, source: Digest)
    requires ReadFile(root, dir, file).Holds?
    requires
      || (dir == Engine(engine) && file == Index(source))
      || (dir == Objects && file.Object? && !Intact(root, file.sha))
    ensures Settles(root, WithoutFile(root, dir, file), engine, source)
  {
    RemoveKeeps(root, dir, file, engine, source);
    var root' := WithoutFile(root, dir, file);
    if dir == Objects {
      assert EntriesOf(root', Objects) == EntriesOf(root, Objects) - {file};
      forall requested
        ensures HasCapacity(EntriesOf(root, Objects), requested) ==> HasCapacity(EntriesOf(root', Objects), requested)
      {
        CapacityAfterRemoval(EntriesOf(root, Objects), file, requested);
      }
      CapacityAfterRemoval(EntriesOf(root, Objects), file, 0);
    } else {
      assert EntriesOf(root', Objects) == EntriesOf(root, Objects);
    }
  }

  lemma CreateSettles(root: Listing, dir: Name, engine: string, source: Digest)
    requires dir !in root
    ensures Settles(root, root[dir := Dir(map[])], engine, source)
    ensures forall d, f :: ReadFile(root[dir := Dir(map[])], d, f) == ReadFile(root, d, f)
  {
    CreateKeeps(root, dir, engine, source);
    assert EntriesOf(root[dir := Dir(map[])], Objects) == EntriesOf(root, Objects);
  }

  lemma IndexWriteSettles(root: Listing, engine: string, source: Digest, content: Content)
    requires DirFree(root, Engine(engine))
    ensures Settles(root, WithFile(root, Engine(engine), Index(source), content), engine, source)
  {
    WriteKeeps(root, Engine(engine), Index(source), content, engine, source);
    assert EntriesOf(WithFile(root, Engine(engine), Index(source), content), Objects) == EntriesOf(root, Objects);
  }

  lemma SettlesChains(a: Listing, b: Listing, c: Listing, engine: string, source: Digest)
    requires Settles(a, b, engine, source) && Settles(b, c, engine, source)
    ensures Settles(a, c, engine, source)
  {
  }

  lemma ClearedSettles(root: Listing, engine: string, source: Digest)
    ensures Settles(root, Cleared(root, engine, source), engine, source)
  {
    hide Keeps, HasCapacity, WithinLimits;
    var root1 := ObjectCleared(root, engine, source);
    if root1 != root {
      var entry := ParseEntry(ReadFile(root, Engine(engine), Index(source)).content).value;
      RemoveSettles(root, Objects, Object(entry.sha), engine, source);
    } else {
      NothingSettles(root, engine, source);
    }
    if ReadFile(root1, Engine(engine), Index(source)).Holds? {
      RemoveSettles(root1, Engine(engine), Index(source), engine, source);
      SettlesChains(root, root1, Cleared(root, engine, source), engine, source);
    }
  }

  lemma NothingSettles(root: Listing, engine: string, source: Digest)
    ensures Settles(root, root, engine, source)
  {
  }

  /** No damage that can be read keeps a source from being published where there is room. */
  lemma ReadableDamageIsPassed(tools: Toolchain, root: Listing, engine: string, wasm: Content)
    requires !IndexUnreadable(root, engine, Digest(wasm)) && DirFree(root, Engine(engine)) && DirFree(root, Objects)
    requires match tools.Compile(engine, wasm)
             case None => false
             case Some(artifact) =>
               && Len(artifact) <= 536870912
               && !ReadFile(root, Objects, Object(Digest(artifact))).Faulty?
               && |EntriesOf(root, Objects)| < 1024
               && Len(artifact) + Total(Sizes(EntriesOf(root, Objects))) <= 2147483648
               && tools.Deserialize(engine, artifact).Some?
    ensures Publishable(tools, root, engine, wasm)
  {
    hide WithinLimits, ObjectCleared, Keeps;
    var source, artifact := Digest(wasm), tools.Compile(engine, wasm).value;
    ClearedSettles(root, engine, source);
    var cleared := Cleared(root, engine, source);
    if Damaged(cleared, Digest(artifact)) {
      RemoveSettles(cleared, Objects, Object(Digest(artifact)), engine, source);
    }
  }

  /** With honest indexes a damaged object named by the index is the one the source compiles to. */
  lemma ClearedEntries(tools: Toolchain, root: Listing, engine: string, wasm: Content, artifact: Content)
    requires Trusted(tools, root) && tools.Compile(engine, wasm) == Some(artifact)
    ensures var cleared := Cleared(root, engine, Digest(wasm));
            var checked := WithoutDamaged(cleared, Digest(artifact));
            && DirFree(checked, Engine(engine)) == DirFree(root, Engine(engine))
            && DirFree(checked, Objects) == DirFree(root, Objects)
            && ReadFile(cleared, Objects, Object(Digest(artifact))).Faulty?
               == ReadFile(root, Objects, Object(Digest(artifact))).Faulty?
            && Intact(checked, Digest(artifact)) == Intact(root, Digest(artifact))
            && (!Intact(root, Digest(artifact)) && !ReadFile(root, Objects, Object(Digest(artifact))).Faulty? ==>
                  EntriesOf(checked, Objects) == EntriesOf(root, Objects) - {Object(Digest(artifact))})
  {
    assert Binds(tools, engine, Digest(wasm), ReadFile(root, Engine(engine), Index(Digest(wasm))));
  }

  /** A source that does not load can be published exactly under these conditions. */
  lemma PublishableMeans(tools: Toolchain, root: Listing, engine: string, wasm: Content)
    requires Trusted(tools, root)
    ensures Publishable(tools, root, engine, wasm) <==> CanPublish(tools, root, engine, wasm)
  {
    hide Cleared, WithoutDamaged;
    assert Binds(tools, engine, Digest(wasm), ReadFile(root, Engine(engine), Index(Digest(wasm))));
    if tools.Compile(engine, wasm).Some? {
      ClearedEntries(tools, root, engine, wasm, tools.Compile(engine, wasm).value);
    }
  }

  /** A fresh boot maps a stored source, unless its artifact is empty: no index may claim zero bytes. */
  lemma FreshBootLoads(tools: Toolchain, root: Listing, engine: string, source: Digest, artifact: Content)
    requires Intact(root, Digest(artifact)) && Len(artifact) <= MAX_CWASM_BYTES
    requires ReadFile(root, Engine(engine), Index(source)) == Holds(IndexFile(EntryOf(artifact)))
    ensures Load(tools, root, engine, map[], source) ==
            match tools.Deserialize(engine, artifact)
            case Some(component) => if 0 < Len(artifact) then Success(Mapped(component)) else Failure(Unusable)
            case None => Failure(Unusable)
  {
    assert PowerOfTen(9) == 10 * PowerOfTen(8) && PowerOfTen(8) == 10 * PowerOfTen(7);
    assert PowerOfTen(7) == 10 * PowerOfTen(6) && PowerOfTen(6) == 10 * PowerOfTen(5);
    assert PowerOfTen(5) == 10 * PowerOfTen(4) && PowerOfTen(4) == 10000;
    DigitsBound(Len(artifact), 9);
  }

  /** The exception, concretely: everything is in place, and the source does not load. */
  lemma EmptyArtifactIsRefused(tools: Toolchain, engine: string, source: Digest)
    ensures var empty := Raw([]);
            var root: Listing := map[
              Objects := Dir(map[Object(Digest(empty)) := File(empty)]),
              Engine(engine) := Dir(map[Index(source) := File(IndexFile(EntryOf(empty)))])];
            Intact(root, Digest(empty)) && Load(tools, root, engine, map[], source) == Failure(Unusable)
  {
    var empty := Raw([]);
    var root: Listing := map[
      Objects := Dir(map[Object(Digest(empty)) := File(empty)]),
      Engine(engine) := Dir(map[Index(source) := File(IndexFile(EntryOf(empty)))])];
    FreshBootLoads(tools, root, engine, source, empty);
  }

  class Cache {
    const tools: Toolchain
    const engine: string
    const disk: Disk
    var loaded: map<Digest, Component>

    constructor (tools: Toolchain, engine: string, disk: Disk)
      ensures this.tools == tools && this.engine == engine && this.disk == disk && loaded == map[]
    {
      this.tools, this.engine, this.disk, loaded := tools, engine, disk, map[];
    }

    ghost predicate Truthful()
      reads this, disk
    {
      Trusted(tools, disk.root) && MapsTruly(tools, engine, loaded)
    }

    /** Maps the object of a verified entry and remembers it by digest. */
    method MapEntry(entry: Entry) returns (r: Result<Component>)
      requires Intact(disk.root, entry.sha) && MapsTruly(tools, engine, loaded)
      modifies this`loaded
      ensures MapsTruly(tools, engine, loaded)
      ensures match tools.Deserialize(engine, entry.sha.of)
              case Some(component) => r == Success(component) && loaded == old(loaded)[entry.sha := component]
              case None => r == Failure(Unusable) && loaded == old(loaded)
    {
      var component := MapObject(tools, disk.root, engine, entry);
      if component.None? {
        return Failure(Unusable);
      }
      loaded := loaded[entry.sha := component.value];
      r := Success(component.value);
    }

    method LoadSource(source: Digest) returns (r: Result<Lookup>)
      requires MapsTruly(tools, engine, loaded)
      modifies this`loaded
      ensures MapsTruly(tools, engine, loaded)
      ensures r == Load(tools, disk.root, engine, old(loaded), source)
      ensures loaded == Remembered(tools, disk.root, engine, old(loaded), source)
      ensures Trusted(tools, disk.root) && r.Success? && r.value.Mapped? ==>
        tools.Direct(engine, source.of) == Some(r.value.component)
    {
      if Trusted(tools, disk.root) {
        LoadAgrees(tools, disk.root, engine, loaded, source);
      }
      var read := ReadEntry(disk.root, engine, source);
      if read.Failure? {
        return Failure(read.why);
      }
      if read.value.None? {
        return Success(NotCached);
      }
      var entry := read.value.value;
      if entry.sha in loaded {
        return Success(Mapped(loaded[entry.sha]));
      }
      var verified := Verify(disk.root, entry);
      if verified.Failure? {
        return Failure(verified.why);
      }
      var mapped := MapEntry(entry);
      r := if mapped.Success? then Success(Mapped(mapped.value)) else Failure(mapped.why);
    }

    /**
     * Clears the way for a source whose index or object cannot be used: a damaged object and then the
     * index are removed, unless one of them cannot be read at all.
     */
    method Repair(source: Digest) returns (r: Result<()>)
      requires Trusted(tools, disk.root)
      requires Load(tools, disk.root, engine, loaded, source).Failure?
      modifies disk
      ensures Settles(old(disk.root), disk.root, engine, source)
      ensures r.Success? ==> ReadFile(disk.root, Engine(engine), Index(source)).Missing?
      ensures disk.root == if r.Success? then Cleared(old(disk.root), engine, source) else old(disk.root)
      ensures forall entry | r.Success? && IsIndex(ReadFile(old(disk.root), Engine(engine), Index(source)), entry) ::
        ReadFile(disk.root, Objects, Object(entry.sha)) ==
        if ReadFile(old(disk.root), Objects, Object(entry.sha)) == Holds(entry.sha.of) then Holds(entry.sha.of)
        else Missing
      ensures r.Failure? <==> IndexUnreadable(old(disk.root), engine, source)
    {
      assert Binds(tools, engine, source, ReadFile(disk.root, Engine(engine), Index(source)));
      var found := ReadFile(disk.root, Engine(engine), Index(source));
      if found.Faulty? {
        return Failure(Unreadable);
      }
      ghost var root0 := disk.root;
      var entry := if found.Holds? then ParseEntry(found.content) else None;
      if entry.Some? {
        var file := Object(entry.value.sha);
        match ReadFile(disk.root, Objects, file)
        case Faulty =>
          return Failure(Unreadable);
        case Missing =>
        case Holds(_) =>
          if Verify(disk.root, entry.value).Failure? {
            RemoveSettles(root0, Objects, file, engine, source);
            ReadAfterRemove(root0, Objects, file, Engine(engine), Index(source));
            var gone := disk.RemoveFile(Objects, file);
          }
      }
      ghost var root1 := disk.root;
      RemoveSettles(root1, Engine(engine), Index(source), engine, source);
      ReadAfterRemove(root1, Engine(engine), Index(source), Engine(engine), Index(source));
      var gone := disk.RemoveFile(Engine(engine), Index(source));
      SettlesChains(root0, root1, disk.root, engine, source);
      r := Success(());
    }

    /** Whether the object of a fresh artifact is on disk already; a damaged one is removed first. */
    method CheckObject(entry: Entry, ghost source: Digest) returns (r: Result<bool>)
      requires entry.bytes == Len(entry.sha.of)
      modifies disk
      ensures Settles(old(disk.root), disk.root, engine, source)
      ensures ReadFile(disk.root, Engine(engine), Index(source))
              == ReadFile(old(disk.root), Engine(engine), Index(source))
      ensures match r
              case Failure(_) => true
              case Success(true) => Intact(disk.root, entry.sha)
              case Success(false) => ReadFile(disk.root, Objects, Object(entry.sha)).Missing?
      ensures r.Failure? <==> ReadFile(old(disk.root), Objects, Object(entry.sha)).Faulty?
      ensures r == Success(true) <==> Intact(old(disk.root), entry.sha)
      ensures disk.root == WithoutDamaged(old(disk.root), entry.sha)
    {
      var file := Object(entry.sha);
      match ReadFile(disk.root, Objects, file)
      case Missing =>
        r := Success(false);
      case Faulty =>
        r := Failure(Unreadable);
      case Holds(_) =>
        if Verify(disk.root, entry).Success? {
          return Success(true);
        }
        RemoveSettles(disk.root, Objects, file, engine, source);
        ReadAfterRemove(disk.root, Objects, file, Objects, file);
        ReadAfterRemove(disk.root, Objects, file, Engine(engine), Index(source));
        var gone := disk.RemoveFile(Objects, file);
        r := Success(false);
    }

    /** Publishes an object that is not there yet, if the store has room for it. */
    method StoreObject(artifact: Content, ghost source: Digest) returns (ok: bool)
      requires Len(artifact) <= MAX_CWASM_BYTES
      requires ReadFile(disk.root, Objects, Object(Digest(artifact))).Missing?
      modifies disk
      ensures Keeps(old(disk.root), disk.root, engine, source)
      ensures forall dir | dir in old(disk.root) ::
        dir in disk.root && (DirFree(old(disk.root), dir) ==> DirFree(disk.root, dir))
      ensures forall f :: ReadFile(disk.root, Engine(engine), f) == ReadFile(old(disk.root), Engine(engine), f)
      ensures WithinLimits(EntriesOf(old(disk.root), Objects)) ==> WithinLimits(EntriesOf(disk.root, Objects))
      ensures ok <==> DirFree(old(disk.root), Objects) && HasCapacity(EntriesOf(old(disk.root), Objects), Len(artifact))
      ensures ok ==> Intact(disk.root, Digest(artifact)) && WithinLimits(EntriesOf(disk.root, Objects))
      ensures var listed := WithDir(old(disk.root), Objects);
              disk.root == if ok then WithFile(listed, Objects, Object(Digest(artifact)), artifact) else listed
    {
      var file := Object(Digest(artifact));
      ghost var root0 := disk.root;
      if Objects !in disk.root {
        CreateSettles(root0, Objects, engine, source);
      }
      ok := disk.CreateDir(Objects);
      if !ok {
        return;
      }
      ghost var root1 := disk.root;
      assert EntriesOf(root1, Objects) == EntriesOf(root0, Objects);
      ok := EnsureCapacity(EntriesOf(disk.root, Objects), Len(artifact));
      if !ok {
        return;
      }
      WriteKeeps(root1, Objects, file, artifact, engine, source);
      CapacityIsEnough(EntriesOf(root1, Objects), file, artifact);
      ok := disk.PublishNew(Objects, file, artifact);
      forall f ensures ReadFile(disk.root, Engine(engine), f) == ReadFile(root0, Engine(engine), f) {
        ReadAfterWrite(root1, Objects, file, artifact, Engine(engine), f);
      }
    }

    /** Writes the artifact, unless it is there, and then the index that makes it findable. */
    method Store(artifact: Content, source: Digest, reusable: bool) returns (ok: bool)
      requires Len(artifact) <= MAX_CWASM_BYTES
      requires ReadFile(disk.root, Engine(engine), Index(source)).Missing?
      requires if reusable then Intact(disk.root, Digest(artifact))
               else ReadFile(disk.root, Objects, Object(Digest(artifact))).Missing?
      modifies disk
      ensures Keeps(old(disk.root), disk.root, engine, source)
      ensures WithinLimits(EntriesOf(old(disk.root), Objects)) ==> WithinLimits(EntriesOf(disk.root, Objects))
      ensures ReadFile(disk.root, Engine(engine), Index(source))
              == if ok then Holds(IndexFile(EntryOf(artifact))) else Missing
      ensures ok ==> Intact(disk.root, Digest(artifact))
      ensures ok <==> Storable(old(disk.root), engine, artifact)
      ensures disk.root == Stored(old(disk.root), engine, source, artifact)
    {
      ghost var root0 := disk.root;
      if Engine(engine) !in disk.root {
        CreateSettles(root0, Engine(engine), engine, source);
      }
      ok := disk.CreateDir(Engine(engine));
      if !ok {
        return;
      }
      assert EntriesOf(disk.root, Objects) == EntriesOf(root0, Objects);
      if !reusable {
        ok := StoreObject(artifact, source);
        if !ok {
          return;
        }
      }
      ghost var root2 := disk.root;
      IndexWriteSettles(root2, engine, source, IndexFile(EntryOf(artifact)));
      ReadAfterWrite(root2, Engine(engine), Index(source), IndexFile(EntryOf(artifact)), Engine(engine), Index(source));
      ok := disk.PublishNew(Engine(engine), Index(source), IndexFile(EntryOf(artifact)));
    }

    /**
     * What a publication reports: a hit if the source loads, a repair if it does not load for any reason
     * but a missing index or if its fresh artifact meets a damaged object, and otherwise a compilation.
     */
    function Report(root: Listing, mapped: map<Digest, Component>, wasm: Content): Publication {
      match Load(tools, root, engine, mapped, Digest(wasm))
      case Success(Mapped(_)) => Hit
      case Failure(_) => Repaired
      case Success(NotCached) =>
        match tools.Compile(engine, wasm)
        case Some(artifact) => if Damaged(root, Digest(artifact)) then Repaired else Compiled
        case None => Compiled
    }

    /** From a compiled artifact to a mapped component. */
    method Install(artifact: Content, source: Digest) returns (r: Result<(Component, bool)>)
      requires Truthful() && Len(artifact) <= MAX_CWASM_BYTES && tools.Compile(engine, source.of) == Some(artifact)
      requires ReadFile(disk.root, Engine(engine), Index(source)).Missing?
      modifies this`loaded, disk
      ensures Truthful() && Keeps(old(disk.root), disk.root, engine, source)
      ensures WithinLimits(EntriesOf(old(disk.root), Objects)) ==> WithinLimits(EntriesOf(disk.root, Objects))
      ensures r.Success? ==>
        && tools.Direct(engine, source.of) == Some(r.value.0)
        && Intact(disk.root, Digest(artifact))
        && ReadFile(disk.root, Engine(engine), Index(source)) == Holds(IndexFile(EntryOf(artifact)))
      ensures r.Success? <==> Installable(tools, old(disk.root), engine, artifact)
      ensures disk.root == Installed(old(disk.root), engine, source, artifact)
      ensures loaded == if r.Success? then old(loaded)[Digest(artifact) := r.value.0] else old(loaded)
      ensures r.Success? ==> (r.value.1 <==> Damaged(old(disk.root), Digest(artifact)))
    {
      var entry := EntryOf(artifact);
      ghost var root0 := disk.root;
      var existed := ReadFile(disk.root, Objects, Object(entry.sha)).Holds?;
      var reusable := CheckObject(entry, source);
      if reusable.Failure? {
        return Failure(reusable.why);
      }
      ghost var root1 := disk.root;
      var stored := Store(artifact, source, reusable.value);
      assert Keeps(root0, disk.root, engine, source) by {
        KeepsChains(root0, root1, disk.root, engine, source);
      }
      KeepsTrust(tools, root0, disk.root, engine, source);
      if !stored {
        return Failure(Unusable);
      }
      var mapped := MapEntry(entry);
      r := if mapped.Failure? then Failure(mapped.why) else Success((mapped.value, existed && !reusable.value));
    }

    /**
     * Makes a source available. Publishing keeps every binding and every intact object, returns what
     * direct compilation gives, and gets past any damage it is able to read.
     */
    method Publish(wasm: Content, source: Digest) returns (r: Result<(Component, Publication)>)
      requires Truthful() && source == Digest(wasm)
      modifies this`loaded, disk
      ensures Truthful() && Keeps(old(disk.root), disk.root, engine, source)
      ensures WithinLimits(EntriesOf(old(disk.root), Objects)) ==> WithinLimits(EntriesOf(disk.root, Objects))
      ensures r.Success? ==> tools.Direct(engine, wasm) == Some(r.value.0)
      ensures var maps := Maps(Load(tools, old(disk.root), engine, old(loaded), source));
              && (r.Success? <==> maps || CanPublish(tools, old(disk.root), engine, wasm))
              && disk.root == (if maps then old(disk.root) else Published(tools, old(disk.root), engine, wasm))
              && loaded == Mapping(tools, old(disk.root), engine, old(loaded), wasm)
      ensures r.Success? ==> r.value.1 == old(Report(disk.root, loaded, wasm))
      ensures r.Success? ==>
        var looked := Load(tools, old(disk.root), engine, old(loaded), source);
        && (r.value.1.Hit? <==> Maps(looked))
        && (r.value.1.Compiled? <==>
              && looked == Success(NotCached)
              && ReadFile(old(disk.root), Objects, Object(Digest(tools.Compile(engine, wasm).value)))
                 in {Missing, Holds(tools.Compile(engine, wasm).value)})
      ensures r.Success? && (old(loaded) == map[] || !r.value.1.Hit?) ==>
        Intact(disk.root, Digest(tools.Compile(engine, wasm).value)) &&
        Load(tools, disk.root, engine, map[], source) ==
        if 0 < Len(tools.Compile(engine, wasm).value) then Success(Mapped(r.value.0)) else Failure(Unusable)
    {
      hide HasCapacity, WithinLimits, CanPublish;
      ghost var root0 := disk.root;
      PublishableMeans(tools, root0, engine, wasm);
      var looked := LoadSource(source);
      var repaired := false;
      if looked.Failure? {
        var cleared := Repair(source);
        if cleared.Failure? {
          return Failure(cleared.why);
        }
        KeepsTrust(tools, root0, disk.root, engine, source);
        repaired := true;
      } else if looked.value.Mapped? {
        assert Binds(tools, engine, source, ReadFile(disk.root, Engine(engine), Index(source)));
        return Success((looked.value.component, Hit));
      }
      var compiled := tools.Compile(engine, wasm);
      if compiled.None? || MAX_CWASM_BYTES < Len(compiled.value) {
        return Failure(Unusable);
      }
      ghost var root1 := disk.root;
      var installed := Install(compiled.value, source);
      KeepsChains(root0, root1, disk.root, engine, source);
      if installed.Failure? {
        return Failure(installed.why);
      }
      FreshBootLoads(tools, disk.root, engine, source, compiled.value);
      r := Success((installed.value.0, if repaired || installed.value.1 then Repaired else Compiled));
    }

    /** Publishes unless a readable index already names an intact object; nothing need be mapped. */
    method Precompile(wasm: Content, source: Digest) returns (r: Result<Publication>)
      requires Truthful() && source == Digest(wasm)
      modifies this`loaded, disk
      ensures Truthful() && Keeps(old(disk.root), disk.root, engine, source)
      ensures WithinLimits(EntriesOf(old(disk.root), Objects)) ==> WithinLimits(EntriesOf(disk.root, Objects))
      ensures r.Success? ==> tools.Compile(engine, wasm).Some?
      ensures r.Success? && old(loaded) == map[] ==> Intact(disk.root, Digest(tools.Compile(engine, wasm).value))
      ensures var root := old(disk.root);
              var publishes :=
                Maps(Load(tools, root, engine, old(loaded), source)) || CanPublish(tools, root, engine, wasm);
              r.Success? <==> Ready(root, engine, source) || (!EntryUnreadable(root, engine, source) && publishes)
      ensures old(Ready(disk.root, engine, source)) ==> r == Success(Hit)
      ensures loaded == if Untouched(old(disk.root), engine, source) then old(loaded)
                        else Mapping(tools, old(disk.root), engine, old(loaded), wasm)
      ensures disk.root == Precompiled(tools, old(disk.root), engine, old(loaded), wasm)
      ensures r == Success(Hit) ==> disk.root == old(disk.root)
      ensures r == Success(Compiled) ==> old(ReadEntry(disk.root, engine, source)) == Success(None)
    {
      hide HasCapacity, WithinLimits, CanPublish, Publishable;
      assert Binds(tools, engine, source, ReadFile(disk.root, Engine(engine), Index(source)));
      var read := ReadEntry(disk.root, engine, source);
      if read.Failure? && read.why.Unreadable? {
        return Failure(Unreadable);
      }
      if read.Success? && read.value.Some? {
        var verified := Verify(disk.root, read.value.value);
        if verified.Success? {
          return Success(Hit);
        }
        if verified.why.Unreadable? {
          return Failure(Unreadable);
        }
      }
      var published := Publish(wasm, source);
      r := if published.Success? then Success(published.value.1) else Failure(published.why);
    }
  }

  lemma KeepsChains(a: Listing, b: Listing, c: Listing, engine: string, source: Digest)
    requires Keeps(a, b, engine, source) && Keeps(b, c, engine, source)
    ensures Keeps(a, c, engine, source)
  {
  }
}
