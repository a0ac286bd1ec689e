/** Pruning the compiled-component cache down to what the live sources of one engine need. */
module Prune {
  import opened Text
  import opened FileTree
  import opened Cwasm

  predicate IsLive(file: Name, live: set<Digest>) {
    file.Index? && file.source in live
  }

  /** The objects that live indexes of this engine name. */
  function Referenced(root: Listing, engine: string, live: set<Digest>): set<Name> {
    set source | source in live && Names(root, engine, source).Some? :: Object(Names(root, engine, source).value)
  }

  function Names(root: Listing, engine: string, source: Digest): Option<Digest> {
    match ReadEntry(root, engine, source)
    case Success(Some(entry)) => Some(entry.sha)
    case _ => None
  }

  function Only(entries: Listing, files: set<Name>): Listing {
    map file | file in entries && file in files :: entries[file]
  }

  function LiveFiles(entries: Listing, live: set<Digest>): set<Name> {
    set file | file in entries && IsLive(file, live)
  }

  function Swept(root: Listing, dir: Name, files: set<Name>): Listing {
    if dir !in root then root else root[dir := Dir(Only(EntriesOf(root, dir), files))]
  }

  /** What pruning leaves: live indexes of this engine, and the objects they name. */
  function Pruned(root: Listing, engine: string, live: set<Digest>): Listing {
    map dir | dir in root && (dir == Engine(engine) || dir == Objects) ::
      Dir(Only(EntriesOf(root, dir),
               if dir == Objects then Referenced(root, engine, live) else LiveFiles(EntriesOf(root, dir), live)))
  }

  /** Every live index that is there can be read, and nothing sits where the directories belong. */
  predicate Prunable(root: Listing, engine: string, live: set<Digest>) {
    && DirFree(root, Engine(engine)) && DirFree(root, Objects)
    && LiveReadable(root, engine, live, EntriesOf(root, Engine(engine)).Keys)
  }

  lemma ReadsSame(root: Listing, root': Listing, engine: string, source: Digest)
    requires ReadFile(root', Engine(engine), Index(source)) == ReadFile(root, Engine(engine), Index(source))
    ensures ReadEntry(root', engine, source) == ReadEntry(root, engine, source)
    ensures Names(root', engine, source) == Names(root, engine, source)
  {
  }

  /** Every live source loads exactly as it did before. */
  lemma PruneKeepsLive(
    tools: Toolchain, root: Listing, engine: string, live: set<Digest>, loaded: map<Digest, Component>, source: Digest)
    requires Prunable(root, engine, live) && source in live
    ensures Load(tools, Pruned(root, engine, live), engine, loaded, source) == Load(tools, root, engine, loaded, source)
  {
    var root' := Pruned(root, engine, live);
    assert ReadFile(root', Engine(engine), Index(source)) == ReadFile(root, Engine(engine), Index(source));
    ReadsSame(root, root', engine, source);
    var named := Names(root, engine, source);
    if named.Some? {
      assert Object(named.value) in Referenced(root, engine, live);
      assert ReadFile(root', Objects, Object(named.value)) == ReadFile(root, Objects, Object(named.value));
    }
  }

  lemma OnlyTwice(entries: Listing, files: set<Name>)
    ensures Only(Only(entries, files), files) == Only(entries, files)
  {
  }

  /** Pruning again changes nothing. */
  lemma PruneIsIdempotent(root: Listing, engine: string, live: set<Digest>)
    requires Prunable(root, engine, live)
    ensures Prunable(Pruned(root, engine, live), engine, live)
    ensures Pruned(Pruned(root, engine, live), engine, live) == Pruned(root, engine, live)
  {
    var root' := Pruned(root, engine, live);
    forall source | source in live
      ensures ReadEntry(root', engine, source) == ReadEntry(root, engine, source)
    {
      assert ReadFile(root', Engine(engine), Index(source)) == ReadFile(root, Engine(engine), Index(source));
      ReadsSame(root, root', engine, source);
    }
    assert Referenced(root', engine, live) == Referenced(root, engine, live);
    if Engine(engine) in root {
      assert LiveFiles(EntriesOf(root', Engine(engine)), live) == LiveFiles(EntriesOf(root, Engine(engine)), live);
    }
    var root'' := Pruned(root', engine, live);
    assert root''.Keys == root'.Keys;
    forall dir | dir in root' ensures root''[dir] == root'[dir] {
      var files := if dir == Objects then Referenced(root, engine, live) else LiveFiles(EntriesOf(root, dir), live);
      OnlyTwice(EntriesOf(root, dir), files);
    }
  }

  /** Files are only ever removed. */
  ghost predicate Thinned(root: Listing, root': Listing) {
    forall dir, file :: ReadFile(root', dir, file) == ReadFile(root, dir, file) || ReadFile(root', dir, file).Missing?
  }

  /** Pruning forgets bindings but forges none. */
  lemma ThinnedKeepsTrust(tools: Toolchain, root: Listing, root': Listing)
    requires Trusted(tools, root) && Thinned(root, root')
    ensures Trusted(tools, root')
  {
    forall e, s ensures Binds(tools, e, s, ReadFile(root', Engine(e), Index(s))) {
      assert Binds(tools, e, s, ReadFile(root, Engine(e), Index(s)));
    }
  }

  lemma OnlyThins(root: Listing, dirs: set<Name>)
    ensures Thinned(root, Only(root, dirs))
  {
  }

  lemma SweptThins(root: Listing, dir: Name, files: set<Name>)
    requires DirFree(root, dir)
    ensures Thinned(root, Swept(root, dir, files))
  {
  }

  lemma DirTake(root: Listing, dir: Name, entries: Listing, file: Name)
    requires file in entries
    ensures FilesIn(root[dir := Dir(entries)]) == Files(entries[file]) + FilesIn(root[dir := Dir(entries - {file})])
    ensures BytesIn(root[dir := Dir(entries)]) == Bytes(entries[file]) + BytesIn(root[dir := Dir(entries - {file})])
  {
    Takes(root[dir := Dir(entries)], dir);
    Takes(root[dir := Dir(entries - {file})], dir);
    assert root[dir := Dir(entries)] - {dir} == root[dir := Dir(entries - {file})] - {dir};
    Takes(entries, file);
  }

  /** The tally accounts for everything that is gone. */
  ghost predicate Accounts(before: Listing, after: Listing, removed: Removed) {
    && removed.bytes <= U64_MAX
    && removed.files + FilesIn(after) == FilesIn(before)
    && Saturating(removed.bytes + BytesIn(after)) == Saturating(BytesIn(before))
  }

  method DropRoot(disk: Disk, name: Name, tally: Removed, ghost base: Listing) returns (removed: Removed)
    requires name in disk.root && Accounts(base, disk.root, tally)
    modifies disk
    ensures disk.root == old(disk.root) - {name} && Accounts(base, disk.root, removed)
  {
    hide FilesIn, BytesIn;
    Takes(disk.root, name);
    removed := RemoveTree(tally, disk.root[name]);
    disk.root := disk.root - {name};
  }

  lemma FilesGone(before: Listing, after: Listing, removed: Removed)
    requires Accounts(before, after, removed)
    ensures removed.files == |Paths(Dir(before))| - |Paths(Dir(after))|
  {
    FilesAreCounted(Dir(before));
    FilesAreCounted(Dir(after));
  }

  /** Removes everything beside the engine's own directory and the objects. */
  method SweepRoot(disk: Disk, engine: string) returns (removed: Removed)
    modifies disk
    ensures Accounts(old(disk.root), disk.root, removed)
    ensures disk.root == Only(old(disk.root), {Engine(engine), Objects})
  {
    removed := Removed(0, 0);
    var keep := {Engine(engine), Objects};
    var rest := disk.root;
    SweepEnds(disk.root, keep);
    hide Accounts, Only;
    while rest != map[]
      invariant forall name | name in rest :: name in old(disk.root)
      invariant disk.root == Only(old(disk.root), rest.Keys + keep)
      invariant Accounts(old(disk.root), disk.root, removed)
      decreases |rest|
    {
      var name :| name in rest;
      SweepStep(old(disk.root), rest, keep, name);
      if name !in keep {
        removed := DropRoot(disk, name, removed, old(disk.root));
      }
      rest := rest - {name};
    }
  }

  /** Passing over a kept entry, or dropping one that is not kept, is one step of a sweep. */
  lemma SweepStep(entries: Listing, rest: Listing, keep: set<Name>, file: Name)
    requires file in rest && forall f | f in rest :: f in entries
    ensures Only(entries, (rest - {file}).Keys + keep) ==
            if file in keep then Only(entries, rest.Keys + keep) else Only(entries, rest.Keys + keep) - {file}
    ensures file in Only(entries, rest.Keys + keep)
  {
  }

  lemma SweepEnds(entries: Listing, keep: set<Name>)
    ensures Only(entries, entries.Keys + keep) == entries
    ensures forall rest: Listing | rest == map[] :: Only(entries, rest.Keys + keep) == Only(entries, keep)
  {
  }

  /** The objects named by the live indexes already visited. */
  function Visited(root: Listing, engine: string, live: set<Digest>, rest: Listing): set<Name> {
    set source | source in live && Names(root, engine, source).Some? && Index(source) !in rest ::
      Object(Names(root, engine, source).value)
  }

  lemma VisitNext(root: Listing, engine: string, live: set<Digest>, rest: Listing, file: Name)
    requires file in rest
    ensures Visited(root, engine, live, rest - {file}) ==
            Visited(root, engine, live, rest) +
            if IsLive(file, live) && Names(root, engine, file.source).Some?
            then {Object(Names(root, engine, file.source).value)} else {}
  {
  }

  lemma VisitNone(root: Listing, engine: string, live: set<Digest>)
    ensures Visited(root, engine, live, EntriesOf(root, Engine(engine))) == {}
    ensures Visited(root, engine, live, map[]) == Referenced(root, engine, live)
  {
  }

  /** Removes the engine's dead indexes; a live one that cannot be read stops the prune. */
  method SweepIndexes(disk: Disk, engine: string, live: set<Digest>, tally: Removed, ghost base: Listing)
    returns (r: Result<set<Name>>, removed: Removed)
    requires Accounts(base, disk.root, tally)
    modifies disk
    ensures Accounts(base, disk.root, removed)
    ensures disk.root - {Engine(engine)} == old(disk.root) - {Engine(engine)} && Thinned(old(disk.root), disk.root)
    ensures r.Success? <==>
      && DirFree(old(disk.root), Engine(engine))
      && LiveReadable(old(disk.root), engine, live, EntriesOf(old(disk.root), Engine(engine)).Keys)
    ensures r.Success? ==> r.value == Referenced(old(disk.root), engine, live)
    ensures r.Success? ==>
      disk.root == Swept(old(disk.root), Engine(engine), LiveFiles(EntriesOf(old(disk.root), Engine(engine)), live))
  {
    var dir := Engine(engine);
    VisitNone(disk.root, engine, live);
    if dir !in disk.root {
      return Success({}), tally;
    }
    if disk.root[dir].File? {
      return Failure(Unreadable), tally;
    }
    hide Accounts, Visited, LiveReadable;
    r, removed := SweepIndexDir(disk, engine, live, tally, base);
  }

  method SweepIndexDir(disk: Disk, engine: string, live: set<Digest>, tally: Removed, ghost base: Listing)
    returns (r: Result<set<Name>>, removed: Removed)
    requires Engine(engine) in disk.root && disk.root[Engine(engine)].Dir? && Accounts(base, disk.root, tally)
    modifies disk
    ensures Accounts(base, disk.root, removed)
    ensures disk.root - {Engine(engine)} == old(disk.root) - {Engine(engine)} && Thinned(old(disk.root), disk.root)
    ensures r.Success? <==> LiveReadable(old(disk.root), engine, live, old(disk.root)[Engine(engine)].entries.Keys)
    ensures r.Success? ==> r.value == Visited(old(disk.root), engine, live, map[])
    ensures r.Success? ==>
      disk.root == old(disk.root)[Engine(engine) := Dir(Only(old(disk.root)[Engine(engine)].entries,
                                                        LiveFiles(old(disk.root)[Engine(engine)].entries, live)))]
  {
    removed := tally;
    var dir := Engine(engine);
    ghost var root := disk.root;
    var entries := disk.root[dir].entries;
    var rest, referenced := entries, {};
    hide Accounts, Visited, Only, LiveReadable, LiveFiles, Sweeping, Thinned;
    SweepStarts(root, engine, live, entries, referenced);
    while rest != map[]
      invariant Sweeping(root, disk.root, engine, live, entries, rest, referenced)
      invariant Accounts(base, disk.root, removed)
      decreases |rest|
    {
      var file :| file in rest;
      var visited;
      visited, removed := SweepIndex(disk, engine, live, entries, rest, referenced, file, removed, root, base);
      if visited.Failure? {
        SweepThins(root, disk.root, engine, live, entries, rest, referenced);
        return visited, removed;
      }
      rest, referenced := rest - {file}, visited.value;
    }
    SweepThins(root, disk.root, engine, live, entries, rest, referenced);
    SweepDone(root, disk.root, engine, live, entries, rest, referenced);
    r := Success(referenced);
  }

  /** Halfway through the engine's indexes: the rest is still to be visited. */
  ghost predicate Sweeping(
    root: Listing, root': Listing, engine: string, live: set<Digest>, entries: Listing, rest: Listing,
    referenced: set<Name>)
  {
    && Engine(engine) in root && root[Engine(engine)] == Dir(entries)
    && (forall file | file in rest :: file in entries && rest[file] == entries[file])
    && root' == root[Engine(engine) := Dir(Only(entries, rest.Keys + LiveFiles(entries, live)))]
    && referenced == Visited(root, engine, live, rest)
    && LiveReadable(root, engine, live, entries.Keys - rest.Keys)
  }

  lemma SweepStarts(root: Listing, engine: string, live: set<Digest>, entries: Listing, referenced: set<Name>)
    requires Engine(engine) in root && root[Engine(engine)] == Dir(entries) && referenced == {}
    ensures Sweeping(root, root, engine, live, entries, entries, referenced)
  {
    SweepEnds(entries, LiveFiles(entries, live));
    VisitNone(root, engine, live);
    assert entries.Keys - entries.Keys == {};
  }

  lemma SweepThins(
    root: Listing, root': Listing, engine: string, live: set<Digest>, entries: Listing, rest: Listing,
    referenced: set<Name>)
    requires Sweeping(root, root', engine, live, entries, rest, referenced)
    ensures root' - {Engine(engine)} == root - {Engine(engine)} && Thinned(root, root')
  {
    SweptThins(root, Engine(engine), rest.Keys + LiveFiles(entries, live));
  }

  lemma SweepDone(
    root: Listing, root': Listing, engine: string, live: set<Digest>, entries: Listing, rest: Listing,
    referenced: set<Name>)
    requires Sweeping(root, root', engine, live, entries, rest, referenced) && rest == map[]
    ensures root' == root[Engine(engine) := Dir(Only(entries, LiveFiles(entries, live)))]
    ensures referenced == Visited(root, engine, live, map[])
    ensures LiveReadable(root, engine, live, entries.Keys)
  {
    SweepEnds(entries, LiveFiles(entries, live));
    assert entries.Keys - rest.Keys == entries.Keys;
  }

  /** Visits one index: a live one is read, any other removed. */
  method SweepIndex(
    disk: Disk, engine: string, live: set<Digest>, ghost entries: Listing, rest: Listing, referenced: set<Name>,
    file: Name, tally: Removed, ghost root: Listing, ghost base: Listing)
    returns (r: Result<set<Name>>, removed: Removed)
    requires file in rest && Sweeping(root, disk.root, engine, live, entries, rest, referenced)
    requires Accounts(base, disk.root, tally)
    modifies disk
    ensures Accounts(base, disk.root, removed)
    ensures r.Success? ==> Sweeping(root, disk.root, engine, live, entries, rest - {file}, r.value)
    ensures r.Failure? ==> disk.root == old(disk.root) && !LiveReadable(root, engine, live, entries.Keys)
  {
    ghost var alive := LiveFiles(entries, live);
    VisitNext(root, engine, live, rest, file);
    SweepStep(entries, rest, alive, file);
    ReadableNext(root, engine, live, entries, rest, file);
    OnlyKeeps(entries, rest.Keys + alive, file);
    hide Accounts, Visited, Only, Names, ReadEntry, LiveReadable;
    removed := tally;
    if IsLive(file, live) {
      var named := ReadLive(disk, engine, file.source, root);
      if named.Failure? {
        return Failure(named.why), removed;
      }
      r := Success(referenced + {named.value});
    } else {
      removed := DropEntry(disk, Engine(engine), disk.root[Engine(engine)].entries, file, removed, root, base);
      r := Success(referenced);
    }
  }

  /** Every live index among these files can be read. */
  predicate LiveReadable(root: Listing, engine: string, live: set<Digest>, files: set<Name>) {
    forall file | file in files && IsLive(file, live) :: ReadEntry(root, engine, file.source).Success?
  }

  lemma ReadableNext(root: Listing, engine: string, live: set<Digest>, entries: Listing, rest: Listing, file: Name)
    requires file in rest && file in entries && LiveReadable(root, engine, live, entries.Keys - rest.Keys)
    ensures if IsLive(file, live) && ReadEntry(root, engine, file.source).Failure?
            then !LiveReadable(root, engine, live, entries.Keys)
            else LiveReadable(root, engine, live, entries.Keys - (rest - {file}).Keys)
  {
  }

  method ReadLive(disk: Disk, engine: string, source: Digest, ghost root: Listing) returns (r: Result<Name>)
    requires ReadFile(disk.root, Engine(engine), Index(source)) == ReadFile(root, Engine(engine), Index(source))
    requires !ReadFile(root, Engine(engine), Index(source)).Missing?
    ensures match ReadEntry(root, engine, source)
            case Failure(_) => r.Failure?
            case Success(_) =>
              Names(root, engine, source).Some? && r == Success(Object(Names(root, engine, source).value))
  {
    ReadsSame(root, disk.root, engine, source);
    var read := ReadEntry(disk.root, engine, source);
    r := if read.Failure? then Failure(read.why) else Success(Object(read.value.value.sha));
  }

  lemma OnlyKeeps(entries: Listing, files: set<Name>, file: Name)
    requires file in entries && file in files
    ensures file in Only(entries, files) && Only(entries, files)[file] == entries[file]
  {
  }

  /** Removes one entry of a directory. */
  method DropEntry(
    disk: Disk, dir: Name, entries: Listing, file: Name, tally: Removed, ghost root: Listing, ghost base: Listing)
    returns (removed: Removed)
    requires disk.root == root[dir := Dir(entries)] && file in entries && Accounts(base, disk.root, tally)
    modifies disk
    ensures disk.root == root[dir := Dir(entries - {file})] && Accounts(base, disk.root, removed)
  {
    hide FilesIn, BytesIn;
    DirTake(root, dir, entries, file);
    removed := RemoveTree(tally, entries[file]);
    disk.root := disk.root[dir := Dir(entries - {file})];
    assert disk.root == root[dir := Dir(entries - {file})];
  }

  /** Removes every object nobody refers to. */
  method SweepObjects(disk: Disk, referenced: set<Name>, tally: Removed, ghost base: Listing)
    returns (ok: bool, removed: Removed)
    requires Accounts(base, disk.root, tally)
    modifies disk
    ensures Accounts(base, disk.root, removed)
    ensures ok <==> DirFree(old(disk.root), Objects)
    ensures !ok ==> disk.root == old(disk.root)
    ensures ok ==> disk.root == Swept(old(disk.root), Objects, referenced)
  {
    removed := tally;
    if Objects !in disk.root {
      return true, removed;
    }
    if disk.root[Objects].File? {
      return false, removed;
    }
    ghost var root := disk.root;
    var entries := disk.root[Objects].entries;
    var rest := entries;
    SweepEnds(entries, referenced);
    hide Accounts, Only;
    while rest != map[]
      invariant forall file | file in rest :: file in entries && rest[file] == entries[file]
      invariant disk.root == root[Objects := Dir(Only(entries, rest.Keys + referenced))]
      invariant Accounts(base, disk.root, removed)
      decreases |rest|
    {
      var file :| file in rest;
      SweepStep(entries, rest, referenced, file);
      if file !in referenced {
        removed := DropEntry(disk, Objects, disk.root[Objects].entries, file, removed, root, base);
      }
      rest := rest - {file};
    }
    ok := true;
  }

  lemma SweepsMakePruned(root: Listing, engine: string, live: set<Digest>)
    requires DirFree(root, Engine(engine)) && DirFree(root, Objects)
    ensures var kept := Only(root, {Engine(engine), Objects});
            var swept := Swept(kept, Engine(engine), LiveFiles(EntriesOf(root, Engine(engine)), live));
            Swept(swept, Objects, Referenced(root, engine, live)) == Pruned(root, engine, live)
  {
  }

  lemma SweepRootKeepsReads(root: Listing, engine: string, live: set<Digest>)
    ensures var kept := Only(root, {Engine(engine), Objects});
            && Referenced(kept, engine, live) == Referenced(root, engine, live)
            && (forall source :: ReadEntry(kept, engine, source) == ReadEntry(root, engine, source))
            && EntriesOf(kept, Engine(engine)) == EntriesOf(root, Engine(engine))
            && EntriesOf(kept, Objects) == EntriesOf(root, Objects)
            && DirFree(kept, Engine(engine)) == DirFree(root, Engine(engine))
            && DirFree(kept, Objects) == DirFree(root, Objects)
  {
    var kept := Only(root, {Engine(engine), Objects});
    forall source
      ensures ReadEntry(kept, engine, source) == ReadEntry(root, engine, source)
      ensures Names(kept, engine, source) == Names(root, engine, source)
    {
      ReadsSame(root, kept, engine, source);
    }
  }

  /** What stays: in the engine's directory the live indexes, and of the objects those that a live index names. */
  ghost predicate KeepsExactly(root: Listing, root': Listing, engine: string, live: set<Digest>) {
    && (forall dir :: dir in root' <==> dir in root && (dir == Engine(engine) || dir == Objects))
    && (forall dir | dir in root' :: root'[dir].Dir?)
    && (Engine(engine) in root' ==>
          forall file :: file in root'[Engine(engine)].entries <==>
            file in EntriesOf(root, Engine(engine)) && file.Index? && file.source in live)
    && (Objects in root' ==>
          forall file :: file in root'[Objects].entries <==>
            && file in EntriesOf(root, Objects)
            && exists source, entry | source in live ::
                 IsIndex(ReadFile(root, Engine(engine), Index(source)), entry) && file == Object(entry.sha))
    && forall dir, file | dir in root' && file in root'[dir].entries ::
         root'[dir].entries[file] == EntriesOf(root, dir)[file]
  }

  lemma PrunedKeepsExactly(root: Listing, engine: string, live: set<Digest>)
    ensures KeepsExactly(root, Pruned(root, engine, live), engine, live)
  {
    forall source ensures match Names(root, engine, source)
                          case Some(sha) => exists entry ::
                            IsIndex(ReadFile(root, Engine(engine), Index(source)), entry) && entry.sha == sha
                          case None => forall entry :: !IsIndex(ReadFile(root, Engine(engine), Index(source)), entry)
    {
      ReadEntryMeans(root, engine, source);
    }
    hide Names, ReadFile;
    forall file ensures file in Referenced(root, engine, live) <==>
        exists source, entry | source in live ::
          IsIndex(ReadFile(root, Engine(engine), Index(source)), entry) && file == Object(entry.sha)
    {
    }
  }

  /** Something is in the way: a file where a directory belongs, or a live index that is no index. */
  ghost predicate Obstructed(root: Listing, engine: string, live: set<Digest>) {
    || (Engine(engine) in root && root[Engine(engine)].File?)
    || (Objects in root && root[Objects].File?)
    || exists source | source in live ::
         var found := ReadFile(root, Engine(engine), Index(source));
         !found.Missing? && forall entry :: !IsIndex(found, entry)
  }

  lemma PrunableMeans(root: Listing, engine: string, live: set<Digest>)
    ensures Prunable(root, engine, live) <==> !Obstructed(root, engine, live)
  {
    forall source ensures ReadEntry(root, engine, source).Failure? <==>
        var found := ReadFile(root, Engine(engine), Index(source));
        !found.Missing? && forall entry :: !IsIndex(found, entry)
    {
      ReadEntryMeans(root, engine, source);
      var found := ReadFile(root, Engine(engine), Index(source));
      if found.Faulty? || found.Missing? {
        assert forall entry :: !IsIndex(found, entry);
      }
    }
    hide ReadEntry;
    forall source | source in live && Index(source) !in EntriesOf(root, Engine(engine))
      ensures DirFree(root, Engine(engine)) ==> ReadFile(root, Engine(engine), Index(source)).Missing?
    {
    }
  }

  /**
   * Prunes to exactly the live indexes of this engine and the objects they name, and accounts for
   * every file removed. It fails just when something in its way cannot be read, and then no object
   * has been touched.
   */
  method PruneCache(disk: Disk, engine: string, live: set<Digest>) returns (r: Result<Removed>)
    modifies disk
    ensures r.Success? <==> Prunable(old(disk.root), engine, live)
    ensures r.Success? <==> !Obstructed(old(disk.root), engine, live)
    ensures r.Success? ==> disk.root == Pruned(old(disk.root), engine, live)
    ensures r.Success? ==> KeepsExactly(old(disk.root), disk.root, engine, live)
    ensures r.Success? ==> Accounts(old(disk.root), disk.root, r.value)
    ensures r.Success? ==> r.value.files == |Paths(Dir(old(disk.root)))| - |Paths(Dir(disk.root))|
    ensures r.Failure? ==> EntriesOf(disk.root, Objects) == EntriesOf(old(disk.root), Objects)
    ensures Thinned(old(disk.root), disk.root)
  {
    hide Accounts, Referenced, Obstructed, KeepsExactly, Paths;
    ghost var root := disk.root;
    PrunableMeans(root, engine, live);
    PrunedKeepsExactly(root, engine, live);
    SweepRootKeepsReads(root, engine, live);
    OnlyThins(root, {Engine(engine), Objects});
    var removed := SweepRoot(disk, engine);
    var referenced, ok;
    referenced, removed := SweepIndexes(disk, engine, live, removed, root);
    assert Objects in disk.root - {Engine(engine)} <==> Objects in disk.root;
    assert EntriesOf(disk.root, Objects) == EntriesOf(root, Objects);
    if referenced.Failure? {
      return Failure(referenced.why);
    }
    if DirFree(disk.root, Objects) {
      SweptThins(disk.root, Objects, referenced.value);
    }
    ok, removed := SweepObjects(disk, referenced.value, removed, root);
    if !ok {
      return Failure(Unreadable);
    }
    SweepsMakePruned(root, engine, live);
    FilesGone(root, disk.root, removed);
    r := Success(removed);
  }

  /** The second of two prunes removes nothing. */
  method PruneTwice(disk: Disk, engine: string, live: set<Digest>)
    returns (first: Result<Removed>, second: Result<Removed>)
    modifies disk
    ensures first.Success? ==> second.Success? && second.value.files == 0
    ensures first.Success? && BytesIn(disk.root) < U64_MAX ==> second.value.bytes == 0
    ensures first.Success? ==> disk.root == Pruned(old(disk.root), engine, live)
  {
    ghost var root := disk.root;
    first := PruneCache(disk, engine, live);
    if first.Success? {
      PruneIsIdempotent(root, engine, live);
    }
    second := PruneCache(disk, engine, live);
  }
}
