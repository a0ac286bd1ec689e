/** Whole lives of a cache: operations, new boots, crashes and damage, in any order. */
module CacheRuns {
  import opened Text
  import opened FileTree
  import opened Cwasm
  import opened Prune

  /**
   * How far a publication got before the process died: halfway through a repair, after it, after a
   * damaged object was removed, while or after the object was written, or while the index was. What was
   * being written is left behind in a temporary file.
   */
  datatype Cut =
    | BetweenRemovals | AfterRepair | AfterCheck
    | InObject(temporary: string, partial: Content) | AfterObject | InIndex(temporary: string, partial: Content)

  datatype Step =
    | Boot(engine: string)
    | LoadIt(source: Digest)
    | PublishIt(wasm: Content)
    | PrecompileIt(wasm: Content)
    | PruneIt(live: set<Digest>)
    | CrashIn(wasm: Content, cut: Cut)
    | SpoilObject(file: Name, node: Option<Node>)
    | LoseIndex(engine: string, source: Digest)
    | GarbleIndex(engine: string, source: Digest, content: Content)
    | Litter(name: string, tree: Node)

  /** The disk, and what the current boot has mapped. */
  datatype Machine = Machine(engine: string, root: Listing, loaded: map<Digest, Component>)

  function MachineOf(cache: Cache): Machine
    reads cache, cache.disk
  {
    Machine(cache.engine, cache.disk.root, cache.loaded)
  }

  /** A component somebody was given. */
  datatype Answer = Answer(engine: string, source: Digest, component: Component)

  ghost predicate Agrees(tools: Toolchain, answer: Answer) {
    tools.Direct(answer.engine, answer.source.of) == Some(answer.component)
  }

  /** Changes to the objects alone leave every index as it is. */
  lemma ObjectsAreNotIndexes(tools: Toolchain, root: Listing, entries: Listing)
    requires Trusted(tools, root)
    ensures Trusted(tools, root[Objects := Dir(entries)])
  {
    forall e, s ensures Binds(tools, e, s, ReadFile(root[Objects := Dir(entries)], Engine(e), Index(s))) {
      assert Binds(tools, e, s, ReadFile(root, Engine(e), Index(s)));
    }
  }

  /** An index that is lost or no longer parses binds nothing. */
  lemma SpoiledIndexBindsNothing(tools: Toolchain, root: Listing, engine: string, source: Digest, entries: Listing)
    requires Trusted(tools, root) && DirFree(root, Engine(engine))
    requires forall file | file in entries && file != Index(source) ::
               file in EntriesOf(root, Engine(engine)) && entries[file] == EntriesOf(root, Engine(engine))[file]
    requires Index(source) in entries ==>
      entries[Index(source)].File? && ParseEntry(entries[Index(source)].content).None?
    ensures Trusted(tools, root[Engine(engine) := Dir(entries)])
  {
    forall e, s ensures Binds(tools, e, s, ReadFile(root[Engine(engine) := Dir(entries)], Engine(e), Index(s))) {
      assert Binds(tools, e, s, ReadFile(root, Engine(e), Index(s)));
    }
  }

  lemma LitterIsNotIndex(tools: Toolchain, root: Listing, name: string, node: Node)
    requires Trusted(tools, root)
    ensures Trusted(tools, root[Other(name) := node])
  {
    forall e, s ensures Binds(tools, e, s, ReadFile(root[Other(name) := node], Engine(e), Index(s))) {
      assert Binds(tools, e, s, ReadFile(root, Engine(e), Index(s)));
    }
  }

  lemma {:induction false} FewerFit(more: Listing, fewer: Listing)
    requires fewer.Keys <= more.Keys && forall name | name in fewer :: fewer[name] == more[name]
    requires WithinLimits(more)
    ensures WithinLimits(fewer)
    decreases |more|
  {
    if fewer.Keys == more.Keys {
      assert fewer == more;
    } else {
      var name :| name in more && name !in fewer;
      CapacityAfterRemoval(more, name, 0);
      SizesTake(more, name);
      FewerFit(more - {name}, fewer);
    }
  }

  // Crashes.

  /** A temporary file left in a directory; its name is new there. */
  function WithTemporary(root: Listing, dir: Name, temporary: string, partial: Content): Listing {
    if !DirFree(root, dir) || Other(temporary) in EntriesOf(root, dir) then root
    else WithFile(root, dir, Other(temporary), partial)
  }

  lemma TemporaryIsLeft(root: Listing, dir: Name, temporary: string, partial: Content, dir': Name, file: Name)
    requires DirFree(root, dir) && Other(temporary) !in EntriesOf(root, dir)
    ensures ReadFile(WithTemporary(root, dir, temporary, partial), dir', file) ==
            if dir' == dir && file == Other(temporary) then Holds(partial) else ReadFile(root, dir', file)
  {
    ReadAfterWrite(root, dir, Other(temporary), partial, dir', file);
  }

  /** What a crash while the files of a new artifact are written leaves, when its object is or is not there yet. */
  ghost function WriteCut(root: Listing, engine: string, artifact: Content, cut: Cut): Listing
    requires DirFree(root, Engine(engine))
  {
    var entered := WithDir(root, Engine(engine));
    if Intact(root, Digest(artifact)) then IndexCut(entered, engine, cut)
    else if !DirFree(entered, Objects) then entered
    else
      var listed := WithDir(entered, Objects);
      if !HasCapacity(EntriesOf(listed, Objects), Len(artifact)) then listed
      else if cut.InObject? then
        if Len(artifact) < Len(cut.partial) then listed else WithTemporary(listed, Objects, cut.temporary, cut.partial)
      else IndexCut(WithFile(listed, Objects, Object(Digest(artifact)), artifact), engine, cut)
  }

  function IndexCut(root: Listing, engine: string, cut: Cut): Listing {
    if cut.InIndex? then WithTemporary(root, Engine(engine), cut.temporary, cut.partial) else root
  }

  /** What a crash leaves once the way for a source is clear. */
  ghost function StoreCut(tools: Toolchain, root: Listing, engine: string, wasm: Content, cut: Cut): Listing {
    match tools.Compile(engine, wasm)
    case None => root
    case Some(artifact) =>
      if cut.BetweenRemovals? || cut.AfterRepair? || MAX_CWASM_BYTES < Len(artifact) then root
      else if ReadFile(root, Objects, Object(Digest(artifact))).Faulty? then root
      else
        var checked := WithoutDamaged(root, Digest(artifact));
        if cut.AfterCheck? || !DirFree(checked, Engine(engine)) then checked
        else WriteCut(checked, engine, artifact, cut)
  }

  /** A crash after the object was written leaves what publishing leaves, but for the index. */
  lemma OnlyIndexMissing(root: Listing, engine: string, source: Digest, artifact: Content)
    requires Storable(root, engine, artifact)
    ensures Stored(root, engine, source, artifact) ==
            Indexed(WriteCut(root, engine, artifact, AfterObject), engine, source, artifact)
  {
    hide HasCapacity;
    assert EntriesOf(WithDir(WithDir(root, Engine(engine)), Objects), Objects) == EntriesOf(root, Objects);
  }

  /** What a publication of this source that dies at the cut leaves on disk. */
  ghost function Crashed(tools: Toolchain, machine: Machine, wasm: Content, cut: Cut): Listing {
    var Machine(engine, root, loaded), source := machine, Digest(wasm);
    match Load(tools, root, engine, loaded, source)
    case Success(Mapped(_)) => root
    case Success(NotCached) => StoreCut(tools, root, engine, wasm, cut)
    case Failure(_) =>
      if IndexUnreadable(root, engine, source) then root
      else if cut.BetweenRemovals? then ObjectCleared(root, engine, source)
      else StoreCut(tools, Cleared(root, engine, source), engine, wasm, cut)
  }

  /** Nothing was forged and the store did not outgrow its limits. */
  ghost predicate Harmless(tools: Toolchain, root: Listing, root': Listing) {
    && Trusted(tools, root')
    && (WithinLimits(EntriesOf(root, Objects)) ==> WithinLimits(EntriesOf(root', Objects)))
  }

  lemma TemporaryIsHarmless(tools: Toolchain, root: Listing, engine: string, temporary: string, partial: Content)
    requires Trusted(tools, root)
    ensures Harmless(tools, root, WithTemporary(root, Engine(engine), temporary, partial))
  {
    hide WithinLimits;
    var root' := WithTemporary(root, Engine(engine), temporary, partial);
    if root' != root {
      NewFileIsNoIndex(tools, root, Engine(engine), Other(temporary), partial);
      assert EntriesOf(root', Objects) == EntriesOf(root, Objects);
    }
  }

  lemma NewFileIsNoIndex(tools: Toolchain, root: Listing, dir: Name, file: Name, content: Content)
    requires Trusted(tools, root) && DirFree(root, dir) && !file.Index?
    ensures Trusted(tools, WithFile(root, dir, file, content))
  {
    forall e, s ensures Binds(tools, e, s, ReadFile(WithFile(root, dir, file, content), Engine(e), Index(s))) {
      ReadAfterWrite(root, dir, file, content, Engine(e), Index(s));
      assert Binds(tools, e, s, ReadFile(root, Engine(e), Index(s)));
    }
  }

  lemma NewDirIsHarmless(tools: Toolchain, root: Listing, dir: Name)
    requires Trusted(tools, root)
    ensures Harmless(tools, root, WithDir(root, dir))
    ensures EntriesOf(WithDir(root, dir), Objects) == EntriesOf(root, Objects)
  {
    hide WithinLimits;
    forall e, s ensures Binds(tools, e, s, ReadFile(WithDir(root, dir), Engine(e), Index(s))) {
      assert Binds(tools, e, s, ReadFile(root, Engine(e), Index(s)));
    }
  }

  /** An object, or part of one, that the capacity check let through. */
  lemma NewObjectIsHarmless(tools: Toolchain, root: Listing, file: Name, content: Content, requested: nat)
    requires Trusted(tools, root) && DirFree(root, Objects) && !file.Index? && file !in EntriesOf(root, Objects)
    requires HasCapacity(EntriesOf(root, Objects), requested) && Len(content) <= requested <= MAX_CWASM_BYTES
    ensures Harmless(tools, root, WithFile(root, Objects, file, content))
  {
    NewFileIsNoIndex(tools, root, Objects, file, content);
    CapacityIsEnough(EntriesOf(root, Objects), file, content);
    assert EntriesOf(WithFile(root, Objects, file, content), Objects)
        == EntriesOf(root, Objects)[file := File(content)];
  }

  lemma HarmlessChains(tools: Toolchain, a: Listing, b: Listing, c: Listing)
    requires Harmless(tools, a, b) && Harmless(tools, b, c)
    ensures Harmless(tools, a, c)
  {
  }

  lemma RemovalIsHarmless(tools: Toolchain, root: Listing, sha: Digest)
    requires Trusted(tools, root)
    ensures Harmless(tools, root, WithoutDamaged(root, sha))
  {
    var root' := WithoutDamaged(root, sha);
    if root' != root {
      forall e, s ensures Binds(tools, e, s, ReadFile(root', Engine(e), Index(s))) {
        ReadAfterRemove(root, Objects, Object(sha), Engine(e), Index(s));
        assert Binds(tools, e, s, ReadFile(root, Engine(e), Index(s)));
      }
      CapacityAfterRemoval(EntriesOf(root, Objects), Object(sha), 0);
      assert EntriesOf(root', Objects) == EntriesOf(root, Objects) - {Object(sha)};
    }
  }

  lemma ObjectClearedIsHarmless(tools: Toolchain, root: Listing, engine: string, source: Digest)
    requires Trusted(tools, root)
    ensures Harmless(tools, root, ObjectCleared(root, engine, source))
  {
    match ReadFile(root, Engine(engine), Index(source)) {
      case Holds(content) =>
        if ParseEntry(content).Some? {
          RemovalIsHarmless(tools, root, ParseEntry(content).value.sha);
        }
      case _ =>
    }
  }

  /** A publication that dies at the cut: it leaves what it had done, forges nothing and outgrows nothing. */
  method CrashedPublish(cache: Cache, wasm: Content, cut: Cut)
    requires cache.Truthful()
    modifies cache.disk
    ensures cache.disk.root == Crashed(cache.tools, old(MachineOf(cache)), wasm, cut)
    ensures Harmless(cache.tools, old(cache.disk.root), cache.disk.root)
  {
    hide WithinLimits, HasCapacity, StoreCut, ObjectCleared, ParseEntry, Binds;
    var source := Digest(wasm);
    ghost var root := cache.disk.root;
    var looked := Load(cache.tools, cache.disk.root, cache.engine, cache.loaded, source);
    if looked.Success? && looked.value.Mapped? {
      return;
    }
    if looked.Failure? {
      if cut.BetweenRemovals? {
        ObjectClearedIsHarmless(cache.tools, root, cache.engine, source);
        if !IndexUnreadable(cache.disk.root, cache.engine, source) {
          cache.disk.root := ObjectCleared(cache.disk.root, cache.engine, source);
        }
        return;
      }
      var cleared := cache.Repair(source);
      KeepsTrust(cache.tools, root, cache.disk.root, cache.engine, source);
      if cleared.Failure? {
        return;
      }
    }
    ghost var root1 := cache.disk.root;
    CrashedStore(cache, wasm, cut);
    HarmlessChains(cache.tools, root, root1, cache.disk.root);
  }

  method CrashedStore(cache: Cache, wasm: Content, cut: Cut)
    requires Trusted(cache.tools, cache.disk.root)
    modifies cache.disk
    ensures cache.disk.root == StoreCut(cache.tools, old(cache.disk.root), cache.engine, wasm, cut)
    ensures Harmless(cache.tools, old(cache.disk.root), cache.disk.root)
  {
    hide WithinLimits, HasCapacity, WriteCut, Binds;
    ghost var root := cache.disk.root;
    var compiled := cache.tools.Compile(cache.engine, wasm);
    if cut.BetweenRemovals? || cut.AfterRepair? || compiled.None? || MAX_CWASM_BYTES < Len(compiled.value) {
      return;
    }
    RemovalIsHarmless(cache.tools, root, Digest(compiled.value));
    var reusable := cache.CheckObject(EntryOf(compiled.value), Digest(wasm));
    if cut.AfterCheck? || reusable.Failure? || !DirFree(cache.disk.root, Engine(cache.engine)) {
      return;
    }
    ghost var root1 := cache.disk.root;
    CrashedWrite(cache, compiled.value, cut);
    HarmlessChains(cache.tools, root, root1, cache.disk.root);
  }

  method CrashedWrite(cache: Cache, artifact: Content, cut: Cut)
    requires Trusted(cache.tools, cache.disk.root) && DirFree(cache.disk.root, Engine(cache.engine))
    requires Len(artifact) <= MAX_CWASM_BYTES
    requires
      || Intact(cache.disk.root, Digest(artifact))
      || ReadFile(cache.disk.root, Objects, Object(Digest(artifact))).Missing?
      || !DirFree(cache.disk.root, Objects)
    modifies cache.disk
    ensures cache.disk.root == WriteCut(old(cache.disk.root), cache.engine, artifact, cut)
    ensures Harmless(cache.tools, old(cache.disk.root), cache.disk.root)
  {
    hide WithinLimits, HasCapacity, Binds, IndexCut;
    ghost var root := cache.disk.root;
    var there := Intact(cache.disk.root, Digest(artifact));
    NewDirIsHarmless(cache.tools, root, Engine(cache.engine));
    var entered := cache.disk.CreateDir(Engine(cache.engine));
    ghost var root1 := cache.disk.root;
    if !there {
      var stored := CrashedObject(cache, artifact, cut);
      HarmlessChains(cache.tools, root, root1, cache.disk.root);
      if !stored {
        return;
      }
    }
    ghost var root2 := cache.disk.root;
    CrashedIndex(cache, cut);
    HarmlessChains(cache.tools, root, root2, cache.disk.root);
  }

  /** The object is written, unless the crash comes first or there is no room for it. */
  method CrashedObject(cache: Cache, artifact: Content, cut: Cut) returns (stored: bool)
    requires Trusted(cache.tools, cache.disk.root) && Len(artifact) <= MAX_CWASM_BYTES
    requires ReadFile(cache.disk.root, Objects, Object(Digest(artifact))).Missing? || !DirFree(cache.disk.root, Objects)
    modifies cache.disk
    ensures Harmless(cache.tools, old(cache.disk.root), cache.disk.root)
    ensures var listed := WithDir(old(cache.disk.root), Objects);
            var room :=
              DirFree(old(cache.disk.root), Objects) && HasCapacity(EntriesOf(listed, Objects), Len(artifact));
            && stored == (room && !cut.InObject?)
            && cache.disk.root ==
               if stored then WithFile(listed, Objects, Object(Digest(artifact)), artifact)
               else if room && Len(cut.partial) <= Len(artifact)
               then WithTemporary(listed, Objects, cut.temporary, cut.partial)
               else listed
  {
    hide WithinLimits, HasCapacity, Binds;
    ghost var root := cache.disk.root;
    NewDirIsHarmless(cache.tools, root, Objects);
    var listed := cache.disk.CreateDir(Objects);
    if !listed {
      return false;
    }
    ghost var root1 := cache.disk.root;
    var room := EnsureCapacity(EntriesOf(cache.disk.root, Objects), Len(artifact));
    if !room {
      return false;
    }
    var file, content := Object(Digest(artifact)), artifact;
    if cut.InObject? {
      if Len(artifact) < Len(cut.partial) || Other(cut.temporary) in EntriesOf(cache.disk.root, Objects) {
        return false;
      }
      file, content := Other(cut.temporary), cut.partial;
    }
    NewObjectIsHarmless(cache.tools, root1, file, content, Len(artifact));
    stored := cache.disk.PublishNew(Objects, file, content);
    HarmlessChains(cache.tools, root, root1, cache.disk.root);
    stored := !cut.InObject?;
  }

  method CrashedIndex(cache: Cache, cut: Cut)
    requires Trusted(cache.tools, cache.disk.root)
    modifies cache.disk
    ensures cache.disk.root == IndexCut(old(cache.disk.root), cache.engine, cut)
    ensures Harmless(cache.tools, old(cache.disk.root), cache.disk.root)
  {
    hide WithinLimits, Binds, WithTemporary;
    if cut.InIndex? {
      TemporaryIsHarmless(cache.tools, cache.disk.root, cache.engine, cut.temporary, cut.partial);
      cache.disk.root := WithTemporary(cache.disk.root, Engine(cache.engine), cut.temporary, cut.partial);
    }
  }

  // Damage.

  predicate IsDamage(step: Step) {
    step.SpoilObject? || step.LoseIndex? || step.GarbleIndex? || step.Litter?
  }

  /** What damage from outside leaves: any object is anything, an index is gone or no longer parses. */
  function Spoiled(root: Listing, step: Step): Listing
    requires IsDamage(step)
  {
    match step
    case SpoilObject(file, node) =>
      var entries := EntriesOf(root, Objects);
      root[Objects := Dir(if node.Some? then entries[file := node.value] else entries - {file})]
    case LoseIndex(engine, source) =>
      if Engine(engine) in root && root[Engine(engine)].Dir?
      then root[Engine(engine) := Dir(root[Engine(engine)].entries - {Index(source)})]
      else root
    case GarbleIndex(engine, source, content) =>
      if DirFree(root, Engine(engine)) && ParseEntry(content).None?
      then WithFile(root, Engine(engine), Index(source), content)
      else root
    case Litter(name, tree) => root[Other(name) := tree]
  }

  /** The damage is done: the object is this or gone, and the index is gone or garbled, where it can be. */
  lemma DamageIsDone(root: Listing, step: Step)
    requires IsDamage(step)
    ensures var root' := Spoiled(root, step);
            match step
            case SpoilObject(file, node) =>
              && (file in EntriesOf(root', Objects) <==> node.Some?)
              && (node.Some? ==> EntriesOf(root', Objects)[file] == node.value)
            case LoseIndex(engine, source) =>
              DirFree(root, Engine(engine)) ==> ReadFile(root', Engine(engine), Index(source)).Missing?
            case GarbleIndex(engine, source, content) =>
              DirFree(root, Engine(engine)) && ParseEntry(content).None? ==>
                ReadFile(root', Engine(engine), Index(source)) == Holds(content)
            case Litter(name, tree) => Other(name) in root' && root'[Other(name)] == tree
  {
  }

  /** Damage forges no binding, and nothing but a spoiled object changes the store. */
  lemma DamageForgesNothing(tools: Toolchain, root: Listing, step: Step)
    requires Trusted(tools, root) && IsDamage(step)
    ensures Trusted(tools, Spoiled(root, step))
    ensures !step.SpoilObject? ==> EntriesOf(Spoiled(root, step), Objects) == EntriesOf(root, Objects)
  {
    match step {
      case SpoilObject(file, node) =>
        var entries := EntriesOf(root, Objects);
        ObjectsAreNotIndexes(tools, root, if node.Some? then entries[file := node.value] else entries - {file});
      case LoseIndex(engine, source) =>
        if Engine(engine) in root && root[Engine(engine)].Dir? {
          SpoiledIndexBindsNothing(tools, root, engine, source, root[Engine(engine)].entries - {Index(source)});
        }
      case GarbleIndex(engine, source, content) =>
        if DirFree(root, Engine(engine)) && ParseEntry(content).None? {
          SpoiledIndexBindsNothing(tools, root, engine, source,
                                   EntriesOf(root, Engine(engine))[Index(source) := File(content)]);
        }
      case Litter(name, tree) =>
        LitterIsNotIndex(tools, root, name, tree);
    }
  }

  /** What each step does to the machine, and whom it gives a component. */
  ghost predicate Does(tools: Toolchain, before: Machine, step: Step, after: Machine, answers: seq<Answer>) {
    var Machine(engine, root, loaded) := before;
    match step
    case Boot(other) => after == Machine(other, root, map[]) && answers == []
    case LoadIt(source) =>
      && after == before.(loaded := Remembered(tools, root, engine, loaded, source))
      && Serves(engine, source, Maps(Load(tools, root, engine, loaded, source)), answers)
    case PublishIt(wasm) =>
      var maps := Maps(Load(tools, root, engine, loaded, Digest(wasm)));
      && after == Machine(engine, if maps then root else Published(tools, root, engine, wasm),
                          Mapping(tools, root, engine, loaded, wasm))
      && Serves(engine, Digest(wasm), maps || CanPublish(tools, root, engine, wasm), answers)
    case PrecompileIt(wasm) =>
      && after == Machine(engine, Precompiled(tools, root, engine, loaded, wasm),
                          if Untouched(root, engine, Digest(wasm)) then loaded
                          else Mapping(tools, root, engine, loaded, wasm))
      && answers == []
    case PruneIt(live) => PruneDoes(before, live, after) && answers == []
    case CrashIn(wasm, cut) => after == Machine(engine, Crashed(tools, before, wasm, cut), map[]) && answers == []
    case _ => after == before.(root := Spoiled(root, step)) && answers == []
  }

  /** One component for this source is given out, or none. */
  ghost predicate Serves(engine: string, source: Digest, given: bool, answers: seq<Answer>) {
    && |answers| == (if given then 1 else 0)
    && forall i | 0 <= i < |answers| :: answers[i].engine == engine && answers[i].source == source
  }

  /** Pruning takes out what is not live, all of it or, if a live index cannot be read, no object. */
  ghost predicate PruneDoes(before: Machine, live: set<Digest>, after: Machine) {
    && after == before.(root := after.root)
    && Thinned(before.root, after.root)
    && if Prunable(before.root, before.engine, live) then after.root == Pruned(before.root, before.engine, live)
       else EntriesOf(after.root, Objects) == EntriesOf(before.root, Objects)
  }

  /** One step of a run, on the cache of the current boot. */
  method Take(cache: Cache, step: Step) returns (cache': Cache, answers: seq<Answer>)
    requires cache.Truthful()
    modifies cache, cache.disk
    ensures cache'.Truthful() && cache'.tools == cache.tools && cache'.disk == cache.disk
    ensures cache' == cache || fresh(cache')
    ensures forall i | 0 <= i < |answers| :: Agrees(cache.tools, answers[i])
    ensures Does(cache.tools, old(MachineOf(cache)), step, MachineOf(cache'), answers)
    ensures !step.SpoilObject? && WithinLimits(EntriesOf(old(cache.disk.root), Objects)) ==>
      WithinLimits(EntriesOf(cache.disk.root, Objects))
  {
    hide WithinLimits, HasCapacity, Load, Published, CanPublish, Mapping, Precompiled, Crashed, Keeps, Intact,
      Remembered, Cache.Report;
    cache', answers := cache, [];
    match step
    case Boot(engine) =>
      cache' := new Cache(cache.tools, engine, cache.disk);
    case LoadIt(source) =>
      var r := cache.LoadSource(source);
      if r.Success? && r.value.Mapped? {
        answers := [Answer(cache.engine, source, r.value.component)];
      }
    case PublishIt(wasm) =>
      var r := cache.Publish(wasm, Digest(wasm));
      if r.Success? {
        answers := [Answer(cache.engine, Digest(wasm), r.value.0)];
      }
    case PrecompileIt(wasm) =>
      var r := cache.Precompile(wasm, Digest(wasm));
    case PruneIt(live) =>
      PruneStep(cache, live);
    case CrashIn(wasm, cut) =>
      CrashedPublish(cache, wasm, cut);
      cache' := new Cache(cache.tools, cache.engine, cache.disk);
    case _ =>
      DamageForgesNothing(cache.tools, cache.disk.root, step);
      cache.disk.root := Spoiled(cache.disk.root, step);
  }

  method PruneStep(cache: Cache, live: set<Digest>)
    requires cache.Truthful()
    modifies cache.disk
    ensures Trusted(cache.tools, cache.disk.root)
    ensures PruneDoes(old(MachineOf(cache)), live, MachineOf(cache))
    ensures WithinLimits(EntriesOf(old(cache.disk.root), Objects)) ==> WithinLimits(EntriesOf(cache.disk.root, Objects))
  {
    ghost var root := cache.disk.root;
    var r := PruneCache(cache.disk, cache.engine, live);
    ThinnedKeepsTrust(cache.tools, root, cache.disk.root);
    if r.Success? {
      if WithinLimits(EntriesOf(root, Objects)) {
        FewerFit(EntriesOf(root, Objects), EntriesOf(cache.disk.root, Objects));
      }
    }
  }

  /**
   * Any run at all, from an empty disk: every step does what it should, every component ever handed out
   * is the one direct compilation gives, and as long as only publications add objects the store stays
   * within its limits.
   */
  method Drive(tools: Toolchain, engine: string, steps: seq<Step>)
    returns (answers: seq<seq<Answer>>, objects: Listing, ghost trace: seq<Machine>)
    ensures |trace| == |steps| + 1 && trace[0] == Machine(engine, map[], map[]) && |answers| == |steps|
    ensures forall i | 0 <= i < |steps| :: Does(tools, trace[i], steps[i], trace[i + 1], answers[i])
    ensures forall i, j | 0 <= i < |answers| && 0 <= j < |answers[i]| :: Agrees(tools, answers[i][j])
    ensures objects == EntriesOf(trace[|steps|].root, Objects)
    ensures (forall i | 0 <= i < |steps| :: !steps[i].SpoilObject?) ==> WithinLimits(objects)
  {
    hide WithinLimits, Does, Agrees, EntriesOf, Cache.Truthful;
    var disk := new Disk();
    var cache := new Cache(tools, engine, disk);
    Begins(cache);
    answers, trace := [], [MachineOf(cache)];
    for n := 0 to |steps|
      invariant fresh(cache) && fresh(disk) && cache.disk == disk && cache.tools == tools && cache.Truthful()
      invariant |trace| == n + 1 && trace[0] == Machine(engine, map[], map[]) && trace[n] == MachineOf(cache)
      invariant |answers| == n && forall i | 0 <= i < n :: Does(tools, trace[i], steps[i], trace[i + 1], answers[i])
      invariant forall i, j | 0 <= i < |answers| && 0 <= j < |answers[i]| :: Agrees(tools, answers[i][j])
      invariant (forall i | 0 <= i < n :: !steps[i].SpoilObject?) ==> WithinLimits(EntriesOf(disk.root, Objects))
    {
      var given;
      cache, given := Take(cache, steps[n]);
      answers, trace := answers + [given], trace + [MachineOf(cache)];
    }
    objects := EntriesOf(disk.root, Objects);
  }

  /** An empty disk holds nothing wrong and nothing too large. */
  lemma Begins(cache: Cache)
    requires cache.disk.root == map[] && cache.loaded == map[]
    ensures cache.Truthful() && WithinLimits(EntriesOf(cache.disk.root, Objects))
  {
    assert Sizes(map[]) == map[];
  }
}
