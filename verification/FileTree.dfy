/** Directory trees, their size, and the removal of whole trees. */
module FileTree {
  import opened Text

  const U64_MAX: nat := 0xFFFF_FFFF_FFFF_FFFF

  /** A file's bytes: an index entry as JSON, padded with blanks to `size`, or anything else. */
  datatype Content = Raw(bytes: seq<Byte>) | Json(entry: Entry, size: nat)

  /** What an index binds a source to. */
  datatype Entry = Entry(sha: Digest, bytes: nat)

  /** A digest stands for the bytes it was taken of, so equal digests mean equal bytes. */
  datatype Digest = Digest(of: Content)

  function Len(content: Content): nat {
    match content
    case Raw(bytes) => |bytes|
    case Json(_, size) => size
  }

  /** A file or directory name in the cache. */
  datatype Name = Engine(key: string) | Objects | Index(source: Digest) | Object(sha: Digest) | Other(name: string)

  datatype Node = File(content: Content) | Dir(entries: Listing)

  type Listing = map<Name, Node>

  ghost function Total(weights: map<Name, nat>): nat
    decreases |weights|
  {
    if weights == map[] then 0
    else
      var name :| name in weights;
      weights[name] + Total(weights - {name})
  }

  /** The sum does not depend on the order in which names are picked. */
  lemma {:induction false} TotalPicks(weights: map<Name, nat>, name: Name)
    requires name in weights
    ensures Total(weights) == weights[name] + Total(weights - {name})
    decreases |weights|
  {
    var picked :| picked in weights && Total(weights) == weights[picked] + Total(weights - {picked});
    if picked != name {
      TotalPicks(weights - {picked}, name);
      TotalPicks(weights - {name}, picked);
      assert weights - {picked} - {name} == weights - {name} - {picked};
    }
  }

  /** What a tree's files weigh together, each by its content. */
  ghost function Weigh(node: Node, weight: Content -> nat): nat
    decreases node, 1
  {
    match node
    case File(content) => weight(content)
    case Dir(_) => Total(Weights(node, weight))
  }

  ghost function Weights(node: Node, weight: Content -> nat): map<Name, nat>
    requires node.Dir?
    decreases node, 0
  {
    map name | name in node.entries :: Weigh(node.entries[name], weight)
  }

  function Once(content: Content): nat {
    1
  }

  ghost function Files(node: Node): nat {
    Weigh(node, Once)
  }

  ghost function FilesIn(entries: Listing): nat {
    Weigh(Dir(entries), Once)
  }

  ghost function Bytes(node: Node): nat {
    Weigh(node, Len)
  }

  ghost function BytesIn(entries: Listing): nat {
    Weigh(Dir(entries), Len)
  }

  lemma WeighTakes(entries: Listing, name: Name, weight: Content -> nat)
    requires name in entries
    ensures Weigh(Dir(entries), weight) == Weigh(entries[name], weight) + Weigh(Dir(entries - {name}), weight)
  {
    assert Weights(Dir(entries), weight) - {name} == Weights(Dir(entries - {name}), weight);
    TotalPicks(Weights(Dir(entries), weight), name);
  }

  lemma WeighEmpty(weight: Content -> nat)
    ensures Weigh(Dir(map[]), weight) == 0
  {
    assert Weights(Dir(map[]), weight) == map[];
  }

  lemma Takes(entries: Listing, name: Name)
    requires name in entries
    ensures FilesIn(entries) == Files(entries[name]) + FilesIn(entries - {name})
    ensures BytesIn(entries) == Bytes(entries[name]) + BytesIn(entries - {name})
  {
    WeighTakes(entries, name, Once);
    WeighTakes(entries, name, Len);
  }

  lemma EmptyTakesNothing()
    ensures FilesIn(map[]) == 0 && BytesIn(map[]) == 0
  {
    WeighEmpty(Once);
    WeighEmpty(Len);
  }

  // The same, path by path.

  type Path = seq<Name>

  /** The file at the end of a path. */
  function FileAt(node: Node, path: Path): Option<Content>
    decreases |path|
  {
    match node
    case File(content) => if path == [] then Some(content) else None
    case Dir(entries) =>
      if path != [] && path[0] in entries then FileAt(entries[path[0]], path[1..]) else None
  }

  /** The paths to all files of a tree. */
  ghost function Paths(node: Node): set<Path> {
    match node
    case File(_) => {[]}
    case Dir(_) => set name, path | name in node.entries && path in Paths(node.entries[name]) :: [name] + path
  }

  lemma {:induction false} PathsLeadToFiles(node: Node, path: Path)
    ensures path in Paths(node) <==> FileAt(node, path).Some?
    decreases |path|
  {
    if node.Dir? && path != [] && path[0] in node.entries {
      PathsLeadToFiles(node.entries[path[0]], path[1..]);
      assert path == [path[0]] + path[1..];
    }
  }

  /** What the files at these paths weigh. */
  ghost function Sum(node: Node, paths: set<Path>, weight: Content -> nat): nat {
    if paths == {} then 0
    else
      var path :| path in paths;
      WeightAt(node, path, weight) + Sum(node, paths - {path}, weight)
  }

  function WeightAt(node: Node, path: Path, weight: Content -> nat): nat {
    match FileAt(node, path)
    case Some(content) => weight(content)
    case None => 0
  }

  lemma {:induction false} SumPicks(node: Node, paths: set<Path>, weight: Content -> nat, path: Path)
    requires path in paths
    ensures Sum(node, paths, weight) == WeightAt(node, path, weight) + Sum(node, paths - {path}, weight)
    decreases |paths|
  {
    var picked :| picked in paths
      && Sum(node, paths, weight) == WeightAt(node, picked, weight) + Sum(node, paths - {picked}, weight);
    if picked != path {
      SumPicks(node, paths - {picked}, weight, path);
      SumPicks(node, paths - {path}, weight, picked);
      assert paths - {picked} - {path} == paths - {path} - {picked};
    }
  }

  /** One after another, in any order, the files add up. */
  lemma {:induction false} SumJoins(node: Node, some: set<Path>, more: set<Path>, weight: Content -> nat)
    requires some !! more
    ensures Sum(node, some + more, weight) == Sum(node, some, weight) + Sum(node, more, weight)
    decreases |some|
  {
    if some == {} {
      assert some + more == more;
    } else {
      var path :| path in some;
      SumPicks(node, some, weight, path);
      SumPicks(node, some + more, weight, path);
      assert some + more - {path} == (some - {path}) + more;
      SumJoins(node, some - {path}, more, weight);
    }
  }

  /** Paths under one name weigh what the paths below it do. */
  lemma {:induction false} SumUnder(entries: Listing, name: Name, paths: set<Path>, weight: Content -> nat)
    requires name in entries
    ensures var under := set path | path in paths :: [name] + path;
            Sum(Dir(entries), under, weight) == Sum(entries[name], paths, weight) && |under| == |paths|
    decreases |paths|
  {
    var under := set path | path in paths :: [name] + path;
    if paths != {} {
      var path :| path in paths;
      var fewer := paths - {path};
      SumUnder(entries, name, fewer, weight);
      SumPicks(entries[name], paths, weight, path);
      SumPicks(Dir(entries), under, weight, [name] + path);
      assert ([name] + path)[1..] == path;
      assert forall other | other in paths && [name] + other == [name] + path :: other == path by {
        forall other | other in paths && [name] + other == [name] + path ensures other == path {
          assert ([name] + other)[1..] == other;
        }
      }
      assert under - {[name] + path} == set other | other in fewer :: [name] + other;
    }
  }

  /** A path that starts elsewhere does not see that an entry is gone. */
  lemma {:induction false} SumElsewhere(entries: Listing, name: Name, paths: set<Path>, weight: Content -> nat)
    requires forall path | path in paths :: path != [] && path[0] != name
    ensures Sum(Dir(entries), paths, weight) == Sum(Dir(entries - {name}), paths, weight)
    decreases |paths|
  {
    if paths != {} {
      var path :| path in paths;
      SumPicks(Dir(entries), paths, weight, path);
      SumPicks(Dir(entries - {name}), paths, weight, path);
      SumElsewhere(entries, name, paths - {path}, weight);
    }
  }

  lemma PathBelow(entries: Listing, path: Path)
    ensures path in Paths(Dir(entries)) <==> path != [] && path[0] in entries && path[1..] in Paths(entries[path[0]])
  {
    if path != [] {
      assert path == [path[0]] + path[1..];
    }
  }

  lemma PathsSplit(entries: Listing, name: Name)
    requires name in entries
    ensures var under := set path | path in Paths(entries[name]) :: [name] + path;
            && Paths(Dir(entries)) == under + Paths(Dir(entries - {name})) && under !! Paths(Dir(entries - {name}))
            && forall path | path in Paths(Dir(entries - {name})) :: path != [] && path[0] != name
  {
    var under := set path | path in Paths(entries[name]) :: [name] + path;
    forall path: Path
      ensures path in under <==> path != [] && path[0] == name && path[1..] in Paths(entries[name])
      ensures path in Paths(Dir(entries)) <==> path in under || path in Paths(Dir(entries - {name}))
      ensures path in Paths(Dir(entries - {name})) ==> path != [] && path[0] != name
    {
      PathBelow(entries, path);
      PathBelow(entries - {name}, path);
      if path != [] {
        assert path == [path[0]] + path[1..];
      }
    }
  }

  /**
   * A tree weighs what the files at its paths weigh: in files it is how many paths there are, and in bytes
   * the sum of the lengths at their ends.
   */
  lemma {:induction false} WeighIsSum(node: Node, weight: Content -> nat)
    ensures Weigh(node, weight) == Sum(node, Paths(node), weight)
    decreases node, 1
  {
    match node {
      case File(content) =>
        var path: Path := [];
        SumPicks(node, {path}, weight, path);
        assert {path} - {path} == {};
      case Dir(entries) =>
        forall name | name in node.entries
          ensures Weigh(node.entries[name], weight) == Sum(node.entries[name], Paths(node.entries[name]), weight)
        {
          WeighIsSum(node.entries[name], weight);
        }
        EntriesWeighSum(entries, weight);
    }
  }

  lemma NothingWeighs(weight: Content -> nat)
    ensures Weigh(Dir(map[]), weight) == Sum(Dir(map[]), Paths(Dir(map[])), weight)
  {
    WeighEmpty(weight);
    assert Paths(Dir(map[])) == {};
  }

  lemma {:induction false} EntriesWeighSum(entries: Listing, weight: Content -> nat)
    requires forall name | name in entries ::
      Weigh(entries[name], weight) == Sum(entries[name], Paths(entries[name]), weight)
    ensures Weigh(Dir(entries), weight) == Sum(Dir(entries), Paths(Dir(entries)), weight)
    decreases |entries|
  {
    hide Weigh, Sum, Paths;
    if entries == map[] {
      NothingWeighs(weight);
    } else {
      var name :| name in entries;
      WeighTakes(entries, name, weight);
      EntriesWeighSum(entries - {name}, weight);
      PathsSplit(entries, name);
      var under, others := (set path | path in Paths(entries[name]) :: [name] + path), Paths(Dir(entries - {name}));
      SumJoins(Dir(entries), under, others, weight);
      SumUnder(entries, name, Paths(entries[name]), weight);
      SumElsewhere(entries, name, others, weight);
    }
  }

  lemma {:induction false} SumOnce(node: Node, paths: set<Path>)
    requires forall path | path in paths :: FileAt(node, path).Some?
    ensures Sum(node, paths, Once) == |paths|
    decreases |paths|
  {
    if paths != {} {
      var path :| path in paths;
      SumPicks(node, paths, Once, path);
      SumOnce(node, paths - {path});
    }
  }

  /** A tree has as many files as there are paths to one. */
  lemma FilesAreCounted(node: Node)
    ensures Files(node) == |Paths(node)| && Bytes(node) == Sum(node, Paths(node), Len)
  {
    WeighIsSum(node, Once);
    WeighIsSum(node, Len);
    forall path | path in Paths(node) ensures FileAt(node, path).Some? {
      PathsLeadToFiles(node, path);
    }
    SumOnce(node, Paths(node));
  }

  function Saturating(n: nat): nat {
    if n <= U64_MAX then n else U64_MAX
  }

  lemma SaturatesAt64Bits(n: nat)
    ensures Saturating(n) <= n && Saturating(n) <= 18446744073709551615
    ensures n <= 18446744073709551615 ==> Saturating(n) == n
    ensures 18446744073709551615 <= n ==> Saturating(n) == 18446744073709551615
  {
  }

  /** A tally of removed files. */
  datatype Removed = Removed(files: nat, bytes: nat)

  /** Removes a whole tree, counting its files. */
  method RemoveTree(removed: Removed, node: Node) returns (removed': Removed)
    requires removed.bytes <= U64_MAX
    ensures removed'.files == removed.files + Files(node)
    ensures removed'.bytes == Saturating(removed.bytes + Bytes(node))
    decreases node, 1
  {
    match node
    case File(content) =>
      removed' := Removed(removed.files + 1, Saturating(removed.bytes + Len(content)));
    case Dir(entries) =>
      removed' := RemoveEntries(removed, node);
  }

  /** Removes everything in a directory; the order of its listing is arbitrary. */
  method RemoveEntries(removed: Removed, node: Node) returns (removed': Removed)
    requires removed.bytes <= U64_MAX && node.Dir?
    ensures removed'.files == removed.files + FilesIn(node.entries)
    ensures removed'.bytes == Saturating(removed.bytes + BytesIn(node.entries))
    decreases node, 0
  {
    hide FilesIn, BytesIn, Files, Bytes;
    removed' := removed;
    var rest := node.entries;
    while rest != map[]
      invariant forall name | name in rest :: name in node.entries && rest[name] == node.entries[name]
      invariant removed'.bytes <= U64_MAX
      invariant removed'.files + FilesIn(rest) == removed.files + FilesIn(node.entries)
      invariant Saturating(removed'.bytes + BytesIn(rest)) == Saturating(removed.bytes + BytesIn(node.entries))
      decreases |rest|
    {
      var name :| name in rest;
      Takes(rest, name);
      removed' := RemoveTree(removed', rest[name]);
      rest := rest - {name};
    }
    EmptyTakesNothing();
  }
}
