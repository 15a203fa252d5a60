/**
 The volume as its clients see it: a map from names to byte sequences. Opening, creating, writing
 and truncating change this map at one name and nowhere else.
 */
module Fat32Names {
  import opened Bytes
  import opened Fat32Volume
  import opened Fat32Steps
  import opened Fat32Server
  import opened Fat32Directory
  import opened Fat32Root

  /** The content of the file called `name`, if there is one. */
  ghost function FileNamed(d: seq<Sector>, g: Geometry, root: seq<nat>, name: Name): Option<seq<byte>>
    requires GeometryOk(g, |d|) && InRange(g, root)
  {
    var es := Root(d, g, root);
    match Lookup(es, name)
    case Some(k) => Some(FileContent(d, g, EntStart(es[k]), EntSize(es[k])))
    case None => None
  }

  /** Whatever is done to the open file: every lookup finds the same entry. */
  lemma LookupsKept(d: seq<Sector>, d': seq<Sector>, g: Geometry, root: seq<nat>, slot: nat, name: Name)
    requires GeometryOk(g, |d|) && GeometryOk(g, |d'|) && InRange(g, root) && OthersKept(d, d', g, root, slot)
    ensures Lookup(Root(d', g, root), name) == Lookup(Root(d, g, root), name)
  {
    hide Root, SameFile, EntStart, EntSize;
    var es, es' := Root(d, g, root), Root(d', g, root);
    forall j | 0 <= j < |es| ensures es'[j][..12] == es[j][..12] {
    }
    LookupFromKept(es, es', name, 0);
  }

  /** Every other name keeps its content, whatever fails. */
  lemma OtherNamesKept(d: seq<Sector>, d': seq<Sector>, g: Geometry, root: seq<nat>, slot: nat, name: Name)
    requires GeometryOk(g, |d|) && GeometryOk(g, |d'|) && InRange(g, root) && OthersKept(d, d', g, root, slot)
    requires Lookup(Root(d, g, root), name) != Some(slot)
    ensures FileNamed(d', g, root, name) == FileNamed(d, g, root, name)
  {
    LookupsKept(d, d', g, root, slot, name);
    hide Root, Lookup, EntStart, EntSize, FileContent;
    var es := Root(d, g, root);
    if Lookup(es, name).Some? {
      var k := Lookup(es, name).value;
      assert SameFile(d, d', g, EntStart(es[k]), EntSize(es[k]));
    }
  }

  /** The open file's own name shows what the server has stored. */
  lemma OpenNameIs(d: seq<Sector>, g: Geometry, chains: seq<seq<nat>>, file: OpenFile, slot: nat, name: Name)
    requires Good(d, g, chains, file, slot) && Lookup(Root(d, g, chains[0]), name) == Some(slot)
    ensures FileNamed(d, g, chains[0], name) == Some(Stored(d, g, file))
  {
    hide Root, Lookup, EntStart, EntSize, FileContent, Fat, Chain;
  }

  /** An update of the open file, on the map of names: its name takes the new content, all other
      names keep theirs. */
  lemma UpdateOneName(d: seq<Sector>, d': seq<Sector>, g: Geometry, chains: seq<seq<nat>>, chains': seq<seq<nat>>,
                      file: OpenFile, file': OpenFile, slot: nat, name: Name, other: Name)
    requires Good(d, g, chains, file, slot) && Good(d', g, chains', file', slot) && chains'[0] == chains[0]
    requires OthersKept(d, d', g, chains[0], slot) && Lookup(Root(d, g, chains[0]), name) == Some(slot)
    ensures FileNamed(d, g, chains[0], name) == Some(Stored(d, g, file))
    ensures FileNamed(d', g, chains[0], name) == Some(Stored(d', g, file'))
    ensures other != name ==> FileNamed(d', g, chains[0], other) == FileNamed(d, g, chains[0], other)
  {
    OpenNameIs(d, g, chains, file, slot, name);
    LookupsKept(d, d', g, chains[0], slot, name);
    OpenNameIs(d', g, chains', file', slot, name);
    hide Good, Root, FileNamed, OthersKept;
    if other != name {
      OtherNamesKept(d, d', g, chains[0], slot, other);
    }
  }

  /** Opening, on the map of names: the name has its old content, or is new and empty; all other
      names keep theirs. */
  lemma OpenOneName(d: seq<Sector>, d': seq<Sector>, g: Geometry, root: seq<nat>, chains': seq<seq<nat>>,
                    file: OpenFile, slot: nat, name: Name, other: Name)
    requires GeometryOk(g, |d|) && InRange(g, root) && Good(d', g, chains', file, slot)
    requires OpenedAs(d, d', g, root, chains'[0], name, file, slot)
    ensures FileNamed(d', g, chains'[0], name) == Some(Stored(d', g, file))
    ensures Stored(d', g, file) == if FileNamed(d, g, root, name).Some? then FileNamed(d, g, root, name).value else []
    ensures other != name ==> FileNamed(d', g, chains'[0], other) == FileNamed(d, g, root, other)
  {
    OpenNameIs(d', g, chains', file, slot, name);
    hide Root, Lookup, EntStart, EntSize, FileContent, Fat, Chain, Good, Stored;
    var es := Root(d, g, root);
    if other != name && Lookup(es, other).Some? {
      var k := Lookup(es, other).value;
      assert SameFile(d, d', g, EntStart(es[k]), EntSize(es[k]));
      assert k != slot;
    }
  }

  /** An open that succeeded, whatever failed, on the map of names: every other name keeps its content,
      unless the directory was cut before its entry; then it is gone. */
  lemma OpenAnyhowNames(d: seq<Sector>, d': seq<Sector>, g: Geometry, root: seq<nat>, root': seq<nat>, file: OpenFile,
                        slot: nat, name: Name, other: Name)
    requires GeometryOk(g, |d|) && GeometryOk(g, |d'|) && InRange(g, root) && InRange(g, root')
    requires OpenedAnyhow(d, d', g, root, root', name, file, slot) && FilesKept(d, d', g, Root(d, g, root))
    requires other != name
    ensures Lookup(Root(d', g, root'), other) != Some(slot)
    ensures FileNamed(d', g, root', other) ==
            if root' == root || FoundBefore(Root(d, g, root), other, slot) then FileNamed(d, g, root, other) else None
  {
    hide Root, Lookup, EntStart, EntSize, FileContent, Fat, Chain, NewEntry;
    var es, es' := Root(d, g, root), Root(d', g, root');
    NewEntryIs(name);
    if Lookup(es', other).Some? {
      var k := Lookup(es', other).value;
      assert SameFile(d, d', g, EntStart(es[k]), EntSize(es[k]));
    }
  }

  /** Opening and then any update of the open file, under any failures. */
  lemma AnyhowNames(d: seq<Sector>, d1: seq<Sector>, d2: seq<Sector>, g: Geometry, root: seq<nat>, root': seq<nat>,
                    file: OpenFile, slot: nat, name: Name, other: Name)
    requires GeometryOk(g, |d|) && GeometryOk(g, |d1|) && GeometryOk(g, |d2|) && InRange(g, root) && InRange(g, root')
    requires OpenedAnyhow(d, d1, g, root, root', name, file, slot) && FilesKept(d, d1, g, Root(d, g, root))
    requires OthersKept(d1, d2, g, root', slot) && other != name
    ensures FileNamed(d2, g, root', other) ==
            if root' == root || FoundBefore(Root(d, g, root), other, slot) then FileNamed(d, g, root, other) else None
  {
    hide Root, Lookup, OpenedAnyhow, FilesKept, OthersKept, FileNamed;
    OpenAnyhowNames(d, d1, g, root, root', file, slot, name, other);
    OtherNamesKept(d1, d2, g, root', slot, other);
  }
}
