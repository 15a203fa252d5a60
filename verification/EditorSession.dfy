/**
 The `edit` command from end to end: open or create a file, load it a sector at a time, apply
 keys, and save by writing the buffer from the start and then cutting the file to its length.
 */
module EditorSession {
  import opened Bytes
  import opened Fat32Volume
  import opened Fat32Steps
  import opened Fat32Bytes
  import opened PackedName
  import opened Fat32Server
  import opened Fat32Directory
  import opened Fat32Root
  import opened Fat32Names
  import opened EditorBuffer

  /** Fills the client buffer with the next stretch of the content. */
  method Fill(fs: FileServer, content: seq<byte>, offset: nat, want: nat)
    requires fs.Buffers() && offset + want <= |content| && want <= 512
    modifies fs.client
    ensures fs.client[..want] == content[offset..offset + want]
  {
    forall j | 0 <= j < want { fs.client[j] := content[offset + j]; }
  }

  /** The save loop. Whatever fails, every other file is kept, and if it reports success the open file
      and its directory entry have the length of the buffer and its bytes, except in the holes: one for
      each time a failed FAT read cut the chain, from a cluster boundary to where the save had got. */
  method Save(fs: FileServer, content: seq<byte>) returns (saved: bool, ghost holes: seq<(nat, nat)>)
    requires fs.Buffers() && Sound(fs.disk, fs.g, fs.chains, fs.file, fs.slot) && |content| <= MAX_BYTES
    modifies fs`disk, fs`file, fs`chains, fs`cuts, fs.buf, fs.client
    ensures Sound(fs.disk, fs.g, fs.chains, fs.file, fs.slot) && |old(fs.chains)| > 0
            && fs.chains[0] == old(fs.chains)[0]
    ensures OthersKept(old(fs.disk), fs.disk, fs.g, fs.chains[0], fs.slot)
    ensures fs.cuts >= old(fs.cuts) && (fs.reliable ==> fs.cuts == old(fs.cuts))
    ensures |holes| <= fs.cuts - old(fs.cuts) && forall h | h in holes :: HoleOk(fs.g, h, |content|)
    ensures saved ==>
              && |Stored(fs.disk, fs.g, fs.file)| == |content| && InStep(fs.disk, fs.g, fs.chains, fs.file, fs.slot)
              && SameOutside(Stored(fs.disk, fs.g, fs.file), content, |content|, holes)
    ensures saved && holes == [] ==> Stored(fs.disk, fs.g, fs.file) == content
    ensures fs.reliable && old(Good(fs.disk, fs.g, fs.chains, fs.file, fs.slot)) ==>
              Good(fs.disk, fs.g, fs.chains, fs.file, fs.slot) && (!saved ==> NoneFree(Fat(fs.disk, fs.g)))
  {
    hide Sound, Good, OthersKept, Fat, Stored, Splice, Capacity, NoneFree, Held, InStep, Written, SplicedAnyhow, HoleOk,
         SameOutside, Span, BytesKept, ReadsBack, Shares, FileChain, GeometryOk, KeptBefore;
    ghost var d0 := fs.disk;
    SoundBasics(fs.disk, fs.g, fs.chains, fs.file, fs.slot);
    OthersRefl(fs.disk, fs.g, fs.chains[0], fs.slot);
    ghost var good := fs.reliable && Good(fs.disk, fs.g, fs.chains, fs.file, fs.slot);
    holes := [];
    NothingHeld(fs.disk, fs.g, fs.file, content);
    var offset := 0;
    while offset < |content|
      invariant offset <= |content|
      invariant GeometryOk(fs.g, |fs.disk|) && |fs.chains| > 0 && InRange(fs.g, fs.chains[0])
      invariant fs.chains[0] == old(fs.chains)[0] && Sound(fs.disk, fs.g, fs.chains, fs.file, fs.slot)
      invariant OthersKept(d0, fs.disk, fs.g, fs.chains[0], fs.slot)
      invariant fs.cuts >= old(fs.cuts) && (fs.reliable ==> fs.cuts == old(fs.cuts))
      invariant |holes| <= fs.cuts - old(fs.cuts) && forall h | h in holes :: HoleOk(fs.g, h, |content|)
      invariant Held(fs.disk, fs.g, fs.file, content, offset, holes)
      invariant good ==> Good(fs.disk, fs.g, fs.chains, fs.file, fs.slot)
    {
      ghost var d, file, cuts := fs.disk, fs.file, fs.cuts;
      var want := Min(|content| - offset, 512);
      Fill(fs, content, offset, want);
      var n, m := fs.WriteFile(offset, want);
      SoundBasics(fs.disk, fs.g, fs.chains, fs.file, fs.slot);
      OthersTrans(d0, d, fs.disk, fs.g, fs.chains[0], fs.slot);
      if n == 0 {
        if good {
          OnlyFull(d, fs.disk, fs.g, file, fs.file, content, offset, want, fs.client[..], holes);
        }
        return false, holes;
      }
      ghost var upTo, before := 512 * Span(fs.g.spc, m), holes;
      KeptMeans(d, fs.disk, fs.g, file, fs.file, m, offset, n);
      HeldIs(d, fs.g, file, content, offset, holes);
      if fs.cuts > cuts && m >= 1 {
        OneMoreHole(fs.g, m, offset, |content|);
        holes := holes + [(upTo, offset)];
      }
      assert fs.client[..n] == fs.client[..want][..n] == content[offset..offset + want][..n];
      HeldMore(Stored(d, fs.g, file), Stored(fs.disk, fs.g, fs.file), content, offset, fs.file.size, fs.client[..n],
          upTo,
               before, holes);
      HeldIs(fs.disk, fs.g, fs.file, content, offset + n, holes);
      offset := offset + n;
    }
    ghost var d, file := fs.disk, fs.file;
    HeldIs(d, fs.g, file, content, |content|, holes);
    var r := fs.TruncateFile(|content|);
    SoundBasics(fs.disk, fs.g, fs.chains, fs.file, fs.slot);
    OthersTrans(d0, d, fs.disk, fs.g, fs.chains[0], fs.slot);
    HeldAll(Stored(d, fs.g, file), content, holes);
    return r == 1, holes;
  }

  /** A stretch of the first `size` bytes that starts at a cluster boundary behind the first cluster. */
  ghost predicate HoleOk(g: Geometry, h: (nat, nat), size: nat) {
    h.1 <= size && exists m: nat :: m >= 1 && h.0 == 512 * Span(g.spc, m)
  }

  ghost predicate InHole(holes: seq<(nat, nat)>, p: nat) {
    exists i | 0 <= i < |holes| :: holes[i].0 <= p < holes[i].1
  }

  /** The first `n` bytes agree outside the holes. */
  ghost predicate SameOutside(s: seq<byte>, t: seq<byte>, n: nat, holes: seq<(nat, nat)>) {
    n <= |s| && n <= |t| && forall p | 0 <= p < n && !InHole(holes, p) :: s[p] == t[p]
  }

  /** The first `offset` bytes of the content are stored, outside the holes. */
  ghost predicate Held(d: seq<Sector>, g: Geometry, file: OpenFile, content: seq<byte>, offset: nat,
                       holes: seq<(nat, nat)>)
    requires GeometryOk(g, |d|)
  {
    SameOutside(Stored(d, g, file), content, offset, holes)
  }

  lemma NothingHeld(d: seq<Sector>, g: Geometry, file: OpenFile, content: seq<byte>)
    requires GeometryOk(g, |d|)
    ensures Held(d, g, file, content, 0, [])
  {
    hide Stored;
  }

  lemma HeldIs(d: seq<Sector>, g: Geometry, file: OpenFile, content: seq<byte>, offset: nat, holes: seq<(nat, nat)>)
    requires GeometryOk(g, |d|)
    ensures Held(d, g, file, content, offset, holes) == SameOutside(Stored(d, g, file), content, offset, holes)
    ensures Held(d, g, file, content, offset, holes) ==> offset <= |Stored(d, g, file)| <= file.size
  {
    hide Stored;
    StoredLength(d, g, file);
  }

  /** What is left when the rest is cut off. */
  lemma HeldAll(s: seq<byte>, content: seq<byte>, holes: seq<(nat, nat)>)
    requires SameOutside(s, content, |content|, holes)
    ensures SameOutside(s[..|content|], content, |content|, holes)
    ensures holes == [] ==> s[..|content|] == content
  {
    assert holes == [] ==> forall p: nat :: !InHole(holes, p);
  }

  lemma OneMoreHole(g: Geometry, m: nat, offset: nat, size: nat)
    requires m >= 1 && offset <= size
    ensures HoleOk(g, (512 * Span(g.spc, m), offset), size)
  {
  }

  /** What a write keeps, in terms of the stored bytes alone: all of them unless the chain was cut. */
  lemma KeptMeans(d: seq<Sector>, d': seq<Sector>, g: Geometry, file: OpenFile, file': OpenFile, m: nat, offset: nat,
                  n: nat)
    requires GeometryOk(g, |d|) && GeometryOk(g, |d'|) && KeptBefore(d, d', g, file, file', m, offset, n)
    ensures BytesKept(Stored(d, g, file), Stored(d', g, file'), 512 * Span(g.spc, m), offset, n)
    ensures m == 0 || m == |FileChain(d, g, file)| ==> |Stored(d, g, file)| <= 512 * Span(g.spc, m)
  {
    hide Stored, Fat, FileChain, Span, BytesKept;
    StoredLength(d, g, file);
  }

  /** A write that transferred something extends the saved part by that much; a cut makes a hole. */
  lemma HeldMore(s: seq<byte>, s': seq<byte>, content: seq<byte>, offset: nat, size: nat, data: seq<byte>, upTo: nat,
                 holes: seq<(nat, nat)>, holes': seq<(nat, nat)>)
    requires SameOutside(s, content, offset, holes) && data != []
    requires offset + |data| <= |content| && data == content[offset..offset + |data|] && offset + |data| <= size
    requires ReadsBack(s', size, offset, data) && BytesKept(s, s', upTo, offset, |data|)
    requires if holes' == holes then offset <= upTo else holes' == holes + [(upTo, offset)]
    ensures SameOutside(s', content, offset + |data|, holes')
  {
    assert holes' != holes ==> holes'[|holes|] == (upTo, offset);
    forall p: nat | InHole(holes, p) ensures InHole(holes', p) {
      var i :| 0 <= i < |holes| && holes[i].0 <= p < holes[i].1;
      assert holes'[i] == holes[i];
    }
    forall p | 0 <= p < offset + |data| && !InHole(holes', p) ensures s'[p] == content[p] {
      if p >= offset {
        assert s'[p] == data[p - offset];
      }
    }
  }

  /** Without failures a write of something transfers nothing only if no cluster is free. */
  lemma OnlyFull(d: seq<Sector>, d': seq<Sector>, g: Geometry, file: OpenFile, file': OpenFile, content: seq<byte>,
                 offset: nat, want: nat, client: seq<byte>, holes: seq<(nat, nat)>)
    requires GeometryOk(g, |d|) && GeometryOk(g, |d'|) && Held(d, g, file, content, offset, holes) && want > 0
    requires Written(d, d', g, file, file', offset, want, client, 0)
    ensures NoneFree(Fat(d', g))
  {
    hide Stored, Capacity, Fat, Splice, AtMostOneClaim, NoneFree;
    StoredLength(d, g, file);
  }

  lemma Extended(all: seq<byte>, o: nat, n: nat)
    requires o + n <= |all|
    ensures (all[..o] + all[o..o + n])[..Min(o + n, MAX_BYTES)] == all[..Min(o + n, MAX_BYTES)]
  {
  }

  /** The editor and the file server share no memory. */
  ghost predicate Separate(fs: FileServer, ed: Editor)
    reads fs, ed
  {
    ed.buf != fs.buf && ed.buf != fs.client
  }

  /** The load loop: the open file's bytes, cut at the editor's capacity with a warning. */
  method Load(fs: FileServer, ed: Editor) returns (truncated: bool)
    requires fs.Buffers() && Sound(fs.disk, fs.g, fs.chains, fs.file, fs.slot)
    requires ed.Valid() && ed.View() == Doc([], 0) && Separate(fs, ed)
    modifies fs.buf, fs.client, ed, ed.buf
    ensures GeometryOk(fs.g, |fs.disk|)
    ensures ed.Valid() && ed.View().cursor == 0 && ed.View().text <= Stored(fs.disk, fs.g, fs.file)
    ensures var size := |Stored(fs.disk, fs.g, fs.file)|;
            fs.reliable ==> |ed.View().text| == Min(size, MAX_BYTES) && truncated == (size > MAX_BYTES)
  {
    hide Sound, Good, Stored, Capacity, Fat, Mirrored;
    SoundBasics(fs.disk, fs.g, fs.chains, fs.file, fs.slot);
    StoredLength(fs.disk, fs.g, fs.file);
    ghost var all := Stored(fs.disk, fs.g, fs.file);
    var size := fs.file.size;
    var offset := 0;
    truncated := false;
    while offset < size && !truncated
      invariant offset <= |all| <= size && ed.Valid() && ed.View() == Doc(all[..Min(offset, MAX_BYTES)], 0)
      invariant truncated == (offset > MAX_BYTES)
      decreases size - offset
    {
      var want := Min(size - offset, 512);
      var n := fs.ReadFile(offset, want);
      if n == 0 { break; }
      var data := fs.client[..n];
      Extended(all, offset, n);
      var fitted := ed.AppendLoaded(data);
      truncated := !fitted;
      offset := offset + n;
    }
  }

  // ----- keys -----

  predicate IsQuit(key: nat) { key == KEY_CTRL_S || key == KEY_CTRL_Q }

  /** How many keys come before the first that quits. */
  function Typing(keys: seq<nat>): (n: nat)
    ensures n <= |keys| && (n < |keys| ==> keys[n] == 0x13 || keys[n] == 0x11)
    ensures forall i | 0 <= i < n :: keys[i] != 0x13 && keys[i] != 0x11
  {
    if keys == [] || IsQuit(keys[0]) then 0 else 1 + Typing(keys[1..])
  }

  /** The key loop, until a key quits. */
  method Keys(ed: Editor, keys: seq<nat>) returns (save: bool)
    requires ed.Valid() && Typing(keys) < |keys|
    modifies ed, ed.buf
    ensures ed.Valid() && ed.View() == Edited(old(ed.View()), keys[..Typing(keys)])
    ensures save == (keys[Typing(keys)] == 0x13)
  {
    hide Apply;
    ghost var d := ed.View();
    var i := 0;
    while true
      invariant i <= Typing(keys) && ed.Valid()
      invariant Edited(ed.View(), keys[i..Typing(keys)]) == Edited(d, keys[..Typing(keys)])
      decreases |keys| - i
    {
      ghost var was := ed.View();
      var quit := ed.ApplyKey(keys[i]);
      if quit.Some? {
        QuitKeepsText(was, keys[i]);
        assert keys[i..Typing(keys)] == [];
        return quit.value;
      }
      assert keys[i..Typing(keys)][0] == keys[i] && keys[i..Typing(keys)][1..] == keys[i + 1..Typing(keys)];
      i := i + 1;
    }
  }

  lemma QuitKeepsText(d: Doc, key: nat)
    requires DocOk(d) && IsQuit(key)
    ensures Apply(d, key) == d
  {
  }

  // ----- the command -----

  datatype Outcome = NotOpened | WriteFailed | Saved | Discarded

  ghost function OldText(was: Option<seq<byte>>): seq<byte> { if was.Some? then was.value else [] }

  /** What the command leaves under `name`, given what was there and the keys typed. */
  ghost function EditedText(was: Option<seq<byte>>, keys: seq<nat>): seq<byte>
  {
    var all := OldText(was);
    var text := all[..Min(|all|, MAX_BYTES)];
    Edited(Doc(text, 0), keys[..Typing(keys)]).text
  }

  /** No name but `name` changes its content. */
  ghost predicate OtherNames(d: seq<Sector>, d': seq<Sector>, g: Geometry, root: seq<nat>, root': seq<nat>, name: Name)
    requires GeometryOk(g, |d|) && GeometryOk(g, |d'|) && InRange(g, root) && InRange(g, root')
  {
    forall other: Name | other != name :: FileNamed(d', g, root', other) == FileNamed(d, g, root, other)
  }

  lemma Ready(d: seq<Sector>, g: Geometry, chains: seq<seq<nat>>, file: OpenFile, slot: nat)
    requires Good(d, g, chains, file, slot)
    ensures Sound(d, g, chains, file, slot) && GeometryOk(g, |d|) && |chains| > 0 && InRange(g, chains[0])
    ensures OthersKept(d, d, g, chains[0], slot)
  {
    hide Root, Volume, OpenAt;
    OthersRefl(d, g, chains[0], slot);
  }

  /** `name` is open and has the content it had before, or none if it is new. */
  ghost predicate OpenNamed(d: seq<Sector>, d': seq<Sector>, g: Geometry, root: seq<nat>, chains': seq<seq<nat>>,
                            file: OpenFile, slot: nat, name: Name)
    requires GeometryOk(g, |d|) && InRange(g, root)
  {
    && Good(d', g, chains', file, slot) && Lookup(Root(d', g, chains'[0]), name) == Some(slot)
    && OtherNames(d, d', g, root, chains'[0], name)
    && var was := FileNamed(d, g, root, name); Stored(d', g, file) == OldText(was)
  }

  lemma OpenedNamed(d: seq<Sector>, d': seq<Sector>, g: Geometry, root: seq<nat>, chains': seq<seq<nat>>,
                    file: OpenFile, slot: nat, name: Name)
    requires GeometryOk(g, |d|) && InRange(g, root) && Good(d', g, chains', file, slot)
    requires OpenedAs(d, d', g, root, chains'[0], name, file, slot)
    ensures OpenNamed(d, d', g, root, chains', file, slot, name)
  {
    assert Lookup(Root(d', g, chains'[0]), name) == Some(slot);
    hide OpenedAs, FileNamed, Lookup, Root, Good;
    Ready(d', g, chains', file, slot);
    OpenOneName(d, d', g, root, chains', file, slot, name, name);
    forall other: Name | other != name ensures FileNamed(d', g, chains'[0], other) == FileNamed(d, g, root, other) {
      OpenOneName(d, d', g, root, chains', file, slot, name, other);
    }
  }

  lemma UpdatedNamed(d: seq<Sector>, d1: seq<Sector>, d2: seq<Sector>, g: Geometry, root: seq<nat>,
                     chains1: seq<seq<nat>>, chains2: seq<seq<nat>>, file1: OpenFile, file2: OpenFile, slot: nat,
                     name: Name)
    requires GeometryOk(g, |d|) && InRange(g, root) && OpenNamed(d, d1, g, root, chains1, file1, slot, name)
    requires Good(d2, g, chains2, file2, slot) && chains2[0] == chains1[0] && OthersKept(d1, d2, g, chains1[0], slot)
    ensures OtherNames(d, d2, g, root, chains2[0], name)
    ensures FileNamed(d2, g, chains2[0], name) == Some(Stored(d2, g, file2))
  {
    hide FileNamed, Lookup, Root, Good, OthersKept, Stored;
    Ready(d1, g, chains1, file1, slot);
    Ready(d2, g, chains2, file2, slot);
    UpdateOneName(d1, d2, g, chains1, chains2, file1, file2, slot, name, name);
    forall other: Name | other != name ensures FileNamed(d2, g, chains2[0], other) == FileNamed(d, g, root, other) {
      UpdateOneName(d1, d2, g, chains1, chains2, file1, file2, slot, name, other);
    }
  }

  /** The open file holds the edited text of the old content, or of the part of it that could be read,
      outside the holes. */
  ghost predicate SavedPart(d: seq<Sector>, g: Geometry, file: OpenFile, was: Option<seq<byte>>, keys: seq<nat>,
                            holes: seq<(nat, nat)>)
    requires GeometryOk(g, |d|)
  {
    exists n: nat :: HoldsPart(Stored(d, g, file), OldText(was), n, keys, holes)
  }

  ghost predicate HoldsPart(stored: seq<byte>, all: seq<byte>, n: nat, keys: seq<nat>, holes: seq<(nat, nat)>) {
    && n <= |all|
    && var text := EditedText(Some(all[..n]), keys);
       && |stored| == |text| && SameOutside(stored, text, |text|, holes) && (holes == [] ==> stored == text)
  }

  /** What is open, whatever failed, is the old content or nothing. */
  lemma OpenedContent(d: seq<Sector>, d': seq<Sector>, g: Geometry, root: seq<nat>, root': seq<nat>, file: OpenFile,
                      slot: nat, name: Name)
    requires GeometryOk(g, |d|) && GeometryOk(g, |d'|) && InRange(g, root) && InRange(g, root')
    requires OpenedAnyhow(d, d', g, root, root', name, file, slot)
    ensures Stored(d', g, file) == [] || Some(Stored(d', g, file)) == FileNamed(d, g, root, name)
  {
    hide Root, Lookup, EntStart, EntSize, Fat, Chain, NewEntry, FoundBefore;
  }

  lemma PartSaved(d: seq<Sector>, g: Geometry, file: OpenFile, was: Option<seq<byte>>, opened1: seq<byte>,
                  text: seq<byte>, keys: seq<nat>, holes: seq<(nat, nat)>)
    requires GeometryOk(g, |d|) && (opened1 == [] || Some(opened1) == was) && text <= opened1 && |text| <= MAX_BYTES
    requires var stored, now := Stored(d, g, file), Edited(Doc(text, 0), keys[..Typing(keys)]).text;
             |stored| == |now| && SameOutside(stored, now, |now|, holes) && (holes == [] ==> stored == now)
    ensures SavedPart(d, g, file, was, keys, holes)
  {
    hide Stored, Edited, SameOutside;
    var all := OldText(was);
    var part := all[..|text|];
    assert part == text && part[..Min(|part|, MAX_BYTES)] == text;
    assert HoldsPart(Stored(d, g, file), all, |text|, keys, holes);
  }

  /** If nothing failed, what was read is the old content up to the editor's capacity. */
  lemma AllSaved(was: Option<seq<byte>>, all: seq<byte>, text: seq<byte>, keys: seq<nat>)
    requires all == OldText(was) && text == all[..Min(|all|, MAX_BYTES)]
    ensures EditedText(was, keys) == Edited(Doc(text, 0), keys[..Typing(keys)]).text
  {
  }

  /** The names besides `name` that keep their content; the others are gone. */
  ghost predicate NamesSurvive(d: seq<Sector>, d': seq<Sector>, g: Geometry, root: seq<nat>, root': seq<nat>,
                               name: Name, slot: nat)
    requires GeometryOk(g, |d|) && GeometryOk(g, |d'|) && InRange(g, root) && InRange(g, root')
  {
    forall other: Name | other != name ::
      FileNamed(d', g, root', other) ==
      if root' == root || FoundBefore(Root(d, g, root), other, slot) then FileNamed(d, g, root, other) else None
  }

  lemma AllNamesSurvive(d: seq<Sector>, d1: seq<Sector>, d2: seq<Sector>, g: Geometry, chains: seq<seq<nat>>,
                        chains1: seq<seq<nat>>, m: nat, file: OpenFile, slot: nat, name: Name)
    requires GeometryOk(g, |d|) && |chains| > 0 && InRange(g, chains[0]) && KeptUpTo(d, d1, g, chains, chains1, m)
    requires GeometryOk(g, |d2|) && OpenedAnyhow(d, d1, g, chains[0], chains1[0], name, file, slot)
    requires OthersKept(d1, d2, g, chains1[0], slot)
    ensures InRange(g, chains1[0]) && NamesSurvive(d, d2, g, chains[0], chains1[0], name, slot)
  {
    hide OpenedAnyhow, FileNamed, OthersKept, Root, Lookup, Fat, FilesKept, FoundBefore;
    forall other: Name | other != name
      ensures FileNamed(d2, g, chains1[0], other) ==
              if chains1[0] == chains[0] || FoundBefore(Root(d, g, chains[0]), other, slot)
              then FileNamed(d, g, chains[0], other) else None
    {
      AnyhowNames(d, d1, d2, g, chains[0], chains1[0], file, slot, name, other);
    }
  }

  /** The session once the file is open: what could be read of it is edited and, unless it is discarded,
      saved. */
  method EditOpen(fs: FileServer, ed: Editor, keys: seq<nat>)
    returns (r: Outcome, ghost text: seq<byte>, ghost holes: seq<(nat, nat)>)
    requires fs.Buffers() && Sound(fs.disk, fs.g, fs.chains, fs.file, fs.slot) && Typing(keys) < |keys|
    requires ed.Valid() && ed.View() == Doc([], 0) && Separate(fs, ed)
    modifies fs`disk, fs`chains, fs`cuts, fs`file, fs.buf, fs.client, ed, ed.buf
    ensures Sound(fs.disk, fs.g, fs.chains, fs.file, fs.slot) && |old(fs.chains)| > 0
            && fs.chains[0] == old(fs.chains)[0] && GeometryOk(fs.g, |old(fs.disk)|)
    ensures OthersKept(old(fs.disk), fs.disk, fs.g, fs.chains[0], fs.slot)
    ensures r != NotOpened && (r == Discarded <==> keys[Typing(keys)] != 0x13)
    ensures r == Discarded ==> fs.disk == old(fs.disk) && fs.chains == old(fs.chains) && fs.file == old(fs.file)
    ensures text <= old(Stored(fs.disk, fs.g, fs.file)) && |text| <= MAX_BYTES
    ensures |holes| <= fs.cuts - old(fs.cuts)
    ensures r == Saved ==>
              && InStep(fs.disk, fs.g, fs.chains, fs.file, fs.slot)
              && var stored, now := Stored(fs.disk, fs.g, fs.file), Edited(Doc(text, 0), keys[..Typing(keys)]).text;
                 |stored| == |now| && SameOutside(stored, now, |now|, holes) && (holes == [] ==> stored == now)
    ensures fs.reliable ==> |text| == Min(|old(Stored(fs.disk, fs.g, fs.file))|, MAX_BYTES) && holes == []
    ensures fs.reliable && old(Good(fs.disk, fs.g, fs.chains, fs.file, fs.slot)) ==>
              Good(fs.disk, fs.g, fs.chains, fs.file, fs.slot) && (r == WriteFailed ==> NoneFree(Fat(fs.disk, fs.g)))
  {
    hide Good, Sound, OthersKept, Fat, NoneFree, Stored, Edited, InStep, Capacity, SameOutside, HoleOk, Typing;
    SoundBasics(fs.disk, fs.g, fs.chains, fs.file, fs.slot);
    OthersRefl(fs.disk, fs.g, fs.chains[0], fs.slot);
    var truncated := Load(fs, ed);
    text, holes := ed.View().text, [];
    var save := Keys(ed, keys);
    r := Discarded;
    if save {
      var saved;
      saved, holes := Save(fs, ed.buf[..ed.len]);
      r := if saved then Saved else WriteFailed;
    }
  }

  /** The command. On the map of names, on a consistent volume and without transfer failures: a saved
      session puts the edited text under the name, a discarded one leaves the content (or an empty new
      file), no other name changes, and only a full disk makes the command fail. Whatever transfers
      fail, the volume stays sound if the file could be opened, every other name keeps its content
      unless the directory was cut before its entry, and a saved file holds the edited text of what
      could be read of it, outside one hole for each time its chain was cut. */
  method Run(fs: FileServer, ed: Editor, typed: seq<byte>, keys: seq<nat>)
    returns (r: Outcome, ghost holes: seq<(nat, nat)>)
    requires fs.Buffers() && Structure(fs.disk, fs.g, fs.chains) && ed.Valid() && Separate(fs, ed)
    requires Typing(keys) < |keys| && (typed != [] ==> typed[0] != 0x00 && typed[0] != 0xE5)
    modifies fs`disk, fs`chains, fs`cuts, fs`file, fs`slot, fs.buf, fs.client, ed, ed.buf
    ensures GeometryOk(fs.g, |old(fs.disk)|) && |old(fs.chains)| > 0 && InRange(fs.g, old(fs.chains)[0])
    ensures r == Saved || r == WriteFailed <==> r != NotOpened && keys[Typing(keys)] == 0x13
    ensures r == NotOpened ==>
              && |fs.chains| > 0 && (fs.chains[0] == old(fs.chains)[0] ==> Structure(fs.disk, fs.g, fs.chains))
              && exists m :: KeptUpTo(old(fs.disk), fs.disk, fs.g, old(fs.chains), fs.chains, m)
    ensures r != NotOpened ==>
              && Sound(fs.disk, fs.g, fs.chains, fs.file, fs.slot) && Structure(fs.disk, fs.g, fs.chains)
              && NamesSurvive(old(fs.disk), fs.disk, fs.g, old(fs.chains)[0], fs.chains[0], Packed(typed), fs.slot)
    ensures |holes| <= fs.cuts - old(fs.cuts)
    ensures r == Saved ==>
              && InStep(fs.disk, fs.g, fs.chains, fs.file, fs.slot)
              && var was := FileNamed(old(fs.disk), fs.g, old(fs.chains)[0], Packed(typed));
                 SavedPart(fs.disk, fs.g, fs.file, was, keys, holes)
    ensures fs.reliable && Volume(old(fs.disk), fs.g, old(fs.chains)) ==>
              RanWell(old(fs.disk), fs.disk, fs.g, old(fs.chains)[0], fs.chains, fs.file, fs.slot, Packed(typed), keys,
                  r)
  {
    hide Structure, Volume, Good, Sound, OpenedAs, OpenedAnyhow, FileNamed, OthersKept, Root, Lookup, Fat, NoneFree,
         Stored, Edited, KeptUpTo, NamesSurvive, SavedPart, InStep, Capacity, EditedText, Packed, SameOutside, HoleOk,
         GeometryOk, InRange, OtherNames, Typing, OldText;
    StructureBasics(fs.disk, fs.g, fs.chains);
    ghost var d, chains := fs.disk, fs.chains;
    ed.Reset();
    var name := Pack(typed);
    OrdinaryExact(typed);
    var isOpen, m := OpenOrCreate(fs, name, true);
    r, holes := NotOpened, [];
    if !isOpen {
      KeptInRange(d, fs.disk, fs.g, chains, fs.chains, m);
    }
    if isOpen {
      ghost var d1, chains1, file1 := fs.disk, fs.chains, fs.file;
      SoundBasics(d1, fs.g, chains1, file1, fs.slot);
      ghost var text;
      r, text, holes := EditOpen(fs, ed, keys);
      if r == Saved {
        SoundBasics(fs.disk, fs.g, fs.chains, fs.file, fs.slot);
        OpenedContent(d, d1, fs.g, chains[0], chains1[0], file1, fs.slot, name);
        PartSaved(fs.disk, fs.g, fs.file, FileNamed(d, fs.g, chains[0], name), Stored(d1, fs.g, file1), text, keys,
            holes);
      }
      SoundBasics(fs.disk, fs.g, fs.chains, fs.file, fs.slot);
      SoundStructure(fs.disk, fs.g, fs.chains, fs.file, fs.slot);
      AllNamesSurvive(d, d1, fs.disk, fs.g, chains, chains1, m, file1, fs.slot, name);
      if fs.reliable && Volume(d, fs.g, chains) {
        OpenedNamed(d, d1, fs.g, chains[0], chains1, file1, fs.slot, name);
        AllSaved(FileNamed(d, fs.g, chains[0], name), Stored(d1, fs.g, file1), text, keys);
        UpdatedNamed(d, d1, fs.disk, fs.g, chains[0], chains1, fs.chains, file1, fs.file, fs.slot, name);
      }
    }
  }

  lemma SoundStructure(d: seq<Sector>, g: Geometry, chains: seq<seq<nat>>, file: OpenFile, slot: nat)
    requires Sound(d, g, chains, file, slot)
    ensures Structure(d, g, chains)
  {
  }

  /** The outcome when no transfer fails. */
  ghost predicate RanWell(d: seq<Sector>, d': seq<Sector>, g: Geometry, root: seq<nat>, chains': seq<seq<nat>>,
                          file: OpenFile, slot: nat, name: Name, keys: seq<nat>, r: Outcome)
    requires GeometryOk(g, |d|) && InRange(g, root)
  {
    if r == NotOpened then d' == d && NoneFree(Fat(d, g))
    else
      && Good(d', g, chains', file, slot) && OtherNames(d, d', g, root, chains'[0], name)
      && (r == WriteFailed ==> NoneFree(Fat(d', g)))
      && var was, now := FileNamed(d, g, root, name), FileNamed(d', g, chains'[0], name);
         && (r == Saved ==> now == Some(EditedText(was, keys)))
         && (r == Discarded ==> now == Some(OldText(was)))
  }
}
