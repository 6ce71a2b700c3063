/** File maps handed through a pipe to a new process: written directory by directory, read
    until a directory without entries, merged in the order they come. */
module MapTransfers {

  type Byte = b: int | 0 <= b < 256
  type Wide = w: int | 0 <= w < 0x1_0000
  type Str = seq<Wide>
  type Files = map<Str, Str>
  type Mapping = map<Str, Files>

  datatype Option<T> = None | Some(value: T)

  // --- File maps -----------------------------------------------------------------------------

  function FilesIn(m: Mapping, dir: Str): Files {
    if dir in m then m[dir] else map[]
  }

  function Added(m: Mapping, dir: Str, file: Str, actual: Str): Mapping {
    m[dir := FilesIn(m, dir)[file := actual]]
  }

  /** Entries of the second map win over those of the first. */
  function Merged(a: Mapping, b: Mapping): Mapping {
    map d | d in a.Keys + b.Keys :: FilesIn(a, d) + FilesIn(b, d)
  }

  lemma MergedAt(a: Mapping, b: Mapping, d: Str)
    ensures d in Merged(a, b) <==> d in a || d in b
    ensures FilesIn(Merged(a, b), d) == FilesIn(a, d) + FilesIn(b, d)
  {
  }

  function MergedAll(maps: seq<Mapping>): Mapping {
    if maps == [] then map[] else Merged(MergedAll(maps[..|maps| - 1]), maps[|maps| - 1])
  }

  predicate NoEmptyDirs(m: Mapping) {
    forall d :: d in m ==> m[d] != map[]
  }

  class FileMapping {
    var dirMap: Mapping

    constructor ()
      ensures dirMap == map[]
    {
      dirMap := map[];
    }

    /** A map that only ever has files added has no empty directory. */
    method AddFile(dir: Str, file: Str, actual: Str)
      modifies this
      ensures dirMap == Added(old(dirMap), dir, file, actual)
      ensures NoEmptyDirs(old(dirMap)) ==> NoEmptyDirs(dirMap)
    {
      if dir !in dirMap {
        dirMap := dirMap[dir := map[]];
      }
      var files := dirMap[dir][file := actual];
      assert file in files;
      dirMap := dirMap[dir := files];
    }

    /** Removing a file leaves its directory behind, and makes one where there was none. */
    method RemoveFile(dir: Str, file: Str)
      modifies this
      ensures dirMap == old(dirMap)[dir := FilesIn(old(dirMap), dir) - {file}]
      ensures NoEmptyDirs(old(dirMap)) ==> (NoEmptyDirs(dirMap) <==> FilesIn(old(dirMap), dir).Keys - {file} != {})
    {
      if dir !in dirMap {
        dirMap := dirMap[dir := map[]];
      }
      var files := dirMap[dir] - {file};
      assert files.Keys == FilesIn(old(dirMap), dir).Keys - {file};
      assert files == map[] <==> files.Keys == {};
      dirMap := dirMap[dir := files];
      assert dir in dirMap && dirMap[dir] == files;
      if NoEmptyDirs(old(dirMap)) {
        assert forall d :: d in dirMap && d != dir ==> d in old(dirMap) && dirMap[d] == old(dirMap)[d];
      }
    }
  }

  // --- What is written ------------------------------------------------------------------------

  /** A directory as its entries are walked through. */
  datatype Dir = Dir(name: Str, files: seq<(Str, Str)>)

  function Two(x: nat): seq<Byte> {
    [x % 256, x / 256 % 256]
  }

  function Four(x: nat): seq<Byte> {
    [x % 256, x / 256 % 256, x / 65536 % 256, x / 16777216 % 256]
  }

  function Wides(s: Str): (bytes: seq<Byte>)
    ensures |bytes| == 2 * |s|
  {
    if s == [] then [] else Two(s[0]) + Wides(s[1..])
  }

  function FileBytes(first: Str, second: Str): seq<Byte> {
    Two(|first|) + Two(|second|) + Wides(first) + Wides(second)
  }

  function FilesBytes(files: seq<(Str, Str)>): seq<Byte> {
    if files == [] then [] else FileBytes(files[0].0, files[0].1) + FilesBytes(files[1..])
  }

  function DirBytes(d: Dir): seq<Byte> {
    Four(|d.files|) + Two(|d.name|) + Wides(d.name) + FilesBytes(d.files)
  }

  function DirsBytes(dirs: seq<Dir>): seq<Byte> {
    if dirs == [] then [] else DirBytes(dirs[0]) + DirsBytes(dirs[1..])
  }

  /** A directory with one file as it goes through the pipe: counts and lengths low byte
      first, the name of the directory, the two lengths of the pair, and then the pair. */
  lemma KnownDirectory()
    ensures DirBytes(Dir([0x1234], [([5], [6, 0x0708])])) == [
      1, 0, 0, 0, 1, 0, 0x34, 0x12,
      1, 0, 2, 0, 5, 0, 6, 0, 0x08, 0x07]
  {
    var pair: (Str, Str) := ([5], [6, 0x0708]);
    assert [pair][1..] == [];
    assert Wides([0x0708]) == [0x08, 0x07] + Wides([]);
    assert pair.1[1..] == [0x0708];
    assert Wides(pair.1) == [6, 0] + Wides([0x0708]);
    assert Wides(pair.0) == [5, 0] + Wides([]);
    assert FilesBytes([pair]) == FileBytes(pair.0, pair.1) + FilesBytes([]);
    assert Wides([0x1234]) == [0x34, 0x12] + Wides([]);
  }

  const END: seq<Byte> := [0, 0, 0, 0]

  /** The sizes the writer asserts. */
  predicate Short(s: Str) {
    |s| < 0xFFFF
  }

  predicate Writable(d: Dir) {
    Short(d.name) && |d.files| < 0x8000_0000 && forall i :: 0 <= i < |d.files| ==> Short(d.files[i].0) && Short(d.files[i].1)
  }

  // --- What is read ----------------------------------------------------------------------------

  function TwoValue(s: seq<Byte>): (n: nat)
    requires |s| >= 2
    ensures n < 0x1_0000
  {
    var a: int, b: int := s[0], s[1];
    b * 256 + a
  }

  function FourValue(s: seq<Byte>): nat
    requires |s| >= 4
  {
    var a: int, b: int, c: int, d: int := s[0], s[1], s[2], s[3];
    d * 16777216 + c * 65536 + b * 256 + a
  }

  function ReadWides(s: seq<Byte>, n: nat): (r: Str)
    requires |s| >= 2 * n
    ensures |r| == n
    decreases n
  {
    if n == 0 then [] else [TwoValue(s)] + ReadWides(s[2..], n - 1)
  }

  /** One mapping, and the rest of the bytes. */
  function ReadMapping(s: seq<Byte>): Option<(Str, Str, seq<Byte>)> {
    if |s| < 4 then None
    else
      var n, k := TwoValue(s), TwoValue(s[2..]);
      if |s| < 4 + 2 * n + 2 * k then None
      else Some((ReadWides(s[4..], n), ReadWides(s[4 + 2 * n..], k), s[4 + 2 * n + 2 * k..]))
  }

  lemma ReadMappingShrinks(s: seq<Byte>)
    requires ReadMapping(s).Some?
    ensures |ReadMapping(s).value.2| < |s|
  {
  }

  function ReadFiles(s: seq<Byte>, entries: nat, dir: Str, m: Mapping): Option<(Mapping, seq<Byte>)>
    decreases entries
  {
    if entries == 0 then Some((m, s))
    else
      match ReadMapping(s)
      case None => None
      case Some((file, actual, rest)) => ReadFiles(rest, entries - 1, dir, Added(m, dir, file, actual))
  }

  lemma {:induction false} ReadFilesShrinks(s: seq<Byte>, entries: nat, dir: Str, m: Mapping)
    requires ReadFiles(s, entries, dir, m).Some?
    ensures |ReadFiles(s, entries, dir, m).value.1| <= |s|
    decreases entries
  {
    if entries > 0 {
      var (file, actual, rest) := ReadMapping(s).value;
      ReadMappingShrinks(s);
      ReadFilesShrinks(rest, entries - 1, dir, Added(m, dir, file, actual));
    }
  }

  /** A directory that has entries, added to a map, and the rest of the bytes. */
  function ReadOneDir(s: seq<Byte>, m: Mapping): Option<(Mapping, seq<Byte>)>
    requires |s| >= 4
  {
    if |s| < 6 || |s| < 6 + 2 * TwoValue(s[4..]) then None
    else
      var n := TwoValue(s[4..]);
      ReadFiles(s[6 + 2 * n..], FourValue(s), ReadWides(s[6..], n), m)
  }

  /** Directories up to the first without entries. */
  function ReadDirs(s: seq<Byte>, m: Mapping): Option<Mapping>
    decreases |s|
  {
    if |s| < 4 then None
    else if FourValue(s) == 0 then Some(m)
    else
      match ReadOneDir(s, m)
      case None => None
      case Some((m', rest)) => if |rest| < |s| then ReadDirs(rest, m') else None
  }

  // --- Reading back what was written ------------------------------------------------------------

  lemma TwoBack(x: nat, more: seq<Byte>)
    requires x < 0x1_0000
    ensures TwoValue(Two(x) + more) == x
  {
  }

  lemma FourBack(x: nat, more: seq<Byte>)
    requires x < 0x1_0000_0000
    ensures FourValue(Four(x) + more) == x
  {
    assert x / 65536 == x / 256 / 256 && x / 16777216 == x / 65536 / 256;
  }

  lemma {:induction false} WidesBack(s: Str, more: seq<Byte>)
    ensures ReadWides(Wides(s) + more, |s|) == s
  {
    if s != [] {
      assert Wides(s) + more == Two(s[0]) + (Wides(s[1..]) + more);
      TwoBack(s[0], Wides(s[1..]) + more);
      assert (Wides(s) + more)[2..] == Wides(s[1..]) + more;
      WidesBack(s[1..], more);
      assert [s[0]] + s[1..] == s;
    }
  }

  lemma MappingBack(first: Str, second: Str, more: seq<Byte>)
    requires Short(first) && Short(second)
    ensures ReadMapping(FileBytes(first, second) + more) == Some((first, second, more))
  {
    var s, n, k := FileBytes(first, second) + more, |first|, |second|;
    var tail := Wides(first) + (Wides(second) + more);
    assert s == Two(n) + (Two(k) + tail);
    TwoBack(n, Two(k) + tail);
    assert s[2..] == Two(k) + tail;
    TwoBack(k, tail);
    assert s[4..] == tail;
    WidesBack(first, Wides(second) + more);
    SplitWides(Wides(first), Wides(second), more, s);
    WidesBack(second, more);
  }

  lemma SplitWides(a: seq<Byte>, b: seq<Byte>, more: seq<Byte>, s: seq<Byte>)
    requires |s| >= 4 && s[4..] == a + (b + more)
    ensures s[4 + |a|..] == b + more && s[4 + |a| + |b|..] == more
  {
    assert s[4 + |a|..] == s[4..][|a|..];
    assert s[4 + |a| + |b|..] == s[4..][|a| + |b|..];
    assert (a + (b + more))[|a| + |b|..] == (b + more)[|b|..];
  }

  function AddedFiles(m: Mapping, dir: Str, files: seq<(Str, Str)>): Mapping
    decreases |files|
  {
    if files == [] then m else AddedFiles(Added(m, dir, files[0].0, files[0].1), dir, files[1..])
  }

  function AddedDirs(m: Mapping, dirs: seq<Dir>): Mapping
    decreases |dirs|
  {
    if dirs == [] then m else AddedDirs(AddedFiles(m, dirs[0].name, dirs[0].files), dirs[1..])
  }

  lemma {:induction false} FilesBack(files: seq<(Str, Str)>, dir: Str, m: Mapping, more: seq<Byte>)
    requires forall i :: 0 <= i < |files| ==> Short(files[i].0) && Short(files[i].1)
    ensures ReadFiles(FilesBytes(files) + more, |files|, dir, m) == Some((AddedFiles(m, dir, files), more))
    decreases |files|
  {
    if files == [] {
      assert [] + more == more;
    } else {
      var rest := FilesBytes(files[1..]) + more;
      assert FilesBytes(files) + more == FileBytes(files[0].0, files[0].1) + rest;
      MappingBack(files[0].0, files[0].1, rest);
      FilesBack(files[1..], dir, Added(m, dir, files[0].0, files[0].1), more);
    }
  }

  lemma HeaderBack(entries: nat, name: Str, tail: seq<Byte>)
    requires entries < 0x1_0000_0000 && Short(name)
    ensures var s := Four(entries) + (Two(|name|) + (Wides(name) + tail));
      && FourValue(s) == entries && TwoValue(s[4..]) == |name| && |s| == 6 + 2 * |name| + |tail|
      && ReadWides(s[6..], |name|) == name && s[6 + 2 * |name|..] == tail
  {
    var s, n := Four(entries) + (Two(|name|) + (Wides(name) + tail)), |name|;
    FourBack(entries, Two(n) + (Wides(name) + tail));
    assert s[4..] == Two(n) + (Wides(name) + tail);
    TwoBack(n, Wides(name) + tail);
    assert s[6..] == Wides(name) + tail;
    WidesBack(name, tail);
    assert s[6 + 2 * n..] == tail;
  }

  lemma OneDirBack(d: Dir, m: Mapping, more: seq<Byte>)
    requires Writable(d) && d.files != []
    ensures var s := DirBytes(d) + more;
      FourValue(s) > 0 && ReadOneDir(s, m) == Some((AddedFiles(m, d.name, d.files), more))
  {
    InOrder(Four(|d.files|), Two(|d.name|), Wides(d.name), FilesBytes(d.files), more);
    var tail := FilesBytes(d.files) + more;
    HeaderBack(|d.files|, d.name, tail);
    FilesBack(d.files, d.name, m, more);
    OneDirOf(DirBytes(d) + more, m, |d.files|, d.name, tail, AddedFiles(m, d.name, d.files), more);
  }

  lemma OneDirOf(s: seq<Byte>, m: Mapping, entries: nat, name: Str, tail: seq<Byte>, m': Mapping, rest: seq<Byte>)
    requires |s| >= 6 + 2 * |name| && FourValue(s) == entries && TwoValue(s[4..]) == |name|
    requires ReadWides(s[6..], |name|) == name && s[6 + 2 * |name|..] == tail
    requires ReadFiles(tail, entries, name, m) == Some((m', rest))
    ensures ReadOneDir(s, m) == Some((m', rest))
  {
  }

  lemma InOrder(a: seq<Byte>, b: seq<Byte>, c: seq<Byte>, d: seq<Byte>, e: seq<Byte>)
    ensures a + b + c + d + e == a + (b + (c + (d + e)))
  {
  }

  /** A directory with entries is read back, and what follows it is read next. */
  lemma DirBack(d: Dir, m: Mapping, more: seq<Byte>)
    requires Writable(d) && d.files != []
    ensures ReadDirs(DirBytes(d) + more, m) == ReadDirs(more, AddedFiles(m, d.name, d.files))
  {
    OneDirBack(d, m, more);
  }

  lemma {:induction false} DirsBack(dirs: seq<Dir>, m: Mapping, more: seq<Byte>)
    requires forall i :: 0 <= i < |dirs| ==> Writable(dirs[i]) && dirs[i].files != []
    ensures ReadDirs(DirsBytes(dirs) + more, m) == ReadDirs(more, AddedDirs(m, dirs))
    decreases |dirs|
  {
    if dirs == [] {
      assert [] + more == more;
    } else {
      assert DirsBytes(dirs) + more == DirBytes(dirs[0]) + (DirsBytes(dirs[1..]) + more);
      DirBack(dirs[0], m, DirsBytes(dirs[1..]) + more);
      DirsBack(dirs[1..], AddedFiles(m, dirs[0].name, dirs[0].files), more);
    }
  }

  /** A directory without entries looks like the end: what follows it is lost. */
  lemma EmptyDirEnds(before: seq<Dir>, name: Str, more: seq<Byte>, m: Mapping)
    requires forall i :: 0 <= i < |before| ==> Writable(before[i]) && before[i].files != []
    ensures ReadDirs(DirsBytes(before) + (DirBytes(Dir(name, [])) + more), m) == Some(AddedDirs(m, before))
  {
    var rest := DirBytes(Dir(name, [])) + more;
    DirsBack(before, m, rest);
    assert rest == Four(0) + (Two(|name|) + Wides(name) + FilesBytes([]) + more);
    FourBack(0, Two(|name|) + Wides(name) + FilesBytes([]) + more);
  }

  // --- Merging ----------------------------------------------------------------------------------

  /** The entries of a directory, each once, in any order. */
  predicate ListsFiles(files: seq<(Str, Str)>, m: Files) {
    && (forall i, j {:trigger files[i], files[j]} :: 0 <= i < j < |files| ==> files[i].0 != files[j].0)
    && (forall i {:trigger files[i]} :: 0 <= i < |files| ==> files[i].0 in m && m[files[i].0] == files[i].1)
    && (forall f {:trigger f in m} :: f in m ==> exists i :: 0 <= i < |files| && files[i].0 == f)
  }

  /** The directories of a map, each once, in any order. */
  predicate Lists(dirs: seq<Dir>, m: Mapping) {
    && (forall i, j {:trigger dirs[i], dirs[j]} :: 0 <= i < j < |dirs| ==> dirs[i].name != dirs[j].name)
    && (forall i {:trigger dirs[i]} :: 0 <= i < |dirs| ==> dirs[i].name in m && ListsFiles(dirs[i].files, m[dirs[i].name]))
    && (forall d {:trigger d in m} :: d in m ==> exists i :: 0 <= i < |dirs| && dirs[i].name == d)
  }

  function Overlay(base: Files, files: seq<(Str, Str)>): Files
    decreases |files|
  {
    if files == [] then base else Overlay(base[files[0].0 := files[0].1], files[1..])
  }

  lemma {:induction false} AddedFilesOverlay(m: Mapping, dir: Str, files: seq<(Str, Str)>)
    requires files != []
    ensures AddedFiles(m, dir, files) == m[dir := Overlay(FilesIn(m, dir), files)]
    decreases |files|
  {
    var m' := Added(m, dir, files[0].0, files[0].1);
    if |files| > 1 {
      AddedFilesOverlay(m', dir, files[1..]);
    } else {
      assert files[1..] == [];
    }
  }

  /** Later entries win, so entries with different names may come in any order. */
  lemma {:induction false} OverlayAt(base: Files, files: seq<(Str, Str)>, f: Str)
    requires forall i, j {:trigger files[i], files[j]} :: 0 <= i < j < |files| ==> files[i].0 != files[j].0
    ensures f in Overlay(base, files) <==> f in base || exists i :: 0 <= i < |files| && files[i].0 == f
    ensures forall i :: 0 <= i < |files| && files[i].0 == f ==> f in Overlay(base, files) && Overlay(base, files)[f] == files[i].1
    ensures f in base && (forall i :: 0 <= i < |files| ==> files[i].0 != f) ==> Overlay(base, files)[f] == base[f]
    decreases |files|
  {
    if files != [] {
      var rest := files[1..];
      assert forall i :: 0 <= i < |rest| ==> rest[i] == files[i + 1];
      OverlayAt(base[files[0].0 := files[0].1], rest, f);
      forall i | 0 <= i < |files| && files[i].0 == f
        ensures f in Overlay(base, files) && Overlay(base, files)[f] == files[i].1
      {
        if i > 0 {
          assert rest[i - 1] == files[i];
        } else {
          assert forall j :: 0 <= j < |rest| ==> rest[j].0 != f;
        }
      }
      if exists i :: 0 <= i < |files| && files[i].0 == f {
        var i :| 0 <= i < |files| && files[i].0 == f;
      }
    }
  }

  lemma OverlayIsMerge(base: Files, files: seq<(Str, Str)>, m: Files)
    requires ListsFiles(files, m)
    ensures Overlay(base, files) == base + m
  {
    forall f
      ensures f in Overlay(base, files) <==> f in base + m
      ensures f in base + m ==> Overlay(base, files)[f] == (base + m)[f]
    {
      OverlayAt(base, files, f);
      if f in m {
        var i :| 0 <= i < |files| && files[i].0 == f;
      } else {
        assert forall i :: 0 <= i < |files| ==> files[i].0 != f;
      }
    }
  }

  /** What reading a list of directories leaves in one directory. */
  lemma {:induction false} AddedDirsAt(acc: Mapping, dirs: seq<Dir>, m: Mapping, d: Str)
    requires forall i, j {:trigger dirs[i], dirs[j]} :: 0 <= i < j < |dirs| ==> dirs[i].name != dirs[j].name
    requires forall i {:trigger dirs[i]} :: 0 <= i < |dirs| ==>
      dirs[i].files != [] && dirs[i].name in m && ListsFiles(dirs[i].files, m[dirs[i].name])
    ensures var there := exists i :: 0 <= i < |dirs| && dirs[i].name == d;
      && (d in AddedDirs(acc, dirs) <==> d in acc || there)
      && FilesIn(AddedDirs(acc, dirs), d) == if there then FilesIn(acc, d) + FilesIn(m, d) else FilesIn(acc, d)
    decreases |dirs|
  {
    if dirs != [] {
      var first, rest := dirs[0], dirs[1..];
      assert forall i :: 0 <= i < |rest| ==> rest[i] == dirs[i + 1];
      AddedFilesOverlay(acc, first.name, first.files);
      OverlayIsMerge(FilesIn(acc, first.name), first.files, m[first.name]);
      AddedDirsAt(AddedFiles(acc, first.name, first.files), rest, m, d);
      if exists i :: 0 <= i < |dirs| && dirs[i].name == d {
        var i :| 0 <= i < |dirs| && dirs[i].name == d;
        assert i > 0 ==> rest[i - 1].name == d;
      }
    }
  }

  lemma ListedFiles(dirs: seq<Dir>, m: Mapping)
    requires Lists(dirs, m) && NoEmptyDirs(m)
    ensures forall i :: 0 <= i < |dirs| ==> dirs[i].files != []
  {
    forall i | 0 <= i < |dirs|
      ensures dirs[i].files != []
    {
      var files := m[dirs[i].name];
      assert ListsFiles(dirs[i].files, files);
      var f :| f in files;
    }
  }

  lemma SameMapping(a: Mapping, b: Mapping)
    requires forall d {:trigger d in a} {:trigger d in b} :: (d in a <==> d in b) && (d in b ==> d in a && a[d] == b[d])
    ensures a == b
  {
  }

  lemma AddedDirsMerge(acc: Mapping, dirs: seq<Dir>, m: Mapping)
    requires Lists(dirs, m) && NoEmptyDirs(m)
    ensures AddedDirs(acc, dirs) == Merged(acc, m)
    ensures forall i :: 0 <= i < |dirs| ==> dirs[i].files != []
  {
    ListedFiles(dirs, m);
    var a, b := AddedDirs(acc, dirs), Merged(acc, m);
    forall d
      ensures (d in a <==> d in b) && (d in b ==> d in a && a[d] == b[d])
    {
      AddedDirsMergeAt(acc, dirs, m, d);
    }
    SameMapping(a, b);
  }

  lemma AddedDirsMergeAt(acc: Mapping, dirs: seq<Dir>, m: Mapping, d: Str)
    requires Lists(dirs, m) && forall i :: 0 <= i < |dirs| ==> dirs[i].files != []
    ensures d in AddedDirs(acc, dirs) <==> d in Merged(acc, m)
    ensures d in Merged(acc, m) ==> AddedDirs(acc, dirs)[d] == Merged(acc, m)[d]
  {
    AddedDirsAt(acc, dirs, m, d);
    MergedAt(acc, m, d);
    ListedDir(dirs, m, d);
    NothingAdded(FilesIn(acc, d));
  }

  lemma ListedDir(dirs: seq<Dir>, m: Mapping, d: Str)
    requires Lists(dirs, m)
    ensures d in m <==> exists i :: 0 <= i < |dirs| && dirs[i].name == d
  {
  }

  lemma NothingAdded(files: Files)
    ensures files + map[] == files
  {
  }

  // --- The transfer ------------------------------------------------------------------------------

  function AllBytes(listings: seq<seq<Dir>>): seq<Byte> {
    if listings == [] then [] else AllBytes(listings[..|listings| - 1]) + DirsBytes(listings[|listings| - 1])
  }

  /** Each listing walks through its map, and all of it can be written. */
  predicate WalksThrough(listings: seq<seq<Dir>>, maps: seq<Mapping>) {
    |listings| == |maps| && forall i {:trigger Walks(listings[i], maps[i])} :: 0 <= i < |maps| ==> Walks(listings[i], maps[i])
  }

  predicate Walks(listing: seq<Dir>, m: Mapping) {
    Written(listing, m) && NoEmptyDirs(m)
  }

  predicate Written(listing: seq<Dir>, m: Mapping) {
    Lists(listing, m) && forall k :: 0 <= k < |listing| ==> Writable(listing[k])
  }

  lemma WalksThroughFront(listings: seq<seq<Dir>>, maps: seq<Mapping>)
    requires WalksThrough(listings, maps) && maps != []
    ensures WalksThrough(listings[..|maps| - 1], maps[..|maps| - 1])
  {
    var front, before := listings[..|maps| - 1], maps[..|maps| - 1];
    forall i | 0 <= i < |before|
      ensures Walks(front[i], before[i])
    {
      assert Walks(listings[i], maps[i]);
    }
  }

  lemma Associate(a: seq<Byte>, b: seq<Byte>, c: seq<Byte>)
    ensures (a + b) + c == a + (b + c)
  {
  }

  lemma WalkedBack(listing: seq<Dir>, m: Mapping, acc: Mapping, more: seq<Byte>)
    requires Walks(listing, m)
    ensures ReadDirs(DirsBytes(listing) + more, acc) == ReadDirs(more, Merged(acc, m))
  {
    AddedDirsMerge(acc, listing, m);
    DirsBack(listing, acc, more);
  }

  lemma {:induction false} ReadsAll(listings: seq<seq<Dir>>, maps: seq<Mapping>, more: seq<Byte>)
    requires WalksThrough(listings, maps)
    ensures ReadDirs(AllBytes(listings) + more, map[]) == ReadDirs(more, MergedAll(maps))
    decreases |maps|
  {
    if maps == [] {
      assert [] + more == more;
    } else {
      var last := |maps| - 1;
      var front, before := listings[..last], maps[..last];
      WalksThroughFront(listings, maps);
      var rest := DirsBytes(listings[last]) + more;
      assert AllBytes(listings) == AllBytes(front) + DirsBytes(listings[last]);
      Associate(AllBytes(front), DirsBytes(listings[last]), more);
      ReadsAll(front, before, rest);
      assert Walks(listings[last], maps[last]);
      WalkedBack(listings[last], maps[last], MergedAll(before), more);
    }
  }

  /** Whatever maps are handed over and in whatever order their entries are walked through,
      the new process has their merge, later maps winning over earlier ones. */
  lemma TransferMerges(listings: seq<seq<Dir>>, maps: seq<Mapping>)
    requires WalksThrough(listings, maps)
    ensures ReadDirs(AllBytes(listings) + END, map[]) == Some(MergedAll(maps))
  {
    ReadsAll(listings, maps, END);
    assert FourValue(END) == 0;
  }

  // --- When the transfer delivers what was sent --------------------------------------------------

  lemma {:induction false} DirsBytesConcat(a: seq<Dir>, b: seq<Dir>)
    ensures DirsBytes(a + b) == DirsBytes(a) + DirsBytes(b)
    decreases |a|
  {
    if a == [] {
      assert a + b == b;
    } else {
      assert (a + b)[1..] == a[1..] + b;
      DirsBytesConcat(a[1..], b);
    }
  }

  lemma NothingListed(files: seq<(Str, Str)>, m: Files)
    requires ListsFiles(files, m)
    ensures files == [] <==> m == map[]
  {
    if files != [] {
      assert files[0].0 in m;
    } else {
      assert forall f :: f !in m;
    }
  }

  lemma EmptyIsListed(listing: seq<Dir>, m: Mapping) returns (j: nat)
    requires Lists(listing, m) && !NoEmptyDirs(m)
    ensures j < |listing| && listing[j].files == []
  {
    var d :| d in m && m[d] == map[];
    j :| j < |listing| && listing[j].name == d;
    NothingListed(listing[j].files, m[d]);
  }

  lemma {:induction false} FirstEmpty(listing: seq<Dir>, j: nat) returns (k: nat)
    requires j < |listing| && listing[j].files == []
    ensures k <= j && listing[k].files == [] && forall i :: 0 <= i < k ==> listing[i].files != []
  {
    k := j;
    if i: nat :| i < j && listing[i].files == [] {
      k := FirstEmpty(listing, i);
    }
  }

  /** What has been read before the k-th directory. */
  lemma ReadBefore(listing: seq<Dir>, m: Mapping, k: nat, d: Str)
    requires Lists(listing, m) && k < |listing| && forall i :: 0 <= i < k ==> listing[i].files != []
    ensures var read := AddedDirs(map[], listing[..k]);
      (d == listing[k].name ==> d !in read) && forall f :: f in FilesIn(read, d) ==> f in FilesIn(m, d)
  {
    var before := listing[..k];
    assert forall i :: 0 <= i < k ==> before[i] == listing[i];
    AddedDirsAt(map[], before, m, d);
  }

  /** After an empty directory nothing more is read: not that directory, and no file that the
      map does not have itself. */
  lemma EmptyDirLoses(listing: seq<Dir>, m: Mapping, more: seq<Byte>) returns (lost: Str)
    requires Written(listing, m) && !NoEmptyDirs(m)
    ensures lost in m && ReadDirs(DirsBytes(listing) + more, map[]).Some?
    ensures var read := ReadDirs(DirsBytes(listing) + more, map[]).value;
      lost !in read && forall d, f :: f in FilesIn(read, d) ==> f in FilesIn(m, d)
  {
    var j := EmptyIsListed(listing, m);
    var k := FirstEmpty(listing, j);
    lost := listing[k].name;
    ReadUpToEmpty(listing, k, more);
    ReadBefore(listing, m, k, lost);
    forall d, f | f in FilesIn(AddedDirs(map[], listing[..k]), d)
      ensures f in FilesIn(m, d)
    {
      ReadBefore(listing, m, k, d);
    }
  }

  lemma ReadUpToEmpty(listing: seq<Dir>, k: nat, more: seq<Byte>)
    requires k < |listing| && listing[k].files == [] && forall i :: 0 <= i < k ==> listing[i].files != []
    requires forall i :: 0 <= i < |listing| ==> Writable(listing[i])
    ensures ReadDirs(DirsBytes(listing) + more, map[]) == Some(AddedDirs(map[], listing[..k]))
  {
    SplitAtEmpty(listing, k, more);
    EmptyDirEnds(listing[..k], listing[k].name, DirsBytes(listing[k + 1..]) + more, map[]);
  }

  lemma SplitAtEmpty(listing: seq<Dir>, k: nat, more: seq<Byte>)
    requires k < |listing| && listing[k].files == []
    ensures DirsBytes(listing) + more
         == DirsBytes(listing[..k]) + (DirBytes(Dir(listing[k].name, [])) + (DirsBytes(listing[k + 1..]) + more))
  {
    var before, rest := listing[..k], listing[k..];
    assert listing == before + rest && rest[0] == Dir(listing[k].name, []) && rest[1..] == listing[k + 1..];
    DirsBytesConcat(before, rest);
    Associate(DirsBytes(before), DirsBytes(rest), more);
    Associate(DirBytes(rest[0]), DirsBytes(rest[1..]), more);
  }

  lemma OneMap(m: Mapping)
    ensures MergedAll([m]) == m
  {
    assert [m][..0] == [];
    assert MergedAll([]) == map[];
    forall d
      ensures FilesIn(map[], d) + FilesIn(m, d) == FilesIn(m, d)
    {
    }
    assert forall d :: d in m ==> FilesIn(m, d) == m[d];
  }

  lemma OneListing(listing: seq<Dir>)
    ensures AllBytes([listing]) == DirsBytes(listing)
  {
    assert [listing][..0] == [];
    assert AllBytes([]) == [];
  }

  /** A map arrives as it was sent exactly if it has no empty directory. */
  lemma ArrivesExactly(listing: seq<Dir>, m: Mapping)
    requires Written(listing, m)
    ensures ReadDirs(DirsBytes(listing) + END, map[]) == Some(m) <==> NoEmptyDirs(m)
  {
    if NoEmptyDirs(m) {
      assert Walks([listing][0], [m][0]);
      TransferMerges([listing], [m]);
      OneMap(m);
      OneListing(listing);
    } else {
      var lost := EmptyDirLoses(listing, m, END);
    }
  }

  predicate Delivers(listings: seq<seq<Dir>>, maps: seq<Mapping>) {
    ReadDirs(AllBytes(listings) + END, map[]) == Some(MergedAll(maps))
  }

  /** Whatever maps without empty directories follow. */
  ghost predicate AlwaysDelivers(listing: seq<Dir>, m: Mapping) {
    forall listings, maps {:trigger WalksThrough(listings, maps)} ::
      WalksThrough(listings, maps) ==> Delivers([listing] + listings, [m] + maps)
  }

  /** A map and all that follow it always arrive, merged, exactly if it has no empty directory. */
  lemma DeliversExactly(listing: seq<Dir>, m: Mapping)
    requires Written(listing, m)
    ensures AlwaysDelivers(listing, m) <==> NoEmptyDirs(m)
  {
    if NoEmptyDirs(m) {
      forall listings, maps | WalksThrough(listings, maps)
        ensures Delivers([listing] + listings, [m] + maps)
      {
        forall i | 0 <= i < |[m] + maps|
          ensures Walks(([listing] + listings)[i], ([m] + maps)[i])
        {
          assert i > 0 ==> Walks(listings[i - 1], maps[i - 1]);
        }
        TransferMerges([listing] + listings, [m] + maps);
      }
    }
    if AlwaysDelivers(listing, m) {
      assert WalksThrough([], []);
      assert [listing] + [] == [listing] && [m] + [] == [m];
      OneMap(m);
      OneListing(listing);
      ArrivesExactly(listing, m);
    }
  }

  lemma LastOfAll(listing: seq<Dir>, listings: seq<seq<Dir>>, front: seq<seq<Dir>>, last: seq<Dir>)
    requires listings != [] && front == listings[..|listings| - 1] && last == listings[|listings| - 1]
    ensures listings == front + [last] && [listing] + listings == ([listing] + front) + [last]
  {
  }

  lemma LastListing(listings: seq<seq<Dir>>, last: seq<Dir>)
    ensures AllBytes(listings + [last]) == AllBytes(listings) + DirsBytes(last)
  {
    assert (listings + [last])[..|listings|] == listings;
  }

  lemma {:induction false} FirstListing(listing: seq<Dir>, listings: seq<seq<Dir>>)
    ensures AllBytes([listing] + listings) == DirsBytes(listing) + AllBytes(listings)
    decreases |listings|
  {
    if listings == [] {
      assert [listing] + [] == [listing];
      OneListing(listing);
    } else {
      var front, last := listings[..|listings| - 1], listings[|listings| - 1];
      FirstListing(listing, front);
      LastListing(front, last);
      LastListing([listing] + front, last);
      Associate(DirsBytes(listing), AllBytes(front), DirsBytes(last));
      LastOfAll(listing, listings, front, last);
    }
  }

  /** If it has one, every file that only the following maps have is lost. */
  lemma FollowersAreLost(listing: seq<Dir>, m: Mapping, listings: seq<seq<Dir>>, dir: Str, file: Str)
    requires Written(listing, m) && !NoEmptyDirs(m) && file !in FilesIn(m, dir)
    ensures var read := ReadDirs(AllBytes([listing] + listings) + END, map[]);
      read.Some? && file !in FilesIn(read.value, dir)
  {
    FirstListing(listing, listings);
    Associate(DirsBytes(listing), AllBytes(listings), END);
    var lost := EmptyDirLoses(listing, m, AllBytes(listings) + END);
  }

  lemma EmptyMapWritten(d: Str)
    requires Short(d)
    ensures Written([Dir(d, [])], map[d := map[]]) && !NoEmptyDirs(map[d := map[]])
  {
    var m: Mapping, listing := map[d := map[]], [Dir(d, [])];
    assert ListsFiles([], m[d]);
    assert listing[0].name == d && m[d] == map[];
  }

  lemma OneFileWalks(e: Str, f: Str)
    requires Short(e) && Short(f)
    ensures Walks([Dir(e, [(f, f)])], map[e := map[f := f]])
  {
    var m: Mapping, files := map[e := map[f := f]], [(f, f)];
    var listing := [Dir(e, files)];
    assert files[0].0 == f && listing[0].name == e;
    assert ListsFiles(files, m[e]);
    assert m[e] != map[] by {
      assert f in m[e];
    }
  }

  /** An input that shows it: a map whose only directory is empty, before one with a file. */
  lemma LostFile() returns (listings: seq<seq<Dir>>, maps: seq<Mapping>)
    ensures |listings| == |maps| == 2 && Written(listings[0], maps[0]) && Walks(listings[1], maps[1])
    ensures [2] in FilesIn(MergedAll(maps), [1])
    ensures var read := ReadDirs(AllBytes(listings) + END, map[]); read.Some? && [2] !in FilesIn(read.value, [1])
  {
    var d, e, f: Str := [0], [1], [2];
    var first, second := [Dir(d, [])], [Dir(e, [(f, f)])];
    listings, maps := [first] + [second], [map[d := map[]], map[e := map[f := f]]];
    EmptyMapWritten(d);
    OneFileWalks(e, f);
    assert d[0] != e[0] && e !in maps[0];
    FollowersAreLost(first, maps[0], [second], e, f);
    MergedLast(maps, e);
  }

  predicate Holds(maps: seq<Mapping>, i: int, dir: Str, file: Str) {
    0 <= i < |maps| && file in FilesIn(maps[i], dir)
  }

  lemma MergedLast(maps: seq<Mapping>, dir: Str)
    requires maps != []
    ensures var last := |maps| - 1;
      FilesIn(MergedAll(maps), dir) == FilesIn(MergedAll(maps[..last]), dir) + FilesIn(maps[last], dir)
  {
  }

  /** A file that no map has is not found. */
  lemma {:induction false} NobodyHasIt(maps: seq<Mapping>, dir: Str, file: Str)
    requires forall i {:trigger Holds(maps, i, dir, file)} :: !Holds(maps, i, dir, file)
    ensures file !in FilesIn(MergedAll(maps), dir)
    decreases |maps|
  {
    if maps != [] {
      var last := |maps| - 1;
      MergedLast(maps, dir);
      assert !Holds(maps, last, dir, file);
      forall i
        ensures !Holds(maps[..last], i, dir, file)
      {
        assert !Holds(maps, i, dir, file);
      }
      NobodyHasIt(maps[..last], dir, file);
    }
  }

  /** A file is found in the last map that has it. */
  lemma {:induction false} LastMapWins(maps: seq<Mapping>, i: nat, dir: Str, file: Str)
    requires Holds(maps, i, dir, file)
    requires forall j {:trigger Holds(maps, j, dir, file)} :: i < j ==> !Holds(maps, j, dir, file)
    ensures file in FilesIn(MergedAll(maps), dir) && FilesIn(MergedAll(maps), dir)[file] == FilesIn(maps[i], dir)[file]
    decreases |maps|
  {
    var last := |maps| - 1;
    MergedLast(maps, dir);
    if i < last {
      assert !Holds(maps, last, dir, file);
      forall j | i < j
        ensures !Holds(maps[..last], j, dir, file)
      {
        assert !Holds(maps, j, dir, file);
      }
      LastMapWins(maps[..last], i, dir, file);
    }
  }

  // --- Writing and reading as it is done -----------------------------------------------------------

  class Pipe {
    var data: seq<Byte>

    constructor ()
      ensures data == []
    {
      data := [];
    }

    method WriteFile(bytes: seq<Byte>)
      modifies this
      ensures data == old(data) + bytes
    {
      data := data + bytes;
    }

    /** Fails if the other end has been closed before so much was written. */
    method ReadFile(n: nat) returns (ok: bool, bytes: seq<Byte>)
      modifies this
      ensures ok == (n <= |old(data)|)
      ensures if ok then bytes == old(data)[..n] && data == old(data)[n..] else data == old(data)
    {
      ok := n <= |data|;
      if ok {
        bytes := data[..n];
        data := data[n..];
      } else {
        bytes := [];
      }
    }
  }

  method WriteDir(pipe: Pipe, name: Str, entries: nat)
    requires Short(name)
    modifies pipe
    ensures pipe.data == old(pipe.data) + (Four(entries) + Two(|name|) + Wides(name))
  {
    pipe.WriteFile(Four(entries));
    pipe.WriteFile(Two(|name|));
    pipe.WriteFile(Wides(name));
    assert ((old(pipe.data) + Four(entries)) + Two(|name|)) + Wides(name) == old(pipe.data) + (Four(entries) + Two(|name|) + Wides(name));
  }

  method WriteMapping(pipe: Pipe, first: Str, second: Str)
    requires Short(first) && Short(second)
    modifies pipe
    ensures pipe.data == old(pipe.data) + FileBytes(first, second)
  {
    pipe.WriteFile(Two(|first|) + Two(|second|));
    pipe.WriteFile(Wides(first));
    pipe.WriteFile(Wides(second));
  }

  lemma {:induction false} FilesBytesPush(files: seq<(Str, Str)>, k: nat)
    requires k < |files|
    ensures FilesBytes(files[..k + 1]) == FilesBytes(files[..k]) + FileBytes(files[k].0, files[k].1)
    decreases k
  {
    if k == 0 {
      assert files[..1] == [files[0]] && files[..0] == [] && files[..1][1..] == [];
    } else {
      assert files[..k + 1][1..] == files[1..][..k] && files[..k][1..] == files[1..][..k - 1];
      FilesBytesPush(files[1..], k - 1);
    }
  }

  method WriteDirectory(pipe: Pipe, d: Dir)
    requires Writable(d)
    modifies pipe
    ensures pipe.data == old(pipe.data) + DirBytes(d)
  {
    ghost var before := pipe.data;
    WriteDir(pipe, d.name, |d.files|);
    ghost var start := pipe.data;
    var k := 0;
    while k < |d.files|
      invariant k <= |d.files| && pipe.data == start + FilesBytes(d.files[..k])
    {
      FilesBytesPush(d.files, k);
      WriteMapping(pipe, d.files[k].0, d.files[k].1);
      Associate(start, FilesBytes(d.files[..k]), FileBytes(d.files[k].0, d.files[k].1));
      k := k + 1;
    }
    assert d.files[..k] == d.files;
    Associate(before, Four(|d.files|) + Two(|d.name|) + Wides(d.name), FilesBytes(d.files));
  }

  /** The reader takes exactly what the specification says, whatever the bytes are. */
  method Initialize(pipe: Pipe) returns (ok: bool, global: Mapping)
    modifies pipe
    ensures match ReadDirs(old(pipe.data), map[])
      case None => !ok
      case Some(m) => ok && global == m
  {
    global := map[];
    ghost var goal := ReadDirs(pipe.data, map[]);
    while true
      invariant goal == ReadDirs(pipe.data, global)
      decreases |pipe.data|
    {
      ghost var left := pipe.data;
      var dirOk, dirName, entries := ReadDir(pipe);
      if !dirOk {
        return false, global;
      }
      if entries == 0 {
        return true, global;
      }
      if ReadFiles(pipe.data, entries, dirName, global).Some? {
        ReadFilesShrinks(pipe.data, entries, dirName, global);
      }
      var filesOk;
      filesOk, global := ReadEntries(pipe, entries, dirName, global);
      if !filesOk {
        return false, global;
      }
    }
  }

  /** The name is only there if there are entries. */
  method ReadDir(pipe: Pipe) returns (ok: bool, name: Str, entries: nat)
    modifies pipe
    ensures var s := old(pipe.data);
      if |s| < 4 || (FourValue(s) != 0 && (|s| < 6 || |s| < 6 + 2 * TwoValue(s[4..]))) then !ok
      else
        && ok && entries == FourValue(s)
        && (entries != 0 ==>
              && name == ReadWides(s[6..], TwoValue(s[4..])) && pipe.data == s[6 + 2 * TwoValue(s[4..])..])
  {
    name, entries := [], 0;
    ghost var s := pipe.data;
    var buffer;
    ok, buffer := pipe.ReadFile(4);
    if !ok {
      return;
    }
    entries := FourValue(buffer);
    if entries != 0 {
      ok, buffer := pipe.ReadFile(2);
      if !ok {
        return;
      }
      var size := TwoValue(buffer);
      ok, buffer := pipe.ReadFile(2 * size);
      if !ok {
        return;
      }
      assert buffer == s[6..][..2 * size];
      ReadWidesPrefix(s[6..], size);
      name := ReadWides(buffer, size);
    }
  }

  lemma {:induction false} ReadWidesPrefix(s: seq<Byte>, n: nat)
    requires |s| >= 2 * n
    ensures ReadWides(s[..2 * n], n) == ReadWides(s, n)
    decreases n
  {
    if n > 0 {
      assert s[..2 * n][2..] == s[2..][..2 * (n - 1)];
      ReadWidesPrefix(s[2..], n - 1);
    }
  }

  method ReadEntries(pipe: Pipe, entries: nat, dir: Str, m: Mapping) returns (ok: bool, m': Mapping)
    modifies pipe
    ensures match ReadFiles(old(pipe.data), entries, dir, m)
      case None => !ok
      case Some((read, rest)) => ok && m' == read && pipe.data == rest
  {
    m' := m;
    ghost var goal := ReadFiles(pipe.data, entries, dir, m);
    var entry := 0;
    while entry < entries
      invariant entry <= entries && goal == ReadFiles(pipe.data, entries - entry, dir, m')
    {
      var file, actual;
      ok, file, actual := ReadOne(pipe);
      if !ok {
        return;
      }
      m' := Added(m', dir, file, actual);
      entry := entry + 1;
    }
    ok := true;
  }

  method ReadOne(pipe: Pipe) returns (ok: bool, first: Str, second: Str)
    modifies pipe
    ensures match ReadMapping(old(pipe.data))
      case None => !ok
      case Some((f, g, rest)) => ok && first == f && second == g && pipe.data == rest
  {
    first, second := [], [];
    ghost var s := pipe.data;
    var sizes, buffer;
    ok, sizes := pipe.ReadFile(4);
    if !ok {
      return;
    }
    var n, k := TwoValue(sizes), TwoValue(sizes[2..]);
    ok, buffer := pipe.ReadFile(2 * n);
    if !ok {
      return;
    }
    assert buffer == s[4..][..2 * n];
    ReadWidesPrefix(s[4..], n);
    first := ReadWides(buffer, n);
    ok, buffer := pipe.ReadFile(2 * k);
    if !ok {
      return;
    }
    assert buffer == s[4 + 2 * n..][..2 * k];
    ReadWidesPrefix(s[4 + 2 * n..], k);
    second := ReadWides(buffer, k);
  }
}
