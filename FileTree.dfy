/**
  The source directory as a table from names to entries, and the two
  filesystem operations the organizer performs on it:
  `Path.mkdir(exist_ok=True)` and `shutil.move`.
*/
module FileTree {

  import opened Wrappers

  datatype Entry = File(data: seq<bv8>) | Dir(entries: map<string, Entry>)

  /** The entry reached from `dir` by following the names of `path`, one directory level per name. */
  function Lookup(dir: map<string, Entry>, path: seq<string>): (r: Option<Entry>)
    ensures |path| == 1 ==> r == (if path[0] in dir then Some(dir[path[0]]) else None)
    ensures |path| == 2 ==> r == (if IsDirIn(dir, path[0]) && path[1] in dir[path[0]].entries
                                  then Some(dir[path[0]].entries[path[1]]) else None)
    decreases |path|
  {
    if path == [] || path[0] !in dir then None
    else if |path| == 1 then Some(dir[path[0]])
    else match dir[path[0]]
      case File(_) => None
      case Dir(sub) => Lookup(sub, path[1..])
  }

  /** Looking up three names is looking up the first two and then the third inside what they reach. */
  lemma LookupThree(dir: map<string, Entry>, a: string, b: string, c: string)
    ensures Lookup(dir, [a, b, c]) == (var up := Lookup(dir, [a, b]);
                                       if up.Some? && up.value.Dir? && c in up.value.entries
                                       then Some(up.value.entries[c]) else None)
  {
    assert [a, b, c][1..] == [b, c];
    if a in dir && dir[a].Dir? {
      assert [b, c][1..] == [c];
    }
  }

  predicate IsDirIn(root: map<string, Entry>, name: string) {
    name in root && root[name].Dir?
  }

  /** Every top-level entry other than `names` is as it was. */
  ghost predicate SameExcept(root: map<string, Entry>, root': map<string, Entry>, names: set<string>) {
    forall n :: n !in names ==> (n in root' <==> n in root) && (n in root ==> root'[n] == root[n])
  }

  /**
    `(root / folder).mkdir(exist_ok=True)`: creates an empty directory when
    the name is free, does nothing when a directory already has it, and
    raises `FileExistsError` (here `None`) when a file has it.
  */
  function MakeDir(root: map<string, Entry>, folder: string): (r: Option<map<string, Entry>>)
    ensures r.None? <==> folder in root && root[folder].File?
    ensures r.Some? ==> IsDirIn(r.value, folder) && SameExcept(root, r.value, {folder})
    ensures r.Some? && folder in root ==> r.value == root
    ensures r.Some? && folder !in root ==> r.value[folder] == Dir(map[])
  {
    if folder !in root then Some(root[folder := Dir(map[])])
    else if root[folder].Dir? then Some(root)
    else None
  }

  /**
    Where `shutil.move(root/name, root/folder/name)` puts the file: the
    destination itself, or, when the destination is an existing directory,
    a same-named entry inside that directory.
  */
  function Destination(folder: string, name: string, before: Option<Entry>): (p: seq<string>)
    ensures 2 <= |p| <= 3 && p[..2] == [folder, name]
    ensures |p| == 3 <==> before.Some? && before.value.Dir?
    ensures |p| == 3 ==> p[2] == name
  {
    if before.Some? && before.value.Dir? then [folder, name, name] else [folder, name]
  }

  /**
    `shutil.move(root/name, root/folder/name)` for a root file `name` and a
    root directory `folder`. A file already at the destination is replaced
    (`os.rename`). When a directory is there, the file is moved into it,
    and the move raises `shutil.Error` (here `None`) if that directory already
    has an entry of the same name.
  */
  function MoveInto(root: map<string, Entry>, name: string, folder: string): (r: Option<map<string, Entry>>)
    requires name in root && root[name].File? && IsDirIn(root, folder) && name != folder
    ensures r.None? <==> (var before := Lookup(root, [folder, name]);
                          before.Some? && before.value.Dir? && name in before.value.entries)
    ensures r.Some? ==> name !in r.value && IsDirIn(r.value, folder)
    ensures r.Some? ==> SameExcept(root, r.value, {name, folder})
    ensures r.Some? ==> Lookup(r.value, Destination(folder, name, Lookup(root, [folder, name]))) == Some(root[name])
    ensures r.Some? ==> forall n :: n != name ==> Lookup(r.value, [folder, n]) == Lookup(root, [folder, n])
    ensures r.Some? ==> forall k :: k != name ==> Lookup(r.value, [folder, name, k]) == Lookup(root, [folder, name, k])
  {
    var inside := root[folder].entries;
    var moved := root - {name};
    if name in inside && inside[name].Dir? then
      var sub := inside[name].entries;
      if name in sub then None
      else
        var r := moved[folder := Dir(inside[name := Dir(sub[name := root[name]])])];
        assert Lookup(r, [folder, name, name]) == Lookup(r[folder].entries, [name, name]);
        assert Lookup(r[folder].entries, [name, name]) == Lookup(r[folder].entries[name].entries, [name]);
        forall k | k != name
          ensures Lookup(r, [folder, name, k]) == Lookup(root, [folder, name, k])
        {
          LookupThree(r, folder, name, k);
          LookupThree(root, folder, name, k);
        }
        Some(r)
    else
      var r := moved[folder := Dir(inside[name := root[name]])];
      assert Lookup(r, [folder, name]) == Lookup(r[folder].entries, [name]);
      forall k
        ensures Lookup(r, [folder, name, k]) == Lookup(root, [folder, name, k])
      {
        LookupThree(r, folder, name, k);
        LookupThree(root, folder, name, k);
      }
      Some(r)
  }
}
