/**
  The imperative side of `organize_dng_files`: the source directory as an
  object whose entries `mkdir` and `shutil.move` change in place, and the
  loop over the directory listing, proved to do what `Organizer.Run`
  describes.
*/
module SourceDirectory {

  import opened Wrappers
  import opened DateTimes
  import opened MetadataReader
  import opened FileTree
  import opened Organizer

  /** The metadata tool's answer for the file of each name in the source directory. */
  type Exif = string -> ToolRun

  /** What `get_date_taken` returns for each file, given the tool's answers. */
  function DatesOf(exif: Exif): Dates {
    var f: string -> Option<DateTime> := n => DateTaken(exif(n));
    assert forall n :: f(n) == DateTaken(exif(n));
    f
  }

  /** `listing` names every entry of `entries` exactly once, in some order. */
  ghost predicate IsListing(listing: seq<string>, entries: map<string, Entry>) {
    && (forall n :: n in entries <==> n in listing)
    && (forall i, j :: 0 <= i < j < |listing| ==> listing[i] != listing[j])
  }

  class Directory {
    var entries: map<string, Entry>

    constructor (initial: map<string, Entry>)
      ensures entries == initial
    {
      entries := initial;
    }

    /** `(self / folder).mkdir(exist_ok=True)`; `false` when it raises. */
    method MakeDir(folder: string) returns (ok: bool)
      modifies this
      ensures ok <==> FileTree.MakeDir(old(entries), folder).Some?
      ensures entries == if ok then FileTree.MakeDir(old(entries), folder).value else old(entries)
    {
      if folder !in entries {
        entries := entries[folder := Dir(map[])];
        ok := true;
      } else {
        ok := entries[folder].Dir?;
      }
    }

    /** `shutil.move(self / name, self / folder / name)`; `false` when it raises. */
    method Move(name: string, folder: string) returns (ok: bool)
      requires name in entries && entries[name].File? && IsDirIn(entries, folder) && name != folder
      modifies this
      ensures ok <==> MoveInto(old(entries), name, folder).Some?
      ensures entries == if ok then MoveInto(old(entries), name, folder).value else old(entries)
    {
      var result := MoveInto(entries, name, folder);
      ok := result.Some?;
      if ok {
        entries := result.value;
      }
    }

    /**
      One pass of the loop body for the listed `name`: skip it unless it is a
      regular `*.DNG` file with a capture time, else file it by that date.
    */
    method ProcessEntry(name: string, exif: Exif) returns (outcome: Outcome)
      modifies this
      ensures State(entries, outcome) == Step(old(entries), name, DatesOf(exif))
    {
      outcome := Completed;
      if MatchesPattern(name) && name in entries && entries[name].File? {
        var taken := DateTaken(exif(name));
        assert taken == DatesOf(exif)(name);
        outcome := FileByDate(name, taken, DatesOf(exif));
      }
    }

    /**
      The rest of the loop body once `get_date_taken` has answered `taken` for
      the candidate `name`: unless there is no date, make the date folder and
      move the file there.
    */
    method FileByDate(name: string, taken: Option<DateTime>, ghost dates: Dates) returns (outcome: Outcome)
      requires IsCandidate(entries, name) && taken == dates(name)
      modifies this
      ensures State(entries, outcome) == Step(old(entries), name, dates)
    {
      outcome := Completed;
      if taken.Some? {
        var folder := FormatDate(taken.value);
        var made := MakeDir(folder);
        if !made {
          outcome := MkdirFailed(name, folder);
          return;
        }
        PatternNotDateShaped(name);
        var moved := Move(name, folder);
        if !moved {
          outcome := MoveFailed(name, folder);
        }
      }
    }

    /**
      `organize_dng_files(source_dir)`: `listing` is the directory's
      enumeration at the start, in whatever order the system gives it, and
      `exif` the tool's answer for each file. A returned failure stands for
      the exception that ends the Python function; the entries are left as
      they were at that point.
    */
    method OrganizeDngFiles(listing: seq<string>, exif: Exif) returns (outcome: Outcome)
      requires IsListing(listing, entries)
      modifies this
      ensures State(entries, outcome) == Run(old(entries), listing, DatesOf(exif))
    {
      ghost var initial := entries;
      var i := 0;
      while i < |listing|
        invariant 0 <= i <= |listing|
        invariant Run(initial, listing[..i], DatesOf(exif)) == State(entries, Completed)
      {
        RunExtend(initial, listing, DatesOf(exif), i);
        outcome := ProcessEntry(listing[i], exif);
        if outcome != Completed {
          RunStopped(initial, listing, DatesOf(exif), i + 1);
          return;
        }
        i := i + 1;
      }
      assert listing[..i] == listing;
      outcome := Completed;
    }
  }
}
