/**
  `organize_dng_files` as a function of the directory's initial contents,
  the order in which the directory lists its entries, and what
  `get_date_taken` returns for each file: the loop over the `*.DNG` listing,
  one `Step` per listed name, stopping at the first uncaught exception.
*/
module Organizer {

  import opened Wrappers
  import opened Chars
  import opened DateTimes
  import opened FileTree

  /**
    What `get_date_taken` returns for the file of each name in the source
    directory: nothing, or a date-time `datetime` accepts.
  */
  type Dates = f: string -> Option<DateTime> | forall n :: f(n).Some? ==> Valid(f(n).value)
    witness (n: string) => None

  /** `glob("*.DNG")`: any name, a leading dot included, ending in the upper-case extension. */
  predicate MatchesPattern(name: string) {
    |name| >= 4 && name[|name| - 4..] == ".DNG"
  }

  /** Listed by the glob and a regular file (`is_file()`). */
  predicate IsCandidate(root: map<string, Entry>, name: string) {
    MatchesPattern(name) && name in root && root[name].File?
  }

  /** The glob is case-sensitive and includes hidden names; only regular files are candidates. */
  lemma CandidateInstances()
    ensures MatchesPattern("IMG_0001.DNG") && MatchesPattern(".DNG")
    ensures !MatchesPattern("IMG_0001.dng") && !MatchesPattern("IMG_0001.DNG.xmp") && !MatchesPattern("DNG")
    ensures IsCandidate(map["A.DNG" := File([])], "A.DNG")
    ensures !IsCandidate(map["A.DNG" := Dir(map[])], "A.DNG") && !IsCandidate(map[], "A.DNG")
  {
  }

  /** How the run ends: normally, or with the exception `mkdir` or `shutil.move` raised for `file`. */
  datatype Outcome = Completed | MkdirFailed(file: string, folder: string) | MoveFailed(file: string, folder: string)

  datatype State = State(root: map<string, Entry>, outcome: Outcome)

  lemma PatternNotDateShaped(name: string)
    requires MatchesPattern(name)
    ensures !IsDateShaped(name)
  {
    assert name[|name| - 1] == ".DNG"[3];
  }

  /**
    One iteration of the loop for `name`: skip it unless it is a candidate
    with a capture time; otherwise make sure its date folder exists and move
    it there.
  */
  function Step(root: map<string, Entry>, name: string, dates: Dates): (r: State)
    ensures r.outcome == Completed && r.root != root ==>
              IsCandidate(root, name) && dates(name).Some?
    ensures r.outcome.MkdirFailed? ==>
              && r.root == root && r.outcome.file == name && IsCandidate(root, name)
              && dates(name).Some? && r.outcome.folder == FormatDate(dates(name).value)
              && r.outcome.folder in root && root[r.outcome.folder].File?
    ensures r.outcome.MoveFailed? ==>
              && r.outcome.file == name && IsCandidate(root, name) && dates(name).Some?
              && r.outcome.folder == FormatDate(dates(name).value)
              && r.root == root && IsDirIn(root, r.outcome.folder)
  {
    if !IsCandidate(root, name) then State(root, Completed)
    else match dates(name)
      case None => State(root, Completed)
      case Some(taken) =>
        var folder := FormatDate(taken);
        match MakeDir(root, folder)
        case None => State(root, MkdirFailed(name, folder))
        case Some(withFolder) =>
          PatternNotDateShaped(name);
          match MoveInto(withFolder, name, folder)
          case None =>
            assert folder !in root ==> Lookup(withFolder, [folder, name]) == None;
            State(root, MoveFailed(name, folder))
          case Some(moved) => State(moved, Completed)
  }

  /** The loop over `names`, in order, from `root`; it stops at the first failed step. */
  function Run(root: map<string, Entry>, names: seq<string>, dates: Dates): (r: State)
    ensures r.outcome != Completed ==> r.outcome.file in names
    decreases |names|
  {
    if names == [] then State(root, Completed)
    else
      var before := Run(root, names[..|names| - 1], dates);
      if before.outcome != Completed then before
      else Step(before.root, names[|names| - 1], dates)
  }

  /** `name` is listed, is a candidate when the run starts, and `get_date_taken` gives it a date. */
  predicate Moves(root: map<string, Entry>, names: seq<string>, dates: Dates, name: string) {
    name in names && IsCandidate(root, name) && dates(name).Some?
  }

  lemma RunStopped(root: map<string, Entry>, names: seq<string>, dates: Dates, k: nat)
    requires k <= |names| && Run(root, names[..k], dates).outcome != Completed
    ensures Run(root, names, dates) == Run(root, names[..k], dates)
    decreases |names| - k
  {
    if k < |names| {
      var p := names[..|names| - 1];
      assert p[..k] == names[..k];
      RunStopped(root, p, dates, k);
    } else {
      assert names[..k] == names;
    }
  }

  /** One more listed name is one more step, as long as the run has not stopped. */
  lemma RunExtend(root: map<string, Entry>, names: seq<string>, dates: Dates, i: nat)
    requires i < |names| && Run(root, names[..i], dates).outcome == Completed
    ensures Run(root, names[..i + 1], dates) == Step(Run(root, names[..i], dates).root, names[i], dates)
  {
    assert names[..i + 1][..i] == names[..i];
  }

  /** The parts of a step that changed the directory: the folder was made or found, and the move succeeded. */
  lemma MovingStep(root: map<string, Entry>, m: string, dates: Dates)
    returns (folder: string, withFolder: map<string, Entry>, moved: map<string, Entry>)
    requires Step(root, m, dates).root != root
    ensures IsCandidate(root, m) && dates(m).Some? && folder == FormatDate(dates(m).value)
    ensures MakeDir(root, folder) == Some(withFolder) && m in withFolder && withFolder[m] == root[m]
    ensures m != folder && IsDirIn(withFolder, folder)
    ensures MoveInto(withFolder, m, folder) == Some(moved) && Step(root, m, dates) == State(moved, Completed)
  {
    folder := FormatDate(dates(m).value);
    withFolder := MakeDir(root, folder).value;
    PatternNotDateShaped(m);
    moved := MoveInto(withFolder, m, folder).value;
  }

  /** Moving `m` into `folder` leaves `f/n` alone unless it is `folder/m` itself. */
  lemma MoveFrameAt(root: map<string, Entry>, m: string, folder: string, withFolder: map<string, Entry>,
                    moved: map<string, Entry>, n: string, f: string)
    requires MakeDir(root, folder) == Some(withFolder) && m in withFolder && withFolder[m].File?
    requires m != folder && IsDirIn(withFolder, folder) && (m != n || f != folder)
    requires MoveInto(withFolder, m, folder) == Some(moved)
    ensures Lookup(moved, [f, n]) == Lookup(root, [f, n])
  {
    if f == folder {
      assert Lookup(moved, [f, n]) == Lookup(withFolder, [f, n]);
    } else if f != m {
      assert (f in moved <==> f in withFolder) && (f in withFolder <==> f in root);
    }
  }

  /**
    A step for another name changes nothing that folders hold under this
    name, and leaves this name's top-level entry alone unless it is the date
    folder the step moved its file into.
  */
  lemma StepFrame(root: map<string, Entry>, m: string, dates: Dates, n: string)
    requires m != n || !(IsCandidate(root, m) && dates(m).Some?)
    ensures var root' := Step(root, m, dates).root;
      && (forall f :: Lookup(root', [f, n]) == Lookup(root, [f, n]))
      && ((root' != root ==> n != FormatDate(dates(m).value)) ==>
            (n in root' <==> n in root) && (n in root ==> root'[n] == root[n]))
  {
    if Step(root, m, dates).root != root {
      var folder, withFolder, moved := MovingStep(root, m, dates);
      forall f ensures Lookup(moved, [f, n]) == Lookup(root, [f, n]) {
        MoveFrameAt(root, m, folder, withFolder, moved, n, f);
      }
    }
  }

  /**
    A run never puts a `*.DNG` entry at the top level: one that is there at
    the end was there at the start, unchanged.
  */
  lemma {:induction false} PatternKept(root: map<string, Entry>, names: seq<string>, dates: Dates, n: string)
    requires MatchesPattern(n)
    ensures var final := Run(root, names, dates).root;
      n in final ==> n in root && final[n] == root[n]
    decreases |names|
  {
    if names != [] {
      var p := names[..|names| - 1];
      PatternKept(root, p, dates, n);
      var before := Run(root, p, dates);
      if before.outcome == Completed {
        StepPatternKept(before.root, names[|names| - 1], dates, n);
      }
    }
  }

  /** One step for `PatternKept`: it only adds a date folder and removes the moved file. */
  lemma StepPatternKept(root: map<string, Entry>, m: string, dates: Dates, n: string)
    requires MatchesPattern(n)
    ensures var root' := Step(root, m, dates).root;
      n in root' ==> n in root && root'[n] == root[n]
  {
    if Step(root, m, dates).root != root {
      var folder, withFolder, moved := MovingStep(root, m, dates);
      PatternNotDateShaped(n);
    }
  }

  /**
    Whatever the outcome, a name that does not move keeps what folders hold
    under that name, and, unless it is the date folder of a file that moves,
    keeps its own top-level entry (or its absence). This covers every entry
    that is not a `*.DNG` regular file, every candidate without a capture
    time, every folder no moved file is dated for, and everything inside
    subdirectories.
  */
  lemma {:induction false} RunFrame(root: map<string, Entry>, names: seq<string>, dates: Dates, n: string)
    requires !Moves(root, names, dates, n)
    ensures var final := Run(root, names, dates).root;
      && (forall f :: Lookup(final, [f, n]) == Lookup(root, [f, n]))
      && ((forall m :: Moves(root, names, dates, m) ==> FormatDate(dates(m).value) != n) ==>
            (n in final <==> n in root) && (n in root ==> final[n] == root[n]))
    decreases |names|
  {
    if names != [] {
      var p, m := names[..|names| - 1], names[|names| - 1];
      assert names == p + [m];
      assert !Moves(root, p, dates, n);
      RunFrame(root, p, dates, n);
      var before := Run(root, p, dates);
      if before.outcome == Completed {
        if IsCandidate(before.root, m) {
          PatternKept(root, p, dates, m);
          assert IsCandidate(root, m);
        }
        StepFrame(before.root, m, dates, n);
      }
    }
  }

  /**
    Whatever the outcome, no folder other than a name's own date folder gains,
    loses or changes an entry of that name: the run puts each file in its
    date folder and nowhere else.
  */
  lemma {:induction false} RunOtherFolders(root: map<string, Entry>, names: seq<string>, dates: Dates,
                                           n: string, f: string)
    requires dates(n).Some? ==> f != FormatDate(dates(n).value)
    ensures Lookup(Run(root, names, dates).root, [f, n]) == Lookup(root, [f, n])
    decreases |names|
  {
    if names != [] {
      var p, m := names[..|names| - 1], names[|names| - 1];
      RunOtherFolders(root, p, dates, n, f);
      var before := Run(root, p, dates);
      if before.outcome == Completed && Step(before.root, m, dates).root != before.root {
        var folder, withFolder, moved := MovingStep(before.root, m, dates);
        MoveFrameAt(before.root, m, folder, withFolder, moved, n, f);
      }
    }
  }

  /** A candidate with a capture time whose step completes has moved to its date folder. */
  lemma StepMoves(root: map<string, Entry>, n: string, dates: Dates)
    requires IsCandidate(root, n) && dates(n).Some? && Step(root, n, dates).outcome == Completed
    ensures var root' := Step(root, n, dates).root; var f := FormatDate(dates(n).value);
      n !in root' && Lookup(root', Destination(f, n, Lookup(root, [f, n]))) == Some(root[n])
  {
    var f := FormatDate(dates(n).value);
    PatternNotDateShaped(n);
    var withFolder := MakeDir(root, f).value;
    assert Lookup(withFolder, [f, n]) == Lookup(root, [f, n]);
  }

  /** A completed run completed all but its last step, and then that step. */
  lemma RunCompletedLast(root: map<string, Entry>, names: seq<string>, dates: Dates)
    requires names != [] && Run(root, names, dates).outcome == Completed
    ensures var before := Run(root, names[..|names| - 1], dates);
      && before.outcome == Completed
      && Run(root, names, dates) == Step(before.root, names[|names| - 1], dates)
  {
  }

  /** A step for another name leaves a moved file where it landed. */
  lemma StepKeepsLanding(root: map<string, Entry>, m: string, dates: Dates, n: string, f: string, before: Option<Entry>, e: Entry)
    requires MatchesPattern(n) && n !in root && Lookup(root, Destination(f, n, before)) == Some(e)
    ensures var root' := Step(root, m, dates).root;
      n !in root' && Lookup(root', Destination(f, n, before)) == Some(e)
  {
    var root' := Step(root, m, dates).root;
    PatternNotDateShaped(n);
    StepFrame(root, m, dates, n);
    if Destination(f, n, before) == [f, n, n] {
      LookupThree(root, f, n, n);
      LookupThree(root', f, n, n);
    }
  }

  /**
    `n`, a file of `root` with a capture time, has left the top level of
    `final` and sits, with its content, at `<YYYY-MM-DD>/<its own name>` (or
    one level further down when a directory of its own name was already in
    that folder).
  */
  predicate Landed(root: map<string, Entry>, final: map<string, Entry>, dates: Dates, n: string) {
    && n in root && dates(n).Some?
    && var f := FormatDate(dates(n).value);
      n !in final && Lookup(final, Destination(f, n, Lookup(root, [f, n]))) == Some(root[n])
  }

  /** The last listed name, a dated candidate not listed before, lands in its folder. */
  lemma LandsAtLast(root: map<string, Entry>, names: seq<string>, dates: Dates)
    requires names != [] && Run(root, names, dates).outcome == Completed
    requires var n := names[|names| - 1]; Moves(root, names, dates, n) && n !in names[..|names| - 1]
    ensures Landed(root, Run(root, names, dates).root, dates, names[|names| - 1])
  {
    var p, n := names[..|names| - 1], names[|names| - 1];
    RunCompletedLast(root, names, dates);
    RunFrame(root, p, dates, n);
    PatternNotDateShaped(n);
    StepMoves(Run(root, p, dates).root, n, dates);
  }

  /** A file that had landed before the last step is still there after it. */
  lemma LandsStays(root: map<string, Entry>, names: seq<string>, dates: Dates, n: string)
    requires names != [] && Run(root, names, dates).outcome == Completed && MatchesPattern(n)
    requires Landed(root, Run(root, names[..|names| - 1], dates).root, dates, n)
    ensures Landed(root, Run(root, names, dates).root, dates, n)
  {
    var f := FormatDate(dates(n).value);
    RunCompletedLast(root, names, dates);
    StepKeepsLanding(Run(root, names[..|names| - 1], dates).root, names[|names| - 1], dates, n, f, Lookup(root, [f, n]), root[n]);
  }

  /** A listed name is listed before the last position or is the last name. */
  lemma InitOrLast(names: seq<string>, n: string)
    requires n in names
    ensures n in names[..|names| - 1] || n == names[|names| - 1]
  {
    var i :| 0 <= i < |names| && names[i] == n;
    if i < |names| - 1 {
      assert names[..|names| - 1][i] == n;
    }
  }

  /** In a run that completes, every listed candidate with a capture time has landed in its date folder. */
  lemma {:induction false} RunLands(root: map<string, Entry>, names: seq<string>, dates: Dates, n: string)
    requires Run(root, names, dates).outcome == Completed && Moves(root, names, dates, n)
    ensures Landed(root, Run(root, names, dates).root, dates, n)
    decreases |names|
  {
    var p := names[..|names| - 1];
    InitOrLast(names, n);
    RunCompletedLast(root, names, dates);
    if n in p {
      RunLands(root, p, dates, n);
      LandsStays(root, names, dates, n);
    } else {
      LandsAtLast(root, names, dates);
    }
  }

  /** The position in `names` of the file whose exception ended a run that did not complete. */
  function AbortIndex(root: map<string, Entry>, names: seq<string>, dates: Dates): (i: nat)
    requires Run(root, names, dates).outcome != Completed
    ensures i < |names|
    decreases |names|
  {
    var p := names[..|names| - 1];
    if Run(root, p, dates).outcome != Completed then AbortIndex(root, p, dates) else |names| - 1
  }

  /**
    The run stopped at `AbortIndex`: the names before it completed, leaving
    the directory the run ends with, and the run ends with that name's step.
  */
  lemma {:induction false} AbortIndexSpec(root: map<string, Entry>, names: seq<string>, dates: Dates)
    requires Run(root, names, dates).outcome != Completed
    ensures var i := AbortIndex(root, names, dates); var r := Run(root, names, dates);
      && names[i] == r.outcome.file
      && Run(root, names[..i], dates) == State(r.root, Completed)
      && Run(root, names[..i + 1], dates) == r
    decreases |names|
  {
    var p := names[..|names| - 1];
    if Run(root, p, dates).outcome != Completed {
      AbortIndexSpec(root, p, dates);
      AbortEarlier(root, names, dates, AbortIndex(root, p, dates));
    } else {
      AbortLast(root, names, dates);
    }
  }

  /** A run that had already stopped before its last name ended where it stopped. */
  lemma AbortEarlier(root: map<string, Entry>, names: seq<string>, dates: Dates, i: nat)
    requires names != [] && i < |names| - 1
    requires Run(root, names[..|names| - 1], dates).outcome != Completed
    ensures Run(root, names, dates) == Run(root, names[..|names| - 1], dates)
    ensures names[..|names| - 1][..i] == names[..i] && names[..|names| - 1][..i + 1] == names[..i + 1]
  {
  }

  /** A run whose last step alone failed ended at that step, which left the directory as it found it. */
  lemma AbortLast(root: map<string, Entry>, names: seq<string>, dates: Dates)
    requires names != [] && Run(root, names[..|names| - 1], dates).outcome == Completed
    requires Run(root, names, dates).outcome != Completed
    ensures names[|names| - 1] == Run(root, names, dates).outcome.file
    ensures Run(root, names[..|names| - 1], dates) == State(Run(root, names, dates).root, Completed)
    ensures names[..|names|] == names
  {
  }

  /**
    A run ended by an exception: the failing iteration changed nothing, so
    the file it was for is still in place; the files listed before it that
    had a capture time have moved; every name not reached is untouched. A
    failed `mkdir` means a file holds the date folder's name; a failed move
    means that folder holds a directory named like the file that already has
    an entry of that name.
  */
  lemma RunAborted(root: map<string, Entry>, names: seq<string>, dates: Dates, n: string)
    requires Run(root, names, dates).outcome != Completed
    ensures var r := Run(root, names, dates); var i := AbortIndex(root, names, dates);
      && (r.outcome.MkdirFailed? ==> r.outcome.folder in r.root && r.root[r.outcome.folder].File?)
      && (r.outcome.MoveFailed? ==> Lookup(r.root, [r.outcome.folder, r.outcome.file, r.outcome.file]).Some?)
      && IsCandidate(r.root, r.outcome.file) && dates(r.outcome.file).Some?
      && r.outcome.folder == FormatDate(dates(r.outcome.file).value)
      && (Moves(root, names[..i], dates, n) ==> Landed(root, r.root, dates, n))
      && (n !in names[..i] ==>
            && (forall f :: Lookup(r.root, [f, n]) == Lookup(root, [f, n]))
            && ((forall m :: Moves(root, names[..i], dates, m) ==> FormatDate(dates(m).value) != n) ==>
                  (n in r.root <==> n in root) && (n in root ==> r.root[n] == root[n])))
  {
    var r := Run(root, names, dates);
    var i := AbortIndex(root, names, dates);
    AbortIndexSpec(root, names, dates);
    RunExtend(root, names, dates, i);
    if r.outcome.MoveFailed? {
      var f, m := r.outcome.folder, r.outcome.file;
      LookupThree(r.root, f, m, m);
    }
    if Moves(root, names[..i], dates, n) {
      RunLands(root, names[..i], dates, n);
    }
    if n !in names[..i] {
      RunFrame(root, names[..i], dates, n);
    }
  }

  /**
    In a run that completes, a listed candidate has left the top level
    exactly when `get_date_taken` gave it a date; otherwise it is still
    there, unchanged.
  */
  lemma RunMovedIffDated(root: map<string, Entry>, names: seq<string>, dates: Dates, n: string)
    requires Run(root, names, dates).outcome == Completed && n in names && IsCandidate(root, n)
    ensures var final := Run(root, names, dates).root;
      && (n in final <==> dates(n).None?)
      && (dates(n).None? ==> final[n] == root[n])
  {
    if dates(n).Some? {
      RunLands(root, names, dates, n);
    } else {
      PatternNotDateShaped(n);
      RunFrame(root, names, dates, n);
    }
  }

  /** Two moved files taken on the same day end up in one folder, whatever the time of day. */
  lemma RunSameDayShareFolder(root: map<string, Entry>, names: seq<string>, dates: Dates, a: string, b: string)
    requires Run(root, names, dates).outcome == Completed
    requires Moves(root, names, dates, a) && Moves(root, names, dates, b)
    requires SameDay(dates(a).value, dates(b).value)
    ensures var final := Run(root, names, dates).root; var f := FormatDate(dates(a).value);
      && Lookup(final, Destination(f, a, Lookup(root, [f, a]))) == Some(root[a])
      && Lookup(final, Destination(f, b, Lookup(root, [f, b]))) == Some(root[b])
  {
    FormatDateSameDay(dates(a).value, dates(b).value);
    RunLands(root, names, dates, a);
    RunLands(root, names, dates, b);
  }

  /**
    With the same answers from `get_date_taken`, running again over any listing of
    what a completed run left changes nothing: every candidate still at the
    top level is one `get_date_taken` gave no date.
  */
  lemma {:induction false} RunIdempotent(root: map<string, Entry>, names: seq<string>, dates: Dates, again: seq<string>)
    requires Run(root, names, dates).outcome == Completed
    requires forall n :: n in root ==> n in names
    ensures var final := Run(root, names, dates).root;
      Run(final, again, dates) == State(final, Completed)
    decreases |again|
  {
    var final := Run(root, names, dates).root;
    if again != [] {
      var p, m := again[..|again| - 1], again[|again| - 1];
      RunIdempotent(root, names, dates, p);
      if IsCandidate(final, m) && dates(m).Some? {
        PatternNotDateShaped(m);
        if Moves(root, names, dates, m) {
          RunLands(root, names, dates, m);
        } else {
          RunFrame(root, names, dates, m);
        }
        assert false;
      }
    }
  }
}
