/**
 Any number of launches of the carry-over, each of which may die or throw between two file
 system calls. Between launches the old application may change its own directory, nothing
 else changes.
 */
module MigrationRuns {
  import opened Wrappers
  import opened GitPointers
  import opened IdentityMigration
  import P = GitPointerFiles

  datatype Launch = Launch(before: Files, after: Files, finished: bool, report: Report)

  ghost predicate LaunchOk(l: Launch, newRoot: string, dirs: seq<string>) {
    && Launched(l.before, l.after, newRoot, dirs, l.finished, l.report)
    && (l.finished ==> Marker in l.after)
  }

  ghost predicate Run(ls: seq<Launch>, newRoot: string, dirs: seq<string>) {
    && (forall i {:trigger LaunchOk(ls[i], newRoot, dirs)} | 0 <= i < |ls| :: LaunchOk(ls[i], newRoot, dirs))
    && (forall i {:trigger UserDataKept(ls[i - 1].after, ls[i].before)} | 0 < i < |ls| ::
          UserDataKept(ls[i - 1].after, ls[i].before))
  }

  predicate HasDatabase(f: Files) {
    Db(UserData, Main) in f
  }

  /** A launch never changes a legacy directory. */
  lemma LaunchKeepsLegacy(l: Launch, newRoot: string, dirs: seq<string>)
    requires LaunchOk(l, newRoot, dirs)
    ensures LegacyKept(l.before, l.after)
  {
    var f, g := l.before, l.after;
    if !HasDatabase(f) && Db(InPlace, Main) in f {
      var h :| RenameLaunch(f, h, g, l.finished);
    } else if !HasDatabase(f) && Marker !in f && Source(f, newRoot, dirs).Some? {
      var h :| CopyLaunch(f, h, g, Source(f, newRoot, dirs).value, newRoot, l.finished, l.report.failed);
    }
  }

  /** With the marker and the database in place a launch changes nothing at all. */
  lemma CompletedLaunchIsQuiet(l: Launch, newRoot: string, dirs: seq<string>)
    requires LaunchOk(l, newRoot, dirs) && Marker in l.before && HasDatabase(l.before)
    ensures l.after == l.before
  {
  }

  /** Once the new database exists, no later launch or change of the old directory touches it. */
  lemma {:induction false} DatabaseStays(
      ls: seq<Launch>, newRoot: string, dirs: seq<string>, k: nat, n: nat, suffix: Suffix)
    requires Run(ls, newRoot, dirs) && k <= n < |ls| && HasDatabase(ls[k].after)
    ensures HasDatabase(ls[n].after)
    ensures At(ls[n].after, Db(UserData, suffix)) == At(ls[k].after, Db(UserData, suffix))
    decreases n - k
  {
    if k < n {
      DatabaseStays(ls, newRoot, dirs, k, n - 1, suffix);
      assert UserDataKept(ls[n - 1].after, ls[n].before) && LaunchOk(ls[n], newRoot, dirs);
      assert At(ls[n - 1].after, Db(UserData, Main)) == At(ls[n].before, Db(UserData, Main));
      assert At(ls[n - 1].after, Db(UserData, suffix)) == At(ls[n].before, Db(UserData, suffix));
      assert At(ls[n].before, Db(UserData, Main)) == At(ls[n].after, Db(UserData, Main));
      assert At(ls[n].before, Db(UserData, suffix)) == At(ls[n].after, Db(UserData, suffix));
    }
  }

  /** A launch leaves an entry as it is, or puts the rewritten copy of the source's entry in place. */
  lemma EntryOutcome(l: Launch, newRoot: string, dirs: seq<string>, name: string)
    requires LaunchOk(l, newRoot, dirs)
    ensures At(l.after, Entry(UserData, name)) == At(l.before, Entry(UserData, name))
            || (&& Source(l.before, newRoot, dirs).Some?
                && EntryFresh(l.before, l.after, Source(l.before, newRoot, dirs).value, newRoot, name))
  {
    var f, g := l.before, l.after;
    if !HasDatabase(f) && Db(InPlace, Main) in f {
      var h :| RenameLaunch(f, h, g, l.finished);
      assert At(f, Entry(UserData, name)) == At(h, Entry(UserData, name)) == At(g, Entry(UserData, name));
    } else if !HasDatabase(f) && Marker !in f && Source(f, newRoot, dirs).Some? {
      var h :| CopyLaunch(f, h, g, Source(f, newRoot, dirs).value, newRoot, l.finished, l.report.failed);
      assert EntryFresh(f, h, Source(f, newRoot, dirs).value, newRoot, name);
      assert At(h, Entry(UserData, name)) == At(g, Entry(UserData, name));
    }
  }

  lemma {:induction false} EntryStays(ls: seq<Launch>, newRoot: string, dirs: seq<string>, k: nat, n: nat, name: string)
    requires Run(ls, newRoot, dirs) && k <= n < |ls| && Entry(UserData, name) in ls[k].after
    ensures At(ls[n].after, Entry(UserData, name)) == At(ls[k].after, Entry(UserData, name))
    decreases n - k
  {
    if k < n {
      EntryStays(ls, newRoot, dirs, k, n - 1, name);
      assert UserDataKept(ls[n - 1].after, ls[n].before) && LaunchOk(ls[n], newRoot, dirs);
      assert At(ls[n - 1].after, Entry(UserData, name)) == At(ls[n].before, Entry(UserData, name));
      EntryOutcome(ls[n], newRoot, dirs, name);
    }
  }

  // ---------------------------------------------------------------- the copy

  /** The launch that makes the new database appear, when no in-place legacy database is found. */
  ghost predicate CopiesAt(l: Launch, newRoot: string, dirs: seq<string>) {
    && !HasDatabase(l.before) && HasDatabase(l.after)
    && Source(l.before, newRoot, dirs).Some?
    && DatabaseCopied(l.before, l.after, Source(l.before, newRoot, dirs).value)
    && EntriesInPlace(l.before, l.after, Source(l.before, newRoot, dirs).value, l.report.failed)
  }

  lemma PlacingLaunchCopies(l: Launch, newRoot: string, dirs: seq<string>)
    requires LaunchOk(l, newRoot, dirs) && !HasDatabase(l.before) && Db(InPlace, Main) !in l.before
    ensures HasDatabase(l.after) ==> CopiesAt(l, newRoot, dirs)
    ensures Db(InPlace, Main) !in l.after
  {
    var f, g := l.before, l.after;
    if Marker !in f && Source(f, newRoot, dirs).Some? {
      var source := Source(f, newRoot, dirs).value;
      var h :| CopyLaunch(f, h, g, source, newRoot, l.finished, l.report.failed);
      assert At(h, Db(UserData, Main)) == At(g, Db(UserData, Main));
      assert At(f, Db(InPlace, Main)) == At(h, Db(InPlace, Main)) == At(g, Db(InPlace, Main));
      forall suffix ensures At(h, Db(UserData, suffix)) == At(g, Db(UserData, suffix)) {
      }
      forall name | Entry(UserData, name) in h ensures Entry(UserData, name) in g {
        assert At(h, Entry(UserData, name)) == At(g, Entry(UserData, name));
      }
    } else {
      assert At(f, Db(UserData, Main)) == At(g, Db(UserData, Main));
      assert At(f, Db(InPlace, Main)) == At(g, Db(InPlace, Main));
    }
  }

  /**
   After any crashes: if the new database exists, then some launch `k` found no database and
   placed it, and from then on the database and both sidecars are exactly the source's files
   of that launch. Every entry of that source is in place too, unless copying it failed.
   */
  lemma {:induction false} CopiedDatabaseIsTheSource(ls: seq<Launch>, newRoot: string, dirs: seq<string>, n: nat)
    returns (k: nat)
    requires Run(ls, newRoot, dirs) && n < |ls|
    requires !HasDatabase(ls[0].before) && Db(InPlace, Main) !in ls[0].before
    ensures Db(InPlace, Main) !in ls[n].after
    ensures HasDatabase(ls[n].after) ==>
              && k <= n && CopiesAt(ls[k], newRoot, dirs)
              && var source := Source(ls[k].before, newRoot, dirs).value;
              && DatabaseCopied(ls[k].before, ls[n].after, source)
              && EntriesInPlace(ls[k].before, ls[n].after, source, ls[k].report.failed)
  {
    assert LaunchOk(ls[n], newRoot, dirs);
    k := n;
    if n == 0 {
      PlacingLaunchCopies(ls[0], newRoot, dirs);
    } else {
      k := CopiedDatabaseIsTheSource(ls, newRoot, dirs, n - 1);
      assert UserDataKept(ls[n - 1].after, ls[n].before);
      assert At(ls[n - 1].after, Db(UserData, Main)) == At(ls[n].before, Db(UserData, Main));
      assert At(ls[n - 1].after, Db(InPlace, Main)) == At(ls[n].before, Db(InPlace, Main));
      if HasDatabase(ls[n].before) {
        KeptSinceCopy(ls, newRoot, dirs, k, n);
        assert At(ls[n].before, Db(InPlace, Main)) == At(ls[n].after, Db(InPlace, Main));
      } else {
        k := n;
        PlacingLaunchCopies(ls[n], newRoot, dirs);
      }
    }
  }

  lemma KeptSinceCopy(ls: seq<Launch>, newRoot: string, dirs: seq<string>, k: nat, n: nat)
    requires Run(ls, newRoot, dirs) && k < n < |ls| && CopiesAt(ls[k], newRoot, dirs)
    ensures var source := Source(ls[k].before, newRoot, dirs).value;
            && DatabaseCopied(ls[k].before, ls[n].after, source)
            && EntriesInPlace(ls[k].before, ls[n].after, source, ls[k].report.failed)
  {
    forall suffix ensures At(ls[n].after, Db(UserData, suffix)) == At(ls[k].after, Db(UserData, suffix)) {
      DatabaseStays(ls, newRoot, dirs, k, n, suffix);
    }
    forall name | Entry(UserData, name) in ls[k].after ensures Entry(UserData, name) in ls[n].after {
      EntryStays(ls, newRoot, dirs, k, n, name);
    }
  }

  /** A launch marks the carry-over as done only over a database, unless there was nothing to carry over. */
  lemma MarkerNeedsDatabase(l: Launch, newRoot: string, dirs: seq<string>)
    requires LaunchOk(l, newRoot, dirs) && Marker !in l.before && Marker in l.after
    ensures HasDatabase(l.after) || Source(l.before, newRoot, dirs).None?
  {
    var f, g := l.before, l.after;
    if HasDatabase(f) {
      assert At(f, Db(UserData, Main)) == At(g, Db(UserData, Main));
    } else if Db(InPlace, Main) in f {
      var h :| RenameLaunch(f, h, g, l.finished);
      assert At(f, Marker) == At(h, Marker);
      assert At(h, Db(UserData, Main)) == At(g, Db(UserData, Main));
    } else if Source(f, newRoot, dirs).Some? {
      var source := Source(f, newRoot, dirs).value;
      var h :| CopyLaunch(f, h, g, source, newRoot, l.finished, l.report.failed);
      assert At(f, Marker) == At(h, Marker);
      assert At(h, Db(UserData, Main)) == At(g, Db(UserData, Main));
    }
  }

  /**
   A launch that finishes leaves a database exactly when it found one, under either name, or
   found a source that was not yet marked as carried over.
   */
  lemma FinishedLaunchHasDatabase(l: Launch, newRoot: string, dirs: seq<string>)
    requires LaunchOk(l, newRoot, dirs) && l.finished
    ensures HasDatabase(l.after) <==>
            || HasDatabase(l.before) || Db(InPlace, Main) in l.before
            || (Marker !in l.before && Source(l.before, newRoot, dirs).Some?)
  {
    var f, g := l.before, l.after;
    if HasDatabase(f) {
      assert At(f, Db(UserData, Main)) == At(g, Db(UserData, Main));
    } else if Db(InPlace, Main) in f {
      LaunchRenames(l, newRoot, dirs);
    } else if Marker !in f && Source(f, newRoot, dirs).Some? {
      var h :| CopyLaunch(f, h, g, Source(f, newRoot, dirs).value, newRoot, l.finished, l.report.failed);
      assert At(h, Db(UserData, Main)) == At(g, Db(UserData, Main));
    } else {
      assert At(f, Db(UserData, Main)) == At(g, Db(UserData, Main));
    }
  }

  /**
   The promise of the carry-over: started without a database and without a marker, with a
   source at every launch, any number of interrupted launches and one that finishes leave a
   database whose three files are the source's.
   */
  lemma {:induction false} FinishedCarryOver(ls: seq<Launch>, newRoot: string, dirs: seq<string>, n: nat)
    returns (k: nat)
    requires Run(ls, newRoot, dirs) && n < |ls| && ls[n].finished
    requires !HasDatabase(ls[0].before) && Db(InPlace, Main) !in ls[0].before && Marker !in ls[0].before
    requires forall i | 0 <= i <= n :: Source(ls[i].before, newRoot, dirs).Some?
    ensures k <= n && HasDatabase(ls[n].after)
    ensures DatabaseCopied(ls[k].before, ls[n].after, Source(ls[k].before, newRoot, dirs).value)
    ensures EntriesInPlace(ls[k].before, ls[n].after, Source(ls[k].before, newRoot, dirs).value, ls[k].report.failed)
  {
    assert LaunchOk(ls[n], newRoot, dirs);
    MarkedMeansDatabase(ls, newRoot, dirs, n);
    k := CopiedDatabaseIsTheSource(ls, newRoot, dirs, n);
  }

  lemma {:induction false} MarkedMeansDatabase(ls: seq<Launch>, newRoot: string, dirs: seq<string>, n: nat)
    requires Run(ls, newRoot, dirs) && n < |ls| && Marker !in ls[0].before
    requires forall i | 0 <= i <= n :: Source(ls[i].before, newRoot, dirs).Some?
    ensures Marker in ls[n].after ==> HasDatabase(ls[n].after)
  {
    assert LaunchOk(ls[n], newRoot, dirs);
    if n > 0 {
      MarkedMeansDatabase(ls, newRoot, dirs, n - 1);
      assert UserDataKept(ls[n - 1].after, ls[n].before);
      assert At(ls[n - 1].after, Marker) == At(ls[n].before, Marker);
      if HasDatabase(ls[n - 1].after) {
        DatabaseStays(ls, newRoot, dirs, n - 1, n, Main);
      }
    }
    if Marker in ls[n].after && Marker !in ls[n].before {
      MarkerNeedsDatabase(ls[n], newRoot, dirs);
    }
  }

  /** Every entry the carry-over put in place is the complete rewritten copy of a legacy entry. */
  lemma {:induction false} PlacedEntryIsComplete(
      ls: seq<Launch>, newRoot: string, dirs: seq<string>, n: nat, name: string)
    returns (k: nat)
    requires Run(ls, newRoot, dirs) && n < |ls|
    requires Entry(UserData, name) !in ls[0].before && Entry(UserData, name) in ls[n].after
    ensures k <= n && Source(ls[k].before, newRoot, dirs).Some?
    ensures var source := Source(ls[k].before, newRoot, dirs).value;
            && source != "" && Entry(Legacy(source), name) in ls[k].before
            && ls[n].after[Entry(UserData, name)] ==
               Rewritten(ls[k].before[Entry(Legacy(source), name)], name, source, newRoot)
  {
    assert LaunchOk(ls[n], newRoot, dirs);
    if Entry(UserData, name) in ls[n].before {
      assert UserDataKept(ls[n - 1].after, ls[n].before);
      assert At(ls[n - 1].after, Entry(UserData, name)) == At(ls[n].before, Entry(UserData, name));
      k := PlacedEntryIsComplete(ls, newRoot, dirs, n - 1, name);
      EntryOutcome(ls[n], newRoot, dirs, name);
    } else {
      k := n;
      EntryOutcome(ls[n], newRoot, dirs, name);
    }
  }

  /**
   File by file: what was put in place has the same files as the legacy entry it was copied from, and
   each has its content but for the small pointer files within reach, whose old root is replaced.
   */
  lemma PlacedFilesAreTheSource(ls: seq<Launch>, newRoot: string, dirs: seq<string>, n: nat, name: string,
                                path: seq<string>)
    returns (k: nat)
    requires Run(ls, newRoot, dirs) && n < |ls| && path != []
    requires Entry(UserData, name) !in ls[0].before && Entry(UserData, name) in ls[n].after
    ensures k <= n && Source(ls[k].before, newRoot, dirs).Some?
    ensures var source := Source(ls[k].before, newRoot, dirs).value;
            && source != "" && Entry(Legacy(source), name) in ls[k].before
            && var legacy, placed := ls[k].before[Entry(Legacy(source), name)], ls[n].after[Entry(UserData, name)];
            && (Lookup(legacy, path).None? <==> Lookup(placed, path).None?)
            && (Lookup(legacy, path).Some? && Lookup(legacy, path).value.File? ==>
                  var content := Lookup(legacy, path).value.content;
                  Lookup(placed, path) ==
                  Some(File(if P.WithinReach([STAGING_DIR, name], 0, path) && |content| < 4096
                            then ReplaceAll(content, source, newRoot) else content)))
  {
    k := PlacedEntryIsComplete(ls, newRoot, dirs, n, name);
    var source := Source(ls[k].before, newRoot, dirs).value;
    var legacy, dir := ls[k].before[Entry(Legacy(source), name)], [STAGING_DIR, name];
    P.TreeKeepsItsShape(legacy, dir, path, source, newRoot);
    if Lookup(legacy, path).Some? && Lookup(legacy, path).value.File? {
      P.OnlyPointersChange(legacy, dir, path, Lookup(legacy, path).value.content, source, newRoot);
    }
  }

  // ---------------------------------------------------------------- what a launch reports

  /** The source is the first listed directory, other than the new one, with a legacy database. */
  lemma {:induction false} SourceDecides(f: Files, newRoot: string, dirs: seq<string>)
    ensures Source(f, newRoot, dirs).None? <==>
            forall i | 0 <= i < |dirs| :: dirs[i] == newRoot || Db(Legacy(dirs[i]), Main) !in f
    ensures Source(f, newRoot, dirs).Some? ==>
              exists i :: 0 <= i < |dirs| && dirs[i] == Source(f, newRoot, dirs).value
                          && dirs[i] != newRoot && Db(Legacy(dirs[i]), Main) in f
                          && forall j | 0 <= j < i :: dirs[j] == newRoot || Db(Legacy(dirs[j]), Main) !in f
  {
    if dirs != [] && !(dirs[0] != newRoot && Db(Legacy(dirs[0]), Main) in f) {
      SourceDecides(f, newRoot, dirs[1..]);
      if Source(f, newRoot, dirs).Some? {
        var i :| 0 <= i < |dirs[1..]| && dirs[1..][i] == Source(f, newRoot, dirs).value
                 && dirs[1..][i] != newRoot && Db(Legacy(dirs[1..][i]), Main) in f
                 && forall j | 0 <= j < i :: dirs[1..][j] == newRoot || Db(Legacy(dirs[1..][j]), Main) !in f;
        assert dirs[i + 1] == dirs[1..][i];
        forall j | 0 <= j < i + 1
          ensures dirs[j] == newRoot || Db(Legacy(dirs[j]), Main) !in f
        {
          if j > 0 {
            assert dirs[j] == dirs[1..][j - 1];
          }
        }
      } else {
        forall i | 0 <= i < |dirs|
          ensures dirs[i] == newRoot || Db(Legacy(dirs[i]), Main) !in f
        {
          if i > 0 {
            assert dirs[i] == dirs[1..][i - 1];
          }
        }
      }
    }
  }

  /** A finished launch reports what it did: whether a marker was there, else a database, else a source. */
  lemma OutcomeDecides(f: Files, newRoot: string, dirs: seq<string>)
    ensures var outcome := Expected(f, newRoot, dirs);
            var marked := Marker in f;
            var stored := Db(UserData, Main) in f || Db(InPlace, Main) in f;
            var found := exists i :: 0 <= i < |dirs| && dirs[i] != newRoot && Db(Legacy(dirs[i]), Main) in f;
            && (outcome == AlreadyMigrated <==> marked)
            && (outcome == ExistingDatabase <==> !marked && stored)
            && (outcome == FreshInstall <==> !marked && !stored && !found)
            && (outcome == Copied <==> !marked && !stored && found)
  {
    SourceDecides(f, newRoot, dirs);
  }

  /** The entries that are carried over, the largest last. */
  lemma CarriedOver(name: string)
    ensures name in CARRIED_OVER_ENTRIES <==>
            name in {"attachments", "plugins", "voice-models", "voice-tts-models", "voice-runtime",
                     "browser-recordings", "logs", "Local Storage", "repos", "workspaces"}
    ensures |CARRIED_OVER_ENTRIES| == 10
    ensures CARRIED_OVER_ENTRIES[8] == "repos" && CARRIED_OVER_ENTRIES[9] == "workspaces"
  {
  }

  // ---------------------------------------------------------------- the rename

  lemma LaunchRenames(l: Launch, newRoot: string, dirs: seq<string>)
    requires LaunchOk(l, newRoot, dirs) && !HasDatabase(l.before) && Db(InPlace, Main) in l.before
    ensures if HasDatabase(l.after) then Renamed(l.before, l.after) else RenamePending(l.before, l.after)
    ensures l.finished ==> HasDatabase(l.after)
  {
    var f, g := l.before, l.after;
    var h :| RenameLaunch(f, h, g, l.finished);
    forall suffix
      ensures At(h, Db(UserData, suffix)) == At(g, Db(UserData, suffix))
      ensures At(h, Db(InPlace, suffix)) == At(g, Db(InPlace, suffix))
    {
    }
  }

  /**
   An in-place legacy database survives any interrupted renames: once the new name exists it
   is the three files the first launch found, where a sidecar that had already been moved
   counts as found.
   */
  lemma {:induction false} RenamedDatabaseIsTheInPlaceOne(ls: seq<Launch>, newRoot: string, dirs: seq<string>, n: nat)
    requires Run(ls, newRoot, dirs) && n < |ls|
    requires !HasDatabase(ls[0].before) && Db(InPlace, Main) in ls[0].before
    ensures HasDatabase(ls[n].after) ==>
              forall suffix :: At(ls[n].after, Db(UserData, suffix)) == Logical(ls[0].before, suffix)
    ensures !HasDatabase(ls[n].after) ==> RenamePending(ls[0].before, ls[n].after)
    ensures ls[n].finished ==> HasDatabase(ls[n].after)
  {
    assert LaunchOk(ls[n], newRoot, dirs);
    if n == 0 {
      LaunchRenames(ls[0], newRoot, dirs);
    } else {
      RenamedDatabaseIsTheInPlaceOne(ls, newRoot, dirs, n - 1);
      assert UserDataKept(ls[n - 1].after, ls[n].before);
      assert At(ls[n - 1].after, Db(UserData, Main)) == At(ls[n].before, Db(UserData, Main));
      assert At(ls[n - 1].after, Db(InPlace, Main)) == At(ls[n].before, Db(InPlace, Main));
      forall suffix ensures Logical(ls[n - 1].after, suffix) == Logical(ls[n].before, suffix) {
        assert At(ls[n - 1].after, Db(UserData, suffix)) == At(ls[n].before, Db(UserData, suffix));
        assert At(ls[n - 1].after, Db(InPlace, suffix)) == At(ls[n].before, Db(InPlace, suffix));
      }
      if HasDatabase(ls[n].before) {
        forall suffix ensures At(ls[n].after, Db(UserData, suffix)) == At(ls[n - 1].after, Db(UserData, suffix)) {
          DatabaseStays(ls, newRoot, dirs, n - 1, n, suffix);
        }
        DatabaseStays(ls, newRoot, dirs, n - 1, n, Main);
      } else {
        LaunchRenames(ls[n], newRoot, dirs);
      }
    }
  }

  /**
   The renamed database is exactly the in-place one if and only if the first launch found no
   `21x.db` sidecar without its in-place counterpart.
   */
  lemma RenameExactWithoutOrphans(ls: seq<Launch>, newRoot: string, dirs: seq<string>, n: nat)
    requires Run(ls, newRoot, dirs) && n < |ls| && HasDatabase(ls[n].after)
    requires !HasDatabase(ls[0].before) && Db(InPlace, Main) in ls[0].before
    ensures (forall suffix :: At(ls[n].after, Db(UserData, suffix)) == At(ls[0].before, Db(InPlace, suffix)))
            <==> forall suffix | Db(UserData, suffix) in ls[0].before :: Db(InPlace, suffix) in ls[0].before
  {
    RenamedDatabaseIsTheInPlaceOne(ls, newRoot, dirs, n);
    forall suffix
      ensures At(ls[n].after, Db(UserData, suffix)) == At(ls[0].before, Db(InPlace, suffix))
              <==> (Db(UserData, suffix) in ls[0].before ==> Db(InPlace, suffix) in ls[0].before)
    {
      assert At(ls[n].after, Db(UserData, suffix)) == Logical(ls[0].before, suffix);
    }
  }

  // ---------------------------------------------------------------- why the flags differ

  /** Removing stale sidecars while renaming would lose a write-ahead log that was already moved. */
  lemma RemovingWhileRenamingLosesTheLog(f: Files)
    requires Db(InPlace, Main) in f && Db(InPlace, Wal) in f && !HasDatabase(f)
    ensures var died := PlacePrefix(f, InPlace, UserData, true, true, 1);
            && Db(InPlace, Main) in died
            && At(PlacePrefix(died, InPlace, UserData, true, true, 3), Db(UserData, Wal)) == None
            && At(PlacePrefix(died, InPlace, UserData, true, false, 3), Db(UserData, Wal)) == At(f, Db(InPlace, Wal))
  {
    var died := PlacePrefix(f, InPlace, UserData, true, true, 1);
    PrefixPlaces(f, InPlace, UserData, true, true, 1, Db(InPlace, Main));
    PrefixPlaces(f, InPlace, UserData, true, true, 1, Db(InPlace, Wal));
    PrefixPlaces(f, InPlace, UserData, true, true, 1, Db(UserData, Wal));
    PrefixPlaces(died, InPlace, UserData, true, true, 3, Db(UserData, Wal));
    PrefixPlaces(died, InPlace, UserData, true, false, 3, Db(UserData, Wal));
  }

  /** Keeping stale sidecars while copying would pair them with a database they do not belong to. */
  lemma KeepingWhileCopyingPairsAStaleLog(g: Files, stale: Node)
    requires Db(Staging, Main) in g && Db(Staging, Wal) !in g && At(g, Db(UserData, Wal)) == Some(stale)
    ensures At(PlacePrefix(g, Staging, UserData, true, false, 3), Db(UserData, Wal)) == Some(stale)
    ensures At(PlacePrefix(g, Staging, UserData, true, true, 3), Db(UserData, Wal)) == None
  {
    PrefixPlaces(g, Staging, UserData, true, false, 3, Db(UserData, Wal));
    PrefixPlaces(g, Staging, UserData, true, true, 3, Db(UserData, Wal));
  }

  /** Files of a launch that died after moving the first staged sidecar. */
  function DiedAfterFirstSidecar(f: Files, source: string): Files
    requires Db(Legacy(source), Main) in f
    requires Db(Staging, Main) in PlacePrefix(f, Legacy(source), Staging, false, true, 3)
  {
    PlacePrefix(PlacePrefix(f, Legacy(source), Staging, false, true, 3), Staging, UserData, true, true, 1)
  }

  lemma DyingThereIsALaunch(f: Files, source: string, newRoot: string)
    requires source != "" && !HasDatabase(f)
    requires Db(Legacy(source), Main) in f
    requires Db(Staging, Main) in PlacePrefix(f, Legacy(source), Staging, false, true, 3)
    ensures var h := DiedAfterFirstSidecar(f, source);
            && CopyLaunch(f, h, h, source, newRoot, false, [])
            && At(h, Db(UserData, Wal)) == At(f, Db(Legacy(source), Wal)) && !HasDatabase(h)
  {
    var g := PlacePrefix(f, Legacy(source), Staging, false, true, 3);
    var h := DiedAfterFirstSidecar(f, source);
    StagedThenMoved(f, g, h, source, 1);
    PrefixPlaces(f, Legacy(source), Staging, false, true, 3, Db(Staging, Wal));
    PrefixPlaces(g, Staging, UserData, true, true, 1, Db(UserData, Wal));
    forall name ensures EntryFresh(f, h, source, newRoot, name) {
      assert At(f, Entry(UserData, name)) == At(h, Entry(UserData, name));
    }
  }

  /**
   Such a stale log does arise: a launch dies after moving one sidecar, and before the next one
   the old application, still in use, folds its own log into its database. Only the flag that
   the copy has then keeps the old log away from the new database.
   */
  lemma AStaleLogArises(f: Files, source: string, newRoot: string, before: Files)
    requires source != "" && source != newRoot && !HasDatabase(f) && Db(InPlace, Main) !in f && Marker !in f
    requires Db(Legacy(source), Main) in f
    requires Db(Staging, Main) in PlacePrefix(f, Legacy(source), Staging, false, true, 3)
    requires Db(Legacy(source), Wal) in f
    requires UserDataKept(DiedAfterFirstSidecar(f, source), before)
    requires Db(Legacy(source), Main) in before && Db(Legacy(source), Wal) !in before
    ensures LaunchOk(Launch(f, DiedAfterFirstSidecar(f, source), false, Report(Copied, false, Some(source), [], [])),
                     newRoot, [source])
    ensures var staged := PlacePrefix(before, Legacy(source), Staging, false, true, 3);
            && Db(Staging, Main) in staged
            && At(PlacePrefix(staged, Staging, UserData, true, false, 3), Db(UserData, Wal)) ==
               At(f, Db(Legacy(source), Wal))
            && At(PlacePrefix(staged, Staging, UserData, true, true, 3), Db(UserData, Wal)) == None
  {
    var h := DiedAfterFirstSidecar(f, source);
    DyingThereIsALaunch(f, source, newRoot);
    assert [source][1..] == [];
    assert At(h, Db(UserData, Wal)) == At(before, Db(UserData, Wal));
    var staged := PlacePrefix(before, Legacy(source), Staging, false, true, 3);
    PrefixPlaces(before, Legacy(source), Staging, false, true, 3, Db(Staging, Main));
    PrefixPlaces(before, Legacy(source), Staging, false, true, 3, Db(Staging, Wal));
    PrefixPlaces(before, Legacy(source), Staging, false, true, 3, Db(UserData, Wal));
    KeepingWhileCopyingPairsAStaleLog(staged, f[Db(Legacy(source), Wal)]);
  }

  /**
   The promise needs its source at every launch. If a launch dies after moving one sidecar and
   the legacy directory is then removed, the next launch reports a fresh install and leaves
   that sidecar behind without its database.
   */
  lemma OrphanAfterSourceDisappears(f: Files, source: string, newRoot: string, l: Launch)
    requires source != "" && source != newRoot && !HasDatabase(f) && Db(InPlace, Main) !in f && Marker !in f
    requires Db(Legacy(source), Main) in f
    requires Db(Staging, Main) in PlacePrefix(f, Legacy(source), Staging, false, true, 3)
    requires Db(Legacy(source), Wal) in f
    requires UserDataKept(DiedAfterFirstSidecar(f, source), l.before) && Db(Legacy(source), Main) !in l.before
    requires LaunchOk(l, newRoot, [source]) && l.finished
    ensures LaunchOk(Launch(f, DiedAfterFirstSidecar(f, source), false, Report(Copied, false, Some(source), [], [])),
                     newRoot, [source])
    ensures Expected(l.before, newRoot, [source]) == FreshInstall
    ensures Db(UserData, Wal) in l.after && !HasDatabase(l.after)
  {
    var h := DiedAfterFirstSidecar(f, source);
    DyingThereIsALaunch(f, source, newRoot);
    assert [source][1..] == [] && Source(l.before, newRoot, [source]) == None;
    assert At(f, Db(InPlace, Main)) == At(h, Db(InPlace, Main)) == At(l.before, Db(InPlace, Main));
    assert At(f, Marker) == At(h, Marker) == At(l.before, Marker);
    assert At(h, Db(UserData, Main)) == At(l.before, Db(UserData, Main)) == At(l.after, Db(UserData, Main));
    assert At(h, Db(UserData, Wal)) == At(l.before, Db(UserData, Wal)) == At(l.after, Db(UserData, Wal));
  }
}
