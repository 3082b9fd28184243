/**
 The one-time carry-over of app-identity-migration.ts on a file system in which every call
 may complete, throw, or be the last one before the process dies. A directory entry is one
 value; a copy or rewrite that does not complete leaves arbitrary contents behind.
 */
module IdentityMigration {
  import opened Wrappers
  import opened GitPointers

  datatype Suffix = Main | Wal | Shm

  /** `UserData` is the database at 21x.db, `InPlace` at pf-desktop.db of the same directory. */
  datatype Place = UserData | InPlace | Staging | Legacy(root: string)

  datatype Path = Db(at: Place, suffix: Suffix) | Entry(at: Place, name: string) | Marker | MarkerDraft

  type Files = map<Path, Node>

  const SIDECARS: seq<Suffix> := [Wal, Shm]

  const DB_FILE_NAME := "21x.db"

  const STAGING_DIR := ".21x-identity-migration-staging"

  const CARRIED_OVER_ENTRIES: seq<string> :=
    ["attachments", "plugins", "voice-models", "voice-tts-models", "voice-runtime", "browser-recordings", "logs",
     "Local Storage", "repos", "workspaces"]

  datatype Step = Done | Threw | Died

  datatype Outcome = AlreadyMigrated | ExistingDatabase | FreshInstall | Copied

  datatype Report = Report(outcome: Outcome, renamedInPlace: bool, source: Option<string>,
                           copied: seq<string>, failed: seq<string>)

  /** The file at `p`, if there is one. */
  function At(f: Files, p: Path): Option<Node> {
    if p in f then Some(f[p]) else None
  }

  /** `f` and `g` agree on every path outside `touched`. */
  ghost predicate SameExcept(f: Files, g: Files, touched: iset<Path>) {
    forall p | p !in touched :: At(f, p) == At(g, p)
  }

  predicate IsStaging(p: Path) {
    (p.Db? || p.Entry?) && p.at == Staging
  }

  predicate IsLegacy(p: Path) {
    (p.Db? || p.Entry?) && p.at.Legacy?
  }

  /** Nothing outside the staging directory has changed. */
  ghost predicate OnlyStaging(f: Files, g: Files) {
    forall p: Path | !IsStaging(p) :: At(f, p) == At(g, p)
  }

  /** The copy of a legacy entry with its git pointers moved to the new root. */
  function Rewritten(node: Node, name: string, root: string, newRoot: string): Node
    requires root != ""
  {
    Rewrite(node, [STAGING_DIR, name], root, newRoot)
  }

  // ---------------------------------------------------------------- file system calls

  class Disk {
    var files: Files

    /** How many calls have not completed. */
    ghost var faults: nat

    /** The call counts as a fault exactly if it did not complete. */
    ghost predicate Counts(before: nat, s: Step)
      reads this`faults
    {
      faults == before + if s == Done then 0 else 1
    }

    method Exists(p: Path) returns (b: bool)
      ensures b == (p in files)
    {
      b := p in files;
    }

    /** `copyFileSync` and `cpSync`: only a completed call leaves the whole source behind. */
    method Copy(from: Path, to: Path) returns (s: Step)
      requires from in files
      modifies this
      ensures Counts(old(faults), s)
      ensures s == Done ==> files == old(files)[to := old(files)[from]]
      ensures SameExcept(old(files), files, iset{to})
    {
      s := Done;
      if * {
        files := files[to := files[from]];
      } else {
        s := *;
        var partial: Node := *;
        if s == Done { s := Died; }
        if * { files := files[to := partial]; }
      }
      if s != Done { faults := faults + 1; }
    }

    /** `renameSync` is atomic: one that throws has done nothing, one that the process dies in may have. */
    method Rename(from: Path, to: Path) returns (s: Step)
      requires from in files
      modifies this
      ensures Counts(old(faults), s)
      ensures files == old(files) || files == (old(files) - {from})[to := old(files)[from]]
      ensures s == Done ==> files == (old(files) - {from})[to := old(files)[from]]
      ensures s == Threw ==> files == old(files)
    {
      s := *;
      var happens: bool := *;
      if s == Done || (happens && s == Died) {
        files := (files - {from})[to := files[from]];
      }
      if s != Done { faults := faults + 1; }
    }

    /** `rmSync` with `force`, of one file. */
    method Remove(p: Path) returns (s: Step)
      modifies this
      ensures Counts(old(faults), s)
      ensures files == old(files) || files == old(files) - {p}
      ensures s == Done ==> files == old(files) - {p}
    {
      s := *;
      var happens: bool := *;
      if happens || s == Done {
        files := files - {p};
      }
      if s != Done { faults := faults + 1; }
    }

    /** `writeFileSync`, also as the callback of the pointer walk: an interrupted one leaves anything behind. */
    method Write(p: Path, node: Node) returns (s: Step)
      modifies this
      ensures Counts(old(faults), s)
      ensures s == Done ==> files == old(files)[p := node]
      ensures SameExcept(old(files), files, iset{p})
    {
      s := *;
      var partial: Node := *;
      var happens: bool := *;
      if s == Done {
        files := files[p := node];
      } else if happens {
        files := files[p := partial];
      }
      if s != Done { faults := faults + 1; }
    }

    /** `rmSync` of a staged directory tree: an interrupted one leaves a part of it behind. */
    method RemoveTree(p: Path) returns (s: Step)
      modifies this
      ensures Counts(old(faults), s)
      ensures s == Done ==> files == old(files) - {p}
      ensures SameExcept(old(files), files, iset{p})
    {
      s := *;
      var partial: Node := *;
      var happens: bool := *;
      if s == Done {
        files := files - {p};
      } else if happens && p in files {
        files := files[p := partial];
      }
      if s != Done { faults := faults + 1; }
    }

    /** `rmSync` of the whole staging directory. */
    method RemoveStaging() returns (s: Step)
      modifies this
      ensures Counts(old(faults), s)
      ensures s == Done ==> forall p: Path | IsStaging(p) :: p !in files
      ensures OnlyStaging(old(files), files)
    {
      s := *;
      var some: set<Path> := *;
      var staged := set p | p in files && IsStaging(p);
      files := if s == Done then files - staged else files - (some * staged);
      if s != Done { faults := faults + 1; }
    }
  }

  // ---------------------------------------------------------------- placing a database

  function Transfer(f: Files, from: Place, to: Place, move: bool, suffix: Suffix): Files
    requires Db(from, suffix) in f
  {
    (if move then f - {Db(from, suffix)} else f)[Db(to, suffix) := f[Db(from, suffix)]]
  }

  function PlaceSidecar(f: Files, from: Place, to: Place, move: bool, removeStale: bool, suffix: Suffix): Files {
    if Db(from, suffix) in f then Transfer(f, from, to, move, suffix)
    else if removeStale then f - {Db(to, suffix)}
    else f
  }

  /** The files after the first `n` transfers of `placeDatabase`: sidecars first, main file last. */
  function PlacePrefix(f: Files, from: Place, to: Place, move: bool, removeStale: bool, n: nat): Files
    requires n <= 3 && Db(from, Main) in f && from != to
    ensures n < 3 ==> Db(from, Main) in PlacePrefix(f, from, to, move, removeStale, n)
  {
    if n == 0 then f
    else if n < 3 then
      PlaceSidecar(PlacePrefix(f, from, to, move, removeStale, n - 1), from, to, move, removeStale, SIDECARS[n - 1])
    else Transfer(PlacePrefix(f, from, to, move, removeStale, 2), from, to, move, Main)
  }

  /** One turn of the sidecar loop. */
  method PlaceOne(disk: Disk, from: Place, to: Place, move: bool, removeStale: bool, suffix: Suffix) returns (s: Step)
    requires from != to
    modifies disk
    ensures disk.Counts(old(disk.faults), s)
    ensures s == Done ==> disk.files == PlaceSidecar(old(disk.files), from, to, move, removeStale, suffix)
    ensures move ==> disk.files == old(disk.files)
                     || disk.files == PlaceSidecar(old(disk.files), from, to, move, removeStale, suffix)
    ensures !move ==> SameExcept(old(disk.files), disk.files, iset{Db(to, suffix)})
  {
    s := Done;
    var present := disk.Exists(Db(from, suffix));
    if present {
      if move {
        s := disk.Rename(Db(from, suffix), Db(to, suffix));
      } else {
        s := disk.Copy(Db(from, suffix), Db(to, suffix));
      }
    } else if removeStale {
      s := disk.Remove(Db(to, suffix));
    }
  }

  /** A move that may have stopped after any of its transfers. */
  ghost predicate MovedPrefix(f: Files, g: Files, from: Place, to: Place, removeStale: bool)
    requires Db(from, Main) in f && from != to
  {
    exists n | 0 <= n <= 3 :: g == PlacePrefix(f, from, to, true, removeStale, n)
  }

  ghost function DbPaths(at: Place): iset<Path> {
    iset{Db(at, Main), Db(at, Wal), Db(at, Shm)}
  }

  lemma StoppedAt(f: Files, g: Files, from: Place, to: Place, removeStale: bool, n: nat)
    requires Db(from, Main) in f && from != to && n <= 3
    requires g == PlacePrefix(f, from, to, true, removeStale, n)
    ensures MovedPrefix(f, g, from, to, removeStale)
  {
  }

  /** The sidecar loop. */
  method PlaceSidecars(disk: Disk, from: Place, to: Place, move: bool, removeStale: bool) returns (s: Step)
    requires Db(from, Main) in disk.files && from != to
    modifies disk
    ensures disk.Counts(old(disk.faults), s)
    ensures s == Done ==> disk.files == PlacePrefix(old(disk.files), from, to, move, removeStale, 2)
    ensures move ==> MovedPrefix(old(disk.files), disk.files, from, to, removeStale)
    ensures !move ==> SameExcept(old(disk.files), disk.files, DbPaths(to))
  {
    ghost var f := disk.files;
    s := Done;
    for i := 0 to |SIDECARS|
      invariant s == Done && disk.files == PlacePrefix(f, from, to, move, removeStale, i)
      invariant disk.faults == old(disk.faults)
      invariant !move ==> SameExcept(f, disk.files, DbPaths(to))
    {
      ghost var before := disk.files;
      s := PlaceOne(disk, from, to, move, removeStale, SIDECARS[i]);
      ghost var next := PlacePrefix(f, from, to, move, removeStale, i + 1);
      assert next == PlaceSidecar(before, from, to, move, removeStale, SIDECARS[i]);
      if s != Done {
        if move {
          StoppedAt(f, disk.files, from, to, removeStale, if disk.files == before then i else i + 1);
        }
        return;
      }
    }
    if move {
      StoppedAt(f, disk.files, from, to, removeStale, 2);
    }
  }

  method PlaceDatabase(disk: Disk, from: Place, to: Place, move: bool, removeStale: bool) returns (s: Step)
    requires Db(from, Main) in disk.files && from != to
    modifies disk
    ensures disk.Counts(old(disk.faults), s)
    ensures s == Done ==> disk.files == PlacePrefix(old(disk.files), from, to, move, removeStale, 3)
    ensures move ==> MovedPrefix(old(disk.files), disk.files, from, to, removeStale)
    ensures !move ==> SameExcept(old(disk.files), disk.files, DbPaths(to))
  {
    ghost var f := disk.files;
    s := PlaceSidecars(disk, from, to, move, removeStale);
    if s != Done { return; }
    ghost var before := disk.files;
    assert PlacePrefix(f, from, to, move, removeStale, 3) == Transfer(before, from, to, move, Main);
    if move {
      s := disk.Rename(Db(from, Main), Db(to, Main));
      StoppedAt(f, disk.files, from, to, removeStale, if disk.files == before then 2 else 3);
    } else {
      s := disk.Copy(Db(from, Main), Db(to, Main));
    }
  }

  function Rank(suffix: Suffix): nat {
    match suffix case Wal => 1 case Shm => 2 case Main => 3
  }

  /** Which node the first `n` transfers of `placeDatabase` leave at `p`. */
  function PlacedAt(f: Files, from: Place, to: Place, move: bool, removeStale: bool, n: nat, p: Path): Option<Node> {
    if p.Db? && p.at == to && Rank(p.suffix) <= n then
      if Db(from, p.suffix) in f then Some(f[Db(from, p.suffix)]) else if removeStale then None else At(f, p)
    else if move && p.Db? && p.at == from && Rank(p.suffix) <= n then None
    else At(f, p)
  }

  /** What moving or copying one file of the database leaves at `p`. */
  function OneAt(
      f: Files, from: Place, to: Place, move: bool, removeStale: bool, suffix: Suffix, p: Path): Option<Node> {
    if p == Db(to, suffix) then
      if Db(from, suffix) in f then Some(f[Db(from, suffix)]) else if removeStale then None else At(f, p)
    else if move && p == Db(from, suffix) then None
    else At(f, p)
  }

  lemma OnePlaces(f: Files, from: Place, to: Place, move: bool, removeStale: bool, suffix: Suffix, p: Path)
    requires from != to
    ensures At(PlaceSidecar(f, from, to, move, removeStale, suffix), p) ==
            OneAt(f, from, to, move, removeStale, suffix, p)
    ensures Db(from, suffix) in f ==>
              At(Transfer(f, from, to, move, suffix), p) == OneAt(f, from, to, move, removeStale, suffix, p)
  {
  }

  lemma {:induction false} PrefixPlaces(
      f: Files, from: Place, to: Place, move: bool, removeStale: bool, n: nat, p: Path)
    requires n <= 3 && Db(from, Main) in f && from != to
    ensures At(PlacePrefix(f, from, to, move, removeStale, n), p) == PlacedAt(f, from, to, move, removeStale, n, p)
  {
    if n > 0 {
      var suffix := if n == 1 then Wal else if n == 2 then Shm else Main;
      var g := PlacePrefix(f, from, to, move, removeStale, n - 1);
      PrefixPlaces(f, from, to, move, removeStale, n - 1, p);
      PrefixPlaces(f, from, to, move, removeStale, n - 1, Db(from, suffix));
      OnePlaces(g, from, to, move, removeStale, suffix, p);
      assert Rank(suffix) == n && At(g, Db(from, suffix)) == At(f, Db(from, suffix));
      assert At(PlacePrefix(f, from, to, move, removeStale, n), p) == OneAt(g, from, to, move, removeStale, suffix, p);
      if p == Db(to, suffix) || p == Db(from, suffix) {
      } else {
        assert PlacedAt(f, from, to, move, removeStale, n, p) == PlacedAt(f, from, to, move, removeStale, n - 1, p);
      }
    }
  }

  // ---------------------------------------------------------------- copying the entries

  /** The entry is as it was, or has become the complete rewritten copy of the legacy one. */
  ghost predicate EntryFresh(f: Files, g: Files, source: string, newRoot: string, name: string) {
    || At(g, Entry(UserData, name)) == At(f, Entry(UserData, name))
    || (&& source != "" && Entry(UserData, name) !in f && Entry(Legacy(source), name) in f
        && At(g, Entry(UserData, name)) == Some(Rewritten(f[Entry(Legacy(source), name)], name, source, newRoot)))
  }

  ghost function EntryPaths(name: string): iset<Path> {
    iset{Entry(Staging, name), Entry(UserData, name)}
  }

  /** The `try` of the entry loop and its `catch`, which removes what was staged. */
  method CopyEntry(disk: Disk, source: string, newRoot: string, name: string) returns (s: Step)
    requires source != "" && Entry(Legacy(source), name) in disk.files && Entry(UserData, name) !in disk.files
    modifies disk
    ensures disk.faults >= old(disk.faults) && (s != Done ==> disk.faults > old(disk.faults))
    ensures EntryFresh(old(disk.files), disk.files, source, newRoot, name)
    ensures SameExcept(old(disk.files), disk.files, EntryPaths(name))
    ensures s == Done ==> Entry(UserData, name) in disk.files
    ensures s == Threw ==> Entry(UserData, name) !in disk.files
    ensures s != Died ==> Entry(Staging, name) !in disk.files
  {
    var staged := Entry(Staging, name);
    s := disk.Copy(Entry(Legacy(source), name), staged);
    if s == Done {
      s := disk.Write(staged, Rewritten(disk.files[staged], name, source, newRoot));
    }
    if s == Done {
      s := disk.Rename(staged, Entry(UserData, name));
    }
    if s == Threw {
      s := disk.RemoveTree(staged);
      s := if s == Done then Threw else Died;
    }
  }

  /** Every entry of the source is in place, unless copying it failed. */
  ghost predicate EntriesInPlace(f: Files, g: Files, source: string, failed: seq<string>) {
    forall name | name in CARRIED_OVER_ENTRIES && Entry(Legacy(source), name) in f ::
      Entry(UserData, name) in g || name in failed
  }

  ghost predicate EntriesFresh(f: Files, g: Files, source: string, newRoot: string) {
    forall name :: EntryFresh(f, g, source, newRoot, name)
  }

  ghost predicate OnlyEntries(f: Files, g: Files) {
    forall p: Path | !(p.Entry? && (p.at == Staging || p.at == UserData)) :: At(f, p) == At(g, p)
  }

  ghost predicate NothingStaged(f: Files) {
    forall name :: Entry(Staging, name) !in f
  }

  /** The entry is one the carry-over tries: in the source, and not in the new directory yet. */
  predicate Tried(f: Files, source: string, name: string) {
    name in CARRIED_OVER_ENTRIES && Entry(Legacy(source), name) in f && Entry(UserData, name) !in f
  }

  /** `name` is reported as copied or failed exactly when it was tried, by whether it is in place now. */
  ghost predicate ReportOk(f: Files, g: Files, source: string, copied: seq<string>, failed: seq<string>, name: string) {
    && (name in copied <==> Tried(f, source, name) && Entry(UserData, name) in g)
    && (name in failed <==> Tried(f, source, name) && Entry(UserData, name) !in g)
  }

  ghost predicate EntriesReported(f: Files, g: Files, source: string, copied: seq<string>, failed: seq<string>) {
    forall name {:trigger ReportOk(f, g, source, copied, failed, name)} ::
      ReportOk(f, g, source, copied, failed, name)
  }

  /** The same of an entry before the `i`-th; a later one is untouched. */
  ghost predicate ReportedAt(
      f: Files, g: Files, source: string, copied: seq<string>, failed: seq<string>, i: nat, name: string)
    requires i <= |CARRIED_OVER_ENTRIES|
  {
    if name in CARRIED_OVER_ENTRIES[..i] then ReportOk(f, g, source, copied, failed, name)
    else name !in copied && name !in failed && At(g, Entry(UserData, name)) == At(f, Entry(UserData, name))
  }

  ghost predicate ReportedTo(f: Files, g: Files, source: string, copied: seq<string>, failed: seq<string>, i: nat)
    requires i <= |CARRIED_OVER_ENTRIES|
  {
    forall name {:trigger ReportedAt(f, g, source, copied, failed, i, name)} ::
      ReportedAt(f, g, source, copied, failed, i, name)
  }

  lemma DistinctEntries(i: nat)
    requires i < |CARRIED_OVER_ENTRIES|
    ensures CARRIED_OVER_ENTRIES[i] !in CARRIED_OVER_ENTRIES[..i]
    ensures CARRIED_OVER_ENTRIES[..i + 1] == CARRIED_OVER_ENTRIES[..i] + [CARRIED_OVER_ENTRIES[i]]
  {
  }

  method CopyEntries(disk: Disk, source: string, newRoot: string)
    returns (alive: bool, copied: seq<string>, failed: seq<string>)
    requires source != "" && NothingStaged(disk.files)
    modifies disk
    ensures disk.faults >= old(disk.faults) && (!alive || failed != [] ==> disk.faults > old(disk.faults))
    ensures EntriesFresh(old(disk.files), disk.files, source, newRoot) && OnlyEntries(old(disk.files), disk.files)
    ensures alive ==> EntriesReported(old(disk.files), disk.files, source, copied, failed) && NothingStaged(disk.files)
  {
    copied, failed := [], [];
    ghost var f := disk.files;
    for i := 0 to |CARRIED_OVER_ENTRIES|
      invariant EntriesFresh(f, disk.files, source, newRoot) && OnlyEntries(f, disk.files)
      invariant NothingStaged(disk.files)
      invariant ReportedTo(f, disk.files, source, copied, failed, i)
      invariant disk.faults >= old(disk.faults) && (failed != [] ==> disk.faults > old(disk.faults))
    {
      var name := CARRIED_OVER_ENTRIES[i];
      DistinctEntries(i);
      var from := disk.Exists(Entry(Legacy(source), name));
      var to := disk.Exists(Entry(UserData, name));
      ghost var before, c, d := disk.files, copied, failed;
      if from && !to {
        var s := CopyEntry(disk, source, newRoot, name);
        EntryStep(f, before, disk.files, source, newRoot, name);
        if s == Died { return false, copied, failed; }
        if s == Done {
          copied := copied + [name];
        } else {
          failed := failed + [name];
        }
      }
      OneMoreReported(f, before, disk.files, source, c, d, copied, failed, i);
    }
    assert CARRIED_OVER_ENTRIES[..|CARRIED_OVER_ENTRIES|] == CARRIED_OVER_ENTRIES;
    AllReported(f, disk.files, source, copied, failed);
    alive := true;
  }

  lemma OneMoreReported(f: Files, before: Files, g: Files, source: string, c: seq<string>, d: seq<string>,
                        copied: seq<string>, failed: seq<string>, i: nat)
    requires i < |CARRIED_OVER_ENTRIES| && ReportedTo(f, before, source, c, d, i) && OnlyEntries(f, before)
    requires var name := CARRIED_OVER_ENTRIES[i];
             && name !in CARRIED_OVER_ENTRIES[..i] && SameExcept(before, g, EntryPaths(name))
             && CARRIED_OVER_ENTRIES[..i + 1] == CARRIED_OVER_ENTRIES[..i] + [name]
             && (if Entry(Legacy(source), name) in before && Entry(UserData, name) !in before then
                   if Entry(UserData, name) in g then copied == c + [name] && failed == d
                   else copied == c && failed == d + [name]
                 else copied == c && failed == d && At(g, Entry(UserData, name)) == At(before, Entry(UserData, name)))
    ensures ReportedTo(f, g, source, copied, failed, i + 1)
  {
    var name, next := CARRIED_OVER_ENTRIES[i], i + 1;
    forall x
      ensures ReportedAt(f, g, source, copied, failed, next, x)
    {
      assert ReportedAt(f, before, source, c, d, i, x);
      assert At(f, Entry(Legacy(source), x)) == At(before, Entry(Legacy(source), x));
      assert x != name ==> At(before, Entry(UserData, x)) == At(g, Entry(UserData, x));
    }
  }

  lemma AllReported(f: Files, g: Files, source: string, copied: seq<string>, failed: seq<string>)
    requires CARRIED_OVER_ENTRIES[..|CARRIED_OVER_ENTRIES|] == CARRIED_OVER_ENTRIES
    requires ReportedTo(f, g, source, copied, failed, |CARRIED_OVER_ENTRIES|)
    ensures EntriesReported(f, g, source, copied, failed)
  {
    forall name
      ensures ReportOk(f, g, source, copied, failed, name)
    {
      assert ReportedAt(f, g, source, copied, failed, |CARRIED_OVER_ENTRIES|, name);
    }
  }

  lemma EntryStep(f: Files, before: Files, g: Files, source: string, newRoot: string, name: string)
    requires EntriesFresh(f, before, source, newRoot) && OnlyEntries(f, before)
    requires EntryFresh(before, g, source, newRoot, name) && SameExcept(before, g, EntryPaths(name))
    requires Entry(UserData, name) !in before
    ensures EntriesFresh(f, g, source, newRoot) && OnlyEntries(f, g)
    ensures forall n | Entry(UserData, n) in before :: Entry(UserData, n) in g
    ensures NothingStaged(before) && Entry(Staging, name) !in g ==> NothingStaged(g)
  {
    forall n ensures EntryFresh(f, g, source, newRoot, n) {
      assert EntryFresh(f, before, source, newRoot, n);
      assert n != name ==> At(before, Entry(UserData, n)) == At(g, Entry(UserData, n));
      assert At(f, Entry(Legacy(source), name)) == At(before, Entry(Legacy(source), name));
    }
    forall n | Entry(UserData, n) in before ensures Entry(UserData, n) in g {
      assert At(before, Entry(UserData, n)) == At(g, Entry(UserData, n));
    }
    forall n | n != name ensures At(before, Entry(Staging, n)) == At(g, Entry(Staging, n)) {
    }
  }

  // ---------------------------------------------------------------- copying a whole legacy directory

  ghost predicate LegacyKept(f: Files, g: Files) {
    forall p: Path | IsLegacy(p) :: At(f, p) == At(g, p)
  }

  /** Nothing outside the legacy directories has changed. */
  ghost predicate UserDataKept(f: Files, g: Files) {
    forall p: Path | !IsLegacy(p) :: At(f, p) == At(g, p)
  }

  /** The new database and its sidecars are exactly the files of the source. */
  ghost predicate DatabaseCopied(f: Files, g: Files, source: string) {
    forall suffix :: At(g, Db(UserData, suffix)) == At(f, Db(Legacy(source), suffix))
  }

  /** `g` differs from `f` at most in staging, in the new entries and in the new database. */
  ghost predicate CopyFrame(f: Files, g: Files) {
    forall p: Path | IsLegacy(p) || p.Marker? || p.MarkerDraft? || (p.Db? && p.at == InPlace) :: At(f, p) == At(g, p)
  }

  /** How far a copy from `source` has come: the database appears last and complete. */
  ghost predicate CopyProgress(f: Files, g: Files, source: string, newRoot: string, failed: seq<string>) {
    && CopyFrame(f, g)
    && EntriesFresh(f, g, source, newRoot)
    && (Db(UserData, Main) in g ==> DatabaseCopied(f, g, source) && EntriesInPlace(f, g, source, failed))
  }

  /** Staging with stale sidecars removed and then moving places exactly the source's files. */
  lemma StagedThenMoved(f: Files, g: Files, h: Files, source: string, n: nat)
    requires n <= 3 && Db(Legacy(source), Main) in f && Db(UserData, Main) !in f
    requires g == PlacePrefix(f, Legacy(source), Staging, false, true, 3) && Db(Staging, Main) in g
    requires h == PlacePrefix(g, Staging, UserData, true, true, n)
    ensures n == 3 ==> DatabaseCopied(f, h, source)
    ensures n < 3 ==> Db(UserData, Main) !in h
    ensures forall p: Path | !(p.Db? && (p.at == Staging || p.at == UserData)) :: At(f, p) == At(h, p)
  {
    forall p: Path
      ensures At(g, p) == PlacedAt(f, Legacy(source), Staging, false, true, 3, p)
      ensures At(h, p) == PlacedAt(g, Staging, UserData, true, true, n, p)
    {
      PrefixPlaces(f, Legacy(source), Staging, false, true, 3, p);
      PrefixPlaces(g, Staging, UserData, true, true, n, p);
    }
    assert At(h, Db(UserData, Main)) == PlacedAt(g, Staging, UserData, true, true, n, Db(UserData, Main));
    forall suffix ensures n == 3 ==> At(h, Db(UserData, suffix)) == At(f, Db(Legacy(source), suffix)) {
      assert At(g, Db(Staging, suffix)) == At(f, Db(Legacy(source), suffix));
    }
  }

  lemma StagingKeepsProgress(f: Files, g: Files, h: Files, source: string, newRoot: string, failed: seq<string>)
    requires CopyProgress(f, g, source, newRoot, failed) && OnlyStaging(g, h)
    ensures CopyProgress(f, h, source, newRoot, failed)
  {
    forall name ensures EntryFresh(f, h, source, newRoot, name) {
      assert EntryFresh(f, g, source, newRoot, name);
    }
    forall name | Entry(UserData, name) in g ensures Entry(UserData, name) in h {
      assert At(g, Entry(UserData, name)) == At(h, Entry(UserData, name));
    }
    assert At(g, Db(UserData, Main)) == At(h, Db(UserData, Main));
  }

  /** The first phase starts from `e`, which differs from the launch's files only in staging. */
  lemma EntriesKeepProgress(e: Files, f: Files, g: Files, source: string, newRoot: string, failed: seq<string>)
    requires OnlyStaging(e, f) && EntriesFresh(f, g, source, newRoot) && OnlyEntries(f, g) && Db(UserData, Main) !in e
    ensures CopyProgress(e, g, source, newRoot, failed) && Db(UserData, Main) !in g
    ensures EntriesInPlace(f, g, source, failed) ==> EntriesInPlace(e, g, source, failed)
  {
    assert At(e, Db(UserData, Main)) == At(f, Db(UserData, Main)) == At(g, Db(UserData, Main));
    forall name
      ensures EntryFresh(e, g, source, newRoot, name)
      ensures At(e, Entry(Legacy(source), name)) == At(f, Entry(Legacy(source), name))
    {
      assert EntryFresh(f, g, source, newRoot, name);
      assert At(e, Entry(UserData, name)) == At(f, Entry(UserData, name));
    }
  }

  /** The database is placed over files `g` that differ from the launch's only as far as the entries go. */
  lemma DatabaseKeepsProgress(e: Files, g: Files, h: Files, source: string, newRoot: string, failed: seq<string>)
    requires CopyProgress(e, g, source, newRoot, failed) && EntriesInPlace(e, g, source, failed)
    requires forall p: Path | !(p.Db? && (p.at == Staging || p.at == UserData)) :: At(g, p) == At(h, p)
    requires Db(UserData, Main) !in h || DatabaseCopied(g, h, source)
    ensures CopyProgress(e, h, source, newRoot, failed)
  {
    forall name ensures EntryFresh(e, h, source, newRoot, name) {
      assert EntryFresh(e, g, source, newRoot, name);
    }
    forall name | Entry(UserData, name) in g ensures Entry(UserData, name) in h {
      assert At(g, Entry(UserData, name)) == At(h, Entry(UserData, name));
    }
    forall suffix ensures At(e, Db(Legacy(source), suffix)) == At(g, Db(Legacy(source), suffix)) {
    }
  }

  /** The two `placeDatabase` calls of the copy: into staging, and from there to its new name. */
  method PlaceCopiedDatabase(disk: Disk, source: string) returns (alive: bool)
    requires source != "" && Db(Legacy(source), Main) in disk.files && Db(UserData, Main) !in disk.files
    modifies disk
    ensures disk.faults >= old(disk.faults) && (!alive ==> disk.faults > old(disk.faults))
    ensures forall p: Path | !(p.Db? && (p.at == Staging || p.at == UserData)) ::
              At(old(disk.files), p) == At(disk.files, p)
    ensures Db(UserData, Main) !in disk.files || DatabaseCopied(old(disk.files), disk.files, source)
    ensures alive ==> Db(UserData, Main) in disk.files
  {
    ghost var g := disk.files;
    alive := false;
    var s := PlaceDatabase(disk, Legacy(source), Staging, false, true);
    if s != Done {
      assert At(g, Db(UserData, Main)) == At(disk.files, Db(UserData, Main));
      return;
    }
    ghost var staged := disk.files;
    PrefixPlaces(g, Legacy(source), Staging, false, true, 3, Db(Staging, Main));
    s := PlaceDatabase(disk, Staging, UserData, true, true);
    ghost var n :| 0 <= n <= 3 && disk.files == PlacePrefix(staged, Staging, UserData, true, true, n);
    StagedThenMoved(g, staged, disk.files, source, n);
    if s != Done { return; }
    assert At(disk.files, Db(UserData, Main)).Some? by {
      PrefixPlaces(staged, Staging, UserData, true, true, 3, Db(UserData, Main));
    }
    alive := true;
  }

  /** The report stays true of files that agree on the entries. */
  lemma ReportCarries(e: Files, f: Files, g: Files, h: Files, source: string, copied: seq<string>, failed: seq<string>)
    requires EntriesReported(f, g, source, copied, failed)
    requires forall p: Path | p.Entry? && p.at != Staging :: At(e, p) == At(f, p) && At(g, p) == At(h, p)
    ensures EntriesReported(e, h, source, copied, failed)
  {
    forall name
      ensures ReportOk(e, h, source, copied, failed, name)
    {
      assert ReportOk(f, g, source, copied, failed, name);
      assert At(e, Entry(Legacy(source), name)) == At(f, Entry(Legacy(source), name));
      assert At(e, Entry(UserData, name)) == At(f, Entry(UserData, name));
      assert At(g, Entry(UserData, name)) == At(h, Entry(UserData, name));
    }
  }

  lemma ReportedInPlace(f: Files, g: Files, source: string, newRoot: string, copied: seq<string>, failed: seq<string>)
    requires EntriesReported(f, g, source, copied, failed) && EntriesFresh(f, g, source, newRoot)
    ensures EntriesInPlace(f, g, source, failed)
  {
    forall name | name in CARRIED_OVER_ENTRIES && Entry(Legacy(source), name) in f
      ensures Entry(UserData, name) in g || name in failed
    {
      assert ReportOk(f, g, source, copied, failed, name) && EntryFresh(f, g, source, newRoot, name);
    }
  }

  /** `copied` and `failed` are the entries; the database's own name is added to the report by the caller. */
  method CopyFrom(disk: Disk, source: string, newRoot: string)
    returns (alive: bool, copied: seq<string>, failed: seq<string>)
    requires source != "" && Db(Legacy(source), Main) in disk.files && Db(UserData, Main) !in disk.files
    modifies disk
    ensures disk.faults >= old(disk.faults) && (!alive || failed != [] ==> disk.faults > old(disk.faults))
    ensures CopyProgress(old(disk.files), disk.files, source, newRoot, failed)
    ensures alive ==> Db(UserData, Main) in disk.files && forall p: Path | IsStaging(p) :: p !in disk.files
    ensures alive ==> EntriesReported(old(disk.files), disk.files, source, copied, failed)
  {
    alive, copied, failed := false, [], [];
    ghost var e := disk.files;
    var s := disk.RemoveStaging();
    ghost var f := disk.files;
    if s != Done {
      EntriesKeepProgress(e, e, e, source, newRoot, failed);
      StagingKeepsProgress(e, e, f, source, newRoot, failed);
      return;
    }
    alive, copied, failed := CopyEntries(disk, source, newRoot);
    ghost var g := disk.files;
    EntriesKeepProgress(e, f, g, source, newRoot, failed);
    if !alive { return; }
    ReportedInPlace(f, g, source, newRoot, copied, failed);
    assert At(e, Db(Legacy(source), Main)) == At(f, Db(Legacy(source), Main)) == At(g, Db(Legacy(source), Main));
    alive := PlaceCopiedDatabase(disk, source);
    ghost var h := disk.files;
    DatabaseKeepsProgress(e, g, h, source, newRoot, failed);
    if !alive { return; }
    s := disk.RemoveStaging();
    StagingKeepsProgress(e, h, disk.files, source, newRoot, failed);
    assert At(h, Db(UserData, Main)) == At(disk.files, Db(UserData, Main));
    ReportCarries(e, f, g, disk.files, source, copied, failed);
    alive := s == Done;
  }

  // ---------------------------------------------------------------- one launch

  /** The first legacy directory, other than the new one, that has a database. */
  function Source(f: Files, newRoot: string, dirs: seq<string>): Option<string> {
    if dirs == [] then None
    else if dirs[0] != newRoot && Db(Legacy(dirs[0]), Main) in f then Some(dirs[0])
    else Source(f, newRoot, dirs[1..])
  }

  method FindSource(disk: Disk, newRoot: string, dirs: seq<string>) returns (source: Option<string>)
    ensures source == Source(disk.files, newRoot, dirs)
    ensures source.Some? ==> source.value in dirs && Db(Legacy(source.value), Main) in disk.files
  {
    source := None;
    for i := 0 to |dirs|
      invariant Source(disk.files, newRoot, dirs) == Source(disk.files, newRoot, dirs[i..])
    {
      assert dirs[i..][1..] == dirs[i + 1..];
      var present := disk.Exists(Db(Legacy(dirs[i]), Main));
      if dirs[i] != newRoot && present { return Some(dirs[i]); }
    }
  }

  /** The marker only ever appears complete: it is the draft, renamed after it was written. */
  method WriteMarker(disk: Disk, text: string) returns (s: Step)
    modifies disk
    ensures disk.Counts(old(disk.faults), s)
    ensures s == Done ==> At(disk.files, Marker) == Some(File(text)) && MarkerDraft !in disk.files
    ensures At(disk.files, Marker) in {At(old(disk.files), Marker), Some(File(text))}
    ensures SameExcept(old(disk.files), disk.files, iset{Marker, MarkerDraft})
  {
    s := disk.Write(MarkerDraft, File(text));
    if s == Done {
      s := disk.Rename(MarkerDraft, Marker);
    }
  }

  /** The database that is in place or on its way: an in-place legacy file wins over one already moved. */
  function Logical(f: Files, suffix: Suffix): Option<Node> {
    if Db(InPlace, suffix) in f then Some(f[Db(InPlace, suffix)]) else At(f, Db(UserData, suffix))
  }

  ghost predicate Renamed(f: Files, g: Files) {
    forall suffix :: At(g, Db(UserData, suffix)) == Logical(f, suffix) && Db(InPlace, suffix) !in g
  }

  ghost predicate RenamePending(f: Files, g: Files) {
    && Db(UserData, Main) !in g && Db(InPlace, Main) in g
    && forall suffix :: Logical(g, suffix) == Logical(f, suffix)
  }

  /** Only the two spellings of the database in the new directory have changed. */
  ghost predicate OnlyDatabase(f: Files, g: Files) {
    forall p: Path | !(p.Db? && (p.at == UserData || p.at == InPlace)) :: At(f, p) == At(g, p)
  }

  /** Moving without removing stale sidecars never loses a file that an interrupted move has moved. */
  lemma MoveKeepsLogical(f: Files, g: Files, n: nat)
    requires n <= 3 && Db(InPlace, Main) in f && Db(UserData, Main) !in f
    requires g == PlacePrefix(f, InPlace, UserData, true, false, n)
    ensures OnlyDatabase(f, g)
    ensures if n == 3 then Renamed(f, g) else RenamePending(f, g)
  {
    forall p: Path ensures At(g, p) == PlacedAt(f, InPlace, UserData, true, false, n, p) {
      PrefixPlaces(f, InPlace, UserData, true, false, n, p);
    }
    forall suffix
      ensures if n == 3 then At(g, Db(UserData, suffix)) == Logical(f, suffix) && Db(InPlace, suffix) !in g
              else Logical(g, suffix) == Logical(f, suffix)
    {
      assert At(g, Db(InPlace, suffix)) == PlacedAt(f, InPlace, UserData, true, false, n, Db(InPlace, suffix));
      assert At(g, Db(UserData, suffix)) == PlacedAt(f, InPlace, UserData, true, false, n, Db(UserData, suffix));
    }
    assert At(g, Db(InPlace, Main)) == PlacedAt(f, InPlace, UserData, true, false, n, Db(InPlace, Main));
    assert At(g, Db(UserData, Main)) == PlacedAt(f, InPlace, UserData, true, false, n, Db(UserData, Main));
  }

  method RenameInPlace(disk: Disk) returns (alive: bool)
    requires Db(InPlace, Main) in disk.files && Db(UserData, Main) !in disk.files
    modifies disk
    ensures disk.faults >= old(disk.faults) && (!alive ==> disk.faults > old(disk.faults))
    ensures OnlyDatabase(old(disk.files), disk.files)
    ensures Renamed(old(disk.files), disk.files) || (!alive && RenamePending(old(disk.files), disk.files))
  {
    ghost var f := disk.files;
    var s := PlaceDatabase(disk, InPlace, UserData, true, false);
    alive := s == Done;
    ghost var n :| 0 <= n <= 3 && disk.files == PlacePrefix(f, InPlace, UserData, true, false, n);
    MoveKeepsLogical(f, disk.files, if alive then 3 else n);
  }

  ghost predicate OnlyMarker(f: Files, g: Files) {
    forall p: Path | !p.Marker? && !p.MarkerDraft? :: At(f, p) == At(g, p)
  }

  /** A launch that found only the in-place legacy database; `h` is what it wrote the marker over. */
  ghost predicate RenameLaunch(f: Files, h: Files, g: Files, finished: bool) {
    && OnlyDatabase(f, h) && OnlyMarker(h, g)
    && (Renamed(f, h) || (!finished && RenamePending(f, h) && g == h))
  }

  /** A launch that copied from `source`; `h` is what it wrote the marker over. */
  ghost predicate CopyLaunch(
      f: Files, h: Files, g: Files, source: string, newRoot: string, finished: bool, failed: seq<string>)
  {
    && CopyProgress(f, h, source, newRoot, failed) && OnlyMarker(h, g)
    && (Db(UserData, Main) !in h ==> !finished && g == h)
    && (finished ==> forall p: Path | IsStaging(p) :: p !in h)
  }

  /** What any launch, finished or not, makes of the files `f` it found. */
  ghost predicate Launched(f: Files, g: Files, newRoot: string, dirs: seq<string>, finished: bool, report: Report) {
    if Db(UserData, Main) in f then
      OnlyMarker(f, g) && (Marker in f ==> g == f)
    else if Db(InPlace, Main) in f then
      exists h :: RenameLaunch(f, h, g, finished)
    else if Marker in f then g == f
    else match Source(f, newRoot, dirs)
      case None => OnlyMarker(f, g)
      case Some(source) => exists h :: CopyLaunch(f, h, g, source, newRoot, finished, report.failed)
  }

  /** The outcome a finished launch reports. */
  function Expected(f: Files, newRoot: string, dirs: seq<string>): Outcome {
    if Marker in f then AlreadyMigrated
    else if Db(UserData, Main) in f || Db(InPlace, Main) in f then ExistingDatabase
    else if Source(f, newRoot, dirs).None? then FreshInstall
    else Copied
  }

  /** A finished launch that copied reports each entry it tried, and the database last; others report none. */
  ghost predicate ReportTells(f: Files, g: Files, report: Report) {
    if report.outcome == Copied then
      && report.source.Some? && report.copied != [] && report.copied[|report.copied| - 1] == DB_FILE_NAME
      && EntriesReported(f, g, report.source.value, report.copied[..|report.copied| - 1], report.failed)
    else report.copied == [] && report.failed == []
  }

  /**
   `migrateAppIdentity`; a launch that is not `finished` died or threw. One in which every call
   completes finishes, and fails to copy nothing.
   */
  method Migrate(disk: Disk, newRoot: string, dirs: seq<string>) returns (finished: bool, report: Report)
    requires forall d | d in dirs :: d != ""
    modifies disk
    ensures Launched(old(disk.files), disk.files, newRoot, dirs, finished, report)
    ensures finished ==> Marker in disk.files && report.outcome == Expected(old(disk.files), newRoot, dirs)
    ensures finished ==>
              (report.renamedInPlace <==>
                 Db(UserData, Main) !in old(disk.files) && Db(InPlace, Main) in old(disk.files))
    ensures report.outcome == Copied ==> report.source == Source(old(disk.files), newRoot, dirs)
    ensures disk.faults == old(disk.faults) ==> finished && report.failed == []
    ensures finished ==> ReportTells(old(disk.files), disk.files, report)
  {
    var text: string := *;
    finished := false;
    report := Report(AlreadyMigrated, false, None, [], []);
    ghost var f := disk.files;
    var newDb := disk.Exists(Db(UserData, Main));
    var oldDb := disk.Exists(Db(InPlace, Main));
    if !newDb && oldDb {
      var alive := RenameInPlace(disk);
      if !alive {
        assert RenameLaunch(f, disk.files, disk.files, false);
        return;
      }
      report := report.(renamedInPlace := true);
    }
    ghost var h := disk.files;
    assert At(f, Marker) == At(h, Marker);
    assert At(h, Db(UserData, Main)).Some? <==> newDb || oldDb;
    var marked := disk.Exists(Marker);
    if marked {
      assert !newDb && oldDb ==> RenameLaunch(f, h, disk.files, true);
      return true, report;
    }
    newDb := disk.Exists(Db(UserData, Main));
    if newDb {
      report := report.(outcome := ExistingDatabase);
      var s := WriteMarker(disk, text);
      assert OnlyMarker(h, disk.files);
      assert h != f ==> RenameLaunch(f, h, disk.files, s == Done);
      return s == Done, report;
    }
    var source := FindSource(disk, newRoot, dirs);
    if source.None? {
      report := report.(outcome := FreshInstall);
      var s := WriteMarker(disk, text);
      return s == Done, report;
    }
    var alive, copied, failed := CopyFrom(disk, source.value, newRoot);
    report := Report(Copied, false, source, copied + [DB_FILE_NAME], failed);
    h := disk.files;
    if !alive {
      assert CopyLaunch(f, h, h, source.value, newRoot, false, failed);
      return;
    }
    var s := WriteMarker(disk, text);
    finished := s == Done;
    ReportCarries(f, f, h, disk.files, source.value, copied, failed);
    assert report.copied[..|report.copied| - 1] == copied;
    assert CopyLaunch(f, h, disk.files, source.value, newRoot, finished, failed);
  }
}
