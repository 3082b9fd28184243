/**
 Which files the pointer rewrite of app-identity-migration.ts touches, and what it does to them: told
 by the file's own path and content, and by splitting text at the old root.
 */
module GitPointerFiles {
  import opened Wrappers
  import opened GitPointers

  // ---------------------------------------------------------------- paths

  predicate GitNamed(name: string) {
    |name| >= 4 && name[|name| - 4..] == ".git"
  }

  /** The last of these names is a pointer file's, in the right place. */
  predicate NamesPointer(names: seq<string>)
    requires names != []
  {
    var last := names[|names| - 1];
    last == ".git" || (last == "gitdir" && |names| >= 3 && names[|names| - 3] == "worktrees")
  }

  /** No name from the `first` on is skipped: below a directory named `*.git` only `worktrees` is entered. */
  predicate Passable(names: seq<string>, first: nat) {
    && (forall k | first <= k < |names| :: names[k] != "node_modules")
    && (forall k {:trigger names[k]} | first <= k < |names| - 1 && k > 0 && GitNamed(names[k - 1]) ::
          names[k] == "worktrees")
  }

  /** A pointer file whose directory is at most six levels below the start `dir`, with nothing skipped on the way. */
  predicate WithinReach(dir: seq<string>, depth: nat, path: seq<string>) {
    path != [] && depth + |path| <= 7 && NamesPointer(dir + path) && Passable(dir + path, |dir|)
  }

  lemma OneNameLess(names: seq<string>, first: nat)
    requires first < |names| - 1
    ensures Passable(names, first) <==>
            && names[first] != "node_modules"
            && (first > 0 && GitNamed(names[first - 1]) ==> names[first] == "worktrees")
            && Passable(names, first + 1)
  {
  }

  /** The walk takes exactly these files for pointers. */
  lemma {:induction false} ReachesExactly(dir: seq<string>, depth: nat, path: seq<string>)
    ensures Reaches(dir, depth, path) <==> WithinReach(dir, depth, path)
    decreases |path|
  {
    if path != [] {
      var names := dir + path;
      assert names[|dir|] == path[0];
      if |dir| > 0 {
        assert names[|dir| - 1] == dir[|dir| - 1];
      }
      if |path| == 1 {
        if |dir| >= 2 {
          assert names[|dir| - 2] == dir[|dir| - 2];
        }
      } else {
        assert (dir + [path[0]]) + path[1..] == names;
        ReachesExactly(dir + [path[0]], depth + 1, path[1..]);
        OneNameLess(names, |dir|);
      }
    }
  }

  /** A file of the tree before or after the rewrite. */
  predicate HasFile(root: Node, path: seq<string>, content: string) {
    Lookup(root, path) == Some(File(content))
  }

  /**
   A file changes only if it is a pointer file by its name and place, shorter than 4096 and at most
   seven names below the entry, with no `node_modules` on its way; and then the old root is replaced.
   Any other file is left as it was, and so is which names there are.
   */
  lemma OnlyPointersChange(root: Node, dir: seq<string>, path: seq<string>, content: string, from: string, to: string)
    requires from != "" && path != [] && HasFile(root, path, content)
    ensures var now := if WithinReach(dir, 0, path) && |content| < 4096 then ReplaceAll(content, from, to) else content;
            HasFile(Rewrite(root, dir, from, to), path, now)
    ensures Lookup(Rewrite(root, dir, from, to), path) != Lookup(root, path) ==>
              && var names, last := dir + path, path[|path| - 1];
              && (last == ".git" || (last == "gitdir" && |names| >= 3 && names[|names| - 3] == "worktrees"))
              && "node_modules" !in path && |content| < 4096 && |path| <= 7
  {
    RewrittenFile(root, dir, 0, path, from, to);
    ReachesExactly(dir, 0, path);
    if "node_modules" in path {
      var k :| 0 <= k < |path| && path[k] == "node_modules";
      assert (dir + path)[|dir| + k] == path[k];
    }
  }

  /** The rewrite adds and removes no file and no directory. */
  lemma TreeKeepsItsShape(root: Node, dir: seq<string>, path: seq<string>, from: string, to: string)
    requires from != ""
    ensures Lookup(root, path).None? <==> Lookup(Rewrite(root, dir, from, to), path).None?
    ensures Lookup(root, path).Some? ==>
              var before, after := Lookup(root, path).value, Lookup(Rewrite(root, dir, from, to), path).value;
              (before.File? <==> after.File?) && (before.Directory? <==> after.Directory?)
  {
    if path != [] && root.Directory? {
      RewrittenFile(root, dir, 0, path, from, to);
    }
  }

  lemma BelowTwo(a: string, b: string)
    ensures Below([a, b]) == "/" + a + "/" + b
  {
    assert [a, b][..1] == [a] && [a][..0] == [];
    assert Below([a]) == "/" + a;
  }

  /** The two pointers as git writes them, for a worktree and a record two names below the root. */
  lemma PointerTexts(root: string, a: string, b: string)
    ensures WorktreePointer(root, [a, b]) == "gitdir: " + root + ("/" + a + "/" + b + "\n")
    ensures RepositoryPointer(root, [a, b]) == root + ("/" + a + "/" + b + "/.git\n")
  {
    BelowTwo(a, b);
    assert ([a, b] + [".git"])[..2] == [a, b];
    assert Below([a, b] + [".git"]) == Below([a, b]) + "/" + ".git";
  }

  // ---------------------------------------------------------------- splitting and joining

  /** The pieces with `glue` between neighbours. */
  function Glued(pieces: seq<string>, glue: string): string {
    if pieces == [] then ""
    else if |pieces| == 1 then pieces[0]
    else pieces[0] + glue + Glued(pieces[1..], glue)
  }

  /** `from` does not occur before position `n`. */
  ghost predicate Free(s: string, from: string, n: nat) {
    forall i: nat | i < n :: !OccursAt(s, from, i)
  }

  /** The pieces between the occurrences of `from` that a reader finds from left to right. */
  ghost predicate SplitAt(pieces: seq<string>, from: string) {
    && pieces != []
    && Free(pieces[|pieces| - 1], from, |pieces[|pieces| - 1]|)
    && (forall k {:trigger pieces[k]} | 0 <= k < |pieces| - 1 :: Free(pieces[k] + from, from, |pieces[k]|))
  }

  /** `ReplaceAll` splits the text at every occurrence of the old root, and joins the pieces by the new one. */
  lemma {:induction false} ReplaceSplitsAndJoins(s: string, from: string, to: string) returns (pieces: seq<string>)
    requires from != ""
    ensures SplitAt(pieces, from) && s == Glued(pieces, from) && ReplaceAll(s, from, to) == Glued(pieces, to)
  {
    if |s| < |from| {
      pieces := [s];
    } else if s[..|from|] == from {
      var rest := ReplaceSplitsAndJoins(s[|from|..], from, to);
      pieces := [""] + rest;
      assert pieces[1..] == rest && s == from + s[|from|..];
      EmptyPieceFirst(rest, from);
    } else {
      var rest := ReplaceSplitsAndJoins(s[1..], from, to);
      pieces := [[s[0]] + rest[0]] + rest[1..];
      assert pieces[1..] == rest[1..] && s == [s[0]] + s[1..];
      GluedFirst(s[0], rest, from);
      GluedFirst(s[0], rest, to);
      LongerFirstPiece(s, rest, from);
    }
  }

  lemma EmptyPieceFirst(rest: seq<string>, from: string)
    requires SplitAt(rest, from)
    ensures SplitAt([""] + rest, from)
  {
  }

  lemma GluedFirst(c: char, rest: seq<string>, glue: string)
    requires rest != []
    ensures Glued([[c] + rest[0]] + rest[1..], glue) == [c] + Glued(rest, glue)
  {
    var pieces := [[c] + rest[0]] + rest[1..];
    assert pieces[1..] == rest[1..];
    if |rest| > 1 {
      assert [c] + rest[0] + glue + Glued(rest[1..], glue) == [c] + (rest[0] + glue + Glued(rest[1..], glue));
    }
  }

  /** One character more in front: `from` still does not occur, unless it starts there. */
  lemma StillFree(c: char, s: string, from: string, n: nat)
    requires from != "" && Free(s, from, n) && !OccursAt([c] + s, from, 0)
    ensures Free([c] + s, from, n + 1)
  {
    forall i: nat | i < n + 1
      ensures !OccursAt([c] + s, from, i)
    {
      if i > 0 {
        OccursInSuffix([c] + s, from, 1, i - 1);
        assert ([c] + s)[1..] == s;
      }
    }
  }

  lemma FirstPieceFree(s: string, piece: string, more: string, from: string)
    requires from != "" && |s| >= |from| && s[..|from|] != from
    requires s == [s[0]] + (piece + from + more) && Free(piece + from, from, |piece|)
    ensures Free([s[0]] + piece + from, from, |piece| + 1)
  {
    var glued := piece + from;
    assert s[..|from|] == ([s[0]] + glued)[..|from|];
    StillFree(s[0], glued, from, |piece|);
    assert [s[0]] + glued == [s[0]] + piece + from;
  }

  lemma OtherFirstPiece(first: string, rest: seq<string>, from: string)
    requires |rest| > 1 && SplitAt(rest, from) && Free(first + from, from, |first|)
    ensures SplitAt([first] + rest[1..], from)
  {
  }

  lemma LongerFirstPiece(s: string, rest: seq<string>, from: string)
    requires from != "" && |s| >= |from| && s[..|from|] != from
    requires SplitAt(rest, from) && s[1..] == Glued(rest, from)
    ensures SplitAt([[s[0]] + rest[0]] + rest[1..], from)
  {
    assert s == [s[0]] + s[1..];
    if |rest| == 1 {
      StillFree(s[0], rest[0], from, |rest[0]|);
    } else {
      FirstPieceFree(s, rest[0], Glued(rest[1..], from), from);
      OtherFirstPiece([s[0]] + rest[0], rest, from);
    }
  }
}
