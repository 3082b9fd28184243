/**
 Git keeps absolute paths in two small files: the `.git` file of a worktree and the `gitdir`
 file of the repository's record of it. app-identity-migration.ts points both at the copied
 directory. Paths are lists of names; contents are text.
 */
module GitPointers {
  import opened Wrappers

  const MAX_DEPTH: nat := 6
  const MAX_SIZE: nat := 4096

  datatype Node = File(content: string) | Directory(entries: Listing) | Other

  datatype Listing = End | Item(name: string, node: Node, rest: Listing)

  // ---------------------------------------------------------------- replacing text

  /** `s.split(from).join(to)`. */
  function ReplaceAll(s: string, from: string, to: string): string
    requires from != ""
  {
    if |s| < |from| then s
    else if s[..|from|] == from then to + ReplaceAll(s[|from|..], from, to)
    else [s[0]] + ReplaceAll(s[1..], from, to)
  }

  ghost predicate OccursAt(s: string, from: string, i: nat) {
    i + |from| <= |s| && s[i..i + |from|] == from
  }

  /** `from` occurs in `s` at position `k` and nowhere else. */
  ghost predicate OccursOnlyAt(s: string, from: string, k: nat) {
    OccursAt(s, from, k) && forall i: nat | OccursAt(s, from, i) :: i == k
  }

  lemma OccursInSuffix(s: string, from: string, n: nat, i: nat)
    requires n <= |s|
    ensures OccursAt(s[n..], from, i) <==> OccursAt(s, from, n + i)
  {
    if n + i + |from| <= |s| {
      assert s[n..][i..i + |from|] == s[n + i..n + i + |from|];
    }
  }

  lemma {:induction false} ReplaceAbsent(s: string, from: string, to: string)
    requires from != "" && forall i: nat :: !OccursAt(s, from, i)
    ensures ReplaceAll(s, from, to) == s
  {
    if |s| >= |from| {
      assert !OccursAt(s, from, 0);
      forall i: nat ensures !OccursAt(s[1..], from, i) {
        OccursInSuffix(s, from, 1, i);
      }
      ReplaceAbsent(s[1..], from, to);
    }
  }

  /** A single occurrence is replaced in place, whatever the replacement contains. */
  lemma {:induction false} ReplaceOnly(s: string, from: string, to: string, k: nat)
    requires from != "" && OccursOnlyAt(s, from, k)
    ensures ReplaceAll(s, from, to) == s[..k] + to + s[k + |from|..]
  {
    if k == 0 {
      forall i: nat ensures !OccursAt(s[|from|..], from, i) {
        OccursInSuffix(s, from, |from|, i);
      }
      ReplaceAbsent(s[|from|..], from, to);
    } else {
      assert !OccursAt(s, from, 0);
      forall i: nat ensures OccursAt(s[1..], from, i) <==> i == k - 1 {
        OccursInSuffix(s, from, 1, i);
      }
      ReplaceOnly(s[1..], from, to, k - 1);
      assert s == [s[0]] + s[1..];
      assert s[1..][..k - 1] == s[1..k] && s[1..][k - 1 + |from|..] == s[k + |from|..];
      assert s[..k] == [s[0]] + s[1..k];
    }
  }

  // ---------------------------------------------------------------- the walk

  predicate EndsWith(s: string, suffix: string) {
    |suffix| <= |s| && s[|s| - |suffix|..] == suffix
  }

  /** The two kinds of pointer file; `dir` is the path of the directory that holds it. */
  predicate IsPointer(dir: seq<string>, name: string) {
    || name == ".git"
    || (name == "gitdir" && |dir| >= 2 && dir[|dir| - 2] == "worktrees")
  }

  /** Inside a bare repository the walk only descends into `worktrees`. */
  predicate Descends(dir: seq<string>, name: string) {
    !(|dir| > 0 && EndsWith(dir[|dir| - 1], ".git") && name != "worktrees")
  }

  /** `visitGitPointerFiles` with the callback of `rewriteGitPointers`, on the directory `dir`. */
  function RewriteListing(l: Listing, dir: seq<string>, depth: nat, from: string, to: string): Listing
    requires from != ""
    decreases l, 1
  {
    if depth > MAX_DEPTH then l
    else match l
      case End => End
      case Item(name, node, rest) =>
        Item(name, RewriteNode(name, node, dir, depth, from, to), RewriteListing(rest, dir, depth, from, to))
  }

  function RewriteNode(name: string, node: Node, dir: seq<string>, depth: nat, from: string, to: string): Node
    requires from != ""
    decreases node, 0
  {
    if name == "node_modules" then node
    else match node
      case File(content) =>
        if IsPointer(dir, name) && |content| < MAX_SIZE then File(ReplaceAll(content, from, to)) else node
      case Directory(entries) =>
        if Descends(dir, name) then Directory(RewriteListing(entries, dir + [name], depth + 1, from, to)) else node
      case Other => node
  }

  /** `rewriteGitPointers` on a copied entry; a plain file cannot be listed and stays as it is. */
  function Rewrite(root: Node, path: seq<string>, from: string, to: string): Node
    requires from != ""
  {
    match root
    case Directory(entries) => Directory(RewriteListing(entries, path, 0, from, to))
    case _ => root
  }

  // ---------------------------------------------------------------- what the walk changes

  function FindItem(l: Listing, name: string): Option<Node> {
    match l
    case End => None
    case Item(n, node, rest) => if n == name then Some(node) else FindItem(rest, name)
  }

  /** The node at `path` below `root`. */
  function Lookup(root: Node, path: seq<string>): Option<Node>
    decreases |path|
  {
    if path == [] then Some(root)
    else match root
      case Directory(entries) =>
        (match FindItem(entries, path[0])
         case None => None
         case Some(node) => Lookup(node, path[1..]))
      case _ => None
  }

  /** The walk that starts in `dir` at `depth` reaches the file at `path` and takes it for a pointer. */
  predicate Reaches(dir: seq<string>, depth: nat, path: seq<string>)
    decreases |path|
  {
    && path != [] && depth <= MAX_DEPTH && path[0] != "node_modules"
    && if |path| == 1 then IsPointer(dir, path[0])
       else Descends(dir, path[0]) && Reaches(dir + [path[0]], depth + 1, path[1..])
  }

  lemma {:induction false} FindRewritten(
      l: Listing, name: string, dir: seq<string>, depth: nat, from: string, to: string)
    requires from != "" && depth <= MAX_DEPTH
    ensures FindItem(RewriteListing(l, dir, depth, from, to), name) ==
            match FindItem(l, name)
            case None => None
            case Some(node) => Some(RewriteNode(name, node, dir, depth, from, to))
  {
    match l
    case End =>
    case Item(n, node, rest) =>
      if n != name {
        FindRewritten(rest, name, dir, depth, from, to);
      }
  }

  /**
   The exact effect of the rewrite on every file: a pointer file the walk reaches and that is
   small has every occurrence of the old root replaced; every other file keeps its content.
   */
  lemma {:induction false} RewrittenFile(
      root: Node, dir: seq<string>, depth: nat, path: seq<string>, from: string, to: string)
    requires from != "" && root.Directory? && path != []
    ensures var before := Lookup(root, path);
            var after := Lookup(Directory(RewriteListing(root.entries, dir, depth, from, to)), path);
            && (before.None? <==> after.None?)
            && (before.Some? && before.value.File? ==>
                  after == Some(File(if Reaches(dir, depth, path) && |before.value.content| < MAX_SIZE
                                     then ReplaceAll(before.value.content, from, to)
                                     else before.value.content)))
            && (before.Some? && !before.value.File? ==>
                  after.Some? && !after.value.File? && after.value.Directory? == before.value.Directory?)
    decreases |path|
  {
    if depth <= MAX_DEPTH {
      var name := path[0];
      FindRewritten(root.entries, name, dir, depth, from, to);
      var item := FindItem(root.entries, name);
      if item.Some? && item.value.Directory? && name != "node_modules" && Descends(dir, name) {
        var entries := item.value.entries;
        if |path| > 1 {
          RewrittenFile(item.value, dir + [name], depth + 1, path[1..], from, to);
        }
      }
    }
  }

  // ---------------------------------------------------------------- worktrees

  /** The names of `path`, each after a slash; appended to a root it is the full path. */
  function Below(path: seq<string>): string {
    if path == [] then "" else Below(path[..|path| - 1]) + "/" + path[|path| - 1]
  }

  const GITDIR := "gitdir: "

  function WorktreePointer(root: string, admin: seq<string>): string {
    GITDIR + root + (Below(admin) + "\n")
  }

  function RepositoryPointer(root: string, worktree: seq<string>): string {
    "" + root + (Below(worktree + [".git"]) + "\n")
  }

  /** The old root occurs in a pointer only where the path starts. */
  ghost predicate RootOnlyPrefix(root: string, admin: seq<string>, worktree: seq<string>) {
    && OccursOnlyAt(WorktreePointer(root, admin), root, |GITDIR|)
    && OccursOnlyAt(RepositoryPointer(root, worktree), root, 0)
  }

  lemma PrefixMoves(before: string, root: string, newRoot: string, after: string)
    requires root != "" && OccursOnlyAt(before + root + after, root, |before|)
    ensures ReplaceAll(before + root + after, root, newRoot) == before + newRoot + after
  {
    var s := before + root + after;
    ReplaceOnly(s, root, newRoot, |before|);
    assert s[..|before|] == before && s[|before| + |root|..] == after;
  }

  lemma PointersMove(root: string, newRoot: string, admin: seq<string>, worktree: seq<string>)
    requires root != "" && RootOnlyPrefix(root, admin, worktree)
    ensures ReplaceAll(WorktreePointer(root, admin), root, newRoot) == WorktreePointer(newRoot, admin)
    ensures ReplaceAll(RepositoryPointer(root, worktree), root, newRoot) == RepositoryPointer(newRoot, worktree)
  {
    PrefixMoves(GITDIR, root, newRoot, Below(admin) + "\n");
    PrefixMoves("", root, newRoot, Below(worktree + [".git"]) + "\n");
  }

  /**
   The worktree at `worktree` (a path in the entry tree `trees[worktree[0]]`) and the record
   of it at `admin` name each other under `root`.
   */
  ghost predicate Linked(trees: map<string, Node>, root: string, worktree: seq<string>, admin: seq<string>) {
    && worktree != [] && admin != [] && worktree[0] in trees && admin[0] in trees
    && Lookup(trees[worktree[0]], worktree[1..] + [".git"]) == Some(File(WorktreePointer(root, admin)))
    && Lookup(trees[admin[0]], admin[1..] + ["gitdir"]) == Some(File(RepositoryPointer(root, worktree)))
  }

  /** Every carried-over entry, rewritten as the copy of it is. */
  function RewriteTrees(trees: map<string, Node>, staging: string, from: string, to: string): map<string, Node>
    requires from != ""
  {
    map name | name in trees :: Rewrite(trees[name], [staging, name], from, to)
  }

  /** Both pointer files are reached by the walk and small enough to be rewritten. */
  ghost predicate PointersVisited(staging: string, root: string, worktree: seq<string>, admin: seq<string>)
    requires worktree != [] && admin != []
  {
    && Reaches([staging, worktree[0]], 0, worktree[1..] + [".git"])
    && Reaches([staging, admin[0]], 0, admin[1..] + ["gitdir"])
    && |WorktreePointer(root, admin)| < MAX_SIZE && |RepositoryPointer(root, worktree)| < MAX_SIZE
  }

  /** A worktree and its repository that named each other under the old root do so under the new one. */
  lemma LinkedAfterMove(trees: map<string, Node>, staging: string, root: string, newRoot: string,
                        worktree: seq<string>, admin: seq<string>)
    requires root != "" && Linked(trees, root, worktree, admin)
    requires RootOnlyPrefix(root, admin, worktree) && PointersVisited(staging, root, worktree, admin)
    ensures Linked(RewriteTrees(trees, staging, root, newRoot), newRoot, worktree, admin)
  {
    PointersMove(root, newRoot, admin, worktree);
    RewrittenFile(trees[worktree[0]], [staging, worktree[0]], 0, worktree[1..] + [".git"], root, newRoot);
    RewrittenFile(trees[admin[0]], [staging, admin[0]], 0, admin[1..] + ["gitdir"], root, newRoot);
  }

  lemma DifferentRootsDiffer(before: string, root: string, newRoot: string, after: string)
    requires before + root + after == before + newRoot + after
    ensures root == newRoot
  {
    assert (before + root + after)[|before|..|before| + |root|] == root;
    assert (before + newRoot + after)[|before|..|before| + |newRoot|] == newRoot;
  }

  /**
   The pair still names each other after the move if and only if the walk visits both pointer
   files: a pointer it misses keeps the old root.
   */
  lemma LinkedExactlyWhenVisited(trees: map<string, Node>, staging: string, root: string, newRoot: string,
                                 worktree: seq<string>, admin: seq<string>)
    requires root != "" && root != newRoot && Linked(trees, root, worktree, admin)
    requires RootOnlyPrefix(root, admin, worktree)
    ensures Linked(RewriteTrees(trees, staging, root, newRoot), newRoot, worktree, admin)
            <==> PointersVisited(staging, root, worktree, admin)
  {
    if PointersVisited(staging, root, worktree, admin) {
      LinkedAfterMove(trees, staging, root, newRoot, worktree, admin);
    } else {
      RewrittenFile(trees[worktree[0]], [staging, worktree[0]], 0, worktree[1..] + [".git"], root, newRoot);
      RewrittenFile(trees[admin[0]], [staging, admin[0]], 0, admin[1..] + ["gitdir"], root, newRoot);
      if WorktreePointer(root, admin) == WorktreePointer(newRoot, admin) {
        DifferentRootsDiffer(GITDIR, root, newRoot, Below(admin) + "\n");
      }
      if RepositoryPointer(root, worktree) == RepositoryPointer(newRoot, worktree) {
        DifferentRootsDiffer("", root, newRoot, Below(worktree + [".git"]) + "\n");
      }
    }
  }

  /** The walk gets through `outer` to `inner`: below a directory named `*.git` it only enters `worktrees`. */
  predicate GetsThrough(outer: string, inner: string) {
    && outer != "node_modules" && inner != "node_modules"
    && (EndsWith(outer, ".git") ==> inner == "worktrees")
  }

  lemma ReachesTwoBelow(staging: string, entry: string, a: string, b: string)
    requires !EndsWith(entry, ".git")
    ensures Reaches([staging, entry], 0, [a, b, ".git"]) <==> GetsThrough(a, b)
  {
    var dir := [staging, entry];
    assert [a, b, ".git"][1..] == [b, ".git"] && [b, ".git"][1..] == [".git"];
    assert Reaches(dir + [a] + [b], 2, [".git"]);
    assert Reaches(dir + [a], 1, [b, ".git"]) <==> Descends(dir + [a], b) && b != "node_modules";
  }

  lemma ReachesRecord(staging: string, entry: string, org: string, repo: string, name: string)
    requires !EndsWith(entry, ".git")
    ensures Reaches([staging, entry], 0, [org, repo, "worktrees", name, "gitdir"])
            <==> GetsThrough(org, repo) && name != "node_modules"
  {
    var dir := [staging, entry];
    var p := [org, repo, "worktrees", name, "gitdir"];
    assert p[1..] == [repo, "worktrees", name, "gitdir"] && p[1..][1..] == ["worktrees", name, "gitdir"];
    assert p[1..][1..][1..] == [name, "gitdir"] && p[1..][1..][1..][1..] == ["gitdir"];
    assert !EndsWith("worktrees", ".git");
    assert Reaches(dir + [org] + [repo] + ["worktrees"] + [name], 4, ["gitdir"]);
    assert Reaches(dir + [org] + [repo] + ["worktrees"], 3, [name, "gitdir"]) <==> name != "node_modules";
    assert Reaches(dir + [org] + [repo], 2, ["worktrees", name, "gitdir"]) <==> name != "node_modules";
    assert Reaches(dir + [org], 1, [repo, "worktrees", name, "gitdir"])
      <==> repo != "node_modules" && Descends(dir + [org], repo) && name != "node_modules";
  }

  /**
   In the documented layout, `workspaces/<task>/<repo>` and `repos/<org>/<repo>.git`, the pair
   still names each other after the move if and only if no directory on the way is called
   `node_modules`, a task or organisation directory that ends in `.git` is followed by
   `worktrees`, and both pointers are small.
   */
  lemma DocumentedLayoutMoves(trees: map<string, Node>, staging: string, root: string, newRoot: string,
                              task: string, checkout: string, org: string, repo: string, name: string)
    requires var worktree := ["workspaces", task, checkout]; var admin := ["repos", org, repo, "worktrees", name];
             && root != "" && root != newRoot
             && Linked(trees, root, worktree, admin) && RootOnlyPrefix(root, admin, worktree)
    ensures var worktree := ["workspaces", task, checkout]; var admin := ["repos", org, repo, "worktrees", name];
            Linked(RewriteTrees(trees, staging, root, newRoot), newRoot, worktree, admin)
            <==>
            && GetsThrough(task, checkout) && GetsThrough(org, repo) && name != "node_modules"
            && |WorktreePointer(root, admin)| < MAX_SIZE && |RepositoryPointer(root, worktree)| < MAX_SIZE
  {
    var worktree := ["workspaces", task, checkout];
    var admin := ["repos", org, repo, "worktrees", name];
    assert worktree[1..] + [".git"] == [task, checkout, ".git"];
    assert admin[1..] + ["gitdir"] == [org, repo, "worktrees", name, "gitdir"];
    assert !EndsWith("workspaces", ".git") && !EndsWith("repos", ".git");
    ReachesTwoBelow(staging, "workspaces", task, checkout);
    ReachesRecord(staging, "repos", org, repo, name);
    LinkedExactlyWhenVisited(trees, staging, root, newRoot, worktree, admin);
  }

  /** With a task directory named `*.git` the walk never sees the worktree pointer below it. */
  lemma GitNamedTaskIsMissed(staging: string, task: string, checkout: string)
    requires EndsWith(task, ".git") && checkout != "worktrees"
    ensures !Reaches([staging, "workspaces"], 0, [task, checkout, ".git"])
  {
    var dir := [staging, "workspaces"];
    assert [task, checkout, ".git"][1..] == [checkout, ".git"];
    assert !Descends(dir + [task], checkout);
    assert !Reaches(dir + [task], 1, [checkout, ".git"]);
  }
}
