/**
  Copying and renaming in a workspace (internal/ass/server.go). The file tree is a flat map from
  paths to nodes, so a copy that writes below what it reads would be visible. File system calls
  always succeed here; what remains are the checks the program makes itself.
*/
module WorkspaceTree {

  /** A path below the workspace root, one name per element; the root itself is []. */
  type Path = seq<string>

  datatype Node = Dir(perm: nat) | File(perm: nat, data: string) | Symlink(target: string) | Special

  type Tree = map<Path, Node>

  function Parent(p: Path): Path
    requires p != []
  {
    p[..|p| - 1]
  }

  /** Every node but the root lies in a directory. */
  ghost predicate WellFormed(fs: Tree)
  {
    && [] in fs && fs[[]].Dir?
    && forall p :: p in fs && p != [] ==> Parent(p) in fs && fs[Parent(p)].Dir?
  }

  predicate Copied(node: Node)
  {
    node.Dir? || node.File?
  }

  lemma {:induction false} AncestorsAreDirs(fs: Tree, p: Path, q: Path)
    requires WellFormed(fs) && q in fs && p < q
    ensures p in fs && fs[p].Dir?
    decreases |q|
  {
    if |q| == |p| + 1 {
      assert Parent(q) == p;
    } else {
      assert p < Parent(q);
      AncestorsAreDirs(fs, p, Parent(q));
    }
  }

  // ----- filepath.Rel

  function CommonPrefix(a: Path, b: Path): (k: nat)
    ensures k <= |a| && k <= |b| && a[..k] == b[..k]
    ensures k < |a| && k < |b| ==> a[k] != b[k]
  {
    if a == [] || b == [] || a[0] != b[0] then 0
    else
      var k := CommonPrefix(a[1..], b[1..]);
      assert a[..k + 1] == [a[0]] + a[1..][..k] && b[..k + 1] == [b[0]] + b[1..][..k];
      k + 1
  }

  /** One ".." for every name to climb out of, then the names to go down; [] stands for ".". */
  function Rel(base: Path, target: Path): Path
  {
    var k := CommonPrefix(base, target);
    seq(|base| - k, i => "..") + target[k..]
  }

  /** The guard of copy and rename: the relative path is neither "." nor begins with "..". */
  predicate Inside(base: Path, target: Path)
  {
    var rel := Rel(base, target);
    rel != [] && rel[0] != ".."
  }

  lemma InsideIsProperPrefix(base: Path, target: Path)
    requires ".." !in target
    ensures Inside(base, target) <==> base < target
  {
    var k := CommonPrefix(base, target);
    if k == |base| {
      assert Rel(base, target) == target[k..] && base == target[..k];
      if k < |target| { assert target[k] in target; }
    } else {
      assert Rel(base, target)[0] == "..";
      assert k < |target| ==> base[k] != target[k];
    }
  }

  // ----- the specification of a copy

  /** The node that belongs at `q`, a path at or below `target`, when `source` is copied there. */
  function Origin(source: Path, target: Path, q: Path): Path
    requires target <= q
  {
    source + q[|target|..]
  }

  ghost predicate InCopy(before: Tree, source: Path, target: Path, q: Path)
  {
    target <= q && Origin(source, target, q) in before && Copied(before[Origin(source, target, q)])
  }

  /** `after` is `before` with a copy of the directories and regular files at and below `source` placed
      at `target`, and nothing else. */
  ghost predicate IsCopy(before: Tree, after: Tree, source: Path, target: Path)
  {
    && (forall q :: q in after <==> q in before || InCopy(before, source, target, q))
    && (forall q :: q in after ==> after[q] == if q in before then before[q] else before[Origin(source, target, q)])
  }

  /** The same for the children already dealt with: `target` itself and the names in `done`. */
  ghost predicate IsPartialCopy(before: Tree, after: Tree, source: Path, target: Path, done: set<string>)
  {
    && (forall q :: q in after <==>
          q in before || (InCopy(before, source, target, q) && (q == target || q[|target|] in done)))
    && (forall q :: q in after ==> after[q] == if q in before then before[q] else before[Origin(source, target, q)])
  }

  /** Where a copy may go: the place is free, its directory exists, and it is not below the source. */
  ghost predicate CanCopy(fs: Tree, source: Path, target: Path)
  {
    && WellFormed(fs) && source in fs && fs[source].Dir? && target != [] && target !in fs
    && Parent(target) in fs && fs[Parent(target)].Dir? && !(source <= target)
  }

  lemma NothingBelowFree(fs: Tree, target: Path, q: Path)
    requires WellFormed(fs) && target !in fs && target <= q
    ensures q !in fs
  {
    if |target| == |q| {
      assert q == target;
    } else if q in fs {
      AncestorsAreDirs(fs, target, q);
    }
  }

  lemma PrefixesCompare(a: Path, b: Path, p: Path)
    requires a <= p && b <= p
    ensures a <= b || b <= a
  {
    assert a == p[..|a|] && b == p[..|b|];
  }

  /** What the copy writes stays out of what it reads. */
  lemma SubtreesApart(fs: Tree, source: Path, target: Path, p: Path)
    requires CanCopy(fs, source, target) && source <= p
    ensures !(target <= p)
  {
    if target <= p {
      PrefixesCompare(source, target, p);
      NothingBelowFree(fs, target, source);
    }
  }

  ghost function Below(fs: Tree, source: Path): set<Path>
  {
    set p | p in fs && source <= p
  }

  lemma PartialStart(before: Tree, source: Path, target: Path)
    requires CanCopy(before, source, target)
    ensures IsPartialCopy(before, before[target := before[source]], source, target, {})
  {
    assert Origin(source, target, target) == source;
    forall q | InCopy(before, source, target, q) ensures q !in before {
      NothingBelowFree(before, target, q);
    }
  }

  /** A child that is not copied: it is a symlink or a special node, and nothing lies below it. */
  lemma PartialSkip(before: Tree, after: Tree, source: Path, target: Path, done: set<string>, name: string)
    requires CanCopy(before, source, target) && IsPartialCopy(before, after, source, target, done)
    requires source + [name] in before && !Copied(before[source + [name]])
    ensures IsPartialCopy(before, after, source, target, done + {name})
  {
    forall q | InCopy(before, source, target, q) && q != target ensures q[|target|] != name {
      var o, child := Origin(source, target, q), source + [q[|target|]];
      assert o[..|child|] == child;
      if |o| > |child| {
        AncestorsAreDirs(before, child, o);
      } else {
        assert o == child;
      }
    }
  }

  /** A child that is copied, as a file or as a directory with all its content. */
  lemma PartialChild(before: Tree, mid: Tree, after: Tree, source: Path, target: Path, done: set<string>, name: string)
    requires CanCopy(before, source, target) && IsPartialCopy(before, mid, source, target, done) && name !in done
    requires source + [name] in before && Copied(before[source + [name]])
    requires IsCopy(mid, after, source + [name], target + [name])
    ensures IsPartialCopy(before, after, source, target, done + {name})
  {
    forall q
      ensures q in after <==>
              q in before || (InCopy(before, source, target, q) && (q == target || q[|target|] in done + {name}))
    {
      ChildPath(before, mid, source, target, done, name, q);
    }
    forall q | q in after ensures after[q] == if q in before then before[q] else before[Origin(source, target, q)] {
      ChildPath(before, mid, source, target, done, name, q);
    }
  }

  lemma ChildPath(before: Tree, mid: Tree, source: Path, target: Path, done: set<string>, name: string, q: Path)
    requires CanCopy(before, source, target) && IsPartialCopy(before, mid, source, target, done) && name !in done
    ensures InCopy(mid, source + [name], target + [name], q) <==>
            InCopy(before, source, target, q) && q != target && q[|target|] == name
    ensures InCopy(mid, source + [name], target + [name], q) ==>
            && Origin(source + [name], target + [name], q) == Origin(source, target, q)
            && q !in before && q !in mid && mid[Origin(source, target, q)] == before[Origin(source, target, q)]
  {
    assert target + [name] <= q <==> target <= q && q != target && q[|target|] == name by {
      if target + [name] <= q { assert q[|target|] == (target + [name])[|target|] && target == q[..|target|]; }
      if target <= q && q != target { assert q[..|target| + 1] == target + [q[|target|]]; }
    }
    if target + [name] <= q {
      var o := Origin(source, target, q);
      assert source + q[|target|..] == source + [name] + q[|target| + 1..];
      SubtreesApart(before, source, target, o);
      NothingBelowFree(before, target, q);
    }
  }

  lemma PartialDone(before: Tree, after: Tree, source: Path, target: Path, names: set<string>)
    requires CanCopy(before, source, target) && IsPartialCopy(before, after, source, target, names)
    requires forall name :: source + [name] in before ==> name in names
    ensures IsCopy(before, after, source, target)
  {
    forall q | InCopy(before, source, target, q) && q != target ensures q[|target|] in names {
      var o, name := Origin(source, target, q), q[|target|];
      assert o[..|source| + 1] == source + [name];
      if |o| > |source| + 1 {
        AncestorsAreDirs(before, source + [name], o);
      } else {
        assert o == source + [name];
      }
    }
  }

  /** A copy of a well-formed tree is well-formed: every directory of the copy is there. */
  lemma CopyIsWellFormed(before: Tree, after: Tree, source: Path, target: Path)
    requires CanCopy(before, source, target) && IsCopy(before, after, source, target)
    ensures WellFormed(after)
  {
    forall p | p in after && p != [] ensures Parent(p) in after && after[Parent(p)].Dir? {
      if p !in before && p != target {
        assert target <= Parent(p);
        var o := Origin(source, target, p);
        assert Parent(o) == Origin(source, target, Parent(p));
        assert o != [] && o in before;
        NothingBelowFree(before, target, Parent(p));
      }
    }
  }

  lemma PartialIsWellFormed(before: Tree, after: Tree, source: Path, target: Path, done: set<string>)
    requires CanCopy(before, source, target) && IsPartialCopy(before, after, source, target, done)
    ensures WellFormed(after)
  {
    forall p | p in after && p != [] ensures Parent(p) in after && after[Parent(p)].Dir? {
      if p !in before && p != target {
        assert target <= Parent(p);
        var o := Origin(source, target, p);
        assert Parent(o) == Origin(source, target, Parent(p));
        assert o != [] && o in before;
        NothingBelowFree(before, target, Parent(p));
        if Parent(p) != target { assert Parent(p)[|target|] == p[|target|]; }
      }
    }
    assert Origin(source, target, target) == source;
    NothingBelowFree(before, target, target);
  }

  // ----- what a copy is

  /** The specification leaves no freedom: two results of the same copy are the same tree. */
  lemma CopyIsDetermined(before: Tree, after: Tree, other: Tree, source: Path, target: Path)
    requires IsCopy(before, after, source, target) && IsCopy(before, other, source, target)
    ensures after == other
  {
    assert forall q :: q in after <==> q in other;
  }

  /** At and below the target there are directories and regular files only, each equal to its origin;
      the source and every other node are as before. */
  lemma CopyIsTheCleanedSource(before: Tree, after: Tree, source: Path, target: Path, rel: Path)
    requires CanCopy(before, source, target) && IsCopy(before, after, source, target)
    ensures target + rel in after <==> source + rel in before && Copied(before[source + rel])
    ensures target + rel in after ==> after[target + rel] == before[source + rel]
    ensures source + rel in after <==> source + rel in before
    ensures source + rel in before ==> after[source + rel] == before[source + rel]
  {
    NothingBelowFree(before, target, target + rel);
    assert (target + rel)[|target|..] == rel;
    assert Origin(source, target, target + rel) == source + rel;
    SubtreesApart(before, source, target, source + rel);
  }

  /** Copying a copy loses nothing more. */
  lemma CopyOfCopy(first: Tree, second: Tree, third: Tree, source: Path, target: Path, last: Path, rel: Path)
    requires CanCopy(first, source, target) && IsCopy(first, second, source, target)
    requires CanCopy(second, target, last) && IsCopy(second, third, target, last)
    ensures last + rel in third <==> target + rel in second
    ensures last + rel in third ==> third[last + rel] == second[target + rel]
  {
    CopyIsTheCleanedSource(first, second, source, target, rel);
    CopyIsTheCleanedSource(second, third, target, last, rel);
  }

  // ----- renaming

  function Relocate(p: Path, source: Path, target: Path): Path
  {
    if source <= p then target + p[|source|..] else p
  }

  /** `os.Rename`: everything at and below `source` is found at and below `target` instead, and every
      node comes from the place that maps to it. */
  ghost predicate IsMove(before: Tree, after: Tree, source: Path, target: Path)
  {
    && (forall p :: p in before ==>
          Relocate(p, source, target) in after && after[Relocate(p, source, target)] == before[p])
    && (forall q :: q in after ==> Relocate(q, target, source) in before
                                   && Relocate(Relocate(q, target, source), source, target) == q)
  }

  function Move(fs: Tree, source: Path, target: Path): (after: Tree)
    requires WellFormed(fs) && source in fs && target !in fs
    ensures IsMove(fs, after, source, target)
  {
    NoTwoMeet(fs, source, target);
    var after := map p | p in fs :: Relocate(p, source, target) := fs[p];
    MovedTree(fs, after, source, target);
    after
  }

  lemma MovedTree(fs: Tree, after: Tree, source: Path, target: Path)
    requires WellFormed(fs) && source in fs && target !in fs
    requires forall p :: p in fs ==> Relocate(p, source, target) in after && after[Relocate(p, source, target)] == fs[p]
    requires forall q :: q in after ==> exists p :: p in fs && Relocate(p, source, target) == q
    ensures IsMove(fs, after, source, target)
  {
    forall q | q in after
      ensures Relocate(q, target, source) in fs && Relocate(Relocate(q, target, source), source, target) == q
    {
      var p :| p in fs && Relocate(p, source, target) == q;
      MovedAndBack(fs, source, target, p);
    }
  }

  /** What was at and below the source is at and below the target, nothing is left at the source, and every
      other node is where it was. */
  lemma MoveIsTheSubtree(before: Tree, after: Tree, source: Path, target: Path, rel: Path)
    requires WellFormed(before) && source in before && target !in before && !(source <= target)
    requires IsMove(before, after, source, target)
    ensures target + rel in after <==> source + rel in before
    ensures source + rel in before ==> after[target + rel] == before[source + rel]
    ensures source + rel !in after
    ensures forall p :: !(source <= p) && !(target <= p) ==> (p in after <==> p in before)
    ensures forall p :: !(source <= p) && p in before ==> p in after && after[p] == before[p]
  {
    assert (source + rel)[|source|..] == rel && (target + rel)[|target|..] == rel;
    assert Relocate(source + rel, source, target) == target + rel;
    assert Relocate(target + rel, target, source) == source + rel;
    if target <= source + rel {
      PrefixesCompare(source, target, source + rel);
      NothingBelowFree(before, target, source);
    }
    forall p | !(source <= p) ensures Relocate(p, source, target) == p { }
    forall p | !(target <= p) ensures Relocate(p, target, source) == p { }
  }

  /** Renaming there and back restores the tree. */
  lemma RenameBack(first: Tree, second: Tree, third: Tree, source: Path, target: Path)
    requires WellFormed(first) && source in first && target !in first
    requires IsMove(first, second, source, target) && IsMove(second, third, target, source)
    ensures third == first
  {
    forall p | p in first ensures p in third && third[p] == first[p] {
      MovedAndBack(first, source, target, p);
      assert Relocate(p, source, target) in second;
    }
    forall q | q in third ensures q in first {
      var m := Relocate(q, source, target);
      assert m in second && Relocate(m, target, source) == q;
    }
  }

  /** The directory of a node that a rename brought below the target. */
  lemma ParentOfMoved(source: Path, target: Path, p: Path)
    requires target < p
    ensures var o := source + p[|target|..];
            o != [] && Relocate(Parent(o), source, target) == Parent(p)
  {
    var o := source + p[|target|..];
    assert target <= Parent(p) && Parent(o) == source + Parent(p)[|target|..];
    assert Parent(o)[|source|..] == Parent(p)[|target|..];
  }

  /** A path that is not at or below the source stays, and its directory does too. */
  lemma ParentOfUnmoved(source: Path, target: Path, p: Path)
    requires p != [] && !(source <= p)
    ensures Relocate(Parent(p), source, target) == Parent(p)
  {
  }

  lemma MovedParent(fs: Tree, after: Tree, source: Path, target: Path, p: Path)
    requires WellFormed(fs) && source in fs && source != [] && IsMove(fs, after, source, target)
    requires target != [] && target !in fs && Parent(target) in fs && fs[Parent(target)].Dir? && !(source <= target)
    requires p in after && p != []
    ensures Parent(p) in after && after[Parent(p)].Dir?
  {
    var o := Relocate(p, target, source);
    assert o in fs && Relocate(o, source, target) == p;
    if target <= p && |target| == |p| {
      assert p == target;
      assert !(source <= Parent(target));
      assert Relocate(Parent(target), source, target) == Parent(target);
    } else if target <= p {
      ParentOfMoved(source, target, p);
    } else {
      ParentOfUnmoved(source, target, p);
    }
  }

  /** A rename keeps every node in a directory; this is what the "not into itself" check is for. */
  lemma MoveKeepsWellFormed(fs: Tree, after: Tree, source: Path, target: Path)
    requires WellFormed(fs) && source in fs && source != [] && IsMove(fs, after, source, target)
    requires target != [] && target !in fs && Parent(target) in fs && fs[Parent(target)].Dir? && !(source <= target)
    ensures WellFormed(after)
  {
    assert Relocate([], source, target) == [];
    forall p | p in after && p != [] ensures Parent(p) in after && after[Parent(p)].Dir? {
      MovedParent(fs, after, source, target, p);
    }
  }

  lemma MovedAndBack(fs: Tree, source: Path, target: Path, p: Path)
    requires WellFormed(fs) && source in fs && target !in fs && p in fs
    ensures Relocate(Relocate(p, source, target), target, source) == p
  {
    if source <= p {
      var m := target + p[|source|..];
      assert m[|target|..] == p[|source|..] && source + p[|source|..] == p;
    } else if target <= p {
      NothingBelowFree(fs, target, p);
    }
  }

  // ----- the workspace

  datatype Error = PathExists | PathNotFound | NotDirectory | PathInvalid

  datatype Result = Ok | Err(error: Error)

  /** What resolving the directory part of a path gave: symlinks are followed by the operating system,
      so the answer is a real path, missing, or outside of the workspace. */
  datatype Resolved = Real(path: Path) | Missing | Escapes

  predicate GoodParent(fs: Tree, parent: Resolved)
  {
    parent.Real? ==> parent.path in fs && !fs[parent.path].Symlink?
  }

  /** `resolveWritableParent` without creating directories. */
  function ParentError(fs: Tree, parent: Resolved): Result
    requires GoodParent(fs, parent)
  {
    match parent
    case Missing => Err(PathNotFound)
    case Escapes => Err(PathInvalid)
    case Real(path) => if fs[path].Dir? then Ok else Err(NotDirectory)
  }

  /** What `copyPath` answers: the first check that fails, in the order in which it makes them. */
  function CopyAnswer(fs: Tree, oldName: Path, newName: Path, oldParent: Resolved, newParent: Resolved): Result
    requires oldName != [] && newName != [] && GoodParent(fs, oldParent) && GoodParent(fs, newParent)
  {
    if oldName == newName then Err(PathExists)
    else if ParentError(fs, oldParent).Err? then ParentError(fs, oldParent)
    else
      var source := oldParent.path + [oldName[|oldName| - 1]];
      if source !in fs then Err(PathNotFound)
      else if fs[source].Symlink? then Err(PathInvalid)
      else if ParentError(fs, newParent).Err? then ParentError(fs, newParent)
      else
        var target := newParent.path + [newName[|newName| - 1]];
        if target in fs then Err(PathExists)
        else if fs[source].Dir? then if source < target then Err(PathInvalid) else Ok
        else if fs[source].File? then Ok
        else Err(PathInvalid)
  }

  /** A path whose directory part resolves to a directory. */
  predicate InDirectory(fs: Tree, parent: Resolved)
    requires GoodParent(fs, parent)
  {
    parent.Real? && fs[parent.path].Dir?
  }

  /** The path that a name and its resolved directory part stand for. */
  function At(parent: Resolved, name: Path): Path
    requires parent.Real? && name != []
  {
    parent.path + [name[|name| - 1]]
  }

  /** Directory parts that are missing, lead outside, or are no directories. */
  predicate RefusesParent(fs: Tree, parent: Resolved, error: Error)
    requires GoodParent(fs, parent)
  {
    || (parent.Missing? && error == PathNotFound)
    || (parent.Escapes? && error == PathInvalid)
    || (parent.Real? && !fs[parent.path].Dir? && error == NotDirectory)
  }

  /** What `renamePath` answers. Unlike a copy it takes symlinks and special nodes too, and renaming a
      path to itself is fine. */
  function RenameAnswer(fs: Tree, oldName: Path, newName: Path, oldParent: Resolved, newParent: Resolved): Result
    requires oldName != [] && newName != [] && GoodParent(fs, oldParent) && GoodParent(fs, newParent)
  {
    if oldName == newName then Ok
    else if ParentError(fs, oldParent).Err? then ParentError(fs, oldParent)
    else
      var source := oldParent.path + [oldName[|oldName| - 1]];
      if source !in fs then Err(PathNotFound)
      else if ParentError(fs, newParent).Err? then ParentError(fs, newParent)
      else
        var target := newParent.path + [newName[|newName| - 1]];
        if target in fs then Err(PathExists)
        else if fs[source].Dir? && source < target then Err(PathInvalid)
        else Ok
  }

  class Workspace {
    var fs: Tree

    constructor (fs: Tree)
      ensures this.fs == fs
    {
      this.fs := fs;
    }

    /** The names in a directory, as ReadDir lists them. */
    method ReadDir(path: Path) returns (names: set<string>)
      ensures forall name :: name in names <==> path + [name] in fs
    {
      names := set p | p in fs && p != [] && Parent(p) == path :: p[|p| - 1];
      forall name ensures name in names <==> path + [name] in fs {
        if path + [name] in fs {
          assert Parent(path + [name]) == path && (path + [name])[|path|] == name;
        }
        if name in names {
          var p :| p in fs && p != [] && Parent(p) == path && p[|p| - 1] == name;
          assert p == path + [name];
        }
      }
    }

    /** `copyWorkspaceDirectory`: make the target, then copy child by child. The recursion is bounded by
        what lies below the source, which stays as it is because the target is elsewhere. */
    method CopyDirectory(source: Path, target: Path)
      requires CanCopy(fs, source, target)
      modifies this
      ensures IsCopy(old(fs), fs, source, target) && WellFormed(fs)
      decreases Below(fs, source), 1
    {
      ghost var before := fs;
      fs := fs[target := fs[source]];
      PartialStart(before, source, target);
      var names := ReadDir(source);
      ghost var done := {};
      SameChildren(before, fs, source, target, {});
      var todo := names;
      while todo != {}
        invariant todo <= names && done == names - todo
        invariant IsPartialCopy(before, fs, source, target, done)
        decreases todo
      {
        var name :| name in todo;
        CopyChild(source, target, name, before, done);
        done := done + {name};
        todo := todo - {name};
      }
      PartialDone(before, fs, source, target, names);
      CopyIsWellFormed(before, fs, source, target);
    }

    /** One child: a directory is copied with its content, a regular file as it is, a symlink or a special
        node not at all. */
    method CopyChild(source: Path, target: Path, name: string, ghost before: Tree, ghost done: set<string>)
      requires CanCopy(before, source, target) && IsPartialCopy(before, fs, source, target, done)
      requires name !in done && source + [name] in before
      modifies this
      ensures IsPartialCopy(before, fs, source, target, done + {name})
      decreases Below(before, source), 0
    {
      ghost var mid := fs;
      var child, place := source + [name], target + [name];
      SameChildren(before, mid, source, target, done);
      if fs[child].Symlink? {
        PartialSkip(before, fs, source, target, done, name);
        return;
      }
      PartialIsWellFormed(before, mid, source, target, done);
      PlaceIsFree(before, mid, source, target, done, name);
      if fs[child].Dir? {
        ChildCanCopy(before, mid, source, target, done, name);
        CopyDirectory(child, place);
        PartialChild(before, mid, fs, source, target, done, name);
      } else if fs[child].File? {
        fs := fs[place := fs[child]];
        FileIsCopied(mid, child, place);
        PartialChild(before, mid, fs, source, target, done, name);
      } else {
        PartialSkip(before, fs, source, target, done, name);
      }
    }

    /** The checks of `copyPath`: what it refuses, or the two ends of the copy. */
    method CheckCopy(oldName: Path, newName: Path, oldParent: Resolved, newParent: Resolved)
      returns (refusal: Result, source: Path, target: Path)
      requires oldName != [] && newName != [] && GoodParent(fs, oldParent) && GoodParent(fs, newParent)
      ensures refusal.Err? ==> refusal == CopyAnswer(fs, oldName, newName, oldParent, newParent)
      ensures refusal.Ok? ==>
                && oldParent.Real? && newParent.Real? && oldName != newName
                && source == oldParent.path + [oldName[|oldName| - 1]]
                && target == newParent.path + [newName[|newName| - 1]]
                && source in fs && !fs[source].Symlink? && target !in fs
                && fs[oldParent.path].Dir? && fs[newParent.path].Dir? && Parent(target) == newParent.path
    {
      refusal, source, target := Ok, [], [];
      if oldName == newName {
        return Err(PathExists), source, target;
      }
      if ParentError(fs, oldParent).Err? {
        return ParentError(fs, oldParent), source, target;
      }
      source := oldParent.path + [oldName[|oldName| - 1]];
      if source !in fs {
        return Err(PathNotFound), source, target;
      }
      if fs[source].Symlink? {
        return Err(PathInvalid), source, target;
      }
      if ParentError(fs, newParent).Err? {
        return ParentError(fs, newParent), source, target;
      }
      target := newParent.path + [newName[|newName| - 1]];
      if target in fs {
        return Err(PathExists), source, target;
      }
    }

    /** `copyPath`. A refusal changes nothing; otherwise the copy is complete and everything else is
        untouched. */
    method CopyPath(oldName: Path, newName: Path, oldParent: Resolved, newParent: Resolved) returns (result: Result)
      requires WellFormed(fs) && oldName != [] && newName != [] && ".." !in newName
      requires GoodParent(fs, oldParent) && GoodParent(fs, newParent) && (newParent.Real? ==> ".." !in newParent.path)
      modifies this
      ensures result == CopyAnswer(old(fs), oldName, newName, oldParent, newParent)
      ensures result.Ok? <==>
                && oldName != newName && InDirectory(old(fs), oldParent) && InDirectory(old(fs), newParent)
                && At(oldParent, oldName) in old(fs) && At(newParent, newName) !in old(fs)
                && var node := old(fs)[At(oldParent, oldName)];
                   node.File? || (node.Dir? && !(At(oldParent, oldName) < At(newParent, newName)))
      ensures oldName == newName ==> result == Err(PathExists)
      ensures oldName != newName && !InDirectory(old(fs), oldParent) ==>
                result.Err? && RefusesParent(old(fs), oldParent, result.error)
      ensures oldName != newName && InDirectory(old(fs), oldParent) ==>
                var source := At(oldParent, oldName);
                if source !in old(fs) then result == Err(PathNotFound)
                else if old(fs)[source].Symlink? then result == Err(PathInvalid)
                else if !InDirectory(old(fs), newParent) then
                  result.Err? && RefusesParent(old(fs), newParent, result.error)
                else if At(newParent, newName) in old(fs) then result == Err(PathExists)
                else result.Ok? || result == Err(PathInvalid)
      ensures result.Err? ==> fs == old(fs)
      ensures result.Ok? ==> WellFormed(fs)
      ensures result.Ok? ==>
                IsCopy(old(fs), fs, oldParent.path + [oldName[|oldName| - 1]],
                    newParent.path + [newName[|newName| - 1]])
    {
      var source, target;
      result, source, target := CheckCopy(oldName, newName, oldParent, newParent);
      if result.Err? {
        return;
      }
      assert newName[|newName| - 1] in newName;
      result := CopyNode(source, target);
    }

    /** The copying itself, once both ends are known. */
    method CopyNode(source: Path, target: Path) returns (result: Result)
      requires WellFormed(fs) && source in fs && !fs[source].Symlink? && ".." !in target
      requires target != [] && target !in fs && Parent(target) in fs && fs[Parent(target)].Dir?
      modifies this
      ensures result ==
              if old(fs)[source].File? || (old(fs)[source].Dir? && !(source < target)) then Ok else Err(PathInvalid)
      ensures result.Err? ==> fs == old(fs)
      ensures result.Ok? ==> WellFormed(fs) && IsCopy(old(fs), fs, source, target)
    {
      if fs[source].Dir? {
        InsideIsProperPrefix(source, target);
        if Inside(source, target) {
          return Err(PathInvalid);
        }
        assert source <= target ==> |source| < |target| || target == source;
        CopyDirectory(source, target);
        return Ok;
      }
      if !fs[source].File? {
        return Err(PathInvalid);
      }
      ghost var before := fs;
      fs := fs[target := fs[source]];
      FileIsCopied(before, source, target);
      FileKeepsWellFormed(before, target, before[source]);
      return Ok;
    }

    /** `renamePath`. */
    method RenamePath(oldName: Path, newName: Path, oldParent: Resolved, newParent: Resolved) returns (result: Result)
      requires WellFormed(fs) && oldName != [] && newName != [] && ".." !in newName
      requires GoodParent(fs, oldParent) && GoodParent(fs, newParent) && (newParent.Real? ==> ".." !in newParent.path)
      modifies this
      ensures result == RenameAnswer(old(fs), oldName, newName, oldParent, newParent)
      ensures result.Ok? <==>
                || oldName == newName
                || (&& InDirectory(old(fs), oldParent) && InDirectory(old(fs), newParent)
                    && At(oldParent, oldName) in old(fs) && At(newParent, newName) !in old(fs)
                    && (old(fs)[At(oldParent, oldName)].Dir? ==> !(At(oldParent, oldName) < At(newParent, newName))))
      ensures oldName != newName && !InDirectory(old(fs), oldParent) ==>
                result.Err? && RefusesParent(old(fs), oldParent, result.error)
      ensures oldName != newName && InDirectory(old(fs), oldParent) ==>
                if At(oldParent, oldName) !in old(fs) then result == Err(PathNotFound)
                else if !InDirectory(old(fs), newParent) then
                  result.Err? && RefusesParent(old(fs), newParent, result.error)
                else if At(newParent, newName) in old(fs) then result == Err(PathExists)
                else result.Ok? || result == Err(PathInvalid)
      ensures result.Err? || oldName == newName ==> fs == old(fs)
      ensures WellFormed(fs)
      ensures result.Ok? && oldName != newName ==>
                IsMove(old(fs), fs, oldParent.path + [oldName[|oldName| - 1]],
                    newParent.path + [newName[|newName| - 1]])
    {
      if oldName == newName {
        return Ok;
      }
      if ParentError(fs, oldParent).Err? {
        return ParentError(fs, oldParent);
      }
      var source := oldParent.path + [oldName[|oldName| - 1]];
      if source !in fs {
        return Err(PathNotFound);
      }
      if ParentError(fs, newParent).Err? {
        return ParentError(fs, newParent);
      }
      var target := newParent.path + [newName[|newName| - 1]];
      if target in fs {
        return Err(PathExists);
      }
      if fs[source].Dir? {
        assert newName[|newName| - 1] in newName;
        InsideIsProperPrefix(source, target);
        if Inside(source, target) {
          return Err(PathInvalid);
        }
      }
      NotInsideItself(fs, source, target);
      MoveKeepsWellFormed(fs, Move(fs, source, target), source, target);
      fs := Move(fs, source, target);
      return Ok;
    }
  }

  /** Only a directory can have the target below it. */
  lemma NotInsideItself(fs: Tree, source: Path, target: Path)
    requires WellFormed(fs) && source in fs && target !in fs
    requires target != [] && Parent(target) in fs && fs[Parent(target)].Dir?
    requires fs[source].Dir? ==> !(source < target)
    ensures !(source <= target)
  {
    var parent := Parent(target);
    assert source <= target && |source| == |target| ==> source == target;
    assert source <= target && |source| < |target| ==> source <= parent;
    assert source <= parent && |source| == |parent| ==> source == parent;
    if source <= parent && source != parent { AncestorsAreDirs(fs, source, parent); }
  }

  /** A move to a free place brings no two nodes together. */
  lemma NoTwoMeet(fs: Tree, source: Path, target: Path)
    requires WellFormed(fs) && source in fs && target !in fs
    ensures forall p, q :: p in fs && q in fs && Relocate(p, source, target) == Relocate(q, source, target) ==> p == q
  {
    forall p, q | p in fs && q in fs && Relocate(p, source, target) == Relocate(q, source, target) ensures p == q {
      MovedAndBack(fs, source, target, p);
      MovedAndBack(fs, source, target, q);
    }
  }

  lemma FileKeepsWellFormed(fs: Tree, target: Path, node: Node)
    requires WellFormed(fs) && target != [] && target !in fs && Parent(target) in fs && fs[Parent(target)].Dir?
    ensures WellFormed(fs[target := node])
  {
  }

  lemma FileIsCopied(before: Tree, source: Path, target: Path)
    requires WellFormed(before) && source in before && before[source].File? && target !in before
    ensures IsCopy(before, before[target := before[source]], source, target)
  {
    assert Origin(source, target, target) == source;
    forall q | InCopy(before, source, target, q) ensures q == target {
      if q != target { AncestorsAreDirs(before, source, Origin(source, target, q)); }
    }
  }

  /** The children of the source stay what they were before the copy began. */
  lemma SameChildren(before: Tree, mid: Tree, source: Path, target: Path, done: set<string>)
    requires CanCopy(before, source, target) && IsPartialCopy(before, mid, source, target, done)
    ensures forall name :: source + [name] in mid <==> source + [name] in before
    ensures forall name :: source + [name] in before ==> mid[source + [name]] == before[source + [name]]
  {
    forall name ensures !InCopy(before, source, target, source + [name]) {
      SubtreesApart(before, source, target, source + [name]);
    }
  }

  lemma PlaceIsFree(before: Tree, mid: Tree, source: Path, target: Path, done: set<string>, name: string)
    requires CanCopy(before, source, target) && IsPartialCopy(before, mid, source, target, done) && name !in done
    ensures target + [name] !in mid && target in mid && mid[target].Dir?
  {
    var place := target + [name];
    NothingBelowFree(before, target, place);
    assert place[|target|] == name;
    assert Origin(source, target, target) == source;
    NothingBelowFree(before, target, target);
  }

  /** The conditions for copying a child directory, and less left below it. */
  lemma ChildCanCopy(before: Tree, mid: Tree, source: Path, target: Path, done: set<string>, name: string)
    requires CanCopy(before, source, target) && IsPartialCopy(before, mid, source, target, done) && name !in done
    requires source + [name] in before && before[source + [name]].Dir?
    ensures CanCopy(mid, source + [name], target + [name])
    ensures Below(mid, source + [name]) < Below(before, source)
  {
    PartialIsWellFormed(before, mid, source, target, done);
    SameChildren(before, mid, source, target, done);
    PlaceIsFree(before, mid, source, target, done, name);
    var child, place := source + [name], target + [name];
    assert Parent(place) == target;
    if child <= place {
      SubtreesApart(before, source, target, place);
    }
    forall p | p in mid && child <= p ensures p in before && source <= p && p != source {
      assert child == p[..|child|] && source == p[..|source|];
      SubtreesApart(before, source, target, p);
    }
    assert source in Below(before, source) && source !in Below(mid, child);
  }
}
