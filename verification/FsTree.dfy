/** The name space as a tree: which calls keep every entry below a directory. */
module FsTree {
  import opened Common
  import opened FsSpec
  import opened FsNamespace
  import FsDurability

  predicate Exists(d: Disk, log: seq<Op>, p: Path) {
    EntryKind(d, log, p).Some?
  }

  predicate IsDir(d: Disk, log: seq<Op>, p: Path) {
    EntryKind(d, log, p) == Some(Directory)
  }

  /** The root is a directory, and everything is in a directory. */
  ghost predicate Rooted(d: Disk, log: seq<Op>) {
    IsDir(d, log, []) && forall p :: p != [] && Exists(d, log, p) ==> IsDir(d, log, Parent(p).value)
  }

  /** The directory that an operation does away with, under that name. */
  function Vacates(d: Disk, log: seq<Op>, op: Op): Option<Path> {
    match op
    case CreateFile(p) => if IsDir(d, log, p) then Some(p) else None
    case RemoveDir(p) => Some(p)
    case Rename(f, _) => if IsDir(d, log, f) then Some(f) else None
    case _ => None
  }

  /** It was the root, or something is still in it. */
  ghost predicate Orphans(d: Disk, log: seq<Op>, op: Op) {
    var g := Vacates(d, log, op);
    g.Some? && (g.value == [] || exists q :: Parent(q) == g && (Exists(d, log, q) || (op.Rename? && op.to == q)))
  }

  /** What an admitted operation makes of a directory. */
  lemma DirAfter(d: Disk, log: seq<Op>, op: Op, p: Path)
    requires Admitted(d, log, op)
    ensures IsDir(d, log, p) ==> (IsDir(d, log + [op], p) <==> Vacates(d, log, op) != Some(p))
  {
    FsDurability.WalkSnoc(d, log, op, p);
  }

  /** What is there after it is in what was a directory before. */
  lemma EntryAfter(d: Disk, log: seq<Op>, op: Op, p: Path)
    requires Rooted(d, log) && Admitted(d, log, op) && p != [] && Exists(d, log + [op], p)
    ensures IsDir(d, log, Parent(p).value)
  {
    FsDurability.WalkSnoc(d, log, op, p);
  }

  lemma ChildStays(d: Disk, log: seq<Op>, op: Op, q: Path)
    requires Admitted(d, log, op) && q != [] && Vacates(d, log, op) == Parent(q)
    requires Exists(d, log, q) || (op.Rename? && op.to == q)
    ensures Exists(d, log + [op], q)
  {
    FsDurability.WalkSnoc(d, log, op, q);
  }

  lemma OrphanIsUnrooted(d: Disk, log: seq<Op>, op: Op)
    requires Rooted(d, log) && Admitted(d, log, op) && Orphans(d, log, op)
    ensures !Rooted(d, log + [op])
  {
    var g := Vacates(d, log, op).value;
    DirAfter(d, log, op, g);
    if g != [] {
      var q :| Parent(q) == Some(g) && (Exists(d, log, q) || (op.Rename? && op.to == q));
      ChildStays(d, log, op, q);
    }
  }

  /** Every admitted call keeps the tree, except exactly those that do away with
      a directory in which something is left. */
  lemma TreeStepIff(d: Disk, log: seq<Op>, op: Op)
    requires Rooted(d, log) && Admitted(d, log, op)
    ensures Rooted(d, log + [op]) <==> !Orphans(d, log, op)
  {
    if Orphans(d, log, op) {
      OrphanIsUnrooted(d, log, op);
    } else {
      DirAfter(d, log, op, []);
      forall p | p != [] && Exists(d, log + [op], p) ensures IsDir(d, log + [op], Parent(p).value) {
        NotOrphaned(d, log, op, p);
      }
    }
  }

  lemma NotOrphaned(d: Disk, log: seq<Op>, op: Op, p: Path)
    requires Rooted(d, log) && Admitted(d, log, op) && !Orphans(d, log, op) && p != [] && Exists(d, log + [op], p)
    ensures IsDir(d, log + [op], Parent(p).value)
  {
    EntryAfter(d, log, op, p);
    DirAfter(d, log, op, Parent(p).value);
    FsDurability.WalkSnoc(d, log, op, p);
  }

  ghost predicate Empty(d: Disk, log: seq<Op>, p: Path) {
    forall q :: Parent(q) == Some(p) ==> !Exists(d, log, q)
  }

  /** While the emptiness check is exact: exactly the empty directories can be
      removed, and the tree stays one unless that was the root. */
  lemma RemovableIff(d: Disk, log: seq<Op>, p: Path)
    requires Rooted(d, log) && ChecksExact(d, log)
    ensures Admitted(d, log, RemoveDir(p)) <==> IsDir(d, log, p) && Empty(d, log, p)
    ensures Admitted(d, log, RemoveDir(p)) ==> (Rooted(d, log + [RemoveDir(p)]) <==> p != [])
  {
    if Admitted(d, log, RemoveDir(p)) {
      TreeStepIff(d, log, RemoveDir(p));
    }
  }

  /** Then too: a directory can be renamed exactly to a free name in a directory
      or to an empty directory, and anything else exactly to what is no
      directory. */
  lemma RenamableIff(d: Disk, log: seq<Op>, f: Path, t: Path)
    requires ChecksExact(d, log) && t != []
    ensures Admitted(d, log, Rename(f, t)) <==>
              && Exists(d, log, f) && IsDir(d, log, Parent(t).value)
              && (if IsDir(d, log, f) then !Exists(d, log, t) || (IsDir(d, log, t) && Empty(d, log, t))
                  else !IsDir(d, log, t))
  {
    assert HasChildren(d, log, t) <==> !Empty(d, log, t);
  }

  /** And the tree stays one exactly if the old name was no directory, or an empty
      one, and not the root, nor in the new name. */
  lemma RenameKeepsTreeIff(d: Disk, log: seq<Op>, f: Path, t: Path)
    requires Rooted(d, log) && t != [] && Admitted(d, log, Rename(f, t))
    ensures Rooted(d, log + [Rename(f, t)]) <==>
              !IsDir(d, log, f) || (Empty(d, log, f) && f != [] && Parent(t) != Some(f))
  {
    TreeStepIff(d, log, Rename(f, t));
  }
}
