/** Which paths exist: the backward walk over the log, against replaying it. */
module FsNamespace {
  import opened Common
  import opened FsSpec

  /** What one logged operation tells about a path: its fate, or which path to
      follow further back. */
  datatype Verdict = Decided(kind: Option<Kind>) | Follow(path: Path)

  function Look(op: Op, p: Path): Verdict {
    match op
    case CreateFile(q) => if q == p then Decided(Some(File)) else Follow(p)
    case CreateHardLink(q, _) => if q == p then Decided(Some(File)) else Follow(p)
    case CreateDir(q) => if q == p then Decided(Some(Directory)) else Follow(p)
    case CreateSymlink(q, _) => if q == p then Decided(Some(Symlink)) else Follow(p)
    case RemoveFile(q) => if q == p then Decided(None) else Follow(p)
    case RemoveDir(q) => if q == p then Decided(None) else Follow(p)
    case Rename(f, t) => if f == p then Decided(None) else if t == p then Follow(f) else Follow(p)
    case _ => Follow(p)
  }

  /** The backward walk: newest operation first, then stable storage. */
  function EntryKind(d: Disk, log: seq<Op>, p: Path): Option<Kind> {
    if log == [] then KindOf(d, p)
    else match Look(log[|log| - 1], p)
      case Decided(k) => k
      case Follow(q) => EntryKind(d, log[..|log| - 1], q)
  }

  // ---- against a forward replay of kinds ----

  type Namespace = map<Path, Kind>

  function At(ns: Namespace, p: Path): Option<Kind> {
    if p in ns then Some(ns[p]) else None
  }

  /** Forward: creation sets, removal clears, renaming moves. Renaming an absent
      path clears the destination, as the walk has it; stable storage leaves the
      destination alone then, which `PersistsIff` accounts for. */
  function KindStep(ns: Namespace, op: Op): Namespace {
    match op
    case CreateFile(p) => ns[p := File]
    case CreateHardLink(p, _) => ns[p := File]
    case CreateDir(p) => ns[p := Directory]
    case CreateSymlink(p, _) => ns[p := Symlink]
    case RemoveFile(p) => ns - {p}
    case RemoveDir(p) => ns - {p}
    case Rename(f, t) => if f in ns then (ns - {f})[t := ns[f]] else ns - {t}
    case _ => ns
  }

  function KindReplay(ns: Namespace, log: seq<Op>): Namespace {
    if log == [] then ns else KindStep(KindReplay(ns, log[..|log| - 1]), log[|log| - 1])
  }

  function Kinds(d: Disk): Namespace {
    map p | p in d.files.Keys + d.dirs + d.symlinks.Keys :: KindOf(d, p).value
  }

  predicate SelfRename(op: Op) {
    op.Rename? && op.from == op.to
  }

  /** One step: the walk's verdict is the forward result, for every operation
      that is not a rename of a path to itself; for one that is, exactly when
      the path is absent. */
  lemma LookIsKindStep(ns: Namespace, op: Op)
    ensures (forall p :: At(KindStep(ns, op), p) == Seen(ns, op, p)) <==> !(SelfRename(op) && op.from in ns)
  {
    if SelfRename(op) && op.from in ns {
      assert At(KindStep(ns, op), op.from) != Seen(ns, op, op.from);
    }
  }

  /** The kind the walk reports once the older log stands for `ns`. */
  function Seen(ns: Namespace, op: Op, p: Path): Option<Kind> {
    match Look(op, p)
    case Decided(k) => k
    case Follow(q) => At(ns, q)
  }

  ghost predicate WalkAgrees(d: Disk, log: seq<Op>) {
    forall p :: EntryKind(d, log, p) == At(KindReplay(Kinds(d), log), p)
  }

  /** For every log in which no rename has equal source and destination, the
      backward walk gives every path its kind after the forward replay. */
  lemma {:induction false} WalkRefinesReplay(d: Disk, log: seq<Op>)
    requires forall i :: 0 <= i < |log| ==> !SelfRename(log[i])
    ensures WalkAgrees(d, log)
  {
    if log != [] {
      WalkRefinesReplay(d, log[..|log| - 1]);
      SelfRenameIff(d, log[..|log| - 1], log[|log| - 1]);
      assert log == log[..|log| - 1] + [log[|log| - 1]];
    }
  }

  /** A rename of a path to itself makes the walk lose the path; walk and
      replay go on agreeing exactly when there was nothing to lose. */
  lemma SelfRenameIff(d: Disk, log: seq<Op>, op: Op)
    requires WalkAgrees(d, log)
    ensures WalkAgrees(d, log + [op]) <==> !(SelfRename(op) && EntryKind(d, log, op.from).Some?)
  {
    var ns := KindReplay(Kinds(d), log);
    assert (log + [op])[..|log + [op]| - 1] == log;
    LookIsKindStep(ns, op);
    forall p ensures EntryKind(d, log + [op], p) == Seen(ns, op, p) {
    }
    assert forall p :: At(KindReplay(Kinds(d), log + [op]), p) == At(KindStep(ns, op), p);
    if SelfRename(op) && op.from in ns {
      assert At(KindStep(ns, op), op.from) != Seen(ns, op, op.from);
      assert EntryKind(d, log + [op], op.from) != At(KindReplay(Kinds(d), log + [op]), op.from);
    }
  }

  /** The self-rename in the concrete: create, rename to itself, gone. */
  lemma SelfRenameLosesFile(d: Disk, p: Path)
    ensures var log := [CreateFile(p), Rename(p, p)];
            EntryKind(d, log, p) == None && KindOf(Replay(d, log), p) == Some(File)
  {
    var log := [CreateFile(p), Rename(p, p)];
    assert log[..1] == [CreateFile(p)];
    assert Replay(d, log) == Apply(Replay(d, log[..1]), Rename(p, p));
    assert Replay(d, log[..1]) == Apply(d, CreateFile(p)) by {
      assert log[..1][..0] == [];
    }
  }

  // ---- against what syncing the log would persist ----

  /** No path is persisted under two kinds. */
  ghost predicate Exclusive(d: Disk) {
    && (forall p :: p in d.files ==> p !in d.dirs && p !in d.symlinks)
    && (forall p :: p in d.dirs ==> p !in d.symlinks)
  }

  /** When does persisting `op` give every path the kind the walk reports? */
  predicate Persists(ns: Namespace, op: Op) {
    match op
    case CreateHardLink(p, t) => At(ns, t) == Some(File) || At(ns, p) == Some(File)
    case CreateDir(p) => At(ns, p) != Some(File)
    case CreateSymlink(p, _) => At(ns, p) == None || At(ns, p) == Some(Symlink)
    case RemoveFile(p) => At(ns, p) != Some(Directory)
    case RemoveDir(p) => At(ns, p) == None || At(ns, p) == Some(Directory)
    case Rename(f, t) =>
      if f == t then f !in ns
      else if f !in ns then t !in ns
      else (match ns[f]
            case File => true
            case Directory => At(ns, t) != Some(File)
            case Symlink => At(ns, t) != Some(File) && At(ns, t) != Some(Directory))
    case _ => true
  }

  /** Exactly then. The three persisted maps let a stale entry of another kind
      shine through, which the walk does not. */
  lemma PersistsIff(d: Disk, op: Op)
    requires Exclusive(d)
    ensures (forall p :: KindOf(Apply(d, op), p) == Seen(Kinds(d), op, p)) <==> Persists(Kinds(d), op)
  {
    KindsAt(d);
    if !Persists(Kinds(d), op) {
      PersistsFails(d, op);
    } else {
      forall p ensures KindOf(Apply(d, op), p) == Seen(Kinds(d), op, p) {
        PersistsHolds(d, op, p);
      }
    }
  }

  lemma KindsAt(d: Disk)
    ensures forall p :: At(Kinds(d), p) == KindOf(d, p)
  {
  }

  lemma PersistsHolds(d: Disk, op: Op, p: Path)
    requires Exclusive(d) && Persists(Kinds(d), op)
    ensures KindOf(Apply(d, op), p) == Seen(Kinds(d), op, p)
  {
    KindsAt(d);
  }

  /** The path at which it goes wrong. */
  lemma PersistsFails(d: Disk, op: Op)
    requires Exclusive(d) && !Persists(Kinds(d), op)
    ensures var p := if op.Rename? then op.to else op.path;
            KindOf(Apply(d, op), p) != Seen(Kinds(d), op, p)
  {
    KindsAt(d);
  }

  /** In the concrete: a symlink renamed onto a file. The walk reports a symlink;
      once persisted, the file that was never removed hides it. */
  lemma StaleFileShinesThrough(p: Path, q: Path, target: Path)
    requires p != q
    ensures var d := Disk(map[q := []], {}, map[p := target]);
            && Exclusive(d)
            && EntryKind(d, [Rename(p, q)], q) == Some(Symlink)
            && KindOf(Replay(d, [Rename(p, q)]), q) == Some(File)
  {
    var d, log := Disk(map[q := []], {}, map[p := target]), [Rename(p, q)];
    assert log[..0] == [];
    assert Look(log[0], q) == Follow(p);
    assert Replay(d, log) == Apply(d, log[0]);
  }

  /** Also leaves no path under two kinds. */
  predicate Clean(ns: Namespace, op: Op) {
    && Persists(ns, op)
    && match op
       case CreateFile(p) => At(ns, p) == None || At(ns, p) == Some(File)
       case CreateHardLink(p, _) => At(ns, p) == None || At(ns, p) == Some(File)
       case CreateDir(p) => At(ns, p) != Some(Symlink)
       case Rename(f, t) => f in ns ==> At(ns, t) == None || At(ns, t) == Some(ns[f])
       case _ => true
  }

  lemma CleanKeepsExclusive(d: Disk, op: Op)
    requires Exclusive(d) && Clean(Kinds(d), op)
    ensures Exclusive(Apply(d, op))
  {
    KindsAt(d);
  }

  /** Every operation of the log was clean when it was logged. */
  ghost predicate CleanLog(d: Disk, log: seq<Op>) {
    forall i :: 0 <= i < |log| ==> Clean(Kinds(Replay(d, log[..i])), log[i])
  }

  lemma CleanBefore(d: Disk, log: seq<Op>)
    requires log != [] && CleanLog(d, log)
    ensures CleanLog(d, log[..|log| - 1]) && Clean(Kinds(Replay(d, log[..|log| - 1])), log[|log| - 1])
  {
    var before := log[..|log| - 1];
    forall i | 0 <= i < |before| ensures Clean(Kinds(Replay(d, before[..i])), before[i]) {
      assert before[..i] == log[..i];
    }
  }

  /** The walk one operation further, where it agrees with what is persisted. */
  lemma WalkNext(d: Disk, before: seq<Op>, op: Op, p: Path)
    requires Exclusive(Replay(d, before)) && Persists(Kinds(Replay(d, before)), op)
    requires forall q :: EntryKind(d, before, q) == KindOf(Replay(d, before), q)
    ensures EntryKind(d, before + [op], p) == KindOf(Apply(Replay(d, before), op), p)
  {
    assert (before + [op])[..|before + [op]| - 1] == before;
    PersistsHolds(Replay(d, before), op, p);
    KindsAt(Replay(d, before));
  }

  /** For every clean log, the walk reports of every path exactly the kind it
      has once the whole log is persisted. */
  lemma {:induction false} WalkRefinesPersistence(d: Disk, log: seq<Op>)
    requires Exclusive(d) && CleanLog(d, log)
    ensures Exclusive(Replay(d, log))
    ensures forall p :: EntryKind(d, log, p) == KindOf(Replay(d, log), p)
  {
    if log != [] {
      var before, op := log[..|log| - 1], log[|log| - 1];
      CleanBefore(d, log);
      WalkRefinesPersistence(d, before);
      CleanKeepsExclusive(Replay(d, before), op);
      assert before + [op] == log;
      forall p ensures EntryKind(d, log, p) == KindOf(Replay(d, log), p) {
        WalkNext(d, before, op, p);
      }
    }
  }

  // ---- what the calls let into the log ----

  predicate ParentExists(d: Disk, log: seq<Op>, p: Path) {
    Parent(p).None? || EntryKind(d, log, Parent(p).value) == Some(Directory)
  }

  /** The checks each call makes before it logs its operation. */
  predicate Admitted(d: Disk, log: seq<Op>, op: Op) {
    match op
    case CreateFile(p) => EntryKind(d, log, p) != Some(File) && ParentExists(d, log, p)
    case CreateDir(p) => EntryKind(d, log, p) == None && ParentExists(d, log, p)
    case CreateSymlink(p, _) => EntryKind(d, log, p) == None && ParentExists(d, log, p)
    case CreateHardLink(p, t) =>
      EntryKind(d, log, p) == None && EntryKind(d, log, t) == Some(File) && ParentExists(d, log, p)
    case RemoveFile(p) => EntryKind(d, log, p) == Some(File) || EntryKind(d, log, p) == Some(Symlink)
    case RemoveDir(p) => EntryKind(d, log, p) == Some(Directory) && !HasChildren(d, log, p)
    case Rename(f, t) =>
      && ParentExists(d, log, t)
      && EntryKind(d, log, f).Some?
      && (if EntryKind(d, log, f) == Some(Directory)
          then EntryKind(d, log, t) == None || (EntryKind(d, log, t) == Some(Directory) && !HasChildren(d, log, t))
          else EntryKind(d, log, t) != Some(Directory))
    case _ => true
  }

  /** A destination of another kind, or the path itself. */
  predicate Clobbers(d: Disk, log: seq<Op>, op: Op) {
    match op
    case CreateFile(p) => EntryKind(d, log, p).Some?
    case Rename(f, t) => f == t || (EntryKind(d, log, t).Some? && EntryKind(d, log, t) != EntryKind(d, log, f))
    case _ => false
  }

  /** An admitted operation is clean exactly when it clobbers nothing. */
  lemma {:induction false} AdmittedIsCleanIff(d: Disk, log: seq<Op>, op: Op)
    requires Exclusive(d) && CleanLog(d, log) && Admitted(d, log, op)
    ensures CleanLog(d, log + [op]) <==> !Clobbers(d, log, op)
  {
    WalkRefinesPersistence(d, log);
    KindsAt(Replay(d, log));
    var all := log + [op];
    assert all[..|log|] == log;
    assert forall i :: 0 <= i < |log| ==> all[..i] == log[..i] && all[i] == log[i];
    if !Clobbers(d, log, op) {
      assert Clean(Kinds(Replay(d, log)), op);
    } else {
      assert !Clean(Kinds(Replay(d, all[..|log|])), all[|log|]);
    }
  }

  // ---- directory listings ----

  predicate Creates(op: Op, p: Path, k: Kind) {
    match k
    case File => op == CreateFile(p)
    case Directory => op == CreateDir(p)
    case Symlink => op.CreateSymlink? && op.path == p
  }

  predicate Persisted(d: Disk, p: Path, k: Kind) {
    match k
    case File => p in d.files
    case Directory => p in d.dirs
    case Symlink => p in d.symlinks
  }

  predicate RenamesTo(op: Op, p: Path) {
    op.Rename? && op.to == p
  }

  predicate LinksAt(op: Op, p: Path) {
    op.CreateHardLink? && op.path == p
  }

  /** The listing scans stable storage and the log for names; a name counts if
      it comes from where its kind says. */
  predicate Sourced(d: Disk, log: seq<Op>, p: Path, k: Kind) {
    || Persisted(d, p, k)
    || exists i :: 0 <= i < |log| && (Creates(log[i], p, k) || RenamesTo(log[i], p))
  }

  predicate Listed(d: Disk, log: seq<Op>, dir: Path, p: Path) {
    && Parent(p) == Some(dir)
    && EntryKind(d, log, p).Some?
    && Sourced(d, log, p, EntryKind(d, log, p).value)
  }

  /** Every listing is exact: it has precisely the children that exist. */
  ghost predicate ListingsExact(d: Disk, log: seq<Op>) {
    forall dir, p :: Listed(d, log, dir, p) <==> Parent(p) == Some(dir) && EntryKind(d, log, p).Some?
  }

  ghost predicate AllSourced(d: Disk, log: seq<Op>) {
    forall p :: p != [] && EntryKind(d, log, p).Some? ==> Sourced(d, log, p, EntryKind(d, log, p).value)
  }

  lemma ListingsExactIff(d: Disk, log: seq<Op>)
    ensures ListingsExact(d, log) <==> AllSourced(d, log)
  {
    if ListingsExact(d, log) {
      forall p | p != [] && EntryKind(d, log, p).Some? ensures Sourced(d, log, p, EntryKind(d, log, p).value) {
        assert Listed(d, log, p[..|p| - 1], p);
      }
    }
  }

  lemma SourcedGrows(d: Disk, log: seq<Op>, op: Op, p: Path, k: Kind)
    ensures Sourced(d, log + [op], p, k) <==> Sourced(d, log, p, k) || Creates(op, p, k) || RenamesTo(op, p)
  {
    var all := log + [op];
    if Sourced(d, log, p, k) && !Persisted(d, p, k) {
      var i :| 0 <= i < |log| && (Creates(log[i], p, k) || RenamesTo(log[i], p));
      assert all[i] == log[i];
    }
    assert all[|log|] == op;
  }

  /** Listings stay exact through every operation but a hard link made where no
      file of that name was stored, created or renamed to before. */
  lemma ListingStepIff(d: Disk, log: seq<Op>, op: Op)
    requires ListingsExact(d, log)
    ensures ListingsExact(d, log + [op]) <==>
              !(op.CreateHardLink? && op.path != [] && !Sourced(d, log, op.path, File))
  {
    var all := log + [op];
    ListingsExactIff(d, log);
    ListingsExactIff(d, all);
    assert all[..|all| - 1] == log;
    if op.CreateHardLink? && op.path != [] && !Sourced(d, log, op.path, File) {
      SourcedGrows(d, log, op, op.path, File);
      assert EntryKind(d, all, op.path) == Some(File);
    } else {
      forall p | p != [] && EntryKind(d, all, p).Some? ensures Sourced(d, all, p, EntryKind(d, all, p).value) {
        SourcedGrows(d, log, op, p, EntryKind(d, all, p).value);
      }
    }
  }

  /** For every log without pending hard links, every listing is exactly the
      children that exist. */
  lemma {:induction false} ListingIsExact(d: Disk, log: seq<Op>)
    requires forall i :: 0 <= i < |log| ==> !log[i].CreateHardLink?
    ensures ListingsExact(d, log)
  {
    if log == [] {
      ListingsExactIff(d, log);
    } else {
      ListingIsExact(d, log[..|log| - 1]);
      ListingStepIff(d, log[..|log| - 1], log[|log| - 1]);
      assert log == log[..|log| - 1] + [log[|log| - 1]];
    }
  }

  /** A pending hard link in the concrete: it exists and is not listed. */
  lemma HardLinkIsHidden(p: Path, t: Path)
    requires p != [] && t != [] && p != t
    ensures var d, log := Disk(map[t := []], {[]}, map[]), [CreateHardLink(p, t)];
            EntryKind(d, log, p) == Some(File) && !Listed(d, log, p[..|p| - 1], p)
  {
  }

  // ---- the emptiness check of rmdir ----

  /** `dir_has_children` scans like the listing but overlooks renames: a name
      counts if it is stored or created under its kind. */
  predicate Counted(d: Disk, log: seq<Op>, p: Path, k: Kind) {
    Persisted(d, p, k) || exists i :: 0 <= i < |log| && Creates(log[i], p, k)
  }

  /** Paths that stable storage or a logged creation names. */
  function Named(d: Disk, log: seq<Op>): set<Path> {
    d.files.Keys + d.dirs + d.symlinks.Keys
    + (set i | 0 <= i < |log| && (log[i].CreateFile? || log[i].CreateDir? || log[i].CreateSymlink?) :: log[i].path)
  }

  predicate HasChildren(d: Disk, log: seq<Op>, dir: Path) {
    exists p :: p in Named(d, log) && Parent(p) == Some(dir)
      && EntryKind(d, log, p).Some? && Counted(d, log, p, EntryKind(d, log, p).value)
  }

  ghost predicate AllCounted(d: Disk, log: seq<Op>) {
    forall p :: p != [] && EntryKind(d, log, p).Some? ==> Counted(d, log, p, EntryKind(d, log, p).value)
  }

  /** The check is exact: it finds a child in precisely the directories that
      have one. */
  ghost predicate ChecksExact(d: Disk, log: seq<Op>) {
    forall dir :: HasChildren(d, log, dir) <==> exists p :: Parent(p) == Some(dir) && EntryKind(d, log, p).Some?
  }

  lemma CountedIsNamed(d: Disk, log: seq<Op>, p: Path, k: Kind)
    requires Counted(d, log, p, k)
    ensures p in Named(d, log)
  {
    if !Persisted(d, p, k) {
      var i :| 0 <= i < |log| && Creates(log[i], p, k);
      assert log[i].path == p;
    }
  }

  lemma CountedIsExact(d: Disk, log: seq<Op>)
    requires AllCounted(d, log)
    ensures ChecksExact(d, log)
  {
    forall p | p != [] && EntryKind(d, log, p).Some? ensures p in Named(d, log) {
      CountedIsNamed(d, log, p, EntryKind(d, log, p).value);
    }
  }

  /** An operation that brings a name into being without the check noticing: a
      hard link or a rename to where nothing of that kind is counted. */
  predicate Overlooked(d: Disk, log: seq<Op>, op: Op) {
    match op
    case CreateHardLink(p, _) => p != [] && !Counted(d, log, p, File)
    case Rename(f, t) =>
      f != t && t != [] && EntryKind(d, log, f).Some? && !Counted(d, log, t, EntryKind(d, log, f).value)
    case _ => false
  }

  lemma CountedGrows(d: Disk, log: seq<Op>, op: Op, p: Path, k: Kind)
    ensures Counted(d, log + [op], p, k) <==> Counted(d, log, p, k) || Creates(op, p, k)
  {
    var all := log + [op];
    if Counted(d, log, p, k) && !Persisted(d, p, k) {
      var i :| 0 <= i < |log| && Creates(log[i], p, k);
      assert all[i] == log[i];
    }
    assert all[|log|] == op;
  }

  /** One more operation leaves everything counted exactly when it is not
      overlooked. */
  lemma CountedStepIff(d: Disk, log: seq<Op>, op: Op)
    requires AllCounted(d, log)
    ensures AllCounted(d, log + [op]) <==> !Overlooked(d, log, op)
  {
    var all := log + [op];
    assert all[..|all| - 1] == log;
    if Overlooked(d, log, op) {
      var p := if op.Rename? then op.to else op.path;
      CountedGrows(d, log, op, p, EntryKind(d, all, p).value);
      assert EntryKind(d, all, p) == if op.Rename? then EntryKind(d, log, op.from) else Some(File);
    } else {
      forall p | p != [] && EntryKind(d, all, p).Some? ensures Counted(d, all, p, EntryKind(d, all, p).value) {
        CountedGrows(d, log, op, p, EntryKind(d, all, p).value);
      }
    }
  }

  ghost predicate NoneOverlooked(d: Disk, log: seq<Op>) {
    forall i :: 0 <= i < |log| ==> !Overlooked(d, log[..i], log[i])
  }

  ghost predicate AlwaysCounted(d: Disk, log: seq<Op>) {
    forall i :: 0 <= i <= |log| ==> AllCounted(d, log[..i])
  }

  lemma NoneOverlookedSnoc(d: Disk, log: seq<Op>, op: Op)
    ensures NoneOverlooked(d, log + [op]) <==> NoneOverlooked(d, log) && !Overlooked(d, log, op)
    ensures AlwaysCounted(d, log + [op]) <==> AlwaysCounted(d, log) && AllCounted(d, log + [op])
  {
    var all := log + [op];
    assert all[..|log|] == log && all[|log|] == op && all[..|all|] == all && log[..|log|] == log;
    assert forall i :: 0 <= i <= |log| ==> all[..i] == log[..i];
    assert forall i :: 0 <= i < |log| ==> all[i] == log[i];
  }

  /** Every name has been counted, at every point of the log, exactly if no
      operation was overlooked; and then the emptiness check is exact. */
  lemma {:induction false} HasChildrenIff(d: Disk, log: seq<Op>)
    ensures AlwaysCounted(d, log) <==> NoneOverlooked(d, log)
    ensures NoneOverlooked(d, log) ==> ChecksExact(d, log)
  {
    if log == [] {
      assert AllCounted(d, []);
    } else {
      var before, op := log[..|log| - 1], log[|log| - 1];
      HasChildrenIff(d, before);
      NoneOverlookedSnoc(d, before, op);
      assert before + [op] == log && before[..|before|] == before;
      if AllCounted(d, before) {
        CountedStepIff(d, before, op);
      }
    }
    if AllCounted(d, log) {
      CountedIsExact(d, log);
    }
  }

  // ---- the check itself, one operation further ----

  /** The name that a hard link or a rename brings into being. */
  function Landing(op: Op): Path
    requires op.Rename? || op.CreateHardLink?
  {
    if op.Rename? then op.to else op.path
  }

  /** Its directory is otherwise empty: beside it and the source of a rename,
      nothing exists there. */
  ghost predicate LandsAlone(d: Disk, log: seq<Op>, op: Op)
    requires op.Rename? || op.CreateHardLink?
  {
    forall q :: Parent(q) == Parent(Landing(op)) && q != Landing(op) && !(op.Rename? && q == op.from) ==>
      EntryKind(d, log, q).None?
  }

  lemma OverlookedExists(d: Disk, log: seq<Op>, op: Op)
    requires Overlooked(d, log, op)
    ensures EntryKind(d, log + [op], Landing(op)).Some?
    ensures !Counted(d, log + [op], Landing(op), EntryKind(d, log + [op], Landing(op)).value)
  {
    var all := log + [op];
    assert all[..|all| - 1] == log;
    CountedGrows(d, log, op, Landing(op), EntryKind(d, all, Landing(op)).value);
  }

  /** The other names are as before, except that a rename takes its source. */
  lemma OthersAsBefore(d: Disk, log: seq<Op>, op: Op, q: Path)
    requires Overlooked(d, log, op) && q != Landing(op)
    ensures EntryKind(d, log + [op], q) == if op.Rename? && q == op.from then None else EntryKind(d, log, q)
    ensures forall k :: Counted(d, log + [op], q, k) <==> Counted(d, log, q, k)
  {
    var all := log + [op];
    assert all[..|all| - 1] == log;
    forall k ensures Counted(d, all, q, k) <==> Counted(d, log, q, k) {
      CountedGrows(d, log, op, q, k);
    }
  }

  /** Overlooked in an otherwise empty directory: the check misses the child. */
  lemma AloneIsMissed(d: Disk, log: seq<Op>, op: Op)
    requires Overlooked(d, log, op) && LandsAlone(d, log, op)
    ensures !ChecksExact(d, log + [op])
  {
    var all, p := log + [op], Landing(op);
    var dir := p[..|p| - 1];
    OverlookedExists(d, log, op);
    assert Parent(p) == Some(dir);
    forall q | q in Named(d, all) && Parent(q) == Some(dir) && EntryKind(d, all, q).Some?
      ensures !Counted(d, all, q, EntryKind(d, all, q).value)
    {
      if q != p {
        OthersAsBefore(d, log, op, q);
      }
    }
    assert !HasChildren(d, all, dir);
  }

  /** Overlooked beside another child: the check finds that one. */
  lemma CompanyIsFound(d: Disk, log: seq<Op>, op: Op, dir: Path)
    requires AllCounted(d, log) && Overlooked(d, log, op) && !LandsAlone(d, log, op)
    ensures HasChildren(d, log + [op], dir) <==>
              exists p :: Parent(p) == Some(dir) && EntryKind(d, log + [op], p).Some?
  {
    var all := log + [op];
    forall q | q != Landing(op) && q != [] && EntryKind(d, all, q).Some?
      ensures Counted(d, all, q, EntryKind(d, all, q).value) && q in Named(d, all)
    {
      OthersAsBefore(d, log, op, q);
      CountedIsNamed(d, all, q, EntryKind(d, all, q).value);
    }
    var q :| Parent(q) == Parent(Landing(op)) && q != Landing(op) && !(op.Rename? && q == op.from)
             && EntryKind(d, log, q).Some?;
    OthersAsBefore(d, log, op, q);
    if Parent(Landing(op)) == Some(dir) {
      assert q in Named(d, all) && Parent(q) == Some(dir);
    }
  }

  /** While every name is accounted for, one more operation leaves the emptiness
      check exact exactly unless it is overlooked and lands in an otherwise
      empty directory. */
  lemma ChecksStepIff(d: Disk, log: seq<Op>, op: Op)
    requires AllCounted(d, log)
    ensures ChecksExact(d, log + [op]) <==> !(Overlooked(d, log, op) && LandsAlone(d, log, op))
  {
    if !Overlooked(d, log, op) {
      CountedStepIff(d, log, op);
      CountedIsExact(d, log + [op]);
    } else if LandsAlone(d, log, op) {
      AloneIsMissed(d, log, op);
    } else {
      forall dir
        ensures HasChildren(d, log + [op], dir) <==>
                  exists p :: Parent(p) == Some(dir) && EntryKind(d, log + [op], p).Some?
      {
        CompanyIsFound(d, log, op, dir);
      }
    }
  }

  /** A directory whose only child was renamed into it passes for empty. */
  lemma RenamedChildIsOverlooked(f: string, g: string)
    ensures var d := Disk(map[[f] := []], {[], [g]}, map[]);
            var log := [Rename([f], [g, f])];
            f != g ==> EntryKind(d, log, [g, f]) == Some(File) && !HasChildren(d, log, [g])
  {
    var d := Disk(map[[f] := []], {[], [g]}, map[]);
    var log := [Rename([f], [g, f])];
    assert log[..0] == [];
    assert [g, f][..1] == [g];
    assert EntryKind(d, log, [g, f]) == KindOf(d, [f]) by {
      assert [f] != [g, f];
      assert Look(log[0], [g, f]) == Follow([f]);
    }
  }

  /** So does one whose only child was linked into it, and it can be removed. */
  lemma LinkedChildIsOverlooked(f: string, g: string)
    requires f != g
    ensures var d := Disk(map[[f] := []], {[], [g]}, map[]);
            var log := [CreateHardLink([g, f], [f])];
            && Admitted(d, [], log[0])
            && EntryKind(d, log, [g, f]) == Some(File) && !HasChildren(d, log, [g])
            && Admitted(d, log, RemoveDir([g]))
  {
    var d := Disk(map[[f] := []], {[], [g]}, map[]);
    var log := [CreateHardLink([g, f], [f])];
    assert log[..0] == [];
    assert [g, f][..1] == [g];
    assert [f] != [g] by { assert [f][0] != [g][0]; }
    assert EntryKind(d, log, [g]) == EntryKind(d, [], [g]) == Some(Directory);
  }
}
