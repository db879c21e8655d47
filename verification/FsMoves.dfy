/** Renames and hard links: the bytes move with the name, through the log, onto
    stable storage and through a crash; and which writes a reader sees. */
module FsMoves {
  import opened Common
  import opened SeqSpace
  import opened FsSpec
  import opened FsNamespace
  import opened FsLinks
  import opened FsContent
  import opened FsSync
  import opened FsDurability

  // ---- operations on other paths ----

  predicate Concerns(op: Op, p: Path) {
    match op
    case Rename(f, t) => f == p || t == p
    case CreateHardLink(q, t) => q == p || t == p
    case SetPermissions(_) => false
    case _ => op.path == p
  }

  predicate Quiet(log: seq<Op>, p: Path) {
    forall i :: 0 <= i < |log| ==> !Concerns(log[i], p)
  }

  /** A log in which one operation is the only one on either path. */
  predicate Lone(log: seq<Op>, k: nat, p: Path, q: Path) {
    k < |log| && forall i :: 0 <= i < |log| && i != k ==> !Concerns(log[i], p) && !Concerns(log[i], q)
  }

  lemma LoneSplits(log: seq<Op>, k: nat, p: Path, q: Path)
    requires Lone(log, k, p, q)
    ensures log == log[..k] + [log[k]] + log[k + 1..]
    ensures Quiet(log[..k], p) && Quiet(log[..k], q) && Quiet(log[k + 1..], p) && Quiet(log[k + 1..], q)
  {
  }

  /** Stable storage has the same at the path. */
  predicate SameEntry(d: Disk, e: Disk, p: Path) {
    && (p in e.files <==> p in d.files) && (p in d.files ==> e.files[p] == d.files[p])
    && (p in e.symlinks <==> p in d.symlinks) && (p in d.symlinks ==> e.symlinks[p] == d.symlinks[p])
    && (p in e.dirs <==> p in d.dirs)
  }

  lemma {:induction false} QuietReplay(d: Disk, ops: seq<Op>, p: Path)
    requires Quiet(ops, p)
    ensures SameEntry(d, Replay(d, ops), p)
  {
    if ops != [] {
      QuietReplay(d, ops[..|ops| - 1], p);
      assert !Concerns(ops[|ops| - 1], p);
    }
  }

  lemma {:induction false} QuietEntries(synced: set<Path>, ops: seq<Op>, dir: Path, p: Path)
    requires Quiet(ops, p)
    ensures p in EntriesAfter(synced, ops, dir) <==> p in synced
  {
    if ops != [] {
      QuietEntries(synced, ops[..|ops| - 1], dir, p);
      assert !Concerns(ops[|ops| - 1], p);
    }
  }

  lemma {:induction false} FlushAppend(a: seq<Op>, b: seq<Op>, dir: Path)
    ensures Flush(a + b, dir) == Flush(a, dir) + Flush(b, dir)
  {
    if b == [] {
      assert a + b == a;
    } else {
      FlushAppend(a, b[..|b| - 1], dir);
      assert (a + b)[..|a + b| - 1] == a + b[..|b| - 1];
    }
  }

  lemma {:induction false} QuietFlush(log: seq<Op>, dir: Path, p: Path)
    requires Quiet(log, p)
    ensures Quiet(Flush(log, dir), p) && Quiet(Keep(log, dir), p)
  {
    if log != [] {
      QuietFlush(log[..|log| - 1], dir, p);
      assert !Concerns(log[|log| - 1], p);
    }
  }

  /** What is kept of a log whose one operation on the path was flushed. */
  lemma {:induction false} KeepQuiet(log: seq<Op>, dir: Path, p: Path)
    requires forall i :: 0 <= i < |log| && Concerns(log[i], p) ==> FlushedBy(log[i], dir)
    ensures Quiet(Keep(log, dir), p)
  {
    if log != [] {
      KeepQuiet(log[..|log| - 1], dir, p);
    }
  }

  lemma FlushOne(op: Op, dir: Path)
    ensures Flush([op], dir) == if FlushedBy(op, dir) then [op] else []
  {
    assert [op][..0] == [];
  }

  lemma {:induction false} EntriesSplit(synced: set<Path>, a: seq<Op>, b: seq<Op>, dir: Path)
    ensures EntriesAfter(synced, a + b, dir) == EntriesAfter(EntriesAfter(synced, a, dir), b, dir)
  {
    if b == [] {
      assert a + b == a;
    } else {
      EntriesSplit(synced, a, b[..|b| - 1], dir);
      assert (a + b)[..|a + b| - 1] == a + b[..|b| - 1];
    }
  }

  /** Syncing a directory applies the lone operation to what was stored before. */
  lemma {:induction false} LoneFlush(d: Disk, synced: set<Path>, log: seq<Op>, k: nat, p: Path, q: Path, dir: Path)
      returns (d1: Disk, s1: set<Path>)
    requires Lone(log, k, p, q) && FlushedBy(log[k], dir)
    ensures SameEntry(d, d1, p) && SameEntry(d, d1, q) && (p in s1 <==> p in synced) && (q in s1 <==> q in synced)
    ensures SameEntry(Apply(d1, log[k]), Replay(d, Flush(log, dir)), p)
    ensures SameEntry(Apply(d1, log[k]), Replay(d, Flush(log, dir)), q)
    ensures p in EntriesAfter(synced, Flush(log, dir), dir) <==> p in Entries(s1, log[k], dir)
    ensures q in EntriesAfter(synced, Flush(log, dir), dir) <==> q in Entries(s1, log[k], dir)
  {
    LoneSplits(log, k, p, q);
    var a, op, b := log[..k], log[k], log[k + 1..];
    var fa, fb := Flush(a, dir), Flush(b, dir);
    FlushAppend(a + [op], b, dir);
    FlushAppend(a, [op], dir);
    FlushOne(op, dir);
    d1, s1 := Replay(d, fa), EntriesAfter(synced, fa, dir);
    forall r | r == p || r == q
      ensures SameEntry(d, d1, r) && SameEntry(Apply(d1, op), Replay(Apply(d1, op), fb), r)
      ensures r in s1 <==> r in synced
      ensures r in EntriesAfter(Entries(s1, op, dir), fb, dir) <==> r in Entries(s1, op, dir)
    {
      QuietFlush(a, dir, r);
      QuietFlush(b, dir, r);
      QuietReplay(d, fa, r);
      QuietReplay(Apply(d1, op), fb, r);
      QuietEntries(synced, fa, dir, r);
      QuietEntries(Entries(s1, op, dir), fb, dir, r);
    }
    ReplayThrough(d, fa, op, fb);
    EntriesThrough(synced, fa, op, fb, dir);
  }

  lemma ReplayThrough(d: Disk, a: seq<Op>, op: Op, b: seq<Op>)
    ensures Replay(d, a + [op] + b) == Replay(Apply(Replay(d, a), op), b)
  {
    ReplaySplit(d, a + [op], b);
    assert (a + [op])[..|a + [op]| - 1] == a;
  }

  lemma EntriesThrough(synced: set<Path>, a: seq<Op>, op: Op, b: seq<Op>, dir: Path)
    ensures EntriesAfter(synced, a + [op] + b, dir)
          == EntriesAfter(Entries(EntriesAfter(synced, a, dir), op, dir), b, dir)
  {
    EntriesSplit(synced, a + [op], b, dir);
    assert (a + [op])[..|a + [op]| - 1] == a;
  }

  // ---- reading what nothing pending changes ----

  lemma {:induction false} QuietPaths(log: seq<Op>, p: Path)
    requires Quiet(log, p)
    ensures PersistedPath(log, p) == p && LinkTarget(log, p) == None
  {
    if log != [] {
      assert !Concerns(log[|log| - 1], p);
      QuietPaths(log[..|log| - 1], p);
    }
  }

  lemma QuietReads(d: Disk, log: seq<Op>, p: Path, offset: nat, len: nat)
    requires Quiet(log, p)
    ensures MergedRead(d, log, p, offset, len) == Slice(Start(d, p), offset, len)
  {
    forall i | 0 <= i < |log| ensures !Moves(log[i], p) && !Touches(log[i], p) {
      assert !Concerns(log[i], p);
    }
    UnmovedReads(d, log, p);
    UntouchedSlice(d, log, p, offset, len);
  }

  lemma UntouchedSlice(d: Disk, log: seq<Op>, p: Path, offset: nat, len: nat)
    requires forall i :: 0 <= i < |log| ==> !Touches(log[i], p)
    ensures Read(d, log, p, offset, len) == Slice(Start(d, p), offset, len)
  {
    forall i: nat ensures FileLen(d, log, p) == |Start(d, p)| && Overlay(d, log, p, i) == ByteAt(Start(d, p), i) {
      UntouchedReads(d, log, p, i);
    }
    UntouchedReads(d, log, p, 0);
    var r, s := Read(d, log, p, offset, len), Slice(Start(d, p), offset, len);
    assert |r| == |s|;
    assert forall k :: 0 <= k < |r| ==> r[k] == s[k];
  }

  /** Nothing is renamed to the path, so nothing else feeds it. */
  lemma {:induction false} NothingElseFeeds(log: seq<Op>, q: Path, c: Path)
    requires forall i :: 0 <= i < |log| ==> !RenamesTo(log[i], c)
    ensures RenamedPath(log, q) == c ==> q == c
  {
    if log != [] {
      assert !RenamesTo(log[|log| - 1], c);
      NothingElseFeeds(log[..|log| - 1], q, c);
    }
  }

  lemma {:induction false} RedirectedUntouched(log: seq<Op>, ops: seq<Op>, c: Path)
    requires forall i :: 0 <= i < |log| ==> !RenamesTo(log[i], c)
    requires forall i :: 0 <= i < |ops| ==> !Touches(ops[i], c)
    ensures forall i :: 0 <= i < |Redirected(log, ops, c)| ==> !Touches(Redirected(log, ops, c)[i], c)
  {
    if ops != [] {
      var op := ops[|ops| - 1];
      RedirectedUntouched(log, ops[..|ops| - 1], c);
      if op.Write? || op.SetLen? {
        NothingElseFeeds(log, op.path, c);
      }
    }
  }

  /** Reads of a path whose content is at `c`, which the log does not touch. */
  lemma SourceReads(d: Disk, log: seq<Op>, p: Path, c: Path, offset: nat, len: nat)
    requires Source(log, p) == c
    requires forall i :: 0 <= i < |log| ==> !RenamesTo(log[i], c) && !Touches(log[i], c)
    ensures MergedRead(d, log, p, offset, len) == Slice(Start(d, c), offset, len)
  {
    RedirectedUntouched(log, log, c);
    UntouchedSlice(d, AsSeen(log, c), c, offset, len);
  }

  // ---- renames ----

  lemma {:induction false} PersistedAppend(a: seq<Op>, b: seq<Op>, p: Path)
    ensures PersistedPath(a + b, p) == PersistedPath(a, PersistedPath(b, p))
  {
    if b == [] {
      assert a + b == a;
    } else {
      var op := b[|b| - 1];
      PersistedAppend(a, b[..|b| - 1], if RenamesTo(op, p) then op.from else p);
      assert (a + b)[..|a + b| - 1] == a + b[..|b| - 1];
    }
  }

  lemma {:induction false} NoLinks(log: seq<Op>, p: Path)
    requires forall i :: 0 <= i < |log| ==> !LinksAt(log[i], p)
    ensures LinkTarget(log, p) == None
  {
    if log != [] {
      NoLinks(log[..|log| - 1], p);
    }
  }

  predicate LoneRename(log: seq<Op>, k: nat, f: Path, t: Path) {
    Lone(log, k, f, t) && log[k] == Rename(f, t) && f != t
  }

  lemma RenamedSource(log: seq<Op>, k: nat, f: Path, t: Path)
    requires LoneRename(log, k, f, t)
    ensures Source(log, t) == f
    ensures forall i :: 0 <= i < |log| ==> !RenamesTo(log[i], f) && !Touches(log[i], f)
  {
    LoneSplits(log, k, f, t);
    var a, b := log[..k], log[k + 1..];
    PersistedAppend(a + [log[k]], b, t);
    QuietPaths(b, t);
    assert (a + [log[k]])[..|a + [log[k]]| - 1] == a;
    QuietPaths(a, f);
    forall i | 0 <= i < |log| ensures !LinksAt(log[i], t) && !RenamesTo(log[i], f) && !Touches(log[i], f) {
      assert i != k ==> !Concerns(log[i], t) && !Concerns(log[i], f);
    }
    NoLinks(log, t);
  }

  /** A pending rename of a stored file, alone on its two paths: syncing the
      directory of either changes no read of the new name; and after a crash
      then, the new name has the same bytes, if its own directory was the one
      synced or its entry was durable before, and is gone otherwise; the old name
      is gone. */
  lemma {:induction false} RenameMovesBytes(fs: Fs, k: nat, f: Path, t: Path, dir: Path, offset: nat, len: nat)
    requires LoneRename(fs.pending, k, f, t) && f in fs.disk.files && FlushedBy(Rename(f, t), dir)
    requires EntryKind(fs.disk, fs.pending, dir) == Some(Directory)
    ensures var before := MergedRead(fs.disk, fs.pending, t, offset, len);
            var fs' := SyncDir(fs, dir);
            var after := Crash(fs');
            && before == Slice(fs.disk.files[f], offset, len)
            && MergedRead(fs'.disk, fs'.pending, t, offset, len) == before
            && f !in after.disk.files && (Parent(f) == Some(dir) ==> f !in fs'.synced)
            && (t in after.disk.files <==> Parent(t) == Some(dir) || t in fs.synced)
            && (t in after.disk.files ==> MergedRead(after.disk, after.pending, t, offset, len) == before)
  {
    var fs' := SyncDir(fs, dir);
    RenamedSource(fs.pending, k, f, t);
    SourceReads(fs.disk, fs.pending, t, f, offset, len);
    var d1, s1 := LoneFlush(fs.disk, fs.synced, fs.pending, k, f, t, dir);
    KeepQuiet(fs.pending, dir, t);
    QuietReads(fs'.disk, fs'.pending, t, offset, len);
    QuietReads(Crash(fs').disk, [], t, offset, len);
  }

  // ---- hard links ----

  predicate LoneLink(log: seq<Op>, k: nat, p: Path, t: Path) {
    Lone(log, k, t, p) && log[k] == CreateHardLink(p, t) && p != t
  }

  lemma {:induction false} LinkAppend(a: seq<Op>, b: seq<Op>, p: Path)
    requires forall i :: 0 <= i < |b| ==> !LinksAt(b[i], p)
    ensures LinkTarget(a + b, p) == LinkTarget(a, p)
  {
    if b == [] {
      assert a + b == a;
    } else {
      LinkAppend(a, b[..|b| - 1], p);
      assert (a + b)[..|a + b| - 1] == a + b[..|b| - 1];
    }
  }

  lemma LinkedSource(log: seq<Op>, k: nat, p: Path, t: Path)
    requires LoneLink(log, k, p, t)
    ensures Source(log, p) == t && Source(log, t) == t
    ensures forall i :: 0 <= i < |log| ==> !RenamesTo(log[i], t) && !Touches(log[i], t)
  {
    LoneSplits(log, k, t, p);
    var a, b := log[..k], log[k + 1..];
    assert forall i :: 0 <= i < |b| ==> !Concerns(b[i], p);
    LinkAppend(a + [log[k]], b, p);
    assert (a + [log[k]])[..|a + [log[k]]| - 1] == a;
    QuietPaths(a, p);
    forall i | 0 <= i < |log| ensures !LinksAt(log[i], t) && !RenamesTo(log[i], t) && !Touches(log[i], t) {
      assert i != k ==> !Concerns(log[i], t);
    }
    NoLinks(log, t);
    PersistedAppend(a + [log[k]], b, t);
    QuietPaths(b, t);
    QuietPaths(a, t);
    assert ContentPath(log, t, |log| - 1) == Some(t);
  }

  /** A pending hard link to a stored file, alone on its two paths: link and
      target read the same, syncing the link's directory changes no read of
      either, and after a crash then the link still has the bytes. */
  lemma {:induction false} LinkSharesBytes(fs: Fs, k: nat, p: Path, t: Path, dir: Path, offset: nat, len: nat)
    requires LoneLink(fs.pending, k, p, t) && t in fs.disk.files && Parent(p) == Some(dir)
    requires EntryKind(fs.disk, fs.pending, dir) == Some(Directory)
    ensures var before := MergedRead(fs.disk, fs.pending, p, offset, len);
            var fs' := SyncDir(fs, dir);
            var after := Crash(fs');
            && before == Slice(fs.disk.files[t], offset, len) == MergedRead(fs.disk, fs.pending, t, offset, len)
            && MergedRead(fs'.disk, fs'.pending, p, offset, len) == before
            && MergedRead(fs'.disk, fs'.pending, t, offset, len) == before
            && p in after.disk.files && MergedRead(after.disk, after.pending, p, offset, len) == before
  {
    var fs' := SyncDir(fs, dir);
    LinkedSource(fs.pending, k, p, t);
    SourceReads(fs.disk, fs.pending, p, t, offset, len);
    SourceReads(fs.disk, fs.pending, t, t, offset, len);
    var d1, s1 := LoneFlush(fs.disk, fs.synced, fs.pending, k, t, p, dir);
    KeepQuiet(fs.pending, dir, p);
    KeepQuiet(fs.pending, dir, t);
    QuietReads(fs'.disk, fs'.pending, p, offset, len);
    QuietReads(fs'.disk, fs'.pending, t, offset, len);
    QuietReads(Crash(fs').disk, [], p, offset, len);
  }

  // ---- removal ----

  /** A pending removal, alone on its path: the entry is gone from the log's view
      at once, a crash before the sync of its directory brings it back as it was,
      and after that sync no crash does. */
  lemma {:induction false} RemovalNeedsSync(fs: Fs, k: nat, p: Path, dir: Path)
    requires Lone(fs.pending, k, p, p) && Parent(p) == Some(dir) && KindOf(fs.disk, p).Some? && p in fs.synced
    requires fs.pending[k] == if KindOf(fs.disk, p) == Some(Directory) then RemoveDir(p) else RemoveFile(p)
    requires KindOf(fs.disk, p) == Some(Directory) ==> p !in fs.disk.symlinks
    requires KindOf(fs.disk, p) != Some(Directory) ==> p !in fs.disk.dirs
    requires EntryKind(fs.disk, fs.pending, dir) == Some(Directory)
    ensures var fs' := SyncDir(fs, dir);
            && EntryKind(fs.disk, fs.pending, p) == None
            && EntryKind(Crash(fs).disk, Crash(fs).pending, p) == KindOf(fs.disk, p)
            && EntryKind(fs'.disk, fs'.pending, p) == None && p !in fs'.synced
            && EntryKind(Crash(fs').disk, Crash(fs').pending, p) == None
  {
    var fs', log := SyncDir(fs, dir), fs.pending;
    LoneSplits(log, k, p, p);
    var a, b := log[..k], log[k + 1..];
    QuietKind(fs.disk, a + [log[k]], b, p);
    assert (a + [log[k]])[..|a + [log[k]]| - 1] == a;
    CrashLeaves(fs, p);
    var d1, s1 := LoneFlush(fs.disk, fs.synced, log, k, p, p, dir);
    KeepQuiet(log, dir, p);
    QuietKind(fs'.disk, [], fs'.pending, p);
    assert [] + fs'.pending == fs'.pending;
    CrashLeaves(fs', p);
  }

  lemma {:induction false} QuietKind(d: Disk, a: seq<Op>, b: seq<Op>, p: Path)
    requires Quiet(b, p)
    ensures EntryKind(d, a + b, p) == EntryKind(d, a, p)
  {
    if b == [] {
      assert a + b == a;
    } else {
      assert !Concerns(b[|b| - 1], p);
      QuietKind(d, a, b[..|b| - 1], p);
      assert (a + b)[..|a + b| - 1] == a + b[..|b| - 1];
    }
  }

  // ---- symlinks ----

  /** What the newest creation or removal at the path says, else stable storage. */
  function TargetAt(d: Disk, log: seq<Op>, p: Path): Option<Path> {
    if log == [] then (if p in d.symlinks then Some(d.symlinks[p]) else None)
    else match log[|log| - 1]
      case CreateSymlink(q, t) => if q == p then Some(t) else TargetAt(d, log[..|log| - 1], p)
      case RemoveFile(q) => if q == p then None else TargetAt(d, log[..|log| - 1], p)
      case _ => TargetAt(d, log[..|log| - 1], p)
  }

  /** `read_link`. */
  function ReadLink(d: Disk, log: seq<Op>, p: Path): Option<Path> {
    TargetAt(d, log, PersistedPath(log, p))
  }

  lemma {:induction false} QuietTarget(d: Disk, a: seq<Op>, b: seq<Op>, p: Path)
    requires Quiet(b, p)
    ensures TargetAt(d, a + b, p) == TargetAt(d, a, p)
  {
    if b == [] {
      assert a + b == a;
    } else {
      assert !Concerns(b[|b| - 1], p);
      QuietTarget(d, a, b[..|b| - 1], p);
      assert (a + b)[..|a + b| - 1] == a + b[..|b| - 1];
    }
  }

  lemma QuietReadLink(d: Disk, log: seq<Op>, p: Path)
    requires Quiet(log, p)
    ensures ReadLink(d, log, p) == if p in d.symlinks then Some(d.symlinks[p]) else None
  {
    QuietPaths(log, p);
    QuietTarget(d, [], log, p);
    assert [] + log == log;
  }

  /** A symlink that is new where nothing is stored reads as it was made, through
      the log, after its directory is synced, and after a crash then. */
  lemma {:induction false} NewSymlinkKeepsTarget(fs: Fs, k: nat, p: Path, target: Path, dir: Path)
    requires Lone(fs.pending, k, p, p) && fs.pending[k] == CreateSymlink(p, target)
    requires p !in fs.disk.symlinks && Parent(p) == Some(dir)
    requires EntryKind(fs.disk, fs.pending, dir) == Some(Directory)
    ensures var fs' := SyncDir(fs, dir);
            var after := Crash(fs');
            && ReadLink(fs.disk, fs.pending, p) == Some(target)
            && ReadLink(fs'.disk, fs'.pending, p) == Some(target)
            && ReadLink(after.disk, after.pending, p) == Some(target)
  {
    var fs', log := SyncDir(fs, dir), fs.pending;
    LoneSplits(log, k, p, p);
    var a, b := log[..k], log[k + 1..];
    PersistedAppend(a + [log[k]], b, p);
    QuietPaths(b, p);
    assert (a + [log[k]])[..|a + [log[k]]| - 1] == a;
    QuietPaths(a, p);
    QuietTarget(fs.disk, a + [log[k]], b, p);
    var d1, s1 := LoneFlush(fs.disk, fs.synced, log, k, p, p, dir);
    KeepQuiet(log, dir, p);
    QuietReadLink(fs'.disk, fs'.pending, p);
    QuietReadLink(Crash(fs').disk, [], p);
  }

  /** A stored symlink that is renamed takes its target along. */
  lemma {:induction false} RenameMovesTarget(fs: Fs, k: nat, f: Path, t: Path, dir: Path)
    requires LoneRename(fs.pending, k, f, t) && KindOf(fs.disk, f) == Some(Symlink) && Parent(t) == Some(dir)
    requires EntryKind(fs.disk, fs.pending, dir) == Some(Directory)
    ensures var fs' := SyncDir(fs, dir);
            var after := Crash(fs');
            && ReadLink(fs.disk, fs.pending, t) == Some(fs.disk.symlinks[f])
            && ReadLink(fs'.disk, fs'.pending, t) == Some(fs.disk.symlinks[f])
            && ReadLink(after.disk, after.pending, t) == Some(fs.disk.symlinks[f])
  {
    var fs', log := SyncDir(fs, dir), fs.pending;
    LoneSplits(log, k, f, t);
    var a, b := log[..k], log[k + 1..];
    PersistedAppend(a + [log[k]], b, t);
    QuietPaths(b, t);
    assert (a + [log[k]])[..|a + [log[k]]| - 1] == a;
    QuietPaths(a, f);
    QuietTarget(fs.disk, a + [log[k]], b, f);
    QuietTarget(fs.disk, [], a, f);
    assert [] + a == a;
    var d1, s1 := LoneFlush(fs.disk, fs.synced, log, k, f, t, dir);
    KeepQuiet(log, dir, t);
    QuietReadLink(fs'.disk, fs'.pending, t);
    QuietReadLink(Crash(fs').disk, [], t);
  }

  // ---- which writes a reader sees ----

  lemma DataKeepsPaths(log: seq<Op>, op: Op, p: Path)
    requires op.Write? || op.SetLen?
    ensures PersistedPath(log + [op], p) == PersistedPath(log, p)
    ensures RenamedPath(log + [op], p) == RenamedPath(log, p)
    ensures LinkTarget(log + [op], p) == LinkTarget(log, p)
  {
    assert (log + [op])[..|log + [op]| - 1] == log;
  }

  lemma {:induction false} DataKeepsContentPath(log: seq<Op>, op: Op, p: Path, n: nat)
    requires op.Write? || op.SetLen?
    ensures ContentPath(log + [op], p, n) == ContentPath(log, p, n)
    decreases n
  {
    DataKeepsPaths(log, op, p);
    if LinkTarget(log, p).Some? && n > 0 {
      DataKeepsContentPath(log, op, LinkTarget(log, p).value, n - 1);
    }
  }

  lemma DataKeepsSource(log: seq<Op>, op: Op, p: Path)
    requires op.Write? || op.SetLen?
    ensures Source(log + [op], p) == Source(log, p)
  {
    DataKeepsContentPath(log, op, p, |log + [op]|);
    ResolvesIff(log, p, |log| + 1);
    if Resolves(log, p) {
      MoreSteps(log, p, |log|, |log| + 1);
    }
  }

  lemma {:induction false} DataKeepsRedirects(log: seq<Op>, op: Op, ops: seq<Op>, c: Path)
    requires op.Write? || op.SetLen?
    ensures Redirected(log + [op], ops, c) == Redirected(log, ops, c)
  {
    if ops != [] {
      var last := ops[|ops| - 1];
      DataKeepsRedirects(log, op, ops[..|ops| - 1], c);
      if last.Write? || last.SetLen? {
        DataKeepsPaths(log, op, last.path);
      }
    }
  }

  /** The log as seen after one more data operation. */
  lemma DataSeen(log: seq<Op>, op: Op, c: Path)
    requires op.Write? || op.SetLen?
    ensures AsSeen(log + [op], c) == AsSeen(log, c) + [Redirect(log, op, c)]
  {
    DataKeepsRedirects(log, op, log + [op], c);
    assert (log + [op])[..|log + [op]| - 1] == log;
  }

  /** A write under one name is read back, whole, through another or the same,
      and changes no other byte there, exactly if it feeds the path that the
      reader's content is at; else no read through that name sees anything of
      it. */
  lemma WriteIsSeenIff(d: Disk, log: seq<Op>, q: Path, at: nat, data: seq<Byte>, p: Path, i: nat)
    ensures var log' := log + [Op.Write(q, at, data)];
            if Feeds(log, q, Source(log, p)) then
              && MergedLen(d, log', p) == (if at + |data| > MergedLen(d, log, p) then at + |data|
                  else MergedLen(d, log, p))
              && MergedRead(d, log', p, at, |data|) == data
              && (i < MergedLen(d, log, p) && !(at <= i < at + |data|) ==>
                    MergedRead(d, log', p, i, 1) == MergedRead(d, log, p, i, 1))
            else
              && MergedLen(d, log', p) == MergedLen(d, log, p)
              && forall offset: nat, len: nat :: MergedRead(d, log', p, offset, len)
                  == MergedRead(d, log, p, offset, len)
  {
    var op := Op.Write(q, at, data);
    var c := Source(log, p);
    DataKeepsSource(log, op, p);
    DataSeen(log, op, c);
    var seen, last := AsSeen(log, c), Redirect(log, op, c);
    assert (seen + [last])[..|seen + [last]| - 1] == seen;
    if Feeds(log, q, c) {
      ReadsBack(d, seen, c, at, data, i);
    } else {
      assert last == op && q != c;
      forall j: nat ensures Overlay(d, seen + [op], c, j) == Overlay(d, seen, c, j) {
      }
      forall offset: nat, len: nat ensures Read(d, seen + [op], c, offset, len) == Read(d, seen, c, offset, len) {
        SameReads(d, seen, d, seen + [op], c, offset, len);
      }
    }
  }

  /** A truncation sets the length exactly if its name feeds the content. */
  lemma TruncationIsSeenIff(d: Disk, log: seq<Op>, p: Path, n: nat)
    ensures MergedLen(d, log + [SetLen(p, n)], p)
         == if Feeds(log, p, Source(log, p)) then n else MergedLen(d, log, p)
  {
    var c := Source(log, p);
    DataKeepsSource(log, SetLen(p, n), p);
    DataSeen(log, SetLen(p, n), c);
    var seen, last := AsSeen(log, c), Redirect(log, SetLen(p, n), c);
    assert (seen + [last])[..|seen + [last]| - 1] == seen;
  }

  lemma ReadsBack(d: Disk, log: seq<Op>, c: Path, at: nat, data: seq<Byte>, i: nat)
    ensures var log' := log + [Op.Write(c, at, data)];
            && FileLen(d, log', c) == (if at + |data| > FileLen(d, log, c) then at + |data| else FileLen(d, log, c))
            && Read(d, log', c, at, |data|) == data
            && (i < FileLen(d, log, c) && !(at <= i < at + |data|) ==> Read(d, log', c, i, 1) == Read(d, log, c, i, 1))
  {
    var op := Op.Write(c, at, data);
    var log' := log + [op];
    assert log'[..|log'| - 1] == log;
    forall k | 0 <= k < |data| ensures Overlay(d, log', c, at + k) == data[k] {
      assert Covers(op, c, at + k);
    }
    if i < FileLen(d, log, c) && !(at <= i < at + |data|) {
      assert Overlay(d, log', c, i) == Overlay(d, log, c, i);
      assert Read(d, log', c, i, 1)[0] == Read(d, log, c, i, 1)[0];
    }
  }

  lemma OneRename(d: Disk, f: Path, t: Path, dir: Path)
    requires f != t && Parent(f) == Parent(t) == Some(dir) && f in d.files && dir in d.dirs && dir !in d.files
    ensures LoneRename([Rename(f, t)], 0, f, t) && Source([Rename(f, t)], t) == f && RenamedPath([Rename(f, t)], t) == t
    ensures EntryKind(d, [Rename(f, t)], t) == Some(File) && EntryKind(d, [Rename(f, t)], dir) == Some(Directory)
    ensures Flush([Rename(f, t)], dir) == [Rename(f, t)] && Keep([Rename(f, t)], dir) == []
  {
    var r := Rename(f, t);
    assert [r][..0] == [];
    assert |f| == |dir| + 1 && |t| == |dir| + 1;
    RenamedSource([r], 0, f, t);
    assert RenamedPath([], t) == t;
    assert EntryKind(d, [], f) == Some(File) && EntryKind(d, [], dir) == Some(Directory);
    FlushOne(r, dir);
    assert Keep([], dir) == [];
  }

  lemma SyncAfterRename(d: Disk, synced: set<Path>, f: Path, t: Path, dir: Path)
    requires f != t && Parent(f) == Parent(t) == Some(dir) && f in d.files && dir in d.dirs && dir !in d.files
    ensures var fs := SyncDir(Fs(d, synced, [Rename(f, t)]), dir);
            t in fs.disk.files && fs.disk.files[t] == d.files[f] && fs.pending == []
  {
    OneRename(d, f, t, dir);
    assert [Rename(f, t)][..0] == [];
    assert Replay(d, [Rename(f, t)]) == Apply(Replay(d, []), Rename(f, t));
  }

  /** A file renamed and then written under its new name reads as if it had not
      been written; and though the write is synced, the sync of the directory
      puts the old bytes in its place. */
  lemma WriteAfterRenameIsLost(fs: Fs, f: Path, t: Path, dir: Path, at: nat, data: seq<Byte>, offset: nat, len: nat)
    requires f != t && Parent(f) == Parent(t) == Some(dir) && f in fs.disk.files
    requires dir in fs.disk.dirs && dir !in fs.disk.files && fs.pending == [Rename(f, t)]
    ensures var fs1 := fs.(pending := fs.pending + [Op.Write(t, at, data)]);
            var fs2 := SyncDir(SyncFile(fs1, t), dir);
            && MergedRead(fs1.disk, fs1.pending, t, offset, len) == Slice(fs.disk.files[f], offset, len)
            && t in fs2.disk.files && fs2.disk.files[t] == fs.disk.files[f] && fs2.pending == []
  {
    var r, w := Rename(f, t), Op.Write(t, at, data);
    OneRename(fs.disk, f, t, dir);
    RenamedSource([r], 0, f, t);
    SourceReads(fs.disk, [r], t, f, offset, len);
    WriteIsSeenIff(fs.disk, [r], t, at, data, t, 0);
    var fs1 := fs.(pending := [r] + [w]);
    assert fs1.pending[..1] == [r] && [r][..0] == [];
    assert EntryKind(fs.disk, fs1.pending, t) == EntryKind(fs.disk, [r], t);
    SyncPersists(fs1, t);
    assert OtherOps([], t) == [] && OtherOps([r], t) == [r] && OtherOps([r] + [w], t) == [r];
    assert |t| == |dir| + 1;
    SyncAfterRename(SyncFile(fs1, t).disk, fs.synced, f, t, dir);
  }

  /** In the concrete: a file moves away, and another is written and then moves
      into its old place: the write shows up in the file that moved away. */
  lemma ForeignWriteShows(p: Path, q: Path, c: Path, x: Byte, y: Byte, z: Byte)
    requires p != q && q != c && p != c
    ensures var d := Disk(map[c := [x], q := [y]], {[]}, map[]);
            MergedRead(d, [Rename(c, p), Op.Write(q, 0, [z]), Rename(q, c)], p, 0, 1) == [z]
  {
    var d := Disk(map[c := [x], q := [y]], {[]}, map[]);
    var a, w, b := Rename(c, p), Op.Write(q, 0, [z]), Rename(q, c);
    var log := [a, w, b];
    assert log[..2] == [a, w] && [a, w][..1] == [a] && [a][..0] == [];
    NoLinks(log, p);
    assert PersistedPath([], c) == c && PersistedPath([a], p) == c;
    assert PersistedPath(log, p) == PersistedPath([a, w], p) == PersistedPath([a], p);
    assert Source(log, p) == c;
    assert RenamedPath([a], q) == q;
    assert RenamedPath(log, q) == c;
    assert Redirected(log, [a], c) == [a];
    assert Redirected(log, [a, w], c) == [a, Op.Write(c, 0, [z])];
    var seen := [a, Op.Write(c, 0, [z]), b];
    assert AsSeen(log, c) == seen;
    assert seen[..2] == [a] + [Op.Write(c, 0, [z])];
    ReadsBack(d, [a], c, 0, [z], 0);
    assert FileLen(d, seen, c) == FileLen(d, seen[..2], c);
    assert Overlay(d, seen, c, 0) == Overlay(d, seen[..2], c, 0);
  }

  // ---- linking again ----

  /** A link is followed to its target exactly if none was pending at the path
      before, not even one since removed, or that had the same target. */
  lemma RelinkIff(log: seq<Op>, p: Path, t: Path)
    ensures LinkTarget(log + [CreateHardLink(p, t)], p) == Some(t) <==>
              LinkTarget(log, p) == None || LinkTarget(log, p) == Some(t)
  {
    assert (log + [CreateHardLink(p, t)])[..|log + [CreateHardLink(p, t)]| - 1] == log;
  }

  /** In the concrete: linked, removed, and linked to another file, every call
      admitted, the path still reads as the first. */
  lemma RelinkedReadsOld(dir: Path, p: Path, a: Path, b: Path, x: Byte, y: Byte)
    requires Parent(p) == Some(dir) && p != a && p != b && a != b && dir != a && dir != b
    ensures var d := Disk(map[a := [x], b := [y]], {dir}, map[]);
            var log := [CreateHardLink(p, a), RemoveFile(p), CreateHardLink(p, b)];
            && Admitted(d, [], log[0]) && Admitted(d, [log[0]], log[1]) && Admitted(d, [log[0], log[1]], log[2])
            && MergedRead(d, log, p, 0, 1) == [x]
  {
    var d := Disk(map[a := [x], b := [y]], {dir}, map[]);
    var l, r, m := CreateHardLink(p, a), RemoveFile(p), CreateHardLink(p, b);
    var log := [l, r, m];
    assert log[..2] == [l, r] && [l, r][..1] == [l] && [l][..0] == [];
    assert |p| == |dir| + 1;
    assert EntryKind(d, [l], p) == Some(File);
    assert EntryKind(d, [l, r], p) == None;
    assert EntryKind(d, [l, r], b) == EntryKind(d, [l], b) == EntryKind(d, [], b) == Some(File);
    assert EntryKind(d, [l, r], dir) == EntryKind(d, [l], dir) == EntryKind(d, [], dir) == Some(Directory);
    assert LinkTarget([l], p) == Some(a);
    assert LinkTarget([l, r], p) == Some(a);
    assert LinkTarget(log, p) == Some(a);
    NoLinks(log, a);
    assert PersistedPath([], a) == a && PersistedPath([l], a) == a && PersistedPath([l, r], a) == a;
    assert PersistedPath(log, a) == PersistedPath([l, r], a);
    assert ContentPath(log, a, 2) == Some(a);
    SourceReads(d, log, p, a, 0, 1);
    assert Slice(Start(d, a), 0, 1) == [x];
  }
}
