/** Syncing one file, and what that does to reads of any. */
module FsSync {
  import opened Common
  import opened SeqSpace
  import opened FsSpec
  import opened FsNamespace
  import opened FsLinks
  import opened FsContent

  // ---- syncing a file ----

  /** Stable storage, durable directory entries, and the log. */
  datatype Fs = Fs(disk: Disk, synced: set<Path>, pending: seq<Op>)

  function DataOps(log: seq<Op>, p: Path): seq<Op> {
    if log == [] then []
    else DataOps(log[..|log| - 1], p) + (if Touches(log[|log| - 1], p) then [log[|log| - 1]] else [])
  }

  function OtherOps(log: seq<Op>, p: Path): seq<Op> {
    if log == [] then []
    else OtherOps(log[..|log| - 1], p) + (if Touches(log[|log| - 1], p) then [] else [log[|log| - 1]])
  }

  /** `sync_file` and `sync_file_data`: the file's data operations leave the
      log for stable storage; its directory entry stays as it was. */
  function SyncFile(fs: Fs, p: Path): Fs {
    if EntryKind(fs.disk, fs.pending, p) != Some(File) then fs
    else
      var d := fs.disk.(files := fs.disk.files[p := Start(fs.disk, p)]);
      fs.(disk := Replay(d, DataOps(fs.pending, p)), pending := OtherOps(fs.pending, p))
  }

  lemma TouchApplies(d: Disk, c: seq<Byte>, op: Op, p: Path)
    requires Touches(op, p)
    ensures Apply(d.(files := d.files[p := c]), op) == d.(files := d.files[p := ApplyData(c, op, p)])
  {
    assert d.files[p := c][p := ApplyData(c, op, p)] == d.files[p := ApplyData(c, op, p)];
  }

  /** Replaying the data operations touches that one file. */
  lemma {:induction false} DataOpsReplay(d: Disk, log: seq<Op>, p: Path)
    requires p in d.files
    ensures Replay(d, DataOps(log, p)) == d.(files := d.files[p := Content(d, log, p)])
  {
    if log == [] {
      assert d.files[p := d.files[p]] == d.files;
    } else {
      var before, op := log[..|log| - 1], log[|log| - 1];
      DataOpsReplay(d, before, p);
      if Touches(op, p) {
        assert DataOps(log, p)[..|DataOps(log, p)| - 1] == DataOps(before, p);
        TouchApplies(d, Content(d, before, p), op, p);
      } else {
        assert DataOps(log, p) == DataOps(before, p);
      }
    }
  }

  lemma {:induction false} ContentFromStart(d: Disk, e: Disk, log: seq<Op>, p: Path)
    requires Start(d, p) == Start(e, p)
    ensures Content(d, log, p) == Content(e, log, p)
  {
    if log != [] {
      ContentFromStart(d, e, log[..|log| - 1], p);
    }
  }

  /** The result of a sync: the file's content on stable storage, whole. */
  lemma SyncPersists(fs: Fs, p: Path)
    requires EntryKind(fs.disk, fs.pending, p) == Some(File)
    ensures SyncFile(fs, p).disk == fs.disk.(files := fs.disk.files[p := Content(fs.disk, fs.pending, p)])
  {
    var d := fs.disk.(files := fs.disk.files[p := Start(fs.disk, p)]);
    DataOpsReplay(d, fs.pending, p);
    ContentFromStart(d, fs.disk, fs.pending, p);
  }

  lemma {:induction false} OtherOpsUntouched(log: seq<Op>, p: Path)
    ensures forall i :: 0 <= i < |OtherOps(log, p)| ==> !Touches(OtherOps(log, p)[i], p)
  {
    if log != [] {
      OtherOpsUntouched(log[..|log| - 1], p);
    }
  }

  /** Without data operations the log is invisible to readers of the file. */
  lemma {:induction false} UntouchedReads(d: Disk, log: seq<Op>, p: Path, i: nat)
    requires forall j :: 0 <= j < |log| ==> !Touches(log[j], p)
    ensures FileLen(d, log, p) == |Start(d, p)| && Overlay(d, log, p, i) == ByteAt(Start(d, p), i)
  {
    if log != [] {
      assert !Touches(log[|log| - 1], p);
      UntouchedReads(d, log[..|log| - 1], p, i);
    }
  }

  /** Other files' operations are all still in the log, in order. */
  lemma {:induction false} OthersRead(d: Disk, e: Disk, log: seq<Op>, p: Path, q: Path, i: nat)
    requires p != q && Start(d, q) == Start(e, q)
    ensures FileLen(e, OtherOps(log, p), q) == FileLen(d, log, q)
    ensures Overlay(e, OtherOps(log, p), q, i) == Overlay(d, log, q, i)
  {
    if log != [] {
      var before, op := log[..|log| - 1], log[|log| - 1];
      OthersRead(d, e, before, p, q, i);
      if Touches(op, p) {
        assert OtherOps(log, p) == OtherOps(before, p);
      } else {
        assert OtherOps(log, p)[..|OtherOps(log, p)| - 1] == OtherOps(before, p);
      }
    }
  }

  lemma SameReads(d: Disk, a: seq<Op>, e: Disk, b: seq<Op>, p: Path, offset: nat, len: nat)
    requires FileLen(d, a, p) == FileLen(e, b, p)
    requires forall i: nat :: Overlay(d, a, p, i) == Overlay(e, b, p, i)
    ensures Read(d, a, p, offset, len) == Read(e, b, p, offset, len)
  {
  }

  /** After a sync the file reads as its content; no other file's reads change. */
  lemma ReadsAfterSync(fs: Fs, p: Path, q: Path, offset: nat, len: nat)
    requires EntryKind(fs.disk, fs.pending, p) == Some(File)
    ensures var fs' := SyncFile(fs, p);
            Read(fs'.disk, fs'.pending, q, offset, len)
            == if p == q then Slice(Content(fs.disk, fs.pending, p), offset, len)
               else Read(fs.disk, fs.pending, q, offset, len)
  {
    var fs' := SyncFile(fs, p);
    SyncPersists(fs, p);
    OtherOpsUntouched(fs.pending, p);
    forall i: nat ensures
      if p == q then Overlay(fs'.disk, fs'.pending, p, i) == ByteAt(Content(fs.disk, fs.pending, p), i)
                     && FileLen(fs'.disk, fs'.pending, p) == |Content(fs.disk, fs.pending, p)|
      else Overlay(fs'.disk, fs'.pending, q, i) == Overlay(fs.disk, fs.pending, q, i)
           && FileLen(fs'.disk, fs'.pending, q) == FileLen(fs.disk, fs.pending, q)
    {
      if p == q {
        UntouchedReads(fs'.disk, fs'.pending, p, i);
      } else {
        OthersRead(fs.disk, fs'.disk, fs.pending, p, q, i);
      }
    }
    if p != q {
      assert FileLen(fs'.disk, fs'.pending, q) == FileLen(fs.disk, fs.pending, q)
        by { OthersRead(fs.disk, fs'.disk, fs.pending, p, q, 0); }
      SameReads(fs'.disk, fs'.pending, fs.disk, fs.pending, q, offset, len);
    } else {
      assert FileLen(fs'.disk, fs'.pending, p) == |Content(fs.disk, fs.pending, p)|
        by { UntouchedReads(fs'.disk, fs'.pending, p, 0); }
    }
  }

  // ---- syncing one file, reading any ----

  /** Data operations out of the log leave every rename and link in it. */
  lemma {:induction false} SamePaths(log: seq<Op>, p: Path, q: Path)
    ensures var rest := OtherOps(log, p);
            && PersistedPath(rest, q) == PersistedPath(log, q)
            && RenamedPath(rest, q) == RenamedPath(log, q)
            && LinkTarget(rest, q) == LinkTarget(log, q)
  {
    if log != [] {
      var before, op := log[..|log| - 1], log[|log| - 1];
      SamePaths(before, p, q);
      if Touches(op, p) {
        assert OtherOps(log, p) == OtherOps(before, p);
      } else {
        assert OtherOps(log, p)[..|OtherOps(log, p)| - 1] == OtherOps(before, p);
        SamePaths(before, p, if RenamesTo(op, q) then op.from else q);
      }
    }
  }

  lemma {:induction false} SameContentPath(log: seq<Op>, p: Path, q: Path, n: nat)
    ensures ContentPath(OtherOps(log, p), q, n) == ContentPath(log, q, n)
    decreases n
  {
    SamePaths(log, p, q);
    if n > 0 && LinkTarget(log, q).Some? {
      SameContentPath(log, p, LinkTarget(log, q).value, n - 1);
    }
  }

  lemma SameSource(log: seq<Op>, p: Path, q: Path)
    ensures Source(OtherOps(log, p), q) == Source(log, q)
  {
    var rest := OtherOps(log, p);
    SameContentPath(log, p, q, |log|);
    SameContentPath(log, p, q, |rest|);
    ResolvesIff(rest, q, |log|);
    ResolvesIff(log, q, |rest|);
  }

  /** What a reader of `c` sees of the others' operations. */
  lemma {:induction false} OthersRedirected(log: seq<Op>, ops: seq<Op>, p: Path, c: Path)
    requires !Feeds(log, p, c)
    ensures Redirected(OtherOps(log, p), OtherOps(ops, p), c) == OtherOps(Redirected(log, ops, c), p)
  {
    if ops != [] {
      var before, op := ops[..|ops| - 1], ops[|ops| - 1];
      OthersRedirected(log, before, p, c);
      var seen := Redirected(log, ops, c);
      assert seen[..|seen| - 1] == Redirected(log, before, c);
      if Touches(op, p) {
        assert OtherOps(ops, p) == OtherOps(before, p);
      } else {
        assert OtherOps(ops, p)[..|OtherOps(ops, p)| - 1] == OtherOps(before, p);
        if op.Write? || op.SetLen? {
          SamePaths(log, p, op.path);
        }
      }
    }
  }

  /** A sync of `p` changes no read of any file that `p` does not feed, whatever
      is renamed, linked or removed in the log. */
  lemma SyncSparesOthers(fs: Fs, p: Path, q: Path, offset: nat, len: nat)
    requires EntryKind(fs.disk, fs.pending, p) == Some(File) && !Feeds(fs.pending, p, Source(fs.pending, q))
    ensures var fs' := SyncFile(fs, p);
            MergedRead(fs'.disk, fs'.pending, q, offset, len) == MergedRead(fs.disk, fs.pending, q, offset, len)
  {
    var fs' := SyncFile(fs, p);
    var c := Source(fs.pending, q);
    SameSource(fs.pending, p, q);
    OthersRedirected(fs.pending, fs.pending, p, c);
    SyncPersists(fs, p);
    var seen := AsSeen(fs.pending, c);
    forall i: nat ensures Overlay(fs'.disk, OtherOps(seen, p), c, i) == Overlay(fs.disk, seen, c, i) {
      OthersRead(fs.disk, fs'.disk, seen, p, c, i);
    }
    OthersRead(fs.disk, fs'.disk, seen, p, c, 0);
    SameReads(fs'.disk, OtherOps(seen, p), fs.disk, seen, c, offset, len);
  }

  lemma {:induction false} StaysUnmoved(log: seq<Op>, p: Path)
    requires Unmoved(log, p)
    ensures Unmoved(OtherOps(log, p), p)
  {
    if log != [] {
      var before := log[..|log| - 1];
      assert forall i :: 0 <= i < |before| ==> before[i] == log[i];
      StaysUnmoved(before, p);
    }
  }

  /** A sync of a file that is not itself renamed or linked changes no read of
      any file, exactly when that file has its content elsewhere or nothing in
      the range of the read resurfaces from behind a truncation. */
  lemma SyncChangesNoReadIff(fs: Fs, p: Path, q: Path, offset: nat, len: nat)
    requires EntryKind(fs.disk, fs.pending, p) == Some(File) && Unmoved(fs.pending, p)
    ensures var fs' := SyncFile(fs, p);
            MergedRead(fs'.disk, fs'.pending, q, offset, len) == MergedRead(fs.disk, fs.pending, q, offset, len) <==>
              Source(fs.pending, q) != p || Clear(fs.disk, fs.pending, p, offset, len)
  {
    UnmovedPaths(fs.pending, p, p);
    if Source(fs.pending, q) != p {
      SyncSparesOthers(fs, p, q, offset, len);
    } else {
      SameSource(fs.pending, p, q);
      StaysUnmoved(fs.pending, p);
      UnmovedRedirects(fs.pending, fs.pending, p);
      UnmovedRedirects(OtherOps(fs.pending, p), OtherOps(fs.pending, p), p);
      ReadsAfterSync(fs, p, p, offset, len);
      ReadIsContentIff(fs.disk, fs.pending, p, offset, len);
    }
  }

  /** In a log whose truncations never shrink the file, it changes none. */
  lemma SyncChangesNoRead(fs: Fs, p: Path, q: Path, offset: nat, len: nat)
    requires EntryKind(fs.disk, fs.pending, p) == Some(File) && Unmoved(fs.pending, p)
    requires NonShrinking(fs.disk, fs.pending, p)
    ensures var fs' := SyncFile(fs, p);
            MergedRead(fs'.disk, fs'.pending, q, offset, len) == MergedRead(fs.disk, fs.pending, q, offset, len)
  {
    SyncChangesNoReadIff(fs, p, q, offset, len);
    forall i | offset <= i < Min(offset + len, FileLen(fs.disk, fs.pending, p))
        ensures !Resurfaces(fs.disk, fs.pending, p, i) {
      NothingResurfaces(fs.disk, fs.pending, p, i);
    }
  }

  // ---- syncing any file, reading any ----

  /** The other paths' operations, as a reader of `c` takes them. */
  function Rest(log: seq<Op>, p: Path, c: Path): seq<Op> {
    Redirected(log, OtherOps(log, p), c)
  }

  /** What a sync of `p` leaves stored. */
  function Flushed(d: Disk, log: seq<Op>, p: Path): Disk {
    d.(files := d.files[p := Content(d, log, p)])
  }

  lemma {:induction false} SameRedirects(log: seq<Op>, p: Path, ops: seq<Op>, c: Path)
    ensures Redirected(OtherOps(log, p), ops, c) == Redirected(log, ops, c)
  {
    if ops != [] {
      var op := ops[|ops| - 1];
      SameRedirects(log, p, ops[..|ops| - 1], c);
      if op.Write? || op.SetLen? {
        SamePaths(log, p, op.path);
      }
    }
  }

  /** Some pending write reaches the byte. */
  predicate Covered(ops: seq<Op>, c: Path, i: nat) {
    ops != [] && (Covers(ops[|ops| - 1], c, i) || Covered(ops[..|ops| - 1], c, i))
  }

  /** The stored byte matters only where no write covers it. */
  lemma {:induction false} CoveredHides(d: Disk, e: Disk, ops: seq<Op>, c: Path, i: nat)
    ensures !Covered(ops, c, i) ==> Overlay(d, ops, c, i) == ByteAt(Start(d, c), i)
    ensures Covered(ops, c, i) || Start(d, c) == Start(e, c) ==> Overlay(d, ops, c, i) == Overlay(e, ops, c, i)
  {
    if ops != [] {
      CoveredHides(d, e, ops[..|ops| - 1], c, i);
    }
  }

  /** The newest write that reaches the byte is one to `p` itself. */
  predicate OnTop(log: seq<Op>, ops: seq<Op>, p: Path, c: Path, i: nat) {
    ops != [] && (
      var op := ops[|ops| - 1];
      if Covers(Redirect(log, op, c), c, i) then op.path == p else OnTop(log, ops[..|ops| - 1], p, c, i))
  }

  lemma OverlaySnoc(d: Disk, ops: seq<Op>, op: Op, c: Path, i: nat)
    ensures Overlay(d, ops + [op], c, i)
         == if Covers(op, c, i) then op.data[i - op.offset] else Overlay(d, ops, c, i)
    ensures Covered(ops + [op], c, i) <==> Covers(op, c, i) || Covered(ops, c, i)
  {
    assert (ops + [op])[..|ops + [op]| - 1] == ops;
  }

  lemma RedirectedSnoc(log: seq<Op>, ops: seq<Op>, op: Op, c: Path)
    ensures Redirected(log, ops + [op], c) == Redirected(log, ops, c) + [Redirect(log, op, c)]
  {
    assert (ops + [op])[..|ops + [op]| - 1] == ops;
  }

  /** Without the operations on `p`, a byte not topped by one reads the same. */
  lemma {:induction false} NotOnTop(d: Disk, log: seq<Op>, ops: seq<Op>, p: Path, c: Path, i: nat)
    requires !OnTop(log, ops, p, c, i)
    ensures Overlay(d, Redirected(log, ops, c), c, i) == Overlay(d, Redirected(log, OtherOps(ops, p), c), c, i)
  {
    if ops != [] {
      var before, op := ops[..|ops| - 1], ops[|ops| - 1];
      OverlaySnoc(d, Redirected(log, before, c), Redirect(log, op, c), c, i);
      if Touches(op, p) {
        assert OtherOps(ops, p) == OtherOps(before, p);
      } else {
        assert OtherOps(ops, p) == OtherOps(before, p) + [op];
        RedirectedSnoc(log, OtherOps(before, p), op, c);
        OverlaySnoc(d, Redirected(log, OtherOps(before, p), c), Redirect(log, op, c), c, i);
      }
      if !Covers(Redirect(log, op, c), c, i) {
        NotOnTop(d, log, before, p, c, i);
      }
    }
  }

  /** Where only writes to `p` itself reach its byte, it reads as `p` does. */
  lemma {:induction false} OnlyItsOwn(d: Disk, log: seq<Op>, ops: seq<Op>, p: Path, i: nat)
    requires !Covered(Redirected(log, OtherOps(ops, p), p), p, i)
    ensures Overlay(d, Redirected(log, ops, p), p, i) == Overlay(d, ops, p, i)
  {
    if ops != [] {
      var before, op := ops[..|ops| - 1], ops[|ops| - 1];
      OverlaySnoc(d, Redirected(log, before, p), Redirect(log, op, p), p, i);
      if Touches(op, p) {
        assert OtherOps(ops, p) == OtherOps(before, p);
      } else {
        assert OtherOps(ops, p) == OtherOps(before, p) + [op];
        RedirectedSnoc(log, OtherOps(before, p), op, p);
        OverlaySnoc(d, Redirected(log, OtherOps(before, p), p), Redirect(log, op, p), p, i);
      }
      OnlyItsOwn(d, log, before, p, i);
    }
  }

  /** When does a byte of the content path read the same after a sync of `p`?
      If it was stored under `p` and no other path's write covers it: unless it
      resurfaces. Else: unless a write to `p` is on top and differs from what the
      other paths' writes have there. */
  predicate Keeps(d: Disk, log: seq<Op>, p: Path, c: Path, i: nat) {
    if c == p && !Covered(Rest(log, p, c), c, i) then !Resurfaces(d, log, p, i)
    else OnTop(log, log, p, c, i) ==> Overlay(d, AsSeen(log, c), c, i) == Overlay(d, Rest(log, p, c), c, i)
  }

  lemma ByteKeptIff(d: Disk, log: seq<Op>, p: Path, c: Path, i: nat)
    ensures Overlay(Flushed(d, log, p), Rest(log, p, c), c, i) == Overlay(d, AsSeen(log, c), c, i)
            <==> Keeps(d, log, p, c, i)
  {
    CoveredHides(Flushed(d, log, p), d, Rest(log, p, c), c, i);
    if c == p && !Covered(Rest(log, p, c), c, i) {
      OnlyItsOwn(d, log, log, p, i);
      ByteAgrees(d, log, p, i);
    } else if !OnTop(log, log, p, c, i) {
      NotOnTop(d, log, log, p, c, i);
    }
  }

  function Span(n: nat, offset: nat, len: nat): nat {
    Min(len, SaturatingSub(n, offset))
  }

  predicate SameAt(d: Disk, a: seq<Op>, e: Disk, b: seq<Op>, c: Path, i: nat) {
    Overlay(d, a, c, i) == Overlay(e, b, c, i)
  }

  lemma ReadsEqualIff(d: Disk, a: seq<Op>, e: Disk, b: seq<Op>, c: Path, offset: nat, len: nat)
    ensures var span := Span(FileLen(e, b, c), offset, len);
            Read(d, a, c, offset, len) == Read(e, b, c, offset, len) <==>
              && Span(FileLen(d, a, c), offset, len) == span
              && forall i :: offset <= i < offset + span ==> SameAt(d, a, e, b, c, i)
  {
    var r, s := Read(d, a, c, offset, len), Read(e, b, c, offset, len);
    if r == s {
      forall i | offset <= i < offset + |s| ensures SameAt(d, a, e, b, c, i) {
        assert r[i - offset] == s[i - offset];
      }
    } else if |r| == |s| {
      var k :| 0 <= k < |s| && r[k] != s[k];
      assert !SameAt(d, a, e, b, c, offset + k);
    }
  }

  /** In every log, for every file synced and every file read: the sync changes
      no read exactly when the other paths' operations, over what it stores,
      reach as far into the range, and every byte of it is kept. */
  lemma SyncKeepsReadIff(fs: Fs, p: Path, q: Path, offset: nat, len: nat)
    requires EntryKind(fs.disk, fs.pending, p) == Some(File)
    ensures var d, log, c := fs.disk, fs.pending, Source(fs.pending, q);
            var fs' := SyncFile(fs, p);
            var span := Span(MergedLen(d, log, q), offset, len);
            MergedRead(fs'.disk, fs'.pending, q, offset, len) == MergedRead(d, log, q, offset, len) <==>
              && Span(FileLen(Flushed(d, log, p), Rest(log, p, c), c), offset, len) == span
              && forall i :: offset <= i < offset + span ==> Keeps(d, log, p, c, i)
  {
    var d, log, c := fs.disk, fs.pending, Source(fs.pending, q);
    SyncPersists(fs, p);
    SameSource(log, p, q);
    SameRedirects(log, p, OtherOps(log, p), c);
    ReadsEqualIff(Flushed(d, log, p), Rest(log, p, c), d, AsSeen(log, c), c, offset, len);
    forall i: nat
      ensures SameAt(Flushed(d, log, p), Rest(log, p, c), d, AsSeen(log, c), c, i) <==> Keeps(d, log, p, c, i)
    {
      ByteKeptIff(d, log, p, c, i);
    }
  }

  lemma {:induction false} OwnOpsSeen(log: seq<Op>, ops: seq<Op>, c: Path)
    requires forall i :: 0 <= i < |ops| && (ops[i].Write? || ops[i].SetLen?) ==> ops[i].path == c
    ensures Redirected(log, ops, c) == ops
  {
    if ops != [] {
      OwnOpsSeen(log, ops[..|ops| - 1], c);
    }
  }

  /** A file, renamed, recreated, truncated and extended again. */
  function Recreated(a: Path, b: Path): seq<Op> {
    [Rename(a, b), CreateFile(a), SetLen(a, 0), SetLen(a, 1)]
  }

  function JustOne(a: Path, x: Byte): Disk {
    Disk(map[a := [x]], {[]}, map[])
  }

  lemma RecreatedPaths(a: Path, b: Path, x: Byte)
    requires a != b
    ensures Source(Recreated(a, b), b) == a
    ensures EntryKind(JustOne(a, x), Recreated(a, b), a) == Some(File) == EntryKind(JustOne(a, x), Recreated(a, b), b)
  {
    var d, log := JustOne(a, x), Recreated(a, b);
    var one, two, three := log[..1], log[..2], log[..3];
    assert one[..0] == [] && two[..1] == one && three[..2] == two;
    assert EntryKind(d, three, a) == EntryKind(d, two, a) == Some(File);
    assert EntryKind(d, three, b) == EntryKind(d, two, b) == EntryKind(d, one, b) == KindOf(d, a);
    assert PersistedPath(three, b) == PersistedPath(two, b) == PersistedPath(one, b) == a;
    assert LinkTarget(three, b) == LinkTarget(two, b) == LinkTarget(one, b) == None;
  }

  lemma RecreatedContent(a: Path, b: Path, x: Byte)
    requires a != b
    ensures var d, log := JustOne(a, x), Recreated(a, b);
            Content(d, log, a) == [0] && FileLen(d, log, a) == 1 && Overlay(d, log, a, 0) == x
  {
    var d, log := JustOne(a, x), Recreated(a, b);
    var one, two, three := log[..1], log[..2], log[..3];
    assert one[..0] == [] && two[..1] == one && three[..2] == two;
    assert Content(d, two, a) == Content(d, one, a) == Content(d, [], a) == [x];
    assert Content(d, three, a) == Resize([x], 0) == [];
    assert Content(d, log, a) == Resize([], 1) == [0];
    assert Overlay(d, three, a, 0) == Overlay(d, two, a, 0) == Overlay(d, one, a, 0) == x;
  }

  lemma {:induction false} OtherOpsKeepsData(log: seq<Op>, p: Path, c: Path)
    requires forall i :: 0 <= i < |log| && (log[i].Write? || log[i].SetLen?) ==> log[i].path == c
    ensures forall i :: 0 <= i < |OtherOps(log, p)| && (OtherOps(log, p)[i].Write? || OtherOps(log, p)[i].SetLen?) ==>
              OtherOps(log, p)[i].path == c
  {
    if log != [] {
      OtherOpsKeepsData(log[..|log| - 1], p, c);
    }
  }

  /** Why the synced file must not be renamed: `b` is what `a` was renamed to,
      and syncing a new, truncated `a` changes what `b` reads. */
  lemma SyncOverRenamed(a: Path, b: Path, x: Byte)
    requires a != b && x != 0
    ensures var fs := Fs(JustOne(a, x), {}, Recreated(a, b));
            var fs' := SyncFile(fs, a);
            && EntryKind(fs.disk, fs.pending, a) == Some(File) && EntryKind(fs.disk, fs.pending, b) == Some(File)
            && MergedRead(fs.disk, fs.pending, b, 0, 1) == [x]
            && MergedRead(fs'.disk, fs'.pending, b, 0, 1) == [0]
  {
    var fs := Fs(JustOne(a, x), {}, Recreated(a, b));
    RecreatedPaths(a, b, x);
    RecreatedContent(a, b, x);
    OwnOpsSeen(fs.pending, fs.pending, a);
    SameSource(fs.pending, a, b);
    OtherOpsKeepsData(fs.pending, a, a);
    OwnOpsSeen(OtherOps(fs.pending, a), OtherOps(fs.pending, a), a);
    ReadsAfterSync(fs, a, a, 0, 1);
  }
}
