/** What survives a crash, over every run of creations, writes, truncations,
    syncs and crashes. */
module FsDurability {
  import opened Common
  import opened SeqSpace
  import opened FsSpec
  import opened FsNamespace
  import opened FsContent
  import opened FsSync
  import opened FsCapacity

  // ---- syncing a directory, crashing ----

  predicate FlushedBy(op: Op, dir: Path) {
    match op
    case CreateDir(p) => p == dir || Parent(p) == Some(dir)
    case CreateFile(p) => Parent(p) == Some(dir)
    case CreateSymlink(p, _) => Parent(p) == Some(dir)
    case CreateHardLink(p, _) => Parent(p) == Some(dir)
    case RemoveFile(p) => Parent(p) == Some(dir)
    case RemoveDir(p) => Parent(p) == Some(dir)
    case Rename(f, t) => Parent(f) == Some(dir) || Parent(t) == Some(dir)
    case _ => false
  }

  function Flush(log: seq<Op>, dir: Path): seq<Op> {
    if log == [] then []
    else Flush(log[..|log| - 1], dir) + (if FlushedBy(log[|log| - 1], dir) then [log[|log| - 1]] else [])
  }

  function Keep(log: seq<Op>, dir: Path): seq<Op> {
    if log == [] then []
    else Keep(log[..|log| - 1], dir) + (if FlushedBy(log[|log| - 1], dir) then [] else [log[|log| - 1]])
  }

  /** Durable entries after one flushed operation. */
  function Entries(synced: set<Path>, op: Op, dir: Path): set<Path> {
    match op
    case CreateFile(p) => synced + {p}
    case CreateDir(p) => synced + {p}
    case CreateSymlink(p, _) => synced + {p}
    case CreateHardLink(p, _) => synced + {p}
    case RemoveFile(p) => synced - {p}
    case RemoveDir(p) => synced - {p}
    case Rename(f, t) =>
      var s := if Parent(f) == Some(dir) then synced - {f} else synced;
      if Parent(t) == Some(dir) then s + {t} else s
    case _ => synced
  }

  function EntriesAfter(synced: set<Path>, ops: seq<Op>, dir: Path): set<Path> {
    if ops == [] then synced else Entries(EntriesAfter(synced, ops[..|ops| - 1], dir), ops[|ops| - 1], dir)
  }

  function SyncDir(fs: Fs, dir: Path): Fs {
    if EntryKind(fs.disk, fs.pending, dir) != Some(Directory) then fs
    else
      var flush := Flush(fs.pending, dir);
      Fs(Replay(fs.disk, flush), EntriesAfter(fs.synced, flush, dir), Keep(fs.pending, dir))
  }

  /** An untorn crash: the log is lost, and whatever has no durable entry. */
  function Crash(fs: Fs): Fs {
    Fs(Disk(map p | p in fs.disk.files && p in fs.synced :: fs.disk.files[p],
            fs.disk.dirs * fs.synced,
            map p | p in fs.disk.symlinks && p in fs.synced :: fs.disk.symlinks[p]),
       fs.synced, [])
  }

  // ---- runs ----

  datatype Call =
    | Create(path: Path)
    | Mkdir(path: Path)
    | WriteAt(path: Path, offset: nat, data: seq<Byte>)
    | Truncate(path: Path, len: nat)
    | Sync(path: Path)
    | SyncDirectory(path: Path)
    | CrashNow

  function Log(fs: Fs, op: Op): Fs {
    if Admitted(fs.disk, fs.pending, op) then fs.(pending := fs.pending + [op]) else fs
  }

  ghost function Step(fs: Fs, capacity: Option<nat>, call: Call): Fs {
    match call
    case Create(p) => Log(fs, CreateFile(p))
    case Mkdir(p) => Log(fs, CreateDir(p))
    case WriteAt(p, offset, data) =>
      if data != [] && Admits(fs, capacity, p, offset, data)
          then fs.(pending := fs.pending + [Op.Write(p, offset, data)]) else fs
    case Truncate(p, n) => fs.(pending := fs.pending + [SetLen(p, n)])
    case Sync(p) => SyncFile(fs, p)
    case SyncDirectory(p) => SyncDir(fs, p)
    case CrashNow => Crash(fs)
  }

  /** What an application can know: the files whose directory was synced since
      they were created, the bytes each file read as right after its last sync
      since it was created, and the directories whose parent was synced since, or
      they themselves. */
  datatype History = History(entry: set<Path>, data: map<Path, seq<Byte>>, dirs: set<Path>)

  function ReadAll(fs: Fs, p: Path): seq<Byte> {
    MergedRead(fs.disk, fs.pending, p, 0, MergedLen(fs.disk, fs.pending, p))
  }

  function Files(fs: Fs): set<Path> {
    set p | p in fs.disk.files.Keys + Created(fs.pending) && EntryKind(fs.disk, fs.pending, p) == Some(File)
  }

  function Created(log: seq<Op>): set<Path> {
    set i | 0 <= i < |log| && log[i].CreateFile? :: log[i].path
  }

  function Dirs(fs: Fs): set<Path> {
    set p | p in fs.disk.dirs + Made(fs.pending) && EntryKind(fs.disk, fs.pending, p) == Some(Directory)
  }

  function Made(log: seq<Op>): set<Path> {
    set i | 0 <= i < |log| && log[i].CreateDir? :: log[i].path
  }

  function Remember(h: History, fs: Fs, call: Call, fs': Fs): History {
    match call
    case Create(p) =>
      if Admitted(fs.disk, fs.pending, CreateFile(p)) then h.(entry := h.entry - {p}, data := h.data - {p}) else h
    case Sync(p) =>
      if EntryKind(fs.disk, fs.pending, p) == Some(File) then h.(data := h.data[p := ReadAll(fs', p)]) else h
    case SyncDirectory(dir) =>
      if EntryKind(fs.disk, fs.pending, dir) == Some(Directory)
      then h.(entry := h.entry + (set p | p in Files(fs) && Parent(p) == Some(dir)),
              dirs := h.dirs + set p | p in Dirs(fs) && (p == dir || Parent(p) == Some(dir)))
      else h
    case CrashNow => h.(data := map p | p in h.data && p in h.entry :: h.data[p])
    case _ => h
  }

  datatype World = World(fs: Fs, hist: History)

  ghost function Advance(w: World, capacity: Option<nat>, call: Call): World {
    var fs' := Step(w.fs, capacity, call);
    World(fs', Remember(w.hist, w.fs, call, fs'))
  }

  const FRESH := Fs(Disk(map[], {[]}, map[]), {[]}, [])

  ghost function Run(capacity: Option<nat>, calls: seq<Call>): World {
    if calls == [] then World(FRESH, History({}, map[], {[]}))
    else Advance(Run(capacity, calls[..|calls| - 1]), capacity, calls[|calls| - 1])
  }

  /** A file is created under a name that is already the durable entry of a
      directory. */
  predicate OverDurable(fs: Fs, call: Call) {
    call.Create? && Admitted(fs.disk, fs.pending, CreateFile(call.path)) && call.path in fs.synced
  }

  ghost predicate Orderly(capacity: Option<nat>, calls: seq<Call>) {
    forall i :: 0 <= i < |calls| ==> !OverDurable(Run(capacity, calls[..i]).fs, calls[i])
  }

  // ---- the invariant ----

  predicate Simple(log: seq<Op>) {
    forall i :: 0 <= i < |log| ==> log[i].CreateFile? || log[i].CreateDir? || log[i].Write? || log[i].SetLen?
  }

  /** Nothing in a simple log moves content. */
  lemma SimpleReads(fs: Fs, p: Path)
    requires Simple(fs.pending)
    ensures MergedLen(fs.disk, fs.pending, p) == FileLen(fs.disk, fs.pending, p)
    ensures ReadAll(fs, p) == Read(fs.disk, fs.pending, p, 0, FileLen(fs.disk, fs.pending, p))
  {
    UnmovedReads(fs.disk, fs.pending, p);
  }

  predicate FilePath(fs: Fs, p: Path) {
    p in fs.disk.files || CreateFile(p) in fs.pending
  }

  function Durable(h: History, p: Path): seq<Byte> {
    if p in h.data then h.data[p] else []
  }

  ghost predicate NamesOk(fs: Fs) {
    && Simple(fs.pending)
    && fs.disk.symlinks == map[]
    && (forall p :: FilePath(fs, p) ==> EntryKind(fs.disk, fs.pending, p) == Some(File))
    && (forall p :: CreateFile(p) in fs.pending ==> p !in fs.synced)
    && (forall p :: p in fs.disk.files && p !in fs.synced ==> CreateFile(p) in fs.pending)
  }

  ghost predicate HistoryOk(fs: Fs, h: History) {
    && (forall p :: p in h.entry <==> p in fs.synced && p in fs.disk.files)
    && (forall p :: p in h.data ==> p in fs.disk.files)
    && (forall p :: p in fs.disk.files ==> fs.disk.files[p] == Durable(h, p))
    && fs.disk.dirs <= fs.synced
    && (forall p :: p in h.dirs <==> p in fs.disk.dirs && p !in fs.disk.files)
  }

  ghost predicate WorldOk(w: World) {
    NamesOk(w.fs) && HistoryOk(w.fs, w.hist)
  }

  // ---- walking a simple log ----

  /** Only creations decide; a path the log does not create is as persisted. */
  lemma {:induction false} SimpleKind(d: Disk, log: seq<Op>, p: Path)
    requires Simple(log)
    ensures CreateFile(p) !in log && CreateDir(p) !in log ==> EntryKind(d, log, p) == KindOf(d, p)
    ensures EntryKind(d, log, p) == Some(File) ==> p in d.files || CreateFile(p) in log
    ensures EntryKind(d, log, p) == None ==> p !in d.files && CreateFile(p) !in log
    ensures CreateFile(p) in log || CreateDir(p) in log ==> EntryKind(d, log, p).Some?
  {
    if log != [] {
      var before, op := log[..|log| - 1], log[|log| - 1];
      SimpleKind(d, before, p);
      assert log == before + [op];
    }
  }

  lemma SimpleSnoc(fs: Fs, op: Op, p: Path)
    requires Simple(fs.pending) && (op.CreateFile? || op.CreateDir? || op.Write? || op.SetLen?)
    ensures Simple(fs.pending + [op])
    ensures EntryKind(fs.disk, fs.pending + [op], p)
         == if op == CreateFile(p) then Some(File) else if op == CreateDir(p) then Some(Directory)
            else EntryKind(fs.disk, fs.pending, p)
    ensures FilePath(fs.(pending := fs.pending + [op]), p) <==> FilePath(fs, p) || op == CreateFile(p)
  {
    assert (fs.pending + [op])[..|fs.pending + [op]| - 1] == fs.pending;
  }

  /** Appending keeps the invariant: creation where nothing durable is named,
      or an operation that creates no file. */
  lemma AppendKeeps(w: World, op: Op)
    requires WorldOk(w) && (op.CreateFile? || op.CreateDir? || op.Write? || op.SetLen?)
    requires op.CreateFile? || op.CreateDir? ==> Admitted(w.fs.disk, w.fs.pending, op)
    requires op.CreateFile? ==> op.path !in w.fs.synced
    ensures NamesOk(w.fs.(pending := w.fs.pending + [op]))
  {
    var fs' := w.fs.(pending := w.fs.pending + [op]);
    forall p ensures FilePath(fs', p) ==> EntryKind(fs'.disk, fs'.pending, p) == Some(File) {
      SimpleSnoc(w.fs, op, p);
      SimpleKind(w.fs.disk, w.fs.pending, p);
    }
    SimpleSnoc(w.fs, op, []);
  }

  // ---- flushing creations ----

  lemma {:induction false} FlushExact(log: seq<Op>, dir: Path, op: Op)
    ensures op in Flush(log, dir) <==> op in log && FlushedBy(op, dir)
    ensures op in Keep(log, dir) <==> op in log && !FlushedBy(op, dir)
  {
    if log != [] {
      FlushExact(log[..|log| - 1], dir, op);
      assert log == log[..|log| - 1] + [log[|log| - 1]];
    }
  }

  predicate Creations(ops: seq<Op>) {
    forall i :: 0 <= i < |ops| ==> ops[i].CreateFile? || ops[i].CreateDir?
  }

  /** Persisting creations adds empty files and entries, and changes no byte. */
  lemma {:induction false} CreationsPersist(d: Disk, synced: set<Path>, ops: seq<Op>, dir: Path, p: Path)
    requires Creations(ops)
    ensures var d' := Replay(d, ops);
            && (p in d'.files <==> p in d.files || CreateFile(p) in ops)
            && (p in d'.files ==> d'.files[p] == Start(d, p))
            && (p in d'.dirs <==> p in d.dirs || CreateDir(p) in ops)
            && d'.symlinks == d.symlinks
    ensures p in EntriesAfter(synced, ops, dir) <==> p in synced || CreateFile(p) in ops || CreateDir(p) in ops
  {
    if ops != [] {
      var before, op := ops[..|ops| - 1], ops[|ops| - 1];
      CreationsPersist(d, synced, before, dir, p);
      assert ops == before + [op];
    }
  }

  lemma FlushIsCreations(log: seq<Op>, dir: Path)
    requires Simple(log)
    ensures Creations(Flush(log, dir)) && Simple(Keep(log, dir))
  {
    var ops, rest := Flush(log, dir), Keep(log, dir);
    forall i | 0 <= i < |ops| ensures ops[i].CreateFile? || ops[i].CreateDir? {
      FlushExact(log, dir, ops[i]);
    }
    forall i | 0 <= i < |rest| ensures rest[i].CreateFile? || rest[i].CreateDir? || rest[i].Write? || rest[i].SetLen? {
      FlushExact(log, dir, rest[i]);
    }
  }

  /** One path through a directory sync. */
  lemma SyncDirAt(fs: Fs, dir: Path, p: Path)
    requires Simple(fs.pending) && EntryKind(fs.disk, fs.pending, dir) == Some(Directory)
    ensures var fs' := SyncDir(fs, dir);
            && Simple(fs'.pending) && fs'.disk.symlinks == fs.disk.symlinks
            && (p in fs'.disk.files <==> p in fs.disk.files || (CreateFile(p) in fs.pending && Parent(p) == Some(dir)))
            && (p in fs'.disk.files ==> fs'.disk.files[p] == Start(fs.disk, p))
            && (p in fs'.disk.dirs <==>
                  p in fs.disk.dirs || (CreateDir(p) in fs.pending && (p == dir || Parent(p) == Some(dir))))
            && (p != dir && Parent(p) != Some(dir) ==> KindOf(fs'.disk, p) == KindOf(fs.disk, p))
            && (CreateFile(p) in fs'.pending <==> CreateFile(p) in fs.pending && Parent(p) != Some(dir))
            && (CreateDir(p) in fs'.pending <==> CreateDir(p) in fs.pending && p != dir && Parent(p) != Some(dir))
            && (p in fs'.synced <==>
                  || p in fs.synced
                  || (CreateFile(p) in fs.pending && Parent(p) == Some(dir))
                  || (CreateDir(p) in fs.pending && (p == dir || Parent(p) == Some(dir))))
  {
    FlushIsCreations(fs.pending, dir);
    CreationsPersist(fs.disk, fs.synced, Flush(fs.pending, dir), dir, p);
    FlushExact(fs.pending, dir, CreateFile(p));
    FlushExact(fs.pending, dir, CreateDir(p));
  }

  /** The walk over what a directory sync keeps: unflushed creations still
      decide as before. */
  lemma {:induction false} KeptKind(d: Disk, e: Disk, log: seq<Op>, dir: Path, p: Path)
    requires Simple(log) && p != dir && Parent(p) != Some(dir) && KindOf(e, p) == KindOf(d, p)
    ensures EntryKind(e, Keep(log, dir), p) == EntryKind(d, log, p)
  {
    if log != [] {
      var before, op := log[..|log| - 1], log[|log| - 1];
      KeptKind(d, e, before, dir, p);
      if FlushedBy(op, dir) {
        assert Keep(log, dir) == Keep(before, dir);
      } else {
        assert Keep(log, dir)[..|Keep(log, dir)| - 1] == Keep(before, dir);
      }
    }
  }

  lemma SyncDirKeepsNames(fs: Fs, dir: Path)
    requires NamesOk(fs) && EntryKind(fs.disk, fs.pending, dir) == Some(Directory)
    ensures NamesOk(SyncDir(fs, dir))
  {
    var fs' := SyncDir(fs, dir);
    SyncDirAt(fs, dir, []);
    forall p
      ensures FilePath(fs', p) ==> EntryKind(fs'.disk, fs'.pending, p) == Some(File)
      ensures CreateFile(p) in fs'.pending ==> p !in fs'.synced
      ensures p in fs'.disk.files && p !in fs'.synced ==> CreateFile(p) in fs'.pending
    {
      SyncDirAt(fs, dir, p);
      SimpleKind(fs'.disk, fs'.pending, p);
      if p != dir && Parent(p) != Some(dir) {
        KeptKind(fs.disk, fs'.disk, fs.pending, dir, p);
      }
    }
  }

  lemma FilesExact(fs: Fs, p: Path)
    requires NamesOk(fs)
    ensures p in Files(fs) <==> FilePath(fs, p)
  {
    SimpleKind(fs.disk, fs.pending, p);
    if CreateFile(p) in fs.pending {
      var i :| 0 <= i < |fs.pending| && fs.pending[i] == CreateFile(p);
      assert fs.pending[i].path == p;
    }
  }

  lemma DirsExact(fs: Fs, p: Path)
    requires NamesOk(fs)
    ensures p in Dirs(fs) <==> (p in fs.disk.dirs || CreateDir(p) in fs.pending) && !FilePath(fs, p)
  {
    SimpleKind(fs.disk, fs.pending, p);
    if CreateDir(p) in fs.pending {
      var i :| 0 <= i < |fs.pending| && fs.pending[i] == CreateDir(p);
      assert fs.pending[i].path == p;
      assert p in Made(fs.pending);
    }
    SimpleIsFileOrDir(fs.disk, fs.pending, p);
    var k := EntryKind(fs.disk, fs.pending, p);
    assert FilePath(fs, p) <==> k == Some(File);
    if (p in fs.disk.dirs || CreateDir(p) in fs.pending) && !FilePath(fs, p) {
      assert k.Some?;
      assert k.value != File && k.value != Symlink;
    }
  }

  lemma {:induction false} SimpleIsFileOrDir(d: Disk, log: seq<Op>, p: Path)
    requires Simple(log) && d.symlinks == map[]
    ensures EntryKind(d, log, p) != Some(Symlink)
    ensures EntryKind(d, log, p) == Some(Directory) ==> p in d.dirs || CreateDir(p) in log
  {
    if log != [] {
      SimpleIsFileOrDir(d, log[..|log| - 1], p);
      assert log == log[..|log| - 1] + [log[|log| - 1]];
    }
  }

  lemma SyncDirKeepsDirs(w: World, dir: Path, p: Path)
    requires WorldOk(w) && EntryKind(w.fs.disk, w.fs.pending, dir) == Some(Directory)
    ensures var fs', h' := SyncDir(w.fs, dir), Remember(w.hist, w.fs, SyncDirectory(dir), SyncDir(w.fs, dir));
            && (p in fs'.disk.dirs ==> p in fs'.synced)
            && (p in h'.dirs <==> p in fs'.disk.dirs && p !in fs'.disk.files)
  {
    SyncDirAt(w.fs, dir, p);
    DirsExact(w.fs, p);
    SimpleKind(w.fs.disk, w.fs.pending, p);
  }

  lemma SyncDirKeeps(w: World, capacity: Option<nat>, dir: Path)
    requires WorldOk(w)
    ensures WorldOk(Advance(w, capacity, SyncDirectory(dir)))
  {
    if EntryKind(w.fs.disk, w.fs.pending, dir) == Some(Directory) {
      SyncDirKeepsNames(w.fs, dir);
      var w' := Advance(w, capacity, SyncDirectory(dir));
      forall p
        ensures p in w'.hist.entry <==> p in w'.fs.synced && p in w'.fs.disk.files
        ensures p in w'.hist.data ==> p in w'.fs.disk.files
        ensures p in w'.fs.disk.files ==> w'.fs.disk.files[p] == Durable(w'.hist, p)
      {
        SyncDirAt(w.fs, dir, p);
        FilesExact(w.fs, p);
      }
      forall p
        ensures p in w'.fs.disk.dirs ==> p in w'.fs.synced
        ensures p in w'.hist.dirs <==> p in w'.fs.disk.dirs && p !in w'.fs.disk.files
      {
        SyncDirKeepsDirs(w, dir, p);
      }
    }
  }

  function WalkOn(d: Disk, log: seq<Op>, v: Verdict): Option<Kind> {
    match v
    case Decided(k) => k
    case Follow(p) => EntryKind(d, log, p)
  }

  lemma WalkSnoc(d: Disk, log: seq<Op>, op: Op, q: Path)
    ensures EntryKind(d, log + [op], q) == WalkOn(d, log, Look(op, q))
  {
    assert (log + [op])[..|log + [op]| - 1] == log;
  }

  /** The log creates the path, so it need not be looked up further back. */
  predicate Decides(log: seq<Op>, q: Path) {
    log != [] && (log[|log| - 1] == CreateFile(q) || log[|log| - 1] == CreateDir(q) || Decides(log[..|log| - 1], q))
  }

  lemma {:induction false} CreationDecides(log: seq<Op>, q: Path)
    requires CreateFile(q) in log
    ensures Decides(log, q)
  {
    if log[|log| - 1] != CreateFile(q) {
      assert log == log[..|log| - 1] + [log[|log| - 1]];
      CreationDecides(log[..|log| - 1], q);
    }
  }

  /** The walk over what a file sync keeps. */
  lemma {:induction false} SyncedKind(d: Disk, e: Disk, log: seq<Op>, p: Path, q: Path)
    requires Simple(log)
    requires KindOf(e, q) == KindOf(d, q) || Decides(log, q)
    ensures EntryKind(e, OtherOps(log, p), q) == EntryKind(d, log, q)
  {
    if log != [] {
      var before, op := log[..|log| - 1], log[|log| - 1];
      WalkSnoc(e, OtherOps(before, p), op, q);
      if op == CreateFile(q) || op == CreateDir(q) {
        assert OtherOps(log, p) == OtherOps(before, p) + [op];
      } else {
        SyncedKind(d, e, before, p, q);
        if Touches(op, p) {
          assert OtherOps(log, p) == OtherOps(before, p);
        } else {
          assert OtherOps(log, p) == OtherOps(before, p) + [op];
        }
      }
    }
  }

  lemma {:induction false} KeptCreations(log: seq<Op>, p: Path, q: Path)
    requires Simple(log)
    ensures CreateFile(q) in OtherOps(log, p) <==> CreateFile(q) in log
    ensures Simple(OtherOps(log, p))
  {
    if log != [] {
      KeptCreations(log[..|log| - 1], p, q);
      assert log == log[..|log| - 1] + [log[|log| - 1]];
    }
  }

  lemma SyncKeepsNames(fs: Fs, p: Path)
    requires NamesOk(fs) && EntryKind(fs.disk, fs.pending, p) == Some(File)
    ensures NamesOk(SyncFile(fs, p))
  {
    var fs' := SyncFile(fs, p);
    SyncPersists(fs, p);
    SimpleKind(fs.disk, fs.pending, p);
    if p !in fs.disk.files {
      CreationDecides(fs.pending, p);
    }
    forall q
      ensures EntryKind(fs'.disk, fs'.pending, q) == EntryKind(fs.disk, fs.pending, q)
      ensures CreateFile(q) in fs'.pending <==> CreateFile(q) in fs.pending
      ensures Simple(fs'.pending)
    {
      SyncedKind(fs.disk, fs'.disk, fs.pending, p, q);
      KeptCreations(fs.pending, p, q);
    }
  }

  lemma SyncKeepsHistory(fs: Fs, h: History, p: Path)
    requires NamesOk(fs) && HistoryOk(fs, h) && EntryKind(fs.disk, fs.pending, p) == Some(File)
    ensures HistoryOk(SyncFile(fs, p), h.(data := h.data[p := ReadAll(SyncFile(fs, p), p)]))
  {
    SyncPersists(fs, p);
    SimpleKind(fs.disk, fs.pending, p);
    SyncReadsBack(fs, p);
  }

  lemma SyncKeeps(w: World, capacity: Option<nat>, p: Path)
    requires WorldOk(w)
    ensures WorldOk(Advance(w, capacity, Sync(p)))
  {
    if EntryKind(w.fs.disk, w.fs.pending, p) == Some(File) {
      SyncKeepsNames(w.fs, p);
      SyncKeepsHistory(w.fs, w.hist, p);
    }
  }

  /** What is readable right after a sync is what the sync persisted. */
  lemma SyncReadsBack(fs: Fs, p: Path)
    requires Simple(fs.pending) && EntryKind(fs.disk, fs.pending, p) == Some(File)
    ensures var fs' := SyncFile(fs, p); p in fs'.disk.files && ReadAll(fs', p) == fs'.disk.files[p]
  {
    var fs' := SyncFile(fs, p);
    SyncPersists(fs, p);
    KeptCreations(fs.pending, p, p);
    SimpleReads(fs', p);
    ReadsAfterSync(fs, p, p, 0, FileLen(fs'.disk, fs'.pending, p));
    OtherOpsUntouched(fs.pending, p);
    UntouchedReads(fs'.disk, fs'.pending, p, 0);
  }

  lemma CrashKeeps(w: World, capacity: Option<nat>)
    requires WorldOk(w)
    ensures WorldOk(Advance(w, capacity, CrashNow))
  {
  }

  lemma StepKeeps(w: World, capacity: Option<nat>, call: Call)
    requires WorldOk(w) && !OverDurable(w.fs, call)
    ensures WorldOk(Advance(w, capacity, call))
  {
    match call
    case Create(p) =>
      if Admitted(w.fs.disk, w.fs.pending, CreateFile(p)) {
        AppendKeeps(w, CreateFile(p));
      }
    case Mkdir(p) =>
      if Admitted(w.fs.disk, w.fs.pending, CreateDir(p)) {
        AppendKeeps(w, CreateDir(p));
      }
    case WriteAt(p, offset, data) => AppendKeeps(w, Op.Write(p, offset, data));
    case Truncate(p, n) => AppendKeeps(w, SetLen(p, n));
    case Sync(p) => SyncKeeps(w, capacity, p);
    case SyncDirectory(p) => SyncDirKeeps(w, capacity, p);
    case CrashNow => CrashKeeps(w, capacity);
  }

  lemma {:induction false} RunKeeps(capacity: Option<nat>, calls: seq<Call>)
    requires Orderly(capacity, calls)
    ensures WorldOk(Run(capacity, calls))
  {
    if calls != [] {
      var before := calls[..|calls| - 1];
      forall i | 0 <= i < |before| ensures !OverDurable(Run(capacity, before[..i]).fs, before[i]) {
        assert before[..i] == calls[..i] && before[i] == calls[i];
      }
      RunKeeps(capacity, before);
      StepKeeps(Run(capacity, before), capacity, calls[|calls| - 1]);
    }
  }

  /** What an untorn crash leaves, in any state: a path is there as what it was
      persisted as, with its bytes or its target, exactly if its entry is
      durable. */
  lemma CrashLeaves(fs: Fs, p: Path)
    ensures var after := Crash(fs);
            && EntryKind(after.disk, after.pending, p) == (if p in fs.synced then KindOf(fs.disk, p) else None)
            && (p in fs.synced && KindOf(fs.disk, p) == Some(File) ==> ReadAll(after, p) == fs.disk.files[p])
            && (p in fs.synced && p in fs.disk.symlinks ==>
                  p in after.disk.symlinks && after.disk.symlinks[p] == fs.disk.symlinks[p])
  {
    var after := Crash(fs);
    SimpleReads(after, p);
    UntouchedReads(after.disk, [], p, 0);
    assert p in after.disk.files ==> ReadAll(after, p) == after.disk.files[p];
  }

  /** After any run, a crash leaves exactly the files whose directory was synced
      since they were created, each holding exactly the bytes readable right
      after its last sync, or nothing if it was never synced; and exactly the
      directories that were synced, themselves or with their parent. */
  lemma {:induction false} CrashEqualsLastSync(capacity: Option<nat>, calls: seq<Call>, p: Path)
    requires Orderly(capacity, calls)
    ensures var w := Run(capacity, calls);
            var after := Crash(w.fs);
            && (EntryKind(after.disk, after.pending, p) == Some(File) <==> p in w.hist.entry)
            && (p in w.hist.entry ==> ReadAll(after, p) == Durable(w.hist, p))
            && (EntryKind(after.disk, after.pending, p) == Some(Directory) <==> p in w.hist.dirs)
  {
    RunKeeps(capacity, calls);
    CrashLeaves(Run(capacity, calls).fs, p);
  }

  /** Creating a file under the name of a durable directory is the one way to
      break this: its first sync then makes it survive a crash, although its
      directory was not synced since; under any other name it does not. */
  lemma CreateOverDurableIff(w: World, capacity: Option<nat>, p: Path)
    requires WorldOk(w) && Admitted(w.fs.disk, w.fs.pending, CreateFile(p))
    ensures var w' := Advance(Advance(w, capacity, Create(p)), capacity, Sync(p));
            && p !in w'.hist.entry
            && (p in Crash(w'.fs).disk.files <==> p in w.fs.synced)
  {
    var fs1 := Step(w.fs, capacity, Create(p));
    SimpleSnoc(w.fs, CreateFile(p), p);
    SyncPersists(fs1, p);
  }

  lemma RunSnoc(capacity: Option<nat>, calls: seq<Call>, call: Call)
    ensures Run(capacity, calls + [call]) == Advance(Run(capacity, calls), capacity, call)
  {
    assert (calls + [call])[..|calls + [call]| - 1] == calls;
  }

  lemma FreshMkdir(p: Path)
    requires |p| == 1
    ensures var w := Run(None, [Mkdir(p)]);
            w.fs == FRESH.(pending := [CreateDir(p)]) && WorldOk(w) && Parent(p) == Some([])
  {
    assert p[..0] == [];
    assert WorldOk(World(FRESH, History({}, map[], {[]})));
    RunSnoc(None, [], Mkdir(p));
    assert [] + [Mkdir(p)] == [Mkdir(p)];
    assert FRESH.pending + [CreateDir(p)] == [CreateDir(p)];
    StepKeeps(World(FRESH, History({}, map[], {[]})), None, Mkdir(p));
  }

  lemma DurableDirectory(p: Path)
    requires |p| == 1
    ensures var w := Run(None, [Mkdir(p), SyncDirectory([])]);
            && WorldOk(w) && p in w.fs.synced
            && Admitted(w.fs.disk, w.fs.pending, CreateFile(p))
  {
    FreshMkdir(p);
    var w := Run(None, [Mkdir(p)]);
    assert [Mkdir(p)] + [SyncDirectory([])] == [Mkdir(p), SyncDirectory([])];
    RunSnoc(None, [Mkdir(p)], SyncDirectory([]));
    SyncDirKeeps(w, None, []);
    WalkSnoc(FRESH.disk, [], CreateDir(p), []);
    assert w.fs.pending == [] + [CreateDir(p)];
    var fs' := SyncDir(w.fs, []);
    SyncDirAt(w.fs, [], p);
    SyncDirAt(w.fs, [], []);
    SimpleKind(fs'.disk, fs'.pending, p);
    SimpleKind(fs'.disk, fs'.pending, []);
    FlushIsCreations(w.fs.pending, []);
    CreationsPersist(w.fs.disk, w.fs.synced, Flush(w.fs.pending, []), [], []);
  }

  /** In the concrete: a directory made durable, a file created under its name,
      synced, and there after a crash without its directory ever being synced. */
  lemma FileOverDirectory(p: Path)
    requires |p| == 1
    ensures var w := Run(None, [Mkdir(p), SyncDirectory([]), Create(p), Sync(p)]);
            p !in w.hist.entry && p in Crash(w.fs).disk.files
  {
    DurableDirectory(p);
    var calls := [Mkdir(p), SyncDirectory([])];
    CreateOverDurableIff(Run(None, calls), None, p);
    RunSnoc(None, calls, Create(p));
    RunSnoc(None, calls + [Create(p)], Sync(p));
    assert calls + [Create(p)] + [Sync(p)] == [Mkdir(p), SyncDirectory([]), Create(p), Sync(p)];
  }
}
