/** No run of admitted writes, syncs and crashes overfills the disk. */
module FsQuota {
  import opened Common
  import opened FsSpec
  import opened FsNamespace
  import opened FsContent
  import opened FsSync
  import opened FsCapacity
  import opened FsDurability

  /** A truncation that leaves the file no longer than it reads. */
  predicate Frugal(fs: Fs, call: Call) {
    call.Truncate? ==> call.len <= MergedLen(fs.disk, fs.pending, call.path)
  }

  ghost predicate FrugalRun(capacity: Option<nat>, calls: seq<Call>) {
    forall i :: 0 <= i < |calls| ==> Frugal(Run(capacity, calls[..i]).fs, calls[i])
  }

  ghost predicate Fits(fs: Fs, capacity: Option<nat>) {
    capacity.Some? ==> Demand(fs) <= capacity.value
  }

  lemma LogKeepsFit(fs: Fs, capacity: Option<nat>, op: Op)
    requires Fits(fs, capacity) && Simple(fs.pending)
    requires op.Write? ==> Admits(fs, capacity, op.path, op.offset, op.data)
    requires op.SetLen? ==> op.len <= MergedLen(fs.disk, fs.pending, op.path)
    ensures Fits(fs.(pending := fs.pending + [op]), capacity)
  {
    SimpleReads(fs, TargetOf(op));
    LenSnoc(fs.disk, fs.pending, op, TargetOf(op));
    AppendNeeds(fs.disk, fs.pending, op);
    UsedCoversDemand(fs.disk, fs.synced, fs.pending);
  }

  lemma SyncKeepsFit(fs: Fs, capacity: Option<nat>, p: Path)
    requires Fits(fs, capacity)
    ensures Fits(SyncFile(fs, p), capacity)
  {
    if EntryKind(fs.disk, fs.pending, p) == Some(File) {
      var fs' := SyncFile(fs, p);
      SyncPersists(fs, p);
      forall q | q in Needs(fs'.disk, fs'.pending)
        ensures Needs(fs'.disk, fs'.pending)[q] <= SizeAt(Needs(fs.disk, fs.pending), q)
      {
        NeedAt(fs.disk, fs.pending, q);
        if q == p {
          OtherOpsUntouched(fs.pending, p);
          UntouchedReads(fs'.disk, fs'.pending, p, 0);
          LengthAgrees(fs.disk, fs.pending, p);
        } else {
          OthersRead(fs.disk, fs'.disk, fs.pending, p, q, 0);
        }
      }
      TotalGrows(Needs(fs'.disk, fs'.pending), Needs(fs.disk, fs.pending), p, 0);
    }
  }

  /** A directory sync moves no data. */
  lemma {:induction false} KeptLen(d: Disk, e: Disk, log: seq<Op>, dir: Path, p: Path)
    requires Start(d, p) == Start(e, p)
    ensures FileLen(e, Keep(log, dir), p) == FileLen(d, log, p)
  {
    if log != [] {
      var before, op := log[..|log| - 1], log[|log| - 1];
      KeptLen(d, e, before, dir, p);
      if FlushedBy(op, dir) {
        assert Keep(log, dir) == Keep(before, dir);
      } else {
        assert Keep(log, dir)[..|Keep(log, dir)| - 1] == Keep(before, dir);
      }
    }
  }

  lemma SyncDirKeepsFit(fs: Fs, capacity: Option<nat>, dir: Path)
    requires Fits(fs, capacity) && Simple(fs.pending)
    ensures Fits(SyncDir(fs, dir), capacity) && Simple(SyncDir(fs, dir).pending)
  {
    if EntryKind(fs.disk, fs.pending, dir) == Some(Directory) {
      var fs' := SyncDir(fs, dir);
      FlushIsCreations(fs.pending, dir);
      forall q | q in Needs(fs'.disk, fs'.pending)
        ensures Needs(fs'.disk, fs'.pending)[q] <= SizeAt(Needs(fs.disk, fs.pending), q)
      {
        NeedAt(fs.disk, fs.pending, q);
        SyncDirAt(fs, dir, q);
        KeptLen(fs.disk, fs'.disk, fs.pending, dir, q);
      }
      TotalGrows(Needs(fs'.disk, fs'.pending), Needs(fs.disk, fs.pending), [], 0);
    }
  }

  lemma CrashKeepsFit(fs: Fs, capacity: Option<nat>)
    requires Fits(fs, capacity)
    ensures Fits(Crash(fs), capacity)
  {
    var fs' := Crash(fs);
    forall q | q in Needs(fs'.disk, fs'.pending)
      ensures Needs(fs'.disk, fs'.pending)[q] <= SizeAt(Needs(fs.disk, fs.pending), q)
    {
      NeedAt(fs.disk, fs.pending, q);
    }
    TotalGrows(Needs(fs'.disk, fs'.pending), Needs(fs.disk, fs.pending), [], 0);
  }

  lemma StepFits(fs: Fs, capacity: Option<nat>, call: Call)
    requires Fits(fs, capacity) && Simple(fs.pending) && Frugal(fs, call)
    ensures var fs' := Step(fs, capacity, call); Fits(fs', capacity) && Simple(fs'.pending)
  {
    match call
    case Create(p) => LogKeepsFit(fs, capacity, CreateFile(p));
    case Mkdir(p) => LogKeepsFit(fs, capacity, CreateDir(p));
    case WriteAt(p, offset, data) =>
      if Admits(fs, capacity, p, offset, data) {
        LogKeepsFit(fs, capacity, Op.Write(p, offset, data));
      }
    case Truncate(p, n) => LogKeepsFit(fs, capacity, SetLen(p, n));
    case Sync(p) =>
      SyncKeepsFit(fs, capacity, p);
      KeptCreations(fs.pending, p, p);
    case SyncDirectory(p) => SyncDirKeepsFit(fs, capacity, p);
    case CrashNow => CrashKeepsFit(fs, capacity);
  }

  /** After any run whose truncations extend nothing, the files together, each
      at the larger of its persisted and its merged length, fit the disk. */
  lemma {:induction false} CapacityHolds(capacity: Option<nat>, calls: seq<Call>)
    requires FrugalRun(capacity, calls)
    ensures Fits(Run(capacity, calls).fs, capacity) && Simple(Run(capacity, calls).fs.pending)
  {
    if calls == [] {
      assert Needs(FRESH.disk, []) == map[];
    } else {
      var before := calls[..|calls| - 1];
      forall i | 0 <= i < |before| ensures Frugal(Run(capacity, before[..i]).fs, before[i]) {
        assert before[..i] == calls[..i] && before[i] == calls[i];
      }
      CapacityHolds(capacity, before);
      StepFits(Run(capacity, before).fs, capacity, calls[|calls| - 1]);
    }
  }

  /** An extending truncation is not checked: it overfills the disk exactly when
      what the files need, plus the extension, exceeds the capacity. */
  lemma TruncateFitsIff(fs: Fs, capacity: nat, p: Path, n: nat)
    ensures var before := Max(|Start(fs.disk, p)|, FileLen(fs.disk, fs.pending, p));
            Fits(Step(fs, Some(capacity), Truncate(p, n)), Some(capacity))
            <==> Demand(fs) - before + Max(|Start(fs.disk, p)|, n) <= capacity
  {
    NeedsAfterData(fs.disk, fs.pending, SetLen(p, n));
    LenSnoc(fs.disk, fs.pending, SetLen(p, n), p);
    TotalUpdate(Needs(fs.disk, fs.pending), p, Max(|Start(fs.disk, p)|, n));
    NeedAt(fs.disk, fs.pending, p);
  }

  /** In the concrete: on a disk with no room at all, a file is created and
      extended by a truncation. */
  lemma TruncateOverfills(p: Path)
    requires |p| == 1
    ensures var w := Run(Some(0), [Create(p), Truncate(p, 1)]);
            FilePath(w.fs, p) && MergedLen(w.fs.disk, w.fs.pending, p) == 1 && !Fits(w.fs, Some(0))
  {
    var w := Run(Some(0), [Create(p)]);
    RunSnoc(Some(0), [], Create(p));
    assert [] + [Create(p)] == [Create(p)];
    RunSnoc(Some(0), [Create(p)], Truncate(p, 1));
    assert [Create(p)] + [Truncate(p, 1)] == [Create(p), Truncate(p, 1)];
    assert p[..0] == [];
    assert w.fs == FRESH.(pending := [CreateFile(p)]) by {
      assert FRESH.pending + [CreateFile(p)] == [CreateFile(p)];
    }
    LenSnoc(FRESH.disk, w.fs.pending, SetLen(p, 1), p);
    SimpleReads(w.fs.(pending := w.fs.pending + [SetLen(p, 1)]), p);
    NeedAt(FRESH.disk, w.fs.pending, p);
    TruncateFitsIff(w.fs, 0, p, 1);
    assert w.fs.pending[..0] == [];
    assert Needs(FRESH.disk, w.fs.pending) == map[];
  }
}
