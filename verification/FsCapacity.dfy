/** Disk usage as the admission check of writes estimates it. */
module FsCapacity {
  import opened Common
  import opened SeqSpace
  import opened FsSpec
  import opened FsContent
  import opened FsSync

  type Sizes = map<Path, nat>

  ghost function Total(m: Sizes): nat {
    if m == map[] then 0
    else
      var k :| k in m;
      m[k] + Total(m - {k})
  }

  function SizeAt(m: Sizes, p: Path): nat {
    if p in m then m[p] else 0
  }

  function Max(a: nat, b: nat): nat {
    if a >= b then a else b
  }

  /** The sum does not depend on the order of summation. */
  lemma {:induction false} TotalRemove(m: Sizes, p: Path)
    requires p in m
    ensures Total(m) == m[p] + Total(m - {p})
    decreases |m|
  {
    var k :| k in m && Total(m) == m[k] + Total(m - {k});
    if k != p {
      TotalRemove(m - {k}, p);
      TotalRemove(m - {p}, k);
      assert m - {k} - {p} == m - {p} - {k};
    }
  }

  /** At most `extra` more at one path, and nowhere else more. */
  ghost predicate Grows(a: Sizes, b: Sizes, p: Path, extra: nat) {
    forall q :: q in a ==> a[q] <= SizeAt(b, q) + if q == p then extra else 0
  }

  lemma {:induction false} TotalGrows(a: Sizes, b: Sizes, p: Path, extra: nat)
    requires Grows(a, b, p, extra)
    ensures Total(a) <= Total(b) + extra
    decreases |a|
  {
    if a != map[] {
      var k :| k in a;
      TotalRemove(a, k);
      var more := if k == p then extra else 0;
      if k in b {
        TotalRemove(b, k);
      }
      TotalGrows(a - {k}, b - {k}, p, extra - more);
      if k !in b {
        assert b - {k} == b;
      }
    }
  }

  // ---- what the files need, and what the check counts ----

  function DataPaths(log: seq<Op>): set<Path> {
    set i | 0 <= i < |log| && (log[i].Write? || log[i].SetLen?) :: log[i].path
  }

  /** Each file at the larger of its persisted and its merged length. */
  function Needs(d: Disk, log: seq<Op>): Sizes {
    map p | p in d.files.Keys + DataPaths(log) :: Max(|Start(d, p)|, FileLen(d, log, p))
  }

  function Persistent(d: Disk): Sizes {
    map p | p in d.files :: |d.files[p]|
  }

  /** What one logged operation adds to the estimate: how far it reaches past
      the persisted length. */
  function Growth(d: Disk, op: Op): nat {
    match op
    case Write(p, offset, data) => SaturatingSub(offset + |data|, |Start(d, p)|)
    case SetLen(p, n) => SaturatingSub(n, |Start(d, p)|)
    case _ => 0
  }

  function PendingGrowth(d: Disk, log: seq<Op>): nat {
    if log == [] then 0 else PendingGrowth(d, log[..|log| - 1]) + Growth(d, log[|log| - 1])
  }

  ghost function UsedBytes(fs: Fs): nat {
    Total(Persistent(fs.disk)) + PendingGrowth(fs.disk, fs.pending)
  }

  ghost function Demand(fs: Fs): nat {
    Total(Needs(fs.disk, fs.pending))
  }

  /** `check_space`, with no limit when no capacity is set. */
  ghost predicate HasSpace(fs: Fs, capacity: Option<nat>, more: nat) {
    capacity.Some? ==> UsedBytes(fs) + more <= capacity.value
  }

  /** The admission of a write: checked only for bytes past the current end. */
  ghost predicate Admits(fs: Fs, capacity: Option<nat>, p: Path, offset: nat, data: seq<Byte>) {
    var more := SaturatingSub(offset + |data|, MergedLen(fs.disk, fs.pending, p));
    more > 0 ==> HasSpace(fs, capacity, more)
  }

  lemma {:induction false} UnmentionedIsUnchanged(d: Disk, log: seq<Op>, p: Path)
    requires p !in DataPaths(log)
    ensures FileLen(d, log, p) == |Start(d, p)|
  {
    forall i | 0 <= i < |log| ensures !Touches(log[i], p) {
      assert log[i].Write? || log[i].SetLen? ==> log[i].path in DataPaths(log);
    }
    UntouchedReads(d, log, p, 0);
  }

  lemma NeedAt(d: Disk, log: seq<Op>, p: Path)
    ensures SizeAt(Needs(d, log), p) == Max(|Start(d, p)|, FileLen(d, log, p))
  {
    if p !in Needs(d, log) {
      UnmentionedIsUnchanged(d, log, p);
    }
  }

  lemma LenSnoc(d: Disk, log: seq<Op>, op: Op, p: Path)
    ensures FileLen(d, log + [op], p)
         == if !Touches(op, p) then FileLen(d, log, p)
            else if op.Write? then Max(op.offset + |op.data|, FileLen(d, log, p)) else op.len
  {
    assert (log + [op])[..|log + [op]| - 1] == log;
  }

  /** One more operation in the log. */
  lemma NeedsSnoc(d: Disk, log: seq<Op>, op: Op, p: Path, extra: nat)
    requires FileLen(d, log + [op], p) <= Max(|Start(d, p)|, FileLen(d, log, p)) + extra
    requires forall q :: q != p ==> !Touches(op, q)
    ensures Grows(Needs(d, log + [op]), Needs(d, log), p, extra)
  {
    forall q | q in Needs(d, log + [op])
      ensures Needs(d, log + [op])[q] <= SizeAt(Needs(d, log), q) + if q == p then extra else 0
    {
      NeedAt(d, log, q);
      LenSnoc(d, log, op, q);
    }
  }

  function TargetOf(op: Op): Path {
    if op.Write? || op.SetLen? then op.path else []
  }

  lemma AppendNeeds(d: Disk, log: seq<Op>, op: Op)
    ensures var p := TargetOf(op);
            Total(Needs(d, log + [op])) <= Total(Needs(d, log))
              + SaturatingSub(FileLen(d, log + [op], p), Max(|Start(d, p)|, FileLen(d, log, p)))
  {
    var p := TargetOf(op);
    var extra := SaturatingSub(FileLen(d, log + [op], p), Max(|Start(d, p)|, FileLen(d, log, p)));
    NeedsSnoc(d, log, op, p, extra);
    TotalGrows(Needs(d, log + [op]), Needs(d, log), p, extra);
  }

  lemma {:induction false} GrowthCovers(d: Disk, log: seq<Op>, op: Op)
    ensures Total(Needs(d, log + [op])) <= Total(Needs(d, log)) + Growth(d, op)
  {
    AppendNeeds(d, log, op);
    LenSnoc(d, log, op, TargetOf(op));
  }

  /** The estimate never falls below what the files need. */
  lemma {:induction false} UsedCoversDemand(d: Disk, synced: set<Path>, log: seq<Op>)
    ensures Demand(Fs(d, synced, log)) <= UsedBytes(Fs(d, synced, log))
  {
    if log == [] {
      assert Grows(Needs(d, []), Persistent(d), [], 0);
      TotalGrows(Needs(d, []), Persistent(d), [], 0);
    } else {
      UsedCoversDemand(d, synced, log[..|log| - 1]);
      GrowthCovers(d, log[..|log| - 1], log[|log| - 1]);
      assert log[..|log| - 1] + [log[|log| - 1]] == log;
    }
  }

  lemma DataPathsSnoc(log: seq<Op>, op: Op)
    requires op.Write? || op.SetLen?
    ensures DataPaths(log + [op]) == DataPaths(log) + {op.path}
  {
    var all := log + [op];
    forall q | q in DataPaths(log) ensures q in DataPaths(all) {
      var i :| 0 <= i < |log| && (log[i].Write? || log[i].SetLen?) && log[i].path == q;
      assert all[i] == log[i];
    }
    assert all[|log|] == op;
  }

  lemma NeedsAfterData(d: Disk, log: seq<Op>, op: Op)
    requires op.Write? || op.SetLen?
    ensures Needs(d, log + [op])
         == Needs(d, log)[op.path := Max(|Start(d, op.path)|, FileLen(d, log + [op], op.path))]
  {
    var a := Needs(d, log + [op]);
    var b := Needs(d, log)[op.path := Max(|Start(d, op.path)|, FileLen(d, log + [op], op.path))];
    DataPathsSnoc(log, op);
    assert a.Keys == b.Keys;
    forall q | q in a ensures a[q] == b[q] {
      LenSnoc(d, log, op, q);
    }
  }

  lemma TotalUpdate(m: Sizes, p: Path, n: nat)
    ensures Total(m[p := n]) == Total(m) - SizeAt(m, p) + n
  {
    TotalRemove(m[p := n], p);
    assert m[p := n] - {p} == m - {p};
    if p in m {
      TotalRemove(m, p);
    } else {
      assert m - {p} == m;
    }
  }

  // ---- when the estimate is exact ----

  lemma OtherPathsSnoc(log: seq<Op>, op: Op)
    requires !op.Write? && !op.SetLen?
    ensures DataPaths(log + [op]) == DataPaths(log)
  {
    var all := log + [op];
    forall q | q in DataPaths(log) ensures q in DataPaths(all) {
      var i :| 0 <= i < |log| && (log[i].Write? || log[i].SetLen?) && log[i].path == q;
      assert all[i] == log[i];
    }
  }

  lemma NeedsAfterOther(d: Disk, log: seq<Op>, op: Op)
    requires !op.Write? && !op.SetLen?
    ensures Needs(d, log + [op]) == Needs(d, log)
  {
    OtherPathsSnoc(log, op);
    forall q ensures FileLen(d, log + [op], q) == FileLen(d, log, q) {
      LenSnoc(d, log, op, q);
    }
  }

  /** A data operation that the estimate counts as no more than it adds: the file
      is not yet longer than persisted, or the write does not extend that. */
  predicate CountedRight(d: Disk, log: seq<Op>, op: Op) {
    match op
    case Write(p, offset, data) => FileLen(d, log, p) <= |Start(d, p)| || offset + |data| <= |Start(d, p)|
    case SetLen(p, n) => FileLen(d, log, p) <= |Start(d, p)|
    case _ => true
  }

  /** What one more operation adds to the demand. */
  lemma DemandSnoc(d: Disk, log: seq<Op>, op: Op)
    ensures var p := TargetOf(op);
            Total(Needs(d, log + [op])) - Total(Needs(d, log))
            == if op.Write? || op.SetLen?
               then Max(|Start(d, p)|, FileLen(d, log + [op], p)) - Max(|Start(d, p)|, FileLen(d, log, p))
               else 0
  {
    if op.Write? || op.SetLen? {
      NeedsAfterData(d, log, op);
      TotalUpdate(Needs(d, log), op.path, Max(|Start(d, op.path)|, FileLen(d, log + [op], op.path)));
      NeedAt(d, log, op.path);
    } else {
      NeedsAfterOther(d, log, op);
    }
  }

  ghost predicate AllCountedRight(d: Disk, log: seq<Op>) {
    log == [] || (AllCountedRight(d, log[..|log| - 1]) && CountedRight(d, log[..|log| - 1], log[|log| - 1]))
  }

  /** The estimate is exact exactly if no pending operation extends a file that
      one before it had extended already, or truncates it; above all, with
      nothing pending. */
  lemma {:induction false} UsedIsExactIff(d: Disk, synced: set<Path>, log: seq<Op>)
    ensures UsedBytes(Fs(d, synced, log)) == Demand(Fs(d, synced, log)) <==> AllCountedRight(d, log)
  {
    if log == [] {
      assert Needs(d, []) == Persistent(d);
    } else {
      var before, op := log[..|log| - 1], log[|log| - 1];
      UsedIsExactIff(d, synced, before);
      UsedCoversDemand(d, synced, before);
      assert before + [op] == log;
      DemandSnoc(d, before, op);
      LenSnoc(d, before, op, TargetOf(op));
    }
  }

  /** While the estimate is exact and the file reads no shorter than persisted, a
      write is admitted exactly if it extends nothing, or all files fit the disk
      with it. */
  lemma WriteAdmittedIff(fs: Fs, capacity: nat, p: Path, offset: nat, data: seq<Byte>)
    requires UsedBytes(fs) == Demand(fs) && Unmoved(fs.pending, p)
    requires |Start(fs.disk, p)| <= MergedLen(fs.disk, fs.pending, p)
    ensures Admits(fs, Some(capacity), p, offset, data) <==>
              || offset + |data| <= MergedLen(fs.disk, fs.pending, p)
              || Demand(fs.(pending := fs.pending + [Op.Write(p, offset, data)])) <= capacity
  {
    UnmovedReads(fs.disk, fs.pending, p);
    DemandSnoc(fs.disk, fs.pending, Op.Write(p, offset, data));
    LenSnoc(fs.disk, fs.pending, Op.Write(p, offset, data), p);
  }
}
