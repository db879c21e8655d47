/** Reading a file through the log, against the bytes that syncing would
    persist. */
module FsContent {
  import opened Common
  import opened SeqSpace
  import opened FsSpec
  import opened FsNamespace
  import opened FsLinks

  // ---- which operations reach the content ----

  predicate Feeds(log: seq<Op>, q: Path, c: Path) {
    q == c || RenamedPath(log, q) == c
  }

  /** A data operation that reaches the content path, as one on that path. */
  function Redirect(log: seq<Op>, op: Op, c: Path): Op {
    match op
    case Write(p, offset, data) => if Feeds(log, p, c) then Write(c, offset, data) else op
    case SetLen(p, n) => if Feeds(log, p, c) then SetLen(c, n) else op
    case _ => op
  }

  function Redirected(log: seq<Op>, ops: seq<Op>, c: Path): seq<Op> {
    if ops == [] then []
    else Redirected(log, ops[..|ops| - 1], c) + [Redirect(log, ops[|ops| - 1], c)]
  }

  /** The log as a reader of the content path takes it. */
  function AsSeen(log: seq<Op>, c: Path): seq<Op> {
    Redirected(log, log, c)
  }

  /** `file_len`. */
  function MergedLen(d: Disk, log: seq<Op>, p: Path): nat {
    var c := Source(log, p);
    FileLen(d, AsSeen(log, c), c)
  }

  /** `read_file`. */
  function MergedRead(d: Disk, log: seq<Op>, p: Path, offset: nat, len: nat): seq<Byte> {
    var c := Source(log, p);
    Read(d, AsSeen(log, c), c, offset, len)
  }

  /** A pending rename of the path or over it, or a pending hard link at it. */
  predicate Moves(op: Op, p: Path) {
    (op.Rename? && (op.from == p || op.to == p)) || LinksAt(op, p)
  }

  predicate Unmoved(log: seq<Op>, p: Path) {
    forall i :: 0 <= i < |log| ==> !Moves(log[i], p)
  }

  /** A path that is not itself renamed or linked, whatever the log does to
      others, has its content, and all writes that reach it, under its name. */
  lemma {:induction false} UnmovedPaths(log: seq<Op>, p: Path, q: Path)
    requires Unmoved(log, p)
    ensures LinkTarget(log, p) == None && PersistedPath(log, p) == p && RenamedPath(log, p) == p
    ensures Resolves(log, p) && Source(log, p) == p
    ensures Feeds(log, q, p) <==> q == p
  {
    if log != [] {
      var before := log[..|log| - 1];
      assert forall i :: 0 <= i < |before| ==> before[i] == log[i];
      UnmovedPaths(before, p, q);
    }
  }

  lemma UnmovedRedirect(log: seq<Op>, op: Op, p: Path)
    requires Unmoved(log, p)
    ensures Redirect(log, op, p) == op
  {
    if op.Write? || op.SetLen? {
      UnmovedPaths(log, p, op.path);
    }
  }

  lemma {:induction false} UnmovedRedirects(log: seq<Op>, ops: seq<Op>, p: Path)
    requires Unmoved(log, p)
    ensures Redirected(log, ops, p) == ops
  {
    if ops != [] {
      UnmovedRedirects(log, ops[..|ops| - 1], p);
      UnmovedRedirect(log, ops[|ops| - 1], p);
    }
  }

  /** So reads of it are reads under its name through the log as it is. */
  lemma UnmovedReads(d: Disk, log: seq<Op>, p: Path)
    requires Unmoved(log, p)
    ensures MergedLen(d, log, p) == FileLen(d, log, p)
    ensures forall offset: nat, len: nat :: MergedRead(d, log, p, offset, len) == Read(d, log, p, offset, len)
  {
    UnmovedPaths(log, p, p);
    UnmovedRedirects(log, log, p);
  }

  predicate Touches(op: Op, p: Path) {
    (op.Write? || op.SetLen?) && op.path == p
  }

  predicate Covers(op: Op, p: Path, i: nat) {
    op.Write? && op.path == p && op.offset <= i < op.offset + |op.data|
  }

  /** Persisted bytes, empty for a file that is not persisted yet. */
  function Start(d: Disk, p: Path): seq<Byte> {
    if p in d.files then d.files[p] else []
  }

  // ---- what a reader sees ----

  /** The length through the log: writes extend, truncation sets. */
  function FileLen(d: Disk, log: seq<Op>, p: Path): nat {
    if log == [] then |Start(d, p)|
    else
      var n, op := FileLen(d, log[..|log| - 1], p), log[|log| - 1];
      if op.Write? && op.path == p then (if op.offset + |op.data| > n then op.offset + |op.data| else n)
      else if op.SetLen? && op.path == p then op.len
      else n
  }

  function ByteAt(s: seq<Byte>, i: nat): Byte {
    if i < |s| then s[i] else 0
  }

  /** The newest pending write over the byte, else the persisted byte, else 0. */
  function Overlay(d: Disk, log: seq<Op>, p: Path, i: nat): Byte {
    if log == [] then ByteAt(Start(d, p), i)
    else if Covers(log[|log| - 1], p, i) then log[|log| - 1].data[i - log[|log| - 1].offset]
    else Overlay(d, log[..|log| - 1], p, i)
  }

  function Read(d: Disk, log: seq<Op>, p: Path, offset: nat, len: nat): seq<Byte> {
    var n := FileLen(d, log, p);
    seq<Byte>(Min(len, SaturatingSub(n, offset)), k requires 0 <= k => Overlay(d, log, p, offset + k))
  }

  // ---- what syncing would persist ----

  function ApplyData(c: seq<Byte>, op: Op, p: Path): seq<Byte> {
    if op.Write? && op.path == p then Overwrite(c, op.offset, op.data)
    else if op.SetLen? && op.path == p then Resize(c, op.len)
    else c
  }

  /** The file's own data operations applied in order. */
  function Content(d: Disk, log: seq<Op>, p: Path): seq<Byte> {
    if log == [] then Start(d, p)
    else ApplyData(Content(d, log[..|log| - 1], p), log[|log| - 1], p)
  }

  function Slice(s: seq<Byte>, offset: nat, len: nat): seq<Byte> {
    s[Min(offset, |s|)..Min(offset + len, |s|)]
  }

  /** The file is not renamed, linked or removed, and no data is logged for it
      before it exists. Whatever happens to other files does not matter. */
  predicate Undisturbed(d: Disk, log: seq<Op>, p: Path) {
    && Unmoved(log, p)
    && (forall i :: 0 <= i < |log| ==> log[i] != RemoveFile(p))
    && (p !in d.files ==>
          forall j :: 0 <= j < |log| && Touches(log[j], p) ==> exists i :: 0 <= i < j && log[i] == CreateFile(p))
  }

  lemma ApplyToFile(d: Disk, op: Op, p: Path)
    requires !Moves(op, p) && op != RemoveFile(p)
    ensures p in Apply(d, op).files <==> p in d.files || op == CreateFile(p)
    ensures p in d.files ==> Apply(d, op).files[p] == ApplyData(d.files[p], op, p)
    ensures p !in d.files && op == CreateFile(p) ==> Apply(d, op).files[p] == []
  {
  }

  lemma UndisturbedBefore(d: Disk, log: seq<Op>, p: Path)
    requires log != [] && Undisturbed(d, log, p)
    ensures Undisturbed(d, log[..|log| - 1], p)
    ensures p !in d.files && Touches(log[|log| - 1], p) ==> CreateFile(p) in log[..|log| - 1]
  {
    var before := log[..|log| - 1];
    assert forall i :: 0 <= i < |before| ==> before[i] == log[i];
  }

  /** Replaying the whole log leaves exactly that content. */
  lemma {:induction false} ContentIsReplay(d: Disk, log: seq<Op>, p: Path)
    requires Undisturbed(d, log, p)
    ensures p in Replay(d, log).files <==> p in d.files || CreateFile(p) in log
    ensures p in Replay(d, log).files ==> Replay(d, log).files[p] == Content(d, log, p)
    ensures p !in Replay(d, log).files ==> Content(d, log, p) == []
  {
    if log != [] {
      var before, op := log[..|log| - 1], log[|log| - 1];
      UndisturbedBefore(d, log, p);
      ContentIsReplay(d, before, p);
      ApplyToFile(Replay(d, before), op, p);
      assert CreateFile(p) in log <==> CreateFile(p) in before || op == CreateFile(p) by {
        assert log == before + [op];
      }
    }
  }

  lemma {:induction false} LengthAgrees(d: Disk, log: seq<Op>, p: Path)
    ensures FileLen(d, log, p) == |Content(d, log, p)|
  {
    if log != [] {
      LengthAgrees(d, log[..|log| - 1], p);
    }
  }

  // ---- where the two differ ----

  /** A truncation cut the byte off after the newest write over it. */
  predicate Cut(log: seq<Op>, p: Path, i: nat) {
    log != [] && (
      var op := log[|log| - 1];
      !Covers(op, p, i) && ((op.SetLen? && op.path == p && op.len <= i) || Cut(log[..|log| - 1], p, i)))
  }

  lemma OverwriteAt(c: seq<Byte>, offset: nat, data: seq<Byte>, i: nat)
    ensures ByteAt(Overwrite(c, offset, data), i)
         == if offset <= i < offset + |data| then data[i - offset] else ByteAt(c, i)
  {
  }

  lemma ResizeAt(c: seq<Byte>, n: nat, i: nat)
    ensures ByteAt(Resize(c, n), i) == if i < n then ByteAt(c, i) else 0
  {
  }

  /** Byte by byte, for every log: the persisted byte is the one read, except
      that a cut byte is 0. */
  lemma {:induction false} ByteAgrees(d: Disk, log: seq<Op>, p: Path, i: nat)
    ensures ByteAt(Content(d, log, p), i) == if Cut(log, p, i) then 0 else Overlay(d, log, p, i)
  {
    if log != [] {
      var before, op := log[..|log| - 1], log[|log| - 1];
      ByteAgrees(d, before, p, i);
      if op.Write? && op.path == p {
        OverwriteAt(Content(d, before, p), op.offset, op.data, i);
      } else if op.SetLen? && op.path == p {
        ResizeAt(Content(d, before, p), op.len, i);
      }
    }
  }

  /** A cut byte that still reads as what was written there. */
  predicate Resurfaces(d: Disk, log: seq<Op>, p: Path, i: nat) {
    Cut(log, p, i) && Overlay(d, log, p, i) != 0
  }

  /** A read returns the slice of the content that replaying the log persists,
      exactly when no byte in its range resurfaces. */
  lemma ReadIsReplayIff(d: Disk, log: seq<Op>, p: Path, offset: nat, len: nat)
    requires Undisturbed(d, log, p) && (p in d.files || CreateFile(p) in log)
    ensures p in Replay(d, log).files
    ensures MergedRead(d, log, p, offset, len) == Slice(Replay(d, log).files[p], offset, len)
            <==> Clear(d, log, p, offset, len)
  {
    UnmovedReads(d, log, p);
    ContentIsReplay(d, log, p);
    ReadIsContentIff(d, log, p, offset, len);
  }

  /** The bytes of a read's range. */
  ghost predicate Clear(d: Disk, log: seq<Op>, p: Path, offset: nat, len: nat) {
    forall i :: offset <= i < Min(offset + len, FileLen(d, log, p)) ==> !Resurfaces(d, log, p, i)
  }

  lemma ReadByte(d: Disk, log: seq<Op>, p: Path, offset: nat, len: nat, k: nat)
    requires k < |Read(d, log, p, offset, len)|
    ensures |Read(d, log, p, offset, len)| == |Slice(Content(d, log, p), offset, len)|
    ensures offset + k < Min(offset + len, FileLen(d, log, p))
    ensures Read(d, log, p, offset, len)[k] == Slice(Content(d, log, p), offset, len)[k]
            <==> !Resurfaces(d, log, p, offset + k)
  {
    LengthAgrees(d, log, p);
    ByteAgrees(d, log, p, offset + k);
    assert Slice(Content(d, log, p), offset, len)[k] == Content(d, log, p)[offset + k];
  }

  lemma ReadIsContentIff(d: Disk, log: seq<Op>, p: Path, offset: nat, len: nat)
    ensures Read(d, log, p, offset, len) == Slice(Content(d, log, p), offset, len) <==> Clear(d, log, p, offset, len)
  {
    LengthAgrees(d, log, p);
    var r, s := Read(d, log, p, offset, len), Slice(Content(d, log, p), offset, len);
    assert |r| == |s|;
    if r == s {
      forall i | offset <= i < Min(offset + len, FileLen(d, log, p)) ensures !Resurfaces(d, log, p, i) {
        ReadByte(d, log, p, offset, len, i - offset);
      }
    } else {
      var k :| 0 <= k < |r| && r[k] != s[k];
      ReadByte(d, log, p, offset, len, k);
    }
  }

  /** Every truncation of the file leaves at least its length at that point. */
  predicate NonShrinking(d: Disk, log: seq<Op>, p: Path) {
    forall i :: 0 <= i < |log| && log[i].SetLen? && log[i].path == p ==> FileLen(d, log[..i], p) <= log[i].len
  }

  lemma {:induction false} NothingResurfaces(d: Disk, log: seq<Op>, p: Path, i: nat)
    requires NonShrinking(d, log, p)
    ensures FileLen(d, log, p) <= i ==> Overlay(d, log, p, i) == 0
    ensures !Resurfaces(d, log, p, i)
  {
    if log != [] {
      var before := log[..|log| - 1];
      forall j | 0 <= j < |before| && before[j].SetLen? && before[j].path == p
        ensures FileLen(d, before[..j], p) <= before[j].len
      {
        assert before[..j] == log[..j] && before[j] == log[j];
      }
      NothingResurfaces(d, before, p, i);
    }
  }

  /** With creation, writes and non-shrinking truncations only, every read is
      the slice of what replaying the log persists. */
  lemma ReadIsReplay(d: Disk, log: seq<Op>, p: Path, offset: nat, len: nat)
    requires Undisturbed(d, log, p) && (p in d.files || CreateFile(p) in log) && NonShrinking(d, log, p)
    ensures p in Replay(d, log).files
    ensures MergedRead(d, log, p, offset, len) == Slice(Replay(d, log).files[p], offset, len)
  {
    ReadIsReplayIff(d, log, p, offset, len);
    forall i | offset <= i < Min(offset + len, FileLen(d, log, p)) ensures !Resurfaces(d, log, p, i) {
      NothingResurfaces(d, log, p, i);
    }
  }

  /** Shrink then extend, in the concrete: the old byte resurfaces. */
  lemma ShrinkThenExtend(p: Path, b: Byte)
    requires b != 0
    ensures var d, log := Disk(map[p := [b]], {[]}, map[]), [SetLen(p, 0), SetLen(p, 1)];
            MergedRead(d, log, p, 0, 1) == [b] && Content(d, log, p) == [0]
  {
    var d, log := Disk(map[p := [b]], {[]}, map[]), [SetLen(p, 0), SetLen(p, 1)];
    UnmovedReads(d, log, p);
    assert log[..1] == [SetLen(p, 0)] && log[..1][..0] == [];
    assert Content(d, log[..1], p) == ApplyData(Content(d, [], p), SetLen(p, 0), p) == [];
    assert Content(d, log, p) == Resize([], 1) == [0];
    assert Overlay(d, log, p, 0) == Overlay(d, log[..1], p, 0) == Overlay(d, [], p, 0) == b;
  }
}
