/** The file system's persisted state and its log of unsynced operations. */
module FsSpec {
  import opened Common
  import opened SeqSpace

  /** An absolute path as its components; the root is empty. */
  type Path = seq<string>

  datatype Kind = File | Directory | Symlink

  datatype Op =
    | CreateFile(path: Path)
    | CreateDir(path: Path)
    | CreateSymlink(path: Path, target: Path)
    | CreateHardLink(path: Path, target: Path)
    | Write(path: Path, offset: nat, data: seq<Byte>)
    | SetLen(path: Path, len: nat)
    | SetPermissions(path: Path)
    | Rename(from: Path, to: Path)
    | RemoveFile(path: Path)
    | RemoveDir(path: Path)

  /** What reached stable storage. */
  datatype Disk = Disk(files: map<Path, seq<Byte>>, dirs: set<Path>, symlinks: map<Path, Path>)

  function Parent(p: Path): Option<Path> {
    if p == [] then None else Some(p[..|p| - 1])
  }

  function Zeros(n: nat): (s: seq<Byte>)
    ensures |s| == n && forall i :: 0 <= i < n ==> s[i] == 0
  {
    seq(n, i => 0)
  }

  /** `Vec::resize(n, 0)`. */
  function Resize(s: seq<Byte>, n: nat): (r: seq<Byte>)
    ensures |r| == n
  {
    if n <= |s| then s[..n] else s + Zeros(n - |s|)
  }

  /** `data` copied over `s` from `offset` on, after growing `s` if need be. */
  function Overwrite(s: seq<Byte>, offset: nat, data: seq<Byte>): seq<Byte> {
    var end := offset + |data|;
    var grown := if end > |s| then Resize(s, end) else s;
    grown[..offset] + data + grown[end..]
  }

  /** Apply one operation to stable storage. */
  function Apply(d: Disk, op: Op): Disk {
    match op
    case CreateFile(p) => if p in d.files then d else d.(files := d.files[p := []])
    case CreateDir(p) => d.(dirs := d.dirs + {p})
    case CreateSymlink(p, t) => if p in d.symlinks then d else d.(symlinks := d.symlinks[p := t])
    case CreateHardLink(p, t) => if t in d.files then d.(files := d.files[p := d.files[t]]) else d
    case Write(p, offset, data) =>
      if p in d.files then d.(files := d.files[p := Overwrite(d.files[p], offset, data)]) else d
    case SetLen(p, n) => if p in d.files then d.(files := d.files[p := Resize(d.files[p], n)]) else d
    case SetPermissions(_) => d
    case Rename(f, t) =>
      if f in d.files then d.(files := (d.files - {f})[t := d.files[f]])
      else if f in d.dirs then d.(dirs := d.dirs - {f} + {t})
      else if f in d.symlinks then d.(symlinks := (d.symlinks - {f})[t := d.symlinks[f]])
      else d
    case RemoveFile(p) => d.(files := d.files - {p}, symlinks := d.symlinks - {p})
    case RemoveDir(p) => d.(dirs := d.dirs - {p})
  }

  /** The reference: the whole log applied, oldest first. */
  function Replay(d: Disk, log: seq<Op>): Disk {
    if log == [] then d else Apply(Replay(d, log[..|log| - 1]), log[|log| - 1])
  }

  lemma {:induction false} ReplaySplit(d: Disk, a: seq<Op>, b: seq<Op>)
    ensures Replay(d, a + b) == Replay(Replay(d, a), b)
  {
    if b == [] {
      assert a + b == a;
    } else {
      ReplaySplit(d, a, b[..|b| - 1]);
      assert (a + b)[..|a + b| - 1] == a + b[..|b| - 1];
    }
  }

  /** The kind that stable storage gives a path. */
  function KindOf(d: Disk, p: Path): Option<Kind> {
    if p in d.files then Some(File)
    else if p in d.dirs then Some(Directory)
    else if p in d.symlinks then Some(Symlink)
    else None
  }
}
