/** The mutable file system of one host. */
module FsHost {
  import opened Common
  import opened SeqSpace
  import opened FsSpec
  import opened FsNamespace
  import opened FsLinks
  import opened FsContent
  import opened FsSync
  import opened FsCapacity
  import opened FsDurability
  import FsMoves

  datatype FsError = NoSuchEntry | Exists | IsADirectory | NotADirectory | NotEmpty | NoSpace

  lemma KindCases(k: Option<Kind>)
    ensures k == None || k == Some(File) || k == Some(Directory) || k == Some(Symlink)
  {
    if k.Some? {
      match k.value
      case File =>
      case Directory =>
      case Symlink =>
    }
  }

  class FsState {
    var files: map<Path, seq<Byte>>
    var dirs: set<Path>
    var symlinks: map<Path, Path>
    var synced: set<Path>
    var pending: seq<Op>
    const capacity: Option<nat>

    function Stored(): Disk
      reads this
    {
      Disk(files, dirs, symlinks)
    }

    function View(): Fs
      reads this
    {
      Fs(Stored(), synced, pending)
    }

    constructor (capacity: Option<nat>)
      ensures View() == FRESH && this.capacity == capacity
    {
      this.capacity := capacity;
      files, dirs, symlinks, synced, pending := map[], {[]}, map[], {[]}, [];
    }

    // ---- queries ----

    /** Follow the history of a path backwards, once. */
    method Kind(start: Path) returns (k: Option<Kind>)
      ensures k == EntryKind(Stored(), pending, start)
    {
      var path, i := start, |pending|;
      assert pending[..i] == pending;
      while i > 0
        invariant 0 <= i <= |pending|
        invariant EntryKind(Stored(), pending[..i], path) == EntryKind(Stored(), pending, start)
      {
        i := i - 1;
        assert pending[..i + 1][..i] == pending[..i];
        match pending[i]
        case CreateFile(q) => if q == path { return Some(File); }
        case CreateHardLink(q, _) => if q == path { return Some(File); }
        case CreateDir(q) => if q == path { return Some(Directory); }
        case CreateSymlink(q, _) => if q == path { return Some(Symlink); }
        case RemoveFile(q) => if q == path { return None; }
        case RemoveDir(q) => if q == path { return None; }
        case Rename(f, t) =>
          if f == path { return None; }
          if t == path { path := f; }
        case _ =>
      }
      assert pending[..0] == [];
      if path in files {
        k := Some(File);
      } else if path in dirs {
        k := Some(Directory);
      } else if path in symlinks {
        k := Some(Symlink);
      } else {
        k := None;
      }
    }

    // ---- where the content of a path is ----

    method HardLinkTarget(path: Path) returns (target: Option<Path>)
      ensures target == LinkTarget(pending, path)
    {
      for i := 0 to |pending|
        invariant LinkTarget(pending[..i], path) == None
      {
        assert pending[..i + 1][..i] == pending[..i];
        if LinksAt(pending[i], path) {
          LinkTargetFound(pending, path, i + 1);
          return Some(pending[i].target);
        }
      }
      assert pending[..|pending|] == pending;
      return None;
    }

    static lemma {:induction false} LinkTargetFound(log: seq<Op>, path: Path, n: nat)
      requires n <= |log| && LinkTarget(log[..n], path).Some?
      ensures LinkTarget(log, path) == LinkTarget(log[..n], path)
    {
      if n < |log| {
        assert log[..|log| - 1][..n] == log[..n];
        LinkTargetFound(log[..|log| - 1], path, n);
      } else {
        assert log[..n] == log;
      }
    }

    /** Pending renames, newest first. */
    method BeforeRenames(path: Path) returns (current: Path)
      ensures current == PersistedPath(pending, path)
    {
      current := path;
      var i := |pending|;
      assert pending[..i] == pending;
      while i > 0
        invariant 0 <= i <= |pending|
        invariant PersistedPath(pending[..i], current) == PersistedPath(pending, path)
      {
        i := i - 1;
        assert pending[..i + 1][..i] == pending[..i];
        var op := pending[i];
        if op.Rename? && op.to == current {
          current := op.from;
        }
      }
    }

    /** A symlink's target: the newest creation or removal, else stable storage. */
    method ReadLinkTarget(path: Path) returns (r: Option<Path>)
      ensures r == FsMoves.ReadLink(Stored(), pending, path)
    {
      var original := BeforeRenames(path);
      var i := |pending|;
      assert pending[..i] == pending;
      ghost var d := Stored();
      while i > 0
        invariant 0 <= i <= |pending|
        invariant FsMoves.TargetAt(d, pending[..i], original) == FsMoves.TargetAt(d, pending, original)
      {
        i := i - 1;
        assert pending[..i + 1][..i] == pending[..i];
        var op := pending[i];
        if op.CreateSymlink? && op.path == original {
          return Some(op.target);
        }
        if op == RemoveFile(original) {
          return None;
        }
      }
      return if original in symlinks then Some(symlinks[original]) else None;
    }

    /** Pending renames, oldest first. */
    method IsRenamedTo(from: Path, to: Path) returns (r: bool)
      ensures r <==> RenamedPath(pending, from) == to
    {
      var current := from;
      for i := 0 to |pending|
        invariant current == RenamedPath(pending[..i], from)
      {
        assert pending[..i + 1][..i] == pending[..i];
        var op := pending[i];
        if op.Rename? && op.from == current {
          current := op.to;
        }
      }
      assert pending[..|pending|] == pending;
      return current == to;
    }

    /** Links, one after the other, then renames. */
    method ContentOf(path: Path, ghost steps: nat) returns (c: Path)
      requires ContentPath(pending, path, steps).Some?
      ensures Some(c) == ContentPath(pending, path, steps)
      decreases steps
    {
      var target := HardLinkTarget(path);
      if target.Some? {
        c := ContentOf(target.value, steps - 1);
      } else {
        c := BeforeRenames(path);
      }
    }

    static lemma RedirectedNext(log: seq<Op>, i: nat, c: Path)
      requires i < |log|
      ensures Redirected(log, log[..i + 1], c) == Redirected(log, log[..i], c) + [Redirect(log, log[i], c)]
    {
      assert log[..i + 1][..i] == log[..i];
    }

    /** What one more pending operation makes of the length. */
    static lemma LenNext(d: Disk, log: seq<Op>, i: nat, c: Path)
      requires i < |log|
      ensures var op, len := log[i], FileLen(d, Redirected(log, log[..i], c), c);
              FileLen(d, Redirected(log, log[..i + 1], c), c)
              == if !(op.Write? || op.SetLen?) || !Feeds(log, op.path, c) then len
                 else if op.Write? then (if op.offset + |op.data| > len then op.offset + |op.data| else len)
                 else op.len
    {
      RedirectedNext(log, i, c);
      LenSnoc(d, Redirected(log, log[..i], c), Redirect(log, log[i], c), c);
    }

    /** The merged length. */
    method Length(path: Path) returns (len: nat)
      requires Resolves(pending, path)
      ensures len == MergedLen(Stored(), pending, path)
    {
      var content := ContentOf(path, |pending|);
      len := if content in files then |files[content]| else 0;
      var i := 0;
      while i < |pending|
        invariant 0 <= i <= |pending|
        invariant len == FileLen(Stored(), Redirected(pending, pending[..i], content), content)
      {
        var op := pending[i];
        LenNext(Stored(), pending, i, content);
        if op.Write? || op.SetLen? {
          var renamed := IsRenamedTo(op.path, content);
          if op.path == content || renamed {
            if op.Write? {
              var end := op.offset + |op.data|;
              if end > len {
                len := end;
              }
            } else {
              len := op.len;
            }
          }
        }
        i := i + 1;
      }
      assert pending[..i] == pending;
    }

    /** Copy the overlap of one pending write with the range being read. */
    method CopyOverlap(buf: array<Byte>, n: nat, offset: nat, at: nat, data: seq<Byte>)
      requires n <= buf.Length
      modifies buf
      ensures forall k :: 0 <= k < n ==>
                buf[k] == if at <= offset + k < at + |data| then data[offset + k - at] else old(buf[k])
      ensures forall k :: n <= k < buf.Length ==> buf[k] == old(buf[k])
    {
      var end, readEnd := at + |data|, offset + n;
      if at < readEnd && end > offset {
        var from := if at > offset then at else offset;
        var to := Min(end, readEnd);
        forall k | from <= k < to {
          buf[k - offset] := data[k - at];
        }
      }
    }

    /** Lay every pending write that reaches the content over its stored bytes. */
    method OverlayWrites(content: Path, buf: array<Byte>, n: nat, offset: nat)
      requires n <= buf.Length
      requires forall k :: 0 <= k < n ==> buf[k] == ByteAt(Start(Stored(), content), offset + k)
      modifies buf
      ensures forall k :: 0 <= k < n ==> buf[k] == Overlay(Stored(), AsSeen(pending, content), content, offset + k)
      ensures forall k :: n <= k < buf.Length ==> buf[k] == old(buf[k])
    {
      var i := 0;
      while i < |pending|
        invariant 0 <= i <= |pending|
        invariant forall k :: 0 <= k < n ==>
                    buf[k] == Overlay(Stored(), Redirected(pending, pending[..i], content), content, offset + k)
        invariant forall k :: n <= k < buf.Length ==> buf[k] == old(buf[k])
      {
        var op := pending[i];
        RedirectedNext(pending, i, content);
        if op.Write? {
          var renamed := IsRenamedTo(op.path, content);
          if op.path == content || renamed {
            CopyOverlap(buf, n, offset, op.offset, op.data);
          }
        }
        i := i + 1;
      }
      assert pending[..i] == pending;
    }

    /** Read into a buffer: the merged bytes of the range, and the rest of the
        buffer as it was. */
    method ReadFile(path: Path, buf: array<Byte>, offset: nat) returns (n: nat)
      requires Resolves(pending, path)
      modifies buf
      ensures n <= buf.Length
      ensures buf[..n] == MergedRead(Stored(), pending, path, offset, buf.Length)
      ensures buf[n..] == old(buf[n..])
    {
      var len := Length(path);
      if buf.Length == 0 || offset >= len {
        return 0;
      }
      n := Min(buf.Length, len - offset);
      var content := ContentOf(path, |pending|);
      var stored := if content in files then files[content] else [];
      forall k | 0 <= k < n {
        buf[k] := ByteAt(stored, offset + k);
      }
      OverlayWrites(content, buf, n, offset);
    }

    // ---- scanning a directory ----

    /** Those of the stored names that are children and still of their kind. */
    method OfKind(names: set<Path>, dir: Path, kind: FsSpec.Kind) returns (found: set<Path>)
      ensures forall p :: p in found <==>
                p in names && Parent(p) == Some(dir) && EntryKind(Stored(), pending, p) == Some(kind)
    {
      var todo := names;
      found := {};
      while todo != {}
        invariant todo <= names
        invariant forall p :: p in found <==>
                    p in names && p !in todo && Parent(p) == Some(dir) && EntryKind(Stored(), pending, p) == Some(kind)
        decreases |todo|
      {
        var p :| p in todo;
        todo := todo - {p};
        if Parent(p) == Some(dir) {
          var k := Kind(p);
          if k == Some(kind) {
            found := found + {p};
          }
        }
      }
    }

    /** The name that a logged creation or rename may list, if it is a child and
        exists as that; any kind will do for a rename. */
    method NamedBy(op: Op, dir: Path, renames: bool) returns (r: Option<Path>)
      ensures r.Some? ==> NamesChild(op, dir, renames, r.value)
      ensures forall p :: NamesChild(op, dir, renames, p) ==> r == Some(p)
    {
      var path := PathNamed(op);
      if Parent(path) != Some(dir) {
        return None;
      }
      var k := Kind(path);
      if (op.CreateFile? && k == Some(File)) || (op.CreateDir? && k == Some(Directory))
         || (op.CreateSymlink? && k == Some(Symlink)) || (renames && op.Rename? && k.Some?)
      {
        return Some(path);
      }
      return None;
    }

    static function PathNamed(op: Op): Path {
      if op.Rename? then op.to else op.path
    }

    predicate NamesChild(op: Op, dir: Path, renames: bool, p: Path)
      reads this
    {
      && Parent(p) == Some(dir) && EntryKind(Stored(), pending, p).Some?
      && (Creates(op, p, EntryKind(Stored(), pending, p).value) || (renames && RenamesTo(op, p)))
    }

    /** A child that exists, and that stable storage or the first `n` operations
        of the log list. */
    predicate Scanned(dir: Path, n: nat, p: Path)
      requires n <= |pending|
      reads this
    {
      && Parent(p) == Some(dir) && EntryKind(Stored(), pending, p).Some?
      && Sourced(Stored(), pending[..n], p, EntryKind(Stored(), pending, p).value)
    }

    lemma ScannedNext(dir: Path, n: nat, p: Path)
      requires n < |pending|
      ensures Scanned(dir, n + 1, p) <==> Scanned(dir, n, p) || NamesChild(pending[n], dir, true, p)
    {
      assert pending[..n + 1] == pending[..n] + [pending[n]];
      if EntryKind(Stored(), pending, p).Some? {
        SourcedGrows(Stored(), pending[..n], pending[n], p, EntryKind(Stored(), pending, p).value);
      }
    }

    /** Names in a directory. */
    method DirEntries(dir: Path) returns (entries: set<Path>)
      ensures forall p :: p in entries <==> Listed(Stored(), pending, dir, p)
    {
      var a := OfKind(files.Keys, dir, File);
      var b := OfKind(dirs, dir, Directory);
      var c := OfKind(symlinks.Keys, dir, Symlink);
      entries := a + b + c;
      for i := 0 to |pending|
        invariant forall p :: p in entries <==> Scanned(dir, i, p)
      {
        var named := NamedBy(pending[i], dir, true);
        forall p ensures Scanned(dir, i + 1, p) <==> p in entries || named == Some(p) {
          ScannedNext(dir, i, p);
        }
        if named.Some? {
          entries := entries + {named.value};
        }
      }
      assert pending[..|pending|] == pending;
    }

    /** `dir_has_children`: the stored names, then the logged creations. */
    method HasAnyChild(dir: Path) returns (r: bool)
      ensures r <==> HasChildren(Stored(), pending, dir)
    {
      var d := Stored();
      var a := OfKind(files.Keys, dir, File);
      var b := OfKind(dirs, dir, Directory);
      var c := OfKind(symlinks.Keys, dir, Symlink);
      if a + b + c != {} {
        var p :| p in a + b + c;
        FoundChild(d, pending, dir, p);
        return true;
      }
      for i := 0 to |pending|
        invariant forall j, p :: 0 <= j < i ==> !NamesChild(pending[j], dir, false, p)
      {
        var named := NamedBy(pending[i], dir, false);
        if named.Some? {
          FoundChild(d, pending, dir, named.value);
          return true;
        }
      }
      forall p | Parent(p) == Some(dir) && EntryKind(d, pending, p).Some?
        ensures !Counted(d, pending, p, EntryKind(d, pending, p).value)
      {
        assert p !in a && p !in b && p !in c;
        assert forall j :: 0 <= j < |pending| ==> !NamesChild(pending[j], dir, false, p);
      }
      return false;
    }

    static lemma FoundChild(d: Disk, log: seq<Op>, dir: Path, p: Path)
      requires Parent(p) == Some(dir) && EntryKind(d, log, p).Some? && Counted(d, log, p, EntryKind(d, log, p).value)
      ensures HasChildren(d, log, dir)
    {
      CountedIsNamed(d, log, p, EntryKind(d, log, p).value);
    }

    // ---- space ----

    method UsedSpace() returns (total: nat)
      ensures total == UsedBytes(View())
    {
      var sizes := Persistent(Stored());
      total := 0;
      while sizes != map[]
        invariant total + Total(sizes) == Total(Persistent(Stored()))
        decreases |sizes|
      {
        var p :| p in sizes;
        TotalRemove(sizes, p);
        total := total + sizes[p];
        sizes := sizes - {p};
      }
      var i := 0;
      while i < |pending|
        invariant 0 <= i <= |pending|
        invariant total == Total(Persistent(Stored())) + PendingGrowth(Stored(), pending[..i])
      {
        var op := pending[i];
        assert pending[..i + 1][..i] == pending[..i];
        if op.Write? || op.SetLen? {
          var persisted := if op.path in files then |files[op.path]| else 0;
          var end := if op.Write? then op.offset + |op.data| else op.len;
          if end > persisted {
            total := total + (end - persisted);
          }
        }
        i := i + 1;
      }
      assert pending[..i] == pending;
    }

    method CheckSpace(more: nat) returns (ok: bool)
      ensures ok <==> HasSpace(View(), capacity, more)
    {
      ok := true;
      if capacity.Some? {
        var used := UsedSpace();
        ok := used + more <= capacity.value;
      }
    }

    // ---- calls that log ----

    /** A positional write, admitted against the capacity. */
    method WriteAt(path: Path, offset: nat, data: seq<Byte>) returns (r: Option<FsError>)
      requires Resolves(pending, path)
      modifies `pending
      ensures r.None? <==> old(Admits(View(), capacity, path, offset, data))
      ensures r.Some? ==> r == Some(NoSpace)
      ensures View() == Step(old(View()), capacity, Call.WriteAt(path, offset, data))
    {
      var len := Length(path);
      var more := SaturatingSub(offset + |data|, len);
      if more > 0 {
        var ok := CheckSpace(more);
        if !ok {
          return Some(NoSpace);
        }
      }
      if data != [] {
        pending := pending + [Op.Write(path, offset, data)];
      }
      return None;
    }

    method SetFileLen(path: Path, len: nat)
      modifies `pending
      ensures View() == Step(old(View()), capacity, Truncate(path, len))
    {
      pending := pending + [SetLen(path, len)];
    }

    method ParentPresent(path: Path) returns (ok: bool)
      ensures ok <==> ParentExists(Stored(), pending, path)
    {
      var parent := Parent(path);
      if parent.None? {
        return true;
      }
      var k := Kind(parent.value);
      return k == Some(Directory);
    }

    /** `open` with `create`, on a file that does not exist yet. */
    method CreateNew(path: Path) returns (r: Option<FsError>)
      modifies `pending
      ensures r.None? <==> old(Admitted(Stored(), pending, CreateFile(path)))
      ensures View() == Step(old(View()), capacity, Create(path))
    {
      var k := Kind(path);
      if k == Some(File) {
        return Some(Exists);
      }
      var ok := ParentPresent(path);
      if !ok {
        return Some(NoSuchEntry);
      }
      pending := pending + [CreateFile(path)];
      return None;
    }

    method MakeDir(path: Path) returns (r: Option<FsError>)
      modifies `pending
      ensures r.None? <==> old(Admitted(Stored(), pending, CreateDir(path)))
      ensures r == Some(Exists) ==> old(EntryKind(Stored(), pending, path)).Some?
      ensures View() == Step(old(View()), capacity, Mkdir(path))
    {
      var ok := ParentPresent(path);
      if !ok {
        return Some(NoSuchEntry);
      }
      var k := Kind(path);
      if k.Some? {
        return Some(Exists);
      }
      pending := pending + [CreateDir(path)];
      return None;
    }

    method MakeSymlink(path: Path, target: Path) returns (r: Option<FsError>)
      modifies `pending
      ensures r.None? <==> old(Admitted(Stored(), pending, CreateSymlink(path, target)))
      ensures View() == Log(old(View()), CreateSymlink(path, target))
    {
      var ok := ParentPresent(path);
      if !ok {
        return Some(NoSuchEntry);
      }
      var k := Kind(path);
      if k.Some? {
        return Some(Exists);
      }
      pending := pending + [CreateSymlink(path, target)];
      return None;
    }

    method MakeHardLink(path: Path, target: Path) returns (r: Option<FsError>)
      modifies `pending
      ensures r.None? <==> old(Admitted(Stored(), pending, CreateHardLink(path, target)))
      ensures View() == Log(old(View()), CreateHardLink(path, target))
    {
      var ok := ParentPresent(path);
      var t := Kind(target);
      if !ok || t != Some(File) {
        return Some(NoSuchEntry);
      }
      var k := Kind(path);
      if k.Some? {
        return Some(Exists);
      }
      pending := pending + [CreateHardLink(path, target)];
      return None;
    }

    method Unlink(path: Path) returns (r: Option<FsError>)
      modifies `pending
      ensures r.None? <==> old(Admitted(Stored(), pending, RemoveFile(path)))
      ensures View() == Log(old(View()), RemoveFile(path))
    {
      var k := Kind(path);
      if k != Some(File) && k != Some(Symlink) {
        return Some(NoSuchEntry);
      }
      pending := pending + [RemoveFile(path)];
      return None;
    }

    method RemoveDirectory(path: Path) returns (r: Option<FsError>)
      modifies `pending
      ensures r.None? <==> old(Admitted(Stored(), pending, RemoveDir(path)))
      ensures View() == Log(old(View()), RemoveDir(path))
    {
      var k := Kind(path);
      if k != Some(Directory) {
        return Some(NoSuchEntry);
      }
      var occupied := HasAnyChild(path);
      if occupied {
        return Some(NotEmpty);
      }
      pending := pending + [RemoveDir(path)];
      return None;
    }

    method RenamePath(from: Path, to: Path) returns (r: Option<FsError>)
      modifies `pending
      ensures r.None? <==> old(Admitted(Stored(), pending, Rename(from, to)))
      ensures View() == Log(old(View()), Rename(from, to))
    {
      var ok := ParentPresent(to);
      if !ok {
        return Some(NoSuchEntry);
      }
      var f := Kind(from);
      var t := Kind(to);
      KindCases(f);
      KindCases(t);
      if f == Some(File) || f == Some(Symlink) {
        if t == Some(Directory) {
          return Some(IsADirectory);
        }
      } else if f == Some(Directory) {
        if t == Some(File) || t == Some(Symlink) {
          return Some(NotADirectory);
        }
        if t == Some(Directory) {
          var occupied := HasAnyChild(to);
          if occupied {
            return Some(NotEmpty);
          }
        }
      } else {
        return Some(NoSuchEntry);
      }
      pending := pending + [Rename(from, to)];
      return None;
    }

    // ---- syncing and crashing ----

    method ApplyToStored(op: Op)
      modifies `files, `dirs, `symlinks
      ensures Stored() == Apply(old(Stored()), op)
    {
      match op
      case CreateFile(p) => if p !in files { files := files[p := []]; }
      case CreateDir(p) => dirs := dirs + {p};
      case CreateSymlink(p, t) => if p !in symlinks { symlinks := symlinks[p := t]; }
      case CreateHardLink(p, t) => if t in files { files := files[p := files[t]]; }
      case Write(p, offset, data) =>
        if p in files {
          var end := offset + |data|;
          var content := files[p];
          if end > |content| {
            content := Resize(content, end);
          }
          files := files[p := content[..offset] + data + content[end..]];
        }
      case SetLen(p, n) => if p in files { files := files[p := Resize(files[p], n)]; }
      case SetPermissions(_) =>
      case Rename(f, t) =>
        if f in files {
          files := (files - {f})[t := files[f]];
        } else if f in dirs {
          dirs := dirs - {f} + {t};
        } else if f in symlinks {
          symlinks := (symlinks - {f})[t := symlinks[f]];
        }
      case RemoveFile(p) =>
        files := files - {p};
        symlinks := symlinks - {p};
      case RemoveDir(p) => dirs := dirs - {p};
    }

    method ApplyAll(ops: seq<Op>)
      modifies `files, `dirs, `symlinks
      ensures Stored() == Replay(old(Stored()), ops)
    {
      var i := 0;
      while i < |ops|
        invariant 0 <= i <= |ops|
        invariant Stored() == Replay(old(Stored()), ops[..i])
      {
        assert ops[..i + 1][..i] == ops[..i];
        ApplyToStored(ops[i]);
        i := i + 1;
      }
      assert ops[..i] == ops;
    }

    /** `fsync` and `fdatasync`: the file's data leaves the log. */
    method SyncData(path: Path) returns (r: Option<FsError>)
      modifies `files, `dirs, `symlinks, `pending
      ensures r.None? <==> old(EntryKind(Stored(), pending, path)) == Some(File)
      ensures View() == SyncFile(old(View()), path)
    {
      var k := Kind(path);
      if k != Some(File) {
        return Some(NoSuchEntry);
      }
      var flush, keep, i := [], [], 0;
      while i < |pending|
        invariant 0 <= i <= |pending|
        invariant flush == DataOps(pending[..i], path) && keep == OtherOps(pending[..i], path)
      {
        assert pending[..i + 1][..i] == pending[..i];
        if Touches(pending[i], path) {
          flush := flush + [pending[i]];
        } else {
          keep := keep + [pending[i]];
        }
        i := i + 1;
      }
      assert pending[..i] == pending;
      assert path in files ==> files[path := files[path]] == files;
      if path !in files {
        files := files[path := []];
      }
      pending := keep;
      ApplyAll(flush);
      return None;
    }

    /** `fsync` of a directory: its entries leave the log. */
    method SyncEntries(dir: Path) returns (r: Option<FsError>)
      modifies `files, `dirs, `symlinks, `synced, `pending
      ensures r.None? <==> old(EntryKind(Stored(), pending, dir)) == Some(Directory)
      ensures View() == SyncDir(old(View()), dir)
    {
      var k := Kind(dir);
      if k != Some(Directory) {
        return Some(NoSuchEntry);
      }
      var flush := SplitOff(dir);
      var i := 0;
      ghost var d0, s0 := Stored(), synced;
      while i < |flush|
        invariant 0 <= i <= |flush|
        invariant Stored() == Replay(d0, flush[..i]) && synced == EntriesAfter(s0, flush[..i], dir)
        invariant pending == Keep(old(pending), dir)
      {
        var op := flush[i];
        assert flush[..i + 1][..i] == flush[..i];
        assert op in flush;
        synced := Entries(synced, op, dir);
        ApplyToStored(op);
        i := i + 1;
      }
      assert flush[..i] == flush;
      return None;
    }

    method SplitOff(dir: Path) returns (flush: seq<Op>)
      modifies `pending
      ensures flush == Flush(old(pending), dir) && pending == Keep(old(pending), dir)
    {
      var keep, i := [], 0;
      flush := [];
      while i < |pending|
        invariant 0 <= i <= |pending| && pending == old(pending)
        invariant flush == Flush(pending[..i], dir) && keep == Keep(pending[..i], dir)
      {
        assert pending[..i + 1][..i] == pending[..i];
        if FlushedBy(pending[i], dir) {
          flush := flush + [pending[i]];
        } else {
          keep := keep + [pending[i]];
        }
        i := i + 1;
      }
      assert pending[..i] == pending;
      pending := keep;
    }

    method Crashes()
      modifies `files, `dirs, `symlinks, `pending
      ensures View() == Crash(old(View()))
    {
      pending := [];
      files := map p | p in files && p in synced :: files[p];
      dirs := set p | p in dirs && p in synced;
      symlinks := map p | p in symlinks && p in synced :: symlinks[p];
    }
  }
}
