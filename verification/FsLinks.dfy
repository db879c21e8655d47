/** Where the content of a path is: behind pending hard links and renames. */
module FsLinks {
  import opened Common
  import opened FsSpec
  import opened FsNamespace

  // ---- where the content lives ----

  /** Pending renames followed backwards. */
  function PersistedPath(log: seq<Op>, p: Path): Path {
    if log == [] then p
    else PersistedPath(log[..|log| - 1], if RenamesTo(log[|log| - 1], p) then log[|log| - 1].from else p)
  }

  /** Pending renames followed forwards. */
  function RenamedPath(log: seq<Op>, p: Path): Path {
    if log == [] then p
    else
      var q, op := RenamedPath(log[..|log| - 1], p), log[|log| - 1];
      if op.Rename? && op.from == q then op.to else q
  }

  /** The target of the oldest pending hard link at the path. */
  function LinkTarget(log: seq<Op>, p: Path): Option<Path> {
    if log == [] then None
    else
      var older, op := LinkTarget(log[..|log| - 1], p), log[|log| - 1];
      if older.None? && LinksAt(op, p) then Some(op.target) else older
  }

  /** Hard links followed first, then renames: the content path, or none if
      more than `steps` links are in the way. */
  function ContentPath(log: seq<Op>, p: Path, steps: nat): Option<Path>
    decreases steps
  {
    if LinkTarget(log, p).None? then Some(PersistedPath(log, p))
    else if steps == 0 then None
    else ContentPath(log, LinkTarget(log, p).value, steps - 1)
  }

  /** The chain of links ends within as many steps as the log is long. */
  predicate Resolves(log: seq<Op>, p: Path) {
    ContentPath(log, p, |log|).Some?
  }

  /** The path the content is read from (any, for a chain that does not end). */
  function Source(log: seq<Op>, p: Path): Path {
    if Resolves(log, p) then ContentPath(log, p, |log|).value else p
  }

  lemma {:induction false} MoreSteps(log: seq<Op>, p: Path, n: nat, m: nat)
    requires n <= m && ContentPath(log, p, n).Some?
    ensures ContentPath(log, p, m) == ContentPath(log, p, n)
    decreases n
  {
    if LinkTarget(log, p).Some? {
      MoreSteps(log, LinkTarget(log, p).value, n - 1, m - 1);
    }
  }

  function Linked(log: seq<Op>): set<Path> {
    set i | 0 <= i < |log| && log[i].CreateHardLink? :: log[i].path
  }

  lemma {:induction false} LinkedSize(log: seq<Op>)
    ensures |Linked(log)| <= |log|
    ensures forall p :: LinkTarget(log, p).Some? ==> p in Linked(log)
  {
    if log != [] {
      var before, op := log[..|log| - 1], log[|log| - 1];
      LinkedSize(before);
      assert Linked(log) == Linked(before) + (if op.CreateHardLink? then {op.path} else {}) by {
        assert forall i :: 0 <= i < |before| ==> before[i] == log[i];
      }
    }
  }

  /** The links passed on the way. */
  function Chain(log: seq<Op>, p: Path, steps: nat): set<Path>
    decreases steps
  {
    if LinkTarget(log, p).None? || steps == 0 then {}
    else {p} + Chain(log, LinkTarget(log, p).value, steps - 1)
  }

  /** A shortest chain passes no link twice. */
  lemma {:induction false} ChainSize(log: seq<Op>, p: Path, n: nat)
    requires ContentPath(log, p, n).Some? && (n > 0 ==> ContentPath(log, p, n - 1).None?)
    ensures |Chain(log, p, n)| == n && Chain(log, p, n) <= Linked(log)
    ensures forall q :: q in Chain(log, p, n) ==> ContentPath(log, q, n).Some?
    decreases n
  {
    LinkedSize(log);
    if n > 0 {
      var t := LinkTarget(log, p).value;
      ChainSize(log, t, n - 1);
      forall q | q in Chain(log, t, n - 1) ensures ContentPath(log, q, n).Some? {
        MoreSteps(log, q, n - 1, n);
      }
    }
  }

  /** The chain ends, in any number of steps, exactly if it ends in as many as
      the log is long. */
  lemma {:induction false} ResolvesIff(log: seq<Op>, p: Path, n: nat)
    ensures ContentPath(log, p, n).Some? ==> Resolves(log, p) && ContentPath(log, p, n).value == Source(log, p)
  {
    if ContentPath(log, p, n).Some? {
      if n > 0 && ContentPath(log, p, n - 1).Some? {
        ResolvesIff(log, p, n - 1);
        MoreSteps(log, p, n - 1, n);
      } else {
        ChainSize(log, p, n);
        LinkedSize(log);
        SubsetSize(Chain(log, p, n), Linked(log));
        MoreSteps(log, p, n, |log|);
      }
    }
  }

  lemma {:induction false} SubsetSize(a: set<Path>, b: set<Path>)
    requires a <= b
    ensures |a| <= |b|
  {
    if a != {} {
      var x :| x in a;
      SubsetSize(a - {x}, b - {x});
    }
  }

  /** Two links at each other. */
  lemma {:induction false} RoundAndRound(log: seq<Op>, a: Path, b: Path, n: nat)
    requires LinkTarget(log, a) == Some(b) && LinkTarget(log, b) == Some(a)
    ensures ContentPath(log, a, n).None? && ContentPath(log, b, n).None?
  {
    if n > 0 {
      RoundAndRound(log, a, b, n - 1);
    }
  }

  // ---- which hard link makes the chain endless ----

  /** Every chain of links ends. */
  ghost predicate AllResolve(log: seq<Op>) {
    forall p :: Resolves(log, p)
  }

  /** The path without a link at which the chain stops. */
  function EndOf(log: seq<Op>, p: Path, steps: nat): Option<Path>
    decreases steps
  {
    if LinkTarget(log, p).None? then Some(p)
    else if steps == 0 then None
    else EndOf(log, LinkTarget(log, p).value, steps - 1)
  }

  /** A hard link at a path that has none yet, to a target whose own chain stops
      at that very path. */
  predicate Closes(log: seq<Op>, op: Op) {
    op.CreateHardLink? && LinkTarget(log, op.path).None? && EndOf(log, op.target, |log|) == Some(op.path)
  }

  lemma LinkTargetSnoc(log: seq<Op>, op: Op, p: Path)
    ensures LinkTarget(log + [op], p)
         == if LinkTarget(log, p).None? && LinksAt(op, p) then Some(op.target) else LinkTarget(log, p)
  {
    assert (log + [op])[..|log + [op]| - 1] == log;
  }

  lemma {:induction false} EndsWhereItResolves(log: seq<Op>, p: Path, n: nat)
    ensures EndOf(log, p, n).Some? <==> ContentPath(log, p, n).Some?
    decreases n
  {
    if n > 0 && LinkTarget(log, p).Some? {
      EndsWhereItResolves(log, LinkTarget(log, p).value, n - 1);
    }
  }

  /** From a path whose old chain stops at the closing link, it goes round. */
  lemma {:induction false} ClosedGoesRound(log: seq<Op>, op: Op, p: Path, m: nat, n: nat)
    requires Closes(log, op) && EndOf(log, p, m) == Some(op.path)
    ensures ContentPath(log + [op], p, n).None?
    decreases n
  {
    LinkTargetSnoc(log, op, p);
    if n > 0 {
      if LinkTarget(log, p).None? {
        ClosedGoesRound(log, op, op.target, |log|, n - 1);
      } else {
        ClosedGoesRound(log, op, LinkTarget(log, p).value, m - 1, n - 1);
      }
    }
  }

  /** A chain that stops elsewhere is as it was. */
  lemma {:induction false} OtherEndStays(log: seq<Op>, op: Op, p: Path, n: nat)
    requires EndOf(log, p, n).Some? && !LinksAt(op, EndOf(log, p, n).value)
    ensures ContentPath(log + [op], p, n).Some?
    decreases n
  {
    LinkTargetSnoc(log, op, p);
    if LinkTarget(log, p).Some? {
      OtherEndStays(log, op, LinkTarget(log, p).value, n - 1);
    }
  }

  /** A chain that stopped at the new link goes on from its target. */
  lemma {:induction false} ThroughTheLink(log: seq<Op>, op: Op, p: Path, n: nat, m: nat)
    requires EndOf(log, p, n).Some? && LinksAt(op, EndOf(log, p, n).value)
    requires ContentPath(log + [op], op.target, m).Some?
    ensures ContentPath(log + [op], p, n + 1 + m).Some?
    decreases n
  {
    LinkTargetSnoc(log, op, p);
    if LinkTarget(log, p).None? {
      MoreSteps(log + [op], op.target, m, n + m);
    } else {
      ThroughTheLink(log, op, LinkTarget(log, p).value, n - 1, m);
    }
  }

  lemma {:induction false} StillResolves(log: seq<Op>, op: Op, p: Path)
    requires AllResolve(log) && !Closes(log, op)
    ensures Resolves(log + [op], p)
  {
    assert Resolves(log, p);
    EndsWhereItResolves(log, p, |log|);
    var end := EndOf(log, p, |log|).value;
    if LinksAt(op, end) {
      EndIsUnlinked(log, p, |log|);
      assert Resolves(log, op.target);
      EndsWhereItResolves(log, op.target, |log|);
      OtherEndStays(log, op, op.target, |log|);
      ThroughTheLink(log, op, p, |log|, |log|);
      ResolvesIff(log + [op], p, |log| + 1 + |log|);
    } else {
      OtherEndStays(log, op, p, |log|);
      ResolvesIff(log + [op], p, |log|);
    }
  }

  lemma {:induction false} EndIsUnlinked(log: seq<Op>, p: Path, n: nat)
    requires EndOf(log, p, n).Some?
    ensures LinkTarget(log, EndOf(log, p, n).value).None?
    decreases n
  {
    if LinkTarget(log, p).Some? {
      EndIsUnlinked(log, LinkTarget(log, p).value, n - 1);
    }
  }

  /** One more operation leaves every search for content ending exactly unless
      it is a hard link that closes its target's chain on itself. */
  lemma {:induction false} ResolveStepIff(log: seq<Op>, op: Op)
    requires AllResolve(log)
    ensures AllResolve(log + [op]) <==> !Closes(log, op)
  {
    if Closes(log, op) {
      ClosedGoesRound(log, op, op.path, 0, |log + [op]|);
      assert !Resolves(log + [op], op.path);
    } else {
      forall p ensures Resolves(log + [op], p) {
        StillResolves(log, op, p);
      }
    }
  }

  /** Every search has ended, at every point of the log, exactly if no link ever
      closed a chain. */
  lemma {:induction false} AllResolveIff(log: seq<Op>)
    ensures (forall i :: 0 <= i <= |log| ==> AllResolve(log[..i]))
            <==> (forall i :: 0 <= i < |log| ==> !Closes(log[..i], log[i]))
  {
    assert log[..|log|] == log;
    if log == [] {
      assert AllResolve([]);
    } else {
      var before, op := log[..|log| - 1], log[|log| - 1];
      AllResolveIff(before);
      assert forall i :: 0 <= i <= |before| ==> before[..i] == log[..i];
      assert before[..|before|] == before && before + [op] == log;
      if AllResolve(before) {
        ResolveStepIff(before, op);
      }
    }
  }

  /** It need not end. A link, its target removed, and a link back in its place
      are all admitted; from then on the search for the content goes round. */
  lemma LinkCycle(a: string, b: string, n: nat)
    requires a != b
    ensures var d := Disk(map[[b] := []], {[]}, map[]);
            var log := [CreateHardLink([a], [b]), RemoveFile([b]), CreateHardLink([b], [a])];
            && Admitted(d, [], log[0]) && Admitted(d, log[..1], log[1]) && Admitted(d, log[..2], log[2])
            && Closes(log[..2], log[2])
            && ContentPath(log, [a], n).None? && ContentPath(log, [b], n).None?
  {
    var d := Disk(map[[b] := []], {[]}, map[]);
    var log := [CreateHardLink([a], [b]), RemoveFile([b]), CreateHardLink([b], [a])];
    var one, two := log[..1], log[..2];
    assert one == [log[0]] && two == [log[0], log[1]];
    assert one[..0] == [] && two[..1] == one;
    assert [a][..0] == [] && [b][..0] == [];
    assert [a][0] != [b][0];
    assert LinkTarget(one, [a]) == Some([b]) && LinkTarget(one, [b]) == None;
    assert LinkTarget(two, [a]) == Some([b]) && LinkTarget(two, [b]) == None;
    assert Look(one[0], [a]) == Decided(Some(File)) && Look(one[0], [b]) == Follow([b]);
    assert EntryKind(d, one, [b]) == EntryKind(d, [], [b]) == Some(File);
    assert EntryKind(d, one, [a]) == Some(File);
    assert EntryKind(d, two, [a]) == Some(File) && EntryKind(d, two, [b]) == None;
    assert EntryKind(d, two, []) == EntryKind(d, one, []) == Some(Directory);
    RoundAndRound(log, [a], [b], n);
  }
}
