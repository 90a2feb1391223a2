/**
 The two passes of Compare (internal/replaycompare/compare.go) and its report totals,
 proved against CompareSpec.
 */
module CompareFiles {
  import Loops
  import opened Wrappers
  import opened Outcomes
  import opened MapTotals
  import opened CompareSpec
  import opened Comparer

  const DEFAULT_TOP_N: int := 20
  const MAX_TOP_N: int := 1000

  function TopNOf(requested: int): (n: nat)
    ensures 1 <= n <= MAX_TOP_N
    ensures 1 <= requested <= MAX_TOP_N ==> n == requested
    ensures requested <= 0 ==> n == 20
    ensures requested > 1000 ==> n == 1000
  {
    var n := if requested <= 0 then DEFAULT_TOP_N else requested;
    if n > MAX_TOP_N then MAX_TOP_N else n
  }

  // ------------------------------------------------- what has been counted so far

  /** Operations of B, and those of A in done, are settled; the others of A are only counted. */
  ghost function StageEntry(k: Key, fa: map<Key, Line>, fb: map<Key, Line>, done: set<Key>, preferB: bool): Entry
    requires ValidFirst(fa) && ValidFirst(fb) && (k in fa || k in fb)
  {
    if k in fb || k in done then EntryOf(k, fa, fb, preferB) else Entry(fa[k].shape, COUNT_A)
  }

  ghost function Stage(fa: map<Key, Line>, fb: map<Key, Line>, done: set<Key>, preferB: bool): Entries
    requires ValidFirst(fa) && ValidFirst(fb)
  {
    map k | k in fa.Keys + fb.Keys :: StageEntry(k, fa, fb, done, preferB)
  }

  ghost function StageDiffs(fa: map<Key, Line>, fb: map<Key, Line>, done: set<Key>, preferB: bool): map<Key, OpDiff>
    requires ValidFirst(fa) && ValidFirst(fb)
  {
    map k | k in DiffKeys(fa, fb) && (k in fb || k in done) :: DiffFor(k, fa, fb, preferB)
  }

  /** gb is fb with one more line. */
  ghost predicate OneMore(fb: map<Key, Line>, gb: map<Key, Line>, k: Key)
  {
    && k !in fb && (forall j :: j in gb <==> j in fb || j == k)
    && forall j :: j in fb ==> gb[j] == fb[j]
  }

  lemma StageAt(fa: map<Key, Line>, fb: map<Key, Line>, gb: map<Key, Line>, k: Key, preferB: bool, j: Key)
    requires ValidFirst(fa) && ValidFirst(gb) && ValidFirst(fb) && OneMore(fb, gb, k) && (j == k || j in fa || j in fb)
    ensures StageEntry(j, fa, gb, {}, preferB) ==
            if j == k then EntryOf(k, fa, gb, preferB) else StageEntry(j, fa, fb, {}, preferB)
  {
  }

  lemma StageExtended(fa: map<Key, Line>, fb: map<Key, Line>, gb: map<Key, Line>, k: Key, preferB: bool, j: Key)
    requires ValidFirst(fa) && ValidFirst(gb) && ValidFirst(fb) && OneMore(fb, gb, k)
    ensures Loops.ExtendedAt(Stage(fa, gb, {}, preferB), Stage(fa, fb, {}, preferB), k, EntryOf(k, fa, gb, preferB), j)
  {
    if j == k || j in fa || j in fb {
      StageAt(fa, fb, gb, k, preferB, j);
    }
  }

  /** Reading one more first line of B settles exactly that operation. */
  lemma StageReadB(fa: map<Key, Line>, fb: map<Key, Line>, gb: map<Key, Line>, k: Key, preferB: bool)
    requires ValidFirst(fa) && ValidFirst(gb) && ValidFirst(fb) && OneMore(fb, gb, k)
    ensures Stage(fa, gb, {}, preferB) == Stage(fa, fb, {}, preferB)[k := EntryOf(k, fa, gb, preferB)]
  {
    var left, before, e := Stage(fa, gb, {}, preferB), Stage(fa, fb, {}, preferB), EntryOf(k, fa, gb, preferB);
    forall j
      ensures Loops.ExtendedAt(left, before, k, e, j)
    {
      StageExtended(fa, fb, gb, k, preferB, j);
    }
    Loops.Extended(left, before, k, e);
  }

  /** Another operation's line changes nothing about operation j. */
  lemma OtherKey(fa: map<Key, Line>, fb: map<Key, Line>, gb: map<Key, Line>, k: Key, preferB: bool, j: Key)
    requires ValidFirst(fa) && ValidFirst(gb) && ValidFirst(fb) && OneMore(fb, gb, k) && j != k
    ensures j in DiffKeys(fa, fb) <==> j in DiffKeys(fa, gb)
    ensures j in fa || j in fb ==> DiffFor(j, fa, fb, preferB) == DiffFor(j, fa, gb, preferB)
  {
  }

  lemma DiffExtended(fa: map<Key, Line>, fb: map<Key, Line>, gb: map<Key, Line>, k: Key, preferB: bool, j: Key)
    requires ValidFirst(fa) && ValidFirst(gb) && ValidFirst(fb) && OneMore(fb, gb, k) && Differs(k, fa, gb)
    ensures Loops.ExtendedAt(StageDiffs(fa, gb, {}, preferB), StageDiffs(fa, fb, {}, preferB), k,
                             DiffFor(k, fa, gb, preferB), j)
  {
    if j != k {
      OtherKey(fa, fb, gb, k, preferB, j);
    }
  }

  lemma NoDiff(fa: map<Key, Line>, fb: map<Key, Line>, gb: map<Key, Line>, k: Key, preferB: bool)
    requires ValidFirst(fa) && ValidFirst(gb) && ValidFirst(fb) && OneMore(fb, gb, k) && !Differs(k, fa, gb)
    ensures StageDiffs(fa, gb, {}, preferB) == StageDiffs(fa, fb, {}, preferB)
  {
    var before, after := StageDiffs(fa, fb, {}, preferB), StageDiffs(fa, gb, {}, preferB);
    forall j
      ensures (j in after <==> j in before) && (j in before ==> after[j] == before[j])
    {
      if j != k {
        OtherKey(fa, fb, gb, k, preferB, j);
      }
    }
  }

  lemma OneDiff(fa: map<Key, Line>, fb: map<Key, Line>, gb: map<Key, Line>, k: Key, preferB: bool)
    requires ValidFirst(fa) && ValidFirst(gb) && ValidFirst(fb) && OneMore(fb, gb, k) && Differs(k, fa, gb)
    ensures StageDiffs(fa, gb, {}, preferB) == StageDiffs(fa, fb, {}, preferB)[k := DiffFor(k, fa, gb, preferB)]
  {
    var before, after, d := StageDiffs(fa, fb, {}, preferB), StageDiffs(fa, gb, {}, preferB),
      DiffFor(k, fa, gb, preferB);
    forall j
      ensures Loops.ExtendedAt(after, before, k, d, j)
    {
      DiffExtended(fa, fb, gb, k, preferB, j);
    }
    Loops.Extended(after, before, k, d);
  }

  lemma DiffsReadB(fa: map<Key, Line>, fb: map<Key, Line>, gb: map<Key, Line>, k: Key, preferB: bool)
    requires ValidFirst(fa) && ValidFirst(gb) && ValidFirst(fb) && OneMore(fb, gb, k)
    ensures var before := StageDiffs(fa, fb, {}, preferB);
            && k !in before
            && StageDiffs(fa, gb, {}, preferB) ==
               if Differs(k, fa, gb) then before[k := DiffFor(k, fa, gb, preferB)] else before
  {
    if Differs(k, fa, gb) {
      OneDiff(fa, fb, gb, k, preferB);
    } else {
      NoDiff(fa, fb, gb, k, preferB);
    }
  }

  /** Settling one more operation that only A ran. */
  lemma StageSettleA(fa: map<Key, Line>, fb: map<Key, Line>, done: set<Key>, k: Key, preferB: bool)
    requires ValidFirst(fa) && ValidFirst(fb) && k in fa && k !in fb && k !in done
    ensures Stage(fa, fb, done + {k}, preferB) == Stage(fa, fb, done, preferB)[k := Entry(fa[k].shape, ONLY_A)]
    ensures k in Stage(fa, fb, done, preferB) && Stage(fa, fb, done, preferB)[k] == Entry(fa[k].shape, COUNT_A)
  {
    var left, right := Stage(fa, fb, done + {k}, preferB),
      Stage(fa, fb, done, preferB)[k := Entry(fa[k].shape, ONLY_A)];
    assert left.Keys == right.Keys;
    forall j | j in left
      ensures left[j] == right[j]
    {
    }
  }

  lemma DiffSettled(fa: map<Key, Line>, fb: map<Key, Line>, done: set<Key>, k: Key, preferB: bool, j: Key)
    requires ValidFirst(fa) && ValidFirst(fb) && k in fa && k !in fb && k !in done
    ensures k !in StageDiffs(fa, fb, done, preferB)
    ensures Loops.ExtendedAt(StageDiffs(fa, fb, done + {k}, preferB), StageDiffs(fa, fb, done, preferB), k,
                             OnlyADiff(fa[k]), j)
  {
    assert j in done + {k} <==> j in done || j == k;
  }

  lemma DiffsSettleA(fa: map<Key, Line>, fb: map<Key, Line>, done: set<Key>, k: Key, preferB: bool)
    requires ValidFirst(fa) && ValidFirst(fb) && k in fa && k !in fb && k !in done
    ensures k !in StageDiffs(fa, fb, done, preferB)
    ensures StageDiffs(fa, fb, done + {k}, preferB) == StageDiffs(fa, fb, done, preferB)[k := OnlyADiff(fa[k])]
  {
    var before, left, d := StageDiffs(fa, fb, done, preferB), StageDiffs(fa, fb, done + {k}, preferB), OnlyADiff(fa[k]);
    DiffSettled(fa, fb, done, k, preferB, k);
    forall j
      ensures Loops.ExtendedAt(left, before, k, d, j)
    {
      DiffSettled(fa, fb, done, k, preferB, j);
    }
    Loops.Extended(left, before, k, d);
  }

  lemma StageDone(fa: map<Key, Line>, fb: map<Key, Line>, preferB: bool)
    requires ValidFirst(fa) && ValidFirst(fb)
    ensures Stage(fa, fb, fa.Keys - fb.Keys, preferB) == SpecEntries(fa, fb, preferB)
    ensures StageDiffs(fa, fb, fa.Keys - fb.Keys, preferB) == SpecDiffs(fa, fb, preferB)
  {
    EntriesDone(fa, fb, preferB);
    DiffsDone(fa, fb, preferB);
  }

  lemma EntriesDone(fa: map<Key, Line>, fb: map<Key, Line>, preferB: bool)
    requires ValidFirst(fa) && ValidFirst(fb)
    ensures Stage(fa, fb, fa.Keys - fb.Keys, preferB) == SpecEntries(fa, fb, preferB)
  {
  }

  lemma DiffsDone(fa: map<Key, Line>, fb: map<Key, Line>, preferB: bool)
    requires ValidFirst(fa) && ValidFirst(fb)
    ensures StageDiffs(fa, fb, fa.Keys - fb.Keys, preferB) == SpecDiffs(fa, fb, preferB)
  {
  }

  lemma FirstOfStep(lines: seq<Line>, n: nat, bySeq: bool)
    requires n < |lines|
    ensures var before, l := FirstOf(lines[..n], bySeq), lines[n];
            FirstOf(lines[..n + 1], bySeq) ==
            if l.outcome.None? || KeyOf(l, bySeq) in before then before else before[KeyOf(l, bySeq) := l]
    ensures Repeated(lines[..n + 1], bySeq) ==
            Repeated(lines[..n], bySeq) + if lines[n].outcome.Some?
              && KeyOf(lines[n], bySeq) in FirstOf(lines[..n], bySeq) then 1 else 0
    ensures WithoutOutcome(lines[..n + 1]) == WithoutOutcome(lines[..n]) + if lines[n].outcome.None? then 1 else 0
  {
    assert lines[..n + 1][..n] == lines[..n];
    LastRepeats(lines[..n + 1], bySeq);
  }

  /** aOps holds the operations ks of A, each with the index of its shape. */
  ghost predicate Holds(aOps: map<Key, Kept>, fa: map<Key, Line>, ks: set<Key>, shapes: seq<ShapeAcc>)
  {
    && aOps.Keys == ks && ks <= fa.Keys
    && forall k :: k in aOps ==>
      aOps[k].line == fa[k] && aOps[k].shape < |shapes| && shapes[aOps[k].shape].cls == fa[k].shape
  }

  // --------------------------------------------------------------- the passes

  datatype LineUse = NoOutcome | Duplicate | First

  /** The comparer's state while A is read: its first lines so far are fa. */
  ghost predicate Loaded(c: Comparer, aOps: map<Key, Kept>, fa: map<Key, Line>)
    reads c
  {
    ValidFirst(fa) && c.Counted(Stage(fa, map[], {}, false)) && Holds(aOps, fa, fa.Keys, c.shapes)
  }

  lemma StageReadA(fa: map<Key, Line>, k: Key, l: Line)
    requires ValidFirst(fa) && ValidFirst(fa[k := l]) && k !in fa
    ensures Stage(fa[k := l], map[], {}, false) == Stage(fa, map[], {}, false)[k := Entry(l.shape, COUNT_A)]
  {
    var left, right := Stage(fa[k := l], map[], {}, false), Stage(fa, map[], {}, false)[k := Entry(l.shape, COUNT_A)];
    assert left.Keys == right.Keys;
    forall j | j in left
      ensures left[j] == right[j]
    {
    }
  }

  /** The first line of an operation of A is kept and counted. */
  method LoadA(c: Comparer, k: Key, l: Line, aOps: map<Key, Kept>, ghost fa: map<Key, Line>)
    returns (aOps': map<Key, Kept>)
    requires Loaded(c, aOps, fa) && ValidFirst(fa[k := l]) && k !in fa
    modifies c`shapes, c`shapeIdx
    ensures Loaded(c, aOps', fa[k := l])
  {
    StageReadA(fa, k, l);
    var held := c.ReadA(k, l, Stage(fa, map[], {}, false));
    aOps' := aOps[k := held];
  }

  /** One line of A. */
  method ReadLineA(c: Comparer, l: Line, bySeq: bool, aOps: map<Key, Kept>, ghost fa: map<Key, Line>)
    returns (aOps': map<Key, Kept>, use: LineUse)
    requires l.outcome.Some? ==> ValidOutcome(l.outcome.value)
    requires Loaded(c, aOps, fa)
    modifies c`shapes, c`shapeIdx
    ensures use == if l.outcome.None? then NoOutcome else if KeyOf(l, bySeq) in fa then Duplicate else First
    ensures Loaded(c, aOps', if use.First? then fa[KeyOf(l, bySeq) := l] else fa)
  {
    var k := KeyOf(l, bySeq);
    if l.outcome.None? {
      return aOps, NoOutcome;
    }
    if k in aOps {
      return aOps, Duplicate;
    }
    aOps' := LoadA(c, k, l, aOps, fa);
    use := First;
  }

  /** The next line of A, with the counts of lines that were not used. */
  method NextLineA(c: Comparer, lines: seq<Line>, n: nat, bySeq: bool, aOps: map<Key, Kept>, dup: nat, none: nat,
        ghost fa: map<Key, Line>)
    returns (aOps': map<Key, Kept>, dup': nat, none': nat, ghost fa': map<Key, Line>)
    requires n < |lines| && ValidLines(lines)
    requires fa == FirstOf(lines[..n], bySeq)
    requires dup == Repeated(lines[..n], bySeq) && none == WithoutOutcome(lines[..n])
    requires Loaded(c, aOps, fa)
    modifies c`shapes, c`shapeIdx
    ensures fa' == FirstOf(lines[..n + 1], bySeq)
    ensures dup' == Repeated(lines[..n + 1], bySeq) && none' == WithoutOutcome(lines[..n + 1])
    ensures Loaded(c, aOps', fa')
  {
    FirstOfStep(lines, n, bySeq);
    var use;
    aOps', use := ReadLineA(c, lines[n], bySeq, aOps, fa);
    dup', none' := dup, none;
    fa' := if use.First? then fa[KeyOf(lines[n], bySeq) := lines[n]] else fa;
    match use
    case NoOutcome => none' := none + 1;
    case Duplicate => dup' := dup + 1;
    case First =>
  }

  /** The first pass: A's first lines are kept and counted. */
  method ReadFileA(c: Comparer, lines: seq<Line>, bySeq: bool) returns (aOps: map<Key, Kept>, dup: nat, none: nat)
    requires ValidLines(lines) && c.Counted(map[])
    modifies c`shapes, c`shapeIdx
    ensures Loaded(c, aOps, FirstOf(lines, bySeq))
    ensures dup == Repeated(lines, bySeq) && none == WithoutOutcome(lines)
  {
    aOps, dup, none := map[], 0, 0;
    ghost var fa: map<Key, Line> := map[];
    assert lines[..0] == [];
    assert Stage(fa, map[], {}, false) == map[];
    for n := 0 to |lines|
      invariant fa == FirstOf(lines[..n], bySeq)
      invariant dup == Repeated(lines[..n], bySeq) && none == WithoutOutcome(lines[..n])
      invariant Loaded(c, aOps, fa)
    {
      aOps, dup, none, fa := NextLineA(c, lines, n, bySeq, aOps, dup, none, fa);
    }
    assert lines[..|lines|] == lines;
  }

  lemma StageStart(fa: map<Key, Line>, preferB: bool)
    requires ValidFirst(fa)
    ensures Stage(fa, map[], {}, preferB) == Stage(fa, map[], {}, false)
    ensures StageDiffs(fa, map[], {}, preferB) == map[]
  {
  }

  /** A line of B for an operation A ran too. */
  lemma MatchSettles(fa: map<Key, Line>, fb: map<Key, Line>, k: Key, l: Line, preferB: bool)
    requires ValidFirst(fa) && ValidFirst(fb) && ValidFirst(fb[k := l]) && k in fa && k !in fb
    ensures k in Stage(fa, fb, {}, preferB) && Stage(fa, fb, {}, preferB)[k] == Entry(fa[k].shape, COUNT_A)
    ensures k !in StageDiffs(fa, fb, {}, preferB)
    ensures l.outcome.Some? && ValidOutcome(l.outcome.value)
    ensures Stage(fa, fb[k := l], {}, preferB) == Stage(fa, fb, {}, preferB)[k := MatchedEntry(fa[k], l, preferB)]
    ensures StageDiffs(fa, fb[k := l], {}, preferB)
         == PairDiffs(StageDiffs(fa, fb, {}, preferB), k, fa[k], l, SharedShape(fa[k], l, preferB))
  {
    assert fb[k := l][k] == l;
    StageReadB(fa, fb, fb[k := l], k, preferB);
    DiffsReadB(fa, fb, fb[k := l], k, preferB);
  }

  /** A line of B for an operation A never ran. */
  lemma OnlyBSettles(fa: map<Key, Line>, fb: map<Key, Line>, k: Key, l: Line, preferB: bool)
    requires ValidFirst(fa) && ValidFirst(fb) && ValidFirst(fb[k := l]) && k !in fa && k !in fb
    ensures k !in Stage(fa, fb, {}, preferB) && k !in StageDiffs(fa, fb, {}, preferB)
    ensures l.outcome.Some? && ValidOutcome(l.outcome.value)
    ensures Stage(fa, fb[k := l], {}, preferB) == Stage(fa, fb, {}, preferB)[k := Entry(l.shape, ONLY_B)]
    ensures StageDiffs(fa, fb[k := l], {}, preferB) == StageDiffs(fa, fb, {}, preferB)[k := OnlyBDiff(l)]
  {
    assert fb[k := l][k] == l;
    StageReadB(fa, fb, fb[k := l], k, preferB);
    DiffsReadB(fa, fb, fb[k := l], k, preferB);
  }

  /** Once B's line for k was read, k is held no longer. */
  lemma ReleaseHeld(aOps: map<Key, Kept>, fa: map<Key, Line>, fb: map<Key, Line>, shapes: seq<ShapeAcc>,
        after: seq<ShapeAcc>, k: Key, l: Line)
    requires Holds(aOps, fa, fa.Keys - fb.Keys, shapes) && SamePlaces(shapes, after)
    ensures Holds(aOps - {k}, fa, fa.Keys - fb[k := l].Keys, after)
  {
    assert fa.Keys - fb[k := l].Keys == fa.Keys - fb.Keys - {k};
  }

  /**
   The comparer's state after A was read, B's first lines so far are fb and the operations
   in done were found missing in B: aOps are the operations of A not matched yet.
   */
  ghost predicate Settled(c: Comparer, aOps: map<Key, Kept>, fa: map<Key, Line>, fb: map<Key, Line>, done: set<Key>,
        preferB: bool, kept: set<Key>)
    reads c
  {
    && ValidFirst(fa) && ValidFirst(fb) && Holds(aOps, fa, fa.Keys - fb.Keys, c.shapes)
    && c.Counted(Stage(fa, fb, done, preferB)) && c.Buffered(StageDiffs(fa, fb, done, preferB), kept)
  }

  method SettleMatched(c: Comparer, k: Key, l: Line, preferB: bool, aOps: map<Key, Kept>,
                 ghost fa: map<Key, Line>, ghost fb: map<Key, Line>, ghost kept: set<Key>)
    returns (ghost kept': set<Key>)
    requires Settled(c, aOps, fa, fb, {}, preferB, kept) && ValidFirst(fb[k := l]) && k in aOps && k !in fb
    modifies c
    ensures SamePlaces(old(c.shapes), c.shapes)
    ensures c.Counted(Stage(fa, fb[k := l], {}, preferB)) && c.Buffered(StageDiffs(fa, fb[k := l], {}, preferB), kept')
  {
    MatchSettles(fa, fb, k, l, preferB);
    kept' := c.Match(k, aOps[k], l, preferB, Stage(fa, fb, {}, preferB), StageDiffs(fa, fb, {}, preferB), kept);
  }

  method SettleOnlyB(c: Comparer, k: Key, l: Line, preferB: bool, aOps: map<Key, Kept>,
                 ghost fa: map<Key, Line>, ghost fb: map<Key, Line>, ghost kept: set<Key>)
    returns (ghost kept': set<Key>)
    requires Settled(c, aOps, fa, fb, {}, preferB, kept) && ValidFirst(fb[k := l]) && k !in aOps && k !in fb
    modifies c
    ensures SamePlaces(old(c.shapes), c.shapes)
    ensures c.Counted(Stage(fa, fb[k := l], {}, preferB)) && c.Buffered(StageDiffs(fa, fb[k := l], {}, preferB), kept')
  {
    OnlyBSettles(fa, fb, k, l, preferB);
    kept' := c.OnlyInB(k, l, Stage(fa, fb, {}, preferB), StageDiffs(fa, fb, {}, preferB), kept);
  }

  /** A first line of B is matched with the operation of A it belongs to, or counted as missing there. */
  method SettleB(c: Comparer, k: Key, l: Line, preferB: bool, aOps: map<Key, Kept>,
                 ghost fa: map<Key, Line>, ghost fb: map<Key, Line>, ghost kept: set<Key>)
    returns (aOps': map<Key, Kept>, ghost kept': set<Key>)
    requires Settled(c, aOps, fa, fb, {}, preferB, kept) && ValidFirst(fb[k := l]) && k !in fb
    modifies c
    ensures Settled(c, aOps', fa, fb[k := l], {}, preferB, kept')
  {
    ghost var before := c.shapes;
    if k in aOps {
      kept' := SettleMatched(c, k, l, preferB, aOps, fa, fb, kept);
    } else {
      kept' := SettleOnlyB(c, k, l, preferB, aOps, fa, fb, kept);
    }
    ReleaseHeld(aOps, fa, fb, before, c.shapes, k, l);
    aOps' := aOps - {k};
  }

  /** One line of B. */
  method ReadLineB(c: Comparer, l: Line, bySeq: bool, preferB: bool, aOps: map<Key, Kept>, seenB: set<Key>,
                   ghost fa: map<Key, Line>, ghost fb: map<Key, Line>, ghost kept: set<Key>)
    returns (aOps': map<Key, Kept>, seenB': set<Key>, use: LineUse, ghost fb': map<Key, Line>, ghost kept': set<Key>)
    requires l.outcome.Some? ==> ValidOutcome(l.outcome.value)
    requires seenB == fb.Keys && Settled(c, aOps, fa, fb, {}, preferB, kept)
    modifies c
    ensures use == if l.outcome.None? then NoOutcome else if KeyOf(l, bySeq) in fb then Duplicate else First
    ensures fb' == if l.outcome.None? || KeyOf(l, bySeq) in fb then fb else fb[KeyOf(l, bySeq) := l]
    ensures seenB' == fb'.Keys && Settled(c, aOps', fa, fb', {}, preferB, kept')
  {
    var k := KeyOf(l, bySeq);
    aOps', seenB', fb', kept' := aOps, seenB, fb, kept;
    use := if l.outcome.None? then NoOutcome else if k in seenB then Duplicate else First;
    if use.First? {
      fb', seenB' := fb[k := l], seenB + {k};
      aOps', kept' := SettleB(c, k, l, preferB, aOps, fa, fb, kept);
    }
  }

  /** The next line of B, with the counts of lines that were not used. */
  method NextLineB(c: Comparer, lines: seq<Line>, n: nat, bySeq: bool, preferB: bool, aOps: map<Key, Kept>,
        seenB: set<Key>,
                   dup: nat, none: nat, ghost fa: map<Key, Line>, ghost fb: map<Key, Line>, ghost kept: set<Key>)
    returns (aOps': map<Key, Kept>, seenB': set<Key>, dup': nat, none': nat, ghost fb': map<Key, Line>,
      ghost kept': set<Key>)
    requires n < |lines| && ValidLines(lines)
    requires fb == FirstOf(lines[..n], bySeq) && seenB == fb.Keys
    requires dup == Repeated(lines[..n], bySeq) && none == WithoutOutcome(lines[..n])
    requires Settled(c, aOps, fa, fb, {}, preferB, kept)
    modifies c
    ensures fb' == FirstOf(lines[..n + 1], bySeq) && seenB' == fb'.Keys
    ensures dup' == Repeated(lines[..n + 1], bySeq) && none' == WithoutOutcome(lines[..n + 1])
    ensures Settled(c, aOps', fa, fb', {}, preferB, kept')
  {
    FirstOfStep(lines, n, bySeq);
    var use;
    aOps', seenB', use, fb', kept' := ReadLineB(c, lines[n], bySeq, preferB, aOps, seenB, fa, fb, kept);
    dup', none' := dup, none;
    match use
    case NoOutcome => none' := none + 1;
    case Duplicate => dup' := dup + 1;
    case First =>
  }

  /** The second pass: B's first lines are matched against the operations kept from A. */
  method ReadFileB(c: Comparer, lines: seq<Line>, bySeq: bool, preferB: bool, held: map<Key, Kept>,
        ghost fa: map<Key, Line>)
    returns (aOps: map<Key, Kept>, dup: nat, none: nat, ghost kept: set<Key>)
    requires ValidLines(lines) && Settled(c, held, fa, map[], {}, preferB, {})
    modifies c
    ensures Settled(c, aOps, fa, FirstOf(lines, bySeq), {}, preferB, kept)
    ensures dup == Repeated(lines, bySeq) && none == WithoutOutcome(lines)
  {
    aOps, dup, none, kept := held, 0, 0, {};
    var seenB: set<Key> := {};
    ghost var fb: map<Key, Line> := map[];
    assert lines[..0] == [];
    for n := 0 to |lines|
      invariant fb == FirstOf(lines[..n], bySeq) && seenB == fb.Keys
      invariant dup == Repeated(lines[..n], bySeq) && none == WithoutOutcome(lines[..n])
      invariant Settled(c, aOps, fa, fb, {}, preferB, kept)
    {
      aOps, seenB, dup, none, fb, kept := NextLineB(c, lines, n, bySeq, preferB, aOps, seenB, dup, none, fa, fb, kept);
    }
    assert lines[..|lines|] == lines;
  }

  /** An operation of A that B never ran. */
  method SettleA(c: Comparer, k: Key, aOps: map<Key, Kept>, preferB: bool,
                 ghost fa: map<Key, Line>, ghost fb: map<Key, Line>, ghost done: set<Key>, ghost kept: set<Key>)
    returns (ghost kept': set<Key>)
    requires Settled(c, aOps, fa, fb, done, preferB, kept) && k in aOps && k !in done
    modifies c
    ensures Settled(c, aOps, fa, fb, done + {k}, preferB, kept')
  {
    ghost var before := c.shapes;
    StageSettleA(fa, fb, done, k, preferB);
    DiffsSettleA(fa, fb, done, k, preferB);
    kept' := c.OnlyInA(k, aOps[k], Stage(fa, fb, done, preferB), StageDiffs(fa, fb, done, preferB), kept);
    StillHeld(aOps, fa, fa.Keys - fb.Keys, before, c.shapes);
  }

  /** The operations B never ran, in whatever order the map gives them. */
  method SettleAll(c: Comparer, aOps: map<Key, Kept>, preferB: bool, ghost fa: map<Key, Line>,
        ghost fb: map<Key, Line>, ghost kept: set<Key>)
    returns (ghost kept': set<Key>)
    requires Settled(c, aOps, fa, fb, {}, preferB, kept)
    modifies c
    ensures Settled(c, aOps, fa, fb, fa.Keys - fb.Keys, preferB, kept')
  {
    var left := aOps.Keys;
    ghost var done: set<Key> := {};
    kept' := kept;
    assert left == fa.Keys - fb.Keys;
    while left != {}
      invariant Settling(c, aOps, fa, fb, left, done, preferB, kept')
      decreases |left|
    {
      left, done, kept' := SettleNext(c, aOps, preferB, left, fa, fb, done, kept');
    }
    assert done == fa.Keys - fb.Keys;
  }

  /** The operations in done are settled and those in left are not. */
  ghost predicate Settling(c: Comparer, aOps: map<Key, Kept>, fa: map<Key, Line>, fb: map<Key, Line>, left: set<Key>,
        done: set<Key>, preferB: bool, kept: set<Key>)
    reads c
  {
    && left !! done && left <= aOps.Keys && left + done == fa.Keys - fb.Keys
    && Settled(c, aOps, fa, fb, done, preferB, kept)
  }

  method SettleNext(c: Comparer, aOps: map<Key, Kept>, preferB: bool, left: set<Key>, ghost fa: map<Key, Line>,
        ghost fb: map<Key, Line>, ghost done: set<Key>, ghost kept: set<Key>)
    returns (left': set<Key>, ghost done': set<Key>, ghost kept': set<Key>)
    requires left != {} && Settling(c, aOps, fa, fb, left, done, preferB, kept)
    modifies c
    ensures |left'| < |left| && Settling(c, aOps, fa, fb, left', done', preferB, kept')
  {
    var k :| k in left;
    kept' := SettleA(c, k, aOps, preferB, fa, fb, done, kept);
    Loops.Move(left, done, k);
    left', done' := left - {k}, done + {k};
  }

  method Leftovers(c: Comparer, aOps: map<Key, Kept>, preferB: bool, ghost fa: map<Key, Line>,
        ghost fb: map<Key, Line>, ghost kept: set<Key>)
    requires Settled(c, aOps, fa, fb, {}, preferB, kept)
    modifies c
    ensures ValidFirst(fa) && ValidFirst(fb) && c.Counted(SpecEntries(fa, fb, preferB))
    ensures IsTop(c.diffs, SpecDiffs(fa, fb, preferB), c.topN)
  {
    ghost var best := SettleAll(c, aOps, preferB, fa, fb, kept);
    StageDone(fa, fb, preferB);
    best := c.TrimDiffs(SpecDiffs(fa, fb, preferB), best);
  }

  lemma StillHeld(aOps: map<Key, Kept>, fa: map<Key, Line>, ks: set<Key>, shapes: seq<ShapeAcc>, after: seq<ShapeAcc>)
    requires Holds(aOps, fa, ks, shapes) && SamePlaces(shapes, after)
    ensures Holds(aOps, fa, ks, after)
  {
  }

  // --------------------------------------------------------------- the report

  /** overall lacks exactly the totals of the shapes in rest. */
  ghost predicate Merged(overall: Counts, m: Entries, rest: seq<ShapeRef>)
  {
    Add(overall, SumClasses(m, ShapeOf, rest, CountsOf, SUM)) == Overall(m)
  }

  lemma MergeStart(shapes: seq<ShapeAcc>, idx: map<ShapeRef, nat>, m: Entries, refs: seq<ShapeRef>)
    requires IndexedIn(shapes, idx) && Covered(m, idx)
    requires |refs| == |shapes| && forall i :: 0 <= i < |shapes| ==> refs[i] == shapes[i].cls
    ensures Merged(ZERO, m, refs[0..])
  {
    RefsCover(shapes, idx, m, refs);
    ShapesSumToTotal(m, refs);
    assert refs[0..] == refs;
    AddZeroLeft(Overall(m));
  }

  lemma MergeStep(overall: Counts, shapes: seq<ShapeAcc>, m: Entries, refs: seq<ShapeRef>, n: nat)
    requires n < |shapes| == |refs| && refs[n] == shapes[n].cls && CountedIn(shapes, m)
    ensures Merged(overall, m, refs[n..]) <==> Merged(Add(overall, shapes[n].t), m, refs[n + 1..])
  {
    var rest := SumClasses(m, ShapeOf, refs[n + 1..], CountsOf, SUM);
    assert HoldsTotal(shapes[n], m);
    ShapeTotalIsTotal(m, refs[n]);
    assert refs[n..][0] == refs[n] && refs[n..][1..] == refs[n + 1..];
    AddLaws(overall, shapes[n].t, rest);
  }

  lemma RefsCover(shapes: seq<ShapeAcc>, idx: map<ShapeRef, nat>, m: Entries, refs: seq<ShapeRef>)
    requires IndexedIn(shapes, idx) && Covered(m, idx)
    requires |refs| == |shapes| && forall i :: 0 <= i < |shapes| ==> refs[i] == shapes[i].cls
    ensures Distinct(refs) && forall k :: k in m ==> m[k].shape in refs
  {
    forall i, j | 0 <= i < j < |refs|
      ensures refs[i] != refs[j]
    {
      assert refs[i] == shapes[i].cls && refs[j] == shapes[j].cls;
    }
    forall k | k in m
      ensures m[k].shape in refs
    {
      assert Points(shapes, idx, m[k].shape);
      assert refs[idx[m[k].shape]] == m[k].shape;
    }
  }

  lemma MergeEnd(overall: Counts, m: Entries)
    ensures Merged(overall, m, []) ==> overall == Overall(m)
  {
    AddLaws(overall, ZERO, ZERO);
  }

  ghost function RefsOf(shapes: seq<ShapeAcc>): (refs: seq<ShapeRef>)
    ensures |refs| == |shapes| && forall i :: 0 <= i < |shapes| ==> refs[i] == shapes[i].cls
  {
    seq(|shapes|, i requires 0 <= i < |shapes| => shapes[i].cls)
  }

  /** The shapes from n on still have to be added. */
  ghost predicate MergedTo(overall: Counts, m: Entries, shapes: seq<ShapeAcc>, n: nat)
  {
    n <= |shapes| && Merged(overall, m, RefsOf(shapes)[n..])
  }

  lemma MergeNext(overall: Counts, m: Entries, shapes: seq<ShapeAcc>, n: nat)
    requires n < |shapes| && CountedIn(shapes, m) && MergedTo(overall, m, shapes, n)
    ensures MergedTo(Add(overall, shapes[n].t), m, shapes, n + 1)
  {
    MergeStep(overall, shapes, m, RefsOf(shapes), n);
  }

  lemma MergeDone(overall: Counts, m: Entries, shapes: seq<ShapeAcc>)
    requires MergedTo(overall, m, shapes, |shapes|)
    ensures overall == Overall(m)
  {
    assert RefsOf(shapes)[|shapes|..] == [];
    MergeEnd(overall, m);
  }

  /** The overall totals, merged from the accumulators in order. */
  method MergeTotals(shapes: seq<ShapeAcc>, ghost idx: map<ShapeRef, nat>, ghost m: Entries) returns (overall: Counts)
    requires IndexedIn(shapes, idx) && CountedIn(shapes, m) && Covered(m, idx)
    ensures overall == Overall(m)
  {
    overall := ZERO;
    MergeStart(shapes, idx, m, RefsOf(shapes));
    for n := 0 to |shapes|
      invariant MergedTo(overall, m, shapes, n)
    {
      MergeNext(overall, m, shapes, n);
      overall := Add(overall, shapes[n].t);
    }
    MergeDone(overall, m, shapes);
  }

  lemma AddZeroLeft(x: Counts)
    ensures Add(ZERO, x) == x
  {
    AddLaws(x, ZERO, ZERO);
    AddCommutes(x, ZERO);
  }

  /** What the report holds of a comparison. */
  datatype Report = Report(shapes: seq<ShapeAcc>, overall: Counts, differing: seq<KeyedDiff>, dupA: nat, dupB: nat,
        noOutcome: nat)

  /** The report says about two maps of first outcomes what CompareSpec defines. */
  ghost predicate Reports(rep: Report, fa: map<Key, Line>, fb: map<Key, Line>, preferB: bool, topN: nat)
    requires ValidFirst(fa) && ValidFirst(fb)
  {
    var m := SpecEntries(fa, fb, preferB);
    && CountedIn(rep.shapes, m) && DistinctAccs(rep.shapes)
    && (forall k :: k in m ==> exists i :: 0 <= i < |rep.shapes| && rep.shapes[i].cls == m[k].shape)
    && rep.overall == Overall(m)
    && IsTop(rep.differing, SpecDiffs(fa, fb, preferB), topN)
  }

  lemma ShapesListed(shapes: seq<ShapeAcc>, idx: map<ShapeRef, nat>, m: Entries, k: Key)
    requires IndexedIn(shapes, idx) && Covered(m, idx) && k in m
    ensures exists i :: 0 <= i < |shapes| && shapes[i].cls == m[k].shape
  {
    assert Points(shapes, idx, m[k].shape);
  }

  /** Compare: recA and recB say which side is a recording. */
  method CompareFiles(linesA: seq<Line>, linesB: seq<Line>, recA: bool, recB: bool, bySeq: bool, requestedTopN: int)
    returns (rep: Report)
    requires ValidLines(linesA) && ValidLines(linesB)
    ensures ValidFirst(FirstOf(linesA, bySeq)) && ValidFirst(FirstOf(linesB, bySeq))
    ensures Reports(rep, FirstOf(linesA, bySeq), FirstOf(linesB, bySeq), recA && !recB, TopNOf(requestedTopN))
    ensures rep.dupA == Repeated(linesA, bySeq) && rep.dupB == Repeated(linesB, bySeq)
    ensures rep.noOutcome == WithoutOutcome(linesA) + WithoutOutcome(linesB)
  {
    FirstOfIsValid(linesA, bySeq);
    FirstOfIsValid(linesB, bySeq);
    var preferB := recA && !recB;
    ghost var fa, fb := FirstOf(linesA, bySeq), FirstOf(linesB, bySeq);
    var c := new Comparer(TopNOf(requestedTopN));
    var aOps, dupA, noneA := ReadFileA(c, linesA, bySeq);
    StageStart(fa, preferB);
    assert Settled(c, aOps, fa, map[], {}, preferB, {});
    var left, dupB, noneB, kept := ReadFileB(c, linesB, bySeq, preferB, aOps, fa);
    Leftovers(c, left, preferB, fa, fb, kept);
    ghost var m := SpecEntries(fa, fb, preferB);
    var overall := MergeTotals(c.shapes, c.shapeIdx, m);
    IndexedDistinct(c.shapes, c.shapeIdx);
    forall k | k in m
      ensures exists i :: 0 <= i < |c.shapes| && c.shapes[i].cls == m[k].shape
    {
      ShapesListed(c.shapes, c.shapeIdx, m, k);
    }
    rep := Report(c.shapes, overall, c.diffs, dupA, dupB, noneA + noneB);
  }

  // ------------------------------------------------------ consequences for reports

  /**
   Reordering lines without changing which line of a key comes first changes neither the
   overall totals nor the listed differences, whatever order the maps are walked in.
   */
  lemma ReportIsDetermined(r: Report, s: Report, fa: map<Key, Line>, fb: map<Key, Line>, preferB: bool, topN: nat)
    requires ValidFirst(fa) && ValidFirst(fb) && Reports(r, fa, fb, preferB, topN) && Reports(s, fa, fb, preferB, topN)
    ensures r.overall == s.overall && r.differing == s.differing
  {
    TopIsUnique(r.differing, s.differing, SpecDiffs(fa, fb, preferB), topN);
  }

  /** Comparing the files the other way round lists the same operations in the same places. */
  lemma SwappedReport(r: Report, s: Report, fa: map<Key, Line>, fb: map<Key, Line>, recA: bool, recB: bool, topN: nat)
    requires ValidFirst(fa) && ValidFirst(fb)
    requires Reports(r, fa, fb, recA && !recB, topN) && Reports(s, fb, fa, recB && !recA, topN)
    ensures s.overall == SwapCounts(r.overall)
    ensures |s.differing| == |r.differing|
        && forall i :: 0 <= i < |r.differing| ==> s.differing[i].key == r.differing[i].key
    ensures forall i :: 0 <= i < |r.differing| ==>
              (s.differing[i].diff == SwapDiff(r.differing[i].diff) <==>
               var k := r.differing[i].key;
               k in fa && k in fb ==> SameIdentity(fa[k], fb[k]) && SameAttribution(fa[k], fb[k], recA, recB))
  {
    SwapTotals(fa, fb, recA && !recB, recB && !recA);
    SwappedList(r.differing, s.differing, fa, fb, recA, recB, topN);
  }

  lemma SwappedList(l: seq<KeyedDiff>, t: seq<KeyedDiff>, fa: map<Key, Line>, fb: map<Key, Line>, recA: bool,
        recB: bool, topN: nat)
    requires ValidFirst(fa) && ValidFirst(fb)
    requires IsTop(l, SpecDiffs(fa, fb, recA && !recB), topN) && IsTop(t, SpecDiffs(fb, fa, recB && !recA), topN)
    ensures |t| == |l| && forall i :: 0 <= i < |l| ==> t[i].key == l[i].key
    ensures forall i :: 0 <= i < |l| ==>
              (t[i].diff == SwapDiff(l[i].diff) <==>
               var k := l[i].key;
               k in fa && k in fb ==> SameIdentity(fa[k], fb[k]) && SameAttribution(fa[k], fb[k], recA, recB))
  {
    var p, q := SpecDiffs(fa, fb, recA && !recB), SpecDiffs(fb, fa, recB && !recA);
    assert p.Keys == q.Keys by {
      forall k
        ensures k in p <==> k in q
      {
        SwapDiffs(fa, fb, recA, recB, k);
      }
    }
    SameListedKeys(l, t, p, q, topN);
    forall i | 0 <= i < |l|
      ensures t[i].key == l[i].key
      ensures t[i].diff == SwapDiff(l[i].diff) <==>
               var k := l[i].key;
               k in fa && k in fb ==> SameIdentity(fa[k], fb[k]) && SameAttribution(fa[k], fb[k], recA, recB)
    {
      SwapDiffs(fa, fb, recA, recB, l[i].key);
    }
  }

  /** The keys of a top list depend on the keys of all differences alone. */
  lemma SameListedKeys(l: seq<KeyedDiff>, t: seq<KeyedDiff>, p: map<Key, OpDiff>, q: map<Key, OpDiff>, topN: nat)
    requires p.Keys == q.Keys && IsTop(l, p, topN) && IsTop(t, q, topN)
    ensures |t| == |l| && forall i :: 0 <= i < |l| ==> t[i].key == l[i].key
  {
    assert |p| == |q| by { assert |p| == |p.Keys| && |q| == |q.Keys|; }
    var w := seq(|t|, i requires 0 <= i < |t| => KeyedDiff(t[i].key, if t[i].key in p then p[t[i].key] else t[i].diff));
    assert KeysOf(w) == KeysOf(t) by {
      assert forall i :: 0 <= i < |t| ==> w[i].key == t[i].key;
    }
    assert IsTop(w, p, topN);
    TopIsUnique(l, w, p, topN);
  }
}
