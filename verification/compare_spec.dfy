/**
 What comparing two outcome files means, said over the two maps from operation key to
 first outcome (internal/replaycompare/compare.go). The streaming code is in comparer.dfy.
 */
module CompareSpec {
  import Text
  import opened Wrappers
  import opened Outcomes
  import opened MapTotals

  datatype Key = Key(num: nat, iteration: int, worker: int, workerSeq: nat)

  predicate Less(a: Key, b: Key)
  {
    if a.num != b.num then a.num < b.num
    else if a.iteration != b.iteration then a.iteration < b.iteration
    else if a.worker != b.worker then a.worker < b.worker
    else a.workerSeq < b.workerSeq
  }

  datatype ShapeRef = ShapeRef(ns: string, op: string, key: string)

  /** One operation line of either file. */
  datatype Line = Line(num: nat, iteration: int, worker: int, workerSeq: nat, shape: ShapeRef, outcome: Option<Outcome>)

  function KeyOf(l: Line, bySeq: bool): Key
  {
    if bySeq then Key(l.num, 0, 0, 0)
    else Key(0, Int32(if l.iteration < 1 then 1 else l.iteration), Int32(l.worker), l.workerSeq)
  }

  // --------------------------------------------------------- first outcomes

  /** The first line with an outcome for every key; later duplicates and lines without one are ignored. */
  function FirstOf(lines: seq<Line>, bySeq: bool): map<Key, Line>
  {
    if lines == [] then map[]
    else
      var before := FirstOf(lines[..|lines| - 1], bySeq);
      var l := lines[|lines| - 1];
      if l.outcome.None? || KeyOf(l, bySeq) in before then before else before[KeyOf(l, bySeq) := l]
  }

  ghost predicate ValidFirst(m: map<Key, Line>) {
    forall k :: k in m ==> m[k].outcome.Some? && ValidOutcome(m[k].outcome.value)
  }

  ghost predicate ValidLines(lines: seq<Line>) {
    forall i :: 0 <= i < |lines| && lines[i].outcome.Some? ==> ValidOutcome(lines[i].outcome.value)
  }

  lemma {:induction false} FirstOfIsValid(lines: seq<Line>, bySeq: bool)
    requires ValidLines(lines)
    ensures ValidFirst(FirstOf(lines, bySeq))
  {
    if lines != [] {
      FirstOfIsValid(lines[..|lines| - 1], bySeq);
    }
  }

  /** The lines without an outcome. */
  function WithoutOutcome(lines: seq<Line>): nat
  {
    if lines == [] then 0
    else WithoutOutcome(lines[..|lines| - 1]) + if lines[|lines| - 1].outcome.None? then 1 else 0
  }

  /** A line with an outcome whose key an earlier line with an outcome has. */
  ghost predicate Repeats(lines: seq<Line>, i: nat, bySeq: bool)
    requires i < |lines|
  {
    && lines[i].outcome.Some?
    && exists j :: 0 <= j < i && lines[j].outcome.Some? && KeyOf(lines[j], bySeq) == KeyOf(lines[i], bySeq)
  }

  /** The lines that repeat the key of an earlier one. */
  ghost function Repeated(lines: seq<Line>, bySeq: bool): nat
  {
    if lines == [] then 0
    else Repeated(lines[..|lines| - 1], bySeq) + if Repeats(lines, |lines| - 1, bySeq) then 1 else 0
  }

  /** The keys of the first lines are those of all lines with an outcome. */
  lemma {:induction false} FirstOfKeys(lines: seq<Line>, bySeq: bool, k: Key)
    ensures k in FirstOf(lines, bySeq) <==>
              exists j :: 0 <= j < |lines| && lines[j].outcome.Some? && KeyOf(lines[j], bySeq) == k
  {
    if lines != [] {
      var n := |lines| - 1;
      var before := lines[..n];
      FirstOfKeys(before, bySeq, k);
      FirstOfKeys(before, bySeq, KeyOf(lines[n], bySeq));
      if j :| 0 <= j < |lines| && lines[j].outcome.Some? && KeyOf(lines[j], bySeq) == k {
        assert j < n ==> before[j] == lines[j];
      }
      if j :| 0 <= j < n && before[j].outcome.Some? && KeyOf(before[j], bySeq) == k {
        assert lines[j] == before[j];
      }
    }
  }

  lemma LastRepeats(lines: seq<Line>, bySeq: bool)
    requires lines != []
    ensures var n := |lines| - 1;
            Repeats(lines, n, bySeq) <==> lines[n].outcome.Some? && KeyOf(lines[n], bySeq) in FirstOf(lines[..n], bySeq)
  {
    var n := |lines| - 1;
    var before := lines[..n];
    FirstOfKeys(before, bySeq, KeyOf(lines[n], bySeq));
    assert forall j :: 0 <= j < n ==> before[j] == lines[j];
  }

  /** Every line is a first one, repeats a key or has no outcome. */
  lemma {:induction false} LinesAccounted(lines: seq<Line>, bySeq: bool)
    ensures |FirstOf(lines, bySeq)| + Repeated(lines, bySeq) + WithoutOutcome(lines) == |lines|
  {
    if lines != [] {
      LinesAccounted(lines[..|lines| - 1], bySeq);
      LastRepeats(lines, bySeq);
    }
  }

  // ----------------------------------------------------------------- counts

  type ErrorLabel = string

  /** The label errors are counted under; different errors can share one. */
  function LabelOf(r: Compact): ErrorLabel
  {
    if r.errCode != 0 && r.errName != "" then Text.Decimal(r.errCode) + " " + r.errName
    else if r.errCode != 0 then Text.Decimal(r.errCode)
    else if r.errName != "" then r.errName
    else "unknown_error"
  }

  /** The totals of a shape. Error counts per label and latency samples are multisets. */
  datatype Counts = Counts(
    opsA: nat, opsB: nat, matched: nat, differing: nat, countMismatches: nat,
    checksumMismatches: nat, checksumsCompared: nat, errorCodes: nat, missingInA: nat, missingInB: nat,
    errorsOnlyA: multiset<ErrorLabel>, errorsOnlyB: multiset<ErrorLabel>,
    latA: multiset<int>, latB: multiset<int>)

  const ZERO: Counts := Counts(0, 0, 0, 0, 0, 0, 0, 0, 0, 0, multiset{}, multiset{}, multiset{}, multiset{})

  function Add(x: Counts, y: Counts): Counts
  {
    Counts(x.opsA + y.opsA, x.opsB + y.opsB, x.matched + y.matched, x.differing + y.differing,
           x.countMismatches + y.countMismatches, x.checksumMismatches + y.checksumMismatches,
           x.checksumsCompared + y.checksumsCompared, x.errorCodes + y.errorCodes,
           x.missingInA + y.missingInA, x.missingInB + y.missingInB,
           x.errorsOnlyA + y.errorsOnlyA, x.errorsOnlyB + y.errorsOnlyB, x.latA + y.latA, x.latB + y.latB)
  }

  const SUM: Monoid<Counts> := Monoid(ZERO, Add)

  lemma AddIsLawful()
    ensures Lawful(SUM)
  {
    forall x: Counts, y: Counts, z: Counts
      ensures Laws(SUM, x, y, z)
    {
      AddLaws(x, y, z);
    }
  }

  lemma AddLaws(x: Counts, y: Counts, z: Counts)
    ensures Add(x, Add(y, z)) == Add(y, Add(x, z))
    ensures Add(Add(x, y), z) == Add(x, Add(y, z))
    ensures Add(x, ZERO) == x
  {
  }

  /** What one operation contributes, and to which shape. */
  datatype Entry = Entry(shape: ShapeRef, counts: Counts)

  type Entries = map<Key, Entry>

  function CountsOf(e: Entry): Counts { e.counts }

  function ShapeOf(e: Entry): ShapeRef { e.shape }

  /** The overall totals. */
  ghost function Overall(m: Entries): Counts
    decreases |m|
  {
    if m == map[] then ZERO
    else
      var k :| k in m;
      Add(m[k].counts, Overall(m - {k}))
  }

  ghost function OfShape(m: Entries, r: ShapeRef): Entries { map k | k in m && m[k].shape == r :: m[k] }

  /** The totals of one shape. */
  ghost function ShapeTotal(m: Entries, r: ShapeRef): Counts { Overall(OfShape(m, r)) }

  lemma {:induction false} OverallIsTotal(m: Entries)
    ensures Overall(m) == Total(m, CountsOf, SUM)
    decreases |m|
  {
    if m != map[] {
      var k :| k in m && Overall(m) == Add(m[k].counts, Overall(m - {k}));
      OverallIsTotal(m - {k});
      AddIsLawful();
      TotalRemove(m, k, CountsOf, SUM);
    }
  }

  lemma ShapeTotalIsTotal(m: Entries, r: ShapeRef)
    ensures ShapeTotal(m, r) == ClassTotal(m, ShapeOf, r, CountsOf, SUM)
  {
    OverallIsTotal(OfShape(m, r));
    assert OfShape(m, r) == OfClass(m, ShapeOf, r);
  }

  // -------------------------------------------------------------- one pair

  datatype Kind = ErrorOnlyA | ErrorOnlyB | ErrorCodeDiffers | CountMismatch | ChecksumMismatch | MissingInA
        | MissingInB

  predicate SumsComparable(a: Compact, b: Compact) { a.ok && b.ok && a.sum.SumOk? && b.sum.SumOk? }

  predicate CountsDiffer(a: Compact, b: Compact) { a.has != b.has || a.counts != b.counts || a.txn != b.txn }

  /** The kinds of difference of an operation both files ran. */
  function PairKinds(a: Compact, b: Compact): seq<Kind>
  {
    if a.ok && !b.ok then [ErrorOnlyB]
    else if !a.ok && b.ok then [ErrorOnlyA]
    else if !a.ok then (if a.errCode != b.errCode || a.errName != b.errName then [ErrorCodeDiffers] else [])
    else
      (if CountsDiffer(a, b) then [CountMismatch] else [])
      + (if SumsComparable(a, b) && a.sum != b.sum then [ChecksumMismatch] else [])
  }

  function One(p: bool): nat { if p then 1 else 0 }

  function PairCounts(a: Compact, b: Compact): Counts
  {
    var kinds := PairKinds(a, b);
    Counts(0, 0, 1, One(kinds != []), One(CountMismatch in kinds), One(ChecksumMismatch in kinds),
           One(SumsComparable(a, b)), One(ErrorCodeDiffers in kinds), 0, 0,
           if ErrorOnlyA in kinds then multiset{LabelOf(a)} else multiset{},
           if ErrorOnlyB in kinds then multiset{LabelOf(b)} else multiset{},
           if a.ok && b.ok then multiset{a.latency} else multiset{},
           if a.ok && b.ok then multiset{b.latency} else multiset{})
  }

  const ONLY_A: Counts := ZERO.(opsA := 1, missingInB := 1, differing := 1)
  const ONLY_B: Counts := ZERO.(opsB := 1, missingInA := 1, differing := 1)
  const BOTH: Counts := ZERO.(opsA := 1, opsB := 1)

  datatype OpDiff = OpDiff(
    num: nat, iteration: int, worker: int, workerSeq: nat, shape: ShapeRef,
    kinds: seq<Kind>, a: Option<Outcome>, b: Option<Outcome>)

  function Seen(l: Line): Compact
    requires l.outcome.Some?
  {
    ToResult(l.outcome.value)
  }

  function DiffOf(id: Line, shape: ShapeRef, kinds: seq<Kind>, a: Option<Compact>, b: Option<Compact>): OpDiff
    requires a.Some? ==> ValidResult(a.value)
    requires b.Some? ==> ValidResult(b.value)
  {
    OpDiff(id.num, Int32(id.iteration), Int32(id.worker), id.workerSeq, shape, kinds,
           if a.Some? then Some(ToOutcome(a.value)) else None,
           if b.Some? then Some(ToOutcome(b.value)) else None)
  }

  /** The shape an operation of both files is attributed to: preferB when only A is a recording. */
  function SharedShape(a: Line, b: Line, preferB: bool): ShapeRef { if preferB then b.shape else a.shape }

  ghost function EntryOf(k: Key, fa: map<Key, Line>, fb: map<Key, Line>, preferB: bool): Entry
    requires ValidFirst(fa) && ValidFirst(fb) && (k in fa || k in fb)
  {
    if k in fa && k in fb then
      Entry(SharedShape(fa[k], fb[k], preferB), Add(BOTH, PairCounts(Seen(fa[k]), Seen(fb[k]))))
    else if k in fa then Entry(fa[k].shape, ONLY_A)
    else Entry(fb[k].shape, ONLY_B)
  }

  ghost function SpecEntries(fa: map<Key, Line>, fb: map<Key, Line>, preferB: bool): Entries
    requires ValidFirst(fa) && ValidFirst(fb)
  {
    map k | k in fa.Keys + fb.Keys :: EntryOf(k, fa, fb, preferB)
  }

  predicate Differs(k: Key, fa: map<Key, Line>, fb: map<Key, Line>)
    requires forall j :: j in fa ==> fa[j].outcome.Some?
    requires forall j :: j in fb ==> fb[j].outcome.Some?
  {
    if k in fa && k in fb then PairKinds(Seen(fa[k]), Seen(fb[k])) != [] else k in fa || k in fb
  }

  ghost function DiffFor(k: Key, fa: map<Key, Line>, fb: map<Key, Line>, preferB: bool): OpDiff
    requires ValidFirst(fa) && ValidFirst(fb) && (k in fa || k in fb)
  {
    if k in fa && k in fb then
      DiffOf(fa[k], SharedShape(fa[k], fb[k], preferB), PairKinds(Seen(fa[k]), Seen(fb[k])), Some(Seen(fa[k])),
        Some(Seen(fb[k])))
    else if k in fa then DiffOf(fa[k], fa[k].shape, [MissingInB], Some(Seen(fa[k])), None)
    else DiffOf(fb[k], fb[k].shape, [MissingInA], None, Some(Seen(fb[k])))
  }

  /** The operations that differ. */
  ghost function DiffKeys(fa: map<Key, Line>, fb: map<Key, Line>): set<Key>
    requires ValidFirst(fa) && ValidFirst(fb)
  {
    set k | k in fa.Keys + fb.Keys && Differs(k, fa, fb)
  }

  ghost function SpecDiffs(fa: map<Key, Line>, fb: map<Key, Line>, preferB: bool): (m: map<Key, OpDiff>)
    requires ValidFirst(fa) && ValidFirst(fb)
    ensures m.Keys == DiffKeys(fa, fb)
  {
    map k | k in DiffKeys(fa, fb) :: DiffFor(k, fa, fb, preferB)
  }

  // ------------------------------------------------ what the totals count

  /** An additive field that indicates a set of operations counts that set. */
  lemma FieldCounts(m: Entries, p: Counts -> int, s: set<Key>)
    requires Homomorphism(p, SUM, PLUS)
    requires s <= m.Keys && forall k :: k in m ==> p(m[k].counts) == if k in s then 1 else 0
    ensures p(Overall(m)) == |s|
  {
    AddIsLawful();
    var f := (e: Entry) => p(e.counts);
    OverallIsTotal(m);
    TotalMaps(m, m, CountsOf, SUM, f, PLUS, p);
    TotalCounts(m, f, s);
  }

  /** m holds the contributions of some of the operations. */
  ghost predicate Selection(m: Entries, fa: map<Key, Line>, fb: map<Key, Line>, preferB: bool)
    requires ValidFirst(fa) && ValidFirst(fb)
  {
    forall k :: k in m ==> (k in fa || k in fb) && m[k] == EntryOf(k, fa, fb, preferB)
  }

  /** Every operation of a file was either matched or missing in the other file. */
  ghost predicate Balanced(c: Counts)
  {
    c.opsA == c.matched + c.missingInB && c.opsB == c.matched + c.missingInA
    && c.missingInA + c.missingInB <= c.differing <= c.missingInA + c.missingInB + c.matched
  }

  lemma SelectionOpsA(fa: map<Key, Line>, fb: map<Key, Line>, preferB: bool, m: Entries)
    requires ValidFirst(fa) && ValidFirst(fb) && Selection(m, fa, fb, preferB)
    ensures Overall(m).opsA == |m.Keys * fa.Keys|
  {
    forall k | k in m
      ensures m[k].counts.opsA == if k in m.Keys * fa.Keys then 1 else 0
    {
    }
    FieldCounts(m, (c: Counts) => c.opsA, m.Keys * fa.Keys);
  }

  lemma SelectionOpsB(fa: map<Key, Line>, fb: map<Key, Line>, preferB: bool, m: Entries)
    requires ValidFirst(fa) && ValidFirst(fb) && Selection(m, fa, fb, preferB)
    ensures Overall(m).opsB == |m.Keys * fb.Keys|
  {
    forall k | k in m
      ensures m[k].counts.opsB == if k in m.Keys * fb.Keys then 1 else 0
    {
    }
    FieldCounts(m, (c: Counts) => c.opsB, m.Keys * fb.Keys);
  }

  lemma SelectionMatched(fa: map<Key, Line>, fb: map<Key, Line>, preferB: bool, m: Entries)
    requires ValidFirst(fa) && ValidFirst(fb) && Selection(m, fa, fb, preferB)
    ensures Overall(m).matched == |m.Keys * (fa.Keys * fb.Keys)|
  {
    forall k | k in m
      ensures m[k].counts.matched == if k in m.Keys * (fa.Keys * fb.Keys) then 1 else 0
    {
    }
    FieldCounts(m, (c: Counts) => c.matched, m.Keys * (fa.Keys * fb.Keys));
  }

  lemma SelectionMissingInA(fa: map<Key, Line>, fb: map<Key, Line>, preferB: bool, m: Entries)
    requires ValidFirst(fa) && ValidFirst(fb) && Selection(m, fa, fb, preferB)
    ensures Overall(m).missingInA == |m.Keys * (m.Keys - fa.Keys)|
  {
    forall k | k in m
      ensures m[k].counts.missingInA == if k in m.Keys * (m.Keys - fa.Keys) then 1 else 0
    {
    }
    FieldCounts(m, (c: Counts) => c.missingInA, m.Keys * (m.Keys - fa.Keys));
  }

  lemma SelectionMissingInB(fa: map<Key, Line>, fb: map<Key, Line>, preferB: bool, m: Entries)
    requires ValidFirst(fa) && ValidFirst(fb) && Selection(m, fa, fb, preferB)
    ensures Overall(m).missingInB == |m.Keys * (m.Keys - fb.Keys)|
  {
    forall k | k in m
      ensures m[k].counts.missingInB == if k in m.Keys * (m.Keys - fb.Keys) then 1 else 0
    {
    }
    FieldCounts(m, (c: Counts) => c.missingInB, m.Keys * (m.Keys - fb.Keys));
  }

  lemma SelectionDiffering(fa: map<Key, Line>, fb: map<Key, Line>, preferB: bool, m: Entries)
    requires ValidFirst(fa) && ValidFirst(fb) && Selection(m, fa, fb, preferB)
    ensures Overall(m).differing == |m.Keys * DiffKeys(fa, fb)|
  {
    forall k | k in m
      ensures m[k].counts.differing == if k in m.Keys * DiffKeys(fa, fb) then 1 else 0
    {
    }
    FieldCounts(m, (c: Counts) => c.differing, m.Keys * DiffKeys(fa, fb));
  }

  lemma SplitSize(m: set<Key>, a: set<Key>, b: set<Key>, d: set<Key>)
    requires m <= a + b && d <= a + b && (a - b) + (b - a) <= d
    ensures |m * d| == |m * (m - a)| + |m * (m - b)| + |m * (d * a * b)|
  {
    var x, y, z := m * (m - a), m * (m - b), m * (d * a * b);
    assert m * d == x + y + z;
    assert x !! y && (x + y) !! z;
  }

  lemma DiffKeysCover(fa: map<Key, Line>, fb: map<Key, Line>)
    requires ValidFirst(fa) && ValidFirst(fb)
    ensures DiffKeys(fa, fb) <= fa.Keys + fb.Keys
    ensures (fa.Keys - fb.Keys) + (fb.Keys - fa.Keys) <= DiffKeys(fa, fb)
  {
  }

  lemma DiffKeysSplit(fa: map<Key, Line>, fb: map<Key, Line>, ks: set<Key>)
    requires ValidFirst(fa) && ValidFirst(fb) && ks <= fa.Keys + fb.Keys
    ensures |ks * DiffKeys(fa, fb)| ==
            |ks * (ks - fa.Keys)| + |ks * (ks - fb.Keys)| + |ks * (DiffKeys(fa, fb) * fa.Keys * fb.Keys)|
  {
    DiffKeysCover(fa, fb);
    SplitSize(ks, fa.Keys, fb.Keys, DiffKeys(fa, fb));
  }

  lemma SelectionSplits(fa: map<Key, Line>, fb: map<Key, Line>, preferB: bool, m: Entries)
    requires ValidFirst(fa) && ValidFirst(fb) && Selection(m, fa, fb, preferB)
    ensures Overall(m).differing ==
            Overall(m).missingInA + Overall(m).missingInB + |m.Keys * (DiffKeys(fa, fb) * fa.Keys * fb.Keys)|
  {
    SelectionMissingInA(fa, fb, preferB, m);
    SelectionMissingInB(fa, fb, preferB, m);
    SelectionDiffering(fa, fb, preferB, m);
    DiffKeysSplit(fa, fb, m.Keys);
  }

  lemma AllSelected(fa: map<Key, Line>, fb: map<Key, Line>, preferB: bool)
    requires ValidFirst(fa) && ValidFirst(fb)
    ensures var m := SpecEntries(fa, fb, preferB); m.Keys == fa.Keys + fb.Keys && Selection(m, fa, fb, preferB)
  {
  }

  lemma ShapeSelected(fa: map<Key, Line>, fb: map<Key, Line>, preferB: bool, r: ShapeRef)
    requires ValidFirst(fa) && ValidFirst(fb)
    ensures Selection(OfShape(SpecEntries(fa, fb, preferB), r), fa, fb, preferB)
  {
  }

  /** The pairs that differ. */
  ghost function DifferingPairs(fa: map<Key, Line>, fb: map<Key, Line>): set<Key>
    requires ValidFirst(fa) && ValidFirst(fb)
  {
    DiffKeys(fa, fb) * fa.Keys * fb.Keys
  }

  /** DifferingOps = MissingInA + MissingInB + differing pairs, overall and for every shape. */
  lemma DifferingSplits(fa: map<Key, Line>, fb: map<Key, Line>, preferB: bool, r: ShapeRef)
    requires ValidFirst(fa) && ValidFirst(fb)
    ensures var t := Overall(SpecEntries(fa, fb, preferB));
            t.differing == t.missingInA + t.missingInB + |DifferingPairs(fa, fb)|
    ensures var own := OfShape(SpecEntries(fa, fb, preferB), r);
            Overall(own).differing
              == Overall(own).missingInA + Overall(own).missingInB + |own.Keys * DifferingPairs(fa, fb)|
  {
    var m := SpecEntries(fa, fb, preferB);
    AllSelected(fa, fb, preferB);
    SelectionSplits(fa, fb, preferB, m);
    assert m.Keys * DifferingPairs(fa, fb) == DifferingPairs(fa, fb);
    ShapeSelected(fa, fb, preferB, r);
    SelectionSplits(fa, fb, preferB, OfShape(m, r));
  }

  lemma {:induction false} TotalBalanced(m: Entries)
    requires forall k :: k in m ==> Balanced(m[k].counts)
    ensures Balanced(Overall(m))
    decreases |m|
  {
    if m != map[] {
      var k :| k in m;
      assert Overall(m) == Add(m[k].counts, Overall(m - {k})) by {
        AddIsLawful();
        OverallIsTotal(m);
        OverallIsTotal(m - {k});
        TotalRemove(m, k, CountsOf, SUM);
      }
      TotalBalanced(m - {k});
    }
  }

  lemma EntriesBalanced(fa: map<Key, Line>, fb: map<Key, Line>, preferB: bool, k: Key)
    requires ValidFirst(fa) && ValidFirst(fb) && (k in fa || k in fb)
    ensures Balanced(EntryOf(k, fa, fb, preferB).counts)
  {
  }

  /**
   For every shape, however operations were re-attributed: OpsA = Matched + MissingInB,
   OpsB = Matched + MissingInA.
   */
  lemma ShapesBalanced(fa: map<Key, Line>, fb: map<Key, Line>, preferB: bool, r: ShapeRef)
    requires ValidFirst(fa) && ValidFirst(fb)
    ensures Balanced(ShapeTotal(SpecEntries(fa, fb, preferB), r))
  {
    var own := OfShape(SpecEntries(fa, fb, preferB), r);
    forall k | k in own
      ensures Balanced(own[k].counts)
    {
      EntriesBalanced(fa, fb, preferB, k);
    }
    TotalBalanced(own);
  }

  /** The per-shape totals of distinct shapes that cover every operation sum to the overall totals. */
  lemma ShapesSumToTotal(m: Entries, refs: seq<ShapeRef>)
    requires Distinct(refs) && forall k :: k in m ==> m[k].shape in refs
    ensures SumClasses(m, ShapeOf, refs, CountsOf, SUM) == Overall(m)
  {
    AddIsLawful();
    OverallIsTotal(m);
    ClassesSumToTotal(m, ShapeOf, refs, CountsOf, SUM);
  }

  // ------------------------------------------------------- swapping the files

  function SwapKind(k: Kind): Kind
  {
    match k
    case ErrorOnlyA => ErrorOnlyB
    case ErrorOnlyB => ErrorOnlyA
    case MissingInA => MissingInB
    case MissingInB => MissingInA
    case _ => k
  }

  function SwapKinds(ks: seq<Kind>): seq<Kind> { seq(|ks|, i requires 0 <= i < |ks| => SwapKind(ks[i])) }

  function SwapCounts(c: Counts): Counts
  {
    c.(opsA := c.opsB, opsB := c.opsA, missingInA := c.missingInB, missingInB := c.missingInA,
       errorsOnlyA := c.errorsOnlyB, errorsOnlyB := c.errorsOnlyA, latA := c.latB, latB := c.latA)
  }

  function SwapDiff(d: OpDiff): OpDiff { d.(a := d.b, b := d.a, kinds := SwapKinds(d.kinds)) }

  lemma KindsSwap(a: Compact, b: Compact)
    ensures PairKinds(b, a) == SwapKinds(PairKinds(a, b))
  {
    if a.ok && b.ok {
      assert PairKinds(b, a) == PairKinds(a, b);
    }
  }

  /** Each kind is reported once the files are swapped exactly when its mirror image was before. */
  lemma KindsMirror(a: Compact, b: Compact)
    ensures ErrorOnlyA in PairKinds(b, a) <==> ErrorOnlyB in PairKinds(a, b)
    ensures ErrorOnlyB in PairKinds(b, a) <==> ErrorOnlyA in PairKinds(a, b)
    ensures ErrorCodeDiffers in PairKinds(b, a) <==> ErrorCodeDiffers in PairKinds(a, b)
    ensures CountMismatch in PairKinds(b, a) <==> CountMismatch in PairKinds(a, b)
    ensures ChecksumMismatch in PairKinds(b, a) <==> ChecksumMismatch in PairKinds(a, b)
    ensures PairKinds(b, a) != [] <==> PairKinds(a, b) != []
  {
  }

  lemma PairSwap(a: Compact, b: Compact)
    ensures PairCounts(b, a) == SwapCounts(PairCounts(a, b))
  {
    KindsMirror(a, b);
    var x, y := PairCounts(b, a), PairCounts(a, b);
    assert x.differing == y.differing && x.countMismatches == y.countMismatches && x.errorCodes == y.errorCodes;
    assert x.checksumMismatches == y.checksumMismatches && x.checksumsCompared == y.checksumsCompared;
    assert x.errorsOnlyA == y.errorsOnlyB && x.errorsOnlyB == y.errorsOnlyA;
    assert x.latA == y.latB && x.latB == y.latA;
  }

  lemma BothSwap(c: Counts, d: Counts)
    requires d == SwapCounts(c)
    ensures Add(BOTH, d) == SwapCounts(Add(BOTH, c))
  {
  }

  lemma OnlySwap()
    ensures ONLY_B == SwapCounts(ONLY_A) && ONLY_A == SwapCounts(ONLY_B)
  {
  }

  lemma EntrySwap(k: Key, fa: map<Key, Line>, fb: map<Key, Line>, preferB: bool, preferSwapped: bool)
    requires ValidFirst(fa) && ValidFirst(fb) && (k in fa || k in fb)
    ensures EntryOf(k, fb, fa, preferSwapped).counts == SwapCounts(EntryOf(k, fa, fb, preferB).counts)
  {
    if k in fa && k in fb {
      PairSwap(Seen(fa[k]), Seen(fb[k]));
      BothSwap(PairCounts(Seen(fa[k]), Seen(fb[k])), PairCounts(Seen(fb[k]), Seen(fa[k])));
    } else {
      OnlySwap();
    }
  }

  lemma EntriesSwap(fa: map<Key, Line>, fb: map<Key, Line>, preferB: bool, preferSwapped: bool)
    requires ValidFirst(fa) && ValidFirst(fb)
    ensures var m, n := SpecEntries(fa, fb, preferB), SpecEntries(fb, fa, preferSwapped);
            m.Keys == n.Keys && forall k :: k in m ==> n[k].counts == SwapCounts(m[k].counts)
  {
    var m, n := SpecEntries(fa, fb, preferB), SpecEntries(fb, fa, preferSwapped);
    assert m.Keys == n.Keys;
    forall k | k in m
      ensures n[k].counts == SwapCounts(m[k].counts)
    {
      EntrySwap(k, fa, fb, preferB, preferSwapped);
    }
  }

  lemma OverallSwap(m: Entries, n: Entries)
    requires m.Keys == n.Keys && forall k :: k in m ==> n[k].counts == SwapCounts(m[k].counts)
    ensures Overall(n) == SwapCounts(Overall(m))
  {
    AddIsLawful();
    OverallIsTotal(m);
    OverallIsTotal(n);
    TotalMaps(m, n, CountsOf, SUM, CountsOf, SUM, SwapCounts);
  }

  /** Swapping the two files swaps the A and B fields of the overall totals and changes nothing else in them. */
  lemma SwapTotals(fa: map<Key, Line>, fb: map<Key, Line>, preferB: bool, preferSwapped: bool)
    requires ValidFirst(fa) && ValidFirst(fb)
    ensures Overall(SpecEntries(fb, fa, preferSwapped)) == SwapCounts(Overall(SpecEntries(fa, fb, preferB)))
  {
    EntriesSwap(fa, fb, preferB, preferSwapped);
    OverallSwap(SpecEntries(fa, fb, preferB), SpecEntries(fb, fa, preferSwapped));
  }

  /** The descriptive fields a listed difference takes from one line. */
  ghost predicate SameIdentity(a: Line, b: Line) {
    a.num == b.num && Int32(a.iteration) == Int32(b.iteration) && Int32(a.worker) == Int32(b.worker)
      && a.workerSeq == b.workerSeq
  }

  /** Both orders attribute the operation to one shape: the lines agree, or exactly one file is a recording. */
  ghost predicate SameAttribution(a: Line, b: Line, recA: bool, recB: bool) { a.shape == b.shape || recA != recB }

  /**
   Swapping the files lists the same operations, and it swaps a listed difference and
   nothing else of it exactly when only one file ran the operation or both lines carry the
   same sequence, iteration and worker fields and the same attributed shape.
   */
  lemma SwapDiffs(fa: map<Key, Line>, fb: map<Key, Line>, recA: bool, recB: bool, k: Key)
    requires ValidFirst(fa) && ValidFirst(fb)
    ensures k in SpecDiffs(fb, fa, recB && !recA) <==> k in SpecDiffs(fa, fb, recA && !recB)
    ensures k in SpecDiffs(fa, fb, recA && !recB) ==>
              (SpecDiffs(fb, fa, recB && !recA)[k] == SwapDiff(SpecDiffs(fa, fb, recA && !recB)[k]) <==>
               (k in fa && k in fb ==> SameIdentity(fa[k], fb[k]) && SameAttribution(fa[k], fb[k], recA, recB)))
  {
    if k in fa && k in fb {
      KindsSwap(Seen(fa[k]), Seen(fb[k]));
    } else if k in SpecDiffs(fa, fb, recA && !recB) {
      assert SwapKinds([MissingInA]) == [MissingInB] && SwapKinds([MissingInB]) == [MissingInA];
    }
  }

  /** A file with one line has that line as its first one. */
  lemma FirstOfOne(l: Line, bySeq: bool)
    requires l.outcome.Some?
    ensures FirstOf([l], bySeq) == map[KeyOf(l, bySeq) := l]
  {
    assert [l][..0] == [];
  }

  /**
   The other case, for any two files of one line each: the lines have the same sequence
   number, different workers and outcomes that differ.
   */
  lemma SwapChangesWorker(a: Line, b: Line)
    requires ValidLines([a]) && ValidLines([b]) && a.outcome.Some? && b.outcome.Some? && a.num == b.num
    requires ValidOutcome(a.outcome.value) && ValidOutcome(b.outcome.value)
    requires Int32(a.worker) != Int32(b.worker) && PairKinds(Seen(a), Seen(b)) != []
    ensures ValidFirst(FirstOf([a], true)) && ValidFirst(FirstOf([b], true))
    ensures var fa, fb, k := FirstOf([a], true), FirstOf([b], true), KeyOf(a, true);
            k in SpecDiffs(fa, fb, false) && k in SpecDiffs(fb, fa, false)
            && SpecDiffs(fb, fa, false)[k] != SwapDiff(SpecDiffs(fa, fb, false)[k])
  {
    FirstOfOne(a, true);
    FirstOfOne(b, true);
    FirstOfIsValid([a], true);
    FirstOfIsValid([b], true);
    SwapDiffs(FirstOf([a], true), FirstOf([b], true), false, false, KeyOf(a, true));
  }

  /** Two such lines: operation 7 succeeded for worker 1 in A and failed for worker 2 in B. */
  lemma SwapExample() returns (a: Line, b: Line)
    ensures a.num == b.num == 7 && a.worker == 1 && b.worker == 2 && a.outcome.Some? && b.outcome.Some?
    ensures ValidOutcome(a.outcome.value) && ValidOutcome(b.outcome.value)
        && PairKinds(Seen(a), Seen(b)) == [ErrorOnlyB]
  {
    var none: Option<int> := None;
    var good := Outcome(5, true, 0, "", [none, none, none, none, none, none], "", "");
    var shape := ShapeRef("db.c", "find", "k");
    a := Line(7, 1, 1, 3, shape, Some(good));
    b := Line(7, 1, 2, 3, shape, Some(good.(ok := false)));
  }

  // -------------------------------------------------------- the listed operations

  datatype KeyedDiff = KeyedDiff(key: Key, diff: OpDiff)

  ghost predicate Increasing(list: seq<KeyedDiff>) {
    forall i, j :: 0 <= i < j < |list| ==> Less(list[i].key, list[j].key)
  }

  function KeysOf(list: seq<KeyedDiff>): set<Key> { set i | 0 <= i < |list| :: list[i].key }

  /** list holds exactly the n smallest keys of all, each with its difference, in key order. */
  ghost predicate IsTop(list: seq<KeyedDiff>, all: map<Key, OpDiff>, n: nat)
  {
    && Increasing(list)
    && |list| == (if |all| < n then |all| else n)
    && (forall i :: 0 <= i < |list| ==> list[i].key in all && all[list[i].key] == list[i].diff)
    && (forall i, k :: 0 <= i < |list| && k in all && k !in KeysOf(list) ==> Less(list[i].key, k))
  }

  lemma {:induction false} DistinctSize(list: seq<KeyedDiff>)
    requires forall i, j :: 0 <= i < j < |list| ==> list[i].key != list[j].key
    ensures |KeysOf(list)| == |list|
  {
    if list != [] {
      var n := |list| - 1;
      DistinctSize(list[..n]);
      assert KeysOf(list) == KeysOf(list[..n]) + {list[n].key};
      assert list[n].key !in KeysOf(list[..n]);
    }
  }

  /** Sets of one size of which one contains the other are equal. */
  lemma SameSize(a: set<Key>, b: set<Key>)
    requires |a| == |b| && (a <= b || b <= a)
    ensures a == b
  {
    var small, large := if a <= b then a else b, if a <= b then b else a;
    assert large == small + (large - small);
    assert |large - small| == 0;
  }

  lemma TopKeysEqual(l: seq<KeyedDiff>, r: seq<KeyedDiff>, all: map<Key, OpDiff>, n: nat)
    requires IsTop(l, all, n) && IsTop(r, all, n)
    ensures KeysOf(l) == KeysOf(r)
  {
    DistinctSize(l);
    DistinctSize(r);
    if !(KeysOf(l) <= KeysOf(r)) {
      var x :| x in KeysOf(l) && x !in KeysOf(r);
    }
    SameSize(KeysOf(l), KeysOf(r));
  }

  lemma KeysOfInit(l: seq<KeyedDiff>)
    requires Increasing(l) && l != []
    ensures KeysOf(l[..|l| - 1]) == KeysOf(l) - {l[|l| - 1].key}
    ensures forall k :: k in KeysOf(l) ==> k == l[|l| - 1].key || Less(k, l[|l| - 1].key)
  {
    var n := |l| - 1;
    assert forall i :: 0 <= i < n ==> l[..n][i] == l[i];
  }

  /** Two strictly increasing lists with the same keys have them in the same places. */
  lemma {:induction false} IncreasingUnique(l: seq<KeyedDiff>, r: seq<KeyedDiff>)
    requires Increasing(l) && Increasing(r) && KeysOf(l) == KeysOf(r)
    ensures |l| == |r| && forall i :: 0 <= i < |l| ==> l[i].key == r[i].key
  {
    DistinctSize(l);
    DistinctSize(r);
    if l != [] {
      var n := |l| - 1;
      KeysOfInit(l);
      KeysOfInit(r);
      assert l[n].key in KeysOf(l) && r[n].key in KeysOf(r);
      assert l[n].key == r[n].key;
      IncreasingUnique(l[..n], r[..n]);
    }
  }

  /** The listed differences are determined by the set of all differences alone. */
  lemma TopIsUnique(l: seq<KeyedDiff>, r: seq<KeyedDiff>, all: map<Key, OpDiff>, n: nat)
    requires IsTop(l, all, n) && IsTop(r, all, n)
    ensures l == r
  {
    TopKeysEqual(l, r, all, n);
    IncreasingUnique(l, r);
    forall i | 0 <= i < |l|
      ensures l[i] == r[i]
    {
      assert l[i].diff == all[l[i].key] && r[i].diff == all[r[i].key];
    }
  }
}
