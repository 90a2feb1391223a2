/**
 What a comparison reports, said of the recorded outcomes and lines themselves: when two
 outcomes differ and in what, which operations each total counts, and what a listed
 difference shows (pair and addDiff in internal/replaycompare/compare.go).
 */
module ReportedKinds {
  import Text
  import opened Wrappers
  import opened Outcomes
  import opened MapTotals
  import opened CompareSpec

  // --------------------------------------------------------------- two outcomes

  const WRAP: int := 0x1_0000_0000

  predicate SameInt32(x: int, y: int) { (x - y) % WRAP == 0 }

  lemma Int32Exact(x: int, y: int)
    ensures Int32(x) == Int32(y) <==> SameInt32(x, y)
  {
    var p, q := x + 0x8000_0000, y + 0x8000_0000;
    assert p == p / WRAP * WRAP + p % WRAP && q == q / WRAP * WRAP + q % WRAP;
    RestsAgree(p, q);
  }

  lemma RestsAgree(p: int, q: int)
    ensures p % WRAP == q % WRAP <==> (p - q) % WRAP == 0
  {
    var d := p - q;
    assert d == d / WRAP * WRAP + d % WRAP && q == q / WRAP * WRAP + q % WRAP;
  }

  const DIGITS: string := "0123456789abcdefABCDEF"

  /** A SHA-256 checksum is 64 hexadecimal digits. */
  predicate IsChecksum(s: string) { |s| == 64 && forall i :: 0 <= i < |s| ==> s[i] in DIGITS }

  function LowerDigit(c: char): char { if 'A' <= c <= 'F' then c - 'A' + 'a' else c }

  /** Equal apart from the case of the letters. */
  predicate SameChecksum(s: string, t: string)
  {
    |s| == |t| && forall i :: 0 <= i < |s| ==> LowerDigit(s[i]) == LowerDigit(t[i])
  }

  lemma DigitExact(c: char)
    ensures Nibble(c).Some? <==> c in DIGITS
  {
    assert forall i :: 0 <= i < |DIGITS| ==> Nibble(DIGITS[i]).Some?;
    if '0' <= c <= '9' {
      assert DIGITS[c as int - '0' as int] == c;
    } else if 'a' <= c <= 'f' {
      assert DIGITS[10 + (c as int - 'a' as int)] == c;
    } else if 'A' <= c <= 'F' {
      assert DIGITS[16 + (c as int - 'A' as int)] == c;
    }
  }

  lemma NibbleExact(c: char, d: char)
    requires Nibble(c).Some? && Nibble(d).Some?
    ensures Nibble(c) == Nibble(d) <==> LowerDigit(c) == LowerDigit(d)
  {
  }

  lemma ChecksumRead(s: string)
    ensures ToSum(s).SumOk? <==> IsChecksum(s)
  {
    forall i | 0 <= i < |s|
      ensures Nibble(s[i]).Some? <==> s[i] in DIGITS
    {
      DigitExact(s[i]);
    }
  }

  lemma ChecksumsAgree(s: string, t: string)
    requires IsChecksum(s) && IsChecksum(t)
    ensures ToSum(s) == ToSum(t) <==> SameChecksum(s, t)
  {
    ChecksumRead(s);
    ChecksumRead(t);
    var x, y := HexDecode(s), HexDecode(t);
    forall i | 0 <= i < 64
      ensures x[i] == y[i] <==> LowerDigit(s[i]) == LowerDigit(t[i])
    {
      NibbleExact(s[i], t[i]);
    }
    if x == y {
      assert forall i :: 0 <= i < 64 ==> x[i] == y[i];
    }
    if SameChecksum(s, t) {
      assert x == y;
    }
  }

  predicate BothOk(a: Outcome, b: Outcome) { a.ok && b.ok }

  predicate ResultsDiffer(a: Outcome, b: Outcome)
  {
    BothOk(a, b) && (a.counts != b.counts || a.transaction != b.transaction)
  }

  predicate ChecksumsComparable(a: Outcome, b: Outcome)
  {
    BothOk(a, b) && IsChecksum(a.checksum) && IsChecksum(b.checksum)
  }

  predicate ChecksumsDiffer(a: Outcome, b: Outcome)
  {
    ChecksumsComparable(a, b) && !SameChecksum(a.checksum, b.checksum)
  }

  predicate ErrorsDiffer(a: Outcome, b: Outcome)
  {
    !a.ok && !b.ok && (!SameInt32(a.errorCode, b.errorCode) || a.errorName != b.errorName)
  }

  predicate OutcomesDiffer(a: Outcome, b: Outcome)
  {
    a.ok != b.ok || ErrorsDiffer(a, b) || ResultsDiffer(a, b) || ChecksumsDiffer(a, b)
  }

  /** Which kinds of difference two recorded outcomes are reported with, exactly. */
  lemma KindsExact(a: Outcome, b: Outcome)
    requires ValidOutcome(a) && ValidOutcome(b)
    ensures var kinds := PairKinds(ToResult(a), ToResult(b));
            && (CountMismatch in kinds <==> ResultsDiffer(a, b))
            && (ChecksumMismatch in kinds <==> ChecksumsDiffer(a, b))
            && (ErrorCodeDiffers in kinds <==> ErrorsDiffer(a, b))
            && (ErrorOnlyA in kinds <==> !a.ok && b.ok) && (ErrorOnlyB in kinds <==> a.ok && !b.ok)
            && MissingInA !in kinds && MissingInB !in kinds
            && (kinds == [] <==> !OutcomesDiffer(a, b))
    ensures SumsComparable(ToResult(a), ToResult(b)) <==> ChecksumsComparable(a, b)
  {
    CountsFaithful(a, b);
    Int32Exact(a.errorCode, b.errorCode);
    ChecksumRead(a.checksum);
    ChecksumRead(b.checksum);
    if IsChecksum(a.checksum) && IsChecksum(b.checksum) {
      ChecksumsAgree(a.checksum, b.checksum);
    }
  }

  // ------------------------------------------------------------ what totals count

  ghost predicate Shared(k: Key, fa: map<Key, Line>, fb: map<Key, Line>)
  {
    k in fa && k in fb && fa[k].outcome.Some? && fb[k].outcome.Some?
  }

  /** The operations of a selection that both files ran and whose recorded outcomes are related like this. */
  ghost function Related(m: Entries, fa: map<Key, Line>, fb: map<Key, Line>, rel: (Outcome, Outcome) -> bool): set<Key>
  {
    set k | k in m && Shared(k, fa, fb) && rel(fa[k].outcome.value, fb[k].outcome.value)
  }

  /** A total counts such a relation when each pair's contribution does. */
  lemma TotalCountsRelated(
      m: Entries, fa: map<Key, Line>, fb: map<Key, Line>, preferB: bool, p: Counts -> int,
      rel: (Outcome, Outcome) -> bool)
    requires ValidFirst(fa) && ValidFirst(fb) && Selection(m, fa, fb, preferB) && Homomorphism(p, SUM, PLUS)
    requires p(ONLY_A) == 0 && p(ONLY_B) == 0
    requires forall a, b {:trigger rel(a, b)} :: ValidOutcome(a) && ValidOutcome(b) ==>
               p(Add(BOTH, PairCounts(ToResult(a), ToResult(b)))) == if rel(a, b) then 1 else 0
    ensures p(Overall(m)) == |Related(m, fa, fb, rel)|
  {
    forall k | k in m
      ensures p(m[k].counts) == if k in Related(m, fa, fb, rel) then 1 else 0
    {
      if Shared(k, fa, fb) {
        var a, b := fa[k].outcome.value, fb[k].outcome.value;
        assert rel(a, b) || !rel(a, b);
        assert m[k].counts == Add(BOTH, PairCounts(ToResult(a), ToResult(b)));
      }
    }
    FieldCounts(m, p, Related(m, fa, fb, rel));
  }

  /** Of two outcomes: the one contribution to each total. */
  lemma PairExact(a: Outcome, b: Outcome)
    requires ValidOutcome(a) && ValidOutcome(b)
    ensures var c := PairCounts(ToResult(a), ToResult(b));
            && c.countMismatches == (if ResultsDiffer(a, b) then 1 else 0)
            && c.checksumMismatches == (if ChecksumsDiffer(a, b) then 1 else 0)
            && c.checksumsCompared == (if ChecksumsComparable(a, b) then 1 else 0)
            && c.errorCodes == (if ErrorsDiffer(a, b) then 1 else 0)
            && c.differing == (if OutcomesDiffer(a, b) then 1 else 0) && c.matched == 1
            && c.errorsOnlyA == (if !a.ok && b.ok then multiset{LabelOf(ToResult(a))} else multiset{})
            && c.errorsOnlyB == (if a.ok && !b.ok then multiset{LabelOf(ToResult(b))} else multiset{})
            && c.latA == (if a.ok && b.ok then multiset{a.latency} else multiset{})
            && c.latB == (if a.ok && b.ok then multiset{b.latency} else multiset{})
  {
    KindsExact(a, b);
  }

  lemma CountMismatchesExact(m: Entries, fa: map<Key, Line>, fb: map<Key, Line>, preferB: bool)
    requires ValidFirst(fa) && ValidFirst(fb) && Selection(m, fa, fb, preferB)
    ensures Overall(m).countMismatches == |Related(m, fa, fb, ResultsDiffer)|
  {
    forall a, b | ValidOutcome(a) && ValidOutcome(b)
      ensures Add(BOTH, PairCounts(ToResult(a), ToResult(b))).countMismatches == if ResultsDiffer(a, b) then 1 else 0
    {
      PairExact(a, b);
    }
    TotalCountsRelated(m, fa, fb, preferB, (c: Counts) => c.countMismatches, ResultsDiffer);
  }

  lemma ChecksumMismatchesExact(m: Entries, fa: map<Key, Line>, fb: map<Key, Line>, preferB: bool)
    requires ValidFirst(fa) && ValidFirst(fb) && Selection(m, fa, fb, preferB)
    ensures Overall(m).checksumMismatches == |Related(m, fa, fb, ChecksumsDiffer)|
  {
    forall a, b | ValidOutcome(a) && ValidOutcome(b)
      ensures Add(BOTH, PairCounts(ToResult(a), ToResult(b))).checksumMismatches
           == if ChecksumsDiffer(a, b) then 1 else 0
    {
      PairExact(a, b);
    }
    TotalCountsRelated(m, fa, fb, preferB, (c: Counts) => c.checksumMismatches, ChecksumsDiffer);
  }

  lemma ChecksumsComparedExact(m: Entries, fa: map<Key, Line>, fb: map<Key, Line>, preferB: bool)
    requires ValidFirst(fa) && ValidFirst(fb) && Selection(m, fa, fb, preferB)
    ensures Overall(m).checksumsCompared == |Related(m, fa, fb, ChecksumsComparable)|
  {
    forall a, b | ValidOutcome(a) && ValidOutcome(b)
      ensures Add(BOTH, PairCounts(ToResult(a), ToResult(b))).checksumsCompared
           == if ChecksumsComparable(a, b) then 1 else 0
    {
      PairExact(a, b);
    }
    TotalCountsRelated(m, fa, fb, preferB, (c: Counts) => c.checksumsCompared, ChecksumsComparable);
  }

  lemma ErrorCodesExact(m: Entries, fa: map<Key, Line>, fb: map<Key, Line>, preferB: bool)
    requires ValidFirst(fa) && ValidFirst(fb) && Selection(m, fa, fb, preferB)
    ensures Overall(m).errorCodes == |Related(m, fa, fb, ErrorsDiffer)|
  {
    forall a, b | ValidOutcome(a) && ValidOutcome(b)
      ensures Add(BOTH, PairCounts(ToResult(a), ToResult(b))).errorCodes == if ErrorsDiffer(a, b) then 1 else 0
    {
      PairExact(a, b);
    }
    TotalCountsRelated(m, fa, fb, preferB, (c: Counts) => c.errorCodes, ErrorsDiffer);
  }

  /** Failed in A with this label, succeeded in B. */
  predicate FailsOnlyA(a: Outcome, b: Outcome, l: ErrorLabel) { !a.ok && b.ok && LabelOf(ToResult(a)) == l }

  predicate FailsOnlyB(a: Outcome, b: Outcome, l: ErrorLabel) { a.ok && !b.ok && LabelOf(ToResult(b)) == l }

  lemma ErrorsOnlyAExact(m: Entries, fa: map<Key, Line>, fb: map<Key, Line>, preferB: bool, l: ErrorLabel)
    requires ValidFirst(fa) && ValidFirst(fb) && Selection(m, fa, fb, preferB)
    ensures Overall(m).errorsOnlyA[l] == |Related(m, fa, fb, (a, b) => FailsOnlyA(a, b, l))|
  {
    forall a, b | ValidOutcome(a) && ValidOutcome(b)
      ensures Add(BOTH, PairCounts(ToResult(a), ToResult(b))).errorsOnlyA[l] == if FailsOnlyA(a, b, l) then 1 else 0
    {
      PairExact(a, b);
    }
    TotalCountsRelated(m, fa, fb, preferB, (c: Counts) => c.errorsOnlyA[l], (a, b) => FailsOnlyA(a, b, l));
  }

  lemma ErrorsOnlyBExact(m: Entries, fa: map<Key, Line>, fb: map<Key, Line>, preferB: bool, l: ErrorLabel)
    requires ValidFirst(fa) && ValidFirst(fb) && Selection(m, fa, fb, preferB)
    ensures Overall(m).errorsOnlyB[l] == |Related(m, fa, fb, (a, b) => FailsOnlyB(a, b, l))|
  {
    forall a, b | ValidOutcome(a) && ValidOutcome(b)
      ensures Add(BOTH, PairCounts(ToResult(a), ToResult(b))).errorsOnlyB[l] == if FailsOnlyB(a, b, l) then 1 else 0
    {
      PairExact(a, b);
    }
    TotalCountsRelated(m, fa, fb, preferB, (c: Counts) => c.errorsOnlyB[l], (a, b) => FailsOnlyB(a, b, l));
  }

  /** A separator splits a string at its first occurrence in one way only. */
  lemma {:induction false} FirstSeparator(a: string, x: string, b: string, y: string, sep: char)
    requires sep !in a && sep !in b
    ensures a + [sep] + x == b + [sep] + y <==> a == b && x == y
  {
    var s, t := a + [sep] + x, b + [sep] + y;
    if a == "" || b == "" {
      assert s[0] == (if a == "" then sep else a[0]) && t[0] == (if b == "" then sep else b[0]);
      assert (a != "" ==> a[0] in a) && (b != "" ==> b[0] in b);
      assert a == "" ==> s[1..] == x;
      assert b == "" ==> t[1..] == y;
    } else {
      FirstSeparator(a[1..], x, b[1..], y, sep);
      assert s == [a[0]] + (a[1..] + [sep] + x) && t == [b[0]] + (b[1..] + [sep] + y);
      assert s[1..] == a[1..] + [sep] + x && t[1..] == b[1..] + [sep] + y;
      assert a == [a[0]] + a[1..] && b == [b[0]] + b[1..];
    }
  }

  lemma DecimalExact(m: int, n: int)
    ensures Text.Decimal(m) == Text.Decimal(n) <==> m == n
    ensures ' ' !in Text.Decimal(m)
  {
    var a, b: nat := if m < 0 then -m else m, if n < 0 then -n else n;
    Text.ItoaInjective(a, b);
    Text.ItoaDigits(a);
    Text.ItoaDigits(b);
    if m < 0 && n < 0 {
      assert Text.Decimal(m)[1..] == Text.Itoa(a) && Text.Decimal(n)[1..] == Text.Itoa(b);
    } else {
      assert Text.Itoa(a)[0] != '-' && Text.Itoa(b)[0] != '-';
    }
  }

  /** Errors with a code and a name are counted together exactly when they agree in both. */
  lemma LabelExact(a: Compact, b: Compact)
    requires a.errCode != 0 && b.errCode != 0 && a.errName != "" && b.errName != ""
    ensures LabelOf(a) == LabelOf(b) <==> a.errCode == b.errCode && a.errName == b.errName
  {
    DecimalExact(a.errCode, b.errCode);
    DecimalExact(b.errCode, a.errCode);
    FirstSeparator(Text.Decimal(a.errCode), a.errName, Text.Decimal(b.errCode), b.errName, ' ');
  }

  /** Successful in both files, and in A this fast. */
  predicate TookInA(a: Outcome, b: Outcome, us: int) { BothOk(a, b) && a.latency == us }

  predicate TookInB(a: Outcome, b: Outcome, us: int) { BothOk(a, b) && b.latency == us }

  lemma LatenciesExact(m: Entries, fa: map<Key, Line>, fb: map<Key, Line>, preferB: bool, us: int)
    requires ValidFirst(fa) && ValidFirst(fb) && Selection(m, fa, fb, preferB)
    ensures Overall(m).latA[us] == |Related(m, fa, fb, (a, b) => TookInA(a, b, us))|
    ensures Overall(m).latB[us] == |Related(m, fa, fb, (a, b) => TookInB(a, b, us))|
  {
    forall a, b | ValidOutcome(a) && ValidOutcome(b)
      ensures Add(BOTH, PairCounts(ToResult(a), ToResult(b))).latA[us] == if TookInA(a, b, us) then 1 else 0
      ensures Add(BOTH, PairCounts(ToResult(a), ToResult(b))).latB[us] == if TookInB(a, b, us) then 1 else 0
    {
      PairExact(a, b);
    }
    TotalCountsRelated(m, fa, fb, preferB, (c: Counts) => c.latA[us], (a, b) => TookInA(a, b, us));
    TotalCountsRelated(m, fa, fb, preferB, (c: Counts) => c.latB[us], (a, b) => TookInB(a, b, us));
  }

  // ------------------------------------------------------------- what is listed

  /** The line whose number, iteration and worker a difference shows: that of A if A ran it. */
  function Identity(k: Key, fa: map<Key, Line>, fb: map<Key, Line>): Line
    requires k in fa || k in fb
  {
    if k in fa then fa[k] else fb[k]
  }

  /** An outcome as it is shown: all recorded counts, and the code's low 32 bits. */
  predicate Shows(shown: Outcome, o: Outcome)
  {
    && shown.ok == o.ok && shown.latency == o.latency && shown.errorName == o.errorName
    && SameInt32(shown.errorCode, o.errorCode) && shown.counts == o.counts && shown.transaction == o.transaction
    && (IsChecksum(o.checksum) ==> SameChecksum(shown.checksum, o.checksum))
    && (o.checksum == "" ==> shown.checksum == "")
  }

  lemma ShownDigits(s: string)
    requires IsChecksum(s)
    ensures ToSum(s).SumOk? && forall i :: 0 <= i < |ToSum(s).nibbles| ==> ToSum(s).nibbles[i] < 16
    ensures SameChecksum(HexEncode(ToSum(s).nibbles), s)
  {
    ChecksumRead(s);
    forall i | 0 <= i < 64
      ensures LowerDigit(HexDigit(Nibble(s[i]).value)) == LowerDigit(s[i])
    {
      DigitExact(s[i]);
    }
  }

  lemma ShownExact(o: Outcome)
    requires ValidOutcome(o)
    ensures ValidResult(ToResult(o)) && Shows(ToOutcome(ToResult(o)), o)
  {
    OutcomeRoundTrip(o);
    assert Int32(Int32(o.errorCode)) == Int32(o.errorCode);
    Int32Exact(Int32(o.errorCode), o.errorCode);
    if IsChecksum(o.checksum) {
      ShownDigits(o.checksum);
    }
  }

  /** Which operations are listed, said of the lines. */
  ghost predicate ListedBecause(k: Key, fa: map<Key, Line>, fb: map<Key, Line>)
    requires ValidFirst(fa) && ValidFirst(fb)
  {
    if k in fa && k in fb then OutcomesDiffer(fa[k].outcome.value, fb[k].outcome.value) else k in fa || k in fb
  }

  /**
   An operation is a difference exactly when one file alone ran it or its recorded outcomes
   differ. What is listed is A's identity if A ran it, the outcome of each file that ran it,
   the kind of a missing one, and for an operation of both files A's shape unless B's is
   preferred.
   */
  lemma ListedExact(k: Key, fa: map<Key, Line>, fb: map<Key, Line>, preferB: bool)
    requires ValidFirst(fa) && ValidFirst(fb)
    ensures k in SpecDiffs(fa, fb, preferB) <==> ListedBecause(k, fa, fb)
    ensures k in SpecDiffs(fa, fb, preferB) ==>
              var d, id := SpecDiffs(fa, fb, preferB)[k], Identity(k, fa, fb);
              && d.num == id.num && d.workerSeq == id.workerSeq
              && SameInt32(d.iteration, id.iteration) && SameInt32(d.worker, id.worker)
              && (d.a.Some? <==> k in fa) && (k in fa ==> Shows(d.a.value, fa[k].outcome.value))
              && (d.b.Some? <==> k in fb) && (k in fb ==> Shows(d.b.value, fb[k].outcome.value))
              && (MissingInA in d.kinds <==> k !in fa) && (MissingInB in d.kinds <==> k !in fb)
              && d.shape == if k in fb && (preferB || k !in fa) then fb[k].shape else fa[k].shape
  {
    if k in fa {
      ShownExact(fa[k].outcome.value);
    }
    if k in fb {
      ShownExact(fb[k].outcome.value);
    }
    if k in fa && k in fb {
      KindsExact(fa[k].outcome.value, fb[k].outcome.value);
    }
    if k in fa || k in fb {
      var id := Identity(k, fa, fb);
      Int32Exact(Int32(id.iteration), id.iteration);
      Int32Exact(Int32(id.worker), id.worker);
    }
  }

  // ---------------------------------------------------------------- keys of lines

  function IterationOf(l: Line): int { if l.iteration < 1 then 1 else l.iteration }

  /** Two lines are of one operation exactly when they agree in sequence number, or in iteration, worker and place. */
  lemma KeyExact(l: Line, m: Line, bySeq: bool)
    ensures KeyOf(l, bySeq) == KeyOf(m, bySeq) <==>
              if bySeq then l.num == m.num
              else
                SameInt32(IterationOf(l), IterationOf(m)) && SameInt32(l.worker, m.worker)
                && l.workerSeq == m.workerSeq
  {
    Int32Exact(IterationOf(l), IterationOf(m));
    Int32Exact(l.worker, m.worker);
  }

  /** The list is in the order of sequence numbers, or of iterations, workers and places. */
  lemma OrderExact(l: Line, m: Line, bySeq: bool)
    ensures Less(KeyOf(l, bySeq), KeyOf(m, bySeq)) <==>
              if bySeq then l.num < m.num
              else
                var i, j, w, v := Int32(IterationOf(l)), Int32(IterationOf(m)), Int32(l.worker), Int32(m.worker);
                i < j || (i == j && (w < v || (w == v && l.workerSeq < m.workerSeq)))
  {
  }

  /** What is kept for a key is the first line with an outcome that has it. */
  lemma {:induction false} FirstLineKept(lines: seq<Line>, bySeq: bool, k: Key) returns (i: nat)
    requires k in FirstOf(lines, bySeq)
    ensures i < |lines| && lines[i] == FirstOf(lines, bySeq)[k] && lines[i].outcome.Some? && KeyOf(lines[i], bySeq) == k
    ensures forall j :: 0 <= j < i && lines[j].outcome.Some? ==> KeyOf(lines[j], bySeq) != k
  {
    var n := |lines| - 1;
    if k in FirstOf(lines[..n], bySeq) {
      i := FirstLineKept(lines[..n], bySeq, k);
      assert forall j :: 0 <= j < i ==> lines[..n][j] == lines[j];
    } else {
      i := n;
      forall j | 0 <= j < n && lines[j].outcome.Some?
        ensures KeyOf(lines[j], bySeq) != k
      {
        assert lines[..n][j] == lines[j];
        FirstOfKeys(lines[..n], bySeq, k);
      }
    }
  }
}
