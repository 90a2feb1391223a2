/**
 The operation mix: normalizePercentages (internal/config/config.go) and selectOperation
 (internal/mongo/runner.go). The seven percentages are kept in the order in which an
 operation is selected; scaling is exact.
 */
module OperationMix {
  import opened Wrappers

  // find, update, delete, insert, insertMany, aggregate, transaction
  const OPERATIONS: nat := 7
  const FIND: nat := 0
  const UPDATE: nat := 1
  const DELETE: nat := 2
  const TRANSACTION: nat := 6

  predicate Percents(p: seq<int>) { |p| == OPERATIONS && forall i :: 0 <= i < OPERATIONS ==> p[i] >= 0 }

  /** The sum of the first n. */
  function Prefix(p: seq<int>, n: nat): int
    requires n <= |p|
  {
    if n == 0 then 0 else Prefix(p, n - 1) + p[n - 1]
  }

  function Total(p: seq<int>): int { Prefix(p, |p|) }

  /** The sum of those that are pinned, or of those that are not. */
  function Part(p: seq<int>, pinned: seq<bool>, which: bool, n: nat): int
    requires n <= |p| == |pinned|
  {
    if n == 0 then 0 else Part(p, pinned, which, n - 1) + if pinned[n - 1] == which then p[n - 1] else 0
  }

  /** Those that are pinned, or not, are multiplied by num / den and truncated. */
  function Scaled(p: seq<int>, pinned: seq<bool>, which: bool, num: nat, den: nat): (r: seq<int>)
    requires |p| == |pinned| && den > 0
    ensures |r| == |p| && forall i :: 0 <= i < |r| ==> r[i] == if pinned[i] == which then p[i] * num / den else p[i]
  {
    seq(|p|, i requires 0 <= i < |p| => if pinned[i] == which then p[i] * num / den else p[i])
  }

  function Cleared(p: seq<int>, pinned: seq<bool>): (r: seq<int>)
    requires |p| == |pinned|
    ensures |r| == |p| && forall i :: 0 <= i < |r| ==> r[i] == if pinned[i] then p[i] else 0
  {
    seq(|p|, i requires 0 <= i < |p| => if pinned[i] then p[i] else 0)
  }

  // ---------------------------------------------------------------- sums of parts

  lemma {:induction false} PartsSum(p: seq<int>, pinned: seq<bool>, n: nat)
    requires n <= |p| == |pinned|
    ensures Part(p, pinned, true, n) + Part(p, pinned, false, n) == Prefix(p, n)
  {
    if n > 0 {
      PartsSum(p, pinned, n - 1);
    }
  }

  lemma {:induction false} PartNonNegative(p: seq<int>, pinned: seq<bool>, which: bool, n: nat)
    requires n <= |p| == |pinned| && forall i :: 0 <= i < |p| ==> p[i] >= 0
    ensures Part(p, pinned, which, n) >= 0
  {
    if n > 0 {
      PartNonNegative(p, pinned, which, n - 1);
    }
  }

  /** Values that agree where they count have the same sum. */
  lemma {:induction false} SamePart(p: seq<int>, q: seq<int>, pinned: seq<bool>, which: bool, n: nat)
    requires n <= |p| == |q| == |pinned| && forall i :: 0 <= i < n && pinned[i] == which ==> p[i] == q[i]
    ensures Part(p, pinned, which, n) == Part(q, pinned, which, n)
  {
    if n > 0 {
      SamePart(p, q, pinned, which, n - 1);
    }
  }

  lemma {:induction false} NoPart(p: seq<int>, pinned: seq<bool>, which: bool, n: nat)
    requires n <= |p| == |pinned| && forall i :: 0 <= i < n && pinned[i] == which ==> p[i] == 0
    ensures Part(p, pinned, which, n) == 0
  {
    if n > 0 {
      NoPart(p, pinned, which, n - 1);
    }
  }

  /** Truncated shares add up to no more than the exact share of the sum. */
  lemma {:induction false} SharesBounded(p: seq<int>, pinned: seq<bool>, which: bool, num: nat, den: nat, n: nat)
    requires n <= |p| == |pinned| && den > 0 && forall i :: 0 <= i < |p| ==> p[i] >= 0
    ensures 0 <= Part(Scaled(p, pinned, which, num, den), pinned, which, n) * den <= Part(p, pinned, which, n) * num
  {
    if n > 0 {
      var scaled := Scaled(p, pinned, which, num, den);
      SharesBounded(p, pinned, which, num, den, n - 1);
      if pinned[n - 1] == which {
        OneShare(p[n - 1], num, den);
        MoreShares(Part(scaled, pinned, which, n - 1), scaled[n - 1], Part(p, pinned, which, n - 1), p[n - 1], num,
          den);
      }
    }
  }

  lemma OneShare(x: nat, num: nat, den: nat)
    requires den > 0
    ensures x * num / den >= 0 && x * num / den * den <= x * num
  {
    Quotient(x * num, den);
  }

  lemma Quotient(x: nat, den: nat)
    requires den > 0
    ensures x / den >= 0 && x / den * den <= x
  {
    assert x == den * (x / den) + x % den;
  }

  lemma MoreShares(a: int, x: int, b: int, y: int, num: nat, den: nat)
    requires 0 <= a * den <= b * num && 0 <= x && x * den <= y * num
    ensures 0 <= (a + x) * den <= (b + y) * num
  {
    assert (a + x) * den == a * den + x * den && (b + y) * num == b * num + y * num;
    Product(x, den);
  }

  lemma Product(x: nat, y: nat)
    ensures x * y >= 0
  {
  }

  lemma ShareOfAll(share: int, num: nat, den: nat)
    requires den > 0 && share * den <= den * num
    ensures share <= num
  {
    var excess := share - num;
    assert excess * den == share * den - den * num;
  }

  // ------------------------------------------------------------ normalizePercentages

  function Adjusted(p: seq<int>): (r: seq<int>)
    requires |p| == OPERATIONS
    ensures |r| == OPERATIONS
  {
    p[FIND := p[FIND] + (100 - Total(p))]
  }

  /** The percentages before the rounding rest goes to find. */
  function Shares(p: seq<int>, pinned: seq<bool>): (r: seq<int>)
    requires |p| == |pinned| == OPERATIONS
    ensures |r| == OPERATIONS
  {
    var fixed, free := Part(p, pinned, true, OPERATIONS), Part(p, pinned, false, OPERATIONS);
    if fixed > 100 then Scaled(Cleared(p, pinned), pinned, true, 100, fixed)
    else if fixed == 100 then Cleared(p, pinned)
    else if free > 0 then Scaled(p, pinned, false, 100 - fixed, free)
    else p[FIND := p[FIND] + (100 - fixed)]
  }

  function WithoutTransactions(p: seq<int>, useTransactions: bool): (r: seq<int>)
    requires |p| == OPERATIONS
    ensures |r| == OPERATIONS
  {
    if useTransactions then p else p[TRANSACTION := 0]
  }

  function Unpinned(pinned: seq<bool>, useTransactions: bool): (r: seq<bool>)
    requires |pinned| == OPERATIONS
    ensures |r| == OPERATIONS
  {
    if useTransactions then pinned else pinned[TRANSACTION := false]
  }

  function Normalized(p: seq<int>, pinned: seq<bool>, useTransactions: bool): (r: seq<int>)
    requires |p| == |pinned| == OPERATIONS
    ensures |r| == OPERATIONS
  {
    Adjusted(Shares(WithoutTransactions(p, useTransactions), Unpinned(pinned, useTransactions)))
  }

  class Config {
    const useTransactions: bool
    var percent: seq<int>

    constructor (percent: seq<int>, useTransactions: bool)
      ensures this.percent == percent && this.useTransactions == useTransactions
    {
      this.percent, this.useTransactions := percent, useTransactions;
    }

    method SumOf(pinned: seq<bool>, which: bool) returns (sum: int)
      requires |percent| == |pinned| == OPERATIONS
      ensures sum == Part(percent, pinned, which, OPERATIONS)
    {
      sum := 0;
      for i := 0 to OPERATIONS
        invariant sum == Part(percent, pinned, which, i)
      {
        if pinned[i] == which {
          sum := sum + percent[i];
        }
      }
    }

    method Scale(pinned: seq<bool>, which: bool, num: nat, den: nat)
      requires |percent| == |pinned| == OPERATIONS && den > 0
      modifies this
      ensures percent == Scaled(old(percent), pinned, which, num, den)
    {
      for i := 0 to OPERATIONS
        invariant |percent| == OPERATIONS
        invariant forall j :: 0 <= j < i ==> percent[j] == Scaled(old(percent), pinned, which, num, den)[j]
        invariant forall j :: i <= j < OPERATIONS ==> percent[j] == old(percent)[j]
      {
        if pinned[i] == which {
          percent := percent[i := percent[i] * num / den];
        }
      }
    }

    method Clear(pinned: seq<bool>)
      requires |percent| == |pinned| == OPERATIONS
      modifies this
      ensures percent == Cleared(old(percent), pinned)
    {
      for i := 0 to OPERATIONS
        invariant |percent| == OPERATIONS
        invariant forall j :: 0 <= j < i ==> percent[j] == Cleared(old(percent), pinned)[j]
        invariant forall j :: i <= j < OPERATIONS ==> percent[j] == old(percent)[j]
      {
        if !pinned[i] {
          percent := percent[i := 0];
        }
      }
    }

    method Normalize(pinnedFields: seq<bool>)
      requires Percents(percent) && |pinnedFields| == OPERATIONS
      modifies this
      ensures percent == Normalized(old(percent), pinnedFields, useTransactions)
      ensures Percents(percent) && Total(percent) == 100 && (!useTransactions ==> percent[TRANSACTION] == 0)
    {
      NormalizedIsMix(percent, pinnedFields, useTransactions);
      var pinned := pinnedFields;
      if !useTransactions {
        percent, pinned := percent[TRANSACTION := 0], pinned[TRANSACTION := false];
      }
      var pinnedTotal := SumOf(pinned, true);
      if pinnedTotal >= 100 {
        Clear(pinned);
        if pinnedTotal > 100 {
          Scale(pinned, true, 100, pinnedTotal);
        }
      } else {
        var remaining, unpinnedTotal := 100 - pinnedTotal, 0;
        unpinnedTotal := SumOf(pinned, false);
        if unpinnedTotal > 0 {
          PartNonNegative(percent, pinned, true, OPERATIONS);
          Scale(pinned, false, remaining, unpinnedTotal);
        } else {
          percent := percent[FIND := percent[FIND] + remaining];
        }
      }
      var finalTotal := 0;
      for i := 0 to OPERATIONS
        invariant finalTotal == Prefix(percent, i)
      {
        finalTotal := finalTotal + percent[i];
      }
      if finalTotal != 100 {
        percent := percent[FIND := percent[FIND] + (100 - finalTotal)];
      }
    }
  }

  lemma {:induction false} PrefixUpdate(p: seq<int>, i: nat, x: int, n: nat)
    requires i < |p| && n <= |p|
    ensures Prefix(p[i := x], n) == Prefix(p, n) + if i < n then x - p[i] else 0
  {
    if n > 0 {
      PrefixUpdate(p, i, x, n - 1);
    }
  }

  /** Before the rest is added, the shares are non-negative and add up to at most 100. */
  lemma SharesFit(p: seq<int>, pinned: seq<bool>)
    requires Percents(p) && |pinned| == OPERATIONS
    ensures Percents(Shares(p, pinned)) && Total(Shares(p, pinned)) <= 100
  {
    var n := OPERATIONS;
    var fixed, free, r := Part(p, pinned, true, n), Part(p, pinned, false, n), Shares(p, pinned);
    PartNonNegative(p, pinned, true, n);
    PartNonNegative(p, pinned, false, n);
    PartsSum(r, pinned, n);
    if fixed >= 100 {
      var c := Cleared(p, pinned);
      SamePart(p, c, pinned, true, n);
      NoPart(r, pinned, false, n);
      if fixed > 100 {
        SharesBounded(c, pinned, true, 100, fixed, n);
        ShareOfAll(Part(r, pinned, true, n), 100, fixed);
        ScaledNonNegative(c, pinned, true, 100, fixed);
      }
    } else if free > 0 {
      SamePart(p, r, pinned, true, n);
      SharesBounded(p, pinned, false, 100 - fixed, free, n);
      ShareOfAll(Part(r, pinned, false, n), 100 - fixed, free);
      ScaledNonNegative(p, pinned, false, 100 - fixed, free);
    } else {
      PartsSum(p, pinned, n);
      PrefixUpdate(p, FIND, p[FIND] + (100 - fixed), n);
    }
  }

  lemma ScaledNonNegative(p: seq<int>, pinned: seq<bool>, which: bool, num: nat, den: nat)
    requires Percents(p) && |pinned| == OPERATIONS && den > 0
    ensures Percents(Scaled(p, pinned, which, num, den))
  {
    forall i | 0 <= i < OPERATIONS
      ensures Scaled(p, pinned, which, num, den)[i] >= 0
    {
      OneShare(p[i], num, den);
    }
  }

  /** Seven non-negative percentages that add up to 100, without transactions when they are off. */
  lemma NormalizedIsMix(p: seq<int>, pinned: seq<bool>, useTransactions: bool)
    requires Percents(p) && |pinned| == OPERATIONS
    ensures var r := Normalized(p, pinned, useTransactions);
            Percents(r) && Total(r) == 100 && (!useTransactions ==> r[TRANSACTION] == 0)
  {
    var q, u := WithoutTransactions(p, useTransactions), Unpinned(pinned, useTransactions);
    SharesFit(q, u);
    var s := Shares(q, u);
    PrefixUpdate(s, FIND, s[FIND] + (100 - Total(s)), OPERATIONS);
  }

  /** Pinned percentages of at most 100 together are kept; only find may still get the rest. */
  lemma PinnedIsKept(p: seq<int>, pinned: seq<bool>, useTransactions: bool, i: nat)
    requires Percents(p) && |pinned| == OPERATIONS && i < OPERATIONS && i != FIND
    requires Unpinned(pinned, useTransactions)[i]
    requires Part(WithoutTransactions(p, useTransactions), Unpinned(pinned, useTransactions), true, OPERATIONS) <= 100
    ensures Normalized(p, pinned, useTransactions)[i] == p[i]
  {
  }

  lemma ShareExact(x: nat, num: nat, den: nat)
    requires den > 0
    ensures var s := x * num / den; s * den <= x * num < (s + 1) * den
  {
    QuotientExact(x * num, den);
  }

  lemma QuotientExact(x: nat, den: nat)
    requires den > 0
    ensures var s := x / den; s * den <= x < (s + 1) * den
  {
    assert x == den * (x / den) + x % den;
  }

  /** The percentage that is r of the given x, of which all together are whole, rounded down from its share of num. */
  predicate ShareOf(r: int, x: int, num: int, whole: int) { r * whole <= x * num < (r + 1) * whole }

  /**
   Every percentage but find's is the share it was given: pinned ones of more than 100
   together shrink in proportion and leave nothing to the others; of less, the others get
   the remainder in proportion.
   */
  lemma SharesProportional(p: seq<int>, pinned: seq<bool>, useTransactions: bool, i: nat)
    requires Percents(p) && |pinned| == OPERATIONS && i < OPERATIONS && i != FIND
    ensures var q, u := WithoutTransactions(p, useTransactions), Unpinned(pinned, useTransactions);
            var r, fixed := Normalized(p, pinned, useTransactions)[i], Part(q, u, true, OPERATIONS);
            var free := Total(q) - fixed;
            && (u[i] && fixed > 100 ==> ShareOf(r, q[i], 100, fixed))
            && (u[i] && fixed <= 100 ==> r == q[i])
            && (!u[i] && (fixed >= 100 || free == 0) ==> r == 0)
            && (!u[i] && fixed < 100 && free > 0 ==> ShareOf(r, q[i], 100 - fixed, free))
  {
    var q, u := WithoutTransactions(p, useTransactions), Unpinned(pinned, useTransactions);
    var fixed, free := Part(q, u, true, OPERATIONS), Part(q, u, false, OPERATIONS);
    PartsSum(q, u, OPERATIONS);
    PartNonNegative(q, u, true, OPERATIONS);
    PartNonNegative(q, u, false, OPERATIONS);
    if fixed > 100 {
      ShareExact(q[i], 100, fixed);
    } else if fixed < 100 {
      if free > 0 {
        ShareExact(q[i], 100 - fixed, free);
      } else if !u[i] {
        ZeroPart(q, u, false, OPERATIONS, i);
      }
    }
  }

  /** What adds up to nothing is nothing. */
  lemma {:induction false} ZeroPart(p: seq<int>, pinned: seq<bool>, which: bool, n: nat, i: nat)
    requires i < n <= |p| == |pinned| && pinned[i] == which && forall j :: 0 <= j < |p| ==> p[j] >= 0
    requires Part(p, pinned, which, n) == 0
    ensures p[i] == 0
  {
    PartNonNegative(p, pinned, which, n - 1);
    if i < n - 1 {
      ZeroPart(p, pinned, which, n - 1, i);
    }
  }

  lemma ScaledLess(a: int, b: int, whole: int)
    requires whole > 0
    ensures a < b ==> a * whole < b * whole
  {
    if a < b {
      Product(b - a - 1, whole);
      assert b * whole == a * whole + whole + (b - a - 1) * whole;
    }
  }

  lemma WholeShare(r: int, x: int, whole: int)
    requires whole > 0 && ShareOf(r, x, whole, whole)
    ensures r == x
  {
    ScaledLess(x, r, whole);
    ScaledLess(r + 1, x, whole);
  }

  lemma OtherKept(p: seq<int>, pinned: seq<bool>, useTransactions: bool, i: nat)
    requires Percents(p) && |pinned| == OPERATIONS && i < OPERATIONS && i != FIND
    requires Total(WithoutTransactions(p, useTransactions)) == 100
    ensures Normalized(p, pinned, useTransactions)[i] == WithoutTransactions(p, useTransactions)[i]
  {
    var q, u := WithoutTransactions(p, useTransactions), Unpinned(pinned, useTransactions);
    var r, fixed := Normalized(p, pinned, useTransactions)[i], Part(q, u, true, OPERATIONS);
    SharesProportional(p, pinned, useTransactions, i);
    PartsSum(q, u, OPERATIONS);
    PartNonNegative(q, u, false, OPERATIONS);
    if !u[i] {
      if fixed == 100 {
        ZeroPart(q, u, false, OPERATIONS, i);
      } else {
        WholeShare(r, q[i], 100 - fixed);
      }
    }
  }

  lemma {:induction false} SameButOne(p: seq<int>, q: seq<int>, n: nat)
    requires 0 < n <= |p| == |q| && forall i :: 0 < i < |p| ==> p[i] == q[i]
    ensures Prefix(p, n) - p[0] == Prefix(q, n) - q[0]
  {
    if n > 1 {
      SameButOne(p, q, n - 1);
    }
  }

  /** A mix that already adds up to 100 is kept, whatever is pinned. */
  lemma CompleteIsKept(p: seq<int>, pinned: seq<bool>, useTransactions: bool)
    requires Percents(p) && |pinned| == OPERATIONS && Total(WithoutTransactions(p, useTransactions)) == 100
    ensures Normalized(p, pinned, useTransactions) == WithoutTransactions(p, useTransactions)
  {
    var q, r := WithoutTransactions(p, useTransactions), Normalized(p, pinned, useTransactions);
    forall i | 0 < i < OPERATIONS
      ensures r[i] == q[i]
    {
      OtherKept(p, pinned, useTransactions, i);
    }
    NormalizedIsMix(p, pinned, useTransactions);
    SameButOne(r, q, OPERATIONS);
    assert r[FIND] == q[FIND];
  }

  /** Normalizing again, whatever is pinned then, changes nothing. */
  lemma NormalizedTwice(p: seq<int>, pinned: seq<bool>, again: seq<bool>, useTransactions: bool)
    requires Percents(p) && |pinned| == |again| == OPERATIONS
    ensures var r := Normalized(p, pinned, useTransactions); Normalized(r, again, useTransactions) == r
  {
    NormalizedIsMix(p, pinned, useTransactions);
    var r := Normalized(p, pinned, useTransactions);
    assert WithoutTransactions(r, useTransactions) == r;
    CompleteIsKept(r, again, useTransactions);
  }

  // -------------------------------------------------------------- selectOperation

  /** The operation the first draw selects. */
  function Selected(p: seq<int>, r: int, n: nat): Option<nat>
    requires n <= |p|
    decreases |p| - n
  {
    if n == |p| then None
    else if r < Prefix(p, n + 1) then Some(n)
    else Selected(p, r, n + 1)
  }

  datatype Operation = Plain(op: nat) | UpdateOne | UpdateMany | DeleteOne | DeleteMany

  /** An update or delete is a single one in 90 of 100 second draws. */
  function OperationOf(op: nat, second: nat): Operation
  {
    if op == UPDATE then (if second < 90 then UpdateOne else UpdateMany)
    else if op == DELETE then (if second < 90 then DeleteOne else DeleteMany)
    else Plain(op)
  }

  method SelectOperation(p: Option<seq<int>>, first: nat, second: nat) returns (op: Operation)
    requires p.Some? ==> |p.value| == OPERATIONS
    ensures op == if p.Some? && Selected(p.value, first, 0).Some?
        then OperationOf(Selected(p.value, first, 0).value, second) else Plain(FIND)
  {
    if p.None? {
      return Plain(FIND);
    }
    var cum := 0;
    for i := 0 to OPERATIONS
      invariant cum == Prefix(p.value, i) && Selected(p.value, first, 0) == Selected(p.value, first, i)
    {
      cum := cum + p.value[i];
      if first < cum {
        return OperationOf(i, second);
      }
    }
    return Plain(FIND);
  }

  lemma {:induction false} PrefixMonotone(p: seq<int>, m: nat, n: nat)
    requires m <= n <= |p| && forall i :: 0 <= i < |p| ==> p[i] >= 0
    ensures Prefix(p, m) <= Prefix(p, n)
  {
    if m < n {
      PrefixMonotone(p, m, n - 1);
    }
  }

  /** An operation is selected by the draws between its prefix sums. */
  lemma {:induction false} SelectedRange(p: seq<int>, r: int, n: nat, op: nat)
    requires n <= op < |p| && (forall i :: 0 <= i < |p| ==> p[i] >= 0) && Prefix(p, n) <= r
    ensures Selected(p, r, n) == Some(op) <==> Prefix(p, op) <= r < Prefix(p, op + 1)
    decreases |p| - n
  {
    if n == op {
      if r >= Prefix(p, n + 1) {
        SelectedLater(p, r, n + 1);
      }
    } else {
      PrefixMonotone(p, n + 1, op);
      if r >= Prefix(p, n + 1) {
        SelectedRange(p, r, n + 1, op);
      }
    }
  }

  lemma {:induction false} SelectedLater(p: seq<int>, r: int, n: nat)
    requires n <= |p|
    ensures Selected(p, r, n).Some? ==> Selected(p, r, n).value >= n
    decreases |p| - n
  {
    if n < |p| && r >= Prefix(p, n + 1) {
      SelectedLater(p, r, n + 1);
    }
  }

  /** The draws from a up to but not including b. */
  function Between(a: nat, b: nat): (s: set<nat>)
    requires a <= b
    ensures |s| == b - a && forall r: nat :: r in s <==> a <= r < b
    decreases b - a
  {
    if a == b then {} else Between(a, b - 1) + {b - 1}
  }

  /** The first draws below a limit that select an operation. */
  function Draws(p: seq<int>, op: nat, limit: nat): set<nat> {
    set r | r in Between(0, limit) && Selected(p, r, 0) == Some(op)
  }

  lemma CountUpTo(n: nat, s: set<nat>)
    requires forall d: nat :: d in s <==> d < n
    ensures |s| == n
  {
    assert s == Between(0, n);
  }

  /** Of 100 second draws 90 make an update or delete a single one, and the others one of many. */
  lemma SingleDraws()
    ensures |set d: nat | d < 100 && OperationOf(UPDATE, d) == UpdateOne| == 90
    ensures |set d: nat | d < 100 && OperationOf(DELETE, d) == DeleteOne| == 90
    ensures forall d: nat :: OperationOf(UPDATE, d) == UpdateOne || OperationOf(UPDATE, d) == UpdateMany
    ensures forall d: nat :: OperationOf(DELETE, d) == DeleteOne || OperationOf(DELETE, d) == DeleteMany
  {
    CountUpTo(90, set d: nat | d < 100 && OperationOf(UPDATE, d) == UpdateOne);
    CountUpTo(90, set d: nat | d < 100 && OperationOf(DELETE, d) == DeleteOne);
  }

  lemma DrawnBetween(p: seq<int>, op: nat, total: nat, r: nat)
    requires Percents(p) && Total(p) == total && op < OPERATIONS
    ensures r in Draws(p, op, total) <==> Prefix(p, op) <= r < Prefix(p, op + 1)
  {
    PrefixMonotone(p, op + 1, OPERATIONS);
    SelectedRange(p, r, 0, op);
  }

  /** Of as many first draws as the percentages add up to, exactly p[op] select an operation. */
  lemma DrawsOfTotal(p: seq<int>, op: nat, total: nat)
    requires Percents(p) && Total(p) == total && op < OPERATIONS
    ensures |Draws(p, op, total)| == p[op]
  {
    PrefixMonotone(p, 0, op);
    PrefixMonotone(p, op, op + 1);
    var chosen := Between(Prefix(p, op), Prefix(p, op + 1));
    forall r: nat
      ensures r in Draws(p, op, total) <==> r in chosen
    {
      DrawnBetween(p, op, total, r);
    }
    assert Draws(p, op, total) == chosen;
  }

  /** With a normalized mix exactly percentages[op] of the 100 first draws select an operation. */
  lemma DrawsPerOperation(given: seq<int>, pinned: seq<bool>, useTransactions: bool, op: nat)
    requires Percents(given) && |pinned| == OPERATIONS && op < OPERATIONS
    ensures var p := Normalized(given, pinned, useTransactions);
            |Draws(p, op, 100)| == p[op]
  {
    NormalizedIsMix(given, pinned, useTransactions);
    DrawsOfTotal(Normalized(given, pinned, useTransactions), op, 100);
  }

  lemma {:induction false} SelectedNone(p: seq<int>, r: int, n: nat)
    requires n <= |p| && forall i :: 0 <= i < |p| ==> p[i] >= 0
    requires n == |p| ==> r >= Total(p)
    ensures Selected(p, r, n).None? <==> r >= Total(p)
    decreases |p| - n
  {
    if n < |p| {
      PrefixMonotone(p, n + 1, |p|);
      if r >= Prefix(p, n + 1) {
        SelectedNone(p, r, n + 1);
      }
    }
  }

  /** The final fallback is out of reach of all 100 draws exactly when the percentages add up to at least 100. */
  lemma FallbackUnreachable(p: seq<int>)
    requires Percents(p)
    ensures (forall r: nat :: r < 100 ==> Selected(p, r, 0).Some?) <==> Total(p) >= 100
  {
    if Total(p) < 100 {
      var last: nat := 99;
      SelectedNone(p, last, 0);
    } else {
      forall r: nat | r < 100
        ensures Selected(p, r, 0).Some?
      {
        SelectedNone(p, r, 0);
      }
    }
  }
}
