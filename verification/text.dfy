/** The few string operations of Go's standard library that the models need. */
module Text {
  /** unicode.IsSpace */
  predicate IsSpace(c: char)
  {
    var n := c as int;
    9 <= n <= 13 || n == 32 || n == 0x85 || n == 0xA0 || n == 0x1680 || 0x2000 <= n <= 0x200A
    || n == 0x2028 || n == 0x2029 || n == 0x202F || n == 0x205F || n == 0x3000
  }

  function TrimLeft(s: string): string { if s != [] && IsSpace(s[0]) then TrimLeft(s[1..]) else s }

  function TrimRight(s: string): string { if s != [] && IsSpace(s[|s| - 1]) then TrimRight(s[..|s| - 1]) else s }

  /** strings.TrimSpace */
  function TrimSpace(s: string): string { TrimRight(TrimLeft(s)) }

  predicate AllSpace(s: string) { forall i :: 0 <= i < |s| ==> IsSpace(s[i]) }

  lemma {:induction false} TrimLeftExact(s: string) returns (before: string)
    ensures s == before + TrimLeft(s) && AllSpace(before) && (TrimLeft(s) != "" ==> !IsSpace(TrimLeft(s)[0]))
  {
    if s != "" && IsSpace(s[0]) {
      before := TrimLeftExact(s[1..]);
      before := [s[0]] + before;
      assert s == [s[0]] + s[1..];
    } else {
      before := "";
    }
  }

  lemma {:induction false} TrimRightExact(s: string) returns (after: string)
    ensures s == TrimRight(s) + after && AllSpace(after)
    ensures TrimRight(s) != "" ==> !IsSpace(TrimRight(s)[|TrimRight(s)| - 1]) && TrimRight(s)[0] == s[0]
  {
    if s != "" && IsSpace(s[|s| - 1]) {
      after := TrimRightExact(s[..|s| - 1]);
      after := after + [s[|s| - 1]];
      assert s == s[..|s| - 1] + [s[|s| - 1]];
    } else {
      after := "";
    }
  }

  /** Trimming takes the spaces off both ends, and nothing else. */
  lemma TrimExact(s: string) returns (before: string, after: string)
    ensures s == before + TrimSpace(s) + after && AllSpace(before) && AllSpace(after)
    ensures TrimSpace(s) != "" ==> !IsSpace(TrimSpace(s)[0]) && !IsSpace(TrimSpace(s)[|TrimSpace(s)| - 1])
  {
    before := TrimLeftExact(s);
    after := TrimRightExact(TrimLeft(s));
    assert before + (TrimSpace(s) + after) == before + TrimSpace(s) + after;
  }

  /** Go's string order. */
  predicate StringLe(a: string, b: string)
  {
    a == [] || (b != [] && (a[0] < b[0] || (a[0] == b[0] && StringLe(a[1..], b[1..]))))
  }

  function InsertString(x: string, s: seq<string>): seq<string>
  {
    if s == [] || StringLe(x, s[0]) then [x] + s else [s[0]] + InsertString(x, s[1..])
  }

  /** sort.Strings */
  function SortStrings(s: seq<string>): seq<string> { if s == [] then [] else InsertString(s[0], SortStrings(s[1..])) }

  lemma {:induction false} InsertStringElements(x: string, s: seq<string>)
    ensures multiset(InsertString(x, s)) == multiset(s) + multiset{x}
  {
    if s == [] || StringLe(x, s[0]) {
      assert multiset([x] + s) == multiset{x} + multiset(s);
    } else {
      InsertStringElements(x, s[1..]);
      assert s == [s[0]] + s[1..];
    }
  }

  /** Sorting only rearranges. */
  lemma {:induction false} SortStringsElements(s: seq<string>)
    ensures multiset(SortStrings(s)) == multiset(s) && |SortStrings(s)| == |s|
  {
    if s != [] {
      SortStringsElements(s[1..]);
      InsertStringElements(s[0], SortStrings(s[1..]));
      assert s == [s[0]] + s[1..];
      assert |multiset(SortStrings(s))| == |multiset(s)|;
    }
  }

  lemma {:induction false} StringLeTotal(a: string, b: string)
    ensures StringLe(a, b) || StringLe(b, a)
    ensures StringLe(a, b) && StringLe(b, a) ==> a == b
  {
    if a != [] && b != [] && a[0] == b[0] {
      StringLeTotal(a[1..], b[1..]);
      assert a == [a[0]] + a[1..] && b == [b[0]] + b[1..];
    }
  }

  lemma {:induction false} StringLeTransitive(a: string, b: string, c: string)
    requires StringLe(a, b) && StringLe(b, c)
    ensures StringLe(a, c)
  {
    if a != [] && a[0] == b[0] && b[0] == c[0] {
      StringLeTransitive(a[1..], b[1..], c[1..]);
    }
  }

  /** The order of two insertions does not matter. */
  lemma {:induction false} InsertsCommute(x: string, y: string, s: seq<string>)
    ensures InsertString(x, InsertString(y, s)) == InsertString(y, InsertString(x, s))
  {
    StringLeTotal(x, y);
    if s != [] {
      StringLeTotal(x, s[0]);
      StringLeTotal(y, s[0]);
      InsertsCommute(x, y, s[1..]);
      if StringLe(x, y) && StringLe(y, s[0]) {
        StringLeTransitive(x, y, s[0]);
      }
      if StringLe(y, x) && StringLe(x, s[0]) {
        StringLeTransitive(y, x, s[0]);
      }
    }
  }

  /** Sorting with one element taken out and put back in. */
  lemma {:induction false} SortWithout(s: seq<string>, i: nat)
    requires i < |s|
    ensures SortStrings(s) == InsertString(s[i], SortStrings(s[..i] + s[i + 1..]))
  {
    if i == 0 {
      assert s[..0] + s[1..] == s[1..];
    } else {
      var rest := s[1..];
      SortWithout(rest, i - 1);
      assert rest[..i - 1] + rest[i..] == (s[..i] + s[i + 1..])[1..];
      InsertsCommute(s[0], s[i], SortStrings(rest[..i - 1] + rest[i..]));
    }
  }

  lemma WithoutOne(s: seq<string>, i: nat)
    requires i < |s|
    ensures multiset(s[..i] + s[i + 1..]) == multiset(s) - multiset{s[i]}
  {
    assert s == s[..i] + [s[i]] + s[i + 1..];
  }

  lemma SameRest(a: seq<string>, b: seq<string>, i: nat)
    requires a != [] && multiset(a) == multiset(b) && i < |b| && b[i] == a[0]
    ensures multiset(a[1..]) == multiset(b[..i] + b[i + 1..])
  {
    WithoutOne(a, 0);
    WithoutOne(b, i);
    assert a[..0] + a[0 + 1..] == a[1..];
  }

  /** Lists with the same elements are sorted to the same list. */
  lemma {:induction false} SortedAlike(a: seq<string>, b: seq<string>)
    requires multiset(a) == multiset(b)
    ensures SortStrings(a) == SortStrings(b)
  {
    if a == [] {
      assert |b| == |multiset(b)| == 0;
    } else {
      assert a[0] in multiset(b);
      var i :| 0 <= i < |b| && b[i] == a[0];
      SameRest(a, b, i);
      SortedAlike(a[1..], b[..i] + b[i + 1..]);
      SortWithout(b, i);
    }
  }

  lemma SortedExact(a: seq<string>, b: seq<string>)
    ensures SortStrings(a) == SortStrings(b) <==> multiset(a) == multiset(b)
  {
    SortStringsElements(a);
    SortStringsElements(b);
    if multiset(a) == multiset(b) {
      SortedAlike(a, b);
    }
  }

  // ------------------------------------------------------------- decimal numbers

  function Digit(n: nat): char
    requires n < 10
  {
    ('0' as int + n) as char
  }

  /** strconv.Itoa of a non-negative number. */
  function Itoa(n: nat): string { if n < 10 then [Digit(n)] else Itoa(n / 10) + [Digit(n % 10)] }

  /** fmt.Sprint of an integer. */
  function Decimal(n: int): string { if n < 0 then "-" + Itoa(-n) else Itoa(n) }

  predicate IsDigit(c: char) { '0' <= c <= '9' }

  lemma {:induction false} ItoaDigits(n: nat)
    ensures Itoa(n) != "" && forall i :: 0 <= i < |Itoa(n)| ==> IsDigit(Itoa(n)[i])
  {
    if n >= 10 {
      ItoaDigits(n / 10);
    }
  }

  /** Different numbers are printed differently. */
  lemma {:induction false} ItoaInjective(m: nat, n: nat)
    ensures Itoa(m) == Itoa(n) <==> m == n
  {
    ItoaDigits(m / 10);
    ItoaDigits(n / 10);
    if m >= 10 && n >= 10 {
      ItoaInjective(m / 10, n / 10);
      SameLast(Itoa(m / 10), Digit(m % 10), Itoa(n / 10), Digit(n % 10));
    }
  }

  lemma SameLast(a: string, x: char, b: string, y: char)
    ensures a + [x] == b + [y] <==> a == b && x == y
  {
    if a + [x] == b + [y] {
      assert (a + [x])[|a|] == x && (b + [y])[|b|] == y && |a| == |b|;
      assert (a + [x])[..|a|] == a && (b + [y])[..|b|] == b;
    }
  }

  /** The parts before and after the last separator. */
  function CutLast(s: string, sep: char): (string, string)
  {
    if s == "" then ("", "")
    else if s[|s| - 1] == sep then (s[..|s| - 1], "")
    else
      var r := CutLast(s[..|s| - 1], sep);
      (r.0, r.1 + [s[|s| - 1]])
  }

  lemma {:induction false} CutLastJoined(a: string, x: string, sep: char)
    requires sep !in x
    ensures CutLast(a + [sep] + x, sep) == (a, x)
  {
    var s := a + [sep] + x;
    if x == "" {
      assert s[..|s| - 1] == a;
    } else {
      assert s[..|s| - 1] == a + [sep] + x[..|x| - 1];
      assert x[|x| - 1] in x && x == x[..|x| - 1] + [x[|x| - 1]];
      CutLastJoined(a, x[..|x| - 1], sep);
    }
  }

  /** A separator that does not occur after it splits a string in one way only. */
  lemma LastSeparator(a: string, x: string, b: string, y: string, sep: char)
    requires sep !in x && sep !in y && a + [sep] + x == b + [sep] + y
    ensures a == b && x == y
  {
    CutLastJoined(a, x, sep);
    CutLastJoined(b, y, sep);
  }

  predicate HasDot(s: string) { '.' in s }

  /** strings.Cut at the first dot. */
  function Cut(s: string): (r: (string, string))
    ensures HasDot(s) ==> r.0 + "." + r.1 == s && '.' !in r.0
    ensures !HasDot(s) ==> r == (s, "")
  {
    if s == "" then ("", "")
    else if s[0] == '.' then ("", s[1..])
    else
      var r := Cut(s[1..]);
      assert s == [s[0]] + s[1..];
      ([s[0]] + r.0, r.1)
  }

  /** The first dot splits a string in one way only. */
  lemma {:induction false} CutJoined(a: string, x: string)
    requires '.' !in a
    ensures Cut(a + "." + x) == (a, x)
  {
    var s := a + "." + x;
    if a == "" {
      assert s[0] == '.' && s[1..] == x;
    } else {
      assert s[1..] == a[1..] + "." + x && s[0] == a[0];
      CutJoined(a[1..], x);
      assert a[0] in a && a == [a[0]] + a[1..];
    }
  }
}
