/** The sort positions of a value and MultiKeySortSpecs (internal/config/sort.go). */
module SortLocations {
  import opened SortSpec
  import opened Wrappers

  /** One step into an object or an array. */
  datatype Step = Key(k: string) | Index(i: nat)

  datatype Location = Location(path: seq<Step>, keys: seq<string>)

  /** The keys of an object in held order: declared order, or alphabetical for a map. */
  ghost function HeldKeys(v: Value): seq<string>
  {
    match v
    case D(d) => seq(|d|, i requires 0 <= i < |d| => d[i].key)
    case Map(m) => SortedKeys(m.Keys)
    case M(m) => SortedKeys(m.Keys)
    case _ => []
  }

  /** The i-th member of an object in held order. */
  ghost function Member(v: Value, i: nat): (x: Value)
    requires i < |HeldKeys(v)|
    ensures x < v
  {
    match v
    case D(d) => d[i].value
    case Map(m) => assert SortedKeys(m.Keys)[i] in m; m[SortedKeys(m.Keys)[i]]
    case M(m) => assert SortedKeys(m.Keys)[i] in m; m[SortedKeys(m.Keys)[i]]
  }

  // ------------------------------------------------------------------ positions

  /** At path below v there is a sort position that holds an object with these keys, in this order. */
  ghost predicate HasSpec(v: Value, owner: string, path: seq<Step>, keys: seq<string>)
    decreases v, 0
  {
    path != [] &&
    match path[0]
    case Key(k) => exists i: nat :: i < |HeldKeys(v)| && MemberHasSpec(v, owner, i, k, path[1..], keys)
    case Index(i) => v.Arr? && i < |v.items| && HasSpec(v.items[i], "", path[1..], keys)
  }

  ghost predicate MemberHasSpec(v: Value, owner: string, i: nat, k: string, rest: seq<Step>, keys: seq<string>)
    requires i < |HeldKeys(v)|
    decreases Member(v, i), 2
  {
    HeldKeys(v)[i] == k && SpecAt(owner, k, Member(v, i), rest, keys)
  }

  /** The member is the position, or the position is inside it. */
  ghost predicate SpecAt(owner: string, k: string, x: Value, rest: seq<Step>, keys: seq<string>)
    decreases x, 1
  {
    (rest == [] && IsSortPosition(owner, k) && HeldKeys(x) == keys != []) || HasSpec(x, k, rest, keys)
  }

  // ------------------------------------------------------------------ collecting

  ghost function Below(step: Step, locs: seq<Location>): (r: seq<Location>)
    ensures |r| == |locs| && forall i :: 0 <= i < |r| ==> r[i] == Location([step] + locs[i].path, locs[i].keys)
  {
    seq(|locs|, i requires 0 <= i < |locs| => Location([step] + locs[i].path, locs[i].keys))
  }

  lemma BelowMembers(step: Step, locs: seq<Location>, l: Location)
    ensures l in Below(step, locs) <==> l.path != [] && l.path[0] == step && Location(l.path[1..], l.keys) in locs
  {
    if l in Below(step, locs) {
      var i :| 0 <= i < |locs| && Below(step, locs)[i] == l;
      assert ([step] + locs[i].path)[1..] == locs[i].path;
    }
    if l.path != [] && l.path[0] == step && Location(l.path[1..], l.keys) in locs {
      var i :| 0 <= i < |locs| && locs[i] == Location(l.path[1..], l.keys);
      assert [step] + l.path[1..] == l.path;
      assert Below(step, locs)[i] == l;
    }
  }

  /** MultiKeySortSpecs with structural paths: a position before those inside it, members in held order. */
  ghost function Collect(v: Value, owner: string): seq<Location>
    decreases v, 1
  {
    if v.Arr? then CollectItems(v, |v.items|) else CollectMembers(v, owner, |HeldKeys(v)|)
  }

  ghost function CollectMembers(v: Value, owner: string, n: nat): seq<Location>
    requires n <= |HeldKeys(v)|
    decreases v, 0, n
  {
    if n == 0 then [] else CollectMembers(v, owner, n - 1) + Visit(owner, HeldKeys(v)[n - 1], Member(v, n - 1))
  }

  ghost function CollectItems(v: Value, n: nat): seq<Location>
    requires v.Arr? && n <= |v.items|
    decreases v, 0, n
  {
    if n == 0 then [] else CollectItems(v, n - 1) + Below(Index(n - 1), Collect(v.items[n - 1], ""))
  }

  ghost function Visit(owner: string, k: string, x: Value): seq<Location>
    decreases x, 2
  {
    (if IsSortPosition(owner, k) && |HeldKeys(x)| > 1 then [Location([Key(k)], HeldKeys(x))] else [])
      + Below(Key(k), Collect(x, k))
  }

  /** A location is a position with several keys. */
  ghost predicate IsMulti(v: Value, owner: string, l: Location) { |l.keys| > 1 && HasSpec(v, owner, l.path, l.keys) }

  lemma OwnLocation(k: string, keys: seq<string>, l: Location)
    ensures l == Location([Key(k)], keys)
        <==> l.path != [] && l.path[0] == Key(k) && l.path[1..] == [] && l.keys == keys
  {
    if l.path != [] && l.path[0] == Key(k) && l.path[1..] == [] {
      assert l.path == [Key(k)] + l.path[1..];
      assert l.path == [Key(k)];
    }
  }

  lemma {:induction false} VisitExact(owner: string, k: string, x: Value, l: Location)
    ensures l in Visit(owner, k, x) <==>
              |l.keys| > 1 && l.path != [] && l.path[0] == Key(k) && SpecAt(owner, k, x, l.path[1..], l.keys)
    decreases x, 2
  {
    BelowMembers(Key(k), Collect(x, k), l);
    OwnLocation(k, HeldKeys(x), l);
    if l.path != [] {
      CollectExact(x, k, Location(l.path[1..], l.keys));
    }
  }

  /** Some member among the first n leads to the position. */
  ghost predicate SomeMember(v: Value, owner: string, n: nat, k: string, rest: seq<Step>, keys: seq<string>)
    requires n <= |HeldKeys(v)|
  {
    exists i: nat :: i < n && MemberHasSpec(v, owner, i, k, rest, keys)
  }

  lemma SomeMemberNext(v: Value, owner: string, n: nat, k: string, rest: seq<Step>, keys: seq<string>)
    requires 0 < n <= |HeldKeys(v)|
    ensures SomeMember(v, owner, n, k, rest, keys) <==>
              SomeMember(v, owner, n - 1, k, rest, keys) || MemberHasSpec(v, owner, n - 1, k, rest, keys)
  {
    if SomeMember(v, owner, n, k, rest, keys) {
    } else if SomeMember(v, owner, n - 1, k, rest, keys) || MemberHasSpec(v, owner, n - 1, k, rest, keys) {
    }
  }

  /** l is a location below one of the first n members. */
  ghost predicate BelowMember(v: Value, owner: string, n: nat, l: Location)
    requires n <= |HeldKeys(v)|
  {
    |l.keys| > 1 && l.path != [] && l.path[0].Key? && SomeMember(v, owner, n, l.path[0].k, l.path[1..], l.keys)
  }

  lemma BelowMemberNext(v: Value, owner: string, n: nat, l: Location)
    requires 0 < n <= |HeldKeys(v)|
    ensures BelowMember(v, owner, n, l)
        <==> BelowMember(v, owner, n - 1, l) || l in Visit(owner, HeldKeys(v)[n - 1], Member(v, n - 1))
    decreases v, 0, n - 1, 1
  {
    VisitExact(owner, HeldKeys(v)[n - 1], Member(v, n - 1), l);
    if l.path != [] && l.path[0].Key? {
      SomeMemberNext(v, owner, n, l.path[0].k, l.path[1..], l.keys);
    }
  }

  lemma {:induction false} MembersExact(v: Value, owner: string, n: nat, l: Location)
    requires n <= |HeldKeys(v)|
    ensures l in CollectMembers(v, owner, n) <==> BelowMember(v, owner, n, l)
    decreases v, 0, n
  {
    if n > 0 {
      MembersExact(v, owner, n - 1, l);
      BelowMemberNext(v, owner, n, l);
    }
  }

  lemma KeyStep(v: Value, owner: string, path: seq<Step>, keys: seq<string>)
    requires path != [] && path[0].Key?
    ensures HasSpec(v, owner, path, keys) <==> SomeMember(v, owner, |HeldKeys(v)|, path[0].k, path[1..], keys)
  {
  }

  lemma {:induction false} ItemsExact(v: Value, n: nat, l: Location)
    requires v.Arr? && n <= |v.items|
    ensures l in CollectItems(v, n) <==>
              |l.keys| > 1 && l.path != [] && l.path[0].Index? && l.path[0].i < n
                && HasSpec(v.items[l.path[0].i], "", l.path[1..], l.keys)
    decreases v, 0, n
  {
    if n > 0 {
      ItemsExact(v, n - 1, l);
      BelowMembers(Index(n - 1), Collect(v.items[n - 1], ""), l);
      if l.path != [] {
        CollectExact(v.items[n - 1], "", Location(l.path[1..], l.keys));
      }
    }
  }

  /** MultiKeySortSpecs lists exactly the sort positions that hold two or more keys, with those keys in held order. */
  lemma {:induction false} CollectExact(v: Value, owner: string, l: Location)
    ensures l in Collect(v, owner) <==> IsMulti(v, owner, l)
    decreases v, 1
  {
    if v.Arr? {
      ItemsExact(v, |v.items|, l);
      assert HeldKeys(v) == [];
    } else {
      MembersExact(v, owner, |HeldKeys(v)|, l);
      if l.path != [] && l.path[0].Key? {
        KeyStep(v, owner, l.path, l.keys);
      }
    }
  }

  // ---------------------------------------------------- normalizing keeps the key order

  lemma SpecKeepsKeys(v: Value, allow: bool)
    requires NormalizeSpec(v, allow).Ok?
    ensures HeldKeys(NormalizeSpec(v, allow).value) == HeldKeys(v)
  {
    var n := NormalizeSpec(v, allow).value;
    if v.Map? || v.M? {
      assert n.D? && n.fields == SpecOf(SingleField(v.m));
      SingleKeys(v.m);
    } else if v.D? {
      assert forall i :: 0 <= i < |v.fields| ==> n.fields[i].key == v.fields[i].key;
    }
  }

  lemma SingleKeys(m: map<string, Value>)
    requires |m| <= 1
    ensures |SingleField(m)| == |m| == |SortedKeys(m.Keys)|
    ensures |m| == 1 ==>
        SingleField(m)[0].key == SortedKeys(m.Keys)[0] && SingleField(m)[0].key in m
        && SingleField(m)[0].value == m[SingleField(m)[0].key]
  {
    assert |m| == |m.Keys|;
    SortedKeysOnce(m.Keys);
    if |m| == 1 {
      var a, b := SingleField(m)[0].key, SortedKeys(m.Keys)[0];
      assert b in m.Keys;
      OnlyOne(m.Keys, a, b);
    }
  }

  lemma OnlyOne(s: set<string>, a: string, b: string)
    requires |s| == 1 && a in s && b in s
    ensures a == b
  {
    assert s == {a} + (s - {a});
    assert |s - {a}| == 0;
  }

  /** Nothing inside an accepted sort specification is a sort position. */
  lemma NothingInside(x: Value, owner: string, k: string, rest: seq<Step>, keys: seq<string>)
    requires IsSortPosition(owner, k) && NormalizeSpec(x, ScalarSortAllowed(owner, k)).Ok?
    ensures !HasSpec(x, k, rest, keys)
  {
    if rest != [] && rest[0].Key? {
      forall i: nat | i < |HeldKeys(x)|
        ensures !MemberHasSpec(x, k, i, rest[0].k, rest[1..], keys)
      {
        SpecMember(x, owner, k, i);
        PlainMember(Member(x, i), k, HeldKeys(x)[i], rest[1..], keys);
      }
      KeyStep(x, k, rest, keys);
    }
  }

  /** A member of an accepted specification: an ordinary key with a direction or a $meta value. */
  lemma SpecMember(x: Value, owner: string, k: string, i: nat)
    requires NormalizeSpec(x, ScalarSortAllowed(owner, k)).Ok? && i < |HeldKeys(x)|
    ensures SortKeyOk(HeldKeys(x)[i]) && NormalizeSortValue(Member(x, i)).Ok?
  {
    if x.Map? || x.M? {
      SingleKeys(x.m);
      assert SingleField(x.m)[0].key == HeldKeys(x)[0];
    } else {
      assert x.D? && x.fields[i].key == HeldKeys(x)[i];
    }
  }

  lemma PlainMember(x: Value, owner: string, k: string, rest: seq<Step>, keys: seq<string>)
    requires (owner == "$sort" || owner == "sortBy") && SortKeyOk(k) && NormalizeSortValue(x).Ok?
    ensures !SpecAt(owner, k, x, rest, keys)
  {
    assert !IsSortPosition(owner, k);
    if rest != [] && rest[0].Key? {
      forall i: nat | i < |HeldKeys(x)|
        ensures !MemberHasSpec(x, k, i, rest[0].k, rest[1..], keys)
      {
        MetaHasNoSpec(x, k, i, rest[0].k, rest[1..], keys);
      }
      KeyStep(x, k, rest, keys);
    }
  }

  lemma MetaHasNoSpec(x: Value, owner: string, i: nat, k: string, rest: seq<Step>, keys: seq<string>)
    requires NormalizeSortValue(x).Ok? && i < |HeldKeys(x)|
    ensures !MemberHasSpec(x, owner, i, k, rest, keys)
  {
    MetaMember(x, i);
  }

  lemma MetaMember(x: Value, i: nat)
    requires NormalizeSortValue(x).Ok? && i < |HeldKeys(x)|
    ensures HeldKeys(x)[i] == "$meta" && Member(x, i).Str?
  {
    if x.Map? {
      assert |x.m| == 1 && "$meta" in x.m.Keys;
      assert HeldKeys(x)[i] in x.m.Keys;
      OnlyOne(x.m.Keys, HeldKeys(x)[i], "$meta");
    }
  }

  ghost predicate SameSpecs(v: Value, n: Value, owner: string)
  {
    forall path, keys {:trigger HasSpec(n, owner, path, keys)} :: HasSpec(v, owner, path, keys)
      <==> HasSpec(n, owner, path, keys)
  }

  ghost predicate SameSpecsAt(v: Value, n: Value, owner: string, k: string)
  {
    forall rest, keys {:trigger SpecAt(owner, k, n, rest, keys)} :: SpecAt(owner, k, v, rest, keys)
      <==> SpecAt(owner, k, n, rest, keys)
  }

  lemma {:induction false} MemberKeepsSpecs(owner: string, k: string, v: Value)
    requires NormalizeMember(owner, k, v).Ok?
    ensures SameSpecsAt(v, NormalizeMember(owner, k, v).value, owner, k)
    decreases v, 1
  {
    var n := NormalizeMember(owner, k, v).value;
    if IsSortPosition(owner, k) {
      var allow := ScalarSortAllowed(owner, k);
      SpecKeepsKeys(v, allow);
      SpecPositionAgain(v, allow);
      forall rest: seq<Step>, keys: seq<string>
        ensures SpecAt(owner, k, v, rest, keys) <==> SpecAt(owner, k, n, rest, keys)
      {
        NothingInside(v, owner, k, rest, keys);
        NothingInside(n, owner, k, rest, keys);
      }
    } else {
      NormalizeKeepsSpecs(v, k);
      forall rest: seq<Step>, keys: seq<string>
        ensures SpecAt(owner, k, v, rest, keys) <==> SpecAt(owner, k, n, rest, keys)
      {
        assert HasSpec(v, k, rest, keys) <==> HasSpec(n, k, rest, keys);
      }
    }
  }

  ghost predicate SameMembers(v: Value, n: Value, owner: string)
  {
    HeldKeys(v) == HeldKeys(n) && forall i: nat :: i < |HeldKeys(v)| ==>
      SameSpecsAt(Member(v, i), Member(n, i), owner, HeldKeys(v)[i])
  }

  lemma SameSome(v: Value, n: Value, owner: string, k: string, rest: seq<Step>, keys: seq<string>)
    requires SameMembers(v, n, owner)
    ensures SomeMember(v, owner, |HeldKeys(v)|, k, rest, keys) <==> SomeMember(n, owner, |HeldKeys(n)|, k, rest, keys)
  {
    forall i: nat | i < |HeldKeys(v)|
      ensures MemberHasSpec(v, owner, i, k, rest, keys) <==> MemberHasSpec(n, owner, i, k, rest, keys)
    {
    }
  }

  /** Objects with the same keys whose members have the same positions have the same positions. */
  lemma ObjectKeepsSpecs(v: Value, n: Value, owner: string)
    requires !v.Arr? && !n.Arr? && SameMembers(v, n, owner)
    ensures SameSpecs(v, n, owner)
  {
    forall path: seq<Step>, keys: seq<string>
      ensures HasSpec(v, owner, path, keys) <==> HasSpec(n, owner, path, keys)
    {
      if path != [] && path[0].Key? {
        KeyStep(v, owner, path, keys);
        KeyStep(n, owner, path, keys);
        SameSome(v, n, owner, path[0].k, path[1..], keys);
      }
    }
  }

  /** Normalizing keeps every sort position, and the key order of each. */
  lemma {:induction false} NormalizeKeepsSpecs(v: Value, owner: string)
    requires NormalizeSpecs(v, owner).Ok?
    ensures SameSpecs(v, NormalizeSpecs(v, owner).value, owner)
    decreases v, 0
  {
    var n := NormalizeSpecs(v, owner).value;
    if v.Arr? {
      forall i | 0 <= i < |v.items|
        ensures SameSpecs(v.items[i], n.items[i], "")
      {
        NormalizeKeepsSpecs(v.items[i], "");
      }
      forall path: seq<Step>, keys: seq<string>
        ensures HasSpec(v, owner, path, keys) <==> HasSpec(n, owner, path, keys)
      {
        if path != [] && path[0].Index? && path[0].i < |v.items| {
          assert SameSpecs(v.items[path[0].i], n.items[path[0].i], "");
          assert HasSpec(n.items[path[0].i], "", path[1..], keys) <==> HasSpec(v.items[path[0].i], "", path[1..], keys);
        }
        assert HeldKeys(v) == [] && HeldKeys(n) == [];
      }
    } else {
      NormalizedMembers(v, owner);
      forall i: nat | i < |HeldKeys(v)|
        ensures SameSpecsAt(Member(v, i), Member(n, i), owner, HeldKeys(v)[i])
      {
        MemberKeepsSpecs(owner, HeldKeys(v)[i], Member(v, i));
      }
      ObjectKeepsSpecs(v, n, owner);
    }
  }

  /** The members of a normalized object are its normalized members, in the same order. */
  lemma NormalizedMembers(v: Value, owner: string)
    requires !v.Arr? && NormalizeSpecs(v, owner).Ok?
    ensures var n := NormalizeSpecs(v, owner).value;
            && HeldKeys(n) == HeldKeys(v) && !n.Arr?
            && forall i: nat :: i < |HeldKeys(v)| ==>
              NormalizeMember(owner, HeldKeys(v)[i], Member(v, i)) == Ok(Member(n, i))
  {
    var n := NormalizeSpecs(v, owner).value;
    if v.Map? || v.M? {
      assert n.m.Keys == v.m.Keys;
    } else if v.D? {
      assert forall i :: 0 <= i < |v.fields| ==> n.fields[i].key == v.fields[i].key;
      assert HeldKeys(n) == HeldKeys(v);
    }
  }
}
