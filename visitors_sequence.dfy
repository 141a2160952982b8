/** The ordered, name-keyed property sequence the valuation context merges
    into (`PropertyVisitorsSequence`). Its three operations are collaborators
    of the context; they are given here a definition that has the behaviour
    the context relies on, and that behaviour is proved as lookup laws:
    override-or-append, add-if-absent and remove-by-name-set. */
module VisitorsSequence {
  import opened Optional
  import opened PropertyViews

  /** No two entries share a name. */
  ghost predicate UniqueNames(s: seq<Property>)
  {
    forall i, j :: 0 <= i < j < |s| ==> s[i].name != s[j].name
  }

  /** Entry `i` is the first one carrying its name. */
  ghost predicate FirstOfItsName(s: seq<Property>, i: int)
  {
    0 <= i < |s| && forall j :: 0 <= j < i ==> s[j].name != s[i].name
  }

  /** The first entry carrying name `n`: what the sequence holds for `n`. */
  function Lookup(s: seq<Property>, n: string): (r: Option<Property>)
    ensures r.Some? ==> r.value in s && r.value.name == n
    ensures r.None? <==> n !in Names(s)
  {
    if s == [] then None
    else if s[0].name == n then Some(s[0])
    else
      assert forall p :: p in s ==> p == s[0] || p in s[1..];
      Lookup(s[1..], n)
  }

  /** The last entry carrying name `n`: the one that wins when a list is
      applied entry after entry. */
  function LastWith(ps: seq<Property>, n: string): (r: Option<Property>)
    ensures r.Some? ==> r.value in ps && r.value.name == n
    ensures r.None? <==> n !in Names(ps)
  {
    if ps == [] then None
    else
      assert forall p :: p in ps ==> p == ps[0] || p in ps[1..];
      var later := LastWith(ps[1..], n);
      if later.Some? then later
      else if ps[0].name == n then Some(ps[0])
      else None
  }

  /** The position of the first entry carrying name `n`. */
  function IndexOf(s: seq<Property>, n: string): (r: Option<nat>)
    ensures r.Some? ==> r.value < |s| && s[r.value].name == n && FirstOfItsName(s, r.value)
    ensures r.None? ==> forall j :: 0 <= j < |s| ==> s[j].name != n
  {
    if s == [] then None
    else if s[0].name == n then Some(0)
    else match IndexOf(s[1..], n)
      case Some(k) => Some(k + 1)
      case None => None
  }

  /** Lookup finds exactly the first entry of each name. */
  lemma {:induction false} LookupFirst(s: seq<Property>, i: int)
    requires FirstOfItsName(s, i)
    ensures Lookup(s, s[i].name) == Some(s[i])
  {
    if i > 0 {
      assert s[0].name != s[i].name;
      assert FirstOfItsName(s[1..], i - 1);
      LookupFirst(s[1..], i - 1);
    }
  }

  /** Looking up in a sequence grown at its end. */
  lemma {:induction false} LookupAppend(s: seq<Property>, p: Property, n: string)
    ensures Lookup(s + [p], n) ==
      if n in Names(s) then Lookup(s, n) else if p.name == n then Some(p) else None
  {
    if s == [] {
      assert s + [p] == [p];
    } else {
      assert (s + [p])[1..] == s[1..] + [p];
      assert Names(s) == {s[0].name} + Names(s[1..]) by {
        assert forall q :: q in s <==> q == s[0] || q in s[1..];
      }
      LookupAppend(s[1..], p, n);
    }
  }

  // ---------------------------------------------------------------- override

  /** Overrides the value of entry `p.name` with `p`, or appends `p` when the
      name is not there yet. */
  function OverrideWith(s: seq<Property>, p: ValuedProperty): (r: seq<Property>)
    ensures Names(r) == Names(s) + {p.name}
  {
    if s == [] then [p]
    else if s[0].name == p.name then
      assert forall q :: q in s ==> q == s[0] || q in s[1..];
      [p] + s[1..]
    else
      NamesCons(s[0], s[1..]);
      NamesCons(s[0], OverrideWith(s[1..], p));
      assert s == [s[0]] + s[1..];
      [s[0]] + OverrideWith(s[1..], p)
  }

  /** After an override the name holds `p`; every other name is untouched. */
  lemma {:induction false} OverrideWithLookup(s: seq<Property>, p: ValuedProperty, n: string)
    ensures Lookup(OverrideWith(s, p), n) == if n == p.name then Some(p) else Lookup(s, n)
  {
    if s != [] && s[0].name != p.name {
      assert OverrideWith(s, p)[1..] == OverrideWith(s[1..], p);
      OverrideWithLookup(s[1..], p, n);
    }
  }

  /** An override of a name already there replaces, in place, the first entry
      of that name and nothing else; a new name is appended at the end. */
  lemma {:induction false} OverrideWithShape(s: seq<Property>, p: ValuedProperty)
    ensures OverrideWith(s, p) ==
      match IndexOf(s, p.name)
      case Some(k) => s[k := p]
      case None => s + [p]
  {
    if s != [] {
      var t := s[1..];
      assert s == [s[0]] + t;
      if s[0].name == p.name {
        assert IndexOf(s, p.name) == Some(0);
        assert OverrideWith(s, p) == [p] + t;
        assert [p] + t == s[0 := p];
      } else {
        OverrideWithShape(t, p);
        assert OverrideWith(s, p) == [s[0]] + OverrideWith(t, p);
        match IndexOf(t, p.name)
        case Some(k) =>
          assert IndexOf(s, p.name) == Some(k + 1);
          assert [s[0]] + t[k := p] == s[k + 1 := p];
        case None =>
          assert IndexOf(s, p.name) == None;
          assert [s[0]] + (t + [p]) == s + [p];
      }
    }
  }

  /** Overriding keeps names unique. */
  lemma OverrideWithUnique(s: seq<Property>, p: ValuedProperty)
    requires UniqueNames(s)
    ensures UniqueNames(OverrideWith(s, p))
  {
    OverrideWithShape(s, p);
  }

  /** `addOverridingValuedProperties`: every entry of `ps`, in order,
      overrides or is appended. */
  function AddOverriding(s: seq<Property>, ps: seq<ValuedProperty>): (r: seq<Property>)
    ensures Names(r) == Names(s) + Names(ps)
    decreases |ps|
  {
    if ps == [] then s
    else
      assert forall q :: q in ps <==> q == ps[0] || q in ps[1..];
      AddOverriding(OverrideWith(s, ps[0]), ps[1..])
  }

  /** Precedence of one override step: a name of `ps` holds the LAST value
      `ps` gives it, any other name keeps what `s` held. */
  lemma {:induction false} AddOverridingLookup(s: seq<Property>, ps: seq<ValuedProperty>, n: string)
    ensures Lookup(AddOverriding(s, ps), n) == if n in Names(ps) then LastWith(ps, n) else Lookup(s, n)
    decreases |ps|
  {
    if ps != [] {
      assert Names(ps) == {ps[0].name} + Names(ps[1..]) by {
        assert forall q :: q in ps <==> q == ps[0] || q in ps[1..];
      }
      AddOverridingLookup(OverrideWith(s, ps[0]), ps[1..], n);
      OverrideWithLookup(s, ps[0], n);
    }
  }

  /** Overriding keeps names unique. */
  lemma {:induction false} AddOverridingUnique(s: seq<Property>, ps: seq<ValuedProperty>)
    requires UniqueNames(s)
    ensures UniqueNames(AddOverriding(s, ps))
    decreases |ps|
  {
    if ps != [] {
      OverrideWithUnique(s, ps[0]);
      AddOverridingUnique(OverrideWith(s, ps[0]), ps[1..]);
    }
  }

  /** `s` with the first entry of each name of `ps` set to the last value
      `ps` gives that name. */
  ghost function Patched(s: seq<Property>, ps: seq<ValuedProperty>): (r: seq<Property>)
    ensures |r| == |s|
  {
    seq(|s|, i requires 0 <= i < |s| =>
      if FirstOfItsName(s, i) && s[i].name in Names(ps) then LastWith(ps, s[i].name).value else s[i])
  }

  /** Replacing an entry by one of the same name moves no name. */
  lemma SameNamesSameFirsts(s: seq<Property>, t: seq<Property>)
    requires |s| == |t| && forall i :: 0 <= i < |s| ==> s[i].name == t[i].name
    ensures forall i :: FirstOfItsName(s, i) <==> FirstOfItsName(t, i)
  {
  }

  /** One override of a present name followed by patching with the rest of
      the scope is patching with the whole scope. */
  lemma PatchedStep(s: seq<Property>, p: ValuedProperty, rest: seq<ValuedProperty>, k: nat)
    requires IndexOf(s, p.name) == Some(k)
    ensures Patched(s[k := p], rest) == Patched(s, [p] + rest)
  {
    var t, ps := s[k := p], [p] + rest;
    assert ps[1..] == rest;
    SameNamesSameFirsts(s, t);
    NamesCons(p, rest);
    forall i | 0 <= i < |s| ensures Patched(t, rest)[i] == Patched(s, ps)[i] {
      var n := s[i].name;
      if FirstOfItsName(s, i) && n == p.name {
        assert i == k;
      }
    }
  }

  /** When every name of `ps` is already present, overriding only patches
      values in place. */
  lemma {:induction false} AddOverridingPresent(s: seq<Property>, ps: seq<ValuedProperty>)
    requires Names(ps) <= Names(s)
    ensures AddOverriding(s, ps) == Patched(s, ps)
    decreases |ps|
  {
    if ps == [] {
      assert Patched(s, ps) == s;
    } else {
      var p, rest := ps[0], ps[1..];
      assert ps == [p] + rest;
      NamesCons(p, rest);
      OverrideWithShape(s, p);
      var k := IndexOf(s, p.name).value;
      var t := s[k := p];
      SameNamesSameFirsts(s, t);
      assert Names(t) == Names(s) by {
        assert forall q :: q in t ==> q == p || q in s;
        assert forall q :: q in s ==> q in t || q == s[k];
      }
      AddOverridingPresent(t, rest);
      PatchedStep(s, p, rest, k);
    }
  }

  /** A sequence whose first entries already hold the winning values of `ps`
      is left as it is by patching. */
  lemma PatchedSettled(t: seq<Property>, ps: seq<ValuedProperty>)
    requires forall n :: n in Names(ps) ==> Lookup(t, n) == LastWith(ps, n)
    ensures Patched(t, ps) == t
  {
    forall i | 0 <= i < |t| && FirstOfItsName(t, i) && t[i].name in Names(ps)
      ensures LastWith(ps, t[i].name).value == t[i]
    {
      LookupFirst(t, i);
    }
  }

  /** Applying the same scope twice is applying it once. */
  lemma AddOverridingIdempotent(s: seq<Property>, ps: seq<ValuedProperty>)
    ensures AddOverriding(AddOverriding(s, ps), ps) == AddOverriding(s, ps)
  {
    var t := AddOverriding(s, ps);
    forall n | n in Names(ps) ensures Lookup(t, n) == LastWith(ps, n) {
      AddOverridingLookup(s, ps, n);
    }
    AddOverridingPresent(t, ps);
    PatchedSettled(t, ps);
  }

  // ---------------------------------------------------------- add if absent

  /** Appends `p` unless its name is already there. */
  function AddIfAbsent(s: seq<Property>, p: ValuedProperty): (r: seq<Property>)
    ensures Names(r) == Names(s) + {p.name}
  {
    if p.name in Names(s) then s else s + [p]
  }

  /** `addValuedPropertiesIfUndefined`: every entry of `ps`, in order, is
      added unless its name is already defined. */
  function AddIfUndefined(s: seq<Property>, ps: seq<ValuedProperty>): (r: seq<Property>)
    ensures Names(r) == Names(s) + Names(ps)
    decreases |ps|
  {
    if ps == [] then s
    else
      assert forall q :: q in ps <==> q == ps[0] || q in ps[1..];
      AddIfUndefined(AddIfAbsent(s, ps[0]), ps[1..])
  }

  /** Filling never overwrites: a defined name keeps its value, an undefined
      one takes the FIRST value `ps` gives it. */
  lemma {:induction false} AddIfUndefinedLookup(s: seq<Property>, ps: seq<ValuedProperty>, n: string)
    ensures Lookup(AddIfUndefined(s, ps), n) == if n in Names(s) then Lookup(s, n) else Lookup(ps, n)
    decreases |ps|
  {
    if ps != [] {
      var p := ps[0];
      AddIfUndefinedLookup(AddIfAbsent(s, p), ps[1..], n);
      if p.name !in Names(s) {
        LookupAppend(s, p, n);
      }
    }
  }

  /** Filling keeps names unique. */
  lemma {:induction false} AddIfUndefinedUnique(s: seq<Property>, ps: seq<ValuedProperty>)
    requires UniqueNames(s)
    ensures UniqueNames(AddIfUndefined(s, ps))
    decreases |ps|
  {
    if ps != [] {
      var p := ps[0];
      if p.name !in Names(s) {
        forall i | 0 <= i < |s| ensures s[i].name != p.name {
          assert s[i] in s;
        }
      }
      AddIfUndefinedUnique(AddIfAbsent(s, p), ps[1..]);
    }
  }

  // ---------------------------------------------------------- remove by name

  /** `removePropertiesByName`: drops every entry whose name is in `names`,
      keeping the others in their order. */
  function RemoveByNames(s: seq<Property>, names: set<string>): (r: seq<Property>)
    ensures forall p :: p in r ==> p in s && p.name !in names
    ensures forall p :: p in s && p.name !in names ==> p in r
  {
    if s == [] then []
    else if s[0].name in names then RemoveByNames(s[1..], names)
    else [s[0]] + RemoveByNames(s[1..], names)
  }

  /** A removed name is gone; every other name keeps what it held. */
  lemma {:induction false} RemoveByNamesLookup(s: seq<Property>, names: set<string>, n: string)
    ensures Lookup(RemoveByNames(s, names), n) == if n in names then None else Lookup(s, n)
  {
    if s != [] {
      RemoveByNamesLookup(s[1..], names, n);
      if s[0].name !in names {
        assert RemoveByNames(s, names)[1..] == RemoveByNames(s[1..], names);
      }
    }
  }

  /** Removing names that are absent changes nothing. */
  lemma {:induction false} RemoveByNamesAbsent(s: seq<Property>, names: set<string>)
    requires Names(s) !! names
    ensures RemoveByNames(s, names) == s
  {
    if s != [] {
      var t := s[1..];
      assert s == [s[0]] + t;
      NamesCons(s[0], t);
      RemoveByNamesAbsent(t, names);
      assert RemoveByNames(s, names) == [s[0]] + RemoveByNames(t, names);
    }
  }

  /** Removal commutes with an override of a kept name, and cancels an
      override of a removed one. */
  lemma {:induction false} RemoveOverrideWith(s: seq<Property>, p: ValuedProperty, names: set<string>)
    ensures p.name !in names ==> RemoveByNames(OverrideWith(s, p), names) == OverrideWith(RemoveByNames(s, names), p)
    ensures p.name in names ==> RemoveByNames(OverrideWith(s, p), names) == RemoveByNames(s, names)
  {
    if s == [] {
    } else if s[0].name == p.name {
      assert OverrideWith(s, p)[1..] == s[1..];
    } else {
      var r := OverrideWith(s, p);
      assert r[0] == s[0] && r[1..] == OverrideWith(s[1..], p);
      RemoveOverrideWith(s[1..], p, names);
      if s[0].name !in names {
        assert RemoveByNames(s, names)[0] == s[0];
        assert RemoveByNames(s, names)[1..] == RemoveByNames(s[1..], names);
      }
    }
  }

  /** Removal commutes with a scope none of whose names are removed, and
      cancels a scope all of whose names are removed. */
  lemma {:induction false} RemoveAddOverriding(s: seq<Property>, ps: seq<ValuedProperty>, names: set<string>)
    ensures Names(ps) !! names ==> RemoveByNames(AddOverriding(s, ps), names) == AddOverriding(RemoveByNames(s, names), ps)
    ensures Names(ps) <= names ==> RemoveByNames(AddOverriding(s, ps), names) == RemoveByNames(s, names)
    decreases |ps|
  {
    if ps != [] {
      var p := ps[0];
      assert Names(ps) == {p.name} + Names(ps[1..]) by {
        assert forall q :: q in ps <==> q == p || q in ps[1..];
      }
      RemoveOverrideWith(s, p, names);
      RemoveAddOverriding(OverrideWith(s, p), ps[1..], names);
    }
  }

  /** Removal commutes with filling from a list none of whose names are removed. */
  lemma {:induction false} RemoveAddIfUndefined(s: seq<Property>, ps: seq<ValuedProperty>, names: set<string>)
    requires Names(ps) !! names
    ensures RemoveByNames(AddIfUndefined(s, ps), names) == AddIfUndefined(RemoveByNames(s, names), ps)
    decreases |ps|
  {
    if ps != [] {
      var p := ps[0];
      assert p in ps;
      assert Names(ps[1..]) <= Names(ps) by {
        assert forall q :: q in ps[1..] ==> q in ps;
      }
      var kept := RemoveByNames(s, names);
      assert p.name in Names(s) <==> p.name in Names(kept) by {
        if p.name in Names(s) {
          var q :| q in s && q.name == p.name;
          assert q in kept;
        }
      }
      if p.name !in Names(s) {
        RemoveByNamesAppend(s, p, names);
      }
      RemoveAddIfUndefined(AddIfAbsent(s, p), ps[1..], names);
    }
  }

  /** Removal of names distributes over appending one kept entry. */
  lemma {:induction false} RemoveByNamesAppend(s: seq<Property>, p: Property, names: set<string>)
    requires p.name !in names
    ensures RemoveByNames(s + [p], names) == RemoveByNames(s, names) + [p]
  {
    if s == [] {
      assert s + [p] == [p];
    } else {
      assert (s + [p])[0] == s[0];
      assert (s + [p])[1..] == s[1..] + [p];
      RemoveByNamesAppend(s[1..], p, names);
    }
  }
}
