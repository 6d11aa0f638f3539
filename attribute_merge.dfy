/** The attribute-definition merge of `update_gsi`: `attr_dict` turns an
    AttributeDefinitions list into an insertion-ordered dictionary, and the
    two loops that follow compute the list submitted with the index update. */
module AttributeMerge {
  import opened Py
  import opened GsiStore

  const CantUpdateAttribute := "Cant update attribute value"

  function Names(d: seq<AttrDef>): set<string> {
    set a | a in d :: a.name
  }

  predicate UniqueNames(d: seq<AttrDef>) {
    forall i, j | 0 <= i < j < |d| :: d[i].name != d[j].name
  }

  /** `name in d` and `d[name]` on a dictionary held as a list of pairs. */
  function TypeOf(d: seq<AttrDef>, name: string): Option<string> {
    if d == [] then None
    else if d[0].name == name then Some(d[0].attrType)
    else TypeOf(d[1..], name)
  }

  /** A lookup finds a name exactly when the dictionary holds it, and then
      returns the type that entry declares. */
  lemma {:induction false} TypeOfFinds(d: seq<AttrDef>, name: string)
    ensures TypeOf(d, name).None? <==> name !in Names(d)
    ensures TypeOf(d, name).Some? ==> AttrDef(name, TypeOf(d, name).value) in d
    ensures UniqueNames(d) ==> forall a | a in d && a.name == name :: TypeOf(d, name) == Some(a.attrType)
  {
    if d != [] && d[0].name != name {
      TypeOfFinds(d[1..], name);
      assert forall a | a in d[1..] :: a in d;
      assert Names(d) == {d[0].name} + Names(d[1..]);
      if UniqueNames(d) {
        assert UniqueNames(d[1..]);
        forall a | a in d && a.name == name ensures a in d[1..] {
          if a == d[0] {
            assert false;
          }
        }
      }
    } else if d != [] {
      if UniqueNames(d) {
        forall a | a in d && a.name == name ensures a == d[0] {
          var k :| 0 <= k < |d| && d[k] == a;
        }
      }
    }
  }

  /** `d[a.name] = a.attrType`: overwrite in place, or append a new key. */
  function Put(d: seq<AttrDef>, a: AttrDef): seq<AttrDef> {
    if d == [] then [a]
    else if d[0].name == a.name then [a] + d[1..]
    else [d[0]] + Put(d[1..], a)
  }

  /** Putting a key adds exactly that name to the dictionary's names. */
  lemma {:induction false} PutNames(d: seq<AttrDef>, a: AttrDef)
    ensures Names(Put(d, a)) == Names(d) + {a.name}
  {
    if d != [] {
      assert Names(d) == {d[0].name} + Names(d[1..]);
      if d[0].name == a.name {
        assert Names([a] + d[1..]) == {a.name} + Names(d[1..]);
      } else {
        PutNames(d[1..], a);
        var rest := Put(d[1..], a);
        assert Names([d[0]] + rest) == {d[0].name} + Names(rest);
      }
    }
  }

  /** Putting a key into a dictionary keeps its names unique. */
  lemma {:induction false} PutKeepsNamesUnique(d: seq<AttrDef>, a: AttrDef)
    requires UniqueNames(d)
    ensures UniqueNames(Put(d, a))
  {
    if d != [] && d[0].name != a.name {
      assert UniqueNames(d[1..]);
      assert d[0].name !in Names(d[1..]);
      PutKeepsNamesUnique(d[1..], a);
      PutNames(d[1..], a);
      var rest := Put(d[1..], a);
      assert d[0].name !in Names(rest);
      assert forall j | 0 <= j < |rest| :: rest[j] in rest;
    } else if d != [] {
      assert forall j | 1 <= j < |d| :: d[j] in d[1..];
    }
  }

  /** After `d[a.name] = a.attrType` the key maps to the new type and every
      other key keeps its type. */
  lemma {:induction false} PutTypeOf(d: seq<AttrDef>, a: AttrDef, n: string)
    ensures TypeOf(Put(d, a), n) == if n == a.name then Some(a.attrType) else TypeOf(d, n)
  {
    if d != [] && d[0].name != a.name {
      PutTypeOf(d[1..], a, n);
      var rest := Put(d[1..], a);
      assert ([d[0]] + rest)[1..] == rest;
    } else if d != [] {
      assert ([a] + d[1..])[1..] == d[1..];
    }
  }

  /** The type the last entry for `name` in a list declares. */
  function LastTypeOf(lst: seq<AttrDef>, name: string): Option<string>
    decreases |lst|
  {
    if lst == [] then None
    else if lst[|lst| - 1].name == name then Some(lst[|lst| - 1].attrType)
    else LastTypeOf(lst[..|lst| - 1], name)
  }

  /** `attr_dict`: a dictionary comprehension over the list, in order. */
  function AttrDict(lst: seq<AttrDef>): seq<AttrDef>
    decreases |lst|
  {
    if lst == [] then [] else Put(AttrDict(lst[..|lst| - 1]), lst[|lst| - 1])
  }

  /** `attr_dict` yields a dictionary over exactly the listed names in which a
      repeated name takes the type of its last entry. */
  lemma {:induction false} AttrDictLastWins(lst: seq<AttrDef>)
    ensures UniqueNames(AttrDict(lst))
    ensures Names(AttrDict(lst)) == Names(lst)
    ensures forall n :: TypeOf(AttrDict(lst), n) == LastTypeOf(lst, n)
    decreases |lst|
  {
    if lst != [] {
      var init := lst[..|lst| - 1];
      assert lst == init + [lst[|lst| - 1]];
      assert Names(lst) == Names(init) + {lst[|lst| - 1].name};
      AttrDictLastWins(init);
      PutNames(AttrDict(init), lst[|lst| - 1]);
      PutKeepsNamesUnique(AttrDict(init), lst[|lst| - 1]);
      forall n ensures TypeOf(AttrDict(lst), n) == LastTypeOf(lst, n) {
        PutTypeOf(AttrDict(init), lst[|lst| - 1], n);
      }
    }
  }

  /** The entries of `s`, in order, whose name is not in `names`. */
  function Without(s: seq<AttrDef>, names: set<string>): seq<AttrDef>
    decreases |s|
  {
    if s == [] then []
    else
      var r := Without(s[..|s| - 1], names);
      if s[|s| - 1].name in names then r else r + [s[|s| - 1]]
  }

  /** Filtering keeps exactly the entries whose name is not excluded, adds
      none, and keeps names unique. */
  lemma {:induction false} WithoutKeeps(s: seq<AttrDef>, names: set<string>)
    ensures forall a :: a in Without(s, names) <==> a in s && a.name !in names
    ensures |Without(s, names)| <= |s|
    ensures UniqueNames(s) ==> UniqueNames(Without(s, names))
    decreases |s|
  {
    if s != [] {
      var init := s[..|s| - 1];
      var last := s[|s| - 1];
      assert s == init + [last];
      WithoutKeeps(init, names);
      if UniqueNames(s) {
        assert UniqueNames(init);
        assert forall a | a in init :: a.name != last.name;
      }
    }
  }

  /** The payload declares `a`'s name with a different type. */
  predicate Clashes(a: AttrDef, desired: seq<AttrDef>) {
    TypeOf(desired, a.name).Some? && TypeOf(desired, a.name).value != a.attrType
  }

  /** Some current attribute is declared in the payload with another type. */
  predicate Conflict(current: seq<AttrDef>, desired: seq<AttrDef>) {
    exists a | a in current :: Clashes(a, desired)
  }

  /** What the two loops compute from the current and payload dictionaries. */
  function MergeSpec(current: seq<AttrDef>, desired: seq<AttrDef>, deleting: bool): Result<seq<AttrDef>> {
    if deleting then Ok(Without(current, Names(desired)))
    else if Conflict(current, desired) then Err(ValueError(CantUpdateAttribute))
    else Ok(current + Without(desired, Names(current)))
  }

  lemma WithoutStep(s: seq<AttrDef>, i: nat, names: set<string>)
    requires i < |s|
    ensures Without(s[..i + 1], names) ==
      Without(s[..i], names) + (if s[i].name in names then [] else [s[i]])
  {
    assert s[..i + 1][..i] == s[..i];
  }

  /** `update_gsi`'s first attribute loop: walk the current attributes in table order, dropping on
      Delete those the payload names, and raising on a type change otherwise. */
  method KeepCurrent(current: seq<AttrDef>, desired: seq<AttrDef>, deleting: bool)
    returns (r: Result<seq<AttrDef>>)
    ensures deleting ==> r == Ok(Without(current, Names(desired)))
    ensures !deleting ==> r == if Conflict(current, desired) then Err(ValueError(CantUpdateAttribute)) else Ok(current)
  {
    var attributes: seq<AttrDef> := [];
    var i := 0;
    while i < |current|
      invariant 0 <= i <= |current|
      invariant deleting ==> attributes == Without(current[..i], Names(desired))
      invariant !deleting ==> attributes == current[..i]
      invariant !deleting ==> forall k | 0 <= k < i :: !Clashes(current[k], desired)
    {
      var a := current[i];
      WithoutStep(current, i, Names(desired));
      var t := TypeOf(desired, a.name);
      TypeOfFinds(desired, a.name);
      if t.Some? {
        if deleting {
          i := i + 1;
          continue;
        } else if t.value != a.attrType {
          assert Clashes(current[i], desired);
          return Err(ValueError(CantUpdateAttribute));
        }
      }
      attributes := attributes + [a];
      i := i + 1;
    }
    assert current[..i] == current;
    if !deleting {
      assert !Conflict(current, desired) by {
        forall a | a in current ensures !Clashes(a, desired) {
          var k :| 0 <= k < |current| && current[k] == a;
        }
      }
    }
    return Ok(attributes);
  }

  /** `update_gsi`'s second attribute loop: append, in payload order, each payload attribute whose
      name the table does not already hold. */
  method AppendNew(kept: seq<AttrDef>, current: seq<AttrDef>, desired: seq<AttrDef>)
    returns (attributes: seq<AttrDef>)
    ensures attributes == kept + Without(desired, Names(current))
  {
    attributes := kept;
    var j := 0;
    while j < |desired|
      invariant 0 <= j <= |desired|
      invariant attributes == kept + Without(desired[..j], Names(current))
    {
      var b := desired[j];
      WithoutStep(desired, j, Names(current));
      TypeOfFinds(current, b.name);
      if TypeOf(current, b.name).None? {
        attributes := attributes + [b];
      }
      j := j + 1;
    }
    assert desired[..j] == desired;
  }

  /** Both attribute loops of `update_gsi` over the two dictionaries. */
  method MergeAttributes(current: seq<AttrDef>, desired: seq<AttrDef>, deleting: bool)
    returns (r: Result<seq<AttrDef>>)
    ensures r == MergeSpec(current, desired, deleting)
  {
    var kept :- KeepCurrent(current, desired, deleting);
    if deleting {
      return Ok(kept);
    }
    var attributes := AppendNew(kept, current, desired);
    return Ok(attributes);
  }

  /** On Delete the submitted list is the current attributes minus every name
      the payload declares: nothing is added and order is kept. */
  lemma MergeOnDeleteDropsPayloadNames(current: seq<AttrDef>, desired: seq<AttrDef>)
    ensures MergeSpec(current, desired, true).Ok?
    ensures var kept := MergeSpec(current, desired, true).value;
      && |kept| <= |current|
      && (forall a :: a in kept <==> a in current && a.name !in Names(desired))
  {
    WithoutKeeps(current, Names(desired));
  }

  /** On Create the merge fails exactly when a name both dictionaries hold
      has two different types. */
  lemma {:induction false} MergeOnCreateFailsOnTypeChange(current: seq<AttrDef>, desired: seq<AttrDef>)
    requires UniqueNames(current) && UniqueNames(desired)
    ensures MergeSpec(current, desired, false).Err? <==>
      exists n :: TypeOf(current, n).Some? && TypeOf(desired, n).Some? && TypeOf(current, n) != TypeOf(desired, n)
    ensures MergeSpec(current, desired, false).Err? ==>
      MergeSpec(current, desired, false).error == ValueError(CantUpdateAttribute)
  {
    if Conflict(current, desired) {
      var a :| a in current && Clashes(a, desired);
      TypeOfFinds(current, a.name);
      assert TypeOf(current, a.name) == Some(a.attrType);
    } else {
      forall n | TypeOf(current, n).Some? && TypeOf(desired, n).Some?
        ensures TypeOf(current, n) == TypeOf(desired, n)
      {
        TypeOfFinds(current, n);
        TypeOfFinds(desired, n);
        var a := AttrDef(n, TypeOf(current, n).value);
        assert a in current && !Clashes(a, desired);
      }
    }
  }

  /** Otherwise it keeps every current attribute, in table order, and appends
      the payload-only ones in payload order: every name of either side, once. */
  lemma {:induction false} MergeOnCreateKeepsEverything(current: seq<AttrDef>, desired: seq<AttrDef>)
    requires UniqueNames(current) && UniqueNames(desired)
    requires MergeSpec(current, desired, false).Ok?
    ensures var merged := MergeSpec(current, desired, false).value;
      && merged == current + Without(desired, Names(current))
      && UniqueNames(merged)
      && Names(merged) == Names(current) + Names(desired)
      && (forall a :: a in merged <==> a in current || (a in desired && a.name !in Names(current)))
  {
    var merged := MergeSpec(current, desired, false).value;
    var tail := Without(desired, Names(current));
    WithoutKeeps(desired, Names(current));
    forall i, j | 0 <= i < j < |merged| ensures merged[i].name != merged[j].name {
      if j >= |current| && i < |current| {
        assert merged[i] in current;
        assert merged[j] == tail[j - |current|];
        assert merged[j] in tail;
      } else if i >= |current| {
        assert merged[i] == tail[i - |current|] && merged[j] == tail[j - |current|];
      }
    }
    forall n | n in Names(desired) ensures n in Names(merged) {
      var b :| b in desired && b.name == n;
      if n !in Names(current) {
        assert b in tail;
      } else {
        var a :| a in current && a.name == n;
        assert a in merged;
      }
    }
    forall n | n in Names(current) ensures n in Names(merged) {
      var a :| a in current && a.name == n;
      assert a in merged;
    }
  }
}
