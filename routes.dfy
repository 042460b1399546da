/** The route generator `_get_routes_and_vals` (yuca/generation.py): flattens an
    overrides or filters tree into `(route, leaf)` pairs. The source keeps one
    mutable route list shared by every level of the recursion; it pushes the
    name of each key (and its index, when the value is a nested dict), yields
    the live list at every leaf, and pops what it pushed afterwards. */
module Routes {
  import opened Values
  import opened SettingsKey

  /** What a run of the generator produces: the pairs yielded, in order, and
      the first malformed key if the run stopped on the failed assertion. */
  datatype Gen = Gen(pairs: seq<(Route, Value)>, fault: Option<string>)

  function IndexPart(index: Option<nat>): Route
  {
    if index.Some? then [Index(index.value)] else []
  }

  /** The generator's output for the dict `fs` when the shared route holds
      `prefix`. A leaf keeps only the name of an indexed key. */
  function Flatten(fs: seq<Field>, prefix: Route): Gen
    decreases fs
  {
    if fs == [] then Gen([], None)
    else
      var init := Flatten(fs[..|fs| - 1], prefix);
      var f := fs[|fs| - 1];
      if init.fault.Some? then init
      else
        match ParseKey(f.key)
        case None => Gen(init.pairs, Some(f.key))
        case Some((name, index)) =>
          if f.val.Obj? then
            var sub := Flatten(f.val.fields, prefix + [Name(name)] + IndexPart(index));
            Gen(init.pairs + sub.pairs, sub.fault)
          else
            Gen(init.pairs + [(prefix + [Name(name)], f.val)], None)
  }

  /** The non-dict leaves of a tree, in key order: an independent account of
      what the generator should yield. */
  function Leaves(fs: seq<Field>): seq<Value>
    decreases fs
  {
    if fs == [] then []
    else
      var f := fs[|fs| - 1];
      Leaves(fs[..|fs| - 1]) + (if f.val.Obj? then Leaves(f.val.fields) else [f.val])
  }

  /** Some key anywhere in the tree fails the key pattern. */
  predicate HasMalformedKey(fs: seq<Field>)
    decreases fs
  {
    if fs == [] then false
    else
      var f := fs[|fs| - 1];
      HasMalformedKey(fs[..|fs| - 1]) || ParseKey(f.key).None?
      || (f.val.Obj? && HasMalformedKey(f.val.fields))
  }

  /** Every integer in a route comes right after a field name. */
  predicate IndexAfterName(r: Route)
  {
    forall i :: 0 <= i < |r| && r[i].Index? ==> i > 0 && r[i - 1].Name?
  }

  /** A route the generator can yield: it starts and ends with a field name and
      each index follows a field name. */
  predicate WellFormedRoute(r: Route)
  {
    |r| > 0 && r[0].Name? && r[|r| - 1].Name? && IndexAfterName(r)
  }

  /** The generator fails exactly when some key of the tree is malformed, and
      otherwise yields one pair per non-dict leaf, in key order; an empty nested
      dict yields nothing. */
  lemma {:induction false} FlattenYieldsLeaves(fs: seq<Field>, prefix: Route)
    ensures Flatten(fs, prefix).fault.Some? <==> HasMalformedKey(fs)
    ensures Flatten(fs, prefix).fault.None? ==>
      var ps := Flatten(fs, prefix).pairs;
      |ps| == |Leaves(fs)| && forall j :: 0 <= j < |ps| ==> ps[j].1 == Leaves(fs)[j]
    decreases fs
  {
    if fs != [] {
      var init := fs[..|fs| - 1];
      var f := fs[|fs| - 1];
      FlattenYieldsLeaves(init, prefix);
      match ParseKey(f.key)
      case None =>
      case Some((name, index)) =>
        if f.val.Obj? {
          FlattenYieldsLeaves(f.val.fields, prefix + [Name(name)] + IndexPart(index));
        }
    }
  }

  /** Every yielded route extends the route the generator started from and is
      well formed. */
  lemma {:induction false} FlattenRoutesWellFormed(fs: seq<Field>, prefix: Route)
    requires IndexAfterName(prefix)
    ensures forall j :: 0 <= j < |Flatten(fs, prefix).pairs| ==>
      var r := Flatten(fs, prefix).pairs[j].0;
      |r| > |prefix| && r[..|prefix|] == prefix && r[|r| - 1].Name? && IndexAfterName(r)
    decreases fs
  {
    if fs != [] {
      var init := fs[..|fs| - 1];
      var f := fs[|fs| - 1];
      FlattenRoutesWellFormed(init, prefix);
      if Flatten(init, prefix).fault.None? {
        match ParseKey(f.key)
        case None =>
        case Some((name, index)) =>
          var p' := prefix + [Name(name)] + IndexPart(index);
          assert IndexAfterName(p');
          if f.val.Obj? {
            FlattenRoutesWellFormed(f.val.fields, p');
            var sub := Flatten(f.val.fields, p');
            forall j | 0 <= j < |sub.pairs|
              ensures sub.pairs[j].0[..|prefix|] == prefix
            {
              assert sub.pairs[j].0[..|prefix|] == sub.pairs[j].0[..|p'|][..|prefix|];
            }
          } else {
            assert IndexAfterName(prefix + [Name(name)]);
          }
      }
    }
  }

  /** From an empty route, every yielded route is well formed. */
  lemma RoutesAreWellFormed(fs: seq<Field>)
    ensures forall j :: 0 <= j < |Flatten(fs, []).pairs| ==> WellFormedRoute(Flatten(fs, []).pairs[j].0)
  {
    FlattenRoutesWellFormed(fs, []);
    forall j | 0 <= j < |Flatten(fs, []).pairs|
      ensures WellFormedRoute(Flatten(fs, []).pairs[j].0)
    {
      var r := Flatten(fs, []).pairs[j].0;
      assert r[0].Index? ==> 0 > 0;
    }
  }

  /** Once the generator has failed on a prefix of the keys, it has failed
      on the whole dict with the same output. */
  lemma {:induction false} FaultPersists(fs: seq<Field>, j: nat, prefix: Route)
    requires j <= |fs| && Flatten(fs[..j], prefix).fault.Some?
    ensures Flatten(fs, prefix) == Flatten(fs[..j], prefix)
    decreases |fs| - j
  {
    if j < |fs| {
      assert fs[..j + 1][..j] == fs[..j];
      FaultPersists(fs, j + 1, prefix);
    } else {
      assert fs[..j] == fs;
    }
  }

  /** A one-field dict whose value is a leaf yields one pair. */
  lemma SingleLeaf(k: string, name: string, index: Option<nat>, v: Value, prefix: Route)
    requires ParseKey(k) == Some((name, index)) && !v.Obj?
    ensures Flatten([Field(k, v)], prefix) == Gen([(prefix + [Name(name)], v)], None)
  {
    assert [Field(k, v)][..0] == [];
  }

  /** A one-field dict whose value is a dict yields what the inner dict yields
      under the extended prefix. */
  lemma SingleDict(k: string, name: string, index: Option<nat>, fs: seq<Field>, prefix: Route)
    requires ParseKey(k) == Some((name, index))
    ensures Flatten([Field(k, Obj(fs))], prefix) == Flatten(fs, prefix + [Name(name)] + IndexPart(index))
  {
    assert [Field(k, Obj(fs))][..0] == [];
    var sub := Flatten(fs, prefix + [Name(name)] + IndexPart(index));
    assert [] + sub.pairs == sub.pairs;
  }

  /** A tree with one plain key holding a leaf yields that key's route. */
  lemma PlainLeaf(k: string, v: Value)
    requires k != [] && NoBrackets(k) && !v.Obj?
    ensures Flatten([Field(k, v)], []) == Gen([([Name(k)], v)], None)
  {
    PlainKey(k);
    SingleLeaf(k, k, None, v, []);
    assert [] + [Name(k)] == [Name(k)];
  }

  /** An indexed key whose value is a leaf loses its index. */
  lemma IndexedLeafDropsIndex(name: string, ds: string, v: Value, prefix: Route)
    requires name != [] && NoBrackets(name) && ds != [] && AllDigits(ds) && !v.Obj?
    ensures Flatten([Field(name + "[" + ds + "]", v)], prefix) == Gen([(prefix + [Name(name)], v)], None)
  {
    IndexedKey(name, ds, "");
    assert name + "[" + ds + "]" + "" == name + "[" + ds + "]";
    SingleLeaf(name + "[" + ds + "]", name, Some(DigitsValue(ds)), v, prefix);
  }

  /** An indexed key whose value is a dict addresses the fields of one
      element: the inner dict is flattened under the name and the index. */
  lemma IndexedDictAddsIndex(name: string, ds: string, fs: seq<Field>, prefix: Route)
    requires name != [] && NoBrackets(name) && ds != [] && AllDigits(ds)
    ensures Flatten([Field(name + "[" + ds + "]", Obj(fs))], prefix)
         == Flatten(fs, prefix + [Name(name), Index(DigitsValue(ds))])
  {
    IndexedKey(name, ds, "");
    assert name + "[" + ds + "]" + "" == name + "[" + ds + "]";
    SingleDict(name + "[" + ds + "]", name, Some(DigitsValue(ds)), fs, prefix);
    assert prefix + [Name(name)] + IndexPart(Some(DigitsValue(ds)))
        == prefix + [Name(name), Index(DigitsValue(ds))];
  }

  /** The route list the generator shares between its recursion levels. */
  class RouteBuffer {
    var items: Route

    constructor ()
      ensures items == []
    {
      items := [];
    }
  }

  /** `_get_routes_and_vals(fs, curr_route)`: the pairs it yields, in order.
      When it does not fail, the shared route is back to what it was. */
  method RoutesAndVals(fs: seq<Field>, curr: RouteBuffer) returns (g: Gen)
    modifies curr
    ensures g == Flatten(fs, old(curr.items))
    ensures g.fault.None? ==> curr.items == old(curr.items)
    decreases fs
  {
    ghost var start := curr.items;
    var pairs: seq<(Route, Value)> := [];
    var i := 0;
    while i < |fs|
      invariant 0 <= i <= |fs|
      invariant curr.items == start
      invariant Flatten(fs[..i], start) == Gen(pairs, None)
    {
      var key, val := fs[i].key, fs[i].val;
      assert fs[..i + 1][..i] == fs[..i] && fs[..i + 1][i] == fs[i];
      var m := ParseKey(key);
      if m.None? {
        g := Gen(pairs, Some(key));
        FaultPersists(fs, i + 1, start);
        return;
      }
      var (name, index) := m.value;
      curr.items := curr.items + [Name(name)];
      if val.Obj? {
        if index.Some? {
          curr.items := curr.items + [Index(index.value)];
        }
        ghost var before := curr.items;
        assert before == start + [Name(name)] + IndexPart(index);
        var sub := RoutesAndVals(val.fields, curr);
        assert sub == Flatten(val.fields, before);
        if sub.fault.Some? {
          assert Flatten(fs[..i + 1], start) == Gen(pairs + sub.pairs, sub.fault);
          g := Gen(pairs + sub.pairs, sub.fault);
          FaultPersists(fs, i + 1, start);
          return;
        }
        assert curr.items == before;
        assert Flatten(fs[..i + 1], start) == Gen(pairs + sub.pairs, None);
        pairs := pairs + sub.pairs;
      } else {
        assert Flatten(fs[..i + 1], start) == Gen(pairs + [(curr.items, val)], None);
        pairs := pairs + [(curr.items, val)];
      }
      // Remove the last item; if it was an index, remove its field name too.
      var last := curr.items[|curr.items| - 1];
      curr.items := curr.items[..|curr.items| - 1];
      if last.Index? {
        curr.items := curr.items[..|curr.items| - 1];
      }
      i := i + 1;
    }
    assert fs[..i] == fs;
    g := Gen(pairs, None);
  }
}
