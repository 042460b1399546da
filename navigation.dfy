/** The navigator `_get_data_from_route` (yuca/generation.py): walks a route
    through the context to the container that holds the route's last element.
    It looks at the route in consecutive pairs `(item, next)`, skipping an item
    that is an index (it was consumed with the name before it); a name steps
    into a dict, and when the next item is an index it also steps into the list
    found there. Every step must end on a dict. */
module Navigation {
  import opened Values
  import opened Routes

  /** The result of navigation: the container the source returns, the route's
      last element, and the path by which that container is reached from the
      context. The path stands for the identity of the Python object, so that a
      later in-place write into the container can be replayed from the root. */
  datatype Located = Located(parent: Value, key: RouteItem, path: Route)

  /** Navigation from position `i` of the route, with `data` reached by `path`. */
  function LocateFrom(data: Value, path: Route, r: Route, i: nat): Result<Located>
    requires i < |r|
    decreases |r| - i
  {
    if i == |r| - 1 then Ok(Located(data, r[i], path))
    else
      match r[i]
      case Index(_) => LocateFrom(data, path, r, i + 1)
      case Name(k) =>
        if !data.Obj? then Err(TypeError)
        else
          match Lookup(data.fields, k)
          case None => Err(KeyError)
          case Some(d) =>
            match r[i + 1]
            case Index(j) =>
              if !d.Arr? then Err(NotAList)
              else if j >= |d.items| then Err(IndexError)
              else if !d.items[j].Obj? then Err(NotADict)
              else LocateFrom(d.items[j], path + [Name(k), Index(j)], r, i + 1)
            case Name(_) =>
              if !d.Obj? then Err(NotADict)
              else LocateFrom(d, path + [Name(k)], r, i + 1)
  }

  /** `_get_data_from_route(context, route)`; an empty route fails on
      `route[-1]`. */
  function Locate(ctx: Value, r: Route): Result<Located>
  {
    if r == [] then Err(IndexError) else LocateFrom(ctx, [], r, 0)
  }

  /** The loop of the source, reassigning `data` at every step. */
  method GetDataFromRoute(ctx: Value, r: Route) returns (res: Result<Located>)
    ensures res == Locate(ctx, r)
  {
    if |r| == 0 {
      return Err(IndexError);
    }
    var data := ctx;
    var path: Route := [];
    var i := 0;
    while i < |r| - 1
      invariant 0 <= i <= |r| - 1
      invariant LocateFrom(data, path, r, i) == Locate(ctx, r)
    {
      var item, next := r[i], r[i + 1];
      if item.Index? {
        i := i + 1;
        continue;
      }
      if !data.Obj? {
        return Err(TypeError);
      }
      var found := Lookup(data.fields, item.name);
      if found.None? {
        return Err(KeyError);
      }
      var d := found.value;
      ghost var before := path;
      path := path + [item];
      if next.Index? {
        if !d.Arr? {
          return Err(NotAList);
        }
        if next.index >= |d.items| {
          return Err(IndexError);
        }
        d := d.items[next.index];
        path := path + [next];
        assert path == before + [Name(item.name), Index(next.index)];
      }
      if !d.Obj? {
        return Err(NotADict);
      }
      data := d;
      i := i + 1;
    }
    res := Ok(Located(data, r[i], path));
  }

  lemma GetName(v: Value, k: string)
    ensures Get(v, [Name(k)]) == if v.Obj? then Lookup(v.fields, k) else None
  {
    assert [Name(k)][1..] == [];
  }

  lemma GetNameIndex(v: Value, k: string, j: nat)
    ensures Get(v, [Name(k), Index(j)]) ==
      if v.Obj? && Lookup(v.fields, k).Some? && Lookup(v.fields, k).value.Arr?
         && j < |Lookup(v.fields, k).value.items|
      then Some(Lookup(v.fields, k).value.items[j]) else None
  {
    assert [Name(k), Index(j)][1..] == [Index(j)];
    assert [Index(j)][1..] == [];
    if v.Obj? && Lookup(v.fields, k).Some? {
      var d := Lookup(v.fields, k).value;
      assert Get(v, [Name(k), Index(j)]) == Get(d, [Index(j)]);
      if d.Arr? && j < |d.items| {
        assert Get(d, [Index(j)]) == Get(d.items[j], []);
      }
    }
  }

  /** A one-element route returns the context itself and that element. */
  lemma LocateSingle(ctx: Value, x: RouteItem)
    ensures Locate(ctx, [x]) == Ok(Located(ctx, x, []))
  {
  }

  lemma {:induction false} LocateFromParent(ctx: Value, data: Value, path: Route, r: Route, i: nat)
    requires i < |r| && Get(ctx, path) == Some(data)
    requires IndexAfterName(r)
    requires path == if r[i].Name? then r[..i] else r[..i + 1]
    ensures LocateFrom(data, path, r, i).Ok? ==>
      var l := LocateFrom(data, path, r, i).value;
      && l.key == r[|r| - 1]
      && Get(ctx, l.path) == Some(l.parent)
      && (r[|r| - 1].Name? ==> l.path == r[..|r| - 1])
      && (data.Obj? || (i < |r| - 1 && r[i].Name?) ==> l.parent.Obj?)
    decreases |r| - i
  {
    if i < |r| - 1 && LocateFrom(data, path, r, i).Ok? {
      match r[i]
      case Index(_) =>
        assert r[i + 1].Name?;
        LocateFromParent(ctx, data, path, r, i + 1);
      case Name(k) =>
        var d := Lookup(data.fields, k).value;
        GetName(data, k);
        match r[i + 1]
        case Index(j) =>
          var e := d.items[j];
          var path' := path + [Name(k), Index(j)];
          GetNameIndex(data, k, j);
          GetAppend(ctx, path, [Name(k), Index(j)]);
          assert path' == r[..i + 2];
          LocateFromParent(ctx, e, path', r, i + 1);
        case Name(_) =>
          var path' := path + [Name(k)];
          GetAppend(ctx, path, [Name(k)]);
          assert path' == r[..i + 1];
          LocateFromParent(ctx, d, path', r, i + 1);
    }
  }

  /** Navigation returns the route's last element as the key, and the
      container it returns is the one found at the route minus its last
      element; past the first step that container is a dict. */
  lemma LocateParent(ctx: Value, r: Route)
    requires WellFormedRoute(r) && Locate(ctx, r).Ok?
    ensures Locate(ctx, r).value.key == r[|r| - 1]
    ensures Locate(ctx, r).value.path == r[..|r| - 1]
    ensures Get(ctx, r[..|r| - 1]) == Some(Locate(ctx, r).value.parent)
    ensures |r| > 1 ==> Locate(ctx, r).value.parent.Obj?
  {
    assert r[..0] == [];
    LocateFromParent(ctx, ctx, [], r, 0);
  }

  /** The context holds a dict at path `p`. */
  predicate ObjAt(ctx: Value, p: Route)
  {
    Get(ctx, p).Some? && Get(ctx, p).value.Obj?
  }

  /** Every navigation step of a well-formed route ends on a dict. */
  predicate StepsReachDicts(ctx: Value, r: Route, from: nat)
  {
    forall k :: from < k < |r| && r[k].Name? ==> ObjAt(ctx, r[..k])
  }

  lemma {:induction false} LocateFromSucceeds(ctx: Value, data: Value, r: Route, i: nat)
    requires WellFormedRoute(r) && i < |r| && r[i].Name?
    requires Get(ctx, r[..i]) == Some(data)
    ensures LocateFrom(data, r[..i], r, i).Ok? <==> StepsReachDicts(ctx, r, i)
    decreases |r| - i
  {
    if i < |r| - 1 {
      var k := r[i].name;
      if r[i + 1].Index? {
        var j := r[i + 1].index;
        assert i + 1 != |r| - 1;
        assert r[i + 2].Name?;
        assert r[..i] + [Name(k), Index(j)] == r[..i + 2];
        GetAppend(ctx, r[..i], [Name(k), Index(j)]);
        GetNameIndex(data, k, j);
        if ObjAt(ctx, r[..i + 2]) {
          var e := Get(ctx, r[..i + 2]).value;
          LocateFromSucceeds(ctx, e, r, i + 2);
          assert LocateFrom(data, r[..i], r, i) == LocateFrom(e, r[..i + 2], r, i + 2);
        } else {
          assert !StepsReachDicts(ctx, r, i) by {
            assert !ObjAt(ctx, r[..i + 2]);
          }
        }
      } else {
        assert r[..i] + [Name(k)] == r[..i + 1];
        GetAppend(ctx, r[..i], [Name(k)]);
        GetName(data, k);
        if ObjAt(ctx, r[..i + 1]) {
          var d := Get(ctx, r[..i + 1]).value;
          LocateFromSucceeds(ctx, d, r, i + 1);
        } else {
          assert !StepsReachDicts(ctx, r, i) by {
            assert !ObjAt(ctx, r[..i + 1]);
          }
        }
      }
    }
  }

  /** Navigation of a well-formed route succeeds exactly when every step ends
      on a dict: it fails on a missing key or index, on a field that is not a
      list where an index follows, and on a step that does not reach a dict. */
  lemma LocateSucceedsIff(ctx: Value, r: Route)
    requires WellFormedRoute(r)
    ensures Locate(ctx, r).Ok? <==> StepsReachDicts(ctx, r, 0)
  {
    assert r[..0] == [];
    LocateFromSucceeds(ctx, ctx, r, 0);
  }
}
