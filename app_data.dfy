/** The registry of warehouses (yuca/app_data.py): an ordered list of warehouse
    folders and the index of the active one. Persistence to the user's data
    file is abstracted away; which folders exist on disk is a set of paths. */
module Registry {
  import opened Values

  /** No path is listed twice. */
  predicate NoDuplicates(ws: seq<string>)
  {
    forall i, j :: 0 <= i < j < |ws| ==> ws[i] != ws[j]
  }

  /** `ws.index(w)`: the position of the first occurrence. */
  function IndexOf(ws: seq<string>, w: string): (i: nat)
    requires w in ws
    ensures i < |ws| && ws[i] == w
    ensures forall j :: 0 <= j < i ==> ws[j] != w
  {
    if ws[0] == w then 0 else 1 + IndexOf(ws[1..], w)
  }

  /** The list after `add_warehouse(d)`: appended unless already present. */
  function Added(ws: seq<string>, d: string): seq<string>
  {
    if d in ws then ws else ws + [d]
  }

  /** `[wh for wh in ws if Path(wh).exists()]`. */
  function Pruned(ws: seq<string>, existing: set<string>): seq<string>
  {
    if ws == [] then []
    else Pruned(ws[..|ws| - 1], existing) + (if ws[|ws| - 1] in existing then [ws[|ws| - 1]] else [])
  }

  /** The active index after pruning: where the previously active path now
      stands, or 0 when it was pruned. */
  function Relocated(ws: seq<string>, active: string): nat
  {
    if active in ws then IndexOf(ws, active) else 0
  }

  class AppData {
    var warehouses: seq<string>
    var activeWh: int

    /** The state read from the data file (`data.get("warehouses", []) or []`
        and `data.get("active_wh", 0)`), before the paths are checked. */
    constructor (stored: seq<string>, storedActive: int)
      ensures warehouses == stored && activeWh == storedActive
    {
      warehouses := stored;
      activeWh := storedActive;
    }

    /** `AppData()`: load the stored state and check its paths. */
    static method Load(stored: seq<string>, storedActive: int, existing: set<string>)
      returns (app: AppData, err: Option<Error>)
      ensures fresh(app)
      ensures stored == [] ==> err.None? && app.warehouses == [] && app.activeWh == storedActive
      ensures stored != [] && PyIndex(|stored|, storedActive).None? ==>
        err == Some(IndexError) && app.warehouses == stored && app.activeWh == storedActive
      ensures stored != [] && PyIndex(|stored|, storedActive).Some? ==>
        && err.None?
        && app.warehouses == Pruned(stored, existing)
        && app.activeWh == Relocated(app.warehouses, stored[PyIndex(|stored|, storedActive).value])
    {
      app := new AppData(stored, storedActive);
      err := app.CheckWarehousesPath(existing);
    }

    /** `_check_warehouses_path`: drop the paths that no longer exist and keep
        the active path active if it survived. Reading the active path with an
        index out of range raises IndexError; a negative index counts from the
        end. */
    method CheckWarehousesPath(existing: set<string>) returns (err: Option<Error>)
      modifies this
      ensures old(warehouses) == [] ==>
        err.None? && warehouses == old(warehouses) && activeWh == old(activeWh)
      ensures old(warehouses) != [] && PyIndex(|old(warehouses)|, old(activeWh)).None? ==>
        err == Some(IndexError) && warehouses == old(warehouses) && activeWh == old(activeWh)
      ensures old(warehouses) != [] && PyIndex(|old(warehouses)|, old(activeWh)).Some? ==>
        && err.None?
        && warehouses == Pruned(old(warehouses), existing)
        && activeWh == Relocated(warehouses, old(warehouses)[PyIndex(|old(warehouses)|, old(activeWh)).value])
    {
      if warehouses == [] {
        return None;
      }
      var idx := PyIndex(|warehouses|, activeWh);
      if idx.None? {
        return Some(IndexError);
      }
      var ws := warehouses;
      var activePath := ws[idx.value];
      var kept: seq<string> := [];
      for i := 0 to |ws|
        invariant kept == Pruned(ws[..i], existing)
      {
        assert ws[..i + 1][..i] == ws[..i];
        if ws[i] in existing {
          kept := kept + [ws[i]];
        }
      }
      assert ws[..|ws|] == ws;
      warehouses := kept;
      activeWh := if activePath in kept then IndexOf(kept, activePath) else 0;
      err := None;
    }

    method HasWarehouses() returns (b: bool)
      ensures b <==> |warehouses| > 0
    {
      b := |warehouses| > 0;
    }

    /** `active_warehouse()`: fails when no warehouse is registered or the
        active index is out of range. */
    method ActiveWarehouse() returns (r: Result<string>)
      ensures r.Ok? <==> warehouses != [] && -|warehouses| <= activeWh < |warehouses|
      ensures warehouses == [] ==> r == Err(NoWarehouses)
      ensures warehouses != [] && !(-|warehouses| <= activeWh < |warehouses|) ==> r == Err(IndexError)
      ensures r.Ok? ==>
        && r.value in warehouses
        && r.value == warehouses[if activeWh >= 0 then activeWh else |warehouses| + activeWh]
    {
      var has := HasWarehouses();
      if !has {
        return Err(NoWarehouses);
      }
      var idx := PyIndex(|warehouses|, activeWh);
      if idx.None? {
        return Err(IndexError);
      }
      r := Ok(warehouses[idx.value]);
    }

    /** `switch_to_warehouse(path)`: the active index becomes the path's index;
        a path that is not registered raises ValueError. */
    method SwitchToWarehousePath(path: string) returns (err: Option<Error>)
      modifies this
      ensures warehouses == old(warehouses)
      ensures old(warehouses) == [] ==> err == Some(NoWarehouses) && activeWh == old(activeWh)
      ensures old(warehouses) != [] && path !in old(warehouses) ==>
        err == Some(ValueError) && activeWh == old(activeWh)
      ensures old(warehouses) != [] && path in old(warehouses) ==>
        err.None? && activeWh == IndexOf(warehouses, path)
    {
      var has := HasWarehouses();
      if !has {
        return Some(NoWarehouses);
      }
      if path !in warehouses {
        return Some(ValueError);
      }
      activeWh := IndexOf(warehouses, path);
      err := None;
    }

    /** `switch_to_warehouse(index)`: the index is stored as given, without a
        bounds check. */
    method SwitchToWarehouseIndex(index: int) returns (err: Option<Error>)
      modifies this
      ensures warehouses == old(warehouses)
      ensures old(warehouses) == [] ==> err == Some(NoWarehouses) && activeWh == old(activeWh)
      ensures old(warehouses) != [] ==> err.None? && activeWh == index
    {
      var has := HasWarehouses();
      if !has {
        return Some(NoWarehouses);
      }
      activeWh := index;
      err := None;
    }

    /** `add_warehouse(dir)`: appends the path unless it is already
        registered; the active index is untouched. */
    method AddWarehouse(dir: string)
      modifies this
      ensures warehouses == Added(old(warehouses), dir)
      ensures activeWh == old(activeWh)
    {
      if dir !in warehouses {
        warehouses := warehouses + [dir];
      }
    }
  }

  // ------------------------------------------------------------ properties

  /** Adding keeps every earlier entry where it was, registers the path,
      grows the list by at most one, never creates a duplicate, and adding the
      same path again changes nothing. */
  lemma AddedSpec(ws: seq<string>, d: string)
    ensures d in Added(ws, d) && Added(ws, d)[..|ws|] == ws
    ensures |Added(ws, d)| == if d in ws then |ws| else |ws| + 1
    ensures forall w :: w in Added(ws, d) <==> w in ws || w == d
    ensures NoDuplicates(ws) ==> NoDuplicates(Added(ws, d))
    ensures Added(Added(ws, d), d) == Added(ws, d)
  {
    assert (ws + [d])[..|ws|] == ws;
  }

  /** Pruning keeps exactly the existing paths, in their original order. */
  lemma {:induction false} PrunedSpec(ws: seq<string>, existing: set<string>)
    ensures forall w :: w in Pruned(ws, existing) <==> w in ws && w in existing
    ensures |Pruned(ws, existing)| <= |ws|
    ensures (forall i :: 0 <= i < |ws| ==> ws[i] in existing) ==> Pruned(ws, existing) == ws
    decreases |ws|
  {
    if ws != [] {
      var init := ws[..|ws| - 1];
      PrunedSpec(init, existing);
      assert ws == init + [ws[|ws| - 1]];
      if forall i :: 0 <= i < |ws| ==> ws[i] in existing {
        assert forall i :: 0 <= i < |init| ==> init[i] == ws[i];
      }
    }
  }

  /** Pruning distributes over concatenation: relative order is kept. */
  lemma {:induction false} PrunedAppend(a: seq<string>, b: seq<string>, existing: set<string>)
    ensures Pruned(a + b, existing) == Pruned(a, existing) + Pruned(b, existing)
    decreases |b|
  {
    if b == [] {
      assert a + b == a;
    } else {
      var b' := b[..|b| - 1];
      assert (a + b)[..|a + b| - 1] == a + b';
      assert (a + b)[|a + b| - 1] == b[|b| - 1];
      PrunedAppend(a, b', existing);
    }
  }

  /** A list without duplicates stays without duplicates. */
  lemma {:induction false} PrunedNoDuplicates(ws: seq<string>, existing: set<string>)
    requires NoDuplicates(ws)
    ensures NoDuplicates(Pruned(ws, existing))
    decreases |ws|
  {
    if ws != [] {
      var init, w := ws[..|ws| - 1], ws[|ws| - 1];
      assert NoDuplicates(init) by {
        forall i, j | 0 <= i < j < |init| ensures init[i] != init[j] {
          assert init[i] == ws[i] && init[j] == ws[j];
        }
      }
      PrunedNoDuplicates(init, existing);
      PrunedSpec(init, existing);
      assert w !in init by {
        forall i | 0 <= i < |init| ensures init[i] != w { assert ws[i] == init[i]; }
      }
    }
  }

  /** Pruning twice is pruning once. */
  lemma PrunedIdempotent(ws: seq<string>, existing: set<string>)
    ensures Pruned(Pruned(ws, existing), existing) == Pruned(ws, existing)
  {
    var kept := Pruned(ws, existing);
    PrunedSpec(ws, existing);
    assert forall i :: 0 <= i < |kept| ==> kept[i] in kept;
    PrunedSpec(kept, existing);
  }

  /** After the check, the active index points at the previously active path
      if it still exists, and is 0 otherwise; either way it is in range unless
      no path is left. */
  lemma RelocatedSpec(ws: seq<string>, existing: set<string>, active: string)
    requires active in ws
    ensures var kept := Pruned(ws, existing);
      && (active in existing ==> Relocated(kept, active) < |kept| && kept[Relocated(kept, active)] == active)
      && (active !in existing ==> Relocated(kept, active) == 0)
      && (kept != [] ==> Relocated(kept, active) < |kept|)
  {
    PrunedSpec(ws, existing);
  }

  lemma AddedExamples()
    ensures Added(["a", "b"], "c") == ["a", "b", "c"]
    ensures Added(["a", "b"], "a") == ["a", "b"]
  {
  }

  /** `["a", "b", "c"]` with `b` gone: `c`, active at index 2, moves to 1; an
      active `b` falls back to 0. */
  lemma PruneExamples()
    ensures Pruned(["a", "b", "c"], {"a", "c"}) == ["a", "c"]
    ensures Relocated(["a", "c"], "c") == 1
    ensures Relocated(["a", "c"], "b") == 0
  {
    assert ["a", "b", "c"][..2] == ["a", "b"];
    assert ["a", "b"][..1] == ["a"];
    assert ["a"][..0] == [];
    assert Pruned(["a"], {"a", "c"}) == ["a"];
    assert Pruned(["a", "b"], {"a", "c"}) == ["a"];
  }
}
