/** The applicators `_process_overrides` and `_process_filters`
    (yuca/generation.py). Both run the route generator over their tree and, for
    each yielded `(route, leaf)`, navigate to the container of the route's last
    field and assign into it in place: an override stores the leaf, a filter
    stores the list `[data[key][i] for i in leaf]`. */
module Applicators {
  import opened Values
  import opened Routes
  import opened Navigation
  import SettingsKey

  /** Where an assignment `data[key] = ...` lands: the path of the dict the
      navigator returned, that dict's fields, and the key. */
  datatype Slot = Slot(path: Route, fields: seq<Field>, key: string)

  function SlotOf(ctx: Value, r: Route): Result<Slot>
  {
    match Locate(ctx, r)
    case Err(e) => Err(e)
    case Ok(l) =>
      if !l.parent.Obj? then Err(TypeError)
      else
        match l.key
        case Name(k) => Ok(Slot(l.path, l.parent.fields, k))
        // An integer dict key has no counterpart in the model; the generator
        // never yields a route that ends with one (RoutesAreWellFormed).
        case Index(_) => Err(TypeError)
  }

  /** The context after the in-place assignment `data[key] = x`. */
  function Store(ctx: Value, s: Slot, x: Value): Value
  {
    Put(ctx, s.path, Obj(Assign(s.fields, s.key, x)))
  }

  // ------------------------------------------------------------ one directive

  /** One step of `_process_overrides`. */
  function OverrideAt(ctx: Value, r: Route, v: Value): Result<Value>
  {
    match SlotOf(ctx, r)
    case Err(e) => Err(e)
    case Ok(s) => Ok(Store(ctx, s, v))
  }

  /** Python's view of an integer subscript: `bool` is a subclass of `int`. */
  function AsInt(i: Value): Option<int>
  {
    match i
    case Num(n) => Some(n)
    case Bool(b) => Some(if b then 1 else 0)
    case _ => None
  }

  /** What `for i in leaf` iterates over; `None` when the leaf is not iterable. */
  function Iterated(leaf: Value): Option<seq<Value>>
  {
    match leaf
    case Arr(items) => Some(items)
    case Str(s) => Some(seq(|s|, j requires 0 <= j < |s| => Str([s[j]])))
    case Obj(fs) => Some(seq(|fs|, j requires 0 <= j < |fs| => Str(fs[j].key)))
    case _ => None
  }

  /** The position `xs[i]` reads in a list or string of length `n`. */
  function Position(n: nat, i: Value): Result<nat>
  {
    match AsInt(i)
    case None => Err(TypeError)
    case Some(m) => if PyIndex(n, m).Some? then Ok(PyIndex(n, m).value) else Err(IndexError)
  }

  /** `data[key][i]`, where `target` is `data.get(key)`. */
  function Subscript(target: Option<Value>, i: Value): Result<Value>
  {
    match target
    case None => Err(KeyError)
    case Some(Arr(xs)) =>
      if Position(|xs|, i).Ok? then Ok(xs[Position(|xs|, i).value]) else Err(Position(|xs|, i).error)
    case Some(Str(s)) =>
      if Position(|s|, i).Ok? then Ok(Str([s[Position(|s|, i).value]])) else Err(Position(|s|, i).error)
    case Some(Obj(fs)) =>
      (match i
       case Str(k) => if Lookup(fs, k).Some? then Ok(Lookup(fs, k).value) else Err(KeyError)
       case Arr(_) => Err(TypeError)
       case Obj(_) => Err(TypeError)
       case _ => Err(KeyError))
    case Some(_) => Err(TypeError)
  }

  /** `[data[key][i] for i in items]`: `data[key]` is only read once per item,
      so an empty selection never looks the key up. */
  function Select(target: Option<Value>, items: seq<Value>): Result<seq<Value>>
  {
    if items == [] then Ok([])
    else
      match Select(target, items[..|items| - 1])
      case Err(e) => Err(e)
      case Ok(ys) =>
        match Subscript(target, items[|items| - 1])
        case Err(e) => Err(e)
        case Ok(y) => Ok(ys + [y])
  }

  /** One step of `_process_filters`. */
  function FilterAt(ctx: Value, r: Route, leaf: Value): Result<Value>
  {
    match SlotOf(ctx, r)
    case Err(e) => Err(e)
    case Ok(s) =>
      match Iterated(leaf)
      case None => Err(TypeError)
      case Some(items) =>
        match Select(Lookup(s.fields, s.key), items)
        case Err(e) => Err(e)
        case Ok(ys) => Ok(Store(ctx, s, Arr(ys)))
  }

  // ------------------------------------------------------------ whole trees

  datatype Mode = Overriding | Filtering

  function Apply(mode: Mode, ctx: Value, r: Route, leaf: Value): Result<Value>
  {
    match mode
    case Overriding => OverrideAt(ctx, r, leaf)
    case Filtering => FilterAt(ctx, r, leaf)
  }

  /** The directives applied one after the other; the first failure aborts. */
  function ApplyAll(mode: Mode, ctx: Value, pairs: seq<(Route, Value)>): Result<Value>
  {
    if pairs == [] then Ok(ctx)
    else
      match ApplyAll(mode, ctx, pairs[..|pairs| - 1])
      case Err(e) => Err(e)
      case Ok(c) => Apply(mode, c, pairs[|pairs| - 1].0, pairs[|pairs| - 1].1)
  }

  /** `_process_overrides(context, tree)` or `_process_filters(context, tree)`.
      The generator is lazy, so the pairs yielded before a malformed key are
      applied before its assertion fails; both failures abort the run. */
  function Process(mode: Mode, ctx: Value, tree: seq<Field>): Result<Value>
  {
    var g := Flatten(tree, []);
    match ApplyAll(mode, ctx, g.pairs)
    case Err(e) => Err(e)
    case Ok(c) => if g.fault.Some? then Err(MalformedKey(g.fault.value)) else Ok(c)
  }

  /** `preprocess_ctx_with_user_settings`: overrides before filters. */
  function Preprocess(ctx: Value, overrides: seq<Field>, filters: seq<Field>): Result<Value>
  {
    match Process(Overriding, ctx, overrides)
    case Err(e) => Err(e)
    case Ok(c) => Process(Filtering, c, filters)
  }

  // ------------------------------------------------------------ methods

  /** The comprehension `[data[key][i] for i in items]`. */
  method SelectIndices(target: Option<Value>, items: seq<Value>) returns (res: Result<seq<Value>>)
    ensures res == Select(target, items)
  {
    var ys: seq<Value> := [];
    var i := 0;
    while i < |items|
      invariant 0 <= i <= |items|
      invariant Select(target, items[..i]) == Ok(ys)
    {
      assert items[..i + 1][..i] == items[..i];
      var y := Subscript(target, items[i]);
      if y.Err? {
        SelectErrPersists(target, items, i + 1);
        return Err(y.error);
      }
      ys := ys + [y.value];
      i := i + 1;
    }
    assert items[..i] == items;
    res := Ok(ys);
  }

  /** The body of the loops of `_process_overrides` and `_process_filters`:
      navigate, then assign into the container found. */
  method ApplyDirective(mode: Mode, c: Value, route: Route, leaf: Value) returns (next: Result<Value>)
    ensures next == Apply(mode, c, route, leaf)
  {
    var loc := GetDataFromRoute(c, route);
    if loc.Err? {
      return Err(loc.error);
    }
    if !loc.value.parent.Obj? || !loc.value.key.Name? {
      return Err(TypeError);
    }
    var data, key := loc.value.parent, loc.value.key.name;
    var slot := Slot(loc.value.path, data.fields, key);
    if mode.Overriding? {
      return Ok(Store(c, slot, leaf));
    }
    var items := Iterated(leaf);
    if items.None? {
      return Err(TypeError);
    }
    var picked := SelectIndices(Lookup(data.fields, key), items.value);
    if picked.Err? {
      return Err(picked.error);
    }
    next := Ok(Store(c, slot, Arr(picked.value)));
  }

  /** The loop shared by `_process_overrides` and `_process_filters`. */
  method ApplyDirectives(mode: Mode, ctx: Value, tree: seq<Field>) returns (res: Result<Value>)
    ensures res == Process(mode, ctx, tree)
  {
    var curr := new RouteBuffer();
    var g := RoutesAndVals(tree, curr);
    var c := ctx;
    var i := 0;
    while i < |g.pairs|
      invariant 0 <= i <= |g.pairs|
      invariant ApplyAll(mode, ctx, g.pairs[..i]) == Ok(c)
    {
      var (route, leaf) := g.pairs[i];
      var next := ApplyDirective(mode, c, route, leaf);
      ApplyAllStep(mode, ctx, g.pairs, i, c);
      if next.Err? {
        ApplyErrPersists(mode, ctx, g.pairs, i + 1);
        return Err(next.error);
      }
      c := next.value;
      i := i + 1;
    }
    assert g.pairs[..i] == g.pairs;
    res := if g.fault.Some? then Err(MalformedKey(g.fault.value)) else Ok(c);
  }

  method ProcessOverrides(ctx: Value, overrides: seq<Field>) returns (res: Result<Value>)
    ensures res == Process(Overriding, ctx, overrides)
  {
    res := ApplyDirectives(Overriding, ctx, overrides);
  }

  method ProcessFilters(ctx: Value, filters: seq<Field>) returns (res: Result<Value>)
    ensures res == Process(Filtering, ctx, filters)
  {
    res := ApplyDirectives(Filtering, ctx, filters);
  }

  method PreprocessCtxWithUserSettings(ctx: Value, overrides: seq<Field>, filters: seq<Field>)
    returns (res: Result<Value>)
    ensures res == Preprocess(ctx, overrides, filters)
  {
    res := ProcessOverrides(ctx, overrides);
    if res.Ok? {
      res := ProcessFilters(res.value, filters);
    }
  }

  lemma {:induction false} SelectErrPersists(target: Option<Value>, items: seq<Value>, j: nat)
    requires j <= |items| && Select(target, items[..j]).Err?
    ensures Select(target, items) == Select(target, items[..j])
    decreases |items| - j
  {
    if j < |items| {
      assert items[..j + 1][..j] == items[..j];
      SelectErrPersists(target, items, j + 1);
    } else {
      assert items[..j] == items;
    }
  }

  /** One more directive applied to what the earlier ones produced. */
  lemma ApplyAllStep(mode: Mode, ctx: Value, pairs: seq<(Route, Value)>, i: nat, c: Value)
    requires i < |pairs| && ApplyAll(mode, ctx, pairs[..i]) == Ok(c)
    ensures ApplyAll(mode, ctx, pairs[..i + 1]) == Apply(mode, c, pairs[i].0, pairs[i].1)
  {
    assert pairs[..i + 1][..i] == pairs[..i];
  }

  lemma {:induction false} ApplyErrPersists(mode: Mode, ctx: Value, pairs: seq<(Route, Value)>, j: nat)
    requires j <= |pairs| && ApplyAll(mode, ctx, pairs[..j]).Err?
    ensures ApplyAll(mode, ctx, pairs) == ApplyAll(mode, ctx, pairs[..j])
    decreases |pairs| - j
  {
    if j < |pairs| {
      assert pairs[..j + 1][..j] == pairs[..j];
      ApplyErrPersists(mode, ctx, pairs, j + 1);
    } else {
      assert pairs[..j] == pairs;
    }
  }

  // ------------------------------------------------------------ properties

  /** For a well-formed route, the assignment goes to the field the route
      names, inside the dict found at the route minus its last field. */
  lemma SlotOfRoute(ctx: Value, r: Route)
    requires WellFormedRoute(r) && SlotOf(ctx, r).Ok?
    ensures SlotOf(ctx, r).value.path + [Name(SlotOf(ctx, r).value.key)] == r
    ensures Get(ctx, SlotOf(ctx, r).value.path) == Some(Obj(SlotOf(ctx, r).value.fields))
  {
    LocateParent(ctx, r);
    assert r[..|r| - 1] + [r[|r| - 1]] == r;
  }

  /** An assignment along a well-formed route succeeds exactly when every
      navigation step and the route minus its last field reach a dict; the last
      field itself need not exist. */
  lemma SlotOfSucceedsIff(ctx: Value, r: Route)
    requires WellFormedRoute(r)
    ensures SlotOf(ctx, r).Ok? <==> StepsReachDicts(ctx, r, 0) && ObjAt(ctx, r[..|r| - 1])
  {
    LocateSucceedsIff(ctx, r);
    if Locate(ctx, r).Ok? {
      LocateParent(ctx, r);
    }
    if |r| == 1 {
      assert r[..0] == [];
    }
  }

  lemma StoreReadBack(ctx: Value, s: Slot, x: Value)
    requires Get(ctx, s.path) == Some(Obj(s.fields))
    ensures Get(Store(ctx, s, x), s.path + [Name(s.key)]) == Some(x)
  {
    GetPut(ctx, s.path, Obj(Assign(s.fields, s.key, x)), [Name(s.key)]);
    GetName(Obj(Assign(s.fields, s.key, x)), s.key);
  }

  lemma ExtendPrefix(p: Route, x: RouteItem, q: Route)
    ensures IsPrefix(q, p) ==> IsPrefix(q, p + [x])
    ensures IsPrefix(p, q) && |q| > |p| && q[|p|] == x ==> IsPrefix(p + [x], q)
  {
    if IsPrefix(q, p) {
      assert (p + [x])[..|q|] == p[..|q|];
    }
    if IsPrefix(p, q) && |q| > |p| && q[|p|] == x {
      assert q[..|p| + 1] == q[..|p|] + [q[|p|]];
    }
  }

  lemma StoreFrame(ctx: Value, s: Slot, x: Value, q: Route)
    requires Get(ctx, s.path) == Some(Obj(s.fields))
    requires Diverge(q, s.path + [Name(s.key)])
    ensures Get(Store(ctx, s, x), q) == Get(ctx, q)
  {
    var p := s.path;
    var target := p + [Name(s.key)];
    var x' := Obj(Assign(s.fields, s.key, x));
    ExtendPrefix(p, Name(s.key), q);
    if IsPrefix(p, q) {
      var rest := q[|p|..];
      assert q == p + rest;
      assert |rest| > 0 && rest[0] != Name(s.key);
      GetPut(ctx, p, x', rest);
      GetAppend(ctx, p, rest);
      assert rest == [rest[0]] + rest[1..];
      match rest[0]
      case Name(k) =>
        assert Lookup(x'.fields, k) == Lookup(s.fields, k);
      case Index(_) =>
    } else {
      GetPutDiverge(ctx, p, x', q);
    }
  }

  /** After an override, the route reads back the overriding value. */
  lemma OverrideReadBack(ctx: Value, r: Route, v: Value)
    requires WellFormedRoute(r) && OverrideAt(ctx, r, v).Ok?
    ensures Get(OverrideAt(ctx, r, v).value, r) == Some(v)
  {
    SlotOfRoute(ctx, r);
    StoreReadBack(ctx, SlotOf(ctx, r).value, v);
  }

  /** After a filter, the route holds the list of the selected elements of the
      value it held before. */
  lemma FilterReadBack(ctx: Value, r: Route, leaf: Value)
    requires WellFormedRoute(r) && FilterAt(ctx, r, leaf).Ok?
    ensures Iterated(leaf).Some? && Select(Get(ctx, r), Iterated(leaf).value).Ok?
    ensures Get(FilterAt(ctx, r, leaf).value, r) == Some(Arr(Select(Get(ctx, r), Iterated(leaf).value).value))
  {
    SlotOfRoute(ctx, r);
    var s := SlotOf(ctx, r).value;
    GetAppend(ctx, s.path, [Name(s.key)]);
    GetName(Obj(s.fields), s.key);
    assert Get(ctx, r) == Lookup(s.fields, s.key);
    StoreReadBack(ctx, s, Arr(Select(Get(ctx, r), Iterated(leaf).value).value));
  }

  /** An override or a filter leaves every path disjoint from its route as it
      was. */
  lemma ApplyFrame(mode: Mode, ctx: Value, r: Route, leaf: Value, q: Route)
    requires WellFormedRoute(r) && Apply(mode, ctx, r, leaf).Ok? && Diverge(q, r)
    ensures Get(Apply(mode, ctx, r, leaf).value, q) == Get(ctx, q)
  {
    SlotOfRoute(ctx, r);
    var s := SlotOf(ctx, r).value;
    match mode
    case Overriding => StoreFrame(ctx, s, leaf, q);
    case Filtering =>
      var ys := Select(Lookup(s.fields, s.key), Iterated(leaf).value).value;
      StoreFrame(ctx, s, Arr(ys), q);
  }

  predicate AllWellFormed(pairs: seq<(Route, Value)>)
  {
    forall j :: 0 <= j < |pairs| ==> WellFormedRoute(pairs[j].0)
  }

  /** Paths disjoint from every route of a run are untouched by it. */
  lemma {:induction false} ApplyAllFrame(mode: Mode, ctx: Value, pairs: seq<(Route, Value)>, q: Route)
    requires AllWellFormed(pairs) && ApplyAll(mode, ctx, pairs).Ok?
    requires forall j :: 0 <= j < |pairs| ==> Diverge(q, pairs[j].0)
    ensures Get(ApplyAll(mode, ctx, pairs).value, q) == Get(ctx, q)
    decreases |pairs|
  {
    if pairs != [] {
      var init := pairs[..|pairs| - 1];
      var last := pairs[|pairs| - 1];
      ApplyAllFrame(mode, ctx, init, q);
      ApplyFrame(mode, ApplyAll(mode, ctx, init).value, last.0, last.1, q);
    }
  }

  /** After a run of overrides, a route reads back its value as long as no
      later route overlaps it; when a route repeats, the later value wins. */
  lemma {:induction false} OverridesReadBack(ctx: Value, pairs: seq<(Route, Value)>, i: nat)
    requires AllWellFormed(pairs) && ApplyAll(Overriding, ctx, pairs).Ok?
    requires i < |pairs|
    requires forall j :: i < j < |pairs| ==> Diverge(pairs[i].0, pairs[j].0)
    ensures Get(ApplyAll(Overriding, ctx, pairs).value, pairs[i].0) == Some(pairs[i].1)
    decreases |pairs|
  {
    var init := pairs[..|pairs| - 1];
    var last := pairs[|pairs| - 1];
    var c := ApplyAll(Overriding, ctx, init).value;
    if i == |pairs| - 1 {
      OverrideReadBack(c, last.0, last.1);
    } else {
      OverridesReadBack(ctx, init, i);
      ApplyFrame(Overriding, c, last.0, last.1, pairs[i].0);
    }
  }

  lemma LaterOverrideWins(ctx: Value, r: Route, a: Value, b: Value)
    requires WellFormedRoute(r) && ApplyAll(Overriding, ctx, [(r, a), (r, b)]).Ok?
    ensures Get(ApplyAll(Overriding, ctx, [(r, a), (r, b)]).value, r) == Some(b)
  {
    OverridesReadBack(ctx, [(r, a), (r, b)], 1);
  }

  /** `_process_overrides` over a whole tree: each yielded route reads back
      its value unless a later route overlaps it, and every path disjoint from
      all routes is unchanged. */
  lemma ProcessOverridesSpec(ctx: Value, tree: seq<Field>, i: nat, q: Route)
    requires Process(Overriding, ctx, tree).Ok?
    ensures var ps := Flatten(tree, []).pairs;
      i < |ps| && (forall j :: i < j < |ps| ==> Diverge(ps[i].0, ps[j].0))
      ==> Get(Process(Overriding, ctx, tree).value, ps[i].0) == Some(ps[i].1)
    ensures var ps := Flatten(tree, []).pairs;
      (forall j :: 0 <= j < |ps| ==> Diverge(q, ps[j].0))
      ==> Get(Process(Overriding, ctx, tree).value, q) == Get(ctx, q)
  {
    var ps := Flatten(tree, []).pairs;
    RoutesAreWellFormed(tree);
    if i < |ps| && (forall j :: i < j < |ps| ==> Diverge(ps[i].0, ps[j].0)) {
      OverridesReadBack(ctx, ps, i);
    }
    if forall j :: 0 <= j < |ps| ==> Diverge(q, ps[j].0) {
      ApplyAllFrame(Overriding, ctx, ps, q);
    }
  }

  /** After a run of filters, a route that no other route of the run overlaps
      holds the selection of the value it held before the run. */
  lemma {:induction false} FiltersReadBack(ctx: Value, pairs: seq<(Route, Value)>, i: nat)
    requires AllWellFormed(pairs) && ApplyAll(Filtering, ctx, pairs).Ok?
    requires i < |pairs|
    requires forall j :: 0 <= j < |pairs| && j != i ==> Diverge(pairs[i].0, pairs[j].0)
    ensures Iterated(pairs[i].1).Some? && Select(Get(ctx, pairs[i].0), Iterated(pairs[i].1).value).Ok?
    ensures Get(ApplyAll(Filtering, ctx, pairs).value, pairs[i].0)
         == Some(Arr(Select(Get(ctx, pairs[i].0), Iterated(pairs[i].1).value).value))
    decreases |pairs|
  {
    var init := pairs[..|pairs| - 1];
    var last := pairs[|pairs| - 1];
    var c := ApplyAll(Filtering, ctx, init).value;
    assert forall j :: 0 <= j < |init| ==> init[j] == pairs[j];
    if i == |pairs| - 1 {
      ApplyAllFrame(Filtering, ctx, init, last.0);
      FilterReadBack(c, last.0, last.1);
    } else {
      FiltersReadBack(ctx, init, i);
      ApplyFrame(Filtering, c, last.0, last.1, pairs[i].0);
    }
  }

  /** `_process_filters` over a whole tree: each yielded route that no other
      route overlaps ends up holding the selected elements of its value
      before the run. */
  lemma ProcessFiltersSpec(ctx: Value, tree: seq<Field>, i: nat)
    requires Process(Filtering, ctx, tree).Ok?
    ensures var ps := Flatten(tree, []).pairs;
      i < |ps| && (forall j :: 0 <= j < |ps| && j != i ==> Diverge(ps[i].0, ps[j].0))
      ==> && Iterated(ps[i].1).Some? && Select(Get(ctx, ps[i].0), Iterated(ps[i].1).value).Ok?
          && Get(Process(Filtering, ctx, tree).value, ps[i].0)
             == Some(Arr(Select(Get(ctx, ps[i].0), Iterated(ps[i].1).value).value))
  {
    var ps := Flatten(tree, []).pairs;
    RoutesAreWellFormed(tree);
    if i < |ps| && (forall j :: 0 <= j < |ps| && j != i ==> Diverge(ps[i].0, ps[j].0)) {
      FiltersReadBack(ctx, ps, i);
    }
  }

  /** `_process_filters` over a whole tree leaves every path disjoint from all
      its routes unchanged. */
  lemma ProcessFiltersFrame(ctx: Value, tree: seq<Field>, q: Route)
    requires Process(Filtering, ctx, tree).Ok?
    requires forall j :: 0 <= j < |Flatten(tree, []).pairs| ==> Diverge(q, Flatten(tree, []).pairs[j].0)
    ensures Get(Process(Filtering, ctx, tree).value, q) == Get(ctx, q)
  {
    RoutesAreWellFormed(tree);
    ApplyAllFrame(Filtering, ctx, Flatten(tree, []).pairs, q);
  }

  predicate AllInts(items: seq<Value>)
  {
    forall j :: 0 <= j < |items| ==> items[j].Num?
  }

  /** Selecting integer positions of a list succeeds exactly when each is in
      Python's range, and yields, in the order of the indices, the element
      each one denotes; duplicates repeat elements and negative indices count
      from the end. */
  lemma {:induction false} SelectFromList(xs: seq<Value>, items: seq<Value>)
    requires AllInts(items)
    ensures Select(Some(Arr(xs)), items).Ok?
        <==> forall j :: 0 <= j < |items| ==> PyIndex(|xs|, items[j].n).Some?
    ensures Select(Some(Arr(xs)), items).Ok? ==>
      var ys := Select(Some(Arr(xs)), items).value;
      |ys| == |items| &&
      forall j :: 0 <= j < |items| ==> ys[j] == xs[PyIndex(|xs|, items[j].n).value]
    decreases |items|
  {
    if items != [] {
      var init := items[..|items| - 1];
      assert AllInts(init) by {
        forall j | 0 <= j < |init| ensures init[j].Num? { assert init[j] == items[j]; }
      }
      SelectFromList(xs, init);
      assert forall j :: 0 <= j < |init| ==> init[j] == items[j];
    }
  }

  lemma FilterExamples()
    ensures Select(Some(Arr([Str("A"), Str("B"), Str("C"), Str("D")])), [Num(0), Num(2)])
         == Ok([Str("A"), Str("C")])
    ensures Select(Some(Arr([Str("A"), Str("B"), Str("C"), Str("D")])), [Num(-1), Num(1), Num(1)])
         == Ok([Str("D"), Str("B"), Str("B")])
    ensures !Select(Some(Arr([Str("A"), Str("B"), Str("C"), Str("D")])), [Num(0), Num(4)]).Ok?
    ensures Select(None, []) == Ok([])
  {
    var xs := [Str("A"), Str("B"), Str("C"), Str("D")];
    var a, b, c := [Num(0), Num(2)], [Num(-1), Num(1), Num(1)], [Num(0), Num(4)];
    assert AllInts(a) && AllInts(b) && AllInts(c);
    SelectFromList(xs, a);
    SelectFromList(xs, b);
    SelectFromList(xs, c);
    assert PyIndex(4, a[0].n) == Some(0) && PyIndex(4, a[1].n) == Some(2);
    assert PyIndex(4, b[0].n) == Some(3) && PyIndex(4, b[1].n) == Some(1) && PyIndex(4, b[2].n) == Some(1);
    assert PyIndex(4, c[1].n).None?;
    var ya, yb := Select(Some(Arr(xs)), a).value, Select(Some(Arr(xs)), b).value;
    assert ya[0] == xs[0] && ya[1] == xs[2];
    assert ya == [Str("A"), Str("C")];
    assert yb[0] == xs[3] && yb[1] == xs[1] && yb[2] == xs[1];
    assert yb == [Str("D"), Str("B"), Str("B")];
  }

  /** A tree of one plain key over a leaf is one directive on that key. */
  lemma ProcessPlainLeaf(mode: Mode, ctx: Value, k: string, v: Value)
    requires k != [] && SettingsKey.NoBrackets(k) && !v.Obj?
    ensures Process(mode, ctx, [Field(k, v)]) == Apply(mode, ctx, [Name(k)], v)
  {
    PlainLeaf(k, v);
    var ps := [([Name(k)], v)];
    assert ps[..0] == [];
    assert ApplyAll(mode, ctx, ps[..0]) == Ok(ctx);
    assert ApplyAll(mode, ctx, ps) == Apply(mode, ctx, [Name(k)], v);
  }

  /** A top-level key of a dict is stored in that dict. */
  lemma SlotOfTopKey(fs: seq<Field>, k: string)
    ensures SlotOf(Obj(fs), [Name(k)]) == Ok(Slot([], fs, k))
  {
    LocateSingle(Obj(fs), Name(k));
  }

  /** Assigning the only key of a one-field dict. */
  lemma AssignOnly(k: string, v: Value, x: Value)
    ensures Assign([Field(k, v)], k, x) == [Field(k, x)]
  {
    assert [Field(k, v)][1..] == [];
  }

  lemma OverrideReplacesList()
    ensures Process(Overriding, Obj([Field("xs", Arr([Str("A"), Str("B")]))]),
                    [Field("xs", Arr([Str("A"), Str("B"), Str("C")]))])
         == Ok(Obj([Field("xs", Arr([Str("A"), Str("B"), Str("C")]))]))
  {
    var xs2, xs3 := Arr([Str("A"), Str("B")]), Arr([Str("A"), Str("B"), Str("C")]);
    assert SettingsKey.NoBrackets("xs");
    ProcessPlainLeaf(Overriding, Obj([Field("xs", xs2)]), "xs", xs3);
    SlotOfTopKey([Field("xs", xs2)], "xs");
    AssignOnly("xs", xs2, xs3);
  }

  lemma FilterPicksThird()
    ensures Process(Filtering, Obj([Field("xs", Arr([Str("A"), Str("B"), Str("C")]))]),
                    [Field("xs", Arr([Num(2)]))])
         == Ok(Obj([Field("xs", Arr([Str("C")]))]))
  {
    var xs3, sel := Arr([Str("A"), Str("B"), Str("C")]), Arr([Num(2)]);
    var c := Obj([Field("xs", xs3)]);
    assert SettingsKey.NoBrackets("xs");
    ProcessPlainLeaf(Filtering, c, "xs", sel);
    SlotOfTopKey(c.fields, "xs");
    assert Iterated(sel) == Some([Num(2)]);
    assert Lookup(c.fields, "xs") == Some(xs3);
    assert [Num(2)][..0] == [];
    assert Position(3, Num(2)) == Ok(2);
    assert Subscript(Some(xs3), Num(2)) == Ok(Str("C"));
    assert Select(Some(xs3), [Num(2)]) == Ok([] + [Str("C")]);
    assert [] + [Str("C")] == [Str("C")];
    AssignOnly("xs", xs3, Arr([Str("C")]));
  }

  lemma FilterOutOfRange()
    ensures Process(Filtering, Obj([Field("xs", Arr([Str("A"), Str("B")]))]), [Field("xs", Arr([Num(2)]))])
         == Err(IndexError)
  {
    var xs2, sel := Arr([Str("A"), Str("B")]), Arr([Num(2)]);
    var c := Obj([Field("xs", xs2)]);
    assert SettingsKey.NoBrackets("xs");
    ProcessPlainLeaf(Filtering, c, "xs", sel);
    SlotOfTopKey(c.fields, "xs");
    assert Iterated(sel) == Some([Num(2)]);
    assert Lookup(c.fields, "xs") == Some(xs2);
    assert [Num(2)][..0] == [];
    assert Position(2, Num(2)) == Err(IndexError);
  }

  /** Overrides are applied before filters: a filter may select from a list
      the overrides just replaced, with an index that the original list would
      not have. */
  lemma OverridesBeforeFilters()
    ensures var ctx := Obj([Field("xs", Arr([Str("A"), Str("B")]))]);
      && Preprocess(ctx, [Field("xs", Arr([Str("A"), Str("B"), Str("C")]))], [Field("xs", Arr([Num(2)]))])
         == Ok(Obj([Field("xs", Arr([Str("C")]))]))
      && Process(Filtering, ctx, [Field("xs", Arr([Num(2)]))]) == Err(IndexError)
  {
    OverrideReplacesList();
    FilterPicksThird();
    FilterOutOfRange();
  }
}
