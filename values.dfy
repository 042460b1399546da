/** The JSON-like data the generation pipeline works on: the user's context,
    the overrides and filters trees and the template settings are all values of
    this shape. A Python dict keeps its insertion order, so a mapping is an
    ordered list of fields; assigning to a key that is already present keeps
    its position, assigning a new key appends it. */
module Values {

  datatype Option<T> = None | Some(value: T)

  /** The failures the pipeline can raise. Python raises them as exceptions that
      abort the whole run; the model returns them. */
  datatype Error =
    | MalformedKey(key: string)   // AssertionError: a spec key is neither `name` nor `name[digits]`
    | NotAList                    // AssertionError: a route index follows a field that is not a list
    | NotADict                    // AssertionError: a navigation step did not end on a dict
    | KeyError                    // a dict lookup of an absent key
    | IndexError                  // a list or string index out of range (or an empty route)
    | TypeError                   // subscripting or iterating a value that does not support it
    | AttributeError              // calling a dict method on a value that is not a dict
    | ValueError                  // `list.index` of an item the list does not hold
    | NoWarehouses                // AssertionError: no warehouse is registered

  datatype Result<T> = Ok(value: T) | Err(error: Error)

  datatype Value =
    | Null
    | Bool(b: bool)
    | Num(n: int)
    | Str(s: string)
    | Arr(items: seq<Value>)
    | Obj(fields: seq<Field>)

  datatype Field = Field(key: string, val: Value)

  /** One element of a route: a field name, or a list index (only produced from
      the digits of a `name[digits]` key, hence never negative). */
  datatype RouteItem = Name(name: string) | Index(index: nat)

  type Route = seq<RouteItem>

  // ---------------------------------------------------------------- mappings

  function KeySet(fs: seq<Field>): set<string>
  {
    if fs == [] then {} else {fs[0].key} + KeySet(fs[1..])
  }

  /** A Python dict never holds a key twice. */
  predicate DistinctKeys(fs: seq<Field>)
  {
    fs == [] || (fs[0].key !in KeySet(fs[1..]) && DistinctKeys(fs[1..]))
  }

  /** `d.get(k)`: the value of the first field named `k`. */
  function Lookup(fs: seq<Field>, k: string): (r: Option<Value>)
    ensures r.Some? <==> k in KeySet(fs)
  {
    if fs == [] then None
    else if fs[0].key == k then Some(fs[0].val)
    else Lookup(fs[1..], k)
  }

  /** `d[k] = v`: replaces the value of the first field named `k` where it
      stands, or appends the field when `k` is absent. */
  function Assign(fs: seq<Field>, k: string, v: Value): (r: seq<Field>)
    ensures Lookup(r, k) == Some(v)
    ensures forall k' :: k' != k ==> Lookup(r, k') == Lookup(fs, k')
    ensures KeySet(r) == KeySet(fs) + {k}
    ensures |r| == if k in KeySet(fs) then |fs| else |fs| + 1
    ensures DistinctKeys(fs) ==> DistinctKeys(r)
  {
    if fs == [] then [Field(k, v)]
    else if fs[0].key == k then
      var r := [Field(k, v)] + fs[1..];
      assert r[1..] == fs[1..];
      r
    else
      var rest := Assign(fs[1..], k, v);
      var r := [fs[0]] + rest;
      assert r[1..] == rest;
      r
  }

  /** `d.update(u)`: assigns the fields of `u` to `d` one after the other. */
  function Update(fs: seq<Field>, us: seq<Field>): (r: seq<Field>)
    ensures KeySet(r) == KeySet(fs) + KeySet(us)
    decreases |us|
  {
    if us == [] then fs
    else Update(Assign(fs, us[0].key, us[0].val), us[1..])
  }

  /** After `d.update(u)` every key of either side is present and the values of
      `u` win on the keys the two share. */
  lemma {:induction false} UpdateLookup(fs: seq<Field>, us: seq<Field>, k: string)
    requires DistinctKeys(us)
    ensures Lookup(Update(fs, us), k) == if k in KeySet(us) then Lookup(us, k) else Lookup(fs, k)
    decreases |us|
  {
    if us != [] {
      UpdateLookup(Assign(fs, us[0].key, us[0].val), us[1..], k);
    }
  }

  // ------------------------------------------------------------ Python indexing

  /** `xs[i]` for a sequence of length `n` in Python: a negative index counts
      from the end; anything outside `-n .. n-1` raises IndexError. */
  function PyIndex(n: nat, i: int): (r: Option<nat>)
    ensures r.Some? <==> -(n as int) <= i < n
    ensures r.Some? ==> r.value < n && (r.value == i || r.value == n + i)
  {
    if 0 <= i < n then Some(i)
    else if -(n as int) <= i < 0 then Some(n + i)
    else None
  }

  // ------------------------------------------------------------ paths

  predicate IsPrefix(p: Route, q: Route)
  {
    |p| <= |q| && q[..|p|] == p
  }

  /** Two paths address disjoint parts of a value: neither extends the other. */
  predicate Diverge(p: Route, q: Route)
  {
    !IsPrefix(p, q) && !IsPrefix(q, p)
  }

  /** The value found by following `p` from `v`: a name step reads a dict
      field, an index step reads a list element. */
  function Get(v: Value, p: Route): Option<Value>
    decreases p
  {
    if p == [] then Some(v)
    else
      match p[0]
      case Name(k) =>
        if v.Obj? && Lookup(v.fields, k).Some? then Get(Lookup(v.fields, k).value, p[1..]) else None
      case Index(i) =>
        if v.Arr? && i < |v.items| then Get(v.items[i], p[1..]) else None
  }

  /** `v` with the part at path `p` replaced by `x`; this is how an in-place
      write into a nested object is seen from the root. A path that does not
      exist leaves `v` unchanged. */
  function Put(v: Value, p: Route, x: Value): Value
    decreases p
  {
    if p == [] then x
    else
      match p[0]
      case Name(k) =>
        if v.Obj? && Lookup(v.fields, k).Some? then
          Obj(Assign(v.fields, k, Put(Lookup(v.fields, k).value, p[1..], x)))
        else v
      case Index(i) =>
        if v.Arr? && i < |v.items| then Arr(v.items[i := Put(v.items[i], p[1..], x)]) else v
  }

  lemma {:induction false} GetAppend(v: Value, p: Route, q: Route)
    ensures Get(v, p + q) == if Get(v, p).Some? then Get(Get(v, p).value, q) else None
    decreases p
  {
    if p != [] {
      assert (p + q)[0] == p[0] && (p + q)[1..] == p[1..] + q;
      match p[0]
      case Name(k) =>
        if v.Obj? && Lookup(v.fields, k).Some? { GetAppend(Lookup(v.fields, k).value, p[1..], q); }
      case Index(i) =>
        if v.Arr? && i < |v.items| { GetAppend(v.items[i], p[1..], q); }
    } else {
      assert p + q == q;
    }
  }

  /** Reading below a written path reads inside the written value. */
  lemma {:induction false} GetPut(v: Value, p: Route, x: Value, q: Route)
    requires Get(v, p).Some?
    ensures Get(Put(v, p, x), p + q) == Get(x, q)
    decreases p
  {
    if p == [] {
      assert p + q == q;
    } else {
      assert (p + q)[0] == p[0] && (p + q)[1..] == p[1..] + q;
      match p[0]
      case Name(k) =>
        GetPut(Lookup(v.fields, k).value, p[1..], x, q);
      case Index(i) =>
        GetPut(v.items[i], p[1..], x, q);
    }
  }

  lemma PrefixCons(p: Route, q: Route)
    requires p != [] && q != [] && p[0] == q[0]
    ensures IsPrefix(p[1..], q[1..]) ==> IsPrefix(p, q)
  {
    if IsPrefix(p[1..], q[1..]) {
      assert q[..|p|] == [q[0]] + q[1..][..|p| - 1];
    }
  }

  /** A write at one path leaves every disjoint path as it was. */
  lemma {:induction false} GetPutDiverge(v: Value, p: Route, x: Value, q: Route)
    requires Diverge(p, q)
    ensures Get(Put(v, p, x), q) == Get(v, q)
    decreases p
  {
    assert p != [] && q != [];
    if p[0] == q[0] {
      PrefixCons(p, q);
      PrefixCons(q, p);
      match p[0]
      case Name(k) =>
        if v.Obj? && Lookup(v.fields, k).Some? {
          GetPutDiverge(Lookup(v.fields, k).value, p[1..], x, q[1..]);
        }
      case Index(i) =>
        if v.Arr? && i < |v.items| {
          GetPutDiverge(v.items[i], p[1..], x, q[1..]);
        }
    } else {
      match p[0]
      case Name(k) =>
        if v.Obj? && Lookup(v.fields, k).Some? {
          match q[0]
          case Name(k') => assert k' != k;
          case Index(_) =>
        }
      case Index(i) =>
        if v.Arr? && i < |v.items| {
          match q[0]
          case Name(_) =>
          case Index(j) => assert j != i;
        }
    }
  }
}
