/** The query string of the catalogue page as `URLSearchParams` sees it: an ordered list of
    name/value pairs in which a name may repeat. Only the four operations the page uses are modelled:
    `get`, `getAll`, `append` and `set`. */
module UrlParams {
  import opened Common

  datatype Param = Param(name: string, value: string)

  type Params = seq<Param>

  /** `getAll(name)`: the values stored under `name`, in order. */
  function GetAll(ps: Params, name: string): (r: seq<string>)
    ensures |r| <= |ps|
  {
    if ps == [] then []
    else (if ps[0].name == name then [ps[0].value] else []) + GetAll(ps[1..], name)
  }

  /** `get(name)`: the first value stored under `name`, or `None` (`null`) when there is none. */
  function Get(ps: Params, name: string): (r: Option<string>)
    ensures r.None? <==> GetAll(ps, name) == []
    ensures r.Some? ==> r.value == GetAll(ps, name)[0]
  {
    if ps == [] then None
    else if ps[0].name == name then Some(ps[0].value)
    else Get(ps[1..], name)
  }

  /** `append(name, value)`: a new pair at the end. */
  function Append(ps: Params, name: string, value: string): Params
  {
    ps + [Param(name, value)]
  }

  /** `set(name, value)`: the first pair under `name` takes the value and the later ones are dropped;
      with no pair under `name`, a new pair goes at the end. */
  function Set(ps: Params, name: string, value: string): Params
  {
    if ps == [] then [Param(name, value)]
    else if ps[0].name == name then [Param(name, value)] + Drop(ps[1..], name)
    else [ps[0]] + Set(ps[1..], name, value)
  }

  /** The pairs whose name is not `name`. */
  function Drop(ps: Params, name: string): Params
  {
    if ps == [] then []
    else (if ps[0].name == name then [] else [ps[0]]) + Drop(ps[1..], name)
  }

  /** `GetAll` of a concatenation. */
  lemma {:induction false} GetAllConcat(a: Params, b: Params, name: string)
    ensures GetAll(a + b, name) == GetAll(a, name) + GetAll(b, name)
  {
    if a == [] {
      assert a + b == b;
    } else {
      var h: seq<string> := if a[0].name == name then [a[0].value] else [];
      assert (a + b)[0] == a[0];
      assert (a + b)[1..] == a[1..] + b;
      assert GetAll(a + b, name) == h + GetAll(a[1..] + b, name);
      GetAllConcat(a[1..], b, name);
      assert h + (GetAll(a[1..], name) + GetAll(b, name)) == (h + GetAll(a[1..], name)) + GetAll(b, name);
    }
  }

  /** `Drop` removes every value of `name` and keeps the values of every other name. */
  lemma {:induction false} DropEffect(ps: Params, name: string, other: string)
    ensures GetAll(Drop(ps, name), name) == []
    ensures other != name ==> GetAll(Drop(ps, name), other) == GetAll(ps, other)
  {
    if ps != [] {
      DropEffect(ps[1..], name, other);
      var head: Params := if ps[0].name == name then [] else [ps[0]];
      GetAllConcat(head, Drop(ps[1..], name), name);
      GetAllConcat(head, Drop(ps[1..], name), other);
    }
  }

  /** After `append(name, value)`, `getAll(name)` has gained `value` at its end and every other name
      reads as before. */
  lemma AppendEffect(ps: Params, name: string, value: string, other: string)
    ensures GetAll(Append(ps, name, value), name) == GetAll(ps, name) + [value]
    ensures other != name ==> GetAll(Append(ps, name, value), other) == GetAll(ps, other)
  {
    GetAllConcat(ps, [Param(name, value)], name);
    GetAllConcat(ps, [Param(name, value)], other);
  }

  /** After `set(name, value)`, `getAll(name)` is exactly `[value]` and every other name reads as
      before. */
  lemma {:induction false} SetEffect(ps: Params, name: string, value: string, other: string)
    ensures GetAll(Set(ps, name, value), name) == [value]
    ensures other != name ==> GetAll(Set(ps, name, value), other) == GetAll(ps, other)
  {
    if ps == [] {
    } else if ps[0].name == name {
      DropEffect(ps[1..], name, other);
      GetAllConcat([Param(name, value)], Drop(ps[1..], name), name);
      GetAllConcat([Param(name, value)], Drop(ps[1..], name), other);
    } else {
      SetEffect(ps[1..], name, value, other);
      GetAllConcat([ps[0]], Set(ps[1..], name, value), name);
      GetAllConcat([ps[0]], Set(ps[1..], name, value), other);
    }
  }
}
