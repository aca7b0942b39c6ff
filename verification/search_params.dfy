/**
 * `URLSearchParams` as an ordered list of name/value pairs. Percent-encoding is not modelled:
 * a query string is the pairs written as `name=value`, joined by `&`.
 */
module SearchParams {
  import opened Wrappers

  type Params = seq<(string, string)>

  /** Whether some pair has the name. */
  predicate HasName(ps: Params, name: string)
    decreases |ps|
  {
    ps != [] && (ps[0].0 == name || HasName(ps[1..], name))
  }

  /** `HasName` is the existence of a pair with the name. */
  lemma {:induction false} HasNameIff(ps: Params, name: string)
    ensures HasName(ps, name) <==> exists i :: 0 <= i < |ps| && ps[i].0 == name
    decreases |ps|
  {
    if ps != [] {
      HasNameIff(ps[1..], name);
      if exists i :: 0 <= i < |ps| && ps[i].0 == name {
        var i :| 0 <= i < |ps| && ps[i].0 == name;
        if i > 0 {
          assert ps[1..][i - 1].0 == name;
        }
      }
      if HasName(ps[1..], name) {
        var j :| 0 <= j < |ps[1..]| && ps[1..][j].0 == name;
        assert ps[j + 1].0 == name;
      }
    }
  }

  /** A name occurs in a concatenation when it occurs in either part. */
  lemma {:induction false} HasNameAppend(ps: Params, qs: Params, name: string)
    ensures HasName(ps + qs, name) <==> HasName(ps, name) || HasName(qs, name)
    decreases |ps|
  {
    if ps == [] {
      assert ps + qs == qs;
    } else {
      assert (ps + qs)[1..] == ps[1..] + qs;
      HasNameAppend(ps[1..], qs, name);
    }
  }

  /** A single pair holds only its own name. */
  lemma HasNameOne(n: string, v: string, name: string)
    ensures HasName([(n, v)], name) <==> n == name
  {
    assert [(n, v)][1..] == [];
  }

  /** `params.get(name)`: the value of the first pair with that name. */
  function Get(ps: Params, name: string): (r: Option<string>)
    ensures r.None? <==> !HasName(ps, name)
    ensures r.Some? ==> (name, r.value) in ps
  {
    if ps == [] then None
    else if ps[0].0 == name then Some(ps[0].1)
    else Get(ps[1..], name)
  }

  /** `params.getAll(name)`: the values of all pairs with that name, in order. */
  function GetAll(ps: Params, name: string): (r: seq<string>)
    ensures |r| <= |ps|
    ensures r == [] <==> !HasName(ps, name)
  {
    if ps == [] then []
    else (if ps[0].0 == name then [ps[0].1] else []) + GetAll(ps[1..], name)
  }

  /** `getAll` returns exactly the values paired with the name. */
  lemma {:induction false} GetAllValues(ps: Params, name: string)
    ensures forall v :: v in GetAll(ps, name) <==> (name, v) in ps
    decreases |ps|
  {
    if ps != [] {
      GetAllValues(ps[1..], name);
      assert ps == [ps[0]] + ps[1..];
    }
  }

  /** `params.append(name, value)`. */
  function Append(ps: Params, name: string, value: string): Params {
    ps + [(name, value)]
  }

  /** `params.set(name, value)`: the first pair with that name takes the value and every later
      pair with that name is removed; without such a pair, the pair is appended. */
  function Set(ps: Params, name: string, value: string): (r: Params)
    ensures Get(r, name) == Some(value)
    ensures GetAll(r, name) == [value]
    ensures forall n :: n != name ==> GetAll(r, n) == GetAll(ps, n)
    ensures !HasName(ps, name) ==> r == ps + [(name, value)]
  {
    if ps == [] then [(name, value)]
    else if ps[0].0 == name then [(name, value)] + Without(ps[1..], name)
    else [ps[0]] + Set(ps[1..], name, value)
  }

  /** The pairs whose name is not `name`. */
  function Without(ps: Params, name: string): (r: Params)
    ensures GetAll(r, name) == []
    ensures forall n :: n != name ==> GetAll(r, n) == GetAll(ps, n)
    ensures !HasName(r, name)
  {
    if ps == [] then []
    else if ps[0].0 == name then Without(ps[1..], name)
    else [ps[0]] + Without(ps[1..], name)
  }

  /** `params.toString()` without percent-encoding. */
  function Serialize(ps: Params): (qs: string)
    ensures qs == "" <==> ps == []
  {
    if ps == [] then ""
    else if |ps| == 1 then ps[0].0 + "=" + ps[0].1
    else ps[0].0 + "=" + ps[0].1 + "&" + Serialize(ps[1..])
  }

  /** `qs ? base + "?" + qs : base`. */
  function Route(base: string, ps: Params): (r: string)
    ensures ps == [] ==> r == base
    ensures ps != [] ==> r == base + "?" + Serialize(ps)
  {
    var qs := Serialize(ps);
    if qs != "" then base + "?" + qs else base
  }

  /** Lookups distribute over concatenation. */
  lemma {:induction false} GetAllAppend(ps: Params, qs: Params, name: string)
    ensures GetAll(ps + qs, name) == GetAll(ps, name) + GetAll(qs, name)
    decreases |ps|
  {
    if ps != [] {
      assert (ps + qs)[1..] == ps[1..] + qs;
      GetAllAppend(ps[1..], qs, name);
    } else {
      assert ps + qs == qs;
    }
  }

  /** `get` is the first value `getAll` returns. */
  lemma {:induction false} GetIsFirstOfAll(ps: Params, name: string)
    ensures Get(ps, name) == (if GetAll(ps, name) == [] then None else Some(GetAll(ps, name)[0]))
    decreases |ps|
  {
    if ps != [] {
      GetIsFirstOfAll(ps[1..], name);
    }
  }
}
