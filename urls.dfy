/**
 * URLs as the client sees them: a base (scheme, host, path and fragment, taken as one
 * opaque string) and an ordered list of query pairs. Percent-encoding is not modelled.
 */
module Urls {
  import opened Wrappers

  datatype Param = Param(key: string, value: string)

  datatype Url = Url(base: string, query: seq<Param>)

  /** `URLSearchParams.get`: the value of the FIRST pair with this key, if any. */
  function Get(query: seq<Param>, key: string): (r: Option<string>)
    ensures r.None? <==> forall i | 0 <= i < |query| :: query[i].key != key
    ensures r.Some? ==> exists i | 0 <= i < |query| ::
                          query[i] == Param(key, r.value) && forall j | 0 <= j < i :: query[j].key != key
  {
    if query == [] then None
    else if query[0].key == key then Some(query[0].value)
    else
      var r := Get(query[1..], key);
      assert r.Some? ==> exists i | 1 <= i < |query| ::
                           query[i] == Param(key, r.value) && forall j | 0 <= j < i :: query[j].key != key by {
        if r.Some? {
          var i :| 0 <= i < |query[1..]| && query[1..][i] == Param(key, r.value)
                   && forall j | 0 <= j < i :: query[1..][j].key != key;
          assert query[i + 1] == Param(key, r.value);
          assert forall j | 0 <= j < i + 1 :: query[j].key != key by {
            forall j | 0 <= j < i + 1 ensures query[j].key != key {
              if j > 0 { assert query[j] == query[1..][j - 1]; }
            }
          }
        }
      }
      r
  }

  /** `URLSearchParams.getAll`: the values of every pair with this key, in order. */
  function GetAll(query: seq<Param>, key: string): (r: seq<string>)
    ensures |r| <= |query|
  {
    if query == [] then []
    else (if query[0].key == key then [query[0].value] else []) + GetAll(query[1..], key)
  }

  /** `getAll` returns exactly the values stored under the key. */
  lemma {:induction false} GetAllMembers(query: seq<Param>, key: string)
    ensures forall v :: v in GetAll(query, key) <==> Param(key, v) in query
  {
    if query != [] {
      GetAllMembers(query[1..], key);
      assert query == [query[0]] + query[1..];
    }
  }

  /** `get` is the first of the values `getAll` returns. */
  lemma {:induction false} GetIsFirstOfGetAll(query: seq<Param>, key: string)
    ensures Get(query, key) == if GetAll(query, key) == [] then None else Some(GetAll(query, key)[0])
  {
    if query != [] {
      GetIsFirstOfGetAll(query[1..], key);
    }
  }

  lemma {:induction false} GetAllAppend(a: seq<Param>, b: seq<Param>, key: string)
    ensures GetAll(a + b, key) == GetAll(a, key) + GetAll(b, key)
  {
    if a == [] {
      assert a + b == b;
    } else {
      var head := if a[0].key == key then [a[0].value] else [];
      assert (a + b)[0] == a[0] && (a + b)[1..] == a[1..] + b;
      assert GetAll(a + b, key) == head + GetAll(a[1..] + b, key);
      GetAllAppend(a[1..], b, key);
      assert GetAll(a, key) == head + GetAll(a[1..], key);
    }
  }
}
