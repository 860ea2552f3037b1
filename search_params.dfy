/** The list of name/value pairs behind a URLSearchParams object, as the
    WHATWG URL Standard (section 6.2, the URLSearchParams class) defines it:
    `append` adds a pair at the end, `get` returns the value of the first pair
    with a name, `getAll` the values of all such pairs in list order.
    Percent-encoding of the list into a request body is not modelled. */
module SearchParams {
  import opened Wrappers

  type Pair = (string, string)

  /** A URLSearchParams object; the workers fill one by successive appends. */
  class Params {
    var list: seq<Pair>

    constructor ()
      ensures list == []
    {
      list := [];
    }

    method Append(name: string, value: string)
      modifies this
      ensures list == old(list) + [(name, value)]
    {
      list := list + [(name, value)];
    }
  }

  /** The names of the pairs, in list order. */
  function Names(ps: seq<Pair>): seq<string>
  {
    seq(|ps|, i requires 0 <= i < |ps| => ps[i].0)
  }

  /** URLSearchParams.get: the value of the first pair named `name`. */
  function Get(ps: seq<Pair>, name: string): Option<string>
  {
    if ps == [] then None
    else if ps[0].0 == name then Some(ps[0].1)
    else Get(ps[1..], name)
  }

  /** URLSearchParams.getAll: the values of all pairs named `name`, in order. */
  function GetAll(ps: seq<Pair>, name: string): seq<string>
  {
    if ps == [] then []
    else (if ps[0].0 == name then [ps[0].1] else []) + GetAll(ps[1..], name)
  }

  /** No name occurs twice. */
  predicate Distinct(ns: seq<string>)
  {
    forall i, j :: 0 <= i < j < |ns| ==> ns[i] != ns[j]
  }

  /** `get` is the head of `getAll`. */
  lemma {:induction false} GetIsFirstOfGetAll(ps: seq<Pair>, name: string)
    ensures Get(ps, name) == if GetAll(ps, name) == [] then None else Some(GetAll(ps, name)[0])
  {
    if ps != [] && ps[0].0 != name {
      GetIsFirstOfGetAll(ps[1..], name);
    }
  }

  /** Appending to a list appends to what `getAll` returns for every name. */
  lemma {:induction false} GetAllAppend(ps: seq<Pair>, qs: seq<Pair>, name: string)
    ensures GetAll(ps + qs, name) == GetAll(ps, name) + GetAll(qs, name)
  {
    if ps == [] {
      assert ps + qs == qs;
    } else {
      assert (ps + qs)[1..] == ps[1..] + qs;
      GetAllAppend(ps[1..], qs, name);
    }
  }

  /** A name no pair carries has no values. */
  lemma {:induction false} GetAllAbsent(ps: seq<Pair>, name: string)
    requires name !in Names(ps)
    ensures GetAll(ps, name) == []
  {
    if ps != [] {
      assert Names(ps)[0] == ps[0].0;
      assert Names(ps[1..]) == Names(ps)[1..];
      GetAllAbsent(ps[1..], name);
    }
  }

  /** A list of pairs that all carry one name yields their values, in order. */
  lemma {:induction false} GetAllOfOneName(ps: seq<Pair>, name: string, values: seq<string>)
    requires |ps| == |values|
    requires forall k :: 0 <= k < |ps| ==> ps[k] == (name, values[k])
    ensures GetAll(ps, name) == values
  {
    if ps != [] {
      GetAllOfOneName(ps[1..], name, values[1..]);
    }
  }

  /** `get` on a concatenation looks in the second list only when the first
      has no pair with that name. */
  lemma {:induction false} GetAppend(ps: seq<Pair>, qs: seq<Pair>, name: string)
    ensures Get(ps + qs, name) == if Get(ps, name).Some? then Get(ps, name) else Get(qs, name)
  {
    if ps == [] {
      assert ps + qs == qs;
    } else {
      assert (ps + qs)[1..] == ps[1..] + qs;
      GetAppend(ps[1..], qs, name);
    }
  }

  /** When no name occurs twice, `get` finds each pair's own value. */
  lemma {:induction false} GetOfDistinct(ps: seq<Pair>)
    requires Distinct(Names(ps))
    ensures forall i :: 0 <= i < |ps| ==> Get(ps, ps[i].0) == Some(ps[i].1)
  {
    if ps != [] {
      assert Names(ps[1..]) == Names(ps)[1..];
      GetOfDistinct(ps[1..]);
      forall i | 1 <= i < |ps|
        ensures Get(ps, ps[i].0) == Some(ps[i].1)
      {
        assert Names(ps)[0] != Names(ps)[i];
        assert ps[1..][i - 1] == ps[i];
      }
    }
  }

  /** Pairs after a prefix of distinct names do not change what `get`
      finds for the prefix's names. */
  lemma PrefixGet(prefix: seq<Pair>, rest: seq<Pair>)
    requires Distinct(Names(prefix))
    ensures forall i :: 0 <= i < |prefix| ==> Get(prefix + rest, prefix[i].0) == Some(prefix[i].1)
  {
    GetOfDistinct(prefix);
    forall i | 0 <= i < |prefix|
      ensures Get(prefix + rest, prefix[i].0) == Some(prefix[i].1)
    {
      GetAppend(prefix, rest, prefix[i].0);
    }
  }

  /** When the names are distinct, the list of names together with `get` on
      each of them determines the whole list: so a contract that gives the
      names and the value of each name gives the exact list of pairs. */
  lemma DeterminedByNamesAndGet(ps: seq<Pair>, qs: seq<Pair>)
    requires Names(ps) == Names(qs) && Distinct(Names(ps))
    requires forall n :: n in Names(ps) ==> Get(ps, n) == Get(qs, n)
    ensures ps == qs
  {
    GetOfDistinct(ps);
    GetOfDistinct(qs);
    assert |ps| == |Names(ps)| == |qs|;
    forall i | 0 <= i < |ps|
      ensures ps[i] == qs[i]
    {
      assert Names(ps)[i] == ps[i].0 == qs[i].0;
      assert Get(ps, ps[i].0) == Get(qs, qs[i].0);
    }
  }
}
