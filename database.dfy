/** The string-keyed record store of database.py. */
module Database {
  import opened Optional

  /** `data.get(key, default)`. */
  function Lookup<V>(data: map<string, V>, key: string, default: Option<V>): (r: Option<V>)
    ensures key in data ==> r == Some(data[key])
    ensures key !in data ==> r == default
  {
    if key in data then Some(data[key]) else default
  }

  /** After `put(k, v)`, `get(k)` returns `v` whatever the default. */
  lemma PutThenGet<V>(data: map<string, V>, k: string, v: V, default: Option<V>)
    ensures Lookup(data[k := v], k, default) == Some(v)
  {
  }

  /** `put(k, v)` leaves every other key as it was, and the last write wins. */
  lemma PutKeepsOthers<V>(data: map<string, V>, k: string, v: V, w: V, other: string, default: Option<V>)
    requires other != k
    ensures Lookup(data[k := v], other, default) == Lookup(data, other, default)
    ensures data[k := w][k := v] == data[k := v]
  {
  }

  /** The keys the callback of `forEach` has been called with so far. */
  function Visited<V>(calls: seq<(string, V)>): set<string>
  {
    if calls == [] then {} else Visited(calls[..|calls| - 1]) + {calls[|calls| - 1].0}
  }

  lemma {:induction false} VisitedMember<V>(calls: seq<(string, V)>, k: string)
    ensures k in Visited(calls) <==> exists j :: 0 <= j < |calls| && calls[j].0 == k
  {
    if calls != [] {
      var init := calls[..|calls| - 1];
      VisitedMember(init, k);
      if k in Visited(init) {
        var j :| 0 <= j < |init| && init[j].0 == k;
        assert calls[j].0 == k;
      }
      if j :| 0 <= j < |calls| && calls[j].0 == k {
        if j < |init| {
          assert init[j].0 == k;
        }
      }
    }
  }

  class Database<V> {
    var data: map<string, V>

    /** A fresh store is empty. */
    constructor ()
      ensures data == map[]
    {
      data := map[];
    }

    /** `get(key, default=None)`. */
    method Get(key: string, default: Option<V>) returns (r: Option<V>)
      ensures r == Lookup(data, key, default)
    {
      if key in data {
        r := Some(data[key]);
      } else {
        r := default;
      }
    }

    /** `put(key, val)` overwrites. */
    method Put(key: string, val: V)
      modifies this
      ensures data == old(data)[key := val]
    {
      data := data[key := val];
    }

    /** `forEach(callback)`: the callback is called once per stored key, with
        that key's value; `calls` is the sequence of calls it receives. The
        order of the calls (Python's insertion order) is not modelled. */
    method ForEach() returns (calls: seq<(string, V)>)
      ensures Visited(calls) == data.Keys
      ensures forall j :: 0 <= j < |calls| ==> calls[j].0 in data && calls[j].1 == data[calls[j].0]
      ensures forall a, b :: 0 <= a < b < |calls| ==> calls[a].0 != calls[b].0
    {
      var pending := data.Keys;
      calls := [];
      while pending != {}
        invariant pending <= data.Keys
        invariant Visited(calls) == data.Keys - pending
        invariant forall j :: 0 <= j < |calls| ==> calls[j].0 in data && calls[j].1 == data[calls[j].0]
        invariant forall j :: 0 <= j < |calls| ==> calls[j].0 !in pending
        invariant forall a, b :: 0 <= a < b < |calls| ==> calls[a].0 != calls[b].0
        decreases pending
      {
        var k :| k in pending;
        assert (calls + [(k, data[k])])[..|calls|] == calls;
        calls := calls + [(k, data[k])];
        pending := pending - {k};
      }
    }
  }

  /** Putting every entry of an `forEach` trace into a fresh store rebuilds
      the store: the trace carries each key once with its value. */
  function Rebuilt<V>(calls: seq<(string, V)>): map<string, V>
  {
    if calls == [] then map[] else Rebuilt(calls[..|calls| - 1])[calls[|calls| - 1].0 := calls[|calls| - 1].1]
  }

  lemma {:induction false} RebuiltFromTrace<V>(data: map<string, V>, calls: seq<(string, V)>)
    requires Visited(calls) == data.Keys
    requires forall j :: 0 <= j < |calls| ==> calls[j].0 in data && calls[j].1 == data[calls[j].0]
    ensures Rebuilt(calls) == data
  {
    if calls == [] {
    } else {
      var init := calls[..|calls| - 1];
      var last := calls[|calls| - 1];
      var rest := map k | k in Visited(init) :: data[k];
      forall j | 0 <= j < |init|
        ensures init[j].0 in rest && init[j].1 == rest[init[j].0]
      {
        VisitedMember(init, init[j].0);
        assert calls[j] == init[j];
      }
      RebuiltFromTrace(rest, init);
      assert Rebuilt(calls) == rest[last.0 := last.1];
    }
  }
}
