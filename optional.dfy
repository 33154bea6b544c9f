/** Values shared by every module: an optional value, and the three states a
    key of a dictionary record can be in. */
module Optional {

  /** A value that may be missing (Python's `None` returned by a lookup). */
  datatype Option<T> = None | Some(value: T)

  /** One key of a dictionary record: the key is missing, the key is bound to
      Python's `None`, or the key holds a value. `record.get(key)` cannot tell
      the first two apart; the record itself can. */
  datatype Slot<T> = Absent | Null | Val(value: T)

  /** `record.get(key)`: the held value, or `None` when the key is missing or
      bound to `None`. */
  function Get<T>(s: Slot<T>): (r: Option<T>)
    ensures r.Some? <==> s.Val?
    ensures r.Some? ==> r.value == s.value
  {
    match s
    case Val(v) => Some(v)
    case _ => None
  }

  /** The list a lazily initialised list accessor hands out: the stored list,
      or a fresh empty list when there is none yet. */
  function Items<T>(s: Slot<seq<T>>): seq<T>
  {
    if s.Val? then s.value else []
  }

  /** What a lazily initialised list accessor leaves in the record: a list is
      always stored afterwards, it is the one handed out, and an existing list
      is kept as it is. */
  function Materialized<T>(s: Slot<seq<T>>): (r: Slot<seq<T>>)
    ensures r.Val? && r.value == Items(s)
    ensures s.Val? ==> r == s
  {
    Val(Items(s))
  }

  /** The lazy accessors are idempotent: a second access stores and hands out
      the same list as the first. */
  lemma MaterializedIdempotent<T>(s: Slot<seq<T>>)
    ensures Materialized(Materialized(s)) == Materialized(s)
    ensures Items(Materialized(s)) == Items(s)
  {
  }
}
