/**
 * The ORM's single-row lookup, `Model.objects.get(field=value)`, over a
 * table whose rows are given by their key column in id order.
 */
module Query {
  import opened Wrappers

  /** What `.get()` finds: DoesNotExist, MultipleObjectsReturned, or the one row. */
  datatype Lookup = NoRow | ManyRows | OneRow(index: nat)

  /** The first position at or after `from` whose key is `key`. */
  function FirstFrom<K(==)>(keys: seq<K>, key: K, from: nat): (r: Option<nat>)
    decreases |keys| - from
    ensures r.Some? ==> from <= r.value < |keys| && keys[r.value] == key
    ensures r.Some? ==> forall k :: from <= k < r.value ==> keys[k] != key
    ensures r.None? ==> forall k :: from <= k < |keys| ==> keys[k] != key
  {
    if from >= |keys| then None
    else if keys[from] == key then Some(from)
    else FirstFrom(keys, key, from + 1)
  }

  /** `.get()`: the row when exactly one row has the key. */
  function Get<K(==)>(keys: seq<K>, key: K): (r: Lookup)
    ensures r == NoRow <==> key !in keys
    ensures r.OneRow? ==> r.index < |keys| && keys[r.index] == key
    ensures r.OneRow? ==> forall k :: 0 <= k < |keys| && k != r.index ==> keys[k] != key
    ensures r == ManyRows <==> exists i, j :: 0 <= i < j < |keys| && keys[i] == key && keys[j] == key
  {
    match FirstFrom(keys, key, 0)
    case None => NoRow
    case Some(i) =>
      match FirstFrom(keys, key, i + 1)
      case Some(_) => ManyRows
      case None => OneRow(i)
  }
}
