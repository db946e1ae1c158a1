/** A JavaScript `Map` (or a plain object) with string keys: entries in
    insertion order, where setting a present key replaces its value in
    place and setting a new key appends it. */
module OrderedMaps {
  import opened Wrappers

  type Entries = seq<(string, string)>

  function Keys(m: Entries): (r: seq<string>)
    ensures |r| == |m| && forall i :: 0 <= i < |m| ==> r[i] == m[i].0
  {
    seq(|m|, i requires 0 <= i < |m| => m[i].0)
  }

  function Values(m: Entries): (r: seq<string>)
    ensures |r| == |m| && forall i :: 0 <= i < |m| ==> r[i] == m[i].1
  {
    seq(|m|, i requires 0 <= i < |m| => m[i].1)
  }

  /** No key occurs twice. */
  predicate KeysDistinct(m: Entries) {
    forall i, j :: 0 <= i < j < |m| ==> m[i].0 != m[j].0
  }

  /** Where the key is, if it is there. */
  function IndexOfKey(m: Entries, k: string): (r: Option<nat>)
    ensures r.None? <==> forall i :: 0 <= i < |m| ==> m[i].0 != k
    ensures r.Some? ==> r.value < |m| && m[r.value].0 == k && forall i :: 0 <= i < r.value ==> m[i].0 != k
  {
    if m == [] then None
    else if m[0].0 == k then Some(0)
    else match IndexOfKey(m[1..], k)
      case None => None
      case Some(i) => Some(i + 1)
  }

  /** `m.get(k)`. */
  function Lookup(m: Entries, k: string): Option<string> {
    match IndexOfKey(m, k)
    case None => None
    case Some(i) => Some(m[i].1)
  }

  /** `m.set(k, v)`. */
  function Assign(m: Entries, k: string, v: string): Entries {
    match IndexOfKey(m, k)
    case None => m + [(k, v)]
    case Some(i) => m[i := (k, v)]
  }

  /** Writing a key the map does not hold appends the entry. */
  lemma AssignNew(m: Entries, k: string, v: string)
    requires forall i :: 0 <= i < |m| ==> m[i].0 != k
    ensures Assign(m, k, v) == m + [(k, v)]
  {
  }

  /** A read after a write sees the written value. */
  lemma AssignLookupSame(m: Entries, k: string, v: string)
    ensures Lookup(Assign(m, k, v), k) == Some(v)
  {
    var r := Assign(m, k, v);
    match IndexOfKey(m, k)
    case None =>
      assert r[|m|] == (k, v);
      assert forall j :: 0 <= j < |m| ==> r[j].0 != k;
    case Some(i) =>
      assert r[i] == (k, v);
      assert forall j :: 0 <= j < i ==> r[j].0 != k;
  }

  /** A write leaves every other key's value alone. */
  lemma AssignLookupOther(m: Entries, k: string, v: string, k': string)
    requires k' != k
    ensures Lookup(Assign(m, k, v), k') == Lookup(m, k')
  {
    var r := Assign(m, k, v);
    match IndexOfKey(m, k')
    case None =>
      assert forall i :: 0 <= i < |r| ==> r[i].0 != k';
    case Some(i) =>
      assert r[i] == m[i];
      assert forall j :: 0 <= j < i ==> r[j].0 != k';
  }

  /** A write keeps the keys distinct and every key where it was; only a new
      key lengthens the map. */
  lemma AssignKeys(m: Entries, k: string, v: string)
    requires KeysDistinct(m)
    ensures KeysDistinct(Assign(m, k, v))
    ensures Keys(m) <= Keys(Assign(m, k, v))
    ensures |Assign(m, k, v)| == |m| + (if IndexOfKey(m, k).None? then 1 else 0)
  {
    var r := Assign(m, k, v);
    assert Keys(m) == Keys(r)[..|m|];
  }
}
