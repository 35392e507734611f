/**
 * The dictionary `{ [id: string]: StateView }` that the view store keeps, as
 * the list of its own entries in enumeration order (the order `Object.entries`
 * and `Object.keys` report), together with the three object operations the
 * reducers use on it: the computed-key spread `{ ...m, [k]: v }`, the
 * filter-and-rebuild `Object.fromEntries(Object.entries(m).filter(...))`, and
 * `Object.values(m).every(...)`.
 */
module ViewMap {
  import opened Options

  type Id = string

  /** A saved view: its display label (`label` in the source; the word is reserved in Dafny) and the opaque grid snapshot it restores. */
  datatype StateView<S> = StateView(viewLabel: string, value: S)

  /** A plain object used as a dictionary: its entries in enumeration order. */
  type Entries<V> = seq<(Id, V)>

  /** The object holds `k` as an own key. */
  predicate HasKey<V>(m: Entries<V>, k: Id) {
    m != [] && (m[0].0 == k || HasKey(m[1..], k))
  }

  /** An object never holds the same own key twice. */
  predicate DistinctKeys<V>(m: Entries<V>) {
    m == [] || (!HasKey(m[1..], m[0].0) && DistinctKeys(m[1..]))
  }

  /** `Object.keys(m)`: the keys in enumeration order. */
  function Keys<V>(m: Entries<V>): (ks: seq<Id>)
    ensures |ks| == |m|
    ensures forall i :: 0 <= i < |m| ==> ks[i] == m[i].0
    ensures forall k :: k in ks <==> HasKey(m, k)
  {
    if m == [] then [] else [m[0].0] + Keys(m[1..])
  }

  /** `m[k]`: the value stored under `k`, or `undefined` when there is none. */
  function Lookup<V>(m: Entries<V>, k: Id): (r: Option<V>)
    ensures r.Some? <==> HasKey(m, k)
  {
    if m == [] then None
    else if m[0].0 == k then Some(m[0].1)
    else Lookup(m[1..], k)
  }

  /**
   * `{ ...m, [k]: v }`: the spread copies the entries in order, then the
   * computed key overwrites an existing entry where it stands or adds a new
   * one at the end.
   */
  function Assign<V>(m: Entries<V>, k: Id, v: V): (r: Entries<V>)
    ensures forall k' :: HasKey(r, k') <==> HasKey(m, k') || k' == k
    ensures Lookup(r, k) == Some(v)
    ensures forall k' :: k' != k ==> Lookup(r, k') == Lookup(m, k')
    ensures DistinctKeys(m) ==> DistinctKeys(r)
  {
    if m == [] then [(k, v)]
    else if m[0].0 == k then [(k, v)] + m[1..]
    else [m[0]] + Assign(m[1..], k, v)
  }

  /** `Object.fromEntries(Object.entries(m).filter(([id]) => id !== k))`. */
  function Remove<V>(m: Entries<V>, k: Id): (r: Entries<V>)
    ensures forall k' :: HasKey(r, k') <==> HasKey(m, k') && k' != k
    ensures forall k' :: k' != k ==> Lookup(r, k') == Lookup(m, k')
    ensures DistinctKeys(m) ==> DistinctKeys(r)
  {
    if m == [] then []
    else if m[0].0 == k then Remove(m[1..], k)
    else [m[0]] + Remove(m[1..], k)
  }

  /** Assigning a key the object does not hold appends exactly one entry, last. */
  lemma {:induction false} AssignFresh<V>(m: Entries<V>, k: Id, v: V)
    requires !HasKey(m, k)
    ensures Assign(m, k, v) == m + [(k, v)]
  {
    if m != [] {
      AssignFresh(m[1..], k, v);
      assert [m[0]] + (m[1..] + [(k, v)]) == m + [(k, v)];
    }
  }

  /** Filtering out a key the object does not hold gives back the same entries. */
  lemma {:induction false} RemoveAbsent<V>(m: Entries<V>, k: Id)
    requires !HasKey(m, k)
    ensures Remove(m, k) == m
  {
    if m != [] {
      RemoveAbsent(m[1..], k);
      assert [m[0]] + m[1..] == m;
    }
  }

  /**
   * Filtering out the key held at position `i` drops exactly that entry; the
   * others keep their order and their values.
   */
  lemma {:induction false} RemoveAt<V>(m: Entries<V>, i: nat)
    requires DistinctKeys(m) && i < |m|
    ensures Remove(m, m[i].0) == m[..i] + m[i + 1..]
  {
    if i == 0 {
      RemoveAbsent(m[1..], m[0].0);
    } else {
      KeyAtIndex(m[1..], i - 1);
      assert m[0].0 != m[i].0;
      RemoveAt(m[1..], i - 1);
      assert [m[0]] + (m[1..][..i - 1] + m[1..][i..]) == m[..i] + m[i + 1..];
    }
  }

  /** The key of every entry is held by the object. */
  lemma {:induction false} KeyAtIndex<V>(m: Entries<V>, i: nat)
    requires i < |m|
    ensures HasKey(m, m[i].0)
  {
    if i > 0 {
      KeyAtIndex(m[1..], i - 1);
    }
  }

  /** In an object with distinct keys, every entry is what a lookup of its key finds. */
  lemma {:induction false} LookupAt<V>(m: Entries<V>, i: nat)
    requires DistinctKeys(m) && i < |m|
    ensures Lookup(m, m[i].0) == Some(m[i].1)
  {
    if i > 0 {
      KeyAtIndex(m[1..], i - 1);
      LookupAt(m[1..], i - 1);
    }
  }

  /** A key the object holds is found at some position, with the value a lookup returns. */
  lemma {:induction false} LookupFound<V>(m: Entries<V>, k: Id)
    requires HasKey(m, k)
    ensures exists i :: 0 <= i < |m| && m[i] == (k, Lookup(m, k).value)
  {
    if m[0].0 == k {
      assert m[0] == (k, Lookup(m, k).value);
    } else {
      LookupFound(m[1..], k);
      var j :| 0 <= j < |m[1..]| && m[1..][j] == (k, Lookup(m[1..], k).value);
      assert m[j + 1] == (k, Lookup(m, k).value);
    }
  }

  /** `Object.values(m).every((view) => view.label !== label)`. */
  function LabelUnused<S>(m: Entries<StateView<S>>, draft: string): (r: bool)
    ensures r <==> forall i :: 0 <= i < |m| ==> m[i].1.viewLabel != draft
  {
    if m == [] then true
    else m[0].1.viewLabel != draft && LabelUnused(m[1..], draft)
  }

  /**
   * The draft label may be saved: it is not empty and no saved view carries
   * exactly the same text (case-sensitive).
   */
  function IsLabelValid<S>(m: Entries<StateView<S>>, draft: string): (r: bool)
    ensures |draft| == 0 ==> !r
    ensures r <==> |draft| > 0 && forall i :: 0 <= i < |m| ==> m[i].1.viewLabel != draft
  {
    if |draft| == 0 then false else LabelUnused(m, draft)
  }
}
