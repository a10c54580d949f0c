/**
 * A JavaScript Map filled by a sequence of optional `set` calls: later
 * writes to a key replace earlier ones, and a skipped write changes nothing.
 */
module Tables {
  import opened Wrappers

  /** One optional `table.set(key, value)`. */
  function Put<K, V>(table: map<K, V>, w: Option<(K, V)>): map<K, V>
  {
    if w.Some? then table[w.value.0 := w.value.1] else table
  }

  /** The table after the writes, in order, starting from an empty Map. */
  function PutAll<K, V>(ws: seq<Option<(K, V)>>): map<K, V>
    decreases |ws|
  {
    if ws == [] then map[] else Put(PutAll(ws[..|ws| - 1]), ws[|ws| - 1])
  }

  predicate WritesKey<K(==), V>(w: Option<(K, V)>, k: K)
  {
    w.Some? && w.value.0 == k
  }

  /** A key is present exactly when some write names it. */
  lemma {:induction false} PutAllKeys<K, V>(ws: seq<Option<(K, V)>>, k: K)
    ensures k in PutAll(ws) <==> exists i :: 0 <= i < |ws| && WritesKey(ws[i], k)
    decreases |ws|
  {
    if ws != [] {
      var init := ws[..|ws| - 1];
      PutAllKeys(init, k);
      if k in PutAll(ws) && !WritesKey(ws[|ws| - 1], k) {
        var i :| 0 <= i < |init| && WritesKey(init[i], k);
        assert ws[i] == init[i];
      }
      if k !in PutAll(ws) {
        forall i | 0 <= i < |ws| ensures !WritesKey(ws[i], k) {
          if i < |init| { assert ws[i] == init[i]; }
        }
      }
    }
  }

  /** The value stored under a key is the one of the last write that names it. */
  lemma {:induction false} PutAllLastWins<K, V>(ws: seq<Option<(K, V)>>, k: K, i: nat)
    requires i < |ws| && WritesKey(ws[i], k)
    requires forall j :: i < j < |ws| ==> !WritesKey(ws[j], k)
    ensures k in PutAll(ws) && PutAll(ws)[k] == ws[i].value.1
    decreases |ws|
  {
    var init := ws[..|ws| - 1];
    if i < |init| {
      assert init[i] == ws[i];
      PutAllLastWins(init, k, i);
    }
  }

  /** Every stored value was written under its key by one of the writes. */
  lemma {:induction false} PutAllValues<K, V>(ws: seq<Option<(K, V)>>, k: K)
    requires k in PutAll(ws)
    ensures exists i :: 0 <= i < |ws| && WritesKey(ws[i], k) && ws[i].value.1 == PutAll(ws)[k]
    decreases |ws|
  {
    var init := ws[..|ws| - 1];
    if !WritesKey(ws[|ws| - 1], k) {
      PutAllValues(init, k);
      var i :| 0 <= i < |init| && WritesKey(init[i], k) && init[i].value.1 == PutAll(init)[k];
      assert ws[i] == init[i];
    }
  }
}
