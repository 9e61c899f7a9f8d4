/** Which keys a bounded ordered map still knows: those last entered before fewer than its limit of others. */
module AttentionRecency {
  import opened Common
  import opened AttentionStore

  /** The map after these entries, each renewed and the oldest evicted. */
  function Filled<V>(entries: seq<Slot<V>>, limit: nat): Ordered<V> {
    if entries == [] then []
    else
      var init, last := entries[..|entries| - 1], entries[|entries| - 1];
      KeepLast(Renewed(Filled(init, limit), last.key, last.value), limit)
  }

  /** The keys entered from the `i`-th entry on. */
  function KeysFrom<V>(entries: seq<Slot<V>>, i: nat): set<string> {
    set j | i <= j < |entries| :: entries[j].key
  }

  /** The `i`-th entry is the last of its key. */
  predicate LastOf<V>(entries: seq<Slot<V>>, key: string, i: nat) {
    i < |entries| && entries[i].key == key && forall j :: i < j < |entries| ==> entries[j].key != key
  }

  /** It is, and since then fewer than `limit` other keys were entered. */
  predicate Recent<V>(entries: seq<Slot<V>>, key: string, limit: nat, i: nat) {
    LastOf(entries, key, i) && |KeysFrom(entries, i + 1)| < limit
  }

  // ----- without a limit ----------------------------------------------------------------

  function KeysOf<V>(d: Ordered<V>): set<string> {
    set j | 0 <= j < |d| :: d[j].key
  }

  lemma {:induction false} AsManyKeys<V>(d: Ordered<V>)
    requires Unique(d)
    ensures |KeysOf(d)| == |d|
  {
    if d != [] {
      var n := |d| - 1;
      AsManyKeys(d[..n]);
      assert KeysOf(d) == KeysOf(d[..n]) + {d[n].key};
    }
  }

  lemma {:induction false} WithoutAppend<V>(d: Ordered<V>, more: Ordered<V>, key: string)
    ensures Without(d + more, key) == Without(d, key) + Without(more, key)
  {
    if more == [] {
      assert d + more == d;
    } else {
      var n := |more| - 1;
      WithoutAppend(d, more[..n], key);
      assert (d + more)[..|d + more| - 1] == d + more[..n];
    }
  }

  /** Removing a key from a map takes at most its one entry, and no other key. */
  lemma {:induction false} WithoutTakesOne<V>(d: Ordered<V>, key: string)
    requires Unique(d)
    ensures |Without(d, key)| == (if key in KeysOf(d) then |d| - 1 else |d|)
    ensures KeysOf(Without(d, key)) == KeysOf(d) - {key}
    ensures key !in KeysOf(d) ==> Without(d, key) == d
  {
    if d != [] {
      var n := |d| - 1;
      WithoutTakesOne(d[..n], key);
      KeysOfAppend(d[..n], d[n]);
      KeysOfAppend(Without(d[..n], key), d[n]);
      assert d == d[..n] + [d[n]];
    }
  }

  lemma KeysOfAppend<V>(d: Ordered<V>, last: Slot<V>)
    ensures KeysOf(d + [last]) == KeysOf(d) + {last.key}
  {
    assert forall j :: 0 <= j < |d| ==> (d + [last])[j] == d[j];
    assert (d + [last])[|d|] == last;
  }

  /** The map after these entries if nothing is ever evicted. */
  function Kept<V>(entries: seq<Slot<V>>): Ordered<V> {
    if entries == [] then []
    else
      var init, last := entries[..|entries| - 1], entries[|entries| - 1];
      Renewed(Kept(init), last.key, last.value)
  }

  lemma RenewedKeys<V>(d: Ordered<V>, key: string, value: V)
    requires Unique(d)
    ensures Unique(Renewed(d, key, value)) && KeysOf(Renewed(d, key, value)) == KeysOf(d) + {key}
  {
    WithoutDrops(d, key);
    WithoutTakesOne(d, key);
    KeysOfAppend(Without(d, key), Slot(key, value));
  }

  lemma {:induction false} KeptIsUnique<V>(entries: seq<Slot<V>>)
    ensures Unique(Kept(entries)) && KeysOf(Kept(entries)) == KeysFrom(entries, 0)
  {
    if entries != [] {
      var n := |entries| - 1;
      KeptIsUnique(entries[..n]);
      RenewedKeys(Kept(entries[..n]), entries[n].key, entries[n].value);
      KeysFromNext(entries, 0);
    }
  }

  lemma KeysFromNext<V>(entries: seq<Slot<V>>, i: nat)
    requires i < |entries|
    ensures KeysFrom(entries, i) == KeysFrom(entries[..|entries| - 1], i) + {entries[|entries| - 1].key}
  {
  }

  /** What is entered after a key stands behind it. */
  lemma {:induction false} KeptInOrder<V>(entries: seq<Slot<V>>, key: string, i: nat) returns (before: Ordered<V>, after: Ordered<V>)
    requires LastOf(entries, key, i)
    ensures Kept(entries) == before + [entries[i]] + after && KeysOf(after) == KeysFrom(entries, i + 1)
    decreases |entries|
  {
    var n := |entries| - 1;
    if i == n {
      before, after := Without(Kept(entries[..n]), key), [];
    } else {
      var older, newer := KeptInOrder(entries[..n], key, i);
      KeptIsUnique(entries[..n]);
      RenewedBehind(older, entries[i], newer, entries[n]);
      KeysFromNext(entries, i + 1);
      before, after := Without(older, entries[n].key), Renewed(newer, entries[n].key, entries[n].value);
    }
  }

  /** Renewing another key leaves an entry where it is, and what is renewed behind it. */
  lemma RenewedBehind<V>(older: Ordered<V>, entry: Slot<V>, newer: Ordered<V>, last: Slot<V>)
    requires Unique(older + [entry] + newer) && last.key != entry.key
    ensures Renewed(older + [entry] + newer, last.key, last.value)
            == Without(older, last.key) + [entry] + Renewed(newer, last.key, last.value)
    ensures KeysOf(Renewed(newer, last.key, last.value)) == KeysOf(newer) + {last.key}
  {
    NewerIsUnique(older + [entry], newer);
    WithoutAppend(older + [entry], newer, last.key);
    WithoutAppend(older, [entry], last.key);
    assert Without([entry], last.key) == [entry];
    WithoutTakesOne(newer, last.key);
    KeysOfAppend(Without(newer, last.key), Slot(last.key, last.value));
  }

  lemma NewerIsUnique<V>(older: Ordered<V>, newer: Ordered<V>)
    requires Unique(older + newer)
    ensures Unique(newer)
  {
    forall i, j | 0 <= i < j < |newer|
      ensures newer[i].key != newer[j].key
    {
      assert (older + newer)[|older| + i] == newer[i] && (older + newer)[|older| + j] == newer[j];
    }
  }

  // ----- with a limit ---------------------------------------------------------------------

  /** What stands before the last `limit` entries is evicted by renewing any key. */
  lemma FrontIsEvicted<V>(front: Ordered<V>, back: Ordered<V>, key: string, value: V, limit: nat)
    requires Unique(front + back) && |back| == limit >= 1
    ensures KeepLast(Renewed(front + back, key, value), limit) == KeepLast(Renewed(back, key, value), limit)
  {
    NewerIsUnique(front, back);
    WithoutAppend(front, back, key);
    WithoutTakesOne(back, key);
    SuffixIsKept(Without(front, key), Renewed(back, key, value), limit);
    assert Without(front, key) + Renewed(back, key, value) == Renewed(front + back, key, value);
  }

  /** Evicting early or late makes no difference. */
  lemma EvictionCanWait<V>(d: Ordered<V>, key: string, value: V, limit: nat)
    requires Unique(d) && limit >= 1
    ensures KeepLast(Renewed(KeepLast(d, limit), key, value), limit) == KeepLast(Renewed(d, key, value), limit)
  {
    KeepLastIsSuffix(d, limit);
    if |d| > limit {
      var n := |d| - limit;
      assert d == d[..n] + d[n..];
      FrontIsEvicted(d[..n], d[n..], key, value, limit);
    }
  }

  lemma SuffixIsKept<T>(front: seq<T>, back: seq<T>, limit: nat)
    requires |back| >= limit
    ensures KeepLast(front + back, limit) == KeepLast(back, limit)
  {
    KeepLastIsSuffix(front + back, limit);
    KeepLastIsSuffix(back, limit);
  }

  lemma {:induction false} FilledIsKept<V>(entries: seq<Slot<V>>, limit: nat)
    requires limit >= 1
    ensures Filled(entries, limit) == KeepLast(Kept(entries), limit)
  {
    if entries != [] {
      var n := |entries| - 1;
      FilledIsKept(entries[..n], limit);
      KeptIsUnique(entries[..n]);
      EvictionCanWait(Kept(entries[..n]), entries[n].key, entries[n].value, limit);
    }
  }

  lemma {:induction false} LookupFinds<V>(d: Ordered<V>, key: string, i: nat)
    requires i < |d| && d[i].key == key && forall j :: i < j < |d| ==> d[j].key != key
    ensures Lookup(d, key) == Some(d[i].value)
  {
    if i < |d| - 1 {
      LookupFinds(d[..|d| - 1], key, i);
    }
  }

  lemma {:induction false} LookupFails<V>(d: Ordered<V>, key: string)
    requires key !in KeysOf(d)
    ensures Lookup(d, key) == None
  {
    if d != [] {
      assert d[|d| - 1].key in KeysOf(d);
      assert KeysOf(d[..|d| - 1]) <= KeysOf(d);
      LookupFails(d[..|d| - 1], key);
    }
  }

  /** Eviction spares an entry with fewer than `limit` behind it. */
  lemma FoundBehind<V>(before: Ordered<V>, entry: Slot<V>, after: Ordered<V>, limit: nat)
    requires limit >= 1 && entry.key !in KeysOf(after)
    requires |after| < limit
    ensures Lookup(KeepLast(before + [entry] + after, limit), entry.key) == Some(entry.value)
  {
    var d := before + [entry] + after;
    KeepLastIsSuffix(d, limit);
    var kept := KeepLast(d, limit);
    var i := |kept| - |after| - 1;
    assert kept == d[|d| - |kept|..] && d[|before|] == entry;
    forall j | i < j < |kept|
      ensures kept[j].key != entry.key
    {
      assert kept[j] == after[j - i - 1] && after[j - i - 1].key in KeysOf(after);
    }
    LookupFinds(kept, entry.key, i);
  }

  lemma LostBehind<V>(before: Ordered<V>, entry: Slot<V>, after: Ordered<V>, limit: nat)
    requires limit >= 1 && entry.key !in KeysOf(after)
    requires |after| >= limit
    ensures Lookup(KeepLast(before + [entry] + after, limit), entry.key) == None
  {
    SuffixIsKept(before + [entry], after, limit);
    KeepLastIsSuffix(after, limit);
    var kept := KeepLast(after, limit);
    forall j | 0 <= j < |kept|
      ensures kept[j].key in KeysOf(after)
    {
      assert kept[j] == after[|after| - |kept| + j];
    }
    LookupFails(kept, entry.key);
  }

  /** The last entry of a key is found exactly when fewer than `limit` others followed it. */
  lemma LastOfIsFound<V>(entries: seq<Slot<V>>, limit: nat, key: string, i: nat)
    requires limit >= 1 && LastOf(entries, key, i)
    ensures Lookup(Filled(entries, limit), key) ==
            if |KeysFrom(entries, i + 1)| < limit then Some(entries[i].value) else None
  {
    var before, after := KeptInOrder(entries, key, i);
    KeptIsUnique(entries);
    FilledIsKept(entries, limit);
    NewerIsUnique(before + [entries[i]], after);
    AsManyKeys(after);
    if |after| < limit {
      FoundBehind(before, entries[i], after, limit);
    } else {
      LostBehind(before, entries[i], after, limit);
    }
  }

  lemma {:induction false} LastExists<V>(entries: seq<Slot<V>>, key: string) returns (i: nat)
    requires key in KeysFrom(entries, 0)
    ensures LastOf(entries, key, i)
  {
    var n := |entries| - 1;
    if entries[n].key == key {
      i := n;
    } else {
      KeysFromNext(entries, 0);
      i := LastExists(entries[..n], key);
    }
  }

  /** A key is known exactly by a recent entry, whose value it then has. */
  lemma RecentExactly<V>(entries: seq<Slot<V>>, limit: nat, key: string)
    requires limit >= 1
    ensures
      var found := Lookup(Filled(entries, limit), key);
      && (found.Some? <==> exists i: nat :: Recent(entries, key, limit, i))
      && (forall i: nat :: Recent(entries, key, limit, i) ==> found == Some(entries[i].value))
  {
    if key in KeysFrom(entries, 0) {
      var i := LastExists(entries, key);
      LastOfIsFound(entries, limit, key, i);
      assert |KeysFrom(entries, i + 1)| < limit ==> Recent(entries, key, limit, i);
      assert forall j: nat :: Recent(entries, key, limit, j) ==> j == i;
    } else {
      KeptIsUnique(entries);
      FilledIsKept(entries, limit);
      KeepLastIsSuffix(Kept(entries), limit);
      LookupFails(Filled(entries, limit), key);
      forall i: nat
        ensures !Recent(entries, key, limit, i)
      {
        assert i < |entries| ==> entries[i].key in KeysFrom(entries, 0);
      }
    }
  }
}
