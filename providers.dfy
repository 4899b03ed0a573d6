/**
 * The per-key provider list of the Kademlia record store
 * (janus/server/src/kademlia/memory_store.rs), as pure functions on
 * sequences.
 *
 * For one key the store keeps at most `max` provider records, ordered by the
 * distance from each provider to the key (the XOR metric of section 2.1 of
 * the Kademlia paper by Maymounkov and Mazieres). Computing that distance
 * hashes both sides, which is not modelled: it is the parameter `distance`,
 * and the order on its `nat` values is the total order on distances.
 */
module Providers {
  import opened Base

  /**
   * A record key and a peer identity are multihash byte strings in the
   * source; the store only compares them for equality (and hands them to the
   * distance), so they are modelled as plain numbers.
   */
  type Key = nat
  type PeerId = nat

  /** `provider` announces that it holds the value stored under `key`. */
  datatype ProviderRecord = ProviderRecord(key: Key, provider: PeerId, expires: Option<nat>)

  /** Distance from a peer to a key. */
  type Distance = (PeerId, Key) -> nat

  function Dist(distance: Distance, key: Key, r: ProviderRecord): nat {
    distance(r.provider, key)
  }

  predicate SortedByDistance(distance: Distance, key: Key, l: seq<ProviderRecord>) {
    forall i, j | 0 <= i < j < |l| :: Dist(distance, key, l[i]) <= Dist(distance, key, l[j])
  }

  /** No peer provides twice in one list. */
  predicate DistinctProviders(l: seq<ProviderRecord>) {
    forall i, j | 0 <= i < j < |l| :: l[i].provider != l[j].provider
  }

  predicate Provides(l: seq<ProviderRecord>, p: PeerId) {
    exists i | 0 <= i < |l| :: l[i].provider == p
  }

  /** `position(|p| p.provider == provider)`: the first record of `provider`. */
  function ProviderIndex(l: seq<ProviderRecord>, provider: PeerId): (r: Option<nat>)
    ensures r.Some? ==> r.value < |l| && l[r.value].provider == provider
    ensures r.Some? ==> forall j | 0 <= j < r.value :: l[j].provider != provider
    ensures r.None? <==> !Provides(l, provider)
  {
    if l == [] then None
    else if l[0].provider == provider then Some(0)
    else
      match ProviderIndex(l[1..], provider)
      case None => None
      case Some(i) => Some(i + 1)
  }

  /** The first record strictly farther from `key` than `r`. */
  function FirstFartherIndex(distance: Distance, key: Key, r: ProviderRecord,
                             l: seq<ProviderRecord>): (i: Option<nat>)
    ensures i.Some? ==> i.value < |l| && Dist(distance, key, r) < Dist(distance, key, l[i.value])
    ensures i.Some? ==> forall j | 0 <= j < i.value :: Dist(distance, key, l[j]) <= Dist(distance, key, r)
    ensures i.None? ==> forall j | 0 <= j < |l| :: Dist(distance, key, l[j]) <= Dist(distance, key, r)
  {
    if l == [] then None
    else if Dist(distance, key, r) < Dist(distance, key, l[0]) then Some(0)
    else
      match FirstFartherIndex(distance, key, r, l[1..])
      case None => None
      case Some(i) => Some(i + 1)
  }

  /**
   * `r` placed before the first record strictly farther from the key, so
   * after every record at most as far: the insertion step of a stable sort.
   */
  function InsertByDistance(distance: Distance, key: Key, r: ProviderRecord,
                            l: seq<ProviderRecord>): (res: seq<ProviderRecord>)
    ensures |res| == |l| + 1
  {
    if l == [] then [r]
    else if Dist(distance, key, r) < Dist(distance, key, l[0]) then [r] + l
    else [l[0]] + InsertByDistance(distance, key, r, l[1..])
  }

  /** Keeps the first `n` records: `truncate(n)` on a vector. */
  function Truncate(l: seq<ProviderRecord>, n: nat): (res: seq<ProviderRecord>)
    ensures res <= l
    ensures |res| == if |l| <= n then |l| else n
  {
    if |l| <= n then l else l[..n]
  }

  /** `SmallVec::remove(i)` on the list. */
  function RemoveAt(l: seq<ProviderRecord>, i: nat): (res: seq<ProviderRecord>)
    requires i < |l|
    ensures |res| == |l| - 1
    ensures forall j | 0 <= j < |res| :: res[j] == if j < i then l[j] else l[j + 1]
  {
    l[..i] + l[i + 1..]
  }

  /**
   * The effect of `add_provider` on the list of an existing key. A provider
   * already listed has its record replaced in place. Otherwise the record
   * goes before the first farther provider and the list is cut back to
   * `max`; a record farther than all others is appended only if there is
   * room, and silently dropped otherwise.
   */
  function AddToList(distance: Distance, key: Key, max: nat, l: seq<ProviderRecord>,
                     r: ProviderRecord): seq<ProviderRecord>
  {
    match ProviderIndex(l, r.provider)
    case Some(i) => l[i := r]
    case None => Truncate(InsertByDistance(distance, key, r, l), max)
  }

  /** The list invariant of the store: bounded, ordered, one record per provider, all under `key`. */
  predicate ListInvariant(distance: Distance, key: Key, max: nat, l: seq<ProviderRecord>) {
    && |l| <= max
    && SortedByDistance(distance, key, l)
    && DistinctProviders(l)
    && forall i | 0 <= i < |l| :: l[i].key == key
  }

  /**
   * The in-place steps `add_provider` takes for a new provider: `insert(i, r)`
   * at a found position, or `push(r)` when there is none.
   */
  function Splice(l: seq<ProviderRecord>, r: ProviderRecord, at: Option<nat>): seq<ProviderRecord>
    requires at.Some? ==> at.value <= |l|
  {
    match at
    case Some(i) => l[..i] + [r] + l[i..]
    case None => l + [r]
  }

  /** Those in-place steps build exactly the stable insertion. */
  lemma {:induction false} InsertAtFirstFarther(distance: Distance, key: Key, r: ProviderRecord,
                                               l: seq<ProviderRecord>)
    ensures InsertByDistance(distance, key, r, l) == Splice(l, r, FirstFartherIndex(distance, key, r, l))
  {
    if l == [] {
    } else if Dist(distance, key, r) < Dist(distance, key, l[0]) {
      assert l[..0] == [] && l[0..] == l;
    } else {
      var tail := l[1..];
      InsertAtFirstFarther(distance, key, r, tail);
      var ins := InsertByDistance(distance, key, r, l);
      assert ins == [l[0]] + InsertByDistance(distance, key, r, tail);
      match FirstFartherIndex(distance, key, r, tail)
      case None =>
        assert FirstFartherIndex(distance, key, r, l) == None;
        assert ins == [l[0]] + (tail + [r]);
        assert l == [l[0]] + tail;
      case Some(i) =>
        assert FirstFartherIndex(distance, key, r, l) == Some(i + 1);
        assert ins == [l[0]] + (tail[..i] + [r] + tail[i..]);
        assert l[..i + 1] == [l[0]] + tail[..i];
        assert l[i + 1..] == tail[i..];
    }
  }

  /** Positions in a list with `r` spliced in at `cut`. */
  lemma SpliceIndex(l: seq<ProviderRecord>, r: ProviderRecord, cut: nat, a: nat)
    requires cut <= |l| && a <= |l|
    ensures (l[..cut] + [r] + l[cut..])[a] == if a < cut then l[a] else if a == cut then r else l[a - 1]
  {
  }

  /** Insertion adds exactly `r`. */
  lemma InsertAddsRecord(distance: Distance, key: Key, r: ProviderRecord, l: seq<ProviderRecord>)
    ensures multiset(InsertByDistance(distance, key, r, l)) == multiset(l) + multiset{r}
  {
    InsertAtFirstFarther(distance, key, r, l);
    var at := FirstFartherIndex(distance, key, r, l);
    var cut := if at.Some? then at.value else |l|;
    assert InsertByDistance(distance, key, r, l) == l[..cut] + [r] + l[cut..];
    assert l == l[..cut] + l[cut..];
  }

  /** Insertion keeps a sorted list sorted. */
  lemma InsertKeepsSorted(distance: Distance, key: Key, r: ProviderRecord, l: seq<ProviderRecord>)
    requires SortedByDistance(distance, key, l)
    ensures SortedByDistance(distance, key, InsertByDistance(distance, key, r, l))
  {
    InsertAtFirstFarther(distance, key, r, l);
    var at := FirstFartherIndex(distance, key, r, l);
    var cut := if at.Some? then at.value else |l|;
    var ins := InsertByDistance(distance, key, r, l);
    assert ins == l[..cut] + [r] + l[cut..];
    forall a, b | 0 <= a < b < |ins| ensures Dist(distance, key, ins[a]) <= Dist(distance, key, ins[b]) {
      SpliceIndex(l, r, cut, a);
      SpliceIndex(l, r, cut, b);
      if a < cut && b == cut {
        assert Dist(distance, key, l[a]) <= Dist(distance, key, r);
      } else if a == cut {
        assert Dist(distance, key, r) < Dist(distance, key, l[cut]);
        assert cut <= b - 1;
      }
    }
  }

  /** Replacing a provider's record in place keeps the list invariant. */
  lemma ReplaceKeepsInvariant(distance: Distance, max: nat, l: seq<ProviderRecord>, i: nat, r: ProviderRecord)
    requires ListInvariant(distance, r.key, max, l)
    requires i < |l| && l[i].provider == r.provider
    ensures ListInvariant(distance, r.key, max, l[i := r])
  {
    var key, res := r.key, l[i := r];
    forall a, b | 0 <= a < b < |res|
      ensures Dist(distance, key, res[a]) <= Dist(distance, key, res[b])
      ensures res[a].provider != res[b].provider
    {
      assert res[a].provider == l[a].provider && res[b].provider == l[b].provider;
    }
  }

  /** Inserting a new provider and cutting back to `max` keeps the list invariant. */
  lemma InsertKeepsInvariant(distance: Distance, max: nat, l: seq<ProviderRecord>, r: ProviderRecord)
    requires ListInvariant(distance, r.key, max, l)
    requires !Provides(l, r.provider)
    ensures ListInvariant(distance, r.key, max, Truncate(InsertByDistance(distance, r.key, r, l), max))
  {
    var key := r.key;
    var at := FirstFartherIndex(distance, key, r, l);
    var ins := InsertByDistance(distance, key, r, l);
    InsertAtFirstFarther(distance, key, r, l);
    InsertKeepsSorted(distance, key, r, l);
    var cut := if at.Some? then at.value else |l|;
    assert ins == l[..cut] + [r] + l[cut..];
    var res := Truncate(ins, max);
    forall a, b | 0 <= a < b < |res|
      ensures Dist(distance, key, res[a]) <= Dist(distance, key, res[b])
      ensures res[a].provider != res[b].provider
    {
      assert res[a] == ins[a] && res[b] == ins[b];
      SpliceIndex(l, r, cut, a);
      SpliceIndex(l, r, cut, b);
    }
    forall a | 0 <= a < |res| ensures res[a].key == key {
      assert res[a] == ins[a];
      SpliceIndex(l, r, cut, a);
    }
  }

  /** Adding a provider record keeps the list invariant. */
  lemma AddToListKeepsInvariant(distance: Distance, max: nat, l: seq<ProviderRecord>, r: ProviderRecord)
    requires ListInvariant(distance, r.key, max, l)
    ensures ListInvariant(distance, r.key, max, AddToList(distance, r.key, max, l, r))
  {
    match ProviderIndex(l, r.provider)
    case Some(i) => ReplaceKeepsInvariant(distance, max, l, i, r);
    case None => InsertKeepsInvariant(distance, max, l, r);
  }

  /**
   * Cutting the list to `m` before inserting does not change the first `m`
   * records after inserting: the bounded list never loses a provider that
   * would later make it back.
   */
  lemma {:induction false} TruncateInsertTruncate(distance: Distance, key: Key, r: ProviderRecord,
                                                 s: seq<ProviderRecord>, m: nat)
    ensures Truncate(InsertByDistance(distance, key, r, Truncate(s, m)), m)
         == Truncate(InsertByDistance(distance, key, r, s), m)
  {
    if s == [] || m == 0 {
    } else if |s| <= m {
    } else {
      var t := Truncate(s, m);
      assert t == [s[0]] + Truncate(s[1..], m - 1);
      if Dist(distance, key, r) < Dist(distance, key, s[0]) {
        calc {
          Truncate(InsertByDistance(distance, key, r, t), m);
          Truncate([r] + t, m);
          [r] + t[..m - 1];
          [r] + s[..m - 1];
          Truncate([r] + s, m);
        }
      } else {
        var a := InsertByDistance(distance, key, r, Truncate(s[1..], m - 1));
        var b := InsertByDistance(distance, key, r, s[1..]);
        TruncateInsertTruncate(distance, key, r, s[1..], m - 1);
        assert Truncate(a, m - 1) == Truncate(b, m - 1);
        calc {
          Truncate(InsertByDistance(distance, key, r, t), m);
          Truncate([s[0]] + a, m);
          [s[0]] + Truncate(a, m - 1);
          [s[0]] + Truncate(b, m - 1);
          Truncate([s[0]] + b, m);
          { assert s == [s[0]] + s[1..]; }
          Truncate(InsertByDistance(distance, key, r, s), m);
        }
      }
    }
  }

  /** All records of `rs` ordered by distance to `key`, ties in offering order. */
  function SortByDistance(distance: Distance, key: Key, rs: seq<ProviderRecord>): (res: seq<ProviderRecord>)
    ensures multiset(res) == multiset(rs)
    ensures SortedByDistance(distance, key, res)
  {
    if rs == [] then []
    else
      var last := rs[|rs| - 1];
      var sorted := SortByDistance(distance, key, rs[..|rs| - 1]);
      assert rs == rs[..|rs| - 1] + [last];
      InsertAddsRecord(distance, key, last, sorted);
      InsertKeepsSorted(distance, key, last, sorted);
      InsertByDistance(distance, key, last, sorted)
  }

  /** The list after offering each record of `offered` in turn, starting from `l`. */
  function AddAll(distance: Distance, key: Key, max: nat, l: seq<ProviderRecord>,
                  offered: seq<ProviderRecord>): seq<ProviderRecord>
  {
    if offered == [] then l
    else AddToList(distance, key, max, AddAll(distance, key, max, l, offered[..|offered| - 1]),
                   offered[|offered| - 1])
  }

  /**
   * Offering records of distinct providers one by one to an empty list yields
   * all of them sorted by distance to the key and truncated to `max`. This is
   * the property `providers_ordered_by_distance_to_key` checks.
   */
  lemma {:induction false} AddAllIsSortedPrefix(distance: Distance, key: Key, max: nat,
                                               offered: seq<ProviderRecord>)
    requires DistinctProviders(offered)
    ensures AddAll(distance, key, max, [], offered)
         == Truncate(SortByDistance(distance, key, offered), max)
  {
    if offered != [] {
      var n := |offered| - 1;
      var prefix, r := offered[..n], offered[n];
      assert DistinctProviders(prefix);
      AddAllIsSortedPrefix(distance, key, max, prefix);
      var sorted := SortByDistance(distance, key, prefix);
      var current := Truncate(sorted, max);
      assert !Provides(current, r.provider) by {
        forall j | 0 <= j < |current| ensures current[j].provider != r.provider {
          assert current[j] == sorted[j];
          assert sorted[j] in multiset(prefix);
          var m :| 0 <= m < |prefix| && prefix[m] == sorted[j];
          assert offered[m] == prefix[m];
        }
      }
      TruncateInsertTruncate(distance, key, r, sorted, max);
    }
  }

  /** A provider farther than every listed one, offered to a full list, is dropped. */
  lemma FullListDropsFarther(distance: Distance, max: nat, l: seq<ProviderRecord>, r: ProviderRecord)
    requires ListInvariant(distance, r.key, max, l) && |l| == max
    requires !Provides(l, r.provider)
    requires forall j | 0 <= j < |l| :: Dist(distance, r.key, l[j]) <= Dist(distance, r.key, r)
    ensures AddToList(distance, r.key, max, l, r) == l
  {
    InsertAtFirstFarther(distance, r.key, r, l);
    assert (l + [r])[..max] == l;
  }

  /** Re-offering a listed provider replaces its record and keeps the length. */
  lemma ReplaceKeepsLength(distance: Distance, key: Key, max: nat, l: seq<ProviderRecord>, r: ProviderRecord)
    requires Provides(l, r.provider)
    ensures |AddToList(distance, key, max, l, r)| == |l|
    ensures r in AddToList(distance, key, max, l, r)
  {
    var i := ProviderIndex(l, r.provider).value;
    assert l[i := r][i] == r;
  }

  /** `remove_provider` on one list: the first record of `provider`, if any, is taken out. */
  function RemoveFromList(l: seq<ProviderRecord>, provider: PeerId): (res: seq<ProviderRecord>)
    ensures forall x | x in res :: x in l
    ensures DistinctProviders(l) ==> forall x :: x in res <==> x in l && x.provider != provider
    ensures |res| == if Provides(l, provider) then |l| - 1 else |l|
  {
    match ProviderIndex(l, provider)
    case None => l
    case Some(i) =>
      RemoveAtMembers(l, i);
      RemoveAt(l, i)
  }

  /** What is left after taking out position `i`. */
  lemma RemoveAtMembers(l: seq<ProviderRecord>, i: nat)
    requires i < |l|
    ensures forall x | x in RemoveAt(l, i) :: x in l
    ensures DistinctProviders(l) ==> forall x :: x in RemoveAt(l, i) <==> x in l && x.provider != l[i].provider
  {
    var res := RemoveAt(l, i);
    forall x | x in res ensures x in l && (DistinctProviders(l) ==> x.provider != l[i].provider) {
      var j :| 0 <= j < |res| && res[j] == x;
      var lj := if j < i then j else j + 1;
      assert l[lj] == x && lj != i;
    }
    if DistinctProviders(l) {
      forall x | x in l && x.provider != l[i].provider ensures x in res {
        var j :| 0 <= j < |l| && l[j] == x;
        if j < i { assert res[j] == x; } else { assert res[j - 1] == x; }
      }
    }
  }

  /** Taking one record out keeps the list invariant. */
  lemma RemoveAtKeepsInvariant(distance: Distance, key: Key, max: nat, l: seq<ProviderRecord>, i: nat)
    requires ListInvariant(distance, key, max, l) && i < |l|
    ensures ListInvariant(distance, key, max, RemoveAt(l, i))
  {
    var res := RemoveAt(l, i);
    forall a, b | 0 <= a < b < |res|
      ensures Dist(distance, key, res[a]) <= Dist(distance, key, res[b])
      ensures res[a].provider != res[b].provider
    {
      var la := if a < i then a else a + 1;
      var lb := if b < i then b else b + 1;
      assert res[a] == l[la] && res[b] == l[lb];
    }
  }

  /** Removing a provider keeps the list invariant. */
  lemma RemoveKeepsInvariant(distance: Distance, key: Key, max: nat, l: seq<ProviderRecord>, provider: PeerId)
    requires ListInvariant(distance, key, max, l)
    ensures ListInvariant(distance, key, max, RemoveFromList(l, provider))
  {
    match ProviderIndex(l, provider)
    case None =>
    case Some(i) => RemoveAtKeepsInvariant(distance, key, max, l, i);
  }

  /**
   * A record offered to a list with room is listed, and removing its provider
   * takes it out again (the `add_get_remove_provider` property).
   */
  lemma AddThenRemove(distance: Distance, max: nat, l: seq<ProviderRecord>, r: ProviderRecord)
    requires ListInvariant(distance, r.key, max, l) && |l| < max
    ensures r in AddToList(distance, r.key, max, l, r)
    ensures r !in RemoveFromList(AddToList(distance, r.key, max, l, r), r.provider)
  {
    var added := AddToList(distance, r.key, max, l, r);
    AddToListKeepsInvariant(distance, max, l, r);
    match ProviderIndex(l, r.provider) {
      case Some(i) =>
        ReplaceKeepsLength(distance, r.key, max, l, r);
      case None =>
        InsertAddsRecord(distance, r.key, r, l);
        assert r in multiset(InsertByDistance(distance, r.key, r, l));
    }
  }
}
