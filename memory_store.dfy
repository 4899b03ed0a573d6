/**
 * The in-memory Kademlia record store of the node
 * (janus/server/src/kademlia/memory_store.rs): regular records grouped into
 * one set per key, provider records kept as a bounded list per key ordered by
 * distance, and the set of provider records the local node itself provides.
 *
 * The record-set codec (`expand_record_set`, `reduce_record_set`) lives
 * elsewhere; the store receives it as the functions `expand` and `reduce`.
 */
module RecordStore {
  import opened Base
  import opened Providers

  /** A regular record; `expires` is an instant, kept as a number. */
  datatype Record = Record(key: Key, value: seq<u8>, publisher: Option<PeerId>, expires: Option<nat>)

  /**
   * What `expand_record_set` makes of an incoming record: the record itself,
   * the several records packed in its value, or a value that claims to be a
   * record set but cannot be parsed.
   */
  datatype Expansion = Single(record: Record) | Multiple(records: seq<Record>) | Malformed

  /** The records an expansion contributes to a key's set. */
  function Expanded(e: Expansion): set<Record> {
    match e
    case Single(x) => {x}
    case Multiple(rs) => set x | x in rs
    case Malformed => {}
  }

  datatype StoreError = MaxRecords | ValueTooLarge | MaxProvidedKeys

  datatype Config = Config(maxRecords: nat, maxValueBytes: nat, maxProvidersPerKey: nat, maxProvidedKeys: nat)

  /** The Kademlia replication parameter k. */
  const KValue: nat := 20

  const DefaultConfig: Config := Config(1024, 65 * 1024, KValue, 1024)

  /** The list stored under `key`, or the empty list. */
  function ListOf(providers: map<Key, seq<ProviderRecord>>, key: Key): seq<ProviderRecord> {
    if key in providers then providers[key] else []
  }

  /**
   * `provided` holds exactly the provider records, over all lists, whose
   * provider is the local node.
   */
  ghost predicate InSync(providers: map<Key, seq<ProviderRecord>>, provided: set<ProviderRecord>, local: PeerId) {
    forall x :: x in provided <==> x.key in providers && x in providers[x.key] && x.provider == local
  }

  /** Every list holds only records of its own key. */
  ghost predicate KeysMatch(providers: map<Key, seq<ProviderRecord>>) {
    forall k, x | k in providers && x in providers[k] :: x.key == k
  }

  /**
   * How `add_provider` changes `provided` when `r` is offered to the list `l`
   * of its key: a local record taking over a listed provider's place replaces
   * that provider's old record, a new local record joins, and the record
   * pushed off the end of a full list leaves.
   */
  function ProvidedAfterAdd(distance: Distance, max: nat, local: PeerId, provided: set<ProviderRecord>,
                            l: seq<ProviderRecord>, r: ProviderRecord): set<ProviderRecord>
  {
    var mine := if r.provider == local then {r} else {};
    match ProviderIndex(l, r.provider)
    case Some(i) => if r.provider == local then provided - {l[i]} + {r} else provided
    case None => ProvidedAfterNewProvider(distance, max, provided, l, r, mine)
  }

  /** The part shared by both versions: `r`'s provider is not listed yet. */
  function ProvidedAfterNewProvider(distance: Distance, max: nat, provided: set<ProviderRecord>,
                                    l: seq<ProviderRecord>, r: ProviderRecord,
                                    mine: set<ProviderRecord>): set<ProviderRecord>
  {
    match FirstFartherIndex(distance, r.key, r, l)
    case Some(i) =>
      // the insertion lands before the last record, which falls off a full list
      if |l| + 1 > max then provided + mine - {l[|l| - 1]} else provided + mine
    case None => if |l| < max then provided + mine else provided
  }

  /** `provided` as the source updates it: an in-place replacement leaves it alone. */
  function ProvidedAfterAddAsWritten(distance: Distance, max: nat, local: PeerId,
                                     provided: set<ProviderRecord>, l: seq<ProviderRecord>,
                                     r: ProviderRecord): set<ProviderRecord>
  {
    var mine := if r.provider == local then {r} else {};
    match ProviderIndex(l, r.provider)
    case Some(i) => provided
    case None => ProvidedAfterNewProvider(distance, max, provided, l, r, mine)
  }

  /** Splicing adds exactly `r`, and a new provider keeps the providers distinct. */
  lemma SpliceMembers(l: seq<ProviderRecord>, r: ProviderRecord, at: Option<nat>)
    requires at.Some? ==> at.value <= |l|
    ensures forall x :: x in Splice(l, r, at) <==> x == r || x in l
    ensures DistinctProviders(l) && !Provides(l, r.provider) ==> DistinctProviders(Splice(l, r, at))
  {
    var cut := if at.Some? then at.value else |l|;
    var s := Splice(l, r, at);
    assert s == l[..cut] + [r] + l[cut..];
    assert l == l[..cut] + l[cut..];
    if DistinctProviders(l) && !Provides(l, r.provider) {
      forall a, b | 0 <= a < b < |s| ensures s[a].provider != s[b].provider {
        SpliceIndex(l, r, cut, a);
        SpliceIndex(l, r, cut, b);
      }
    }
  }

  /** Dropping the last record of a list with distinct providers removes exactly that record. */
  lemma DropLastMembers(s: seq<ProviderRecord>)
    requires |s| > 0 && DistinctProviders(s)
    ensures forall x :: x in s[..|s| - 1] <==> x in s && x != s[|s| - 1]
  {
    var n := |s| - 1;
    forall x | x in s[..n] ensures x != s[n] {
      var j :| 0 <= j < n && s[j] == x;
    }
    forall x | x in s && x != s[n] ensures x in s[..n] {
      var j :| 0 <= j < |s| && s[j] == x;
      assert s[..n][j] == x;
    }
  }

  /** Replacing the record of a listed provider swaps exactly that record. */
  lemma ReplaceMembers(l: seq<ProviderRecord>, i: nat, r: ProviderRecord)
    requires i < |l| && DistinctProviders(l) && l[i].provider == r.provider
    ensures forall x :: x in l[i := r] <==> x == r || (x in l && x != l[i])
  {
    var s := l[i := r];
    assert s[i] == r;
    forall x | x in s && x != r ensures x in l && x != l[i] {
      var j :| 0 <= j < |s| && s[j] == x;
      assert j != i && l[j] == x;
    }
    forall x | x in l && x != l[i] ensures x in s {
      var j :| 0 <= j < |l| && l[j] == x;
      assert s[j] == x;
    }
  }

  /** For key `k`, `provided` holds exactly the local records of `l`. */
  ghost predicate KeySynced(provided: set<ProviderRecord>, local: PeerId, k: Key, l: seq<ProviderRecord>) {
    forall x: ProviderRecord | x.key == k :: x in provided <==> x in l && x.provider == local
  }

  /**
   * `provided'` differs from `provided` only in the records of key `k`, and
   * for that key holds exactly the local records of `l'`.
   */
  ghost predicate KeyUpdate(provided: set<ProviderRecord>, provided': set<ProviderRecord>,
                            local: PeerId, k: Key, l': seq<ProviderRecord>)
  {
    && KeySynced(provided', local, k, l')
    && (forall x: ProviderRecord | x.key != k :: x in provided' <==> x in provided)
  }

  /** Changing the list of one key as `KeyUpdate` says keeps the sync. */
  lemma ListChangeKeepsSync(providers: map<Key, seq<ProviderRecord>>, provided: set<ProviderRecord>,
                            local: PeerId, k: Key, l': seq<ProviderRecord>, provided': set<ProviderRecord>)
    requires InSync(providers, provided, local) && KeysMatch(providers)
    requires forall x | x in l' :: x.key == k
    requires KeyUpdate(provided, provided', local, k, l')
    ensures InSync(providers[k := l'], provided', local) && KeysMatch(providers[k := l'])
  {
  }

  /** The in-place replacement, with the corrected update of `provided`. */
  lemma ReplaceUpdatesKey(l: seq<ProviderRecord>, i: nat, r: ProviderRecord, local: PeerId,
                          provided: set<ProviderRecord>)
    requires i < |l| && DistinctProviders(l) && l[i].provider == r.provider
    requires forall x | x in l :: x.key == r.key
    requires KeySynced(provided, local, r.key, l)
    ensures KeyUpdate(provided, if r.provider == local then provided - {l[i]} + {r} else provided,
                      local, r.key, l[i := r])
  {
    ReplaceMembers(l, i, r);
  }

  /** Inserting a new provider, with the record pushed off a full list leaving `provided`. */
  lemma InsertUpdatesKey(distance: Distance, max: nat, l: seq<ProviderRecord>, r: ProviderRecord,
                         local: PeerId, provided: set<ProviderRecord>)
    requires |l| <= max && DistinctProviders(l) && !Provides(l, r.provider)
    requires forall x | x in l :: x.key == r.key
    requires KeySynced(provided, local, r.key, l)
    ensures KeyUpdate(provided,
                      ProvidedAfterNewProvider(distance, max, provided, l, r,
                                               if r.provider == local then {r} else {}),
                      local, r.key, Truncate(InsertByDistance(distance, r.key, r, l), max))
  {
    var at := FirstFartherIndex(distance, r.key, r, l);
    var ins := Splice(l, r, at);
    InsertAtFirstFarther(distance, r.key, r, l);
    if |ins| > max {
      assert Truncate(ins, max) == ins[..|ins| - 1];
      if at.Some? {
        DropLastUpdatesKey(l, r, at, local, provided);
      } else {
        assert ins[..|ins| - 1] == l;
      }
    } else {
      assert Truncate(ins, max) == ins;
      InsertFitsUpdatesKey(l, r, at, local, provided);
    }
  }

  /** A new provider inserted into a list with room joins it, and `provided` if it is local. */
  lemma InsertFitsUpdatesKey(l: seq<ProviderRecord>, r: ProviderRecord, at: Option<nat>,
                             local: PeerId, provided: set<ProviderRecord>)
    requires at.Some? ==> at.value <= |l|
    requires KeySynced(provided, local, r.key, l)
    ensures KeyUpdate(provided, provided + (if r.provider == local then {r} else {}), local, r.key, Splice(l, r, at))
  {
    SpliceMembers(l, r, at);
    SwapUpdate(l, r, local, provided, Splice(l, r, at), {r}, {});
    assert provided + (if r.provider == local then {r} else {}) - {} == provided + (if r.provider == local then {r} else {});
  }

  /** A new provider inserted before the last record of a full list pushes that record out. */
  lemma DropLastUpdatesKey(l: seq<ProviderRecord>, r: ProviderRecord, at: Option<nat>,
                           local: PeerId, provided: set<ProviderRecord>)
    requires at.Some? && at.value < |l|
    requires DistinctProviders(l) && !Provides(l, r.provider)
    requires forall x | x in l :: x.key == r.key
    requires KeySynced(provided, local, r.key, l)
    ensures var ins := Splice(l, r, at);
            KeyUpdate(provided, provided + (if r.provider == local then {r} else {}) - {l[|l| - 1]},
                      local, r.key, ins[..|ins| - 1])
  {
    SpliceMembers(l, r, at);
    var ins := Splice(l, r, at);
    DropLastMembers(ins);
    var l' := ins[..|ins| - 1];
    var last := l[|l| - 1];
    assert ins[|ins| - 1] == last;
    assert last.provider != r.provider;
    forall x ensures x in l' <==> (x in {r} || x in l) && x !in {last} {
      assert x in l' <==> x in ins && x != last;
    }
    SwapUpdate(l, r, local, provided, l', {r}, {last});
  }

  /**
   * The list of `r`'s key gains `added` (nothing or `r`) and loses `gone`;
   * `provided` gains the local part of `added` and loses `gone`.
   */
  lemma SwapUpdate(l: seq<ProviderRecord>, r: ProviderRecord, local: PeerId,
                   provided: set<ProviderRecord>, l': seq<ProviderRecord>,
                   added: set<ProviderRecord>, gone: set<ProviderRecord>)
    requires added <= {r}
    requires forall x | x in gone :: x.key == r.key
    requires KeySynced(provided, local, r.key, l)
    requires forall x :: x in l' <==> (x in added || x in l) && x !in gone
    ensures KeyUpdate(provided, provided + (if r.provider == local then added else {}) - gone, local, r.key, l')
  {
  }

  /**
   * The corrected update keeps `provided` in sync with the provider lists:
   * after `add_provider` it still holds exactly the local node's records.
   */
  lemma AddProviderKeepsSync(distance: Distance, max: nat, local: PeerId,
                             providers: map<Key, seq<ProviderRecord>>, provided: set<ProviderRecord>,
                             r: ProviderRecord)
    requires InSync(providers, provided, local) && KeysMatch(providers)
    requires ListInvariant(distance, r.key, max, ListOf(providers, r.key))
    ensures InSync(providers[r.key := AddToList(distance, r.key, max, ListOf(providers, r.key), r)],
                   ProvidedAfterAdd(distance, max, local, provided, ListOf(providers, r.key), r), local)
  {
    var k, l := r.key, ListOf(providers, r.key);
    assert KeySynced(provided, local, k, l);
    match ProviderIndex(l, r.provider) {
      case Some(i) => ReplaceUpdatesKey(l, i, r, local, provided);
      case None => InsertUpdatesKey(distance, max, l, r, local, provided);
    }
    AddToListKeepsInvariant(distance, max, l, r);
    ListChangeKeepsSync(providers, provided, local, k, AddToList(distance, k, max, l, r),
                        ProvidedAfterAdd(distance, max, local, provided, l, r));
  }

  /**
   * The source's update breaks the sync: the local node re-announcing a key
   * it already provides, with a new expiry, leaves the stale record in
   * `provided` and never lists the new one there.
   */
  lemma AsWrittenLosesSync()
    ensures var distance: Distance := (p, k) => 0;
            var old1 := ProviderRecord(7, 1, None);
            var new1 := ProviderRecord(7, 1, Some(60));
            var providers := map[7 := [old1]];
            && InSync(providers, {old1}, 1)
            && AddToList(distance, 7, KValue, [old1], new1) == [new1]
            && ProvidedAfterAddAsWritten(distance, KValue, 1, {old1}, [old1], new1) == {old1}
            && !InSync(providers[7 := [new1]], {old1}, 1)
  {
  }

  /**
   * In general: whenever the local node offers a record for a key it already
   * provides, and the record differs from the listed one, the source's update
   * leaves `provided` out of sync with the new list.
   */
  lemma AsWrittenBreaksSync(distance: Distance, max: nat, local: PeerId, provided: set<ProviderRecord>,
                            l: seq<ProviderRecord>, r: ProviderRecord)
    requires r.provider == local && Provides(l, local) && r !in l
    requires KeySynced(provided, local, r.key, l)
    ensures AddToList(distance, r.key, max, l, r) == l[ProviderIndex(l, local).value := r]
    ensures !KeySynced(ProvidedAfterAddAsWritten(distance, max, local, provided, l, r), local, r.key,
                       AddToList(distance, r.key, max, l, r))
  {
    var i := ProviderIndex(l, local).value;
    assert l[i := r][i] == r;
    assert r !in ProvidedAfterAddAsWritten(distance, max, local, provided, l, r);
  }

  /** `remove_provider` on `provided`: the record taken out of the list leaves it too. */
  function ProvidedAfterRemove(provided: set<ProviderRecord>, l: seq<ProviderRecord>,
                               provider: PeerId): set<ProviderRecord>
  {
    match ProviderIndex(l, provider)
    case Some(i) => provided - {l[i]}
    case None => provided
  }

  /** `remove_provider` on the lists: a list left empty is dropped with its key. */
  function ProvidersAfterRemove(providers: map<Key, seq<ProviderRecord>>, key: Key,
                                provider: PeerId): map<Key, seq<ProviderRecord>>
  {
    if key !in providers then providers
    else
      var l := RemoveFromList(providers[key], provider);
      if l == [] then providers - {key} else providers[key := l]
  }

  /** Taking a provider out of its list keeps `provided` in sync. */
  lemma RemoveProviderKeepsSync(local: PeerId, providers: map<Key, seq<ProviderRecord>>,
                                provided: set<ProviderRecord>, key: Key, provider: PeerId)
    requires InSync(providers, provided, local) && KeysMatch(providers)
    requires DistinctProviders(ListOf(providers, key))
    ensures var provided' := ProvidedAfterRemove(provided, ListOf(providers, key), provider);
            && InSync(ProvidersAfterRemove(providers, key, provider), provided', local)
            && KeysMatch(ProvidersAfterRemove(providers, key, provider))
            && forall x :: x in provided' <==> x in provided && !(x.key == key && x.provider == provider)
  {
    var l := ListOf(providers, key);
    var l' := RemoveFromList(l, provider);
    var provided' := ProvidedAfterRemove(provided, l, provider);
    if key in providers {
      assert KeySynced(provided, local, key, l);
      match ProviderIndex(l, provider) {
        case Some(i) =>
          forall x: ProviderRecord | x in l && x != l[i] ensures x.provider != provider {
            var j :| 0 <= j < |l| && l[j] == x;
          }
        case None =>
      }
      assert KeyUpdate(provided, provided', local, key, l');
      ListChangeKeepsSync(providers, provided, local, key, l', provided');
      if l' == [] {
        assert providers[key := l'] - {key} == providers - {key};
      }
    }
  }

  /**
   * The invariant of the provider side of the store: at most `maxKeys` keys,
   * every list bounded by `max`, ordered and without repeated providers, and
   * `provided` in sync with the lists.
   */
  ghost predicate ProvidersInvariant(distance: Distance, max: nat, maxKeys: nat, local: PeerId,
                                     providers: map<Key, seq<ProviderRecord>>, provided: set<ProviderRecord>)
  {
    && |providers| <= maxKeys
    && (forall k | k in providers :: ListInvariant(distance, k, max, providers[k]))
    && KeysMatch(providers)
    && InSync(providers, provided, local)
  }

  /** An accepted `add_provider` keeps the invariant. */
  lemma AddKeepsProvidersInvariant(distance: Distance, max: nat, maxKeys: nat, local: PeerId,
                                   providers: map<Key, seq<ProviderRecord>>, provided: set<ProviderRecord>,
                                   r: ProviderRecord)
    requires ProvidersInvariant(distance, max, maxKeys, local, providers, provided)
    requires r.key in providers || |providers| < maxKeys
    ensures ProvidersInvariant(distance, max, maxKeys, local,
                               providers[r.key := AddToList(distance, r.key, max, ListOf(providers, r.key), r)],
                               ProvidedAfterAdd(distance, max, local, provided, ListOf(providers, r.key), r))
  {
    var l := ListOf(providers, r.key);
    AddToListKeepsInvariant(distance, max, l, r);
    AddProviderKeepsSync(distance, max, local, providers, provided, r);
  }

  /** `remove_provider` keeps the invariant. */
  lemma RemoveKeepsProvidersInvariant(distance: Distance, max: nat, maxKeys: nat, local: PeerId,
                                      providers: map<Key, seq<ProviderRecord>>, provided: set<ProviderRecord>,
                                      key: Key, provider: PeerId)
    requires ProvidersInvariant(distance, max, maxKeys, local, providers, provided)
    ensures ProvidersInvariant(distance, max, maxKeys, local, ProvidersAfterRemove(providers, key, provider),
                               ProvidedAfterRemove(provided, ListOf(providers, key), provider))
  {
    RemoveProviderKeepsSync(local, providers, provided, key, provider);
    if key in providers {
      RemoveKeepsInvariant(distance, key, max, providers[key], provider);
    }
  }

  /**
   * The store. `records` maps each key to its set of records, `providers`
   * each key to its provider list, and `provided` collects the provider
   * records of the local node, which must stay in sync with `providers`.
   */
  class MemoryStore {
    const localId: PeerId
    const config: Config
    const distance: Distance
    const expand: Record -> Expansion
    const reduce: (Key, set<Record>) -> Record

    var records: map<Key, set<Record>>
    var providers: map<Key, seq<ProviderRecord>>
    var provided: set<ProviderRecord>

    ghost predicate Valid()
      reads this
    {
      && |records| <= config.maxRecords
      && ProvidersInvariant(distance, config.maxProvidersPerKey, config.maxProvidedKeys, localId,
                            providers, provided)
    }

    /** `MemoryStore::with_config`: an empty store. */
    constructor WithConfig(localId: PeerId, config: Config, distance: Distance,
                           expand: Record -> Expansion, reduce: (Key, set<Record>) -> Record)
      ensures Valid()
      ensures this.localId == localId && this.config == config && this.distance == distance
      ensures this.expand == expand && this.reduce == reduce
      ensures records == map[] && providers == map[] && provided == {}
    {
      this.localId := localId;
      this.config := config;
      this.distance := distance;
      this.expand := expand;
      this.reduce := reduce;
      records := map[];
      providers := map[];
      provided := {};
    }

    /** `MemoryStore::new`: an empty store with the default configuration. */
    constructor New(localId: PeerId, distance: Distance,
                    expand: Record -> Expansion, reduce: (Key, set<Record>) -> Record)
      ensures Valid()
      ensures this.localId == localId && config == DefaultConfig && this.distance == distance
      ensures this.expand == expand && this.reduce == reduce
      ensures records == map[] && providers == map[] && provided == {}
    {
      this.localId := localId;
      config := DefaultConfig;
      this.distance := distance;
      this.expand := expand;
      this.reduce := reduce;
      records := map[];
      providers := map[];
      provided := {};
    }

    /** The set stored under `k`, or the empty set. */
    function RecordSet(k: Key): set<Record>
      reads this
    {
      if k in records then records[k] else {}
    }

    /** `get`: the reduction of the set stored under `k`. */
    function Get(k: Key): (r: Option<Record>)
      reads this
      ensures r.Some? <==> k in records
      ensures r.Some? ==> r.value == reduce(k, records[k])
    {
      if k in records then Some(reduce(k, records[k])) else None
    }

    /** `records`: one reduced record per stored key. */
    function Records(): (m: map<Key, Record>)
      reads this
      ensures m.Keys == records.Keys
      ensures forall k | k in m :: Get(k) == Some(m[k])
    {
      map k | k in records :: reduce(k, records[k])
    }

    /**
     * `insert`: the expansion of `record` joins the set `s`; a value that
     * cannot be expanded is refused (with the error `MaxRecords`).
     */
    method Insert(s: set<Record>, record: Record) returns (res: Result<set<Record>, StoreError>)
      ensures res.Err? <==> expand(record).Malformed?
      ensures res.Err? ==> res.error == MaxRecords
      ensures res.Ok? ==> res.value == s + Expanded(expand(record))
    {
      match expand(record) {
        case Single(x) =>
          res := Ok(s + {x});
        case Multiple(rs) =>
          res := Ok(s + set x | x in rs);
        case Malformed =>
          res := Err(MaxRecords);
      }
    }

    /**
     * `put`: a value of `maxValueBytes` bytes or more is too large; a new
     * key is refused once `maxRecords` keys are stored; otherwise the record
     * joins its key's set. A refused record changes nothing.
     */
    method Put(r: Record) returns (res: Result<(), StoreError>)
      requires Valid()
      modifies this`records
      ensures Valid()
      ensures res.Err? ==> records == old(records)
      ensures res.Err? ==> res.error == if |r.value| >= config.maxValueBytes then ValueTooLarge else MaxRecords
      ensures res.Ok? <==> && |r.value| < config.maxValueBytes
                           && (r.key in old(records) || |old(records)| < config.maxRecords)
                           && !expand(r).Malformed?
      ensures res.Ok? ==> records == old(records)[r.key := old(RecordSet(r.key)) + Expanded(expand(r))]
      ensures res.Ok? ==> Get(r.key) == Some(reduce(r.key, old(RecordSet(r.key)) + Expanded(expand(r))))
      ensures forall k | k != r.key :: Get(k) == old(Get(k))
    {
      if |r.value| >= config.maxValueBytes {
        return Err(ValueTooLarge);
      }
      var numRecords := |records|;
      if r.key in records {
        var inserted := Insert(records[r.key], r);
        if inserted.Err? {
          return Err(inserted.error);
        }
        records := records[r.key := inserted.value];
      } else {
        if numRecords >= config.maxRecords {
          return Err(MaxRecords);
        }
        var inserted := Insert({}, r);
        if inserted.Err? {
          return Err(inserted.error);
        }
        records := records[r.key := inserted.value];
      }
      res := Ok(());
    }

    /** `remove`: the key's set goes; every other key keeps its record. */
    method Remove(k: Key)
      requires Valid()
      modifies this`records
      ensures Valid()
      ensures records == old(records) - {k}
      ensures Get(k).None?
      ensures forall k' | k' != k :: Get(k') == old(Get(k'))
    {
      records := records - {k};
    }

    /**
     * `put`, then `get`, then `remove` of the same record: an accepted record
     * is read back as the reduction of its key's grown set, and nothing is
     * read back after the removal. On an empty store a plain record comes
     * back as the reduction of the set holding just that record.
     */
    method PutGetRemove(r: Record) returns (res: Result<(), StoreError>, got: Option<Record>, gone: Option<Record>)
      requires Valid()
      modifies this`records
      ensures Valid()
      ensures res.Ok? <==> && |r.value| < config.maxValueBytes
                           && (r.key in old(records) || |old(records)| < config.maxRecords)
                           && !expand(r).Malformed?
      ensures res.Ok? ==> got == Some(reduce(r.key, old(RecordSet(r.key)) + Expanded(expand(r))))
      ensures res.Err? ==> got == old(Get(r.key))
      ensures gone.None? && records == old(records) - {r.key}
      ensures (&& old(records) == map[] && |r.value| < config.maxValueBytes && 0 < config.maxRecords
               && expand(r) == Single(r))
              ==> res.Ok? && got == Some(reduce(r.key, {r}))
    {
      res := Put(r);
      got := Get(r.key);
      Remove(r.key);
      gone := Get(r.key);
    }

    /**
     * `retain`: every set keeps only the records `f` accepts; every key
     * stays, even when its set becomes empty.
     */
    method Retain(f: (Key, Record) -> bool)
      requires Valid()
      modifies this`records
      ensures Valid()
      ensures records.Keys == old(records).Keys
      ensures forall k, v | k in records :: v in records[k] <==> v in old(records)[k] && f(k, v)
    {
      var todo := records.Keys;
      while todo != {}
        invariant todo <= records.Keys && records.Keys == old(records).Keys
        invariant forall k | k in records && k in todo :: records[k] == old(records)[k]
        invariant forall k, v | k in records && k !in todo :: v in records[k] <==> v in old(records)[k] && f(k, v)
        decreases todo
      {
        var k :| k in todo;
        records := records[k := set v | v in records[k] && f(k, v)];
        todo := todo - {k};
      }
    }

    /** `providers`: the list stored for `key`, or none. */
    function ProvidersFor(key: Key): (l: seq<ProviderRecord>)
      reads this
      ensures Valid() ==> ListInvariant(distance, key, config.maxProvidersPerKey, l)
      ensures key !in providers ==> l == []
    {
      ListOf(providers, key)
    }

    /** `provided`: exactly the listed provider records of the local node. */
    function Provided(): (p: set<ProviderRecord>)
      reads this
      requires Valid()
      ensures forall x | x in p :: x.provider == localId && x in ProvidersFor(x.key)
      ensures forall k, x | x in ProvidersFor(k) && x.provider == localId :: x in p
    {
      provided
    }

    /**
     * `add_provider`: a new key is refused once `maxProvidedKeys` keys have
     * lists; otherwise the record is offered to its key's list (`AddToList`)
     * and `provided` follows the list.
     */
    method AddProvider(record: ProviderRecord) returns (res: Result<(), StoreError>)
      requires Valid()
      modifies this`providers, this`provided
      ensures Valid()
      ensures res.Err? <==> record.key !in old(providers) && |old(providers)| == config.maxProvidedKeys
      ensures res.Err? ==> res.error == MaxProvidedKeys && providers == old(providers) && provided == old(provided)
      ensures res.Ok? ==> providers == old(providers)[record.key := AddToList(distance, record.key,
                              config.maxProvidersPerKey, ListOf(old(providers), record.key), record)]
      ensures res.Ok? ==> provided == ProvidedAfterAdd(distance, config.maxProvidersPerKey, localId,
                              old(provided), ListOf(old(providers), record.key), record)
    {
      var key := record.key;
      var numKeys := |providers|;
      if key !in providers && config.maxProvidedKeys == numKeys {
        return Err(MaxProvidedKeys);
      }
      // `or_insert_with(Default::default)`: a new key starts from the empty list
      var list := if key in providers then providers[key] else [];
      var provided';
      list, provided' := OfferToList(list, provided, record);
      AddKeepsProvidersInvariant(distance, config.maxProvidersPerKey, config.maxProvidedKeys, localId,
                                 providers, provided, record);
      providers := providers[key := list];
      provided := provided';
      res := Ok(());
    }

    /**
     * The in-place steps of `add_provider` on the list of the record's key
     * and on `provided`: replace a listed provider's record, or insert before
     * the first farther provider and pop the excess, or push if there is room.
     */
    method OfferToList(list: seq<ProviderRecord>, provided: set<ProviderRecord>, record: ProviderRecord)
      returns (list': seq<ProviderRecord>, provided': set<ProviderRecord>)
      requires |list| <= config.maxProvidersPerKey
      ensures list' == AddToList(distance, record.key, config.maxProvidersPerKey, list, record)
      ensures provided' == ProvidedAfterAdd(distance, config.maxProvidersPerKey, localId, provided, list, record)
    {
      var key, max := record.key, config.maxProvidersPerKey;
      list', provided' := list, provided;
      match ProviderIndex(list, record.provider) {
        case Some(i) =>
          // the corrected update: the old record leaves `provided` with its list entry
          if record.provider == localId {
            provided' := provided' - {list[i]} + {record};
          }
          list' := list[i := record];
        case None =>
          InsertAtFirstFarther(distance, key, record, list);
          match FirstFartherIndex(distance, key, record, list) {
            case Some(i) =>
              if record.provider == localId {
                provided' := provided' + {record};
              }
              list' := list[..i] + [record] + list[i..];
              if |list'| > max {
                var last := list'[|list'| - 1];
                assert last == list[|list| - 1];
                list' := list'[..|list'| - 1];
                provided' := provided' - {last};
              }
            case None =>
              if |list| < max {
                if record.provider == localId {
                  provided' := provided' + {record};
                }
                list' := list + [record];
              } else {
                assert (list + [record])[..max] == list;
              }
          }
      }
    }

    /**
     * `remove_provider`: the provider's record leaves the key's list and
     * `provided`; a list left empty is dropped with its key.
     */
    method RemoveProvider(key: Key, provider: PeerId)
      requires Valid()
      modifies this`providers, this`provided
      ensures Valid()
      ensures providers == ProvidersAfterRemove(old(providers), key, provider)
      ensures provided == ProvidedAfterRemove(old(provided), old(ProvidersFor(key)), provider)
      ensures forall x :: x in provided <==> x in old(provided) && !(x.key == key && x.provider == provider)
      ensures !Provides(ProvidersFor(key), provider)
    {
      RemoveProviderKeepsSync(localId, providers, provided, key, provider);
      RemoveKeepsProvidersInvariant(distance, config.maxProvidersPerKey, config.maxProvidedKeys, localId,
                                    providers, provided, key, provider);
      if key in providers {
        var list := providers[key];
        match ProviderIndex(list, provider) {
          case Some(i) =>
            var p := list[i];
            list := RemoveAt(list, i);
            provided := provided - {p};
          case None =>
        }
        if list == [] {
          providers := providers - {key};
        } else {
          providers := providers[key := list];
        }
      }
    }
  }
}
