/**
 * The particle plumber of the Aquamarine interpreter host
 * (aquamarine/src/plumber.rs): it admits incoming particles, keeps one actor
 * per particle signature for the host and for every worker, splits the peers
 * an actor wants to reach into remote and local ones, removes expired actors
 * in bounded batches, and queues the resulting events for the node.
 *
 * The virtual machines, futures, clocks, signature checks and key storage
 * around this logic are not modelled: what the plumber learns from them is
 * gathered in `Env`, and the current time is a parameter.
 */
module Plumbing {
  import opened Base

  type PeerId = nat
  type WorkerId = nat
  type DealId = string
  /** A service function handed to an actor; only its identity matters here. */
  type ServiceFunction = nat

  datatype PeerScope = Host | Worker(id: WorkerId)

  datatype Particle = Particle(id: string, initPeer: PeerId, signature: seq<u8>)

  /** Actors are keyed by the signature of the particle that created them. */
  datatype ActorKey = ActorKey(signature: seq<u8>)

  /**
   * The part of an actor the plumber decides: the particle it was created
   * for, its scope and peer, the deal of its worker, every particle ever
   * delivered to it, in order, and the service function it was last given.
   * `delivered` is the history of what entered the actor's mailbox, not the
   * mailbox itself, which executions drain.
   */
  datatype Actor = Actor(particleId: string, scope: PeerScope, currentPeer: PeerId, dealId: Option<DealId>,
                         delivered: seq<Particle>, service: Option<ServiceFunction>)

  /** The data-store key of a finished particle, removed in batches. */
  datatype CleanupKey = CleanupKey(particleId: string, peer: PeerId, signature: seq<u8>, token: string)

  datatype ApiError =
    | ParticleExpired(particleId: string)
    | SignatureVerificationFailed(particleId: string, err: string)

  datatype RemoteEffects = RemoteEffects(particle: Particle, nextPeers: seq<PeerId>)
  datatype LocalEffects = LocalEffects(particle: Particle, nextPeers: seq<PeerScope>)

  /** What `poll` hands to the node: a particle to send out, or an error. */
  type Event = Result<RemoteEffects, ApiError>

  datatype CreateError = NoDeal(worker: WorkerId) | NoRuntimeHandle(worker: WorkerId) | NoKeyPair(scope: PeerScope) | TokenFailed

  /** At most this many cleanup keys are collected per cleanup round. */
  const MaxCleanupKeys: nat := 1024

  /** What the plumber learns from the code around it. */
  datatype Env = Env(
    expired: (Particle, nat) -> bool,           // the particle's deadline has passed at the given time
    verifyError: Particle -> Option<string>,     // the signature check, `None` when it passes
    workerActive: WorkerId -> bool,
    isManagement: PeerId -> bool,
    isHost: PeerId -> bool,
    hostPeerId: PeerId,
    workerPeerId: WorkerId -> PeerId,
    dealId: WorkerId -> Option<DealId>,
    hasRuntimeHandle: WorkerId -> bool,
    hasKeyPair: PeerScope -> bool,
    canSignToken: seq<u8> -> bool,               // the particle token can be made from this signature
    scopeOf: PeerId -> Option<PeerScope>,        // `None` for a peer that is not local
    actorExpired: (Actor, nat) -> bool,
    actorExecuting: Actor -> bool,
    cleanupKey: Actor -> CleanupKey)

  // ---------------------------------------------------------------------
  // Admission

  datatype Gate = Pass | Reject(error: ApiError) | Drop

  /**
   * The three gates of `ingest`: an expired particle and one whose signature
   * fails are rejected with an error event; a particle for an inactive
   * worker is dropped silently unless its initiator is a manager or the host.
   */
  function Admission(env: Env, particle: Particle, scope: PeerScope, now: nat): (g: Gate)
    ensures g == Reject(ParticleExpired(particle.id)) <==> env.expired(particle, now)
    ensures g.Reject? && g.error.SignatureVerificationFailed?
        <==> !env.expired(particle, now) && env.verifyError(particle).Some?
    ensures g.Reject? ==> g.error.particleId == particle.id
    ensures g.Drop? <==> && !env.expired(particle, now) && env.verifyError(particle).None?
                         && scope.Worker? && !env.workerActive(scope.id)
                         && !env.isManagement(particle.initPeer) && !env.isHost(particle.initPeer)
  {
    if env.expired(particle, now) then Reject(ParticleExpired(particle.id))
    else if env.verifyError(particle).Some? then
      Reject(SignatureVerificationFailed(particle.id, env.verifyError(particle).value))
    else if scope.Worker? && !env.workerActive(scope.id)
         && !env.isManagement(particle.initPeer) && !env.isHost(particle.initPeer) then Drop
    else Pass
  }

  // ---------------------------------------------------------------------
  // Actor tables

  /** The actors of the host and, per worker, of that worker. */
  datatype Tables = Tables(host: map<ActorKey, Actor>, workers: map<WorkerId, map<ActorKey, Actor>>)

  /** The table of one scope; a worker without an entry has no actors. */
  function ActorsIn(t: Tables, scope: PeerScope): map<ActorKey, Actor> {
    match scope
    case Host => t.host
    case Worker(w) => if w in t.workers then t.workers[w] else map[]
  }

  /** Every actor sits in the table of its own scope. */
  ghost predicate ScopesMatch(t: Tables) {
    && (forall k | k in t.host :: t.host[k].scope == Host)
    && (forall w, k | w in t.workers && k in t.workers[w] :: t.workers[w][k].scope == Worker(w))
  }

  function NewActor(particle: Particle, scope: PeerScope, currentPeer: PeerId, dealId: Option<DealId>): Actor {
    Actor(particle.id, scope, currentPeer, dealId, [], None)
  }

  /**
   * `create_actor`: the actor under `key` if there is one, untouched;
   * otherwise a new actor, which needs a key pair for the scope and a
   * particle token.
   */
  function CreateActor(env: Env, actors: map<ActorKey, Actor>, key: ActorKey, particle: Particle,
                       scope: PeerScope, currentPeer: PeerId, dealId: Option<DealId>)
    : (r: Result<map<ActorKey, Actor>, CreateError>)
    ensures key in actors ==> r == Ok(actors)
    ensures key !in actors ==> (r.Ok? <==> env.hasKeyPair(scope) && env.canSignToken(particle.signature))
    ensures r.Ok? ==> key in r.value && r.value.Keys == actors.Keys + {key}
    ensures r.Ok? ==> forall k | k in actors :: r.value[k] == actors[k]
    ensures r.Ok? && key !in actors ==> r.value[key].delivered == [] && r.value[key].scope == scope
  {
    if key in actors then Ok(actors)
    else if !env.hasKeyPair(scope) then Err(NoKeyPair(scope))
    else if !env.canSignToken(particle.signature) then Err(TokenFailed)
    else Ok(actors[key := NewActor(particle, scope, currentPeer, dealId)])
  }

  datatype Lookup = Lookup(tables: Tables, error: Option<CreateError>)

  /**
   * `get_or_create_actor`: a host actor is created in the host table; for a
   * worker, its (possibly empty) table is put in place first, and the
   * worker's deal and runtime handle must exist before an actor is looked
   * up or created.
   */
  function GetOrCreate(env: Env, t: Tables, scope: PeerScope, key: ActorKey, particle: Particle): (r: Lookup)
    ensures scope.Host? ==> r.tables.workers == t.workers
    ensures scope.Worker? ==> r.tables.host == t.host && scope.id in r.tables.workers
    ensures scope.Worker? ==> forall w | w != scope.id :: (w in r.tables.workers <==> w in t.workers)
                                && (w in t.workers ==> r.tables.workers[w] == t.workers[w])
    ensures r.error.None? ==> key in ActorsIn(r.tables, scope)
    ensures r.error.Some? ==> ActorsIn(r.tables, scope) == ActorsIn(t, scope)
    ensures r.error.None? && key in ActorsIn(t, scope) ==> ActorsIn(r.tables, scope) == ActorsIn(t, scope)
    ensures ActorsIn(r.tables, scope).Keys <= ActorsIn(t, scope).Keys + {key}
    ensures forall k | k in ActorsIn(t, scope) :: k in ActorsIn(r.tables, scope)
              && ActorsIn(r.tables, scope)[k] == ActorsIn(t, scope)[k]
    ensures r.error.None? && key !in ActorsIn(t, scope) ==>
              ActorsIn(r.tables, scope)[key]
              == NewActor(particle, scope, if scope.Host? then env.hostPeerId else env.workerPeerId(scope.id),
                          if scope.Host? then None else env.dealId(scope.id))
    ensures scope.Worker? && env.dealId(scope.id).None? ==> r.error == Some(NoDeal(scope.id))
    ensures scope.Worker? && env.dealId(scope.id).Some? && !env.hasRuntimeHandle(scope.id) ==>
              r.error == Some(NoRuntimeHandle(scope.id))
    ensures r.error.None? <==> && (scope.Worker? ==> env.dealId(scope.id).Some? && env.hasRuntimeHandle(scope.id))
                               && (key in ActorsIn(t, scope)
                                   || (env.hasKeyPair(scope) && env.canSignToken(particle.signature)))
  {
    match scope
    case Host =>
      (match CreateActor(env, t.host, key, particle, Host, env.hostPeerId, None)
       case Ok(m) => Lookup(t.(host := m), None)
       case Err(e) => Lookup(t, Some(e)))
    case Worker(w) =>
      var actors := ActorsIn(t, scope);
      var t' := t.(workers := t.workers[w := actors]);
      if env.dealId(w).None? then Lookup(t', Some(NoDeal(w)))
      else if !env.hasRuntimeHandle(w) then Lookup(t', Some(NoRuntimeHandle(w)))
      else
        match CreateActor(env, actors, key, particle, scope, env.workerPeerId(w), env.dealId(w))
        case Ok(m) => Lookup(t.(workers := t.workers[w := m]), None)
        case Err(e) => Lookup(t', Some(e))
  }

  /** `Actor::ingest` and `set_function`: the particle is delivered to the actor. */
  function Deliver(a: Actor, particle: Particle, service: Option<ServiceFunction>): Actor {
    a.(delivered := a.delivered + [particle], service := if service.Some? then service else a.service)
  }

  /** The tables with the actor under `key` in `scope` given the particle. */
  function DeliverIn(t: Tables, scope: PeerScope, key: ActorKey, particle: Particle,
                     service: Option<ServiceFunction>): Tables
    requires key in ActorsIn(t, scope)
  {
    var a := Deliver(ActorsIn(t, scope)[key], particle, service);
    match scope
    case Host => t.(host := t.host[key := a])
    case Worker(w) => t.(workers := t.workers[w := t.workers[w][key := a]])
  }

  /** The tables after an admitted particle: found or created actor, then delivery. */
  function IngestTables(env: Env, t: Tables, particle: Particle, service: Option<ServiceFunction>,
                        scope: PeerScope): Tables
  {
    var key := ActorKey(particle.signature);
    var l := GetOrCreate(env, t, scope, key, particle);
    if l.error.None? then DeliverIn(l.tables, scope, key, particle, service) else l.tables
  }

  /**
   * An admitted particle reaches at most one actor: at most the actor of its
   * signature is added to its scope's table, the other tables keep their
   * actors, and if that actor existed it only gains the particle.
   */
  lemma IngestTouchesOneActor(env: Env, t: Tables, particle: Particle, service: Option<ServiceFunction>,
                              scope: PeerScope)
    ensures var t' := IngestTables(env, t, particle, service, scope);
            && ActorsIn(t', scope).Keys <= ActorsIn(t, scope).Keys + {ActorKey(particle.signature)}
            && (forall s | s != scope :: ActorsIn(t', s) == ActorsIn(t, s))
    ensures var key, t' := ActorKey(particle.signature), IngestTables(env, t, particle, service, scope);
            key in ActorsIn(t, scope) && GetOrCreate(env, t, scope, key, particle).error.None? ==>
              && ActorsIn(t', scope).Keys == ActorsIn(t, scope).Keys
              && ActorsIn(t', scope)[key].delivered == ActorsIn(t, scope)[key].delivered + [particle]
    ensures var key, t' := ActorKey(particle.signature), IngestTables(env, t, particle, service, scope);
            forall k | k in ActorsIn(t, scope) && k != key ::
              k in ActorsIn(t', scope) && ActorsIn(t', scope)[k] == ActorsIn(t, scope)[k]
    ensures var key, t' := ActorKey(particle.signature), IngestTables(env, t, particle, service, scope);
            key !in ActorsIn(t, scope) && key in ActorsIn(t', scope) ==>
              ActorsIn(t', scope)[key].delivered == [particle] && ActorsIn(t', scope)[key].scope == scope
  {
    var key := ActorKey(particle.signature);
    var l := GetOrCreate(env, t, scope, key, particle);
    forall s | s != scope ensures ActorsIn(IngestTables(env, t, particle, service, scope), s) == ActorsIn(t, s) {
      if s.Worker? && scope.Worker? {
        assert s.id != scope.id;
      }
    }
  }

  /** Ingesting keeps every actor in the table of its own scope. */
  lemma IngestKeepsScopes(env: Env, t: Tables, particle: Particle, service: Option<ServiceFunction>,
                          scope: PeerScope)
    requires ScopesMatch(t)
    ensures ScopesMatch(IngestTables(env, t, particle, service, scope))
  {
    var key := ActorKey(particle.signature);
    var l := GetOrCreate(env, t, scope, key, particle);
    assert ScopesMatch(l.tables);
  }

  // ---------------------------------------------------------------------
  // Cleanup

  /** An actor that may go: its particle expired and it is not executing. */
  predicate Removable(env: Env, a: Actor, now: nat) {
    env.actorExpired(a, now) && !env.actorExecuting(a)
  }

  /** `kept` is `actors` with some removable actors taken out. */
  ghost predicate Cleaned(env: Env, actors: map<ActorKey, Actor>, kept: map<ActorKey, Actor>, now: nat) {
    && kept.Keys <= actors.Keys
    && (forall k | k in kept :: kept[k] == actors[k])
    && (forall k | k in actors && k !in kept :: Removable(env, actors[k], now))
  }

  ghost predicate NoneRemovable(env: Env, actors: map<ActorKey, Actor>, now: nat) {
    forall k | k in actors :: !Removable(env, actors[k], now)
  }

  ghost predicate AllRemovable(env: Env, actors: map<ActorKey, Actor>, now: nat) {
    forall k | k in actors :: Removable(env, actors[k], now)
  }

  /** No entry of `s` occurs twice. */
  predicate Distinct<T(==)>(s: seq<T>) {
    forall i, j | 0 <= i < j < |s| :: s[i] != s[j]
  }

  /** The cleanup keys of the actors named in `removed`, in that order. */
  function CleanupKeysOf(env: Env, actors: map<ActorKey, Actor>, removed: seq<ActorKey>): (keys: seq<CleanupKey>)
    requires forall k | k in removed :: k in actors
    ensures |keys| == |removed|
    ensures forall i | 0 <= i < |removed| :: keys[i] == env.cleanupKey(actors[removed[i]])
  {
    if removed == [] then []
    else CleanupKeysOf(env, actors, removed[..|removed| - 1]) + [env.cleanupKey(actors[removed[|removed| - 1]])]
  }

  /**
   * `cleanup_actors`: the `retain` over one actor table. Each removable actor
   * is removed and its own cleanup key pushed, until `keys` holds
   * `MaxCleanupKeys`; from then on every actor is kept. The ghost result
   * `removed` names the removed actors in the order they were visited.
   */
  method CleanupActors(env: Env, actors: map<ActorKey, Actor>, keys: seq<CleanupKey>, now: nat)
    returns (kept: map<ActorKey, Actor>, keys': seq<CleanupKey>, ghost removed: seq<ActorKey>)
    ensures Cleaned(env, actors, kept, now)
    ensures Distinct(removed) && forall k :: k in removed <==> k in actors && k !in kept
    ensures keys' == keys + CleanupKeysOf(env, actors, removed)
    ensures |keys'| < MaxCleanupKeys ==> NoneRemovable(env, kept, now)
    ensures keys' == keys ==> kept == actors
    ensures |keys'| + |kept| == |keys| + |actors|
    ensures |keys| >= MaxCleanupKeys ==> kept == actors && keys' == keys
    ensures |keys| <= MaxCleanupKeys ==> |keys'| <= MaxCleanupKeys
  {
    kept, keys', removed := actors, keys, [];
    var todo := actors.Keys;
    while todo != {}
      invariant ActorsCleaning(env, actors, keys, now, todo, kept, keys', removed)
      decreases todo
    {
      var k :| k in todo;
      if |keys'| < MaxCleanupKeys && Removable(env, kept[k], now) {
        ActorCleaned(env, actors, keys, now, todo, kept, keys', removed, k);
        keys' := keys' + [env.cleanupKey(kept[k])];
        kept := kept - {k};
        removed := removed + [k];
      }
      todo := todo - {k};
    }
  }

  /**
   * The loop invariant of `CleanupActors`: the actors still in `todo` are
   * kept, every removed actor was removable and is recorded in `removed`
   * with its key pushed, and every visited actor that stayed was not
   * removable or came after the batch was full.
   */
  ghost predicate ActorsCleaning(env: Env, actors: map<ActorKey, Actor>, keys: seq<CleanupKey>, now: nat,
                                 todo: set<ActorKey>, kept: map<ActorKey, Actor>, keys': seq<CleanupKey>,
                                 removed: seq<ActorKey>)
  {
    && todo <= kept.Keys
    && Cleaned(env, actors, kept, now)
    && (forall k | k in kept && k !in todo :: !Removable(env, kept[k], now) || |keys'| >= MaxCleanupKeys)
    && Distinct(removed) && (forall k :: k in removed <==> k in actors && k !in kept)
    && keys' == keys + CleanupKeysOf(env, actors, removed)
    && |keys'| + |kept| == |keys| + |actors|
    && (|keys| >= MaxCleanupKeys ==> kept == actors && keys' == keys)
    && (|keys| <= MaxCleanupKeys ==> |keys'| <= MaxCleanupKeys)
    && (|keys'| == |keys| ==> kept == actors)
  }

  /** Removing one removable actor and pushing its key keeps the loop invariant. */
  lemma ActorCleaned(env: Env, actors: map<ActorKey, Actor>, keys: seq<CleanupKey>, now: nat,
                     todo: set<ActorKey>, kept: map<ActorKey, Actor>, keys': seq<CleanupKey>,
                     removed: seq<ActorKey>, k: ActorKey)
    requires ActorsCleaning(env, actors, keys, now, todo, kept, keys', removed)
    requires k in todo && |keys'| < MaxCleanupKeys && Removable(env, kept[k], now)
    ensures ActorsCleaning(env, actors, keys, now, todo - {k}, kept - {k},
                           keys' + [env.cleanupKey(kept[k])], removed + [k])
  {
    var kept', removed' := kept - {k}, removed + [k];
    assert kept'.Keys == kept.Keys - {k};
    assert removed'[..|removed|] == removed;
    var earlier, key := CleanupKeysOf(env, actors, removed), env.cleanupKey(actors[k]);
    assert CleanupKeysOf(env, actors, removed') == earlier + [key];
    assert keys + earlier + [key] == keys + (earlier + [key]);
  }

  /** Actor `k` of worker `w` was in `workers` and is gone from `workers'`. */
  ghost predicate RemovedFrom(workers: map<WorkerId, map<ActorKey, Actor>>,
                              workers': map<WorkerId, map<ActorKey, Actor>>, w: WorkerId, k: ActorKey)
  {
    w in workers && k in workers[w] && (w !in workers' || k !in workers'[w])
  }

  /**
   * `a` paired with each of `bs`, in order: the (worker, actor) pairs of one
   * worker's removed actors, and the (particle, scope) pairs of one local effect.
   */
  function Paired<A, B>(a: A, bs: seq<B>): (ps: seq<(A, B)>)
    ensures |ps| == |bs| && forall i | 0 <= i < |bs| :: ps[i] == (a, bs[i])
  {
    if bs == [] then [] else Paired(a, bs[..|bs| - 1]) + [(a, bs[|bs| - 1])]
  }

  /** Every pair of `removed` names an actor of `workers`. */
  ghost predicate PairsIn(workers: map<WorkerId, map<ActorKey, Actor>>, removed: seq<(WorkerId, ActorKey)>) {
    forall p | p in removed :: p.0 in workers && p.1 in workers[p.0]
  }

  /** The cleanup keys of the worker actors named in `removed`, in that order. */
  function WorkerCleanupKeysOf(env: Env, workers: map<WorkerId, map<ActorKey, Actor>>,
                               removed: seq<(WorkerId, ActorKey)>): (keys: seq<CleanupKey>)
    requires PairsIn(workers, removed)
    ensures |keys| == |removed|
    ensures forall i | 0 <= i < |removed| :: keys[i] == env.cleanupKey(workers[removed[i].0][removed[i].1])
  {
    if removed == [] then []
    else
      var p := removed[|removed| - 1];
      WorkerCleanupKeysOf(env, workers, removed[..|removed| - 1]) + [env.cleanupKey(workers[p.0][p.1])]
  }

  /** The keys of one worker's removed actors extend the keys gathered so far. */
  lemma WorkerKeysAppend(env: Env, workers: map<WorkerId, map<ActorKey, Actor>>,
                         removed: seq<(WorkerId, ActorKey)>, w: WorkerId, here: seq<ActorKey>,
                         keys: seq<CleanupKey>, gathered: seq<CleanupKey>, gathered': seq<CleanupKey>)
    requires PairsIn(workers, removed)
    requires w in workers && forall k | k in here :: k in workers[w]
    requires gathered == keys + WorkerCleanupKeysOf(env, workers, removed)
    requires gathered' == gathered + CleanupKeysOf(env, workers[w], here)
    ensures PairsIn(workers, removed + Paired(w, here))
    ensures gathered' == keys + WorkerCleanupKeysOf(env, workers, removed + Paired(w, here))
  {
    var all := removed + Paired(w, here);
    forall p | p in all ensures p.0 in workers && p.1 in workers[p.0] {
      if p !in removed {
        var i :| 0 <= i < |here| && Paired(w, here)[i] == p;
      }
    }
    var r := keys + WorkerCleanupKeysOf(env, workers, all);
    assert |gathered'| == |r|;
    forall i | 0 <= i < |r| ensures gathered'[i] == r[i] {
      if i >= |keys| + |removed| {
        assert all[i - |keys|] == (w, here[i - |keys| - |removed|]);
      }
    }
  }

  /**
   * `cleanup_worker_actors`: nothing happens once `keys` is full; otherwise
   * every worker's table is cleaned as `CleanupActors` cleans it, and a
   * worker's entry survives only if it still has actors or the worker has a
   * VM pool. The ghost result `removed` names the removed actors, paired
   * with their workers, in the order their keys were pushed.
   */
  method CleanupWorkerActors(env: Env, workers: map<WorkerId, map<ActorKey, Actor>>, pools: set<WorkerId>,
                             keys: seq<CleanupKey>, now: nat)
    returns (workers': map<WorkerId, map<ActorKey, Actor>>, keys': seq<CleanupKey>,
             ghost removed: seq<(WorkerId, ActorKey)>)
    ensures |keys| >= MaxCleanupKeys ==> workers' == workers && keys' == keys && removed == []
    ensures workers'.Keys <= workers.Keys
    ensures forall w | w in workers' :: Cleaned(env, workers[w], workers'[w], now)
    ensures |keys| < MaxCleanupKeys ==> forall w | w in workers' :: workers'[w] != map[] || w in pools
    ensures forall w | w in workers && w !in workers' :: w !in pools && AllRemovable(env, workers[w], now)
    ensures |keys'| < MaxCleanupKeys ==> forall w | w in workers' :: NoneRemovable(env, workers'[w], now)
    ensures Distinct(removed)
    ensures forall p: (WorkerId, ActorKey) :: p in removed <==> RemovedFrom(workers, workers', p.0, p.1)
    ensures PairsIn(workers, removed)
    ensures keys' == keys + WorkerCleanupKeysOf(env, workers, removed)
    ensures |keys| <= MaxCleanupKeys ==> |keys'| <= MaxCleanupKeys
  {
    if |keys| >= MaxCleanupKeys {
      return workers, keys, [];
    }
    workers', keys', removed := workers, keys, [];
    var todo := workers.Keys;
    while todo != {}
      invariant WorkersCleaning(env, workers, pools, keys, now, todo, workers', keys', removed)
      decreases todo
    {
      var w :| w in todo;
      var actors, ks, removedHere := CleanupActors(env, workers'[w], keys', now);
      ghost var before := workers';
      if actors != map[] || w in pools {
        workers' := workers'[w := actors];
      } else {
        workers' := workers' - {w};
      }
      WorkerCleaned(env, workers, pools, keys, now, todo, before, keys', removed, w, actors, ks, removedHere, workers');
      keys' := ks;
      removed := removed + Paired(w, removedHere);
      todo := todo - {w};
    }
  }

  /**
   * The loop invariant of `CleanupWorkerActors`: the tables are cleaned as
   * far as visited, and the removed actors are recorded with their keys.
   */
  ghost predicate WorkersCleaning(env: Env, workers: map<WorkerId, map<ActorKey, Actor>>, pools: set<WorkerId>,
                                  keys: seq<CleanupKey>, now: nat, todo: set<WorkerId>,
                                  workers': map<WorkerId, map<ActorKey, Actor>>, keys': seq<CleanupKey>,
                                  removed: seq<(WorkerId, ActorKey)>)
  {
    && WorkerTablesCleaning(env, workers, pools, now, todo, workers', keys')
    && WorkerRemovalsRecorded(env, workers, keys, workers', keys', removed)
  }

  /**
   * The workers still in `todo` are untouched, and every worker already
   * visited has been cleaned and kept only if it has actors or a pool.
   */
  ghost predicate WorkerTablesCleaning(env: Env, workers: map<WorkerId, map<ActorKey, Actor>>, pools: set<WorkerId>,
                                       now: nat, todo: set<WorkerId>,
                                       workers': map<WorkerId, map<ActorKey, Actor>>, keys': seq<CleanupKey>)
  {
    && todo <= workers'.Keys <= workers.Keys
    && (forall w | w in todo :: workers'[w] == workers[w])
    && (forall w | w in workers' :: Cleaned(env, workers[w], workers'[w], now))
    && (forall w | w in workers' && w !in todo :: workers'[w] != map[] || w in pools)
    && (forall w | w in workers && w !in workers' :: w !in pools && AllRemovable(env, workers[w], now))
    && (forall w | w in workers' && w !in todo :: NoneRemovable(env, workers'[w], now) || |keys'| >= MaxCleanupKeys)
    && |keys'| <= MaxCleanupKeys
  }

  /** `removed` lists each removed worker actor once, and `keys'` is `keys` followed by their keys. */
  ghost predicate WorkerRemovalsRecorded(env: Env, workers: map<WorkerId, map<ActorKey, Actor>>, keys: seq<CleanupKey>,
                                         workers': map<WorkerId, map<ActorKey, Actor>>, keys': seq<CleanupKey>,
                                         removed: seq<(WorkerId, ActorKey)>)
  {
    && Distinct(removed)
    && (forall p: (WorkerId, ActorKey) :: p in removed <==> RemovedFrom(workers, workers', p.0, p.1))
    && PairsIn(workers, removed)
    && keys' == keys + WorkerCleanupKeysOf(env, workers, removed)
  }

  /** One step of the worker `retain` keeps the loop invariant. */
  lemma WorkerCleaned(env: Env, workers: map<WorkerId, map<ActorKey, Actor>>, pools: set<WorkerId>,
                      keys: seq<CleanupKey>, now: nat, todo: set<WorkerId>,
                      before: map<WorkerId, map<ActorKey, Actor>>, keys': seq<CleanupKey>,
                      removed: seq<(WorkerId, ActorKey)>,
                      w: WorkerId, actors: map<ActorKey, Actor>, ks: seq<CleanupKey>, removedHere: seq<ActorKey>,
                      after: map<WorkerId, map<ActorKey, Actor>>)
    requires WorkersCleaning(env, workers, pools, keys, now, todo, before, keys', removed)
    requires w in todo
    requires Cleaned(env, before[w], actors, now)
    requires |ks| < MaxCleanupKeys ==> NoneRemovable(env, actors, now)
    requires Distinct(removedHere) && forall k :: k in removedHere <==> k in before[w] && k !in actors
    requires ks == keys' + CleanupKeysOf(env, before[w], removedHere)
    requires |keys'| <= MaxCleanupKeys ==> |ks| <= MaxCleanupKeys
    requires after == if actors != map[] || w in pools then before[w := actors] else before - {w}
    ensures WorkersCleaning(env, workers, pools, keys, now, todo - {w}, after, ks, removed + Paired(w, removedHere))
  {
    assert WorkerTablesCleaning(env, workers, pools, now, todo - {w}, after, ks) by {
      WorkerTableCleaned(env, workers, pools, now, todo, before, keys', w, actors, ks, after);
    }
    assert WorkerRemovalsRecorded(env, workers, keys, after, ks, removed + Paired(w, removedHere)) by {
      AfterShape(before, w, actors, pools, after);
      WorkerRemovalsStep(env, workers, keys, before, keys', removed, w, actors, ks, removedHere, after);
    }
  }

  /** One worker's entry is replaced by its cleaned table, or dropped when that is empty and it has no pool. */
  lemma AfterShape(before: map<WorkerId, map<ActorKey, Actor>>, w: WorkerId, actors: map<ActorKey, Actor>,
                   pools: set<WorkerId>, after: map<WorkerId, map<ActorKey, Actor>>)
    requires w in before
    requires after == if actors != map[] || w in pools then before[w := actors] else before - {w}
    ensures after.Keys <= before.Keys
    ensures (w in after ==> after[w] == actors) && (w !in after ==> actors == map[])
    ensures forall v | v != w :: (v in after <==> v in before) && (v in after ==> after[v] == before[v])
  {
  }

  /** The record part of one step of the worker `retain`. */
  lemma WorkerRemovalsStep(env: Env, workers: map<WorkerId, map<ActorKey, Actor>>, keys: seq<CleanupKey>,
                           before: map<WorkerId, map<ActorKey, Actor>>, keys': seq<CleanupKey>,
                           removed: seq<(WorkerId, ActorKey)>, w: WorkerId, actors: map<ActorKey, Actor>,
                           ks: seq<CleanupKey>, removedHere: seq<ActorKey>,
                           after: map<WorkerId, map<ActorKey, Actor>>)
    requires WorkerRemovalsRecorded(env, workers, keys, before, keys', removed)
    requires w in before && w in workers && before[w] == workers[w]
    requires Distinct(removedHere) && forall k :: k in removedHere <==> k in before[w] && k !in actors
    requires ks == keys' + CleanupKeysOf(env, before[w], removedHere)
    requires after.Keys <= before.Keys
    requires (w in after ==> after[w] == actors) && (w !in after ==> actors == map[])
    requires forall v | v != w :: (v in after <==> v in before) && (v in after ==> after[v] == before[v])
    ensures WorkerRemovalsRecorded(env, workers, keys, after, ks, removed + Paired(w, removedHere))
  {
    var all := removed + Paired(w, removedHere);
    assert forall p: (WorkerId, ActorKey) :: p in all <==> RemovedFrom(workers, after, p.0, p.1) by {
      TaggedMembers(workers, before, removed, w, actors, removedHere, after);
    }
    assert Distinct(all) by {
      DistinctTagged(removed, w, removedHere, before, workers);
    }
    assert PairsIn(workers, all) && ks == keys + WorkerCleanupKeysOf(env, workers, all) by {
      WorkerKeysAppend(env, workers, removed, w, removedHere, keys, keys', ks);
    }
  }

  /** The table part of one step of the worker `retain`. */
  lemma WorkerTableCleaned(env: Env, workers: map<WorkerId, map<ActorKey, Actor>>, pools: set<WorkerId>,
                           now: nat, todo: set<WorkerId>, before: map<WorkerId, map<ActorKey, Actor>>,
                           keys': seq<CleanupKey>, w: WorkerId, actors: map<ActorKey, Actor>, ks: seq<CleanupKey>,
                           after: map<WorkerId, map<ActorKey, Actor>>)
    requires WorkerTablesCleaning(env, workers, pools, now, todo, before, keys')
    requires w in todo
    requires Cleaned(env, before[w], actors, now)
    requires |ks| < MaxCleanupKeys ==> NoneRemovable(env, actors, now)
    requires |keys'| <= |ks| <= MaxCleanupKeys
    requires after == if actors != map[] || w in pools then before[w := actors] else before - {w}
    ensures WorkerTablesCleaning(env, workers, pools, now, todo - {w}, after, ks)
  {
    if actors == map[] && w !in pools {
      assert AllRemovable(env, workers[w], now);
    }
  }

  /** After one worker's pass, the recorded pairs are exactly the removed worker actors. */
  lemma TaggedMembers(workers: map<WorkerId, map<ActorKey, Actor>>, before: map<WorkerId, map<ActorKey, Actor>>,
                      removed: seq<(WorkerId, ActorKey)>, w: WorkerId, actors: map<ActorKey, Actor>,
                      removedHere: seq<ActorKey>, after: map<WorkerId, map<ActorKey, Actor>>)
    requires forall p: (WorkerId, ActorKey) :: p in removed <==> RemovedFrom(workers, before, p.0, p.1)
    requires w in before && w in workers && before[w] == workers[w]
    requires forall k :: k in removedHere <==> k in before[w] && k !in actors
    requires after.Keys <= before.Keys
    requires (w in after ==> after[w] == actors) && (w !in after ==> actors == map[])
    requires forall v | v != w :: (v in after <==> v in before) && (v in after ==> after[v] == before[v])
    ensures forall p: (WorkerId, ActorKey) :: p in removed + Paired(w, removedHere) <==> RemovedFrom(workers, after, p.0, p.1)
  {
    var all := removed + Paired(w, removedHere);
    forall p: (WorkerId, ActorKey) ensures p in all <==> RemovedFrom(workers, after, p.0, p.1) {
      if p.0 == w {
        assert !RemovedFrom(workers, before, p.0, p.1);
        if p.1 in removedHere {
          var i :| 0 <= i < |removedHere| && removedHere[i] == p.1;
          assert Paired(w, removedHere)[i] == p;
        }
        if p in Paired(w, removedHere) {
          var i :| 0 <= i < |removedHere| && Paired(w, removedHere)[i] == p;
        }
      } else {
        assert p !in Paired(w, removedHere);
      }
    }
  }

  /** Appending a fresh worker's distinct removals keeps the pairs distinct. */
  lemma DistinctTagged(removed: seq<(WorkerId, ActorKey)>, w: WorkerId, ks: seq<ActorKey>,
                       before: map<WorkerId, map<ActorKey, Actor>>, workers: map<WorkerId, map<ActorKey, Actor>>)
    requires Distinct(removed) && Distinct(ks)
    requires w in before && w in workers && before[w] == workers[w]
    requires forall p: (WorkerId, ActorKey) :: p in removed <==> RemovedFrom(workers, before, p.0, p.1)
    ensures Distinct(removed + Paired(w, ks))
  {
    var all := removed + Paired(w, ks);
    forall i, j | 0 <= i < j < |all| ensures all[i] != all[j] {
      if i < |removed| <= j {
        assert all[j].0 == w;
        assert removed[i] in removed;
      }
    }
  }

  // ---------------------------------------------------------------------
  // Routing effects

  /** The next peers without a local scope, in order. */
  function RemotePeers(env: Env, peers: seq<PeerId>): seq<PeerId> {
    if peers == [] then []
    else
      var last := peers[|peers| - 1];
      RemotePeers(env, peers[..|peers| - 1]) + if env.scopeOf(last).None? then [last] else []
  }

  /** The local scopes of the other next peers, in order. */
  function LocalScopes(env: Env, peers: seq<PeerId>): seq<PeerScope> {
    if peers == [] then []
    else
      var last := peers[|peers| - 1];
      LocalScopes(env, peers[..|peers| - 1]) + (match env.scopeOf(last) case Some(s) => [s] case None => [])
  }

  /** The split loop of `poll_actors`: each next peer goes to exactly one of the two lists. */
  method SplitNextPeers(env: Env, peers: seq<PeerId>) returns (remote: seq<PeerId>, local: seq<PeerScope>)
    ensures remote == RemotePeers(env, peers) && local == LocalScopes(env, peers)
  {
    remote, local := [], [];
    for i := 0 to |peers|
      invariant remote == RemotePeers(env, peers[..i]) && local == LocalScopes(env, peers[..i])
    {
      assert peers[..i + 1][..i] == peers[..i];
      match env.scopeOf(peers[i]) {
        case None => remote := remote + [peers[i]];
        case Some(s) => local := local + [s];
      }
    }
    assert peers[..|peers|] == peers;
  }

  /** Every next peer lands in exactly one list. */
  lemma {:induction false} SplitCounts(env: Env, peers: seq<PeerId>)
    ensures |RemotePeers(env, peers)| + |LocalScopes(env, peers)| == |peers|
  {
    if peers != [] {
      SplitCounts(env, peers[..|peers| - 1]);
    }
  }

  /** The remote list holds exactly the next peers without a local scope. */
  lemma {:induction false} RemotePeersMembers(env: Env, peers: seq<PeerId>)
    ensures forall p :: p in RemotePeers(env, peers) <==> p in peers && env.scopeOf(p).None?
  {
    if peers != [] {
      var init := peers[..|peers| - 1];
      RemotePeersMembers(env, init);
      assert peers == init + [peers[|peers| - 1]];
    }
  }

  /** The local list holds exactly the scopes of the local next peers. */
  lemma {:induction false} LocalScopesMembers(env: Env, peers: seq<PeerId>)
    ensures forall s :: s in LocalScopes(env, peers) <==> exists p | p in peers :: env.scopeOf(p) == Some(s)
  {
    if peers != [] {
      var init, last := peers[..|peers| - 1], peers[|peers| - 1];
      LocalScopesMembers(env, init);
      assert peers == init + [last];
      forall s ensures s in LocalScopes(env, peers) <==> exists p | p in peers :: env.scopeOf(p) == Some(s) {
        if exists p | p in peers :: env.scopeOf(p) == Some(s) {
          var p :| p in peers && env.scopeOf(p) == Some(s);
          if p != last {
            assert p in init;
          }
        }
      }
    }
  }

  /** Splitting a longer list extends both lists: the split keeps the order of the peers. */
  lemma {:induction false} SplitAppend(env: Env, a: seq<PeerId>, b: seq<PeerId>)
    ensures RemotePeers(env, a + b) == RemotePeers(env, a) + RemotePeers(env, b)
    ensures LocalScopes(env, a + b) == LocalScopes(env, a) + LocalScopes(env, b)
  {
    if b == [] {
      assert a + b == a;
    } else {
      var init := b[..|b| - 1];
      SplitAppend(env, a, init);
      assert (a + b)[..|a + b| - 1] == a + init;
      assert (a + b)[|a + b| - 1] == b[|b| - 1];
    }
  }

  /** What a finished actor asks for: its particle and the peers to pass it to. */
  datatype Completion = Completion(particle: Particle, nextPeers: seq<PeerId>)

  /** The remote effects of the finished actors, in polling order, one per non-empty remote list. */
  function RemoteEffectsOf(env: Env, done: seq<Completion>): seq<RemoteEffects> {
    if done == [] then []
    else
      var c := done[|done| - 1];
      var remote := RemotePeers(env, c.nextPeers);
      RemoteEffectsOf(env, done[..|done| - 1]) + if remote == [] then [] else [RemoteEffects(c.particle, remote)]
  }

  /** The local effects of the finished actors, in polling order, one per non-empty local list. */
  function LocalEffectsOf(env: Env, done: seq<Completion>): seq<LocalEffects> {
    if done == [] then []
    else
      var c := done[|done| - 1];
      var local := LocalScopes(env, c.nextPeers);
      LocalEffectsOf(env, done[..|done| - 1]) + if local == [] then [] else [LocalEffects(c.particle, local)]
  }

  /** The effect-gathering loop of `poll_actors` over the finished actors. */
  method PollActors(env: Env, done: seq<Completion>) returns (remote: seq<RemoteEffects>, local: seq<LocalEffects>)
    ensures remote == RemoteEffectsOf(env, done) && local == LocalEffectsOf(env, done)
  {
    remote, local := [], [];
    for i := 0 to |done|
      invariant remote == RemoteEffectsOf(env, done[..i]) && local == LocalEffectsOf(env, done[..i])
    {
      assert done[..i + 1][..i] == done[..i];
      var remotePeers, localPeers := SplitNextPeers(env, done[i].nextPeers);
      if remotePeers != [] {
        remote := remote + [RemoteEffects(done[i].particle, remotePeers)];
      }
      if localPeers != [] {
        local := local + [LocalEffects(done[i].particle, localPeers)];
      }
    }
    assert done[..|done|] == done;
  }

  /** Every remote effect names at least one peer, and only peers without a local scope. */
  lemma {:induction false} RemoteEffectsAreRemote(env: Env, done: seq<Completion>)
    ensures forall e | e in RemoteEffectsOf(env, done) ::
              e.nextPeers != [] && forall p | p in e.nextPeers :: env.scopeOf(p).None?
  {
    if done != [] {
      var c := done[|done| - 1];
      RemoteEffectsAreRemote(env, done[..|done| - 1]);
      RemotePeersMembers(env, c.nextPeers);
    }
  }

  /** Every local effect names at least one scope. */
  lemma {:induction false} LocalEffectsAreNonEmpty(env: Env, done: seq<Completion>)
    ensures forall e | e in LocalEffectsOf(env, done) :: e.nextPeers != []
  {
    if done != [] {
      LocalEffectsAreNonEmpty(env, done[..|done| - 1]);
    }
  }

  /** The events the remote effects become, in order. */
  function Routed(effects: seq<RemoteEffects>): (events: seq<Event>)
    ensures |events| == |effects|
    ensures forall i | 0 <= i < |effects| :: events[i] == Ok(effects[i])
  {
    if effects == [] then [] else [Ok(effects[0])] + Routed(effects[1..])
  }

  // ---------------------------------------------------------------------
  // A cleanup round and the re-ingestion of local effects

  /**
   * One cleanup round turned tables `t` into `t'`, given the workers with a
   * VM pool: the host table is cleaned first, then every worker table unless
   * the host alone filled the batch. `hostRemoved` and `workerRemoved` name
   * the removed actors in the order their keys were gathered, and `gathered`
   * is that batch of keys.
   */
  ghost predicate CleanupRound(env: Env, pools: set<WorkerId>, t: Tables, t': Tables, now: nat,
                               hostRemoved: seq<ActorKey>, workerRemoved: seq<(WorkerId, ActorKey)>,
                               gathered: seq<CleanupKey>)
  {
    && Cleaned(env, t.host, t'.host, now)
    && Distinct(hostRemoved) && (forall k :: k in hostRemoved <==> k in t.host && k !in t'.host)
    && t'.workers.Keys <= t.workers.Keys
    && (forall w | w in t'.workers :: Cleaned(env, t.workers[w], t'.workers[w], now))
    && (forall w | w in t.workers && w !in t'.workers :: w !in pools && AllRemovable(env, t.workers[w], now))
    && Distinct(workerRemoved)
    && (forall p: (WorkerId, ActorKey) :: p in workerRemoved <==> RemovedFrom(t.workers, t'.workers, p.0, p.1))
    && gathered == CleanupKeysOf(env, t.host, hostRemoved) + WorkerCleanupKeysOf(env, t.workers, workerRemoved)
    && |gathered| <= MaxCleanupKeys
    && (|hostRemoved| < MaxCleanupKeys ==> NoneRemovable(env, t'.host, now))
    && (|hostRemoved| >= MaxCleanupKeys ==> t'.workers == t.workers)
    && (|hostRemoved| < MaxCleanupKeys ==> forall w | w in t'.workers :: t'.workers[w] != map[] || w in pools)
    && (|gathered| < MaxCleanupKeys ==>
          && NoneRemovable(env, t'.host, now)
          && forall w | w in t'.workers :: NoneRemovable(env, t'.workers[w], now))
  }

  /** The batch a round schedules: none when no key was gathered. */
  function Batch(gathered: seq<CleanupKey>): Option<seq<CleanupKey>> {
    if gathered == [] then None else Some(gathered)
  }

  /**
   * What `cleanup` does to the tables and the pending batch: while an
   * unfinished batch is pending nothing changes; otherwise a round runs and
   * its batch, if any, becomes the pending one.
   */
  ghost predicate RoundOutcome(env: Env, pools: set<WorkerId>, t: Tables, pending: Option<seq<CleanupKey>>,
                               batchDone: bool, now: nat, t': Tables, pending': Option<seq<CleanupKey>>)
  {
    if pending.Some? && !batchDone then t' == t && pending' == pending
    else exists hostRemoved, workerRemoved, gathered ::
           && CleanupRound(env, pools, t, t', now, hostRemoved, workerRemoved, gathered)
           && pending' == Batch(gathered)
  }

  /**
   * The tables part of `cleanup`: the host table is cleaned first, then the
   * worker tables, gathering one batch of keys.
   */
  method CleanupTables(env: Env, pools: set<WorkerId>, t: Tables, now: nat)
    returns (t': Tables, gathered: seq<CleanupKey>, ghost hostRemoved: seq<ActorKey>,
             ghost workerRemoved: seq<(WorkerId, ActorKey)>)
    requires ScopesMatch(t)
    ensures ScopesMatch(t')
    ensures CleanupRound(env, pools, t, t', now, hostRemoved, workerRemoved, gathered)
  {
    var host, keys1, workers;
    host, keys1, hostRemoved := CleanupActors(env, t.host, [], now);
    workers, gathered, workerRemoved := CleanupWorkerActors(env, t.workers, pools, keys1, now);
    t' := Tables(host, workers);
    RoundOfPasses(env, pools, t, now, host, hostRemoved, keys1, workers, workerRemoved, gathered);
  }

  /**
   * The host pass followed by the worker pass, as their contracts describe
   * them, make up one cleanup round and keep every actor in the table of
   * its own scope.
   */
  lemma RoundOfPasses(env: Env, pools: set<WorkerId>, t: Tables, now: nat,
                      host: map<ActorKey, Actor>, hostRemoved: seq<ActorKey>, keys1: seq<CleanupKey>,
                      workers: map<WorkerId, map<ActorKey, Actor>>, workerRemoved: seq<(WorkerId, ActorKey)>,
                      keys2: seq<CleanupKey>)
    requires ScopesMatch(t)
    // what `CleanupActors(env, t.host, [], now)` promises
    requires Cleaned(env, t.host, host, now)
    requires Distinct(hostRemoved) && forall k :: k in hostRemoved <==> k in t.host && k !in host
    requires keys1 == [] + CleanupKeysOf(env, t.host, hostRemoved)
    requires |keys1| < MaxCleanupKeys ==> NoneRemovable(env, host, now)
    requires |keys1| <= MaxCleanupKeys
    // what `CleanupWorkerActors(env, t.workers, pools, keys1, now)` promises
    requires |keys1| >= MaxCleanupKeys ==> workers == t.workers && keys2 == keys1 && workerRemoved == []
    requires workers.Keys <= t.workers.Keys
    requires forall w | w in workers :: Cleaned(env, t.workers[w], workers[w], now)
    requires |keys1| < MaxCleanupKeys ==> forall w | w in workers :: workers[w] != map[] || w in pools
    requires forall w | w in t.workers && w !in workers :: w !in pools && AllRemovable(env, t.workers[w], now)
    requires |keys2| < MaxCleanupKeys ==> forall w | w in workers :: NoneRemovable(env, workers[w], now)
    requires Distinct(workerRemoved)
    requires forall p: (WorkerId, ActorKey) :: p in workerRemoved <==> RemovedFrom(t.workers, workers, p.0, p.1)
    requires PairsIn(t.workers, workerRemoved)
    requires keys2 == keys1 + WorkerCleanupKeysOf(env, t.workers, workerRemoved)
    requires |keys1| <= MaxCleanupKeys ==> |keys2| <= MaxCleanupKeys
    ensures ScopesMatch(Tables(host, workers))
    ensures CleanupRound(env, pools, t, Tables(host, workers), now, hostRemoved, workerRemoved, keys2)
  {
    assert [] + CleanupKeysOf(env, t.host, hostRemoved) == CleanupKeysOf(env, t.host, hostRemoved);
    assert |keys1| <= |keys2|;
  }

  /**
   * What a round leaves of the host table and of the batch: only removable
   * host actors go, and a round that gathered no key changed no host actor.
   */
  lemma RoundSummary(env: Env, pools: set<WorkerId>, t: Tables, t': Tables, now: nat,
                     hostRemoved: seq<ActorKey>, workerRemoved: seq<(WorkerId, ActorKey)>,
                     gathered: seq<CleanupKey>, pending: Option<seq<CleanupKey>>, batchDone: bool)
    requires CleanupRound(env, pools, t, t', now, hostRemoved, workerRemoved, gathered)
    requires pending.None? || batchDone
    ensures RoundOutcome(env, pools, t, pending, batchDone, now, t', Batch(gathered))
    ensures t'.host.Keys <= t.host.Keys && forall k | k in t'.host :: t'.host[k] == t.host[k]
    ensures forall k | k in t.host && k !in t'.host :: Removable(env, t.host[k], now)
    ensures gathered == [] ==> t'.host == t.host
    ensures Batch(gathered).Some? ==> 0 < |Batch(gathered).value| <= MaxCleanupKeys
  {
    if gathered == [] {
      assert |CleanupKeysOf(env, t.host, hostRemoved)| == 0;
      forall k | k in t.host ensures k in t'.host {
        assert k !in hostRemoved;
      }
    }
  }

  /**
   * What a caller of `cleanup` may rely on: with no round nothing changes;
   * after a round the host and surviving worker tables are cleaned, no
   * worker gains an entry, a dropped worker has no VM pool, the new batch
   * holds at most `MaxCleanupKeys` keys, and when it is not full (or there
   * is none) no removable actor is left anywhere.
   */
  lemma RoundOutcomeFacts(env: Env, pools: set<WorkerId>, t: Tables, pending: Option<seq<CleanupKey>>,
                          batchDone: bool, now: nat, t': Tables, pending': Option<seq<CleanupKey>>)
    requires RoundOutcome(env, pools, t, pending, batchDone, now, t', pending')
    ensures pending.Some? && !batchDone ==> t' == t && pending' == pending
    ensures pending.None? || batchDone ==>
              && Cleaned(env, t.host, t'.host, now)
              && t'.workers.Keys <= t.workers.Keys
              && (forall w | w in t'.workers :: Cleaned(env, t.workers[w], t'.workers[w], now))
              && (forall w | w in t.workers && w !in t'.workers :: w !in pools)
              && (pending'.Some? ==> 0 < |pending'.value| <= MaxCleanupKeys)
              && (pending'.None? || |pending'.value| < MaxCleanupKeys ==>
                    && NoneRemovable(env, t'.host, now)
                    && forall w | w in t'.workers :: NoneRemovable(env, t'.workers[w], now))
              && (!NoneRemovable(env, t'.host, now) ==>
                    && t'.workers == t.workers
                    && pending'.Some? && |pending'.value| == MaxCleanupKeys)
  {
    if pending.None? || batchDone {
      var hostRemoved, workerRemoved, gathered :|
        CleanupRound(env, pools, t, t', now, hostRemoved, workerRemoved, gathered) && pending' == Batch(gathered);
      if !NoneRemovable(env, t'.host, now) {
        assert |CleanupKeysOf(env, t.host, hostRemoved)| == |hostRemoved| >= MaxCleanupKeys;
      }
    }
  }

  /** While an unfinished batch is pending, `cleanup` changes nothing. */
  lemma NoRound(env: Env, pools: set<WorkerId>, t: Tables, pending: Option<seq<CleanupKey>>, batchDone: bool, now: nat)
    requires pending.Some? && !batchDone
    ensures RoundOutcome(env, pools, t, pending, batchDone, now, t, pending)
  {
  }

  /** The tables a cleanup round left, ingested again, witness the outcome of `poll`. */
  lemma PollWitness(env: Env, pools: set<WorkerId>, t: Tables, pending: Option<seq<CleanupKey>>, batchDone: bool,
                    now: nat, cleaned: Tables, pending': Option<seq<CleanupKey>>, ds: seq<(Particle, PeerScope)>,
                    t': Tables)
    requires RoundOutcome(env, pools, t, pending, batchDone, now, cleaned, pending')
    requires t' == IngestAll(env, cleaned, ds, now)
    ensures exists c :: RoundOutcome(env, pools, t, pending, batchDone, now, c, pending') && t' == IngestAll(env, c, ds, now)
  {
  }

  /** The (particle, scope) pairs `poll` hands back to `ingest`, in order. */
  function LocalDeliveries(local: seq<LocalEffects>): seq<(Particle, PeerScope)> {
    if local == [] then []
    else
      var e := local[|local| - 1];
      LocalDeliveries(local[..|local| - 1]) + Paired(e.particle, e.nextPeers)
  }

  /** What ingesting one pair with no service function does to the tables. */
  function IngestStep(env: Env, t: Tables, d: (Particle, PeerScope), now: nat): Tables {
    if Admission(env, d.0, d.1, now).Pass? then IngestTables(env, t, d.0, None, d.1) else t
  }

  /** The error event ingesting one pair queues, if any. */
  function RejectionOf(env: Env, d: (Particle, PeerScope), now: nat): seq<Event> {
    match Admission(env, d.0, d.1, now)
    case Reject(e) => [Err(e)]
    case _ => []
  }

  /** The tables after ingesting the pairs `ds` in order, with no service function. */
  function IngestAll(env: Env, t: Tables, ds: seq<(Particle, PeerScope)>, now: nat): Tables {
    if ds == [] then t
    else
      var d, t0 := ds[|ds| - 1], IngestAll(env, t, ds[..|ds| - 1], now);
      if Admission(env, d.0, d.1, now).Pass? then IngestTables(env, t0, d.0, None, d.1) else t0
  }

  /** The error events ingesting the pairs `ds` queues: one per rejected particle, in order. */
  function Rejections(env: Env, ds: seq<(Particle, PeerScope)>, now: nat): seq<Event> {
    if ds == [] then []
    else
      var d := ds[|ds| - 1];
      Rejections(env, ds[..|ds| - 1], now) + match Admission(env, d.0, d.1, now)
                                              case Reject(e) => [Err(e)]
                                              case _ => []
  }

  /** Re-ingestion queues one error per rejected pair and nothing else. */
  lemma {:induction false} RejectionsCount(env: Env, ds: seq<(Particle, PeerScope)>, now: nat)
    ensures |Rejections(env, ds, now)| == |set i | 0 <= i < |ds| && Admission(env, ds[i].0, ds[i].1, now).Reject?|
    ensures forall e | e in Rejections(env, ds, now) :: e.Err?
  {
    if ds != [] {
      var n := |ds| - 1;
      RejectionsCount(env, ds[..n], now);
      var before := set i | 0 <= i < n && Admission(env, ds[..n][i].0, ds[..n][i].1, now).Reject?;
      var all := set i | 0 <= i < |ds| && Admission(env, ds[i].0, ds[i].1, now).Reject?;
      assert before == all - {n};
    }
  }

  /** Ingesting one more pair is one more step. */
  lemma IngestOne(env: Env, t: Tables, ds: seq<(Particle, PeerScope)>, d: (Particle, PeerScope), now: nat)
    ensures IngestAll(env, t, ds + [d], now) == IngestStep(env, IngestAll(env, t, ds, now), d, now)
    ensures Rejections(env, ds + [d], now) == Rejections(env, ds, now) + RejectionOf(env, d, now)
  {
    assert (ds + [d])[..|ds|] == ds;
  }

  /** Ingesting `a` and then `b` is ingesting `a + b`, and the errors queue in the same order. */
  lemma {:induction false} IngestAllAppend(env: Env, t: Tables, a: seq<(Particle, PeerScope)>,
                                           b: seq<(Particle, PeerScope)>, now: nat)
    ensures IngestAll(env, t, a + b, now) == IngestAll(env, IngestAll(env, t, a, now), b, now)
    ensures Rejections(env, a + b, now) == Rejections(env, a, now) + Rejections(env, b, now)
  {
    if b == [] {
      assert a + b == a;
    } else {
      var init := b[..|b| - 1];
      IngestAllAppend(env, t, a, init, now);
      assert (a + b)[..|a + b| - 1] == a + init;
      assert (a + b)[|a + b| - 1] == b[|b| - 1];
    }
  }

  /** One more scope of a local effect ingested again is one more step. */
  lemma TargetStep(env: Env, now: nat, particle: Particle, scopes: seq<PeerScope>, j: nat, t0: Tables,
                   e0: seq<Event>, t1: Tables, e1: seq<Event>, t2: Tables, e2: seq<Event>)
    requires j < |scopes|
    requires t1 == IngestAll(env, t0, Paired(particle, scopes[..j]), now)
    requires e1 == e0 + Rejections(env, Paired(particle, scopes[..j]), now)
    requires t2 == IngestStep(env, t1, (particle, scopes[j]), now)
    requires e2 == e1 + RejectionOf(env, (particle, scopes[j]), now)
    ensures t2 == IngestAll(env, t0, Paired(particle, scopes[..j + 1]), now)
    ensures e2 == e0 + Rejections(env, Paired(particle, scopes[..j + 1]), now)
  {
    var ds, d := Paired(particle, scopes[..j]), (particle, scopes[j]);
    assert Paired(particle, scopes[..j + 1]) == ds + [d] by {
      assert scopes[..j + 1][..j] == scopes[..j];
    }
    IngestOne(env, t0, ds, d, now);
    var r0, r1 := Rejections(env, ds, now), RejectionOf(env, d, now);
    assert e0 + r0 + r1 == e0 + (r0 + r1);
  }

  /** One more local effect ingested again extends the deliveries by its targets. */
  lemma ReingestStep(env: Env, now: nat, local: seq<LocalEffects>, i: nat, t0: Tables, e0: seq<Event>,
                     t1: Tables, e1: seq<Event>, t2: Tables, e2: seq<Event>)
    requires i < |local|
    requires t1 == IngestAll(env, t0, LocalDeliveries(local[..i]), now)
    requires e1 == e0 + Rejections(env, LocalDeliveries(local[..i]), now)
    requires t2 == IngestAll(env, t1, Paired(local[i].particle, local[i].nextPeers), now)
    requires e2 == e1 + Rejections(env, Paired(local[i].particle, local[i].nextPeers), now)
    ensures t2 == IngestAll(env, t0, LocalDeliveries(local[..i + 1]), now)
    ensures e2 == e0 + Rejections(env, LocalDeliveries(local[..i + 1]), now)
  {
    var pre, ts := LocalDeliveries(local[..i]), Paired(local[i].particle, local[i].nextPeers);
    DeliveriesStep(local, i);
    IngestAllAppend(env, t0, pre, ts, now);
    var r0, r1 := Rejections(env, pre, now), Rejections(env, ts, now);
    assert e0 + r0 + r1 == e0 + (r0 + r1);
  }

  lemma DeliveriesStep(local: seq<LocalEffects>, i: nat)
    requires i < |local|
    ensures LocalDeliveries(local[..i + 1]) == LocalDeliveries(local[..i]) + Paired(local[i].particle, local[i].nextPeers)
  {
    assert local[..i + 1][..i] == local[..i];
  }

  /** Re-ingestion keeps every actor in the table of its own scope. */
  lemma {:induction false} IngestAllKeepsScopes(env: Env, t: Tables, ds: seq<(Particle, PeerScope)>, now: nat)
    requires ScopesMatch(t)
    ensures ScopesMatch(IngestAll(env, t, ds, now))
  {
    if ds != [] {
      var d := ds[|ds| - 1];
      IngestAllKeepsScopes(env, t, ds[..|ds| - 1], now);
      IngestKeepsScopes(env, IngestAll(env, t, ds[..|ds| - 1], now), d.0, None, d.1);
    }
  }

  // ---------------------------------------------------------------------
  // The plumber

  class Plumber {
    const env: Env
    /** Events waiting to be handed out by `Poll`, oldest first. */
    var events: seq<Event>
    var hostActors: map<ActorKey, Actor>
    var workerActors: map<WorkerId, map<ActorKey, Actor>>
    /** The workers that have a VM pool, with its thread count. */
    var workerVmPools: map<WorkerId, nat>
    /** The batch of a cleanup still in progress, if any. */
    var cleanupPending: Option<seq<CleanupKey>>

    ghost predicate Valid()
      reads this
    {
      && ScopesMatch(Tables(hostActors, workerActors))
      && (cleanupPending.Some? ==> 0 < |cleanupPending.value| <= MaxCleanupKeys)
    }

    ghost function Actors(): Tables
      reads this
    {
      Tables(hostActors, workerActors)
    }

    /** `Plumber::new`: no events, no actors, no worker pools, no cleanup in progress. */
    constructor New(env: Env)
      ensures Valid() && this.env == env
      ensures events == [] && hostActors == map[] && workerActors == map[]
      ensures workerVmPools == map[] && cleanupPending.None?
    {
      this.env := env;
      events := [];
      hostActors := map[];
      workerActors := map[];
      workerVmPools := map[];
      cleanupPending := None;
    }

    method CreateWorkerPool(worker: WorkerId, threadCount: nat)
      modifies this`workerVmPools
      ensures workerVmPools == old(workerVmPools)[worker := threadCount]
    {
      workerVmPools := workerVmPools[worker := threadCount];
    }

    method RemoveWorkerPool(worker: WorkerId)
      modifies this`workerVmPools
      ensures workerVmPools == old(workerVmPools) - {worker}
    {
      workerVmPools := workerVmPools - {worker};
    }

    /** `get_or_create_actor`, in place on the two tables. */
    method GetOrCreateActor(scope: PeerScope, key: ActorKey, particle: Particle) returns (error: Option<CreateError>)
      modifies this`hostActors, this`workerActors
      ensures Lookup(Actors(), error) == GetOrCreate(env, old(Actors()), scope, key, particle)
    {
      match scope {
        case Host =>
          var created := CreateActor(env, hostActors, key, particle, Host, env.hostPeerId, None);
          if created.Ok? {
            hostActors := created.value;
            error := None;
          } else {
            error := Some(created.error);
          }
        case Worker(w) =>
          if w !in workerActors {
            workerActors := workerActors[w := map[]];
          }
          var deal := env.dealId(w);
          if deal.None? {
            return Some(NoDeal(w));
          }
          if !env.hasRuntimeHandle(w) {
            return Some(NoRuntimeHandle(w));
          }
          var created := CreateActor(env, workerActors[w], key, particle, scope, env.workerPeerId(w), deal);
          if created.Ok? {
            workerActors := workerActors[w := created.value];
            error := None;
          } else {
            error := Some(created.error);
          }
      }
    }

    /**
     * `ingest`: a rejected particle queues exactly one error event and
     * touches no actor; a dropped one changes nothing; an admitted one is
     * delivered to the actor of its signature, created if need be.
     */
    method Ingest(particle: Particle, service: Option<ServiceFunction>, scope: PeerScope, now: nat)
      requires Valid()
      modifies this`events, this`hostActors, this`workerActors
      ensures Valid()
      ensures match Admission(env, particle, scope, now)
        case Reject(e) => events == old(events) + [Err(e)] && Actors() == old(Actors())
        case Drop => events == old(events) && Actors() == old(Actors())
        case Pass => events == old(events) && Actors() == IngestTables(env, old(Actors()), particle, service, scope)
    {
      if env.expired(particle, now) {
        events := events + [Err(ParticleExpired(particle.id))];
        return;
      }
      var verified := env.verifyError(particle);
      if verified.Some? {
        events := events + [Err(SignatureVerificationFailed(particle.id, verified.value))];
        return;
      }
      if scope.Worker? {
        var isActive := env.workerActive(scope.id);
        var isManager := env.isManagement(particle.initPeer);
        var isHost := env.isHost(particle.initPeer);
        if !isActive && !isManager && !isHost {
          return;
        }
      }
      var key := ActorKey(particle.signature);
      IngestKeepsScopes(env, Actors(), particle, service, scope);
      var error := GetOrCreateActor(scope, key, particle);
      if error.None? {
        match scope {
          case Host =>
            hostActors := hostActors[key := Deliver(hostActors[key], particle, service)];
          case Worker(w) =>
            workerActors := workerActors[w := workerActors[w][key := Deliver(workerActors[w][key], particle, service)]];
        }
      }
    }

    /**
     * `cleanup`: while a batch is still being removed nothing happens; a
     * finished batch is dropped. Then the host and worker tables are
     * cleaned, and the keys gathered become the new pending batch if there
     * are any.
     */
    method Cleanup(batchDone: bool, now: nat)
      requires Valid()
      modifies this`hostActors, this`workerActors, this`cleanupPending
      ensures Valid()
      ensures RoundOutcome(env, workerVmPools.Keys, old(Actors()), old(cleanupPending), batchDone, now,
                           Actors(), cleanupPending)
      ensures old(cleanupPending).Some? && !batchDone ==> Actors() == old(Actors()) && cleanupPending == old(cleanupPending)
      ensures hostActors.Keys <= old(hostActors).Keys && forall k | k in hostActors :: hostActors[k] == old(hostActors)[k]
      ensures forall k | k in old(hostActors) && k !in hostActors :: Removable(env, old(hostActors)[k], now)
      ensures cleanupPending.None? ==> hostActors == old(hostActors)
      ensures cleanupPending.Some? && cleanupPending != old(cleanupPending) ==> old(cleanupPending).None? || batchDone
    {
      if cleanupPending.Some? && !batchDone {
        NoRound(env, workerVmPools.Keys, Actors(), cleanupPending, batchDone, now);
        return;
      }
      cleanupPending := None;
      var t', keys;
      ghost var hostRemoved, workerRemoved;
      t', keys, hostRemoved, workerRemoved := CleanupTables(env, workerVmPools.Keys, Tables(hostActors, workerActors), now);
      RoundSummary(env, workerVmPools.Keys, Actors(), t', now, hostRemoved, workerRemoved, keys,
                   old(cleanupPending), batchDone);
      hostActors, workerActors := t'.host, t'.workers;
      if keys != [] {
        cleanupPending := Some(keys);
      }
      assert Actors() == t' && cleanupPending == Batch(keys);
    }

    /** `ingest` of one particle for one local scope, with no service function. */
    method IngestPair(d: (Particle, PeerScope), now: nat)
      requires Valid()
      modifies this`events, this`hostActors, this`workerActors
      ensures Valid()
      ensures Actors() == IngestStep(env, old(Actors()), d, now)
      ensures events == old(events) + RejectionOf(env, d, now)
    {
      Ingest(d.0, None, d.1, now);
    }

    /** The inner loop of `poll`: one particle is ingested again for each of its local scopes, in order. */
    method IngestTargets(particle: Particle, scopes: seq<PeerScope>, now: nat)
      requires Valid()
      modifies this`events, this`hostActors, this`workerActors
      ensures Valid()
      ensures Actors() == IngestAll(env, old(Actors()), Paired(particle, scopes), now)
      ensures events == old(events) + Rejections(env, Paired(particle, scopes), now)
    {
      for j := 0 to |scopes|
        invariant ScopesMatch(Actors())
        invariant Actors() == IngestAll(env, old(Actors()), Paired(particle, scopes[..j]), now)
        invariant events == old(events) + Rejections(env, Paired(particle, scopes[..j]), now)
      {
        ghost var t1, e1 := Actors(), events;
        IngestPair((particle, scopes[j]), now);
        TargetStep(env, now, particle, scopes, j, old(Actors()), old(events), t1, e1, Actors(), events);
      }
      assert scopes[..|scopes|] == scopes;
    }

    /** The outer loop of `poll`: the local effects are ingested again, in order. */
    method Reingest(local: seq<LocalEffects>, now: nat)
      requires Valid()
      modifies this`events, this`hostActors, this`workerActors
      ensures Valid()
      ensures Actors() == IngestAll(env, old(Actors()), LocalDeliveries(local), now)
      ensures events == old(events) + Rejections(env, LocalDeliveries(local), now)
    {
      ghost var t0, e0 := Actors(), events;
      for i := 0 to |local|
        invariant ScopesMatch(Actors())
        invariant Actors() == IngestAll(env, t0, LocalDeliveries(local[..i]), now)
        invariant events == e0 + Rejections(env, LocalDeliveries(local[..i]), now)
      {
        ghost var t1, e1 := Actors(), events;
        IngestTargets(local[i].particle, local[i].nextPeers, now);
        ReingestStep(env, now, local, i, t0, e0, t1, e1, Actors(), events);
      }
      assert local[..|local|] == local;
    }

    /**
     * `poll`: a queued event is handed out first, oldest first, and nothing
     * else happens. Otherwise the effects of the finished actors (`done`, in
     * polling order) are gathered, a cleanup round runs, the particles for
     * local scopes are ingested again in order, and the remote effects are
     * queued behind the error events that re-ingestion produced.
     */
    method Poll(done: seq<Completion>, batchDone: bool, now: nat) returns (event: Option<Event>)
      requires Valid()
      modifies this`events, this`hostActors, this`workerActors, this`cleanupPending
      ensures Valid()
      ensures old(events) != [] ==> && event == Some(old(events)[0]) && events == old(events)[1..]
                                    && Actors() == old(Actors()) && cleanupPending == old(cleanupPending)
      ensures old(events) == [] ==>
                var ds := LocalDeliveries(LocalEffectsOf(env, done));
                && event.None?
                && events == Rejections(env, ds, now) + Routed(RemoteEffectsOf(env, done))
                && exists cleaned :: && RoundOutcome(env, workerVmPools.Keys, old(Actors()), old(cleanupPending),
                                                     batchDone, now, cleaned, cleanupPending)
                                     && Actors() == IngestAll(env, cleaned, ds, now)
    {
      if events != [] {
        event := Some(events[0]);
        events := events[1..];
        return;
      }
      var remote, local := PollActors(env, done);
      Cleanup(batchDone, now);
      ghost var cleaned := Actors();
      Reingest(local, now);
      PollWitness(env, workerVmPools.Keys, old(Actors()), old(cleanupPending), batchDone, now, cleaned, cleanupPending,
                  LocalDeliveries(local), Actors());
      assert events == [] + Rejections(env, LocalDeliveries(local), now) == Rejections(env, LocalDeliveries(local), now);
      events := events + Routed(remote);
      event := None;
    }
  }
}
