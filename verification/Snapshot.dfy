/**
 Saving and restoring the networked part of a world of entities. Restoring gives back what was saved, whatever the world
 has become.
 */
module Snapshot {

  type Entity = nat
  type NetworkId = nat

  /** A registered component or resource type. */
  type Kind = nat

  const MAX_ID: nat := 0xFFFF_FFFF

  datatype World<V> = World(
    live: set<Entity>,
    ids: map<Entity, NetworkId>,
    components: map<Kind, map<Entity, V>>,
    resources: map<Kind, V>,
    provider: NetworkId)  // the next id to be handed out; itself a registered resource
  {
    ghost predicate Valid() {
      ids.Keys <= live && forall k | k in components :: components[k].Keys <= live
    }

    function Of(kind: Kind): map<Entity, V> {
      if kind in components then components[kind] else map[]
    }

    ghost predicate DistinctIds() {
      forall a, b | a in ids && b in ids && ids[a] == ids[b] :: a == b
    }
  }

  datatype SaveState<V> = SaveState(
    ids: set<NetworkId>,
    components: map<Kind, map<NetworkId, V>>,
    resources: map<Kind, V>,
    provider: NetworkId)

  /** One component kind of a save state, empty if nothing was saved for it. */
  function SavedFor<V>(s: SaveState<V>, kind: Kind): map<NetworkId, V> {
    if kind in s.components then s.components[kind] else map[]
  }

  /** The components and resources a plugin has registered. */
  datatype Registry = Registry(components: set<Kind>, resources: set<Kind>)

  // ---------------------------------------------------------------------------------------------
  // What saving and loading mean
  // ---------------------------------------------------------------------------------------------

  /** The values saved for one component kind: one for every id an entity with that component has. */
  ghost predicate SavedComponents<V>(w: World<V>, kind: Kind, saved: map<NetworkId, V>) {
    && (forall e | e in w.ids && e in w.Of(kind) :: w.ids[e] in saved)
    && (forall id | id in saved ::
          exists e :: e in w.ids && e in w.Of(kind) && w.ids[e] == id && w.Of(kind)[e] == saved[id])
  }

  /** s is a save state of w. Kinds that no networked entity has leave no trace. */
  ghost predicate SavedAs<V>(w: World<V>, registry: Registry, s: SaveState<V>) {
    && s.ids == (set e | e in w.ids :: w.ids[e])
    && s.components.Keys <= registry.components
    && (forall k | k in registry.components ::
          && SavedComponents(w, k, SavedFor(s, k))
          && (k in s.components ==> s.components[k] != map[]))
    && s.resources == (map k | k in w.resources && k in registry.resources :: w.resources[k])
    && s.provider == w.provider
  }

  /**
   After the ids have been synchronized: one entity for every saved id, and nothing else is networked. If any entity had
   a saved id, one that had it stays; only for ids that nobody had are there new entities.
   */
  ghost predicate Synced<V>(w: World<V>, s: SaveState<V>, w': World<V>) {
    && (set e | e in w'.ids :: w'.ids[e]) == s.ids
    && w'.DistinctIds()
    && w'.live == (w.live - w.ids.Keys) + w'.ids.Keys
    && (forall e | e in w'.ids && e in w.ids :: w'.ids[e] == w.ids[e])
    && (forall e | e in w'.ids && e !in w.ids :: e !in w.live)
    && (forall e | e in w.ids && w.ids[e] in s.ids ::
          exists f :: f in w.ids && f in w'.ids && w.ids[f] == w.ids[e])
  }

  /** What the entities had that are still there, and nothing more. */
  ghost function Remaining<V>(values: map<Entity, V>, w': World<V>): map<Entity, V> {
    map e | e in values && e in w'.live :: values[e]
  }

  /** Every networked entity has a component of this kind exactly when its id was saved with one, and the same one. */
  ghost predicate LoadedComponents<V>(w: World<V>, kind: Kind, s: SaveState<V>) {
    var saved := SavedFor(s, kind);
    forall e | e in w.ids ::
      && (e in w.Of(kind) <==> w.ids[e] in saved)
      && (e in w.Of(kind) ==> w.Of(kind)[e] == saved[w.ids[e]])
  }

  ghost predicate LoadedResource<V>(w: World<V>, kind: Kind, s: SaveState<V>) {
    && (kind in w.resources <==> kind in s.resources)
    && (kind in s.resources ==> w.resources[kind] == s.resources[kind])
  }

  /** w' is what loading s into w gives. */
  ghost predicate LoadedFrom<V>(w: World<V>, registry: Registry, s: SaveState<V>, w': World<V>) {
    && Synced(w, s, w')
    && (forall k | k in registry.components :: LoadedComponents(w', k, s))
    && (forall k | k in registry.resources :: LoadedResource(w', k, s))
    && w'.provider == s.provider
  }

  /**
   Entities without a network id, and everything not registered, are not the save state's business: such entities stay
   with all their components, whoever stays keeps its components of unregistered kinds, and nobody gets any.
   */
  ghost predicate Untouched<V>(w: World<V>, registry: Registry, w': World<V>) {
    && (forall e | e in w.live && e !in w.ids :: e in w'.live && e !in w'.ids)
    && (forall k | k !in registry.components :: w'.Of(k) == Remaining(w.Of(k), w'))
    && (forall k, e | e in w.live && e !in w.ids ::
          (e in w'.Of(k) <==> e in w.Of(k)) && (e in w.Of(k) ==> w'.Of(k)[e] == w.Of(k)[e]))
    && (forall k | k !in registry.resources ::
          (k in w'.resources <==> k in w.resources) && (k in w.resources ==> w'.resources[k] == w.resources[k]))
  }

  /** With distinct ids, whoever has a saved id stays, with all that is not registered. */
  lemma SavedEntityStays<V>(w: World<V>, registry: Registry, s: SaveState<V>, w': World<V>, e: Entity, kind: Kind)
    requires w.Valid() && w.DistinctIds() && LoadedFrom(w, registry, s, w') && Untouched(w, registry, w')
    requires e in w.ids && w.ids[e] in s.ids && kind !in registry.components
    ensures e in w'.live && e in w'.ids && w'.ids[e] == w.ids[e]
    ensures (e in w'.Of(kind) <==> e in w.Of(kind)) && (e in w.Of(kind) ==> w'.Of(kind)[e] == w.Of(kind)[e])
  {
    var f :| f in w.ids && f in w'.ids && w.ids[f] == w.ids[e];
    assert w'.Of(kind) == Remaining(w.Of(kind), w');
  }

  // ---------------------------------------------------------------------------------------------
  // Restoring gives back what was saved
  // ---------------------------------------------------------------------------------------------

  /** What a kind was saved as is determined by a world whose ids are distinct. */
  lemma SavedComponentsUnique<V>(w: World<V>, kind: Kind, a: map<NetworkId, V>, b: map<NetworkId, V>)
    requires w.DistinctIds() && SavedComponents(w, kind, a) && SavedComponents(w, kind, b)
    ensures a == b
  {
    assert a.Keys == b.Keys by {
      forall id ensures id in a <==> id in b {}
    }
    forall id | id in a ensures a[id] == b[id] {
      var e :| e in w.ids && e in w.Of(kind) && w.ids[e] == id && w.Of(kind)[e] == a[id];
      var f :| f in w.ids && f in w.Of(kind) && w.ids[f] == id && w.Of(kind)[f] == b[id];
      assert e == f;
    }
  }

  /** What was loaded for a kind would be saved as it was loaded. */
  lemma LoadedIsSaved<V>(w: World<V>, kind: Kind, s: SaveState<V>)
    requires LoadedComponents(w, kind, s)
    requires (set e | e in w.ids :: w.ids[e]) == s.ids
    requires kind in s.components ==> s.components[kind].Keys <= s.ids
    ensures SavedComponents(w, kind, SavedFor(s, kind))
  {
    var saved := SavedFor(s, kind);
    forall id | id in saved
      ensures exists e :: e in w.ids && e in w.Of(kind) && w.ids[e] == id && w.Of(kind)[e] == saved[id]
    {
      var e :| e in w.ids && w.ids[e] == id;
      assert e in w.Of(kind);
    }
  }

  lemma SavedIdsCover<V>(w: World<V>, registry: Registry, s: SaveState<V>, kind: Kind)
    requires SavedAs(w, registry, s) && kind in s.components
    ensures s.components[kind].Keys <= s.ids
  {
    forall id | id in s.components[kind] ensures id in s.ids {
      var e :| e in w.ids && e in w.Of(kind) && w.ids[e] == id && w.Of(kind)[e] == s.components[kind][id];
    }
  }

  lemma {:induction false} KindIsExact<V>(
    w: World<V>, registry: Registry, s: SaveState<V>, restored: World<V>, again: SaveState<V>, kind: Kind)
    requires SavedAs(w, registry, s) && SavedAs(restored, registry, again)
    requires (set e | e in restored.ids :: restored.ids[e]) == s.ids && restored.DistinctIds()
    requires kind in registry.components && LoadedComponents(restored, kind, s)
    ensures SavedFor(s, kind) == SavedFor(again, kind)
    ensures kind in s.components <==> kind in again.components
  {
    assert SavedComponents(restored, kind, SavedFor(again, kind));
    assert kind in s.components ==> s.components[kind] != map[];
    assert kind in again.components ==> again.components[kind] != map[];
    if kind in s.components {
      SavedIdsCover(w, registry, s, kind);
    }
    hide SavedComponents, LoadedComponents, SavedAs, World.DistinctIds;
    LoadedIsSaved(restored, kind, s);
    SavedComponentsUnique(restored, kind, SavedFor(s, kind), SavedFor(again, kind));
  }

  lemma SavedKinds<V>(w: World<V>, registry: Registry, s: SaveState<V>)
    requires SavedAs(w, registry, s)
    ensures s.components.Keys <= registry.components
  {
  }

  lemma {:induction false} ComponentsAreExact<V>(
    w: World<V>, registry: Registry, s: SaveState<V>, restored: World<V>, again: SaveState<V>)
    requires SavedAs(w, registry, s) && SavedAs(restored, registry, again)
    requires (set e | e in restored.ids :: restored.ids[e]) == s.ids && restored.DistinctIds()
    requires forall k | k in registry.components :: LoadedComponents(restored, k, s)
    ensures again.components == s.components
  {
    hide SavedComponents, LoadedComponents, SavedAs, World.DistinctIds;
    SavedKinds(w, registry, s);
    SavedKinds(restored, registry, again);
    forall k | k in registry.components
      ensures SavedFor(s, k) == SavedFor(again, k)
      ensures k in s.components <==> k in again.components
    {
      KindIsExact(w, registry, s, restored, again, k);
    }
    assert s.components.Keys == again.components.Keys;
    forall k | k in s.components ensures s.components[k] == again.components[k] {
      assert SavedFor(s, k) == SavedFor(again, k);
    }
  }

  lemma {:induction false} ResourcesAreExact<V>(
    w: World<V>, registry: Registry, s: SaveState<V>, restored: World<V>, again: SaveState<V>)
    requires SavedAs(w, registry, s) && SavedAs(restored, registry, again)
    requires forall k | k in registry.resources :: LoadedResource(restored, k, s)
    ensures again.resources == s.resources
    ensures forall k | k in registry.resources ::
              && (k in restored.resources <==> k in w.resources)
              && (k in w.resources ==> restored.resources[k] == w.resources[k])
  {
    hide SavedComponents;
    forall k | k in registry.resources
      ensures k in s.resources <==> k in again.resources
      ensures k in s.resources ==> s.resources[k] == again.resources[k]
      ensures (k in restored.resources <==> k in w.resources)
              && (k in w.resources ==> restored.resources[k] == w.resources[k])
    {
      assert LoadedResource(restored, k, s);
    }
  }

  /**
   Restore is exact. Whatever world the state of w is loaded into, saving the result gives the very same state, and
   there is one entity for each id; registered resources and the id provider are what they were. This holds even when
   ids in w were shared.
   */
  lemma {:induction false} RestoreIsExact<V>(
    w: World<V>, registry: Registry, s: SaveState<V>, later: World<V>, restored: World<V>, again: SaveState<V>)
    requires SavedAs(w, registry, s) && LoadedFrom(later, registry, s, restored) && SavedAs(restored, registry, again)
    ensures again == s && restored.DistinctIds() && restored.provider == w.provider
    ensures forall k | k in registry.resources ::
              && (k in restored.resources <==> k in w.resources)
              && (k in w.resources ==> restored.resources[k] == w.resources[k])
  {
    ComponentsAreExact(w, registry, s, restored, again);
    ResourcesAreExact(w, registry, s, restored, again);
    hide SavedComponents, LoadedComponents, LoadedResource;
  }

  /** In particular, with distinct ids every entity of w comes back with exactly the registered components it had. */
  lemma {:induction false} EntityComesBack<V>(
    w: World<V>, registry: Registry, s: SaveState<V>, later: World<V>, restored: World<V>, e: Entity, kind: Kind)
    requires SavedAs(w, registry, s) && LoadedFrom(later, registry, s, restored) && w.DistinctIds()
    requires e in w.ids && kind in registry.components
    ensures exists f :: f in restored.ids && restored.ids[f] == w.ids[e]
    ensures forall f | f in restored.ids && restored.ids[f] == w.ids[e] ::
              && (f in restored.Of(kind) <==> e in w.Of(kind))
              && (e in w.Of(kind) ==> restored.Of(kind)[f] == w.Of(kind)[e])
  {
    assert w.ids[e] in s.ids;
    var saved := SavedFor(s, kind);
    assert SavedComponents(w, kind, saved) && LoadedComponents(restored, kind, s);
    if w.ids[e] in saved {
      var g :| g in w.ids && g in w.Of(kind) && w.ids[g] == w.ids[e] && w.Of(kind)[g] == saved[w.ids[e]];
      assert g == e;
    }
  }

  // ---------------------------------------------------------------------------------------------
  // Ids across rollback
  // ---------------------------------------------------------------------------------------------

  /** A session's world, everything it has saved, and the ids that have been taken but not yet given to an entity. */
  datatype History<V> = History(world: World<V>, saves: seq<SaveState<V>>, held: set<NetworkId>)

  /** An id is taken and given to a new entity at once. */
  ghost predicate Spawned<V>(h: History<V>, h': History<V>, e: Entity) {
    && e !in h.world.live
    && h' == h.(world := h.world.(live := h.world.live + {e}, ids := h.world.ids[e := h.world.provider],
                                  provider := h.world.provider + 1))
  }

  /** An id is taken for later. */
  ghost predicate Taken<V>(h: History<V>, h': History<V>) {
    h' == h.(world := h.world.(provider := h.world.provider + 1), held := h.held + {h.world.provider})
  }

  /** One taken earlier is given to a new entity. */
  ghost predicate Given<V>(h: History<V>, h': History<V>, e: Entity, id: NetworkId) {
    && e !in h.world.live && id in h.held
    && h' == h.(world := h.world.(live := h.world.live + {e}, ids := h.world.ids[e := id]), held := h.held - {id})
  }

  ghost predicate Despawned<V>(h: History<V>, h': History<V>, e: Entity) {
    && h'.saves == h.saves && h'.held == h.held && h'.world.provider == h.world.provider
    && h'.world.ids == h.world.ids - {e}
  }

  ghost predicate Saves<V>(registry: Registry, h: History<V>, h': History<V>, s: SaveState<V>) {
    h' == h.(saves := h.saves + [s]) && SavedAs(h.world, registry, s)
  }

  /** A load changes the world and its counter, but not what somebody holds in hand. */
  ghost predicate Loads<V>(registry: Registry, h: History<V>, h': History<V>, k: nat) {
    && k < |h.saves| && h'.saves == h.saves && h'.held == h.held
    && LoadedFrom(h.world, registry, h.saves[k], h'.world)
  }

  /** One thing that happens to a session's world between two loads. */
  ghost predicate Plays<V(!new)>(registry: Registry, h: History<V>, h': History<V>) {
    || (exists e :: Spawned(h, h', e))
    || Taken(h, h')
    || (exists e, id :: Given(h, h', e, id))
    || (exists e :: Despawned(h, h', e))
    || (exists s :: Saves(registry, h, h', s))
  }

  /** What the holder of ids can check before a load: the counter will be past all of them, and none is coming back. */
  ghost predicate Outlives<V>(held: set<NetworkId>, s: SaveState<V>) {
    forall id | id in held :: id < s.provider && id !in s.ids
  }

  /** One step of a run; ids that would not outlive a load are not held across it. */
  ghost predicate Next<V(!new)>(registry: Registry, h: History<V>, h': History<V>) {
    Plays(registry, h, h') || exists k: nat :: Loads(registry, h, h', k) && Outlives(h.held, h.saves[k])
  }

  /**
   Live ids are distinct and below the counter, those held besides are below it, too, and on no entity; and the ids of
   every save state are below its own counter.
   */
  ghost predicate FreshIds<V>(h: History<V>) {
    && h.world.DistinctIds()
    && (forall e | e in h.world.ids :: h.world.ids[e] < h.world.provider && h.world.ids[e] !in h.held)
    && (forall id | id in h.held :: id < h.world.provider)
    && (forall k | 0 <= k < |h.saves| :: forall id | id in h.saves[k].ids :: id < h.saves[k].provider)
  }

  lemma {:induction false} LoadKeepsFreshIds<V(!new)>(registry: Registry, h: History<V>, h': History<V>, k: nat)
    requires FreshIds(h) && Loads(registry, h, h', k) && Outlives(h.held, h.saves[k])
    ensures FreshIds(h')
  {
    forall e | e in h'.world.ids ensures h'.world.ids[e] < h'.world.provider && h'.world.ids[e] !in h'.held {
      assert h'.world.ids[e] in h.saves[k].ids;
    }
  }

  lemma {:induction false} SaveKeepsFreshIds<V(!new)>(
    registry: Registry, h: History<V>, h': History<V>, s: SaveState<V>)
    requires FreshIds(h) && Saves(registry, h, h', s)
    ensures FreshIds(h')
  {
    forall k, id | 0 <= k < |h'.saves| && id in h'.saves[k].ids
      ensures id < h'.saves[k].provider
    {
      if k == |h.saves| {
        assert h'.saves[k] == s;
      } else {
        assert h'.saves[k] == h.saves[k];
      }
    }
  }

  lemma {:induction false} PlayKeepsFreshIds<V(!new)>(registry: Registry, h: History<V>, h': History<V>)
    requires FreshIds(h) && Plays(registry, h, h')
    ensures FreshIds(h')
  {
    hide LoadedFrom, SavedAs;
    if s :| Saves(registry, h, h', s) {
      SaveKeepsFreshIds(registry, h, h', s);
    }
  }

  lemma {:induction false} NextKeepsFreshIds<V(!new)>(registry: Registry, h: History<V>, h': History<V>)
    requires FreshIds(h) && Next(registry, h, h')
    ensures FreshIds(h')
  {
    hide Plays, LoadedFrom, FreshIds, Outlives;
    if Plays(registry, h, h') {
      PlayKeepsFreshIds(registry, h, h');
    } else {
      var k: nat :| Loads(registry, h, h', k) && Outlives(h.held, h.saves[k]);
      LoadKeepsFreshIds(registry, h, h', k);
    }
  }

  ghost predicate NextRun<V(!new)>(registry: Registry, run: seq<History<V>>) {
    0 < |run| && forall i | 0 < i < |run| :: Next(registry, run[i - 1], run[i])
  }

  /**
   Ids stay fresh across rollback: over any run that starts without networked entities, with any mix of allocations,
   despawns, saves and loads, no live entity has the id the provider hands out next, and no two share one. Ids may be
   held for later, but not across a load they do not outlive.
   */
  lemma {:induction false} IdsNeverCollide<V(!new)>(registry: Registry, run: seq<History<V>>)
    requires NextRun(registry, run)
    requires run[0].world.ids == map[] && run[0].saves == [] && run[0].held == {}
    ensures var last := run[|run| - 1];
            && FreshIds(last)
            && forall e | e in last.world.ids :: last.world.ids[e] != last.world.provider
    decreases |run|
  {
    if 1 < |run| {
      var before := run[..|run| - 1];
      assert NextRun(registry, before) by {
        forall i | 0 < i < |before| ensures Next(registry, before[i - 1], before[i]) {
          assert Next(registry, run[i - 1], run[i]);
        }
      }
      IdsNeverCollide(registry, before);
      NextKeepsFreshIds(registry, run[|run| - 2], run[|run| - 1]);
    }
  }

  // ---------------------------------------------------------------------------------------------
  // Ids held across a load
  // ---------------------------------------------------------------------------------------------

  /** A run without any further load. */
  ghost predicate PlayRun<V(!new)>(registry: Registry, run: seq<History<V>>) {
    0 < |run| && forall i | 0 < i < |run| :: Plays(registry, run[i - 1], run[i])
  }

  /** From here on, without any further load, two entities may come to share an id. */
  ghost predicate MayCollide<V(!new)>(registry: Registry, h: History<V>) {
    exists run: seq<History<V>> :: PlayRun(registry, run) && run[0] == h && !run[|run| - 1].world.DistinctIds()
  }

  lemma {:induction false} PlayingKeepsFreshIds<V(!new)>(registry: Registry, run: seq<History<V>>)
    requires PlayRun(registry, run) && FreshIds(run[0])
    ensures FreshIds(run[|run| - 1])
    decreases |run|
  {
    if 1 < |run| {
      var before := run[..|run| - 1];
      assert PlayRun(registry, before) by {
        forall i | 0 < i < |before| ensures Plays(registry, before[i - 1], before[i]) {
          assert Plays(registry, run[i - 1], run[i]);
        }
      }
      PlayingKeepsFreshIds(registry, before);
      assert Plays(registry, run[|run| - 2], run[|run| - 1]);
      PlayKeepsFreshIds(registry, run[|run| - 2], run[|run| - 1]);
    }
  }

  lemma {:induction false} UnusedEntity(live: set<Entity>) returns (e: Entity)
    ensures e !in live && forall f | f in live :: f < e
    decreases live
  {
    if live == {} {
      e := 0;
    } else {
      var f :| f in live;
      var g := UnusedEntity(live - {f});
      e := if f < g then g else f + 1;
      assert forall x | x in live :: x == f || x in live - {f};
    }
  }

  lemma PlayFirst<V(!new)>(registry: Registry, h: History<V>, next: History<V>)
    requires Plays(registry, h, next) && MayCollide(registry, next)
    ensures MayCollide(registry, h)
  {
    var run: seq<History<V>> :| PlayRun(registry, run) && run[0] == next && !run[|run| - 1].world.DistinctIds();
    var longer := [h] + run;
    forall i | 0 < i < |longer| ensures Plays(registry, longer[i - 1], longer[i]) {
      if 1 < i {
        assert Plays(registry, run[i - 2], run[i - 1]);
      }
    }
    assert PlayRun(registry, longer) && longer[|longer| - 1] == run[|run| - 1];
  }

  /** An entity whose id is not below the counter will be joined by another one. */
  lemma {:induction false} CounterCatchesUp<V(!new)>(registry: Registry, h: History<V>, e: Entity)
    requires e in h.world.ids && e in h.world.live && h.world.provider <= h.world.ids[e]
    ensures MayCollide(registry, h)
    decreases h.world.ids[e] - h.world.provider
  {
    if h.world.ids[e] == h.world.provider {
      var f := UnusedEntity(h.world.live);
      var next := h.(world := h.world.(live := h.world.live + {f}, ids := h.world.ids[f := h.world.provider],
                                       provider := h.world.provider + 1));
      assert Spawned(h, next, f);
      assert !next.world.DistinctIds() by {
        assert next.world.ids[e] == next.world.ids[f] && e != f;
      }
      assert PlayRun(registry, [h, next]);
    } else {
      var next := h.(world := h.world.(provider := h.world.provider + 1), held := h.held + {h.world.provider});
      assert Taken(h, next) && Plays(registry, h, next);
      CounterCatchesUp(registry, next, e);
      PlayFirst(registry, h, next);
    }
  }

  /**
   A load is safe for those who hold ids exactly when all of them outlive it: otherwise one of them is, or will be, the
   id of another entity.
   */
  lemma {:induction false} LoadIsSafeIffIdsOutliveIt<V(!new)>(registry: Registry, h: History<V>, h': History<V>, k: nat)
    requires FreshIds(h) && Loads(registry, h, h', k)
    ensures Outlives(h.held, h.saves[k]) <==> !MayCollide(registry, h')
  {
    if Outlives(h.held, h.saves[k]) {
      LoadKeepsFreshIds(registry, h, h', k);
      if run: seq<History<V>> :| PlayRun(registry, run) && run[0] == h' && !run[|run| - 1].world.DistinctIds() {
        PlayingKeepsFreshIds(registry, run);
      }
    } else {
      var id :| id in h.held && !(id < h.saves[k].provider && id !in h.saves[k].ids);
      var e := UnusedEntity(h'.world.live + h'.world.ids.Keys);
      var next := h'.(world := h'.world.(live := h'.world.live + {e}, ids := h'.world.ids[e := id]),
                      held := h'.held - {id});
      assert Given(h', next, e, id) && Plays(registry, h', next);
      if id in h.saves[k].ids {
        assert id in (set f | f in h'.world.ids :: h'.world.ids[f]);
        var f :| f in h'.world.ids && h'.world.ids[f] == id;
        assert next.world.ids[e] == next.world.ids[f] && e != f;
        assert PlayRun(registry, [h', next]);
      } else {
        CounterCatchesUp(registry, next, e);
        PlayFirst(registry, h', next);
      }
    }
  }
}
