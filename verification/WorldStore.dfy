/** The world as the plugin's systems change it: entity by entity, in whatever order a query yields them. */
module WorldStore {
  import opened Snapshot

  class LiveWorld<V> {
    var live: set<Entity>
    var ids: map<Entity, NetworkId>
    var components: map<Kind, map<Entity, V>>
    var resources: map<Kind, V>
    var provider: NetworkId

    // Entities are numbered as they come and never reused.
    var nextEntity: Entity

    ghost predicate Valid()
      reads this
    {
      Model().Valid() && forall e | e in live :: e < nextEntity
    }

    ghost function Model(): World<V>
      reads this
    {
      World(live, ids, components, resources, provider)
    }

    function Of(kind: Kind): map<Entity, V>
      reads this
    {
      if kind in components then components[kind] else map[]
    }

    constructor ()
      ensures Valid() && Model() == World({}, map[], map[], map[], 0)
    {
      nextEntity := 0;
      live, ids, components, resources, provider := {}, map[], map[], map[], 0;
    }

    /** A new id. The counter must not have reached the end of its range. */
    method NewId() returns (id: NetworkId)
      requires provider < MAX_ID
      modifies this`provider
      ensures id == old(provider) && Model() == old(Model()).(provider := id + 1)
    {
      id := provider;
      provider := provider + 1;
    }

    /** Spawns an entity that nothing has used before. */
    method Spawn(id: NetworkId) returns (e: Entity)
      requires Valid()
      modifies this`live, this`ids, this`nextEntity
      ensures Valid() && e == old(nextEntity) < nextEntity
      ensures Model() == old(Model()).(live := old(live) + {e}, ids := old(ids)[e := id])
    {
      e := nextEntity;
      nextEntity := nextEntity + 1;
      live := live + {e};
      ids := ids[e := id];
    }

    method Despawn(e: Entity)
      requires Valid()
      modifies this`live, this`ids, this`components
      ensures Valid()
      ensures live == old(live) - {e} && ids == old(ids) - {e}
      ensures components == map k | k in old(components) :: old(components)[k] - {e}
    {
      live := live - {e};
      ids := ids - {e};
      components := map k | k in components :: components[k] - {e};
    }

    // ---- saving ----

    method SaveComponents(kind: Kind) returns (saved: map<NetworkId, V>)
      ensures SavedComponents(Model(), kind, saved)
    {
      saved := map[];
      var rest := ids.Keys;
      ghost var seen: set<Entity> := {};
      while rest != {}
        invariant seen + rest == ids.Keys && seen !! rest
        invariant forall e | e in seen && e in Of(kind) :: ids[e] in saved
        invariant forall id | id in saved ::
                    exists e :: e in seen && e in Of(kind) && ids[e] == id && Of(kind)[e] == saved[id]
        decreases rest
      {
        var e :| e in rest;
        rest, seen := rest - {e}, seen + {e};
        if e in Of(kind) {
          ghost var before := saved;
          saved := saved[ids[e] := Of(kind)[e]];
          forall id | id in saved
            ensures exists f :: f in seen && f in Of(kind) && ids[f] == id && Of(kind)[f] == saved[id]
          {
            if id != ids[e] {
              var f :| f in seen - {e} && f in Of(kind) && ids[f] == id && Of(kind)[f] == before[id];
            }
          }
        }
      }
      assert forall e | e in ids && e in Of(kind) :: Model().Of(kind)[e] == Of(kind)[e];
    }

    method Save(registry: Registry) returns (s: SaveState<V>)
      ensures SavedAs(Model(), registry, s)
    {
      var savedIds := set e | e in ids :: ids[e];
      var savedComponents: map<Kind, map<NetworkId, V>> := map[];
      var rest := registry.components;
      while rest != {}
        invariant rest <= registry.components
        invariant savedComponents.Keys <= registry.components - rest
        invariant forall k | k in registry.components - rest ::
                    && SavedComponents(Model(), k, if k in savedComponents then savedComponents[k] else map[])
                    && (k in savedComponents ==> savedComponents[k] != map[])
        decreases rest
      {
        var kind :| kind in rest;
        rest := rest - {kind};
        var saved := SaveComponents(kind);
        if saved != map[] {
          savedComponents := savedComponents[kind := saved];
        }
      }
      s := SaveState(savedIds, savedComponents,
                     map k | k in resources && k in registry.resources :: resources[k], provider);
    }

    // ---- loading ----

    /** Despawns every networked entity whose id is not wanted, or not wanted again, and spawns what is missing. */
    method SyncNetworkIds(s: SaveState<V>)
      requires Valid()
      modifies this`live, this`ids, this`components, this`nextEntity
      ensures Valid() && Synced(old(Model()), s, Model())
      ensures KeepsOthers(old(Model()), Model())
    {
      var missing, owner := DespawnUnwanted(s.ids);
      ghost var kept := Model();
      ghost var made := SpawnAll(missing);
      SyncedParts(old(Model()), kept, Model(), s, missing, owner, made);
    }

    /** Of those with a wanted id one stays, with its components; the wanted ids that nobody had are missing. */
    method DespawnUnwanted(ids': set<NetworkId>) returns (missing: set<NetworkId>, ghost owner: map<NetworkId, Entity>)
      requires Valid()
      modifies this`live, this`ids, this`components
      ensures Valid() && live <= old(live)
      ensures forall e | e in ids :: e in old(ids) && ids[e] == old(ids)[e]
      ensures missing !! owner.Keys && missing + owner.Keys == ids'
      ensures forall e | e in ids :: ids[e] in owner && owner[ids[e]] == e
      ensures forall id | id in owner :: owner[id] in ids && ids[owner[id]] == id
      ensures forall e | e in old(ids) && old(ids)[e] in ids' :: old(ids)[e] in owner
      ensures live == (old(live) - old(ids).Keys) + ids.Keys
      ensures KeepsOthers(old(Model()), Model())
    {
      missing, owner := ids', map[];
      var rest := ids.Keys;
      AllRemains(Model());
      while rest != {}
        invariant Valid()
        invariant rest <= ids.Keys <= old(ids).Keys && live <= old(live)
        invariant forall e | e in ids :: ids[e] == old(ids)[e]
        invariant missing !! owner.Keys && missing + owner.Keys == ids'
        invariant forall e | e in ids && e !in rest :: ids[e] in owner && owner[ids[e]] == e
        invariant forall id | id in owner :: owner[id] in ids && owner[id] !in rest && ids[owner[id]] == id
        invariant forall e | e in old(ids) && e !in rest && old(ids)[e] in ids' :: old(ids)[e] in owner
        invariant live == (old(live) - old(ids).Keys) + ids.Keys
        invariant KeepsOthers(old(Model()), Model())
        decreases rest
      {
        var e :| e in rest;
        rest := rest - {e};
        if ids[e] in missing {
          missing := missing - {ids[e]};
          owner := owner[ids[e] := e];
        } else {
          ghost var before := Model();
          Despawn(e);
          LessRemains(old(Model()), before, Model(), e);
        }
      }
    }

    /** One new entity for each id. */
    method SpawnAll(wanted: set<NetworkId>) returns (ghost made: map<NetworkId, Entity>)
      requires Valid()
      modifies this`live, this`ids, this`nextEntity
      ensures Valid() && live == old(live) + (ids.Keys - old(ids).Keys)
      ensures forall e | e in old(ids) :: e in ids && ids[e] == old(ids)[e]
      ensures made.Keys == wanted
      ensures forall e | e in ids && e !in old(ids) :: old(nextEntity) <= e && ids[e] in made && made[ids[e]] == e
      ensures forall id | id in made :: made[id] in ids && made[id] !in old(ids) && ids[made[id]] == id
    {
      var rest := wanted;
      made := map[];
      while rest != {}
        invariant rest <= wanted && made.Keys == wanted - rest
        invariant Valid() && old(nextEntity) <= nextEntity
        invariant live == old(live) + (ids.Keys - old(ids).Keys)
        invariant forall e | e in old(ids) :: e in ids && ids[e] == old(ids)[e]
        invariant forall e | e in ids && e !in old(ids) :: old(nextEntity) <= e && ids[e] in made && made[ids[e]] == e
        invariant forall id | id in made :: made[id] in ids && made[id] !in old(ids) && ids[made[id]] == id
        decreases rest
      {
        var id :| id in rest;
        rest := rest - {id};
        var e := Spawn(id);
        made := made[id := e];
      }
    }

    /** Gives every networked entity the saved component of its id, or takes it away. */
    method LoadComponents(kind: Kind, s: SaveState<V>)
      requires Valid()
      modifies this`components
      ensures Valid() && LoadedComponents(Model(), kind, s)
      ensures forall k | k != kind :: Model().Of(k) == old(Model().Of(k))
      ensures forall e | e !in ids :: e in Of(kind) <==> e in old(Of(kind))
      ensures forall e | e !in ids && e in Of(kind) :: Of(kind)[e] == old(Of(kind))[e]
      ensures old(components).Keys <= components.Keys
    {
      var saved := SavedFor(s, kind);
      var values := Of(kind);
      var rest := ids.Keys;
      while rest != {}
        invariant rest <= ids.Keys && values.Keys <= live
        invariant forall e | e in ids && e !in rest ::
                    && (e in values <==> ids[e] in saved)
                    && (e in values ==> values[e] == saved[ids[e]])
        invariant forall e | e !in ids :: e in values <==> e in Of(kind)
        invariant forall e | e !in ids && e in values :: values[e] == Of(kind)[e]
        decreases rest
      {
        var e :| e in rest;
        rest := rest - {e};
        if ids[e] in saved {
          values := values[e := saved[ids[e]]];
        } else {
          values := values - {e};
        }
      }
      components := components[kind := values];
    }

    method LoadResource(kind: Kind, s: SaveState<V>)
      modifies this`resources
      ensures LoadedResource(Model(), kind, s)
      ensures forall k | k != kind :: k in resources <==> k in old(resources)
      ensures forall k | k != kind && k in resources :: resources[k] == old(resources)[k]
    {
      if kind in s.resources {
        resources := resources[kind := s.resources[kind]];
      } else {
        resources := resources - {kind};
      }
    }

    /** The whole load: ids first, then every registered component and resource, the id provider among them. */
    method Load(registry: Registry, s: SaveState<V>)
      requires Valid()
      modifies this
      ensures Valid() && LoadedFrom(old(Model()), registry, s, Model())
      ensures Untouched(old(Model()), registry, Model())
    {
      SyncNetworkIds(s);
      ghost var synced := Model();
      LoadAllComponents(registry, s);
      ghost var loaded := Model();
      LoadAllResources(registry, s);
      LoadedParts(old(Model()), synced, loaded, Model(), registry, s);
    }

    method LoadAllResources(registry: Registry, s: SaveState<V>)
      modifies this`resources, this`provider
      ensures provider == s.provider
      ensures forall k | k in registry.resources :: LoadedResource(Model(), k, s)
      ensures forall k | k !in registry.resources :: k in resources <==> k in old(resources)
      ensures forall k | k !in registry.resources && k in resources :: resources[k] == old(resources)[k]
    {
      provider := s.provider;
      var kinds := registry.resources;
      while kinds != {}
        invariant kinds <= registry.resources && provider == s.provider
        invariant forall k | k in registry.resources - kinds :: LoadedResource(Model(), k, s)
        invariant forall k | k !in registry.resources :: k in resources <==> k in old(resources)
        invariant forall k | k !in registry.resources && k in resources :: resources[k] == old(resources)[k]
        decreases kinds
      {
        var kind :| kind in kinds;
        kinds := kinds - {kind};
        ghost var before := Model();
        LoadResource(kind, s);
        forall k | k in registry.resources - kinds ensures LoadedResource(Model(), k, s) {
          if k != kind {
            assert LoadedResource(before, k, s);
          }
        }
      }
    }

    method LoadAllComponents(registry: Registry, s: SaveState<V>)
      requires Valid()
      modifies this`components
      ensures Valid()
      ensures forall k | k in registry.components :: LoadedComponents(Model(), k, s)
      ensures old(components).Keys <= components.Keys
      ensures forall k | k !in registry.components :: Model().Of(k) == old(Model()).Of(k)
      ensures forall k, e | e !in ids ::
                    && (e in Model().Of(k) <==> e in old(Model()).Of(k))
                    && (e in Model().Of(k) ==> Model().Of(k)[e] == old(Model()).Of(k)[e])
    {
      var kinds := registry.components;
      while kinds != {}
        invariant kinds <= registry.components && Valid()
        invariant forall k | k in registry.components - kinds :: LoadedComponents(Model(), k, s)
        invariant old(components).Keys <= components.Keys
        invariant forall k | k !in registry.components :: Model().Of(k) == old(Model()).Of(k)
        invariant forall k, e | e !in ids ::
                    && (e in Model().Of(k) <==> e in old(Model()).Of(k))
                    && (e in Model().Of(k) ==> Model().Of(k)[e] == old(Model()).Of(k)[e])
        decreases kinds
      {
        var kind :| kind in kinds;
        kinds := kinds - {kind};
        ghost var before := Model();
        LoadComponents(kind, s);
        forall k | k in registry.components - kinds ensures LoadedComponents(Model(), k, s) {
          if k != kind {
            assert LoadedComponents(before, k, s);
          }
        }
      }
    }
  }

  /** Entities that were never networked keep their place; whoever stays keeps what it has, and nobody gets anything. */
  ghost predicate KeepsOthers<V>(w: World<V>, w': World<V>) {
    && (forall e | e in w.live && e !in w.ids :: e in w'.live && e !in w'.ids)
    && w'.components.Keys == w.components.Keys
    && (forall k | k in w.components :: w'.components[k] == Remaining(w.components[k], w'))
    && w'.resources == w.resources
  }

  /** Despawning takes away what the entity had. */
  lemma LessRemains<V>(w: World<V>, before: World<V>, after: World<V>, e: Entity)
    requires KeepsOthers(w, before) && after.live == before.live - {e} && e in w.ids
    requires after.ids == before.ids - {e} && after.resources == before.resources
    requires after.components == map k | k in before.components :: before.components[k] - {e}
    ensures KeepsOthers(w, after)
  {
    forall k | k in w.components ensures after.components[k] == Remaining(w.components[k], after) {
      assert before.components[k] == Remaining(w.components[k], before);
    }
  }

  lemma AllRemains<V>(w: World<V>)
    requires w.Valid()
    ensures KeepsOthers(w, w)
  {
    forall k | k in w.components ensures w.components[k] == Remaining(w.components[k], w) {}
  }

  /** Keeping one entity for each id that is still wanted and spawning one for each that is missing is enough. */
  lemma SyncedParts<V>(
    w: World<V>, kept: World<V>, done: World<V>, s: SaveState<V>, missing: set<NetworkId>,
    owner: map<NetworkId, Entity>, made: map<NetworkId, Entity>)
    requires w.Valid() && KeepsOthers(w, kept) && kept.ids.Keys <= kept.live
    requires kept.live == (w.live - w.ids.Keys) + kept.ids.Keys
    requires forall e | e in w.ids && w.ids[e] in s.ids :: w.ids[e] in owner
    requires done.live == kept.live + (done.ids.Keys - kept.ids.Keys)
    requires forall e | e in kept.ids :: e in w.ids && kept.ids[e] == w.ids[e]
    requires missing !! owner.Keys && missing + owner.Keys == s.ids
    requires forall e | e in kept.ids :: kept.ids[e] in owner && owner[kept.ids[e]] == e
    requires forall id | id in owner :: owner[id] in kept.ids && kept.ids[owner[id]] == id
    requires done == kept.(live := done.live, ids := done.ids) && made.Keys == missing
    requires forall e | e in kept.ids :: e in done.ids && done.ids[e] == kept.ids[e]
    requires forall e | e in done.ids && e !in kept.ids :: e !in w.live && done.ids[e] in made && made[done.ids[e]] == e
    requires forall id | id in made :: made[id] in done.ids && made[id] !in kept.ids && done.ids[made[id]] == id
    ensures Synced(w, s, done) && KeepsOthers(w, done)
  {
    forall id ensures id in s.ids <==> id in (set e | e in done.ids :: done.ids[e]) {
      if id in missing {
        assert made[id] in done.ids;
      } else if id in s.ids {
        assert owner[id] in kept.ids && owner[id] in done.ids;
      }
    }
    forall k | k in w.components ensures done.components[k] == Remaining(w.components[k], done) {
      assert kept.components[k] == Remaining(w.components[k], kept);
    }
    forall e | e in w.ids && w.ids[e] in s.ids
      ensures exists f :: f in w.ids && f in done.ids && w.ids[f] == w.ids[e]
    {
      var f := owner[w.ids[e]];
      assert f in kept.ids && kept.ids[f] == w.ids[f];
    }
  }

  /** Loading part by part loads the whole: what each part sets, the later ones leave alone. */
  lemma LoadedParts<V>(
    w: World<V>, synced: World<V>, loaded: World<V>, done: World<V>, registry: Registry, s: SaveState<V>)
    requires Synced(w, s, synced) && KeepsOthers(w, synced)
    requires loaded == synced.(components := loaded.components)
    requires synced.components.Keys <= loaded.components.Keys
    requires forall k | k in registry.components :: LoadedComponents(loaded, k, s)
    requires forall k | k !in registry.components :: loaded.Of(k) == synced.Of(k)
    requires forall k, e | e !in synced.ids ::
               && (e in loaded.Of(k) <==> e in synced.Of(k))
               && (e in loaded.Of(k) ==> loaded.Of(k)[e] == synced.Of(k)[e])
    requires done == loaded.(resources := done.resources, provider := s.provider)
    requires forall k | k in registry.resources :: LoadedResource(done, k, s)
    requires forall k | k !in registry.resources :: k in done.resources <==> k in loaded.resources
    requires forall k | k !in registry.resources && k in done.resources :: done.resources[k] == loaded.resources[k]
    requires w.Valid()
    ensures LoadedFrom(w, registry, s, done) && Untouched(w, registry, done)
  {
    forall k | k in registry.components ensures LoadedComponents(done, k, s) {
      assert LoadedComponents(loaded, k, s);
      assert done.Of(k) == loaded.Of(k);
    }
    forall k ensures synced.Of(k) == Remaining(w.Of(k), synced) && done.Of(k) == loaded.Of(k) {}
    forall k, e | e in w.live && e !in w.ids
      ensures (e in done.Of(k) <==> e in w.Of(k)) && (e in w.Of(k) ==> done.Of(k)[e] == w.Of(k)[e])
    {
      assert e !in synced.ids && done.Of(k) == loaded.Of(k);
      assert synced.Of(k) == Remaining(w.Of(k), synced);
    }
  }
}
