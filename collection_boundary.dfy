/**
 * `XEO.CollectionBoundary`: one axis-aligned box that covers every member of an
 * attached collection that has a `worldBoundary`. `added`/`removed` events subscribe
 * to or unsubscribe from the member's own boundary and raise a dirty flag; a member's
 * `updated` event only raises the flag. Raising it from clear fires "updated" on the
 * boundary object. The box is rebuilt when the boundary object pulls it through `GetDirty`.
 */
module Boundaries {
  import opened Wrappers
  import opened Aabb
  import opened MemberUnion
  import opened Collaborators

  /** A subscription handle, as `on` returns it and `off` takes it. */
  type Token = nat

  /** The handles issued while the allocator moved from `lo` to `hi`. */
  function Issued(lo: nat, hi: nat): (s: set<Token>)
    ensures forall t :: t in s <==> lo <= t < hi
    decreases hi
  {
    if hi <= lo then {} else Issued(lo, hi - 1) + {hi - 1}
  }

  /** The handle held in an optional slot, as a set. */
  function Held(h: Option<Token>): set<Token>
  {
    if h.Some? then {h.value} else {}
  }

  /** The handles that unbinding the ids in `ids` passes to `off`. */
  function Released(m: map<Id, Token>, ids: set<Id>): set<Token>
  {
    set id | id in m && id in ids :: m[id]
  }

  /** The guard of the collection setter: the old subscriptions are released only for the same component. */
  function Unbinds(oldCollection: Collection?, value: Collection?): (unbinds: bool)
    ensures unbinds ==> value != null
    ensures oldCollection != null && value == oldCollection ==> unbinds
  {
    oldCollection != null && SameComponent(oldCollection, value)
  }

  class CollectionBoundary {
    var collection: Collection?
    var onAdded: Option<Token>
    var onRemoved: Option<Token>
    /** Member id to the handle of this component's subscription to that member's "updated". */
    var onUpdated: map<Id, Token>
    /** The cached box, `_aabb.min` and `_aabb.max`; null until the first rebuild. */
    var aabbMin: array?<int>
    var aabbMax: array?<int>
    var aabbDirty: bool
    var worldBoundary: Boundary3D?
    /** The event emitter as seen from here: the next handle `on` returns ... */
    var nextToken: nat
    /** ... and the handles subscribed by this component and not yet passed to `off`. */
    var liveHandles: set<Token>

    ghost predicate Valid()
      reads this
    {
      (aabbMin == null <==> aabbMax == null) &&
      (aabbMin != null ==> aabbMin.Length == 3 && aabbMax.Length == 3 && aabbMin != aabbMax) &&
      (forall t :: t in liveHandles ==> t < nextToken) &&
      (forall id :: id in onUpdated ==> onUpdated[id] < nextToken)
    }

    /** The box a rebuild must produce from the current state of the collection. */
    function Target(): Box
      reads this, collection
    {
      if collection == null then Sentinel() else Union(collection.components)
    }

    /** The `getAABB` callback: the cached box, absent before the first rebuild. */
    function GetAABB(): (r: Option<Box>)
      requires Valid()
      reads this, aabbMin, aabbMax
      ensures r.Some? <==> aabbMin != null
    {
      if aabbMin == null then None
      else Some(Box(Vec3(aabbMin[0], aabbMin[1], aabbMin[2]), Vec3(aabbMax[0], aabbMax[1], aabbMax[2])))
    }

    /** `_getJSON`: `{collection: id}` when a collection is attached, `{}` otherwise. */
    function GetJSON(): (json: map<string, Id>)
      reads this
      ensures json.Keys == if collection != null then {"collection"} else {}
      ensures collection != null ==> json["collection"] == collection.id
    {
      if collection != null then map["collection" := collection.id] else map[]
    }

    /** `_init`: every slot empty and the flag clear, then the collection setter runs. */
    constructor (initial: Collection?)
      ensures Valid()
      ensures collection == initial && aabbDirty
      ensures worldBoundary == null && aabbMin == null && aabbMax == null
      ensures onUpdated.Keys == if initial != null then IdsWithBoundary(initial.components) else {}
      ensures liveHandles == Issued(0, nextToken)
      ensures initial != null ==> onAdded == Some(0) && onRemoved == Some(1) && {0, 1} <= liveHandles
      ensures initial != null ==>
                forall id :: id in IdsWithBoundary(initial.components) ==> 2 <= onUpdated[id] && onUpdated[id] in liveHandles
      ensures initial != null ==>
                forall i, j :: i in IdsWithBoundary(initial.components) && j in IdsWithBoundary(initial.components) && i != j ==>
                  onUpdated[i] != onUpdated[j]
      ensures initial == null ==> onAdded == None && onRemoved == None && liveHandles == {}
    {
      onAdded, onRemoved, onUpdated := None, None, map[];
      aabbMin, aabbMax := null, null;
      aabbDirty := false;
      worldBoundary := null;
      collection := null;
      nextToken, liveHandles := 0, {};
      new;
      SetCollection(initial);
    }

    /** `on(event, handler)`: a new handle, now live. */
    method Subscribe() returns (t: Token)
      requires Valid()
      modifies this`nextToken, this`liveHandles
      ensures Valid()
      ensures t == old(nextToken) && t !in old(liveHandles)
      ensures nextToken == old(nextToken) + 1 && liveHandles == old(liveHandles) + {t}
    {
      t := nextToken;
      nextToken := nextToken + 1;
      liveHandles := liveHandles + {t};
    }

    /** `off(handle)`; an absent handle releases nothing. */
    method Off(h: Option<Token>)
      requires Valid()
      modifies this`liveHandles
      ensures Valid()
      ensures liveHandles == old(liveHandles) - Held(h)
    {
      if h.Some? {
        liveHandles := liveHandles - {h.value};
      }
    }

    /** `_setAABBDirty`: raise the flag; fire "updated" only when the boundary object exists. */
    method SetAABBDirty()
      requires Valid()
      modifies this`aabbDirty, worldBoundary
      ensures Valid() && aabbDirty
      ensures worldBoundary != null ==> worldBoundary.updates == old(worldBoundary.updates) + 1
      ensures worldBoundary != null ==> worldBoundary.destroyed == old(worldBoundary.destroyed)
    {
      aabbDirty := true;
      if worldBoundary != null {
        worldBoundary.FireUpdated();
      }
    }

    /** `_bind`: subscribe to the member's "updated" under its id, overwriting any handle already there. */
    method Bind(c: Component)
      requires Valid()
      modifies this`onUpdated, this`nextToken, this`liveHandles
      ensures Valid()
      ensures c.worldBoundary.None? ==>
                onUpdated == old(onUpdated) && nextToken == old(nextToken) && liveHandles == old(liveHandles)
      ensures c.worldBoundary.Some? ==>
                onUpdated == old(onUpdated)[c.id := old(nextToken)] && old(nextToken) !in old(liveHandles) &&
                nextToken == old(nextToken) + 1 && liveHandles == old(liveHandles) + {old(nextToken)}
    {
      if c.worldBoundary.None? {
        return;
      }
      var t := Subscribe();
      onUpdated := onUpdated[c.id := t];
    }

    /** `_unbind`: release the handle under the member's id and drop exactly that key. */
    method Unbind(c: Component)
      requires Valid()
      modifies this`onUpdated, this`liveHandles
      ensures Valid()
      ensures onUpdated == if c.worldBoundary.Some? then old(onUpdated) - {c.id} else old(onUpdated)
      ensures liveHandles == if c.worldBoundary.Some? then old(liveHandles) - Released(old(onUpdated), {c.id})
                             else old(liveHandles)
    {
      if c.worldBoundary.None? {
        return;
      }
      Off(if c.id in onUpdated then Some(onUpdated[c.id]) else None);
      onUpdated := onUpdated - {c.id};
    }

    /** `collection.iterate(this._bind, this)`. */
    method BindAll(cs: seq<Component>)
      requires Valid()
      modifies this`onUpdated, this`nextToken, this`liveHandles
      ensures Valid()
      ensures onUpdated.Keys == old(onUpdated).Keys + IdsWithBoundary(cs)
      ensures forall id :: id in old(onUpdated) && id !in IdsWithBoundary(cs) ==> onUpdated[id] == old(onUpdated)[id]
      ensures forall id :: id in IdsWithBoundary(cs) ==> old(nextToken) <= onUpdated[id]
      ensures forall i, j :: i in IdsWithBoundary(cs) && j in IdsWithBoundary(cs) && i != j ==>
                onUpdated[i] != onUpdated[j]
      ensures old(nextToken) <= nextToken && liveHandles == old(liveHandles) + Issued(old(nextToken), nextToken)
    {
      var i := 0;
      ghost var ids: set<Id> := {};
      assert cs[..0] == [];
      while i < |cs|
        invariant 0 <= i <= |cs|
        invariant Valid()
        invariant ids == IdsWithBoundary(cs[..i])
        invariant BoundSince(old(onUpdated), old(nextToken), old(liveHandles), onUpdated, nextToken, liveHandles, ids)
      {
        assert IdsWithBoundary(cs[..i + 1]) == ids + (if cs[i].worldBoundary.Some? then {cs[i].id} else {}) by {
          IdsWithBoundarySnoc(cs[..i], cs[i]);
          assert cs[..i + 1] == cs[..i] + [cs[i]];
        }
        ghost var n, before := nextToken, onUpdated;
        Bind(cs[i]);
        if cs[i].worldBoundary.Some? {
          BindStep(old(onUpdated), old(nextToken), old(liveHandles), before, n, ids, cs[i].id);
          ids := ids + {cs[i].id};
        }
        i := i + 1;
      }
      assert cs[..|cs|] == cs;
      assert ids == IdsWithBoundary(cs);
      BoundSinceMeans(old(onUpdated), old(nextToken), old(liveHandles), onUpdated, nextToken, liveHandles, ids);
    }

    /** `oldCollection.iterate(this._unbind, this)`. */
    method UnbindAll(cs: seq<Component>)
      requires Valid()
      modifies this`onUpdated, this`liveHandles
      ensures Valid()
      ensures onUpdated == old(onUpdated) - IdsWithBoundary(cs)
      ensures liveHandles == old(liveHandles) - Released(old(onUpdated), IdsWithBoundary(cs))
    {
      var i := 0;
      while i < |cs|
        invariant 0 <= i <= |cs|
        invariant Valid()
        invariant onUpdated == old(onUpdated) - IdsWithBoundary(cs[..i])
        invariant liveHandles == old(liveHandles) - Released(old(onUpdated), IdsWithBoundary(cs[..i]))
      {
        IdsWithBoundarySnoc(cs[..i], cs[i]);
        assert cs[..i + 1] == cs[..i] + [cs[i]];
        ghost var ids := IdsWithBoundary(cs[..i]);
        Unbind(cs[i]);
        if cs[i].worldBoundary.Some? {
          ReleasedStep(old(onUpdated), ids, cs[i].id);
        }
        i := i + 1;
      }
      assert cs[..|cs|] == cs;
    }

    /** The setter's release branch: `off` both collection handles, then unbind every member. */
    method Release(oldCollection: Collection)
      requires Valid()
      modifies this`onUpdated, this`liveHandles
      ensures Valid()
      ensures onUpdated == old(onUpdated) - IdsWithBoundary(oldCollection.components)
      ensures liveHandles == old(liveHandles) - Held(onAdded) - Held(onRemoved)
                             - Released(old(onUpdated), IdsWithBoundary(oldCollection.components))
    {
      Off(onAdded);
      Off(onRemoved);
      UnbindAll(oldCollection.components);
    }

    /** The guard at the head of the setter and its release branch. */
    method ReleaseIfUnbinds(value: Collection?)
      requires Valid()
      modifies this`onUpdated, this`liveHandles
      ensures Valid()
      ensures onUpdated == if Unbinds(collection, value) then old(onUpdated) - IdsWithBoundary(collection.components)
                           else old(onUpdated)
      ensures liveHandles == if Unbinds(collection, value)
                             then old(liveHandles) - Held(onAdded) - Held(onRemoved)
                                  - Released(old(onUpdated), IdsWithBoundary(collection.components))
                             else old(liveHandles)
    {
      var oldCollection := collection;
      if oldCollection != null && SameComponent(oldCollection, value) {
        Release(oldCollection);
      }
    }

    /** The setter's attach branch: subscribe to "added" and "removed", then bind every member. */
    method Attach(value: Collection)
      requires Valid()
      modifies this`onAdded, this`onRemoved, this`onUpdated, this`nextToken, this`liveHandles
      ensures Valid()
      ensures onAdded == Some(old(nextToken)) && onRemoved == Some(old(nextToken) + 1)
      ensures onUpdated.Keys == old(onUpdated).Keys + IdsWithBoundary(value.components)
      ensures forall id :: id in old(onUpdated) && id !in IdsWithBoundary(value.components) ==>
                onUpdated[id] == old(onUpdated)[id]
      ensures forall id :: id in IdsWithBoundary(value.components) ==> old(nextToken) + 2 <= onUpdated[id]
      ensures forall i, j :: i in IdsWithBoundary(value.components) && j in IdsWithBoundary(value.components) && i != j ==>
                onUpdated[i] != onUpdated[j]
      ensures old(nextToken) + 2 <= nextToken && liveHandles == old(liveHandles) + Issued(old(nextToken), nextToken)
    {
      var a := Subscribe();
      onAdded := Some(a);
      var r := Subscribe();
      onRemoved := Some(r);
      BindAll(value.components);
    }

    /**
     * The collection setter, with the guard at its head as written: the old collection's
     * subscriptions are released only when the new value is the same component.
     */
    method SetCollection(value: Collection?)
      requires Valid()
      modifies this`collection, this`onAdded, this`onRemoved, this`onUpdated, this`nextToken,
               this`liveHandles, this`aabbDirty, worldBoundary
      ensures Valid()
      ensures collection == value && aabbDirty
      ensures worldBoundary != null ==>
                worldBoundary.updates == old(worldBoundary.updates) + (if value != null then 2 else 1)
      ensures worldBoundary != null ==> worldBoundary.destroyed == old(worldBoundary.destroyed)
      ensures GetJSON() == if value != null then map["collection" := value.id] else map[]
      ensures value != null ==>
                onAdded == Some(old(nextToken)) && onRemoved == Some(old(nextToken) + 1) &&
                onAdded.value in liveHandles && onRemoved.value in liveHandles
      ensures value == null ==>
                onAdded == old(onAdded) && onRemoved == old(onRemoved) && nextToken == old(nextToken) &&
                onUpdated == old(onUpdated) && liveHandles == old(liveHandles)
      ensures onUpdated.Keys ==
                (if Unbinds(old(collection), value)
                 then old(onUpdated).Keys - IdsWithBoundary(old(collection.components))
                 else old(onUpdated).Keys)
                + (if value != null then IdsWithBoundary(value.components) else {})
      ensures value != null ==>
                forall id :: id in IdsWithBoundary(value.components) ==>
                  id in onUpdated && old(nextToken) + 2 <= onUpdated[id] && onUpdated[id] in liveHandles
      ensures value != null ==>
                forall i, j :: i in IdsWithBoundary(value.components) && j in IdsWithBoundary(value.components) && i != j ==>
                  onUpdated[i] != onUpdated[j]
      ensures forall id :: id in onUpdated && (value == null || id !in IdsWithBoundary(value.components)) ==>
                onUpdated[id] == old(onUpdated)[id]
      ensures liveHandles ==
                (if Unbinds(old(collection), value)
                 then old(liveHandles) - Held(old(onAdded)) - Held(old(onRemoved))
                      - Released(old(onUpdated), IdsWithBoundary(old(collection.components)))
                 else old(liveHandles))
                + Issued(old(nextToken), nextToken)
      ensures !Unbinds(old(collection), value) ==> old(liveHandles) <= liveHandles
    {
      ReleaseIfUnbinds(value);
      collection := value;
      if value != null {
        Attach(value);
        SetAABBDirty();
      } else {
        assert Issued(nextToken, nextToken) == {};
      }
      SetAABBDirty();
    }

    /** `_added`: bind a member that has a boundary; fire only on a clean-to-dirty transition. */
    method Added(c: Component)
      requires Valid()
      modifies this`onUpdated, this`nextToken, this`liveHandles, this`aabbDirty, worldBoundary
      ensures Valid() && aabbDirty
      ensures worldBoundary != null ==>
                worldBoundary.updates == old(worldBoundary.updates) + (if old(aabbDirty) then 0 else 1)
      ensures worldBoundary != null ==> worldBoundary.destroyed == old(worldBoundary.destroyed)
      ensures onUpdated == if c.worldBoundary.Some? then old(onUpdated)[c.id := old(nextToken)] else old(onUpdated)
      ensures liveHandles == if c.worldBoundary.Some? then old(liveHandles) + {old(nextToken)} else old(liveHandles)
      ensures nextToken == old(nextToken) + (if c.worldBoundary.Some? then 1 else 0)
    {
      if c.worldBoundary.Some? {
        Bind(c);
      }
      if !aabbDirty {
        SetAABBDirty();
      }
    }

    /** `_removed`: unbind a member that has a boundary; fire only on a clean-to-dirty transition. */
    method Removed(c: Component)
      requires Valid()
      modifies this`onUpdated, this`liveHandles, this`aabbDirty, worldBoundary
      ensures Valid() && aabbDirty
      ensures worldBoundary != null ==>
                worldBoundary.updates == old(worldBoundary.updates) + (if old(aabbDirty) then 0 else 1)
      ensures worldBoundary != null ==> worldBoundary.destroyed == old(worldBoundary.destroyed)
      ensures onUpdated == if c.worldBoundary.Some? then old(onUpdated) - {c.id} else old(onUpdated)
      ensures liveHandles == if c.worldBoundary.Some? then old(liveHandles) - Released(old(onUpdated), {c.id})
                             else old(liveHandles)
    {
      if c.worldBoundary.Some? {
        Unbind(c);
      }
      if !aabbDirty {
        SetAABBDirty();
      }
    }

    /** `_updated`: a member's boundary changed; fire only on a clean-to-dirty transition. */
    method Updated()
      requires Valid()
      modifies this`aabbDirty, worldBoundary
      ensures Valid() && aabbDirty
      ensures worldBoundary != null ==>
                worldBoundary.updates == old(worldBoundary.updates) + (if old(aabbDirty) then 0 else 1)
      ensures worldBoundary != null ==> worldBoundary.destroyed == old(worldBoundary.destroyed)
    {
      if !aabbDirty {
        SetAABBDirty();
      }
    }

    /**
     * `_buildAABB`: one pass over the members from the sentinel, six accumulators,
     * then the cached arrays are overwritten in place (allocated on the first call).
     */
    method BuildAABB()
      requires Valid()
      modifies this`aabbMin, this`aabbMax, aabbMin, aabbMax
      ensures Valid()
      ensures GetAABB() == Some(Target())
      ensures old(aabbMin) != null ==> aabbMin == old(aabbMin) && aabbMax == old(aabbMax)
      ensures old(aabbMin) == null ==> fresh(aabbMin) && fresh(aabbMax)
    {
      if aabbMin == null {
        aabbMin := new int[3];
        aabbMax := new int[3];
      }
      var xmin, ymin, zmin := Extent, Extent, Extent;
      var xmax, ymax, zmax := -Extent, -Extent, -Extent;
      if collection != null {
        var components := collection.components;
        var i := 0;
        while i < |components|
          invariant 0 <= i <= |components|
          invariant Box(Vec3(xmin, ymin, zmin), Vec3(xmax, ymax, zmax)) == Union(components[..i])
        {
          assert components[..i + 1][..i] == components[..i];
          var component := components[i];
          if component.worldBoundary.Some? {
            var min, max := component.worldBoundary.value.min, component.worldBoundary.value.max;
            if min.x < xmin { xmin := min.x; }
            if min.y < ymin { ymin := min.y; }
            if min.z < zmin { zmin := min.z; }
            if max.x > xmax { xmax := max.x; }
            if max.y > ymax { ymax := max.y; }
            if max.z > zmax { zmax := max.z; }
          }
          i := i + 1;
        }
        assert components[..|components|] == components;
      }
      aabbMin[0], aabbMin[1], aabbMin[2] := xmin, ymin, zmin;
      aabbMax[0], aabbMax[1], aabbMax[2] := xmax, ymax, zmax;
    }

    /**
     * The `getDirty` callback: when dirty, rebuild, clear the flag and answer true;
     * when clean, answer false and leave the cached box as it was.
     */
    method GetDirty() returns (rebuilt: bool)
      requires Valid()
      modifies this`aabbMin, this`aabbMax, this`aabbDirty, aabbMin, aabbMax
      ensures Valid() && !aabbDirty
      ensures rebuilt == old(aabbDirty)
      ensures old(aabbDirty) ==> GetAABB() == Some(Target())
      ensures !old(aabbDirty) ==> aabbMin == old(aabbMin) && aabbMax == old(aabbMax) && GetAABB() == old(GetAABB())
      ensures old(aabbMin) != null ==> aabbMin == old(aabbMin) && aabbMax == old(aabbMax)
      ensures old(aabbMin) == null && aabbMin != null ==> fresh(aabbMin) && fresh(aabbMax)
    {
      if aabbDirty {
        BuildAABB();
        aabbDirty := false;
        return true;
      }
      return false;
    }

    /**
     * The `worldBoundary` getter: on first read create the boundary object and subscribe
     * to its "destroyed" notification (a handle the source never releases); afterwards
     * hand back the same object.
     */
    method GetWorldBoundary() returns (b: Boundary3D)
      requires Valid()
      modifies this`worldBoundary, this`nextToken, this`liveHandles
      ensures Valid()
      ensures worldBoundary == b
      ensures old(worldBoundary) != null ==>
                b == old(worldBoundary) && nextToken == old(nextToken) && liveHandles == old(liveHandles)
      ensures old(worldBoundary) == null ==>
                fresh(b) && b.updates == 0 && !b.destroyed &&
                nextToken == old(nextToken) + 1 && liveHandles == old(liveHandles) + {old(nextToken)}
    {
      if worldBoundary == null {
        worldBoundary := new Boundary3D();
        var _ := Subscribe();
      }
      b := worldBoundary;
    }

    /** The "destroyed" handler subscribed on the boundary object: empty the slot. */
    method WorldBoundaryDestroyed()
      requires Valid()
      modifies this`worldBoundary
      ensures Valid() && worldBoundary == null
    {
      worldBoundary := null;
    }

    /**
     * `_destroy`: detach through the setter (which, for a null value, releases no
     * subscription), then destroy the boundary object, whose notification empties the slot.
     */
    method Destroy()
      requires Valid()
      modifies this, worldBoundary
      ensures Valid()
      ensures collection == null && aabbDirty && worldBoundary == null
      ensures old(worldBoundary) != null ==>
                old(worldBoundary).destroyed && old(worldBoundary).updates == old(worldBoundary.updates) + 1
      ensures onUpdated == old(onUpdated) && liveHandles == old(liveHandles)
      ensures onAdded == old(onAdded) && onRemoved == old(onRemoved)
      ensures aabbMin == old(aabbMin) && aabbMax == old(aabbMax) && nextToken == old(nextToken)
    {
      SetCollection(null);
      if worldBoundary != null {
        worldBoundary.Destroy();
        WorldBoundaryDestroyed();
      }
    }
  }

  /** No two of the ids in `ids` share a handle in `m`. */
  ghost predicate DistinctHandles(m: map<Id, Token>, ids: set<Id>)
  {
    forall j, k :: j in ids && k in ids && j in m && k in m && j != k ==> m[j] != m[k]
  }

  /**
   * Starting from handles `m0`, allocator position `t0` and live set `live0`,
   * `m` has a handle bound under each id of `ids`: each was issued at or after
   * `t0`, no two of them are alike, and every handle issued since `t0` is live.
   */
  ghost predicate BoundSince(m0: map<Id, Token>, t0: Token, live0: set<Token>,
                             m: map<Id, Token>, t: Token, live: set<Token>, ids: set<Id>)
  {
    t0 <= t && live == live0 + Issued(t0, t) &&
    m.Keys == m0.Keys + ids &&
    (forall id :: id in m0 && id !in ids ==> m[id] == m0[id]) &&
    (forall id :: id in ids ==> id in m && t0 <= m[id]) &&
    DistinctHandles(m, ids)
  }

  /** Binding one more id under a fresh handle `t`, above every handle in `m`, keeps `BoundSince`. */
  lemma BindStep(m0: map<Id, Token>, t0: Token, live0: set<Token>, m: map<Id, Token>, t: Token, ids: set<Id>, id: Id)
    requires BoundSince(m0, t0, live0, m, t, live0 + Issued(t0, t), ids)
    requires forall j :: j in m ==> m[j] < t
    ensures BoundSince(m0, t0, live0, m[id := t], t + 1, live0 + Issued(t0, t) + {t}, ids + {id})
  {
    assert Issued(t0, t + 1) == Issued(t0, t) + {t};
  }

  /** What `BoundSince` says, clause by clause. */
  lemma BoundSinceMeans(m0: map<Id, Token>, t0: Token, live0: set<Token>,
                        m: map<Id, Token>, t: Token, live: set<Token>, ids: set<Id>)
    requires BoundSince(m0, t0, live0, m, t, live, ids)
    ensures m.Keys == m0.Keys + ids
    ensures forall id :: id in m0 && id !in ids ==> m[id] == m0[id]
    ensures forall id :: id in ids ==> t0 <= m[id]
    ensures forall i, j :: i in ids && j in ids && i != j ==> m[i] != m[j]
    ensures t0 <= t && live == live0 + Issued(t0, t)
  {
  }

  /** Unbinding one more id releases at most the handle under it, if it was not unbound before. */
  lemma ReleasedStep(m: map<Id, Token>, ids: set<Id>, id: Id)
    ensures Released(m, ids + {id}) == Released(m, ids) + Released(m - ids, {id})
  {
  }
}
