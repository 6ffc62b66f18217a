# CollectionBoundary, modelled in Dafny

`XEO.CollectionBoundary` (xeogl, `src/boundaries/collectionBoundary.js`) keeps one
axis-aligned bounding box that covers every member of an attached `XEO.Collection`
that has a `worldBoundary`. Membership events (`added`, `removed`) subscribe to or
unsubscribe from the member's own boundary, then raise a dirty flag. Member boundary
events (`updated`) only raise the flag. Raising the flag from clear fires `"updated"` on
the component's own `Boundary3D`, and no box is computed at that point. The box is rebuilt when that `Boundary3D` pulls it
through its `getDirty` callback. The rebuild folds over the members starting from a
fixed sentinel of ±100000.

Files and modules:

- `wrappers.dfy` (`Wrappers`): `Option`, for a property that may be null.
- `aabb.dfy` (`Aabb`): the box value, the ±100000 sentinel, and one fold step (`Include`).
- `member_union.dfy` (`MemberUnion`): a member as the fold sees it (id plus optional
  box). Also `Union`, the pure fold that `_buildAABB` performs, and the lemmas that
  say what `Union` means.
- `collaborators.dfy` (`Collaborators`): stand-ins for the framework objects the
  component talks to. `Collection` is an id and its components in enumeration order.
  `Boundary3D` counts the `"updated"` notifications fired on it and records whether it
  was destroyed. `SameComponent` is the id comparison of `XEO._isSameComponent`.
- `collection_boundary.dfy` (`Boundaries`): class `CollectionBoundary`. It has the
  source's fields (`collection`, `onAdded`, `onRemoved`, `onUpdated`, the cached box as
  two 3-element arrays, `aabbDirty`, `worldBoundary`), and one method per function of
  the source. The event emitter is reduced to a handle allocator: `nextToken` is the
  handle the next `on` returns, and `liveHandles` holds the handles this component
  subscribed and has not yet passed to `off`.
- `scenario.dfy` (`Scenario`): a client. It builds a two-member collection, reads the
  box, removes a member, reads again, and destroys and recreates the boundary object.
  It uses the contracts only.

Behaviour of the code worth knowing, which the contracts state as written:

- The setter releases the old collection's subscriptions only when the new value is
  the *same* component (`collectionBoundary.js:125`). Switching to another collection,
  or to null, releases nothing. So `_destroy` (which assigns null) also releases
  nothing. The stale `onUpdated` entries keep their old handles.
  `SetCollection` and `Destroy` state this in their contracts.
- The dirty flag starts false (`:101`). The setter call in `_init` then raises it.
- `_bind` overwrites an existing handle under the same id without `off`. The
  overwritten handle stays live.
- The setter fires `"updated"` twice when a collection is given (`:148` and `:151`),
  and once when null is given.

## Model

| member | source | states |
|---|---|---|
| `Aabb.Sentinel` | src/boundaries/collectionBoundary.js:259-264 | the fold starts with min at +100000 and max at -100000 on every axis |
| `Aabb.Include` | src/boundaries/collectionBoundary.js:290-311 | one member step: each min coordinate becomes the smaller of accumulator and member, each max the larger, and is always one of the two |
| `MemberUnion.Visit` | src/boundaries/collectionBoundary.js:281-313 | a member without a `worldBoundary` leaves the accumulator as it is; otherwise no min coordinate rises and no max coordinate falls |
| `MemberUnion.Union` | src/boundaries/collectionBoundary.js:259-313 | the fold from the sentinel over the visited members; its min never exceeds 100000 and its max is never below -100000 on any axis |
| `MemberUnion.UnionIsTight` | src/boundaries/collectionBoundary.js:259-323 | on each axis the result's min is min(100000, smallest member min) and its max is max(-100000, largest member max), over the members that have a boundary: a bound on every such member, attained by one of them or equal to the sentinel |
| `MemberUnion.UnionDeterminedByBoxes` | src/boundaries/collectionBoundary.js:278-313 | the result depends only on the set of member boxes |
| `MemberUnion.UnionOrderIndependent` | src/boundaries/collectionBoundary.js:278-313 | visiting the same members in any other order gives the same box |
| `MemberUnion.UnionIgnoresUnbounded` | src/boundaries/collectionBoundary.js:283-284 | inserting a member without a `worldBoundary` anywhere leaves the box unchanged |
| `MemberUnion.UnionOfNoBoundaries` | src/boundaries/collectionBoundary.js:259-324 | with no member that has a boundary the result is the sentinel, whose min is above its max on every axis |
| `Collaborators.Collection.constructor` | src/boundaries/collectionBoundary.js:272-281 | a collection holds its id and its components, listed in the order `for … in` visits them |
| `Collaborators.SameComponent` | src/boundaries/collectionBoundary.js:125 | a null value is never the same component, and a collection is always the same component as itself |
| `Boundaries.Unbinds` | src/boundaries/collectionBoundary.js:123-125 | the setter's release branch runs only when a non-null value is given, and always when the attached collection is assigned again |
| `Collaborators.Boundary3D.constructor` | src/boundaries/collectionBoundary.js:178-192 | a new boundary object has seen no notification and is not destroyed |
| `Collaborators.Boundary3D.FireUpdated` | src/boundaries/collectionBoundary.js:249 | firing `"updated"` adds exactly one notification |
| `Collaborators.Boundary3D.Destroy` | src/boundaries/collectionBoundary.js:339 | the boundary object is destroyed |
| `Boundaries.CollectionBoundary.constructor` | src/boundaries/collectionBoundary.js:94-105 | after `_init` the flag is raised, the slots are empty, and, when a collection is given, the `added`/`removed` handles 0 and 1 are live and every member with a boundary is subscribed under a live handle above 1, no two members under the same handle |
| `Boundaries.CollectionBoundary.GetAABB` | src/boundaries/collectionBoundary.js:189-191 | the cached box is present exactly when a rebuild has allocated it |
| `Boundaries.CollectionBoundary.GetJSON` | src/boundaries/collectionBoundary.js:326-332 | the record has key `collection`, holding the collection's id, exactly when a collection is attached, and no other key |
| `Boundaries.CollectionBoundary.Subscribe` | src/boundaries/collectionBoundary.js:143-144 | `on` returns a handle that was not live before and makes it live |
| `Boundaries.CollectionBoundary.Off` | src/boundaries/collectionBoundary.js:127-128 | `off` makes exactly the given handle not live; an absent handle changes nothing |
| `Boundaries.CollectionBoundary.SetAABBDirty` | src/boundaries/collectionBoundary.js:246-251 | raises the flag and fires `"updated"` once when the boundary object exists, without destroying it |
| `Boundaries.CollectionBoundary.Bind` | src/boundaries/collectionBoundary.js:223-229 | a member with a boundary gets a new handle under its id, overwriting without `off`; a member without one changes nothing |
| `Boundaries.CollectionBoundary.Unbind` | src/boundaries/collectionBoundary.js:237-244 | for a member with a boundary, exactly its key is removed and its handle released; every other key is unchanged |
| `Boundaries.CollectionBoundary.BindAll` | src/boundaries/collectionBoundary.js:146 | the keys grow by exactly the ids of members with a boundary, each now under a new handle, no two of them alike; other entries keep their handles |
| `Boundaries.CollectionBoundary.UnbindAll` | src/boundaries/collectionBoundary.js:130 | exactly the ids of members with a boundary are removed, and exactly their handles are released |
| `Boundaries.CollectionBoundary.Release` | src/boundaries/collectionBoundary.js:127-130 | releases both collection handles and every member subscription of the old collection |
| `Boundaries.CollectionBoundary.ReleaseIfUnbinds` | src/boundaries/collectionBoundary.js:123-131 | the handle table and the live handles change only when the guard holds, and then lose exactly the old collection's `added`/`removed` handles and its members' subscriptions |
| `Boundaries.CollectionBoundary.Attach` | src/boundaries/collectionBoundary.js:143-146 | new `added`/`removed` handles, and every member with a boundary subscribed under a new handle, no two members under the same handle |
| `Boundaries.CollectionBoundary.SetCollection` | src/boundaries/collectionBoundary.js:119-152 | any assignment, null included, leaves the flag raised and the new collection attached; old subscriptions are released only for the same component; every member of a new collection that has a boundary gets a new live handle, no two members the same one; `"updated"` fires twice for a collection and once for null; the boundary object stays as it was otherwise |
| `Boundaries.CollectionBoundary.Added` | src/boundaries/collectionBoundary.js:205-212 | leaves the flag raised, binds a member with a boundary under one new handle (nothing is allocated for a member without one), and fires `"updated"` only on a clean-to-dirty change; the boundary object is not destroyed |
| `Boundaries.CollectionBoundary.Removed` | src/boundaries/collectionBoundary.js:214-221 | leaves the flag raised, removes exactly the key of a member with a boundary, and fires `"updated"` only on a clean-to-dirty change; the boundary object is not destroyed |
| `Boundaries.CollectionBoundary.Updated` | src/boundaries/collectionBoundary.js:231-235 | leaves the flag raised and fires `"updated"` only on a clean-to-dirty change; the boundary object is not destroyed |
| `Boundaries.CollectionBoundary.BuildAABB` | src/boundaries/collectionBoundary.js:253-324 | the cached arrays afterwards hold `Union` of the attached collection's members (the sentinel when none is attached), written in place into the existing arrays or into new ones on the first build |
| `Boundaries.CollectionBoundary.GetDirty` | src/boundaries/collectionBoundary.js:180-187 | when dirty: rebuilds, clears the flag and answers true; when clean: answers false and leaves the cached box as it was |
| `Boundaries.CollectionBoundary.GetWorldBoundary` | src/boundaries/collectionBoundary.js:172-201 | the same object on every read while the slot is filled; when it is empty, a new one plus a new live handle for its `"destroyed"` subscription |
| `Boundaries.CollectionBoundary.WorldBoundaryDestroyed` | src/boundaries/collectionBoundary.js:194-197 | the `"destroyed"` handler empties the slot |
| `Boundaries.CollectionBoundary.Destroy` | src/boundaries/collectionBoundary.js:334-341 | detaches the collection without releasing any subscription, destroys the boundary object and empties its slot; the cached box and the handle allocator are untouched |

## Left out

- The `collection` getter (`:154-156`) is the field `collection` itself.
- `_setChild` (`:139`) resolves an id to an instance and fires the `collection` event. That framework code is not part of this model. The setter takes a collection reference (or null) and stores it.
- `XEO._isSameComponent` is not part of this model. `SameComponent` defines it as "both given and carrying the same id".
- The event emitter's dispatch is not modelled. Handlers are methods that a client calls after the event. Subscriptions are handles from an allocator, and the listener functions are not stored.
- Listeners that react to `"updated"` synchronously and re-enter the component (for example, by reading the box inside the notification) are not modelled.
- `XEO.Boundary3D` internals (obb, center, its `aabb` getter that calls `getDirty` then `getAABB`) are not modelled. Only the two callbacks and the `"updated"`/`"destroyed"` notifications are.
- `XEO.math.AABB3` allocation (`:256`) is modelled as two fresh 3-element arrays.
- Coordinates are unbounded integers, not JavaScript doubles. The fold only compares with `<` and `>`, so NaN and rounding are out of scope.
- The cached box is not claimed to equal the union of the current members while the flag is clear. Members change inside the collection, outside this component, so that equality holds only as long as every change is notified. `GetDirty` states the box right after a rebuild instead.
- A general invariant "live member subscriptions equal the members that have a boundary" is not stated. The setter's guard leaves stale entries behind on a switch, and a member's boundary can appear after it was added. `Bind`, `Unbind`, `Added` and `Removed` state the per-event effect instead.
- Scene, ids, metadata, the documentation example (`:1-85`) and `src/_renderer/webgl/sampler.js` (a wrapper over foreign GPU calls) are not modelled.
