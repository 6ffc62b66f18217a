/**
 * The two framework objects `XEO.CollectionBoundary` talks to, reduced to what it uses.
 */
module Collaborators {
  import opened MemberUnion

  /**
   * An `XEO.Collection`: its id and its components, listed in the order its
   * `components` map is enumerated. Other code adds and removes components and then
   * notifies the boundary through its `added`/`removed` handlers.
   */
  class Collection {
    const id: Id
    var components: seq<Component>

    constructor (id: Id, components: seq<Component>)
      ensures this.id == id && this.components == components
    {
      this.id := id;
      this.components := components;
    }
  }

  /**
   * An `XEO.Boundary3D`, as far as its owner is concerned: it counts the "updated"
   * notifications fired on it and records whether it has been destroyed. Its
   * own geometry (obb, center) is not part of this model.
   */
  class Boundary3D {
    var updates: nat
    var destroyed: bool

    constructor ()
      ensures updates == 0 && !destroyed
    {
      updates := 0;
      destroyed := false;
    }

    /** `fire("updated", true)`. */
    method FireUpdated()
      modifies this`updates
      ensures updates == old(updates) + 1
    {
      updates := updates + 1;
    }

    /** `destroy()`; the "destroyed" notification is delivered by the caller. */
    method Destroy()
      modifies this`destroyed
      ensures destroyed
    {
      destroyed := true;
    }
  }

  /** `XEO._isSameComponent`: both given and carrying the same id. */
  function SameComponent(a: Collection, b: Collection?): (same: bool)
    ensures same ==> b != null
    ensures b == a ==> same
  {
    b != null && a.id == b.id
  }
}
