/**
 * The reduction `_buildAABB` performs, stated as a pure fold over the members of a
 * collection in the order they are visited, together with what that fold means:
 * the tightest box around the sentinel and every member boundary, whatever the order.
 */
module MemberUnion {
  import opened Wrappers
  import opened Aabb

  type Id = string

  /**
   * A collection member as the reduction sees it: its id and the `aabb` of its
   * `worldBoundary`, or None when it has no `worldBoundary`.
   */
  datatype Component = Component(id: Id, worldBoundary: Option<Box>)

  /** The fold applied to one visited member: members without a boundary are skipped. */
  function Visit(acc: Box, c: Component): (r: Box)
    ensures c.worldBoundary.None? ==> r == acc
    ensures forall a :: At(r.min, a) <= At(acc.min, a) && At(r.max, a) >= At(acc.max, a)
  {
    match c.worldBoundary
    case None => acc
    case Some(b) => Include(acc, b)
  }

  /** The box `_buildAABB` computes after visiting `ms` in order, starting from the sentinel. */
  function Union(ms: seq<Component>): (r: Box)
    ensures forall a :: At(r.min, a) <= Extent && At(r.max, a) >= -Extent
  {
    if |ms| == 0 then Sentinel() else Visit(Union(ms[..|ms| - 1]), ms[|ms| - 1])
  }

  /** The boxes of the members that expose a boundary. */
  function BoxesOf(ms: seq<Component>): set<Box>
  {
    set k | 0 <= k < |ms| && ms[k].worldBoundary.Some? :: ms[k].worldBoundary.value
  }

  /** The ids of the members that expose a boundary: the keys `_bind` subscribes under. */
  function IdsWithBoundary(ms: seq<Component>): set<Id>
  {
    set k | 0 <= k < |ms| && ms[k].worldBoundary.Some? :: ms[k].id
  }

  lemma {:induction false} BoxesOfSnoc(ms: seq<Component>, c: Component)
    ensures BoxesOf(ms + [c]) == BoxesOf(ms) + (if c.worldBoundary.Some? then {c.worldBoundary.value} else {})
  {
    var ns := ms + [c];
    forall b | b in BoxesOf(ns) ensures b in BoxesOf(ms) || (c.worldBoundary.Some? && b == c.worldBoundary.value) {
      var k :| 0 <= k < |ns| && ns[k].worldBoundary.Some? && ns[k].worldBoundary.value == b;
      if k < |ms| { assert ns[k] == ms[k]; }
    }
    forall b | b in BoxesOf(ms) ensures b in BoxesOf(ns) {
      var k :| 0 <= k < |ms| && ms[k].worldBoundary.Some? && ms[k].worldBoundary.value == b;
      assert ns[k] == ms[k];
    }
    if c.worldBoundary.Some? {
      assert ns[|ms|] == c;
    }
  }

  lemma {:induction false} IdsWithBoundarySnoc(ms: seq<Component>, c: Component)
    ensures IdsWithBoundary(ms + [c]) == IdsWithBoundary(ms) + (if c.worldBoundary.Some? then {c.id} else {})
  {
    var ns := ms + [c];
    forall id | id in IdsWithBoundary(ns) ensures id in IdsWithBoundary(ms) || (c.worldBoundary.Some? && id == c.id) {
      var k :| 0 <= k < |ns| && ns[k].worldBoundary.Some? && ns[k].id == id;
      if k < |ms| { assert ns[k] == ms[k]; }
    }
    forall id | id in IdsWithBoundary(ms) ensures id in IdsWithBoundary(ns) {
      var k :| 0 <= k < |ms| && ms[k].worldBoundary.Some? && ms[k].id == id;
      assert ns[k] == ms[k];
    }
    if c.worldBoundary.Some? {
      assert ns[|ms|] == c;
    }
  }

  /**
   * On every axis, the min corner of the union is min(Extent, smallest member min) and
   * the max corner is max(-Extent, largest member max), over the members that have a boundary.
   */
  lemma {:induction false} UnionIsTight(ms: seq<Component>, a: Axis)
    ensures At(Union(ms).min, a) <= Extent
    ensures forall b :: b in BoxesOf(ms) ==> At(Union(ms).min, a) <= At(b.min, a)
    ensures At(Union(ms).min, a) == Extent
            || exists b :: b in BoxesOf(ms) && At(b.min, a) == At(Union(ms).min, a)
    ensures At(Union(ms).max, a) >= -Extent
    ensures forall b :: b in BoxesOf(ms) ==> At(Union(ms).max, a) >= At(b.max, a)
    ensures At(Union(ms).max, a) == -Extent
            || exists b :: b in BoxesOf(ms) && At(b.max, a) == At(Union(ms).max, a)
  {
    if |ms| == 0 {
      assert BoxesOf(ms) == {};
    } else {
      var init, last := ms[..|ms| - 1], ms[|ms| - 1];
      assert ms == init + [last];
      UnionIsTight(init, a);
      BoxesOfSnoc(init, last);
      var u := Union(init);
      if last.worldBoundary.Some? {
        var b := last.worldBoundary.value;
        assert Union(ms) == Include(u, b);
        if At(Union(ms).min, a) != At(u.min, a) {
          assert At(b.min, a) == At(Union(ms).min, a) && b in BoxesOf(ms);
        }
        if At(Union(ms).max, a) != At(u.max, a) {
          assert At(b.max, a) == At(Union(ms).max, a) && b in BoxesOf(ms);
        }
      } else {
        assert Union(ms) == u;
      }
    }
  }

  /** The union depends only on the set of member boxes: not on order, repetition or boundary-less members. */
  lemma {:induction false} UnionDeterminedByBoxes(ms: seq<Component>, ns: seq<Component>)
    requires BoxesOf(ms) == BoxesOf(ns)
    ensures Union(ms) == Union(ns)
  {
    var r, s := Union(ms), Union(ns);
    forall a ensures At(r.min, a) == At(s.min, a) && At(r.max, a) == At(s.max, a) {
      UnionIsTight(ms, a);
      UnionIsTight(ns, a);
    }
    Vec3Ext(r.min, s.min);
    Vec3Ext(r.max, s.max);
  }

  /** Visiting the same members in another order gives the same box. */
  lemma {:induction false} UnionOrderIndependent(ms: seq<Component>, ns: seq<Component>)
    requires multiset(ms) == multiset(ns)
    ensures Union(ms) == Union(ns)
  {
    forall b | b in BoxesOf(ms) ensures b in BoxesOf(ns) {
      var k :| 0 <= k < |ms| && ms[k].worldBoundary.Some? && ms[k].worldBoundary.value == b;
      assert ms[k] in multiset(ns);
      var j :| 0 <= j < |ns| && ns[j] == ms[k];
    }
    forall b | b in BoxesOf(ns) ensures b in BoxesOf(ms) {
      var k :| 0 <= k < |ns| && ns[k].worldBoundary.Some? && ns[k].worldBoundary.value == b;
      assert ns[k] in multiset(ms);
      var j :| 0 <= j < |ms| && ms[j] == ns[k];
    }
    UnionDeterminedByBoxes(ms, ns);
  }

  /** A member without a boundary, wherever it is visited, does not change the box. */
  lemma {:induction false} UnionIgnoresUnbounded(ms: seq<Component>, i: nat, c: Component)
    requires i <= |ms| && c.worldBoundary.None?
    ensures Union(ms[..i] + [c] + ms[i..]) == Union(ms)
  {
    var ns := ms[..i] + [c] + ms[i..];
    forall b | b in BoxesOf(ms) ensures b in BoxesOf(ns) {
      var k :| 0 <= k < |ms| && ms[k].worldBoundary.Some? && ms[k].worldBoundary.value == b;
      if k < i { assert ns[k] == ms[k]; } else { assert ns[k + 1] == ms[k]; }
    }
    forall b | b in BoxesOf(ns) ensures b in BoxesOf(ms) {
      var k :| 0 <= k < |ns| && ns[k].worldBoundary.Some? && ns[k].worldBoundary.value == b;
      if k < i { assert ns[k] == ms[k]; } else if k > i { assert ns[k] == ms[k - 1]; }
    }
    UnionDeterminedByBoxes(ms, ns);
  }

  /** With no member exposing a boundary the result is the sentinel, whose min lies above its max on every axis. */
  lemma {:induction false} UnionOfNoBoundaries(ms: seq<Component>)
    requires forall k :: 0 <= k < |ms| ==> ms[k].worldBoundary.None?
    ensures Union(ms) == Sentinel()
    ensures Inverted(Union(ms))
  {
    if |ms| > 0 {
      UnionOfNoBoundaries(ms[..|ms| - 1]);
    }
  }
}
