/**
 * A client of the model: two members, one read, a removal, another read, and a
 * boundary object destroyed and recreated. The assertions are what a caller can
 * conclude from the contracts alone.
 */
module Scenario {
  import opened Wrappers
  import opened Aabb
  import opened MemberUnion
  import opened Collaborators
  import opened Boundaries

  method TwoMembers()
  {
    var a := Component("a", Some(Box(Vec3(0, 0, 0), Vec3(1, 1, 1))));
    var b := Component("b", Some(Box(Vec3(-1, -1, -1), Vec3(0, 0, 0))));
    var coll := new Collection("c", [a, b]);
    var cb := new CollectionBoundary(coll);
    assert cb.onUpdated.Keys == IdsWithBoundary([a, b]) by {
      IdsWithBoundarySnoc([a], b);
      IdsWithBoundarySnoc([], a);
      assert [a, b] == [a] + [b] && [a] == [] + [a];
    }

    var wb := cb.GetWorldBoundary();
    var rebuilt := cb.GetDirty();
    assert rebuilt;
    assert [a, b][..1] == [a] && [a][..0] == [];
    assert Union([a]) == Box(Vec3(0, 0, 0), Vec3(1, 1, 1));
    assert Union([a, b]) == Box(Vec3(-1, -1, -1), Vec3(1, 1, 1));
    assert cb.Target() == Union([a, b]);
    assert cb.GetAABB() == Some(Box(Vec3(-1, -1, -1), Vec3(1, 1, 1)));

    // A second read with no event in between rebuilds nothing and sees the same box.
    rebuilt := cb.GetDirty();
    assert !rebuilt && cb.GetAABB() == Some(Box(Vec3(-1, -1, -1), Vec3(1, 1, 1)));

    // Remove b: the flag goes up, "updated" fires once, and b's key is gone.
    coll.components := [a];
    assert [a][..0] == [];
    cb.Removed(b);
    assert cb.aabbDirty && wb.updates == 1 && "b" !in cb.onUpdated;
    rebuilt := cb.GetDirty();
    assert rebuilt && cb.GetAABB() == Some(Box(Vec3(0, 0, 0), Vec3(1, 1, 1)));

    // Destroying the boundary object empties the slot; the next read makes a new one.
    wb.Destroy();
    cb.WorldBoundaryDestroyed();
    var wb2 := cb.GetWorldBoundary();
    assert wb2 != wb && wb2.updates == 0;
  }
}
