/** BubbleManager.cpp as a step on the set of online entities. */
module BubbleModel {

  /** Coordinates as exact numbers. */
  datatype Point = Point(x: real, y: real, z: real)

  function DistanceSquared(a: Point, b: Point): real {
    (a.x - b.x) * (a.x - b.x) + (a.y - b.y) * (a.y - b.y) + (a.z - b.z) * (a.z - b.z)
  }

  datatype EntityView = EntityView(id: nat, position: Point)

  /** What one evaluation sees: the players, and every entity once. */
  datatype World = World(players: seq<Point>, entities: seq<EntityView>)

  /** The two radii, squared. */
  datatype Radii = Radii(on2: real, off2: real)

  ghost predicate UniqueIds(w: World) {
    forall i, j :: 0 <= i < j < |w.entities| ==> w.entities[i].id != w.entities[j].id
  }

  ghost predicate Near(players: seq<Point>, p: Point, r2: real) {
    exists i :: 0 <= i < |players| && DistanceSquared(p, players[i]) <= r2
  }

  /** The entity exists and its nearest player is within the radius. */
  ghost predicate Within(w: World, id: nat, r2: real) {
    exists i :: 0 <= i < |w.entities| && w.entities[i].id == id && Near(w.players, w.entities[i].position, r2)
  }

  ghost function Ids(w: World): set<nat> {
    set e | e in w.entities :: e.id
  }

  /** Online entities stay until they leave the outer radius; others come in at the inner one. */
  ghost function NextOnline(online: set<nat>, w: World, r: Radii): set<nat> {
    set id | id in Ids(w) && Within(w, id, r.off2) && (id in online || Within(w, id, r.on2))
  }

  datatype Bubble = Bubble(online: set<nat>, previous: set<nat>)

  ghost function Update(b: Bubble, w: World, r: Radii): Bubble {
    Bubble(NextOnline(b.online, w, r), b.online)
  }

  ghost function Activations(b: Bubble): set<nat> { b.online - b.previous }

  ghost function Deactivations(b: Bubble): set<nat> { b.previous - b.online }

  ghost function Run(worlds: seq<World>, r: Radii): Bubble {
    if worlds == [] then Bubble({}, {}) else Update(Run(worlds[..|worlds| - 1], r), worlds[|worlds| - 1], r)
  }
}
