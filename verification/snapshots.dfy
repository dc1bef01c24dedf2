/** The per-step snapshot of the battle (State, and its twin GameState):
    friendly and enemy id lists, a health map, a location map and a death
    counter. Snapshots are values, so a copy can never alias the original. */
module Snapshots {
  import opened Geometry

  datatype Snapshot = Snapshot(
    friends: seq<int>,
    enemies: seq<int>,
    health: map<int, int>,
    locations: map<int, Pos>,
    deadCount: int)

  /** The four-argument constructor: copies of the collections, and the death
      counter at its initial value 0. */
  function NewSnapshot(friends: seq<int>, enemies: seq<int>, health: map<int, int>, locations: map<int, Pos>): (s: Snapshot)
    ensures s.friends == friends && s.enemies == enemies
    ensures s.health == health && s.locations == locations
    ensures s.deadCount == 0
  {
    Snapshot(friends, enemies, health, locations, 0)
  }

  /** The copy constructor: equal lists and maps, but the death counter is
      not carried over and starts again at 0. */
  function Copy(s: Snapshot): (c: Snapshot)
    ensures c.friends == s.friends && c.enemies == s.enemies
    ensures c.health == s.health && c.locations == s.locations
    ensures c.deadCount == 0
  {
    NewSnapshot(s.friends, s.enemies, s.health, s.locations)
  }

  /** A copy equals its original exactly when the original's death counter is
      0; copying twice is the same as copying once. */
  lemma CopyLosesOnlyDeadCount(s: Snapshot)
    ensures Copy(s) == s <==> s.deadCount == 0
    ensures Copy(Copy(s)) == Copy(s)
    ensures s.deadCount != 0 ==> Copy(s) == s.(deadCount := 0)
  {
  }

  /** Every listed unit, friendly or enemy, has a health and a location entry
      (how the agent builds each snapshot from the units it observes). */
  predicate Tracked(s: Snapshot)
  {
    && (forall i :: 0 <= i < |s.friends| ==> s.friends[i] in s.health && s.friends[i] in s.locations)
    && (forall i :: 0 <= i < |s.enemies| ==> s.enemies[i] in s.health && s.enemies[i] in s.locations)
  }
}
