/** Per-footman reward (calculateReward) and the event gate
    (eventHasHappened) that decides whether a step learns and re-plans. */
module Rewards {
  import opened Geometry
  import opened Snapshots
  import opened FeatureExtraction

  /** The reward, and the current snapshot as the computation leaves it: the
      source writes previous locations into the current location map. */
  datatype RewardOutcome = RewardOutcome(reward: real, observed: Snapshot)

  /** The lookups calculateReward makes without a null check. */
  predicate CanReward(cur: Snapshot, prev: Snapshot, prevAction: Assignment, footman: int)
  {
    && footman in prevAction
    && footman in prev.health && footman in prev.locations
    && prevAction[footman] in prev.health && prevAction[footman] in prev.locations
    && (footman in cur.friends ==> footman in cur.health && footman in cur.locations)
    && (prevAction[footman] in cur.enemies ==> prevAction[footman] in cur.health)
  }

  /** calculateReward, following the source's steps: overwrite the target's
      location with its previous one, charge -0.1 and the footman's loss (100
      if it is gone), fill in a vanished unit's previous location, and credit
      the damage dealt (100 for a kill) only when the two are adjacent. */
  function CalculateReward(cur: Snapshot, prev: Snapshot, prevAction: Assignment, footman: int): (out: RewardOutcome)
    requires CanReward(cur, prev, prevAction, footman)
    // the reward: step cost, the footman's loss, and the target's loss when in range,
    // with range judged from the target's PREVIOUS position
    ensures var target := prevAction[footman];
            var alive := footman in cur.friends;
            var lost := if alive then (prev.health[footman] - cur.health[footman]) as real else 100.0;
            var from := if alive && footman != target then cur.locations[footman] else prev.locations[footman];
            var dealt := if target in cur.enemies then (prev.health[target] - cur.health[target]) as real else 100.0;
            out.reward == -0.1 - lost + (if IsAdjacent(from, prev.locations[target]) then dealt else 0.0)
    // the side effect: only locations change, and only the target's and a vanished footman's
    ensures out.observed.friends == cur.friends && out.observed.enemies == cur.enemies
    ensures out.observed.health == cur.health && out.observed.deadCount == cur.deadCount
    ensures var target := prevAction[footman];
            && out.observed.locations.Keys == cur.locations.Keys + {target}
                 + (if footman in cur.friends then {} else {footman})
            && out.observed.locations[target] == prev.locations[target]
            && (footman !in cur.friends ==> out.observed.locations[footman] == prev.locations[footman])
            && (forall u :: u in cur.locations && u != target && (u != footman || footman in cur.friends) ==>
                  out.observed.locations[u] == cur.locations[u])
  {
    var target := prevAction[footman];
    var locations := cur.locations[target := prev.locations[target]];
    var reward :=
      if footman !in cur.friends then -0.1 - 100.0
      else -0.1 - (prev.health[footman] - cur.health[footman]) as real;
    var locations := if footman !in cur.friends then locations[footman := prev.locations[footman]] else locations;
    var locations := if target !in cur.enemies then locations[target := prev.locations[target]] else locations;
    var reward :=
      if IsAdjacent(locations[footman], locations[target]) then
        if target !in cur.enemies then reward + 100.0
        else reward + (prev.health[target] - cur.health[target]) as real
      else reward;
    RewardOutcome(reward, cur.(locations := locations))
  }

  /** Where the target moved during the step does not matter: two current
      snapshots that differ only in the target's location give the same reward. */
  lemma RewardIgnoresTargetMove(cur: Snapshot, prev: Snapshot, prevAction: Assignment, footman: int, moved: Pos)
    requires CanReward(cur, prev, prevAction, footman)
    requires footman != prevAction[footman]
    ensures var cur' := cur.(locations := cur.locations[prevAction[footman] := moved]);
      CalculateReward(cur', prev, prevAction, footman).reward == CalculateReward(cur, prev, prevAction, footman).reward
  {
  }

  /** The four worked cases, for a footman with 10 HP attacking an enemy with 20 HP. */
  lemma RewardExamples()
    // alive, lost 3 HP, not adjacent
    ensures CalculateReward(Snapshot([1], [2], map[1 := 7, 2 := 20], map[1 := Pos(0, 0), 2 := Pos(5, 5)], 0),
                            Snapshot([1], [2], map[1 := 10, 2 := 20], map[1 := Pos(0, 0), 2 := Pos(5, 5)], 0),
                            map[1 := 2], 1).reward == -3.1
    // alive, unharmed, adjacent, target gone
    ensures CalculateReward(Snapshot([1], [], map[1 := 10], map[1 := Pos(0, 0)], 0),
                            Snapshot([1], [2], map[1 := 10, 2 := 20], map[1 := Pos(0, 0), 2 := Pos(1, 1)], 0),
                            map[1 := 2], 1).reward == 99.9
    // dead, not adjacent
    ensures CalculateReward(Snapshot([], [2], map[2 := 20], map[2 := Pos(5, 5)], 0),
                            Snapshot([1], [2], map[1 := 10, 2 := 20], map[1 := Pos(0, 0), 2 := Pos(5, 5)], 0),
                            map[1 := 2], 1).reward == -100.1
    // dead, adjacent, target gone
    ensures CalculateReward(Snapshot([], [], map[], map[], 0),
                            Snapshot([1], [2], map[1 := 10, 2 := 20], map[1 := Pos(0, 0), 2 := Pos(0, 1)], 0),
                            map[1 := 2], 1).reward == -0.1
  {
  }

  /** Every unit listed in the current snapshot, friends first. */
  function Units(s: Snapshot): seq<int>
  {
    s.friends + s.enemies
  }

  /** The lookups eventHasHappened makes: every current unit has a health
      entry now and had one before. */
  predicate CanCompare(cur: Snapshot, prev: Snapshot)
  {
    forall i :: 0 <= i < |Units(cur)| ==> Units(cur)[i] in cur.health && Units(cur)[i] in prev.health
  }

  /** A significant event: the death counter rose, the enemy list shrank, or
      a unit listed now has strictly less health than before. */
  predicate HasEvent(cur: Snapshot, prev: Snapshot)
    requires CanCompare(cur, prev)
  {
    || cur.deadCount > prev.deadCount
    || |cur.enemies| < |prev.enemies|
    || exists i :: 0 <= i < |Units(cur)| && cur.health[Units(cur)[i]] < prev.health[Units(cur)[i]]
  }

  /** eventHasHappened: the two count tests, then the loop that ORs together
      "lost health" over the current units. */
  method EventHasHappened(cur: Snapshot, prev: Snapshot) returns (b: bool)
    requires CanCompare(cur, prev)
    ensures b <==> HasEvent(cur, prev)
  {
    if cur.deadCount > prev.deadCount || |cur.enemies| < |prev.enemies| {
      return true;
    }
    var units := Units(cur);
    var injured := false;
    var i := 0;
    while i < |units|
      invariant 0 <= i <= |units|
      invariant injured <==> exists k :: 0 <= k < i && cur.health[units[k]] < prev.health[units[k]]
    {
      injured := injured || cur.health[units[i]] < prev.health[units[i]];
      i := i + 1;
    }
    return injured;
  }

  /** Nothing happened: with the same death counter, no fewer enemies and no
      unit's health lower, there is no event; in particular a snapshot
      compared with itself. */
  lemma NoChangeNoEvent(cur: Snapshot, prev: Snapshot, s: Snapshot)
    requires CanCompare(cur, prev)
    requires cur.deadCount <= prev.deadCount && |cur.enemies| >= |prev.enemies|
    requires forall i :: 0 <= i < |Units(cur)| ==> cur.health[Units(cur)[i]] >= prev.health[Units(cur)[i]]
    requires CanCompare(s, s)
    ensures !HasEvent(cur, prev)
    ensures !HasEvent(s, s)
  {
  }

  /** Snapshots built each step all carry a death counter of 0, so a footman
      that dies while nobody else loses health goes unnoticed: the dead unit is
      no longer listed, and the counters do not differ. */
  lemma FriendlyDeathAloneIsNoEvent(cur: Snapshot, prev: Snapshot, dead: int)
    requires CanCompare(cur, prev)
    requires cur.deadCount == 0 && prev.deadCount == 0 && cur.enemies == prev.enemies
    requires dead in prev.friends && dead !in cur.friends
    requires forall i :: 0 <= i < |Units(cur)| ==> cur.health[Units(cur)[i]] == prev.health[Units(cur)[i]]
    ensures !HasEvent(cur, prev)
  {
  }
}
