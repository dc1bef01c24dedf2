/** The nine-feature extractor (getFeatures / calculateFeatureVector), scoring
    one footman attacking one candidate enemy in a snapshot, given the current
    attack assignment. Ids compare by value. */
module FeatureExtraction {
  import opened Geometry
  import opened Snapshots
  import opened Randomness
  import opened LinearQ

  /** Attack assignment: footman id to the enemy id it attacks. */
  type Assignment = map<int, int>

  /** What the extractor looks up: both units' health and location, and the
      location of every listed enemy. */
  predicate CanScore(s: Snapshot, footman: int, enemy: int)
  {
    && footman in s.health && footman in s.locations
    && enemy in s.health && enemy in s.locations
    && AllLocated(s.enemies, s.locations)
  }

  /** The attackers other than the footman that the assignment sends at the enemy. */
  function OtherAttackers(attack: Assignment, footman: int, enemy: int): set<int>
  {
    set a | a in attack && a != footman && attack[a] == enemy
  }

  /** Feature 4: -0.01 when the footman has no target, 0.02 when it already
      targets this enemy, 0 otherwise. */
  function AssignmentFlag(attack: Assignment, footman: int, enemy: int): real
  {
    if footman !in attack then -0.01
    else if attack[footman] == enemy then 0.02
    else 0.0
  }

  /** Feature 5: the footman's health over max(enemy health, 0.001). */
  function HealthRatio(footmanHealth: int, enemyHealth: int): real
  {
    var denominator := if (enemyHealth as real) < 0.001 then 0.001 else enemyHealth as real;
    (footmanHealth as real) / denominator
  }

  /** Feature 8: a threat term over a random draw, positive while at most two
      enemies are adjacent, negative beyond. */
  function ThreatTerm(adjacentEnemies: nat, d: Draw): real
  {
    if adjacentEnemies <= 2 then (0.02 * (adjacentEnemies as real)) / d
    else -((0.1 * (adjacentEnemies as real)) / d)
  }

  /** The feature vector of footman attacking enemy. */
  function Features(s: Snapshot, footman: int, enemy: int, attack: Assignment, threatDraw: Draw): (f: seq<real>)
    requires CanScore(s, footman, enemy)
    ensures |f| == NumFeatures
    // bias, own health, enemy health
    ensures f[0] == 1.0
    ensures f[1] == s.health[footman] as real && f[2] == s.health[enemy] as real
    // minus the number of other footmen already sent at this enemy
    ensures f[3] == -(|OtherAttackers(attack, footman, enemy)| as real)
    ensures -(|attack| as real) <= f[3] <= 0.0
    // the current-assignment flag
    ensures f[4] == -0.01 <==> footman !in attack
    ensures f[4] == 0.02 <==> footman in attack && attack[footman] == enemy
    ensures f[4] == 0.0 <==> footman in attack && attack[footman] != enemy
    // the health ratio, with the enemy's health floored at 0.001
    ensures s.health[enemy] >= 1 ==> f[5] * f[2] == f[1]
    ensures s.health[enemy] <= 0 ==> f[5] == 1000.0 * f[1]
    // nearest enemy by the distance as written
    ensures f[6] == 0.3 || f[6] == -0.4
    ensures f[6] == 0.3 <==> forall i :: 0 <= i < |s.enemies| ==>
      ChebyshevDistance(s.locations[footman], s.locations[s.enemies[i]])
        >= ChebyshevDistance(s.locations[footman], s.locations[enemy])
    // in attack range
    ensures f[7] == 0.03 || f[7] == 0.0
    ensures f[7] == 0.03 <==> IsAdjacent(s.locations[footman], s.locations[enemy])
    // the threat term: its sign tells whether more than two enemies are adjacent
    ensures f[8] >= 0.0 <==> AdjacentEnemyCount(footman, s.enemies, s.locations) <= 2
    ensures f[8] == 0.0 <==> forall i :: 0 <= i < |s.enemies| ==>
      !IsAdjacent(s.locations[footman], s.locations[s.enemies[i]])
  {
    OtherAttackersBound(attack, footman, enemy);
    ThreatTermSign(AdjacentEnemyCount(footman, s.enemies, s.locations), threatDraw);
    HealthRatioScales(s.health[footman], s.health[enemy]);
    [ 1.0,
      s.health[footman] as real,
      s.health[enemy] as real,
      -(|OtherAttackers(attack, footman, enemy)| as real),
      AssignmentFlag(attack, footman, enemy),
      HealthRatio(s.health[footman], s.health[enemy]),
      if IsClosest(footman, enemy, s.enemies, s.locations) then 0.3 else -0.4,
      if IsAdjacent(s.locations[footman], s.locations[enemy]) then 0.03 else 0.0,
      ThreatTerm(AdjacentEnemyCount(footman, s.enemies, s.locations), threatDraw) ]
  }

  lemma OtherAttackersBound(attack: Assignment, footman: int, enemy: int)
    ensures |OtherAttackers(attack, footman, enemy)| <= |attack|
  {
    var others := OtherAttackers(attack, footman, enemy);
    assert others <= attack.Keys;
    SubsetCardinality(others, attack.Keys);
  }

  lemma SubsetCardinality(a: set<int>, b: set<int>)
    requires a <= b
    ensures |a| <= |b|
  {
    var rest := b - a;
    assert b == a + rest;
    assert a * rest == {};
  }

  lemma ThreatTermSign(n: nat, d: Draw)
    ensures ThreatTerm(n, d) >= 0.0 <==> n <= 2
    ensures ThreatTerm(n, d) == 0.0 <==> n == 0
  {
    var x := (if n <= 2 then 0.02 else 0.1) * (n as real);
    assert x >= 0.0;
    assert x / d >= 0.0;
    if n > 0 {
      assert x > 0.0;
      assert x / d > 0.0;
    }
  }

  lemma HealthRatioScales(footmanHealth: int, enemyHealth: int)
    ensures enemyHealth >= 1 ==> HealthRatio(footmanHealth, enemyHealth) * (enemyHealth as real) == footmanHealth as real
    ensures enemyHealth <= 0 ==> HealthRatio(footmanHealth, enemyHealth) == 1000.0 * (footmanHealth as real)
  {
  }
}
