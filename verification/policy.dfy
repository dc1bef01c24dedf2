/** Epsilon-greedy target selection (selectAction): each footman, in list
    order, either explores (a uniformly drawn enemy) or exploits (the first
    enemy of maximal estimated Q). */
module Policy {
  import opened Snapshots
  import opened Randomness
  import opened LinearQ
  import opened FeatureExtraction

  /** The draws one footman's selection consumes: the exploration draw, the
      draw behind randInt, and one draw per enemy position for feature 8. */
  datatype UnitDraws = UnitDraws(explore: Draw, pick: Draw, threat: nat -> Draw)

  /** A footman explores when the agent is training and the draw is at least 1 - epsilon. */
  predicate Explores(epsilon: real, evaluation: bool, r: Draw)
  {
    !evaluation && 1.0 - epsilon <= r
  }

  /** Evaluation mode, or an epsilon of 0 (or below), always exploits; an
      epsilon of 1 (or above) while training always explores. */
  lemma ExplorationGate(epsilon: real, evaluation: bool, r: Draw)
    ensures evaluation || epsilon <= 0.0 ==> !Explores(epsilon, evaluation, r)
    ensures !evaluation && epsilon >= 1.0 ==> Explores(epsilon, evaluation, r)
  {
  }

  /** The scan of the greedy loop from position k on, with best the position
      holding the running maximum. The comparison is strict, so ties keep the
      earlier position. */
  function ScanMax(qs: seq<real>, k: nat, best: nat): (i: nat)
    requires best < k <= |qs|
    requires forall j :: 0 <= j < k ==> qs[j] <= qs[best]
    requires forall j :: 0 <= j < best ==> qs[j] < qs[best]
    ensures i < |qs|
    ensures forall j :: 0 <= j < |qs| ==> qs[j] <= qs[i]
    ensures forall j :: 0 <= j < i ==> qs[j] < qs[i]
    decreases |qs| - k
  {
    if k == |qs| then best
    else if qs[k] > qs[best] then ScanMax(qs, k + 1, k)
    else ScanMax(qs, k + 1, best)
  }

  /** The first position of a maximal score. The loop starts from negative
      infinity, so the first position is always taken before any comparison. */
  function FirstArgMax(qs: seq<real>): (i: nat)
    requires |qs| > 0
    ensures i < |qs|
    ensures forall j :: 0 <= j < |qs| ==> qs[j] <= qs[i]
    ensures forall j :: 0 <= j < i ==> qs[j] < qs[i]
  {
    ScanMax(qs, 1, 0)
  }

  /** "Maximal, and strictly above everything before it" singles out one
      position: FirstArgMax is the only index with both properties. */
  lemma FirstArgMaxIsUnique(qs: seq<real>, i: nat)
    requires i < |qs|
    requires forall j :: 0 <= j < |qs| ==> qs[j] <= qs[i]
    requires forall j :: 0 <= j < i ==> qs[j] < qs[i]
    ensures FirstArgMax(qs) == i
  {
  }

  /** The estimated Q of every enemy position, for one footman. */
  function Scores(s: Snapshot, footman: int, attack: Assignment, w: seq<real>, threat: nat -> Draw): seq<real>
    requires Tracked(s) && footman in s.health && footman in s.locations && |w| <= NumFeatures
  {
    seq(|s.enemies|, j requires 0 <= j < |s.enemies| =>
      Dot(w, Features(s, footman, s.enemies[j], attack, threat(j))))
  }

  /** The greedy branch: the position of the first enemy whose Q is not
      exceeded by any other enemy's. */
  function Greedy(s: Snapshot, footman: int, attack: Assignment, w: seq<real>, threat: nat -> Draw): (i: nat)
    requires Tracked(s) && footman in s.health && footman in s.locations && |w| <= NumFeatures
    requires s.enemies != []
    ensures i < |s.enemies|
    ensures forall j :: 0 <= j < |s.enemies| ==>
      Scores(s, footman, attack, w, threat)[j] <= Scores(s, footman, attack, w, threat)[i]
    ensures forall j :: 0 <= j < i ==>
      Scores(s, footman, attack, w, threat)[j] < Scores(s, footman, attack, w, threat)[i]
  {
    FirstArgMax(Scores(s, footman, attack, w, threat))
  }

  /** The target one footman is given. */
  function ChooseTarget(s: Snapshot, footman: int, attack: Assignment, w: seq<real>,
                        epsilon: real, evaluation: bool, d: UnitDraws): (e: int)
    requires Tracked(s) && footman in s.health && footman in s.locations && |w| <= NumFeatures
    requires s.enemies != []
    ensures e in s.enemies
  {
    if Explores(epsilon, evaluation, d.explore) then
      s.enemies[RandInt(0, |s.enemies| - 1, d.pick)]
    else
      s.enemies[Greedy(s, footman, attack, w, d.threat)]
  }

  /** What a selection may look up and what the source needs to avoid an
      exception: with any footman to assign, the enemy list is non-empty. */
  predicate CanSelect(s: Snapshot, w: seq<real>)
  {
    Tracked(s) && |w| <= NumFeatures && (s.friends == [] || s.enemies != [])
  }

  /** The footman positions k.. of the list, assigned into acc in order. */
  function SelectFrom(s: Snapshot, attack: Assignment, w: seq<real>, epsilon: real, evaluation: bool,
                      draws: nat -> UnitDraws, k: nat, acc: Assignment): (a: Assignment)
    requires CanSelect(s, w) && k <= |s.friends|
    decreases |s.friends| - k
  {
    if k == |s.friends| then acc
    else
      var footman := s.friends[k];
      SelectFrom(s, attack, w, epsilon, evaluation, draws, k + 1,
                 acc[footman := ChooseTarget(s, footman, attack, w, epsilon, evaluation, draws(k))])
  }

  /** selectAction: assigns every listed footman a listed enemy. The attack
      map passed in only feeds the features. */
  function SelectAction(s: Snapshot, attack: Assignment, w: seq<real>, epsilon: real, evaluation: bool,
                        draws: nat -> UnitDraws): (a: Assignment)
    requires CanSelect(s, w)
    ensures forall f :: f in a <==> f in s.friends
    ensures forall f :: f in a ==> a[f] in s.enemies
  {
    SelectFromShape(s, attack, w, epsilon, evaluation, draws, 0, map[]);
    SelectFrom(s, attack, w, epsilon, evaluation, draws, 0, map[])
  }

  lemma {:induction false} SelectFromShape(s: Snapshot, attack: Assignment, w: seq<real>, epsilon: real,
                                           evaluation: bool, draws: nat -> UnitDraws, k: nat, acc: Assignment)
    requires CanSelect(s, w) && k <= |s.friends|
    requires forall f :: f in acc ==> acc[f] in s.enemies
    ensures var a := SelectFrom(s, attack, w, epsilon, evaluation, draws, k, acc);
      && (forall f :: f in a <==> f in acc || f in s.friends[k..])
      && (forall f :: f in a ==> a[f] in s.enemies)
    decreases |s.friends| - k
  {
    if k < |s.friends| {
      var footman := s.friends[k];
      var acc' := acc[footman := ChooseTarget(s, footman, attack, w, epsilon, evaluation, draws(k))];
      SelectFromShape(s, attack, w, epsilon, evaluation, draws, k + 1, acc');
      assert s.friends[k..] == [footman] + s.friends[k + 1..];
      assert forall f :: f in s.friends[k..] <==> f == footman || f in s.friends[k + 1..];
    }
  }

  lemma {:induction false} SelectFromKeeps(s: Snapshot, attack: Assignment, w: seq<real>, epsilon: real,
                                           evaluation: bool, draws: nat -> UnitDraws, k: nat, acc: Assignment, f: int)
    requires CanSelect(s, w) && k <= |s.friends|
    requires f in acc && f !in s.friends[k..]
    ensures var a := SelectFrom(s, attack, w, epsilon, evaluation, draws, k, acc);
      f in a && a[f] == acc[f]
    decreases |s.friends| - k
  {
    if k < |s.friends| {
      var footman := s.friends[k];
      var acc' := acc[footman := ChooseTarget(s, footman, attack, w, epsilon, evaluation, draws(k))];
      assert s.friends[k..] == [footman] + s.friends[k + 1..];
      SelectFromKeeps(s, attack, w, epsilon, evaluation, draws, k + 1, acc', f);
    }
  }

  lemma {:induction false} SelectFromAssigns(s: Snapshot, attack: Assignment, w: seq<real>, epsilon: real,
                                             evaluation: bool, draws: nat -> UnitDraws, k: nat, acc: Assignment, i: nat)
    requires CanSelect(s, w) && k <= i < |s.friends|
    requires s.friends[i] !in s.friends[i + 1..]
    ensures var a := SelectFrom(s, attack, w, epsilon, evaluation, draws, k, acc);
      s.friends[i] in a
      && a[s.friends[i]] == ChooseTarget(s, s.friends[i], attack, w, epsilon, evaluation, draws(i))
    decreases |s.friends| - k
  {
    var footman := s.friends[k];
    var acc' := acc[footman := ChooseTarget(s, footman, attack, w, epsilon, evaluation, draws(k))];
    if k == i {
      SelectFromKeeps(s, attack, w, epsilon, evaluation, draws, k + 1, acc', footman);
    } else {
      SelectFromAssigns(s, attack, w, epsilon, evaluation, draws, k + 1, acc', i);
    }
  }

  /** The epsilon-greedy rule per footman: the footman at position i (its last
      occurrence in the list) gets the randInt-drawn enemy when it explores,
      and otherwise the first enemy of maximal Q. */
  lemma SelectActionIsEpsilonGreedy(s: Snapshot, attack: Assignment, w: seq<real>, epsilon: real,
                                    evaluation: bool, draws: nat -> UnitDraws, i: nat)
    requires CanSelect(s, w) && i < |s.friends|
    requires s.friends[i] !in s.friends[i + 1..]
    ensures var a := SelectAction(s, attack, w, epsilon, evaluation, draws);
      var d := draws(i);
      a[s.friends[i]] ==
        if !evaluation && 1.0 - epsilon <= d.explore then s.enemies[RandInt(0, |s.enemies| - 1, d.pick)]
        else s.enemies[Greedy(s, s.friends[i], attack, w, d.threat)]
  {
    SelectFromAssigns(s, attack, w, epsilon, evaluation, draws, 0, map[], i);
  }

  /** With epsilon at most 0, or in evaluation mode, every footman is sent at
      an enemy of maximal Q, the first such in list order. */
  lemma ExploitOnlyIsGreedy(s: Snapshot, attack: Assignment, w: seq<real>, epsilon: real,
                            evaluation: bool, draws: nat -> UnitDraws, i: nat)
    requires CanSelect(s, w) && i < |s.friends|
    requires s.friends[i] !in s.friends[i + 1..]
    requires evaluation || epsilon <= 0.0
    ensures var a := SelectAction(s, attack, w, epsilon, evaluation, draws);
      var qs := Scores(s, s.friends[i], attack, w, draws(i).threat);
      exists g :: 0 <= g < |s.enemies| && a[s.friends[i]] == s.enemies[g]
        && (forall j :: 0 <= j < |s.enemies| ==> qs[j] <= qs[g])
        && (forall j :: 0 <= j < g ==> qs[j] < qs[g])
  {
    SelectActionIsEpsilonGreedy(s, attack, w, epsilon, evaluation, draws, i);
    var g := Greedy(s, s.friends[i], attack, w, draws(i).threat);
    assert !Explores(epsilon, evaluation, draws(i).explore);
  }
}
