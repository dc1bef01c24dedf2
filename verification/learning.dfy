/** The learning agent (RLAgent): the per-footman temporal-difference update,
    the decision step that gates learning on events, and the episode schedule
    (training versus evaluation games, epsilon decay, the episode budget). */
module Learning {
  import opened Geometry
  import opened Snapshots
  import opened Randomness
  import opened LinearQ
  import opened FeatureExtraction
  import opened Policy
  import opened Rewards

  /** The discount factor. */
  const Gamma: real := 0.9
  /** The learning rate. */
  const Alpha: real := 0.0001
  /** Epsilon at the start of a run. */
  const InitialEpsilon: real := 0.1
  /** How much epsilon drops after each full cycle of games. */
  const EpsilonStep: real := 0.002
  /** Games per cycle: ten training games, then five evaluation games. */
  const CycleLength: int := 15

  datatype Option<T> = None | Some(value: T)

  // ---------------------------------------------------------------------------
  // The temporal-difference update of one footman

  /** The draws one footman's update consumes: feature 8 of the previous pair,
      the re-selection on the working copy, and feature 8 of the next pair. */
  datatype TdDraws = TdDraws(previousThreat: Draw, select: nat -> UnitDraws, nextThreat: Draw)

  /** The working copy the update scores the next state on: a copy of the
      current snapshot where a footman that is no longer listed is added back
      with health 0 at its previous location, and the copy's death counter
      incremented. */
  function WorkingCopy(cur: Snapshot, prev: Snapshot, footman: int): (c: Snapshot)
    requires footman in prev.locations
    requires Tracked(cur)
    ensures Tracked(c) && c.enemies == cur.enemies
    ensures footman in c.friends && footman in c.health && footman in c.locations
    // a listed footman: a plain copy
    ensures footman in cur.friends ==> c == Copy(cur)
    // a footman that is gone: appended with health 0 at its previous location, one death counted
    ensures footman !in cur.friends ==>
      && c.friends == cur.friends + [footman]
      && c.health == cur.health[footman := 0]
      && c.locations == cur.locations[footman := prev.locations[footman]]
      && c.deadCount == 1
  {
    var c := Copy(cur);
    if footman in c.friends then c
    else
      c.(deadCount := c.deadCount + 1,
         friends := c.friends + [footman],
         health := c.health[footman := 0],
         locations := c.locations[footman := prev.locations[footman]])
  }

  /** What the update looks up, and what its re-selection needs. */
  predicate CanUpdate(w: seq<real>, cur: Snapshot, prev: Snapshot, prevAction: Assignment, footman: int)
  {
    && |w| <= NumFeatures
    && Tracked(cur) && cur.enemies != []
    && Tracked(prev)
    && footman in prevAction
    && CanScore(prev, footman, prevAction[footman])
  }

  /** The features of the previous pair: the footman and the target it was given. */
  function PreviousFeatures(prev: Snapshot, prevAction: Assignment, footman: int, d: TdDraws): seq<real>
    requires footman in prevAction && CanScore(prev, footman, prevAction[footman])
  {
    Features(prev, footman, prevAction[footman], prevAction, d.previousThreat)
  }

  /** Q of the previous pair. */
  function PreviousQ(w: seq<real>, prev: Snapshot, prevAction: Assignment, footman: int, d: TdDraws): real
    requires |w| <= NumFeatures && footman in prevAction && CanScore(prev, footman, prevAction[footman])
  {
    Dot(w, PreviousFeatures(prev, prevAction, footman, d))
  }

  /** Q of the next pair: the footman on the working copy with the target a
      fresh epsilon-greedy selection (training mode) gives it there. */
  function NextQ(w: seq<real>, cur: Snapshot, prev: Snapshot, prevAction: Assignment, footman: int,
                 epsilon: real, d: TdDraws): real
    requires CanUpdate(w, cur, prev, prevAction, footman)
  {
    var next := WorkingCopy(cur, prev, footman);
    var nextAction := SelectAction(next, prevAction, w, epsilon, false, d.select);
    Dot(w, Features(next, footman, nextAction[footman], nextAction, d.nextThreat))
  }

  /** The TD error reward + (gamma * Q(s', a') - Q(s, a)). */
  function TdError(w: seq<real>, reward: real, cur: Snapshot, prev: Snapshot, prevAction: Assignment,
                   footman: int, epsilon: real, d: TdDraws): real
    requires CanUpdate(w, cur, prev, prevAction, footman)
  {
    reward + (Gamma * NextQ(w, cur, prev, prevAction, footman, epsilon, d) - PreviousQ(w, prev, prevAction, footman, d))
  }

  /** updateWeights(reward, ...): the TD error applied through the uniform
      rule with the learning rate. The current snapshot is only read: the
      footman is added back on a copy. */
  function TdUpdate(w: seq<real>, reward: real, cur: Snapshot, prev: Snapshot, prevAction: Assignment,
                    footman: int, epsilon: real, d: TdDraws): (w': seq<real>)
    requires CanUpdate(w, cur, prev, prevAction, footman)
    ensures |w'| == |w|
    ensures forall i :: 0 <= i < |w| ==>
      w'[i] == w[i] + Alpha * TdError(w, reward, cur, prev, prevAction, footman, epsilon, d)
  {
    UniformUpdate(w, PreviousFeatures(prev, prevAction, footman, d),
                  TdError(w, reward, cur, prev, prevAction, footman, epsilon, d), Alpha)
  }

  /** Every weight moved by the same amount (what any sequence of uniform
      updates does). */
  predicate ShiftedUniformly(w: seq<real>, w': seq<real>)
  {
    && |w'| == |w|
    && forall i, j :: 0 <= i < |w| && 0 <= j < |w| ==> w'[i] - w[i] == w'[j] - w[j]
  }

  /** A larger reward moves every weight further up (the learning rate is
      positive), and a reward that exactly matches the estimate
      Q(s, a) - gamma * Q(s', a') leaves the weights as they were. */
  lemma TdUpdateFollowsReward(w: seq<real>, r1: real, r2: real, cur: Snapshot, prev: Snapshot,
                              prevAction: Assignment, footman: int, epsilon: real, d: TdDraws)
    requires CanUpdate(w, cur, prev, prevAction, footman)
    requires r1 <= r2
    ensures var w1 := TdUpdate(w, r1, cur, prev, prevAction, footman, epsilon, d);
            var w2 := TdUpdate(w, r2, cur, prev, prevAction, footman, epsilon, d);
            forall i :: 0 <= i < |w| ==> w1[i] <= w2[i]
    ensures var settled := PreviousQ(w, prev, prevAction, footman, d)
                           - Gamma * NextQ(w, cur, prev, prevAction, footman, epsilon, d);
            TdUpdate(w, settled, cur, prev, prevAction, footman, epsilon, d) == w
  {
    var settled := PreviousQ(w, prev, prevAction, footman, d) - Gamma * NextQ(w, cur, prev, prevAction, footman, epsilon, d);
    var w' := TdUpdate(w, settled, cur, prev, prevAction, footman, epsilon, d);
    assert forall i :: 0 <= i < |w| ==> w'[i] == w[i];
  }

  // ---------------------------------------------------------------------------
  // The decision step

  /** The result of the reward-and-update loop over the previous footmen. */
  datatype LearnOutcome = LearnOutcome(weights: seq<real>, observed: Snapshot)

  /** The loop over the previous snapshot's footmen from position k on: the
      reward of each (which edits the current snapshot's locations), then, when
      training, its TD update on the weights the earlier footmen left. */
  function Learn(w: seq<real>, cur: Snapshot, prev: Snapshot, prevAction: Assignment, epsilon: real,
                 evaluation: bool, draws: nat -> TdDraws, k: nat): (out: LearnOutcome)
    requires k <= |prev.friends|
    requires |w| <= NumFeatures && Tracked(cur) && Tracked(prev)
    requires forall f :: f in prev.friends ==> f in prevAction && prevAction[f] in prev.enemies
    requires evaluation || k == |prev.friends| || cur.enemies != []
    ensures Tracked(out.observed)
    ensures out.observed.friends == cur.friends && out.observed.enemies == cur.enemies
    ensures out.observed.health == cur.health && out.observed.deadCount == cur.deadCount
    ensures |out.weights| == |w|
    ensures evaluation ==> out.weights == w
    // training: one TD update per footman, each uniform, so all weights move together
    ensures ShiftedUniformly(w, out.weights)
    decreases |prev.friends| - k
  {
    if k == |prev.friends| then LearnOutcome(w, cur)
    else
      var footman := prev.friends[k];
      var outcome := CalculateReward(cur, prev, prevAction, footman);
      var w' := if evaluation then w
                else TdUpdate(w, outcome.reward, outcome.observed, prev, prevAction, footman, epsilon, draws(k));
      Learn(w', outcome.observed, prev, prevAction, epsilon, evaluation, draws, k + 1)
  }

  /** The agent's state between steps. The first step of a game is the one
      where no previous snapshot is held. */
  datatype Agent = Agent(
    weights: seq<real>,
    epsilon: real,
    gameNumber: int,
    evaluation: bool,
    prev: Option<Snapshot>,
    prevAction: Assignment)

  /** What the agent keeps true between steps: the previous assignment gives
      every previous footman a previous enemy, and every listed unit is tracked. */
  ghost predicate Valid(a: Agent)
  {
    && |a.weights| <= NumFeatures
    && (a.prev.Some? ==>
          && Tracked(a.prev.value)
          && (forall f :: f in a.prevAction <==> f in a.prev.value.friends)
          && (forall f :: f in a.prevAction ==> a.prevAction[f] in a.prev.value.enemies))
  }

  /** The constructor: nine weights drawn in (-1, 1), epsilon at its initial
      value, game 1 in training mode, nothing observed yet. */
  function NewAgent(draws: nat -> Draw): (a: Agent)
    ensures Valid(a) && |a.weights| == NumFeatures
    ensures forall i :: 0 <= i < |a.weights| ==> -1.0 < a.weights[i] < 1.0
    ensures !a.evaluation
    ensures a.epsilon == InitialEpsilon && a.gameNumber == 1 && a.prev == None && a.prevAction == map[]
  {
    Agent(InitialWeights(draws), InitialEpsilon, 1, false, None, map[])
  }

  /** The draws a decision step consumes: one set per previous footman for its
      update, and one set per current footman for the re-selection. */
  datatype StepDraws = StepDraws(learn: nat -> TdDraws, select: nat -> UnitDraws)

  /** A step either yields the next agent and the attack commands (footman to
      target), or faults where the source throws: selecting a target with an
      empty enemy list. */
  datatype StepResult = Fault | Continue(agent: Agent, commands: Assignment)

  /** The rest of middleStep once an event is seen: reward and (when training)
      update for every previous footman, then a fresh selection on the snapshot
      the rewards left, which becomes the previous one. */
  function EventStep(a: Agent, cur: Snapshot, prev: Snapshot, draws: StepDraws): (r: StepResult)
    requires Valid(a) && a.prev == Some(prev) && Tracked(cur) && cur.deadCount == 0
    ensures r.Fault? <==> cur.enemies == [] && (cur.friends != [] || (!a.evaluation && prev.friends != []))
    ensures r.Continue? ==>
      var learned := Learn(a.weights, cur, prev, a.prevAction, a.epsilon, a.evaluation, draws.learn, 0);
      && Valid(r.agent)
      && r.agent == a.(weights := learned.weights, prev := Some(learned.observed), prevAction := r.commands)
      && r.commands == SelectAction(learned.observed, a.prevAction, learned.weights, a.epsilon, a.evaluation, draws.select)
      && ShiftedUniformly(a.weights, r.agent.weights)
      && (a.evaluation ==> r.agent.weights == a.weights)
      && learned.observed.friends == cur.friends && learned.observed.enemies == cur.enemies
      && learned.observed.health == cur.health && learned.observed.deadCount == 0
      && (forall f :: f in r.commands <==> f in cur.friends)
      && (forall f :: f in r.commands ==> r.commands[f] in cur.enemies)
  {
    if cur.enemies == [] && (cur.friends != [] || (!a.evaluation && prev.friends != [])) then Fault
    else
      var learned := Learn(a.weights, cur, prev, a.prevAction, a.epsilon, a.evaluation, draws.learn, 0);
      var action := SelectAction(learned.observed, a.prevAction, learned.weights, a.epsilon, a.evaluation, draws.select);
      Continue(a.(weights := learned.weights, prev := Some(learned.observed), prevAction := action), action)
  }

  /** middleStep, from the snapshot built out of the observed units on. */
  function MiddleStep(a: Agent, friends: seq<int>, enemies: seq<int>, health: map<int, int>,
                      locations: map<int, Pos>, draws: StepDraws): (r: StepResult)
    requires Valid(a)
    requires Tracked(NewSnapshot(friends, enemies, health, locations))
    requires a.prev.Some? ==> CanCompare(NewSnapshot(friends, enemies, health, locations), a.prev.value)
    // every step that continues keeps the agent valid and commands exactly the current footmen
    ensures r.Continue? ==> Valid(r.agent)
    ensures r.Continue? && (a.prev.None? || HasEvent(NewSnapshot(friends, enemies, health, locations), a.prev.value)) ==>
      && r.commands == r.agent.prevAction
      && (forall f :: f in r.commands <==> f in friends)
      && (forall f :: f in r.commands ==> r.commands[f] in enemies)
    ensures r.Continue? ==>
      r.agent.epsilon == a.epsilon && r.agent.gameNumber == a.gameNumber && r.agent.evaluation == a.evaluation
    // first step of a game: select, learn nothing
    ensures a.prev.None? ==> (r.Fault? <==> friends != [] && enemies == [])
    ensures a.prev.None? && r.Continue? ==>
      r.agent.weights == a.weights && r.agent.prev == Some(NewSnapshot(friends, enemies, health, locations))
    // later steps without an event: no commands, nothing changes
    ensures a.prev.Some? && !HasEvent(NewSnapshot(friends, enemies, health, locations), a.prev.value) ==>
      r == Continue(a, map[])
    // later steps with an event
    ensures a.prev.Some? && HasEvent(NewSnapshot(friends, enemies, health, locations), a.prev.value) ==>
      (r.Fault? <==> enemies == [] && (friends != [] || (!a.evaluation && a.prev.value.friends != [])))
    ensures a.prev.Some? && HasEvent(NewSnapshot(friends, enemies, health, locations), a.prev.value) && r.Continue? ==>
      && r.agent.prev.Some?
      && r.agent.prev.value.friends == friends && r.agent.prev.value.enemies == enemies
      && r.agent.prev.value.health == health && r.agent.prev.value.deadCount == 0
    // ... the weights are those the reward-and-update loop leaves, the stored snapshot is the one it
    // observed, and the commands are a fresh selection on both
    ensures a.prev.Some? && HasEvent(NewSnapshot(friends, enemies, health, locations), a.prev.value) && r.Continue? ==>
      var learned := Learn(a.weights, NewSnapshot(friends, enemies, health, locations), a.prev.value,
                           a.prevAction, a.epsilon, a.evaluation, draws.learn, 0);
      && r.agent.weights == learned.weights
      && r.agent.prev == Some(learned.observed)
      && ShiftedUniformly(a.weights, r.agent.weights)
      && r.commands == SelectAction(learned.observed, a.prevAction, learned.weights, a.epsilon, a.evaluation, draws.select)
    // the first step's commands are a selection on the new snapshot with the current weights
    ensures a.prev.None? && r.Continue? ==>
      r.commands == SelectAction(NewSnapshot(friends, enemies, health, locations), a.prevAction, a.weights,
                                 a.epsilon, a.evaluation, draws.select)
    // evaluation games never touch the weights
    ensures a.evaluation && r.Continue? ==> r.agent.weights == a.weights
  {
    var cur := NewSnapshot(friends, enemies, health, locations);
    match a.prev
    case None =>
      if friends != [] && enemies == [] then Fault
      else
        var action := SelectAction(cur, a.prevAction, a.weights, a.epsilon, a.evaluation, draws.select);
        Continue(a.(prev := Some(cur), prevAction := action), action)
    case Some(prev) =>
      if !HasEvent(cur, prev) then Continue(a, map[])
      else EventStep(a, cur, prev, draws)
  }

  /** initialStep: decide the game's mode from the schedule, forget the
      previous snapshot and assignment, then take a first decision step. */
  function InitialStep(a: Agent, friends: seq<int>, enemies: seq<int>, health: map<int, int>,
                       locations: map<int, Pos>, draws: StepDraws): (r: StepResult)
    requires |a.weights| <= NumFeatures
    requires Tracked(NewSnapshot(friends, enemies, health, locations))
    ensures r.Fault? <==> friends != [] && enemies == []
    ensures r.Continue? ==>
      && Valid(r.agent)
      && r.agent.evaluation == EvaluationMode(a.gameNumber)
      && r.agent.weights == a.weights && r.agent.epsilon == a.epsilon
      && r.agent.prev == Some(NewSnapshot(friends, enemies, health, locations))
      && r.agent.gameNumber == a.gameNumber
      && r.agent.prevAction == r.commands
      && r.commands == SelectAction(NewSnapshot(friends, enemies, health, locations), map[], a.weights,
                                    a.epsilon, EvaluationMode(a.gameNumber), draws.select)
      && (forall f :: f in r.commands <==> f in friends)
  {
    var reset := a.(evaluation := EvaluationMode(a.gameNumber), prev := None, prevAction := map[]);
    MiddleStep(reset, friends, enemies, health, locations, draws)
  }

  // ---------------------------------------------------------------------------
  // The episode schedule

  /** Java's % on int: the remainder takes the sign of the dividend. */
  function JavaRem(n: int, d: int): (r: int)
    requires d > 0
    ensures -d < r < d
    ensures n >= 0 ==> r >= 0
    ensures n <= 0 ==> r <= 0
    ensures JavaDiv(n, d) * d + r == n
  {
    if n >= 0 then n % d else -((-n) % d)
  }

  /** Java's / on int: the quotient is truncated toward zero. */
  function JavaDiv(n: int, d: int): int
    requires d > 0
  {
    if n >= 0 then n / d else -((-n) / d)
  }

  /** A game is an evaluation game when (gameNumber - 1) % 15 > 9. */
  predicate EvaluationMode(gameNumber: int)
  {
    JavaRem(gameNumber - 1, CycleLength) > 9
  }

  /** In every cycle of fifteen games the first ten train and the last five
      evaluate; game numbers of 0 or below (never reached) would train, which
      depends on Java's remainder keeping the dividend's sign. */
  lemma EvaluationSchedule(cycle: nat, k: int, g: int)
    requires 1 <= k <= CycleLength
    ensures EvaluationMode(CycleLength * cycle + k) <==> k > 10
    ensures g <= 0 ==> !EvaluationMode(g)
  {
    var n := CycleLength * cycle + k - 1;
    assert n == CycleLength * cycle + (k - 1);
    assert n % CycleLength == k - 1;
  }

  /** The decay applied at the end of each cycle: a negative epsilon is reset
      to 0, any other one drops by 0.002. */
  function DecayEpsilon(e: real): (e': real)
    ensures e < 0.0 ==> e' == 0.0
    ensures e >= 0.0 ==> e' < e
    ensures e >= -EpsilonStep ==> e' >= -EpsilonStep
  {
    if e < 0.0 then 0.0 else e - EpsilonStep
  }

  /** Epsilon after n decays. */
  function DecayTimes(e: real, n: nat): real
  {
    if n == 0 then e else DecayEpsilon(DecayTimes(e, n - 1))
  }

  /** From its initial 0.1, epsilon falls by 0.002 per cycle to exactly 0
      after 50 cycles, and from then on alternates between -0.002 and 0.
      This reads the step as exactly 0.002; the float literal widened to a
      double leaves a tiny negative epsilon after 50 cycles instead, so the
      program's alternation runs one cycle out of phase with this one.
      Exploration stops from cycle 50 on either way. */
  lemma {:induction false} EpsilonTrajectory(n: nat)
    ensures n <= 50 ==> DecayTimes(InitialEpsilon, n) == InitialEpsilon - EpsilonStep * (n as real)
    ensures n >= 50 ==> DecayTimes(InitialEpsilon, n) == if (n - 50) % 2 == 0 then 0.0 else -EpsilonStep
  {
    if n > 0 {
      EpsilonTrajectory(n - 1);
    }
  }

  /** How a game ends: either the run is over (the budget is reached), or the
      agent goes on to the next game. */
  datatype EpisodeEnd = RunOver | NextGame(agent: Agent)

  /** terminalStep: at the end of every cycle decay epsilon; stop once
      (gameNumber / 15) * 10 reaches the episode budget; otherwise count the game. */
  function TerminalStep(a: Agent, episodes: int): (r: EpisodeEnd)
    ensures r.RunOver? <==> JavaDiv(a.gameNumber, CycleLength) * 10 >= episodes
    ensures r.NextGame? ==>
      && r.agent == a.(epsilon := r.agent.epsilon, gameNumber := a.gameNumber + 1)
      && r.agent.gameNumber == a.gameNumber + 1
      && r.agent.weights == a.weights && r.agent.prev == a.prev && r.agent.prevAction == a.prevAction
      && (JavaRem(a.gameNumber, CycleLength) != 0 ==> r.agent.epsilon == a.epsilon)
      && (JavaRem(a.gameNumber, CycleLength) == 0 ==> r.agent.epsilon == DecayEpsilon(a.epsilon))
      && (a.epsilon >= -EpsilonStep ==> r.agent.epsilon >= -EpsilonStep)
  {
    var epsilon := if JavaRem(a.gameNumber, CycleLength) == 0 then DecayEpsilon(a.epsilon) else a.epsilon;
    if JavaDiv(a.gameNumber, CycleLength) * 10 >= episodes then RunOver
    else NextGame(a.(epsilon := epsilon, gameNumber := a.gameNumber + 1))
  }

  /** Epsilon decays only after an evaluation game: the last game of a cycle
      is always one. */
  lemma DecayFollowsEvaluation(g: int)
    requires g >= 1 && JavaRem(g, CycleLength) == 0
    ensures EvaluationMode(g)
  {
    EvaluationSchedule((g - 1) / CycleLength, CycleLength, 0);
    assert g == CycleLength * ((g - 1) / CycleLength) + CycleLength;
  }
}
