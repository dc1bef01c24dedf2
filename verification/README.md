# Q-learning footman agent — Dafny model

This project models the decision core of a Q-learning agent for the SEPIA
real-time strategy simulator. The agent controls a squad of friendly footmen
against enemy footmen. At every step it assigns each footman an enemy to
attack. It scores each (footman, enemy) pair with a linear Q-function over
nine hand-made features, chooses targets epsilon-greedily, and learns from a
per-footman reward through a temporal-difference (TD) update. Games come in
cycles of fifteen: ten training games, then five evaluation games with the
weights frozen. Epsilon decays at the end of each cycle.

The model is functional. Snapshots (`State`/`GameState`) are immutable
datatypes of id lists and maps. Weights are a `seq<real>`. An attack
assignment is a `map<int, int>` from footman to enemy. Every random draw is a
parameter: a `Draw` is a real strictly between 0 and 1.

Modules, one per file:

- `Geometry` (geometry.dfy): coordinates (`CoordPair` and `Pair`), adjacency, the distance as written, `isClosest`, `getAdjacentEnemyCount`.
- `Snapshots` (snapshots.dfy): the snapshot and its two constructors.
- `Randomness` (randomness.dfy): `randInt` over a draw.
- `LinearQ` (linearq.dfy): the dot product and the two weight-update rules.
- `FeatureExtraction` (features.dfy): the nine-feature vector.
- `Policy` (policy.dfy): epsilon-greedy `selectAction`.
- `Rewards` (rewards.dfy): `calculateReward` and `eventHasHappened`.
- `Learning` (learning.dfy): the TD update, `middleStep`, `initialStep` and the `terminalStep` schedule.

Behaviour of the code worth knowing:

- `chebyshevDistance` is the signed `max(p.x − q.x, p.y − q.y)` with no absolute value. It is not symmetric and can be negative, so `isClosest` does not pick the nearest enemy by true grid distance (`Geometry.SameCellNeedNotBeClosest`).
- The TD update in `RLAgent.java` scores the next state with the target that `selectAction` picks on the working copy, so exploration applies there too.
- `calculateReward` writes the target's previous location into the current snapshot (line 584). That edited snapshot is what `middleStep` stores and selects on, so it is threaded through the model.
- The snapshots `middleStep` compares are always built fresh, so their death counters are both 0. The "death counter rose" clause of the event gate never fires there. A footman that dies while no listed unit loses health is therefore not an event (`Rewards.FriendlyDeathAloneIsNoEvent`).

A step that would throw is modelled as `Fault`. This happens when a selection has footmen to assign but no enemies: `get(0)` or `randInt(0, -1)` would fail. The other throw, unboxing a missing previous health entry in the event test, is not modelled; it is excluded by a precondition.

## Model

| member | source | states |
|---|---|---|
| Geometry.SetX | src/edu/cwru/sepia/agent/CoordPair.java:23-25 | setX replaces x and keeps y |
| Geometry.SetY | src/edu/cwru/sepia/agent/CoordPair.java:27-29 | setY replaces y and keeps x |
| Geometry.Equals | src/edu/cwru/sepia/agent/CoordPair.java:63-74 | equals is true exactly for a coordinate object with the same x and y; false for null and for other classes |
| Geometry.EqualsIsEquivalence | src/edu/cwru/sepia/agent/CoordPair.java:63-74 | equals on coordinates is reflexive, symmetric and transitive |
| Geometry.AreAdjacent | src/edu/cwru/sepia/agent/CoordPair.java:46-57 | the 3×3 scan around p returns true iff \|p.x − q.x\| ≤ 1 and \|p.y − q.y\| ≤ 1 |
| Geometry.AdjacencyIsKingMove | src/edu/cwru/sepia/agent/State.java:105-116 | adjacency is king distance at most 1, so it is reflexive (same cell included) and symmetric |
| Geometry.ChebyshevAgainstKingDistance | src/edu/cwru/sepia/agent/State.java:74-78 | the distance as written is at most the king distance, the larger of its two directions equals it, and dist(p, p) = 0 |
| Geometry.ChebyshevIsSigned | src/edu/cwru/sepia/agent/GameState.java:94-98 | the distance as written is asymmetric and can be negative: concrete pairs give 0 vs 2, and −1 |
| Geometry.IsClosest | src/edu/cwru/sepia/agent/State.java:55-65 | isClosest is true iff no listed enemy is strictly nearer by the distance as written; true for an empty list |
| Geometry.SameCellNeedNotBeClosest | src/edu/cwru/sepia/agent/GameState.java:75-85 | for any footman position, an enemy on the footman's own cell is not "closest" when another enemy has larger x and y, however far away, and that far enemy is |
| Geometry.AdjacentEnemyCount | src/edu/cwru/sepia/agent/State.java:88-96 | the count lies in 0..\|enemies\|; it is 0 iff no listed enemy is adjacent, and \|enemies\| iff all are |
| Snapshots.NewSnapshot | src/edu/cwru/sepia/agent/State.java:16-21 | the constructor stores its four collections and starts the death counter at 0 |
| Snapshots.Copy | src/edu/cwru/sepia/agent/State.java:23-28 | the copy has equal lists and maps but a death counter of 0 |
| Snapshots.CopyLosesOnlyDeadCount | src/edu/cwru/sepia/agent/GameState.java:40-45 | a copy equals its original iff the original's counter is 0; otherwise it differs only in the counter; copying is idempotent |
| Randomness.RandInt | src/edu/cwru/sepia/agent/RLAgent.java:528-535 | randInt(min, max) lies in [min, max] |
| Randomness.RandIntPicks | src/edu/cwru/sepia/agent/RLAgent.java:532 | randInt yields min + k exactly when the draw falls in the k-th of the max − min + 1 equal slices, so each value is reachable |
| LinearQ.CalcQValue | src/edu/cwru/sepia/agent/RLAgent.java:348-356 | the loop computes the sum of w[i]·f[i] over i < \|w\| |
| LinearQ.DotOfBiasWeight | Features.java:39-47 | with weight 1 on the bias and 0 elsewhere the Q-value is f[0] |
| LinearQ.UniformUpdate | src/edu/cwru/sepia/agent/RLAgent.java:447-451 | the length is kept and every weight moves by the same α·δ, whatever f is |
| LinearQ.ZeroErrorKeepsWeights | src/edu/cwru/sepia/agent/RLAgent.java:447-451 | δ = 0 leaves the weights unchanged under both rules; the uniform rule ignores f |
| LinearQ.UniformUpdateShiftsQ | src/edu/cwru/sepia/agent/RLAgent.java:449 | after the uniform update, Q(f) moves by α·δ times the sum of the first \|w\| features |
| LinearQ.SemiGradientUpdate | Features.java:138-142 | the length is kept and weight i moves by α·δ·f[i] |
| LinearQ.SemiGradientSkipsZeroFeatures | Features.java:140 | a weight whose feature is 0 is unchanged |
| LinearQ.SemiGradientMovesQTowardTarget | Features.java:138-142 | after the semi-gradient update, Q(f) moves by α·δ·Σ f[i]², so with α > 0 it moves in the direction of δ |
| LinearQ.InitialWeights | src/edu/cwru/sepia/agent/RLAgent.java:136-141 | nine initial weights, each strictly between −1 and 1 |
| FeatureExtraction.Features | src/edu/cwru/sepia/agent/RLAgent.java:385-438 | nine features: bias 1, both healths, minus the other attackers on the enemy, the −0.01/0.02/0 flag with its cases, the health ratio, +0.3 iff no enemy is strictly nearer else −0.4, 0.03 iff adjacent else 0, and a threat term that is non-negative iff at most two enemies are adjacent |
| Policy.ExplorationGate | src/edu/cwru/sepia/agent/RLAgent.java:493 | evaluation mode or ε ≤ 0 never explores; ε ≥ 1 while training always explores |
| Policy.FirstArgMax | src/edu/cwru/sepia/agent/RLAgent.java:499-511 | the greedy scan returns a position of maximal Q that is strictly above every earlier position |
| Policy.FirstArgMaxIsUnique | src/edu/cwru/sepia/agent/RLAgent.java:506 | being maximal and strictly above all earlier positions determines the scan's result |
| Policy.Greedy | src/edu/cwru/sepia/agent/RLAgent.java:499-511 | the greedy target has Q ≥ every enemy's and is the first such in list order |
| Policy.ChooseTarget | src/edu/cwru/sepia/agent/RLAgent.java:493-512 | each footman gets a listed enemy |
| Policy.SelectAction | src/edu/cwru/sepia/agent/RLAgent.java:487-516 | the assignment's keys are exactly the snapshot's footmen and every target is a listed enemy |
| Policy.SelectActionIsEpsilonGreedy | src/edu/cwru/sepia/agent/RLAgent.java:491-513 | each footman gets the randInt-drawn enemy when not evaluating and the draw is ≥ 1 − ε, else the greedy enemy |
| Policy.ExploitOnlyIsGreedy | src/edu/cwru/sepia/agent/RLAgent.java:498-511 | in evaluation mode or with ε ≤ 0, every footman is sent at the first enemy of maximal Q |
| Rewards.CalculateReward | src/edu/cwru/sepia/agent/RLAgent.java:579-618 | reward = −0.1 − (100 if the footman is gone, else its lost health) + (100 if the target is gone, else its lost health) when adjacent to the target's previous cell; only locations change, as listed |
| Rewards.RewardIgnoresTargetMove | src/edu/cwru/sepia/agent/RLAgent.java:584-606 | where the target moved during the step does not change the reward |
| Rewards.RewardExamples | src/edu/cwru/sepia/agent/RLAgent.java:581-615 | the four worked cases give −3.1, 99.9, −100.1 and −0.1 |
| Rewards.EventHasHappened | src/edu/cwru/sepia/agent/RLAgent.java:460-478 | true iff the counter rose, the enemy list shrank, or a currently listed unit has strictly less health than before |
| Rewards.NoChangeNoEvent | src/edu/cwru/sepia/agent/RLAgent.java:467-477 | with nothing lost there is no event; a snapshot compared with itself has none |
| Rewards.FriendlyDeathAloneIsNoEvent | src/edu/cwru/sepia/agent/RLAgent.java:461-474 | for every pair of snapshots with both counters 0 and the same enemies, a footman that is listed before and gone now, with every listed unit's health unchanged, is not an event |
| Learning.WorkingCopy | src/edu/cwru/sepia/agent/RLAgent.java:546-556 | a listed footman gets a plain copy; a footman that is gone is appended with health 0 at its previous location and the copy's counter is 1 |
| Learning.TdUpdate | src/edu/cwru/sepia/agent/RLAgent.java:545-569 | every weight moves by α·(reward + γ·Q(s′, a′) − Q(s, a)), with a′ re-selected on the working copy |
| Learning.TdUpdateFollowsReward | src/edu/cwru/sepia/agent/RLAgent.java:565-568 | a larger reward never lowers a weight, and a reward equal to Q(s, a) − γ·Q(s′, a′) leaves the weights fixed |
| Learning.Learn | src/edu/cwru/sepia/agent/RLAgent.java:247-256 | the reward-and-update loop keeps the current lists, health and counter; weights are unchanged in evaluation mode, and while training all weights move by the same amount |
| Learning.NewAgent | src/edu/cwru/sepia/agent/RLAgent.java:112-145 | a new agent has nine weights, each strictly between −1 and 1, ε = 0.1, game 1 in training mode, no previous snapshot and an empty assignment |
| Learning.EventStep | src/edu/cwru/sepia/agent/RLAgent.java:245-272 | after an event: faults exactly when a selection would throw; otherwise the weights are those the reward-and-update loop leaves, the stored snapshot is the one it observed, and the commands are a fresh selection on both |
| Learning.MiddleStep | src/edu/cwru/sepia/agent/RLAgent.java:216-273 | the first step selects without learning; a later step with no event returns no commands and changes nothing; with an event the new weights are the reward-and-update loop's (all moved by the same amount), the stored snapshot is the one the loop observed, and the commands are a selection on them; commands cover exactly the current footmen; faults exactly where a selection would throw |
| Learning.InitialStep | src/edu/cwru/sepia/agent/RLAgent.java:179-193 | the game's mode comes from the schedule and the game number is kept; the previous snapshot and assignment are reset, so the commands are a selection on the new snapshot with an empty previous assignment, and that snapshot and those commands are stored; weights and ε are unchanged |
| Learning.JavaRem | src/edu/cwru/sepia/agent/RLAgent.java:181 | Java's remainder keeps the dividend's sign and satisfies quotient·d + remainder = n |
| Learning.EvaluationSchedule | src/edu/cwru/sepia/agent/RLAgent.java:181 | in each cycle of 15, games 11 to 15 evaluate and 1 to 10 train; game numbers ≤ 0 train |
| Learning.DecayEpsilon | src/edu/cwru/sepia/agent/RLAgent.java:318 | a negative ε resets to 0, any other one strictly drops, and ε ≥ −0.002 is kept |
| Learning.EpsilonTrajectory | src/edu/cwru/sepia/agent/RLAgent.java:317-318 | from 0.1, ε after n cycles is 0.1 − 0.002·n up to n = 50, then alternates 0 and −0.002 |
| Learning.TerminalStep | src/edu/cwru/sepia/agent/RLAgent.java:317-339 | ε decays only when gameNumber mod 15 is 0; the run ends iff (gameNumber / 15)·10 ≥ episodes; otherwise the game number rises by one and nothing else changes |
| Learning.DecayFollowsEvaluation | src/edu/cwru/sepia/agent/RLAgent.java:181 | every game after which ε decays is an evaluation game |

## Left out

- SEPIA glue: unit discovery, building the snapshot from the simulator's view, turning the assignment into attack commands, and win detection. The model starts from the id lists and maps and returns the assignment as the commands.
- Weight files, console output, the printed test table and the exit at the end of the run. `RunOver` stands for the exit.
- Argument parsing. The episode budget is a parameter, and loaded weights are any sequence of at most nine reals.
- Random number generation. Every draw is an argument, indexed by footman or enemy position instead of taken from one shared stream. A draw lies strictly between 0 and 1; a draw of 0 would divide by zero in feature 8.
- IEEE-754 behaviour. Doubles are reals, the `0.002f` float literal is 0.002, and there is no Infinity or NaN.
- Boxed `Integer` comparisons with `==` are modelled as value equality. This matches Java only for small cached ids.
- 32-bit overflow of ids, health, game numbers and coordinates. At `Integer.MAX_VALUE` the `x + 1` bound of the adjacency loops wraps, so a unit there is not adjacent even to itself, and the differences in the distance wrap too; `Geometry.AdjacencyIsKingMove` and `Geometry.ChebyshevDistance` use unbounded integers.
- Reward and average-reward bookkeeping that only feeds the printed output.
- `AttackAction` is a map; the `Pair` class is the same coordinate type as `CoordPair`.
- The four copies of adjacency, distance, `isClosest` and `getAdjacentEnemyCount` (and the two snapshot classes) are one definition each.
- Getters are the datatype's fields. A copy's later changes cannot reach the original because snapshots are values.
- The `Features` class's own constructor and `getFeatures`: they repeat `RLAgent`'s with `Math.random` draws and are modelled by the same members.
- Feature 8 depends on a draw, so its value is described by its sign only.
- Learning.MiddleStep: requires every current unit to have a health entry in both snapshots. Where one is missing, `eventHasHappened` unboxes null and throws; the model does not return `Fault` there. The precondition also excludes such inputs when the counter or enemy-list test would have returned true before any lookup.
- Rewards.EventHasHappened: has the same precondition, for the same reason. The null unboxing at `RLAgent.java:474` is not modelled, and neither is the early `true` that the code returns for such inputs.
- Learning.TdUpdate: states the weight change through the Q-values of the previous and next pairs, not a closed form, because the next pair's features depend on draws.
