# Moon lander, neuro-evolution trainer and Q-learning pong, in Dafny

This project models three pieces of a small reinforcement-learning repository.

- **`MoonLander`** (`lander.dfy`) models the lander environment of `MoonLander.cpp`.
  - The class `MoonLanderEnv` holds the environment's fields. `Reset` and `Step` overwrite them in place.
  - Each method is proved against a pure pipeline over the `Lander` value: `Accelerate`, `Integrate`, `Rotate`, `Contacts`, `Settle`, which together make `Transition`.
  - The lemmas cover the reward rule, the angle wrap, leg contact, the episode invariant, and the free-fall descent of a lander that never fires.
- **`Neat`** (`neat.dfy`) models the evolutionary trainer of `NEAT_Algorithm.cpp`.
  - The class `NeatNet` holds a network's four parameter tensors. `SetParams` replaces them, `Copy` clones them, and `Mutate` changes them in place.
  - Crossover is the element-wise mean of two parents.
  - A genome's fitness is its mean episode return over the environment.
  - Elite selection is an insertion sort of indices by fitness.
  - `Repopulate` is the population rebuild. `Run` is the generational loop.
- **`Pong`** (`pong.dfy`) models the tabular Q-learning game of `pong1.py`.
  - The class `MyEnv` holds the paddle and ball. Its `Reset` and `Step` are proved against `Start` and `PongStep`.
  - States are discretised into 20 bins per coordinate.
  - `QUpdate` changes one cell of the 20 x 20 x 20 x 20 x 20 x 2 table in place. `TrainEpisode` runs one training episode; the table it leaves is `Trained`, the table as a value updated along the episode's steps.

Every random draw arrives as an input:
- the pad centre;
- the uniform and normal draws of mutation;
- the parent indices;
- the pong reset positions and the actions chosen.

Sine and cosine of an angle in degrees arrive as the `Trig` pair of functions. The network's forward pass followed by the arg-max of its output arrives as a `Policy` from observations to actions.

Lander and trainer quantities are `real`. The pong positions are `int`, as in the source.

Quirks of the program that the model keeps:
- **Rebuild overshoot.** The rebuild loop re-reads the population size before it appends a child. A population that starts below the target therefore ends one above it (`NextSize`).
- **Returned network.** The final pick stores the index of the best final fitness in a new variable local to its branch. The network returned is therefore always the one at position 0, which is the top elite of the last generation (`FinalPick`, `Run`).
- **Order of the reward checks.** The floor check comes first and the bounds check then overrides it. A landing outside the field would therefore set both `landed` and `crashed` (`TransitionReward`). With the pad inside the field this never happens (`LandingIsInBounds`).
- **No reachable landing.** The +1000 branch never fires from a state above the floor (`NoLandingFromAboveFloor`).
  - A gentle step moves down by less than 2, so the lander ends more than 28 above the field's bottom edge.
  - The lander's rectangle overlaps the pad, whose top is 10 above the bottom, only when its centre is less than 25 above the bottom.
  - The reset leaves the lander above the floor on every field taller than 80. Every step that does not end the episode leaves it above the floor again.
  - So every episode returns at most -1 and every fitness is at most -1 (`EpisodeReturnWithoutLanding`, `FitnessWithoutLanding`). The soft landing the reward rule pays for is never reached, and the ceiling of 1000 in `FitnessBounds` is never attained.
- **The angle 360.** After the wrap the angle can be exactly 360, when a negative angle is a whole number of turns (`WrapAngleSameAngle`). From any reachable state the angle stays in [0, 360) (`TransitionPreservesInvariant`).

## Model

| member | source | states |
|---|---|---|
| MoonLander.Start | MoonLander.cpp:38-53 | the reset state satisfies the episode invariant, with all contact and terminal flags clear |
| MoonLander.FMod360 | MoonLander.cpp:81-82 | `fmod(a, 360)` lies in [0, 360) and is at most `a` |
| MoonLander.FMod360SameAngle | MoonLander.cpp:81-82 | `fmod(a, 360)` denotes the same direction as `a`, and is 0 exactly for whole turns |
| MoonLander.WrapAngle | MoonLander.cpp:79-85 | the wrapped angle lies in [0, 360] |
| MoonLander.WrapAngleSameAngle | MoonLander.cpp:81-85 | the wrap never changes the direction; it gives 360 exactly when the angle is a negative whole number of turns |
| MoonLander.WrapWithinOneTurn | MoonLander.cpp:79-85 | from [0, 360), a turn of less than a full circle wraps by at most one 360 and stays below 360 |
| MoonLander.Accelerate | MoonLander.cpp:59-72 | the frame counts up by one; action 1 adds thrust along the angle to both velocities; actions 2 and 3 change the angular velocity by +2 and -2; gravity adds 0.08 to the vertical velocity; nothing else changes |
| MoonLander.Integrate | MoonLander.cpp:75-76 | only the position changes, by the current velocity |
| MoonLander.Rotate | MoonLander.cpp:79-86 | only the angle and the angular velocity change; the new angle lies in [0, 360] and the angular velocity is damped by 0.9 |
| MoonLander.Intersects | MoonLander.cpp:113 | two rectangles intersect exactly when both have positive size and their spans overlap strictly on both axes |
| MoonLander.Contacts | MoonLander.cpp:89-110 | only the two leg flags change |
| MoonLander.Settle | MoonLander.cpp:112-134 | only the crashed and landed flags change |
| MoonLander.Transition | MoonLander.cpp:56-134 | the frame counts up by one; thrust resolves through sin and cos of the angle; gravity is added; position integrates the new velocity; the angle is wrapped; the angular velocity is damped by 0.9; the pad does not move |
| MoonLander.TransitionReward | MoonLander.cpp:56-134 | the reward is -1, -100 or +1000; it is -1 exactly when the step does not end the episode, which is exactly when the lander is above the floor and inside the field; leaving the field always crashes; +1000 exactly for a gentle touchdown on the pad inside the field; the terminal flags are only ever set |
| MoonLander.LegsWithinPad | MoonLander.cpp:101-110 | with both legs in contact, the lander's rectangle lies horizontally within the pad |
| MoonLander.TransitionPreservesInvariant | MoonLander.cpp:79-86 | every step keeps the angle in [0, 360) and the angular velocity within 18 |
| MoonLander.NoLandingFromAboveFloor | MoonLander.cpp:112-127 | from a reachable state above the floor, a step never pays +1000: its reward is -1 or -100, and the landed flag is unchanged |
| MoonLander.LandingIsInBounds | MoonLander.cpp:112-134 | from a reachable state, +1000 is paid exactly for a gentle touchdown on the pad, because the bounds check never overrides a landing |
| MoonLander.Observe | MoonLander.cpp:204-215 | there are 8 observation entries, and the two leg entries are exactly 1 or 0 as the flags say |
| MoonLander.ObserveScales | MoonLander.cpp:204-215 | the other entries are the position over the field size, the velocities and the angular velocity over 5, and the angle over 180 |
| MoonLander.FreeFall | MoonLander.cpp:62-86 | after n idle steps from the start the lander is centred and level and has fallen 0.08 n(n+1)/2; no terminal flag is set while it is above the floor |
| MoonLander.IdleStepIsPenalty | MoonLander.cpp:112-134 | on the 600 x 400 field, each of the first 88 idle steps costs -1 and does not end the episode |
| MoonLander.FallingStep | MoonLander.cpp:56-134 | from free fall on the 600 x 400 field before step 89, an idle step costs -1, does not end the episode, and continues the fall |
| MoonLander.FastDescentCrashes | MoonLander.cpp:112-127 | step 89 of free fall reaches the floor at 7.12 per step, too fast, and crashes with -100 |
| MoonLander.IdleDescentCrashes | MoonLander.cpp:112-127 | on the 600 x 400 field, idle step 89 reaches the floor too fast and crashes with -100, wherever the pad is |
| MoonLander.MoonLanderEnv.constructor | MoonLander.cpp:12-28 | the field size is stored and the environment is reset |
| MoonLander.MoonLanderEnv.CopyOf | MoonLander.cpp:181-196 | the member-wise copy has the same field size and state |
| MoonLander.MoonLanderEnv.Reset | MoonLander.cpp:38-53 | every field takes its start value, the pad centre is the draw, and the observation of the new state is returned |
| MoonLander.MoonLanderEnv.Step | MoonLander.cpp:56-141 | the new state, reward and done flag are those of `Transition`; the invariant is kept; the observation of the new state is returned |
| MoonLander.MoonLanderEnv.ApplyAction | MoonLander.cpp:57-72 | the frame counter, the action's velocity change and gravity, as `Accelerate` |
| MoonLander.MoonLanderEnv.MoveBody | MoonLander.cpp:75-76 | the position update, as `Integrate` |
| MoonLander.MoonLanderEnv.TurnAndDamp | MoonLander.cpp:79-86 | the angle update, wrap and damping, as `Rotate` |
| MoonLander.MoonLanderEnv.UpdateLegContacts | MoonLander.cpp:89-110 | the recomputed leg flags, as `Contacts` |
| MoonLander.MoonLanderEnv.SettleReward | MoonLander.cpp:112-134 | the reward, done flag and terminal flags, as `Settle` |
| Neat.Mean | NEAT_Algorithm.cpp:95-98 | the mean has the parents' shape, and each entry lies between the parents' entries, equally far from both |
| Neat.Crossover | NEAT_Algorithm.cpp:93-101 | the child has the parents' shapes |
| Neat.MeanOfSelf | NEAT_Algorithm.cpp:95-98 | the mean of a matrix with itself is that matrix |
| Neat.MeanCommutes | NEAT_Algorithm.cpp:95-98 | the mean does not depend on the order of the operands |
| Neat.CrossoverOfSelf | NEAT_Algorithm.cpp:93-101 | crossing a network with itself gives back its parameters exactly |
| Neat.CrossoverCommutes | NEAT_Algorithm.cpp:93-101 | crossover does not depend on the order of the parents |
| Neat.Mutated | NEAT_Algorithm.cpp:62-82 | mutation keeps the shape; an entry whose uniform draw is below the rate gains its normal draw, and every other entry is unchanged |
| Neat.MutatedParams | NEAT_Algorithm.cpp:84-89 | mutating all four tensors keeps every shape |
| Neat.MutatedAtZeroRate | NEAT_Algorithm.cpp:73-79 | at rate 0 a matrix is unchanged |
| Neat.MutationAtZeroRate | NEAT_Algorithm.cpp:84-89 | at rate 0 the parameters are exactly unchanged |
| Neat.MutationAtFullRate | NEAT_Algorithm.cpp:75-76 | at rate 1 every entry with a non-zero normal draw changes |
| Neat.NeatNet.constructor | NEAT_Algorithm.cpp:17-23 | the sizes are stored, the tensors are the given fill, and their shapes match the sizes |
| Neat.NeatNet.GetParams | NEAT_Algorithm.cpp:45-47 | the bundle holds the network's four tensors |
| Neat.NeatNet.SetParams | NEAT_Algorithm.cpp:49-54 | the four tensors are replaced together and the sizes are unchanged |
| Neat.NeatNet.Copy | NEAT_Algorithm.cpp:56-60 | the copy is a fresh object with the same sizes and parameters, and it is well-shaped when the original is |
| Neat.NeatNet.MutateArray | NEAT_Algorithm.cpp:62-82 | the loop over rows and columns computes `Mutated` |
| Neat.NeatNet.Mutate | NEAT_Algorithm.cpp:84-89 | the parameters become `MutatedParams` of the old parameters; sizes and validity are kept |
| Neat.EpisodeReturn | NEAT_Algorithm.cpp:107-121 | the return of an episode with no steps left is 0 |
| Neat.EpisodeReturnStep | NEAT_Algorithm.cpp:107-121 | an episode's return is its first step's reward, plus, unless that step ends the episode, the return from the next state with one step fewer |
| Neat.TotalReturn | NEAT_Algorithm.cpp:105-122 | the total over no episodes is 0 |
| Neat.TotalReturnStep | NEAT_Algorithm.cpp:105-122 | the total over i+1 episodes adds episode i's return, run from the reset with pad draw i and 1000 steps, to the total over the first i |
| Neat.Fitness | NEAT_Algorithm.cpp:104-124 | the fitness is the total return divided by the number of episodes |
| Neat.EpisodeReturnBounds | NEAT_Algorithm.cpp:107-121 | an episode of at most `budget` steps earns between -budget - 99 and +1000 |
| Neat.TotalReturnBounds | NEAT_Algorithm.cpp:105-122 | the summed returns of n episodes lie in [-1099 n, 1000 n] |
| Neat.FitnessBounds | NEAT_Algorithm.cpp:104-124 | every fitness lies in [-1099, 1000] |
| Neat.EpisodeReturnWithoutLanding | NEAT_Algorithm.cpp:107-121 | from a reachable state above the floor, an episode of at least one step returns at most -1 |
| Neat.TotalReturnWithoutLanding | NEAT_Algorithm.cpp:105-122 | on a field taller than 80, n episodes from the reset return at most -n in total |
| Neat.FitnessWithoutLanding | NEAT_Algorithm.cpp:104-124 | on a field taller than 80, every fitness is at most -1 |
| Neat.FallingEpisodeReturn | NEAT_Algorithm.cpp:109-121 | on the 600 x 400 field, a policy that always picks 0, k steps into the fall, earns -1 for each of the 88 - k steps left before the crash, plus the crash's -100 |
| Neat.IdleEpisodeReturn | NEAT_Algorithm.cpp:107-121 | from the reset, such a policy's episode returns -188 |
| Neat.IdleTotalReturn | NEAT_Algorithm.cpp:105-122 | for such a policy each episode returns -188 |
| Neat.IdleFitness | NEAT_Algorithm.cpp:104-124 | the fitness of such a policy over three episodes is -188 |
| Neat.RunEpisode | NEAT_Algorithm.cpp:107-121 | one reset and the step loop, stopping once done or after 1000 steps, return `EpisodeReturn` of the reset state; the environment stays valid |
| Neat.Evaluate | NEAT_Algorithm.cpp:104-124 | the nested episode and step loops on a copy of the environment compute `Fitness`, the mean episode return |
| Neat.Iota | NEAT_Algorithm.cpp:128-129 | the list 0, 1, ..., n-1 |
| Neat.InsertByFitness | NEAT_Algorithm.cpp:132-135 | one insertion pass keeps the indices a permutation and extends the fittest-first prefix by one |
| Neat.SortByFitness | NEAT_Algorithm.cpp:128-135 | the index list 0..n-1, insertion-sorted, is a permutation of the indices in non-increasing fitness order |
| Neat.PrefixIsElite | NEAT_Algorithm.cpp:138-141 | in an index list sorted fittest first, no index past a prefix is fitter than any index inside it |
| Neat.GetEliteIndices | NEAT_Algorithm.cpp:126-144 | `EliteIndices`: min(eliteNum, n) distinct valid indices with non-increasing fitness, none less fit than any index left out |
| Neat.TopEliteIsFittest | NEAT_Algorithm.cpp:126-144 | the first elite index holds the largest fitness overall |
| Neat.ArgMax | NEAT_Algorithm.cpp:239-241 | the position of the first largest entry |
| Neat.Truncate | NEAT_Algorithm.cpp:187 | conversion to int rounds toward zero: the result has the sign of the value and is less than 1 away from it, never further from zero |
| Neat.EliteCount | NEAT_Algorithm.cpp:187 | the elite count is at least 1 |
| Neat.EliteCountWithinPopulation | NEAT_Algorithm.cpp:187 | for a fraction in [0, 1] the elite count is max(1, floor(fraction * size)), and it is at most the population size |
| Neat.NextSize | NEAT_Algorithm.cpp:202-225 | the rebuilt size is one above the target when the elites fall short of it, and the elite count otherwise |
| Neat.Child | NEAT_Algorithm.cpp:218-225 | the child of two elites has the genome shape |
| Neat.Repopulate | NEAT_Algorithm.cpp:194-227 | the rebuilt population starts with the elites in rank order; every later member is the child of its breed draws; all have the genome shape; its size is `NextSize`, one above the target when the elites fall short |
| Neat.BredAreGenomes | NEAT_Algorithm.cpp:194-227 | elites and children alike have the genome shape |
| Neat.Breed | NEAT_Algorithm.cpp:218-225 | a new network holding the parents' crossover, then mutated in place, yields `Child` |
| Neat.EvaluateAll | NEAT_Algorithm.cpp:161-165 | one fitness per member, in order, each the member's `Fitness` |
| Neat.SelectElites | NEAT_Algorithm.cpp:187-192 | the elites are the members at the elite indices, in rank order, so min(eliteNum, n) members of the genome shape; the first has the largest fitness |
| Neat.NextGeneration | NEAT_Algorithm.cpp:160-228 | the next population has size `NextSize` and the genome shape; it starts with all the elites of the evaluated population, in rank order, so its first member is the fittest; every later member is the `Child` of those elites (returned as `elites`) and its breed draws |
| Neat.FinalPick | NEAT_Algorithm.cpp:230-246 | the network returned is the one at position 0, whatever the final fitnesses |
| Neat.Run | NEAT_Algorithm.cpp:149-247 | with no generations, the result is the first initial network; otherwise it is the fittest member of the last evaluated generation, at the head of a population of size `NextSize` |
| Pong.Observation | pong1.py:88 | the observation has five entries |
| Pong.Start | pong1.py:48-52 | the reset puts the paddle at the drawn column of row 350 and the ball at the drawn column of row 0, both inside the court, and keeps the velocity; with speeds of 5 the invariant holds |
| Pong.MovePaddle | pong1.py:72-75 | the paddle stays in [0, 400] and moves at most 10; action 0 never moves it right and action 1 never left, by exactly 10 away from the walls and onto the wall within 10 of it; other actions leave it |
| Pong.Reflect | pong1.py:81-86 | positions are unchanged and speeds are kept; a side wall flips the horizontal velocity; the vertical velocity flips when exactly one of the wall test and the paddle test holds |
| Pong.Advance | pong1.py:71-86 | the paddle follows `MovePaddle`; the ball moves by the old velocity; both speeds are kept |
| Pong.GetReward | pong1.py:61-69 | the reward is 100, 0 or -100; it is 100 exactly when the ball is within 25 across and 5 rows of the paddle; it is -100 exactly when the ball is more than 10 below the paddle row |
| Pong.PongStep | pong1.py:71-96 | the episode ends exactly when the ball is below row 395 |
| Pong.StepPreservesInvariant | pong1.py:71-86 | every step keeps the paddle in [0, 400] on row 350 and both ball speeds at 5 |
| Pong.MyEnv.constructor | pong1.py:42-46 | the velocity starts at (5, 5), before any reset |
| Pong.MyEnv.Reset | pong1.py:48-52 | the state is `Start` of the draws, and the returned list is its observation |
| Pong.MyEnv.Step | pong1.py:71-96 | the new state, reward and done flag are those of `PongStep`; the invariant is kept; the returned list is the new observation |
| Pong.MyEnv.ApplyAction | pong1.py:72-75 | only the paddle moves, as `MovePaddle` |
| Pong.MyEnv.MoveBall | pong1.py:78-86 | the ball moves by its velocity, then the reflections apply, as `Reflect` |
| Pong.LinPoint | pong1.py:99 | point 0 is `start` and point num-1 is `stop` |
| Pong.LinPointMonotone | pong1.py:99 | with start <= stop, a later point is never smaller |
| Pong.Linspace | pong1.py:99 | `num` points, the first `start` and the last `stop` |
| Pong.LinspaceAscending | pong1.py:99-104 | with start <= stop the points ascend |
| Pong.CreateBins | pong1.py:98-105 | five edge lists of 19 points each, from 0 to 400 |
| Pong.BinsAscending | pong1.py:98-105 | every edge list ascends |
| Pong.Digitize | pong1.py:110-114 | the bin index is at most the number of edges |
| Pong.DigitizeBrackets | pong1.py:110-114 | over ascending edges, index i satisfies edges[i-1] <= v < edges[i] |
| Pong.DigitizeMonotone | pong1.py:110-114 | a larger value never gets a lower bin |
| Pong.DiscretizeState | pong1.py:107-124 | every index of the cell lies in [0, 19] |
| Pong.ClampBin | pong1.py:116-120 | the clamped index lies in [0, 19]; an index already there is kept, a negative one becomes 0 and a larger one becomes 19 |
| Pong.ClampIsIdentity | pong1.py:116-120 | the clamp to [0, 19] never changes a digitised index |
| Pong.DiscretizeMonotone | pong1.py:107-124 | each index grows with its coordinate |
| Pong.Learned | pong1.py:182 | the learned value is the convex combination (1 - 0.08) current + 0.08 (reward + 0.9 max future) |
| Pong.LearnedBetween | pong1.py:182 | the learned value lies between the current value and the target |
| Pong.LearnedWithinBound | pong1.py:180-182 | with rewards within 100, values within 1000 stay within 1000 |
| Pong.QUpdate | pong1.py:180-182 | the chosen cell takes the learned value from the old current value and the old best value of the next cell; no other cell changes; as a value, the new table is `Update` of the old; a bounded table stays bounded |
| Pong.EpisodeRewards | pong1.py:173-185 | an episode with no steps left earns 0, and one whose first step ends it earns that step's reward alone |
| Pong.EpisodeRewardsStep | pong1.py:173-185 | an episode's rewards are its first step's reward, plus, unless that step ends the episode, the rewards from the next state with one step fewer |
| Pong.EpisodeRewardsBounds | pong1.py:176-183 | an episode of at most n steps earns between -100 n and 100 n |
| Pong.TrainStep | pong1.py:176-182 | the environment steps as `PongStep`, the new cell is the discretised observation, the left cell's value for the action becomes the learned value from the old values of that cell and the new cell, every other cell keeps its value, and a bounded table stays bounded |
| Pong.Update | pong1.py:180-182 | the table as a value after one update still holds a value for every cell |
| Pong.Trained | pong1.py:173-185 | the table after an episode holds a value for every cell; with no steps left it is the table before |
| Pong.TrainedStep | pong1.py:173-185 | one step of an episode updates the cell it left, then the episode continues from the new court unless the step ended it |
| Pong.TrainedWithinBound | pong1.py:173-185 | an episode keeps every value of the table within 1000 of zero |
| Pong.LastCourt | pong1.py:173-176 | the court an episode ends in: the start court with no steps left, the court of the step that ends it |
| Pong.LastCourtKeepsInvariant | pong1.py:48-52 | the court an episode ends in keeps the paddle inside the court and the ball at speed 5 on each axis, which the next reset carries over |
| Pong.TrainEpisode | pong1.py:163-185 | one episode runs at most 999 steps and stops once done; it returns the summed rewards `EpisodeRewards` of the reset state, ends in `LastCourt` of it, and leaves the table at `Trained` of the table before |

## Left out

- Rendering, window events, sleeping and frame pacing (`render`, the pygame drawing and event loop) are left out. They do not affect simulation or learning.
- Random number generation is not modelled. Every draw is an input: the pad centre, the initial weights, the mutation draws, the parent indices, the pong reset positions and the actions. The contracts require the pad centre in [40, width - 40], the parent indices below the elite count, the pong reset columns in [0, 400] and the actions in {0, 1}. The initial weights and the uniform mutation draws are left unconstrained: the contracts hold for any values, the [0, 1) of `randu` included. Only `MutatedAtZeroRate`, `MutationAtZeroRate` and `MutationAtFullRate` require the uniform draws to lie in [0, 1).
- Sine and cosine are not computed. They arrive as the `Trig` pair of functions.
- IEEE floating-point rounding is not modelled. Reals are exact, so `linspace`, the mutation rate `0.1f` and the Q-update are exact rational arithmetic.
- The network's forward pass (`ReLU`, `softmax`, the matrix products) and the arg-max of its output are abstracted into the `Policy` function. `ReLU`, `softmax` and `forward` are left out, and `Evaluate` takes the policy as a parameter.
- Neat.Run: the per-generation best fitness, the average fitness and their printed line are diagnostics and are left out. So is the per-generation `index`, which is shadowed like the final one. The average divides an uninitialised variable and has no defined value.
- `main`, the saving and loading of the Q-table, and the pong `training` function's epoch loop, key and wheel handling, and epsilon decay are left out. `TrainEpisode` models one episode of that loop.
- `choose_action`, the epsilon-greedy choice, is left out because it depends on a random draw. `TrainEpisode` receives the chosen actions as `actions`, so the model does not capture how the choice depends on the table.
- The pong `threshold` field only appears in a window caption and is not modelled.
- `sf::FloatRect` is not part of this model. `Intersects` states the overlap test on rectangles of positive size.
- Fields of non-positive height or of width below 80 (too narrow for the pad-centre range) are excluded by `ValidConfig`.
- The `horizontal_thrust` constant is never used by the source and is not modelled.
- Neat.Run: requires a population size of at least 1. With a size of 0 or less the source reads position 0 of an empty population, which has no defined result.
- Neat.NeatNet.Copy: the random fill drawn by the copied network's constructor is overwritten at once, so the model builds the copy from zeros.
- Neat.Mutated: the mutation strength is folded into the normal draws. The model does not state that they are normally distributed with standard deviation 0.5.
- Neat.Evaluate: the environment is copied per call, as the by-value parameter is. In the source the copy includes the environment's random engine (MoonLander.cpp:201), and the trainer never advances its own engine, so every evaluation replays the same three pad centres. The model's pad schedule, indexed by generation and member, allows any draws and so covers that case.
- Neat.IdleFitness is stated for the default three episodes only.
- Neat.GetEliteIndices: the model sorts by insertion, which is stable. The contract does not fix the order of equal fitnesses, which the source's `std::sort` leaves unspecified.
- Pong.MyEnv.Step: calling `step` before `reset` fails in the source because the positions are unset. The model requires a prior `Reset`.
