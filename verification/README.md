# JoeBot decision rules in Dafny

JoeBot is a scripted Protoss bot for StarCraft II. Each simulation tick it
makes a few rule-based decisions and issues commands through the
game-control library. This project models the bot's own decision layer.
Everything the library answers (unit counts, readiness, idle buildings,
`can_afford`, `already_pending`, known enemies) becomes plain input. Every
random draw becomes a parameter restricted to its `randrange` range.

- `game.dfy` (`Game`): unit types, commands and the per-tick `Census` of
  library answers. It also holds the loop shared by `build_workers` and
  `build_offensive_force`, which gives a train order at each idle ready
  building where the unit is affordable when the loop reaches it.
- `economy.dfy` (`Economy`): the gates of `build_workers`, `build_pylons` and
  `expand`.
- `military.dfy` (`Military`): the tech-building cascade of
  `offensive_force_buildings` and the unit production of
  `build_offensive_force`.
- `intel.dfy` (`Intel`): the arithmetic of the five stat bars drawn by
  `intel`, which is real division, clamping and `int()` truncation toward
  zero.
- `scouting.dfy` (`Scouting`): `random_location_variance`, which jitters and
  clamps the scout's destination.
- `attack.dfy` (`Attack`): `attack` as a pure state machine, `AttackStep`,
  over the tick counter, the cooldown deadline and the `train_data` log. It
  also has `Run`, a sequence of ticks, and the lemmas about runs.
- `bot.dfy` (`Bot`): the `JoeBot` class with fields `iteration`,
  `doSomethingAfter`, `trainData`, `flipped` and `startTimestamp`. Its
  methods `Attack` and `Step` are proved against `AttackStep`. `Attack`
  builds the one-hot label on an array, as the source does with numpy.
  `OnStart` and `OnEnd` model the episode start and end.

Some behaviours of the code are easy to misread. The model keeps each as
written:

- `attack` appends a one-hot sample on every tick that passes the cooldown
  check with an idle void ray. This includes choice 0 and choices 1 and 2
  when no target was found.
- The plausible-supply bar (`supply_cap / 200`) is not clamped to 1.0. Its
  bar runs past 50 pixels once the cap reaches 204.
- The gateway check is `<= 1`, so a second gateway can be ordered.
- With known enemy units but no own nexus, choice 1 calls `random.choice`
  on an empty list, which raises `IndexError`. The model keeps this as the
  decision `Raised`, which leaves the state unchanged.

## Model

| member | source | states |
|---|---|---|
| `Game.TrainAtEach` | tutorial.py:207-209 | the loop gives exactly the orders of `Trained`: a train order at each idle ready building where the unit was affordable when the loop reached it, in order. It gives none when the tick's limits fail |
| `Game.TrainedWhereAffordable` | tutorial.py:207-209 | every order of a train loop comes from a building where the unit was affordable at that point, and every such building gets its order |
| `Game.TrainedEveryBuilding` | tutorial.py:207-209 | when the unit is affordable at every building, every idle building gets one order |
| `Game.TrainedFirstBuildings` | tutorial.py:207-209 | when the answers only turn from yes to no (money spent within the loop is not regained), the orders go to the first buildings visited, one each, in order |
| `Economy.WorkerOrders` | tutorial.py:202-209 | probes are ordered only when `nexus*16 > probes` and `probes < 60`. Then each probe comes from an idle ready nexus where a probe was affordable when the loop reached it, every such nexus gets one, and the count is the number of such nexuses |
| `Economy.BuildWorkers` | tutorial.py:202-209 | the method (limit check, then loop) gives exactly the orders of `WorkerOrders` |
| `Economy.WorkerOvershootBounded` | tutorial.py:204-209 | one tick can push the probe count past either limit, but by less than one probe per idle nexus |
| `Economy.PylonOrder` | tutorial.py:211-218 | a pylon near the first ready nexus is ordered if and only if `supply_left < 5`, no pylon is pending, a ready nexus exists and a pylon is affordable |
| `Economy.ExpandOrder` | tutorial.py:237-242 | expansion happens if and only if `165 * nexuses < iteration` (the real comparison `nexuses < iteration/165` restated in whole numbers) and a nexus is affordable |
| `Economy.ExpansionMonotoneInTime` | tutorial.py:240-242 | an expansion allowed at one tick is still allowed at any later tick with the same census |
| `Military.TechOrders` | tutorial.py:244-277 | nothing is built without a ready pylon; at most four orders per tick |
| `Military.TechOrdersDistinct` | tutorial.py:244-277 | every order is a build of a core, gateway, robotics facility or stargate near a random ready pylon, and no structure is ordered twice in one tick |
| `Military.CoreOrderedIff` | tutorial.py:251-256 | a cybernetics core is ordered if and only if a pylon and a gateway are ready, no core exists or is pending, and one is affordable |
| `Military.GatewayOrderedIff` | tutorial.py:261-264 | a gateway is ordered if and only if a pylon is ready, at most one gateway exists (so two at most with the new one), none is pending and one is affordable |
| `Military.RoboticsOrderedIff` | tutorial.py:267-272 | a robotics facility is ordered if and only if a pylon and a core are ready, none exists or is pending, and one is affordable |
| `Military.StargateOrderedIff` | tutorial.py:267-277 | a stargate is ordered if and only if a pylon and a core are ready, `165 * stargates < iteration` (the real comparison with `iteration/165` in whole numbers), none is pending and one is affordable |
| `Military.ForceOrders` | tutorial.py:279-293 | only stalkers and void rays are trained, all stalkers before any void ray. A stalker order needs `stalkers <= void rays`, free supply and a ready core, and comes from an idle gateway where a stalker was affordable when the loop reached it. A void ray order needs free supply and comes from an idle stargate where a void ray was affordable. When these limits hold, every such gateway and stargate gets its unit. The count is exact |
| `Military.BuildOffensiveForce` | tutorial.py:279-293 | the two loops give exactly the orders of `ForceOrders` |
| `Intel.Trunc` | tutorial.py:153-157 | `int()` drops the fraction toward zero: within 1 below a positive value and within 1 above a negative one |
| `Intel.AtMostOne` | tutorial.py:131-132 | the clamp gives at most 1.0, leaves ratios up to 1.0 unchanged, and turns larger ones into 1.0 |
| `Intel.BarEnd` | tutorial.py:153-157 | a ratio of at most 1.0 gives a bar end of at most 50; a non-negative ratio gives a non-negative end; 1.0 gives exactly 50 |
| `Intel.ResourceRatio` | tutorial.py:130-136 | the mineral/vespene ratio is in [0, 1]; it is 1.0 exactly from 1500 on, and below that it is the amount over 1500 |
| `Intel.PopulationRatio` | tutorial.py:138-140 | `supply_left / supply_cap`, capped at 1.0; it is exact and non-negative when `0 <= left <= cap`, and exact (negative) when supply is over-used; the cap must be non-zero |
| `Intel.PlausibleSupply` | tutorial.py:142 | the supply cap over 200, not clamped |
| `Intel.MilitaryWeight` | tutorial.py:144-151 | the weight is at most 1.0, and exactly 1.0 when `supply_cap == supply_left`. With supply in use it is non-negative, and it is 1.0 exactly when void rays are at least the supply in use; below that it is exactly void rays over the supply in use (e.g. 1 void ray with 4 supply in use gives 0.25). With `supply_left` above the cap it is that same (negative) quotient |
| `Intel.StatBars` | tutorial.py:128-157 | there are no bars exactly when the supply cap is zero (ZeroDivisionError). Otherwise the mineral and vespene bars lie in [0, 50], the population and military bars are at most 50, and they are non-negative when supply is within the cap |
| `Intel.ResourceBarFormula` | tutorial.py:130-157 | the mineral/vespene bar end is `amount / 30` in whole numbers, and 50 from 1500 on; 3000 minerals give a full bar |
| `Intel.PlausibleBarFormula` | tutorial.py:142-154 | the plausible-supply bar end is `supply_cap / 4`, and it passes 50 exactly when the cap reaches 204 |
| `Scouting.Jittered` | tutorial.py:172-173 | adding k/100 of a coordinate to it gives the coordinate times (1 + k/100) |
| `Scouting.ClampAxis` | tutorial.py:175-182 | the clamp lands in [0, hi]; values inside are unchanged, values below become 0 and values above become hi |
| `Scouting.RandomLocationVariance` | tutorial.py:168-185 | the four successive clamps put the destination inside `[0, map_w] x [0, map_h]`, and it equals the jittered point clamped axis by axis |
| `Scouting.JitterBounded` | tutorial.py:172-173 | for k in [-20, 19], a non-negative coordinate is jittered to between 80% and 119% of itself |
| `Scouting.DestinationNearStart` | tutorial.py:168-185 | a start coordinate on the map ends up, after the clamp, between 80% and 119% of itself |
| `Attack.OneHot` | tutorial.py:351-352 | the label has length 4, a 1.0 at the choice and 0.0 elsewhere |
| `Attack.ActionOf` | tutorial.py:351-352 | the decoder used to state what a logged label means (the bot itself never reads labels back): it gives the index of the label's first 1.0, or -1 when there is none |
| `Attack.ActionOfOneHot` | tutorial.py:351-352 | reading back the label of choice k gives k |
| `Attack.ResolveTarget` | tutorial.py:333-346 | a target exists exactly for choice 3, for choice 1 with known enemy units, and for choice 2 with known enemy structures. The chosen nexus and structure indices are in range |
| `Attack.AttackStep` | tutorial.py:323-354 | with no idle void ray, or before the deadline passes, nothing changes. Choice 1 with enemies but no nexus raises and changes nothing. A call is skipped exactly in the first case; past the gate, every call that does not raise is decided, whatever its choice. Each decided call appends exactly one sample, the label of the choice. Choice 0 sets a deadline strictly after the current tick and has no target. Other choices keep the deadline. The target of a decided call is exactly the one `ResolveTarget` picks, so choice 3 always attacks the first enemy start location. The deadline never decreases |
| `Attack.AttackOrders` | tutorial.py:348-350 | one attack order per idle void ray, in order, all at the same target |
| `Attack.OrdersFor` | tutorial.py:348-350 | attack orders are issued, one per idle void ray, exactly when a decision resolved a target |
| `Attack.Run` | tutorial.py:48-59 | a run of ticks yields one decision per tick |
| `Attack.RunExtendsLog` | tutorial.py:351-354 | over any run, earlier samples stay unchanged and the log grows by exactly the number of decided ticks |
| `Attack.RunLogsEveryActingTick` | tutorial.py:323-354 | over a run where every tick has an idle void ray, is past the deadline, draws no wait and does not raise, every tick is decided and the log grows by exactly that tick's sample, in tick order, whether or not a target was found |
| `Attack.RunKeepsLogWellFormed` | tutorial.py:351-354 | every sample in the log stays a one-hot label of a choice in [0, 4) |
| `Attack.DeadlineNeverDecreases` | tutorial.py:327-331 | the cooldown deadline never moves back over a run |
| `Attack.CooldownSilences` | tutorial.py:324-327 | while ticks do not pass the deadline, every call is skipped and the log and deadline are unchanged |
| `Attack.BranchZeroWaitsUntilDeadline` | tutorial.py:327-331 | after choice 0 with wait w at tick i, that call's one sample is logged and the deadline becomes i + w. Every call on a tick up to i + w is then skipped, so it logs nothing and, by `OrdersFor`, orders no attack |
| `Bot.JoeBot.constructor` | tutorial.py:31-38 | a new bot has tick 0, deadline 0 and an empty log |
| `Bot.JoeBot.OnStart` | tutorial.py:40-46 | on_start records the start timestamp, leaves the attack state alone and keeps the log well formed |
| `Bot.JoeBot.Step` | tutorial.py:48-59 | on_step stores the tick counter and the intel frame, then behaves as `AttackStep` on the new tick. It keeps the log well formed |
| `Bot.JoeBot.Attack` | tutorial.py:323-354 | the imperative attack (the target branches, the order loop and the one-hot array) ends in the state `AttackStep` gives, issues `OrdersFor` that decision, and keeps the log well formed |
| `Bot.JoeBot.SendAll` | tutorial.py:349-350 | the loop gives one attack order per idle void ray, in order, all at the target |
| `Bot.JoeBot.Label` | tutorial.py:351-352 | `np.zeros(4)` followed by `y[choice] = 1` gives length 4, a 1.0 at the choice and 0.0 elsewhere |
| `Bot.JoeBot.OnEnd` | tutorial.py:61-66 | the log is saved if and only if the result is Victory. It is saved as the whole log at `train_data/<start timestamp>.npy`, and every label in it is the one-hot label of a choice |

## Left out

- `scout`: only its destination (`random_location_variance`) is modelled. The observer production loop and the move command are not.
- `distribute_workers`: this is entirely library code.
- `build_assimilators`: it consists of geometric proximity queries (geysers within 15.0, assimilators within 1.0) and worker selection, all owned by the library.
- `old_attack`, `find_target` and `AttackUnit`: this is unused legacy code.
- The drawing in `intel` (cv2 circles and lines, the numpy frame, the flip, the resize and the display) is not modelled. The frame is an uninterpreted value that `attack` stores.
- File and system I/O is not modelled: `np.save`, `os.mkdir`/`os.path.isdir`, `datetime`, `print`. `OnEnd` returns what would be saved; `OnStart` takes the timestamp as a parameter.
- The `__main__` entry point (`run_game` and its `TypeError` fallback) and the opponent factory functions are not modelled.
- The `random` module is not modelled. Draws are parameters with their `randrange` ranges. `random.choice` is an index below the list length.
- `closest_to` is library geometry. A choice-1 target records only which own nexus was picked.
- `can_afford` for pylons, nexuses and each tech building is asked once per tick, so the census holds one answer per type. Inside the train loops it is asked again at each building, and the model takes that answer per building (`Visit`). `supply_left`, `already_pending` and the unit counts are held at their start-of-tick values: the model assumes the library does not update them until the next tick.
- Float rounding is not modelled. Coordinates and ratios are exact reals.
- `Intel.ResourceBarFormula` holds for exact reals only. In double precision, `int(50 * (870/1500))` is `int(28.999999999999996)`, which is 28, while `870 / 30` is 29.
- `Intel.PlausibleBarFormula` holds for exact reals only. In double precision, a supply cap of 116 gives a bar end of 28, while `116 / 4` is 29.
- `enemy_start_locations[0]` is assumed to exist.
- Calling `on_end` before `on_start` is not modelled. With a Victory result that raises `AttributeError` in the source, since only that branch reads the start timestamp; here the timestamp starts empty.
- `Bot.JoeBot.Step` covers only the parts of `on_step` that touch the bot's fields: the tick counter, the intel frame and `attack`. The other controllers are functions of the tick's census and are not called from it. In the source, a controller that raises ends `on_step` before `attack` runs. For example, `intel` raises ZeroDivisionError when `supply_cap` is 0 (`StatBars` returns None), and then that tick logs nothing. `Step` always runs `Attack`, so it does not capture this.
