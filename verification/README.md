# Clusterman: a verified model

Clusterman scales clusters of cloud instances and simulates doing so. This project models the parts of it where
correctness is hard to see from one function, and proves what they promise.

- `Piecewise.dfy` – piecewise-constant functions of time: lookup, squashing, suffix updates, the linear sweeps
  `values` and `integrals`, and the merge behind the operators.
- `Billing.dfy` – the cost of one instance, posted by jumping between price changes and proved equal to sampling the
  price at every billing point.
- `Simulator.dfy` – CPU timelines and cost as sums over a ledger of instances, under every order of events.
- `SimulatedCluster.dfy`, `SpotFleet.dfy` – the instance index and the diversified refill with its running correction.
- `WaterFilling.dfy`, `PoolManager.dfy`, `Pruning.dfy` – scaling limits, the distribution over resource groups, and the
  choice of nodes to kill. `Sorting.dfy` is the stable sort they and others use.
- `Wrappers.dfy`, `Arithmetic.dfy` – optional values and results, and products by repeated addition.
- `Autoscaler.dfy` – the target capacity for a request and its fixpoint.
- `Draining.dfy` – the draining queues with the dedupe cache as a transition system, and the client that refines it.
- `MetricsCache.dfy` – the time-series cache in front of the datastore, over runs in which the datastore grows.
- `Migration.dfy`, `NodeMigration.dfy` – chunked node migration, and the supervisor of its worker processes.

Objects that the program changes in place are classes here, and their methods are proved against functions of the old
state; what the program promises is then proved about those functions and about runs. Functions that follow the code's
branches are also pinned down in the fields of their data, so that no claim rests on the function it is about
(`SpotFleet.AvailableIs`, `PoolManagement.ConstrainExact`, `Pruning.KillFirstIff`, `Draining.ReceivedIs`,
`NodeMigration.LookCompletes`). Times are integers and values are reals. Answers of AWS, Kubernetes and the datastore,
health polls and the clock are parameters.

Where the code does not keep what it promises, there is an input on which it fails and the exact condition under which
it does not:

- **Refunds** (`Billing.RefundExact`, `Billing.RefundLeavesResidue`). The last period of an outbid instance is fully
  refunded if and only if the instance does not end exactly on a billing point, or the price at that point is the price
  the period started with. Otherwise the difference of the two prices stays posted.
- **Metrics cache, moving back** (`MetricsCache.AgreesIff`, `MetricsCache.ContiguousIff`,
  `MetricsCache.MovingBackIsWrong`). After a query that left an empty list cached, a query with an earlier start is cached
  under the later start, and a third one can be appended behind a gap. From then on an answer can contain a point from
  before its range. With starts that never go back, which is what the code's comments assume, this does not happen
  (`MetricsCache.MonotoneRunAgrees`).
- **Metrics cache, last point** (`MetricsCache.CompleteIff`, `MetricsCache.RepeatedRequestLosesLast`). The documentation
  calls `time_end` inclusive. A point the store holds at `time_end` is missing from the answer if and only if the cached
  points end at `time_end - 1`, because the datastore is asked only if the first uncached second is strictly before the
  end. Asking the same thing twice is enough.
- **Dedupe cache** (`Draining.StepKeepsIff`, `Draining.FailedLookup`, `Draining.OrphanLost`). An orphan lookup that raises
  (an instance without a private DNS name) leaves the instance in the cache and its message in the queue, and the next
  receipt drops the message as a duplicate. The host is lost if and only if nothing but this message accounted for it.
- **Join delays** (`Simulation.PartsWithinIff`, `Simulation.NegativeDelayExceeds`). The cluster stays within the CPUs that
  AWS provides for every part of a ledger if and only if no join delay in it is negative; in a ledger as a whole other
  instances may make up for a negative delay.
- **Replaced workers** (`NodeMigration.MarkedIff`, `NodeMigration.SuccessLost`). The success of an event's worker is marked
  by the next monitoring if and only if no other process was started in its place before; otherwise the event stays open
  and is run again.

## Model

| member | source | states |
|---|---|---|
| Piecewise.PiecewiseConstantFunction.AddBreakpoint | clusterman/math/piecewise.py:56-68 | after the call the function is y from x up to the next breakpoint and as before elsewhere, whether or not the breakpoint was squashed away |
| Piecewise.PiecewiseConstantFunction.AddDelta | clusterman/math/piecewise.py:70-89 | after the call the function is shifted by delta at every point from x on and unchanged before x |
| Piecewise.PiecewiseConstantFunction.ShiftKeys | clusterman/math/piecewise.py:85-86 | the suffix loop adds delta to exactly the keys from x on and keeps all keys |
| Piecewise.CallAt | clusterman/math/piecewise.py:91-101 | the logarithmic lookup returns the value of the last breakpoint at or before x, the initial value if there is none; the index is unique |
| Piecewise.Bisect | clusterman/math/piecewise.py:100 | the index splits the keys into those at or before x and those after it |
| Piecewise.SetKeySorted | clusterman/math/piecewise.py:68 | setting a key of the sorted dictionary keeps the keys strictly increasing |
| Piecewise.SetKeyCall | clusterman/math/piecewise.py:56-68 | setting a key changes the denoted function exactly between the key and the next breakpoint |
| Piecewise.BisectMonotone | clusterman/math/piecewise.py:97-101 | lookup indices are monotone, and equal exactly when no breakpoint lies in between |
| Piecewise.PiecewiseConstantFunction.Values | clusterman/math/piecewise.py:120-154 | the keys are start, start + step, ... below stop, none left out, each mapped to the lookup of the key; also with no breakpoint and with step 0 |
| Piecewise.PiecewiseConstantFunction.Sweep | clusterman/math/piecewise.py:139-154 | the linear sweep agrees with the lookup at every grid point |
| Piecewise.PiecewiseConstantFunction.Advance | clusterman/math/piecewise.py:147-152 | the cursor loop stops at the lookup index and value of the next grid point |
| Piecewise.PiecewiseConstantFunction.EvenGrid | clusterman/math/piecewise.py:135-137 | without breakpoints the number of grid points is the ceiling of the quotient |
| Piecewise.PiecewiseConstantFunction.Integrals | clusterman/math/piecewise.py:157-215 | each chunk is the exact integral of the (linearly transformed) function over [key, min(stop, key + step)) |
| Piecewise.PiecewiseConstantFunction.SweepChunks | clusterman/math/piecewise.py:189-215 | the sweep over breakpoints and chunks computes exact integrals on the complete grid |
| Piecewise.PiecewiseConstantFunction.Chunk | clusterman/math/piecewise.py:196-213 | one chunk cut by any number of breakpoints integrates exactly and leaves the cursor at the chunk's end |
| Piecewise.PiecewiseConstantFunction.ConstantChunks | clusterman/math/piecewise.py:174-187 | without breakpoints the full chunks and the remainder are exact, and the remainder is there exactly when the width is not a multiple of the step |
| Piecewise.PiecewiseConstantFunction.Integral | clusterman/math/piecewise.py:217-229 | the first chunk of a single-chunk run is the scale times the integral of the whole range |
| Piecewise.AreaSplit | clusterman/math/piecewise.py:217-229 | the integral is additive over a split point |
| Piecewise.ChunksTotal | clusterman/math/piecewise.py:157-229 | whatever the step, the chunks of a range sum to the integral of the range |
| Piecewise.AreaShifted | clusterman/math/piecewise.py:70-89 | a shift by d from x on changes the integral over [a, b) by exactly d times the width of [max(x, a), b) |
| Piecewise.ScaledArea | clusterman/math/piecewise.py:157-213 | a linear transform of the widths scales the integral by the same factor |
| Piecewise.AreaConstant | clusterman/math/piecewise.py:157-213 | the integral of a stretch with one value is that value added once per unit |
| Piecewise.PiecewiseConstantFunction.Combine | clusterman/math/piecewise.py:237-297 | for any operator the merged function is the operator applied pointwise at every x, also where both break at the same x and the first merged entry pairs a stale value |
| Piecewise.PiecewiseConstantFunction.NextMerged | clusterman/math/piecewise.py:281-297 | one merged entry: it consumes exactly one breakpoint, in key order, and overrides the joint function from its key on |
| Piecewise.PiecewiseConstantFunction.Add | clusterman/math/piecewise.py:237-241 | the sum is pointwise |
| Piecewise.PiecewiseConstantFunction.Subtract | clusterman/math/piecewise.py:243-247 | the difference is pointwise |
| Piecewise.PiecewiseConstantFunction.Multiply | clusterman/math/piecewise.py:249-253 | the product is pointwise |
| Piecewise.PiecewiseConstantFunction.Divide | clusterman/math/piecewise.py:255-268 | the quotient is pointwise, and 0 wherever the divisor is 0 |
| Piecewise.PiecewiseConstantFunction.Maximum | clusterman/math/piecewise.py:271-278 | the maximum is pointwise |
| Billing.ComputeInstanceCost | clusterman/simulator/simulator.py:215-262 | the price-change loop adds exactly the sampled charge to the cost function, for every price function, frequency and interval, in the charged and the refunded branch |
| Billing.PostBreakpoints | clusterman/simulator/simulator.py:230-252 | after the loop everything up to the last billing point before the end is posted as sampled |
| Billing.PostUpTo | clusterman/simulator/simulator.py:236-246 | a jump to the billing point strictly before a price change posts the same as walking the billing points |
| Billing.StepBefore | clusterman/simulator/simulator.py:242-245 | the division with remainder lands on the last billing point strictly before the price change |
| Billing.Settle | clusterman/simulator/simulator.py:254-262 | the closing posting ends the charge after the last period, or takes the last billed price back at the last billing point |
| Billing.ChargeSamples | clusterman/simulator/simulator.py:215-262 | a charged instance costs in period k the price at the start of period k, for each of its max(1, ceil((end - start) / f)) periods |
| Billing.NothingOutside | clusterman/simulator/simulator.py:215-262 | nothing is posted before the start or after the last period, in either branch: the postings sum to zero |
| Billing.RefundExact | clusterman/simulator/simulator.py:254-262 | the last period of an outbid instance is refunded completely if and only if it did not end on a billing point or the price there equals the price the period started with |
| Billing.EarlierPeriodsBilled | clusterman/simulator/simulator.py:254-262 | a refund leaves every period before the last one charged as it was |
| Billing.RefundLeavesResidue | clusterman/simulator/simulator.py:254-262 | an input on which the refund leaves a negative cost behind |
| Billing.LastPointClosed | clusterman/simulator/simulator.py:242-245 | the last billing point is start + (periods - 1) * f |
| Billing.BillTotal | clusterman/simulator/simulator.py:169-171 | the integral of a charged instance's cost is the sum over its periods of period length times sampled price |
| Simulation.Simulator.AddEvent | clusterman/simulator/simulator.py:110-122 | events at or after the end, or before the current time, are dropped; every other one is queued |
| Simulation.Simulator.PopEvent | clusterman/simulator/simulator.py:129-131 | the earliest queued event is found and taken, and time never goes back |
| Simulation.Simulator.ChangePrice | clusterman/simulator/event.py:99 | a price change takes effect from now up to the next later breakpoint, for its market only |
| Simulation.Simulator.AddInstance | clusterman/simulator/simulator.py:147-155 | the CPU timelines stay equal, at every time, to the sums over the instances of the ledger |
| Simulation.Simulator.RemoveInstance | clusterman/simulator/simulator.py:157-167 | the timelines and the cost stay equal to the sums over the ledger, an instance that never joined counting for nothing in the cluster; its last period is not charged exactly if it is a spot instance, refunds are on and its bid is at most the price at the end |
| Simulation.Simulator.ChargeRemaining | clusterman/simulator/simulator.py:135-139 | after the run every instance left is billed once up to the current time, without its last period exactly if it is an outbid spot instance and refunds are on |
| Simulation.Simulator.BillInPlace | clusterman/simulator/simulator.py:137-139 | billing one instance changes the cost by its charge and nothing else |
| Simulation.WithinIff | clusterman/simulator/simulator.py:147-167 | an instance counts for the cluster only while AWS provides it, at every time, if and only if its join delay is not negative |
| Simulation.PartsWithinIff | clusterman/simulator/simulator.py:147-167 | the cluster stays within AWS for every part of a ledger, at every time, if and only if no join delay in it is negative |
| Simulation.MesosWithinAws | clusterman/simulator/simulator.py:147-167 | with non-negative join delays the cluster never has more CPUs than AWS provides, at any time |
| Simulation.NegativeDelayExceeds | clusterman/simulator/simulator.py:151-155 | a negative join delay breaks that bound |
| SimulatedCluster.SimulatedAWSCluster.ModifySize | clusterman/simulator/simulated_aws_cluster.py:52-82 | every market ends at exactly the requested size, markets not named at 0; every id that goes is older than every id of its market that stays, added and removed are exactly the differences, and the index stays consistent |
| SimulatedCluster.SimulatedAWSCluster.ResizeAll | clusterman/simulator/simulated_aws_cluster.py:63-81 | the loop over the markets resizes each one once and leaves the others alone |
| SimulatedCluster.SimulatedAWSCluster.Grow | clusterman/simulator/simulated_aws_cluster.py:66-69 | new ids are fresh and are appended to their market's list |
| SimulatedCluster.SimulatedAWSCluster.Shrink | clusterman/simulator/simulated_aws_cluster.py:71-79 | the first ids of the list are removed from both indexes, and an emptied list is dropped |
| SimulatedCluster.SimulatedAWSCluster.TerminateInstancesById | clusterman/simulator/simulated_aws_cluster.py:84-94 | exactly the given instances leave both indexes, up to the first id that is not there |
| SimulatedCluster.MarketsDisjoint | clusterman/simulator/simulated_aws_cluster.py:42-47 | in a consistent index no id is listed under two markets |
| SimulatedCluster.GrowConsistent | clusterman/simulator/simulated_aws_cluster.py:66-69 | extending a market keeps the per-market lists disjoint, oldest first, and equal to the instance keys |
| SimulatedCluster.ResizedOldestGone | clusterman/simulator/simulated_aws_cluster.py:71-79 | shrinking a list takes away its oldest ids |
| SimulatedCluster.ShrinkConsistent | clusterman/simulator/simulated_aws_cluster.py:71-79 | removing the oldest ids keeps the index consistent |
| SimulatedCluster.RemoveConsistent | clusterman/simulator/simulated_aws_cluster.py:90-94 | removing one id from both sides keeps the index consistent |
| SpotFleet.Refill | clusterman/simulator/simulated_spot_fleet_resource_group.py:139-171 | every market in turn gets the fewest instances that cover its corrected residual, the excess being spread evenly over the markets still to come; so the loop covers the total residual, exceeds it by less than the largest weight, and gives a market that gains instances less than its residual plus its own weight |
| SpotFleet.FillOne | clusterman/simulator/simulated_spot_fleet_resource_group.py:142-170 | one round adds the fewest instances that cover the corrected residual and raises the correction by an even share of the excess; added so far plus what the remaining markets lack beyond the correction stays the total residual |
| SpotFleet.AccountNext | clusterman/simulator/simulated_spot_fleet_resource_group.py:142-170 | passing the overflow on in equal parts keeps the account |
| SpotFleet.FewestUnique | clusterman/simulator/simulated_spot_fleet_resource_group.py:142-170 | the fewest instances under the running correction are determined, market by market |
| SpotFleet.Cover | clusterman/simulator/simulated_spot_fleet_resource_group.py:157-163 | the instances cover the amount and overflow it by less than one weight |
| SpotFleet.Share | clusterman/simulator/simulated_spot_fleet_resource_group.py:151-152 | the shares add up to the overflow |
| SpotFleet.LackingAtLeast | clusterman/simulator/simulated_spot_fleet_resource_group.py:145-149 | in ascending order of residual the remaining markets lack at least what the first one lacks beyond the correction |
| SpotFleet.Plan | clusterman/simulator/simulated_spot_fleet_resource_group.py:140-171 | the plan asks for the old count plus the added instances in each available market and for the old count elsewhere |
| SpotFleet.ResidualSums | clusterman/simulator/simulated_spot_fleet_resource_group.py:173-198 | the residuals sum to the target minus what the available markets hold |
| SpotFleet.SortedResiduals | clusterman/simulator/simulated_spot_fleet_resource_group.py:188-198 | the sorted list has each available market once, by residual and then price |
| SpotFleet.ResidualsAre | clusterman/simulator/simulated_spot_fleet_resource_group.py:173-198 | the list has one residual for every configured market whose bid covers its price, an equal share of the target minus what the market holds, ascending and with cheaper markets first among equals |
| SpotFleet.AvailableIs | clusterman/simulator/simulated_spot_fleet_resource_group.py:203-213 | every configured market whose bid covers its price is available, as often as it is configured, and no other |
| SpotFleet.AvailableSums | clusterman/simulator/simulated_spot_fleet_resource_group.py:203-213 | so the available markets' number, capacity and largest weight are those of all configured markets whose bid covers their price |
| SpotFleet.PlanRefills | clusterman/simulator/simulated_spot_fleet_resource_group.py:126-171 | carrying out a plan brings the affordable configured markets to the target and past it by less than the largest weight among them, shrinks no market, leaves a market that grew below its share plus its own weight, the share being the target divided by the number of all affordable configured markets, and adds to each exactly the fewest instances that cover its corrected residual |
| SpotFleet.PlanTotals | clusterman/simulator/simulated_spot_fleet_resource_group.py:126-171 | the available markets end in [target, target + the largest weight among them) |
| SpotFleet.GrownMarket | clusterman/simulator/simulated_spot_fleet_resource_group.py:155-170 | a market that grew is an available one and ends below target / n plus its own weight |
| SpotFleet.SimulatedSpotFleet.GetNewMarketCounts | clusterman/simulator/simulated_spot_fleet_resource_group.py:126-171 | a lower target is refused; otherwise the counts are the old ones plus, for every affordable configured market in order of residual and price, the fewest instances that cover its corrected residual |
| SpotFleet.SimulatedSpotFleet.IncreaseCapacityToTarget | clusterman/simulator/simulated_spot_fleet_resource_group.py:113-124 | the refill, with the fewest instances for every affordable configured market, holds between the cluster's own index before and after; a refused request changes nothing |
| SpotFleet.SimulatedSpotFleet.ModifyTargetCapacity | clusterman/simulator/simulated_spot_fleet_resource_group.py:86-97 | the target is set unless dry-run; a fleet below it is refilled over all affordable configured markets, ending at the target or less than the heaviest of them above it, and one at or above it is left alone |
| SpotFleet.SimulatedSpotFleet.TerminateInstancesById | clusterman/simulator/simulated_spot_fleet_resource_group.py:99-111 | the given instances are gone; a fleet still at its target is otherwise unchanged, one below it is refilled, within all the bounds of a refill, from what was left; an unknown id stops the call before anything happens, a repeated one after exactly the ids before it |
| SpotFleet.SimulatedSpotFleet.FulfilledCapacity | clusterman/simulator/simulated_spot_fleet_resource_group.py:223-241 | the fulfilled capacity is the sum over the markets of count times weight |
| PoolManagement.ComputeTargets | clusterman/autoscaler/pool_manager.py:477-520 | the greedy loop ends with a distribution that moves only in the scaling direction, within the limits, balanced, with equally low groups raised in the order of their ids, and stops at the goal or where nothing can move |
| PoolManagement.DistributionUnique | clusterman/autoscaler/pool_manager.py:501-518 | with distinct ids exactly one distribution is reached |
| PoolManagement.DistributedOptimal | clusterman/autoscaler/pool_manager.py:477-520 | among all integer targets that keep the rules and have the same total, the result has the least sum of squares |
| PoolManagement.DistributedTotal | clusterman/autoscaler/pool_manager.py:501-516 | the total is ceil(new target), or exactly as far as the group limits allow if that is less |
| PoolManagement.RoomIsReach | clusterman/autoscaler/pool_manager.py:495-516 | how far the groups can be moved is the sum of the limits of those that are not stale, or of their targets where those are past the limit |
| PoolManagement.DistributedAllowed | clusterman/autoscaler/pool_manager.py:495-518 | no group moves against the direction or past its limit; stale groups go to 0 |
| PoolManagement.ConstrainExact | clusterman/autoscaler/pool_manager.py:321-369 | from any total, also one outside the range, an unforced request moves it, in whole units, exactly as far towards the request, cut off at the end of the range it points to, as the weight limits allow; with scale-down forbidden upward as before and never downward |
| PoolManagement.ConstrainUnrounded | clusterman/autoscaler/pool_manager.py:321-369 | the same for the unrounded value that is returned |
| PoolManagement.NextTotalExact | clusterman/autoscaler/pool_manager.py:321-369 | an unforced request moves the total towards the clamped request by at most the weight limits, exactly |
| PoolManagement.ConstrainWithinLimits | clusterman/autoscaler/pool_manager.py:321-369 | unforced, the range and both weight limits hold for the whole-unit target, and nothing is lowered without scale-down |
| PoolManagement.ConstrainTowardsRange | clusterman/autoscaler/pool_manager.py:331-342 | from outside the range every unforced request moves towards the range, even when it asks for the opposite, and not past its near end |
| PoolManagement.RoundsExact | clusterman/autoscaler/pool_manager.py:149-174 | after n rounds of one request the total is the goal or n full steps closer to it, and inside the range |
| PoolManagement.RoundsReachGoal | clusterman/autoscaler/pool_manager.py:149-174 | with positive weight limits the goal is reached in finitely many rounds and kept |
| PoolManagement.RepeatedRequest | clusterman/autoscaler/pool_manager.py:120-174 | repeating one request on the groups themselves, with room for the clamped request in the group limits at the start, the sum of their targets follows the limits exactly |
| PoolManagement.RepeatedRequestReachesGoal | clusterman/autoscaler/pool_manager.py:120-174 | so with positive weight limits the groups reach the clamped request in finitely many repetitions and stay there |
| PoolManagement.RequestStep | clusterman/autoscaler/pool_manager.py:149-174 | one request with room for its goal leaves room for it |
| PoolManagement.UnboundedRound | clusterman/autoscaler/pool_manager.py:149-174 | with no group limit binding one request moves the sum of the group targets exactly as the limits say |
| PoolManagement.AppliedBetween | clusterman/autoscaler/pool_manager.py:152-169 | however many groups fail to change, the total ends between where it was and where it was to go |
| PoolManagement.AppliedWithinLimits | clusterman/autoscaler/pool_manager.py:149-169 | the pool's limits hold for the sum of the group targets, whatever the group limits and failures |
| PoolManagement.PoolManager.ModifyTargetCapacity | clusterman/autoscaler/pool_manager.py:120-174 | no groups and all-stale are refused; dry-run changes nothing; a forced request is taken as it is, an unforced one is cut to the exact step the limits allow, with or without scale-down; the groups take a distribution of it and, if nothing fails, together hold exactly that many units or as close to it as their own limits let them; from a total within the range all pool limits hold afterwards |
| PoolManagement.PoolManager.SetTargets | clusterman/autoscaler/pool_manager.py:153-169 | exactly the groups whose change succeeds take their target |
| WaterFilling.LeveledOptimal | clusterman/autoscaler/pool_manager.py:501-518 | raising a lowest open element again and again minimises the sum of squares for the reached total |
| WaterFilling.RaiseLowest | clusterman/autoscaler/pool_manager.py:503-518 | one greedy step keeps the vector levelled |
| WaterFilling.FillTotal | clusterman/autoscaler/pool_manager.py:501-516 | a levelled vector that cannot move is at its limits, otherwise the goal is met |
| Pruning.ChooseNodesToPrune | clusterman/autoscaler/pool_manager.py:371-475 | going down the kill order a node is marked exactly when the nodes marked before leave room for it, until the target is reached or the list ends; the marked nodes are returned by group, in that order, and keep all four limits |
| Pruning.ChosenSafeAndMaximal | clusterman/autoscaler/pool_manager.py:371-475 | the chosen nodes are known, safe and uncordoned ones whose tasks may be killed, and keep the weight, task, group and non-orphan limits; and either they bring the capacity down to the target or adding any other such node would break a limit |
| Pruning.ChosenBySafety | clusterman/autoscaler/pool_manager.py:371-475 | in kill order a node is chosen exactly when the nodes chosen before it, together with it, keep all four limits, and as long as the capacity is above the target |
| Pruning.ChosenUnique | clusterman/autoscaler/pool_manager.py:423-473 | there is exactly one such choice |
| Pruning.GreedySafe | clusterman/autoscaler/pool_manager.py:430-469 | greedy marking keeps every limit and leaves out only nodes that still cannot be added |
| Pruning.MarkNodes | clusterman/autoscaler/pool_manager.py:412-475 | the greedy pass marks a node exactly when it breaks no limit and the target is not reached yet |
| Pruning.MarkSafe | clusterman/autoscaler/pool_manager.py:430-469 | marking a node that breaks no limit keeps all four limits |
| Pruning.BlockedIff | clusterman/autoscaler/pool_manager.py:430-460 | on top of nodes that keep the limits, the four tests skip a node exactly when adding it would break one of the limits |
| Pruning.StillBlocked | clusterman/autoscaler/pool_manager.py:430-460 | a node that breaks a limit keeps breaking one when more nodes are marked, so one pass is enough |
| Pruning.KillFirstIff | clusterman/autoscaler/pool_manager.py:558-577 | one node is killed before another if it is draining and the other is not; with no difference there, if it is orphaned; then if stale, long-running, idle; then if it has fewer batch tasks, and then if it has at most as many tasks |
| Pruning.KillOrderIs | clusterman/autoscaler/pool_manager.py:537-577 | the kill order holds every known, safe, uncordoned node whose tasks may be killed, as often as the pool has it, and no other; an earlier one is draining where a later one is not, and so on down to the number of tasks |
| Pruning.KillableMember | clusterman/autoscaler/pool_manager.py:537-556 | a node is killable exactly if it is known, safe to kill, not cordoned, and has no tasks or fewer than may be killed |
| Autoscaling.MostConstrained | clusterman/autoscaler/autoscaler.py:378-410 | among the requested resources that are not excluded the first one with the highest usage; an error exactly when one of them is requested that the cluster has nothing of, and another exactly when there are none |
| Autoscaling.UsageIff | clusterman/autoscaler/autoscaler.py:405-409 | the usage is the share of the total that is requested, and 0 where the cluster has nothing |
| Autoscaling.FromHistory | clusterman/autoscaler/autoscaler.py:298-315 | the past weights' capacity is enough for every resource with a weight, exactly enough for one, and 1 without weights |
| Autoscaling.WeightedIs | clusterman/autoscaler/autoscaler.py:303-308 | a resource needs the capacity that brings the requested quantity at its past weight, none if it is not requested |
| Autoscaling.ComputeTargetCapacity | clusterman/autoscaler/autoscaler.py:293-376 | every branch: no request, zero request, no target, no capacity; otherwise the setpoint target of the most constrained resource, and the current target exactly if it differs from that by less than margin times itself |
| Autoscaling.WithinMarginIff | clusterman/autoscaler/autoscaler.py:361-374 | the relative change is below the margin exactly if the targets differ by less than margin times the current one |
| Autoscaling.TargetMeetsSetpoint | clusterman/autoscaler/autoscaler.py:335-356 | with totals proportional to capacity the target puts every counted resource at or below the setpoint and the most constrained one exactly at it |
| Autoscaling.TargetIndependent | clusterman/autoscaler/autoscaler.py:339-356 | the target does not depend on the capacity the cluster happens to have |
| Autoscaling.SetpointFixpoint | clusterman/autoscaler/autoscaler.py:361-376 | at the computed capacity running again leaves the target unchanged, whatever the margin |
| Draining.StepKeepsIff | clusterman/draining/queue.py:288-443 | an atomic step keeps cached instances witnessed and submitted instances tracked if and only if its lookup does not raise or its instance has a witness |
| Draining.StepKeepsQueues | clusterman/draining/queue.py:288-443 | every atomic step, also one whose lookup raises, keeps hop counts bounded and termination messages justified |
| Draining.RunInvariantIff | clusterman/draining/queue.py:288-443 | all along a run cached instances have a witness and submitted ones are tracked, if and only if lookups raise in it only for instances with a witness |
| Draining.RunInvariant | clusterman/draining/queue.py:288-443 | in every run in which lookups raise only for instances with a witness, cached instances have a witness and submitted ones are tracked |
| Draining.RunJoin | clusterman/draining/queue.py:324-443 | a run after a run is a run, and a run of one step is that step |
| Draining.NeverLost | clusterman/draining/queue.py:324-415 | in those runs a message dropped as a duplicate belongs to an instance that is redrained, queued for termination, terminated or found missing, and no submitted instance is lost |
| Draining.BoundedHops | clusterman/draining/queue.py:350-409 | in every run one submission makes at most one orphan refresh and floor(threshold / delay) + 1 redrains; a start time in the future adds to the threshold |
| Draining.TerminationJustified | clusterman/draining/queue.py:350-409 | in every run each Kubernetes host queued for termination was drained, expired with forced termination, or has no agent id |
| Draining.FailedLookup | clusterman/draining/queue.py:375-415 | after a lookup that raises the next receipt drops the message, and the host stays accounted for if and only if it was so without this message |
| Draining.FailedLookupLosesHost | clusterman/draining/queue.py:375-415 | from any state such a lookup loses a submitted host whose only message it is and which has not come to an end otherwise |
| Draining.OrphanLost | clusterman/draining/queue.py:375-415 | a run of three steps loses a host: every host submitted without agent id, described without a DNS name and received twice |
| Draining.DrainKeepsCache | clusterman/draining/queue.py:331-409 | a drain step caches no instance without a witness, unless its lookup raises for one |
| Draining.DrainKeepsHops | clusterman/draining/queue.py:399-405 | redrains keep the start time and the agent id, so each one uses up part of the threshold |
| Draining.TerminateKeeps | clusterman/draining/queue.py:288-322 | taking a message off the termination queue keeps every instance accounted for |
| Draining.DrainingClient.ProcessDrainQueue | clusterman/draining/queue.py:324-415 | a first attempt at a cached host is only dropped; any other message is cached for half an hour and, by scheduler, agent id, elapsed time and answers, moved to the termination queue, recorded as missing, uncordoned and forgotten, sent back with the fields it had, or kept |
| Draining.DrainingClient.ProcessHost | clusterman/draining/queue.py:335-409 | every part of the state after handling a message, in the fields of the message: what is sent back, terminated, missing, uncordoned and cached |
| Draining.ReceivedIs | clusterman/draining/queue.py:324-415 | the same for the drain step of the transition system, so that the laws about runs are about these outcomes |
| Draining.TerminatedIff | clusterman/draining/queue.py:335-409 | a message that is not a duplicate moves from the drain queue to the termination queue if and only if its host is not a Kubernetes host, or was drained, or has expired with forced termination, or has no agent id according to EC2 |
| Draining.RunRecorded | clusterman/draining/queue.py:324-443 | in every run a host is recorded missing, or uncordoned, exactly when some answer says so; it is queued for termination or terminated exactly when some answer ends its draining; every further attempt comes from an undrained, unexpired answer or a successful lookup, and none that an answer sends is lost before it is received; cache entries last half an hour from a receipt |
| Draining.DrainingClient.DrainOrphan | clusterman/draining/queue.py:375-390 | the three outcomes of looking an orphan up, and the failing lookup that keeps the message |
| Draining.DrainingClient.DrainKnown | clusterman/draining/queue.py:391-405 | expired and forced, expired and uncordoned, drained, or redrained after the delay |
| Draining.DrainingClient.ProcessTerminationQueue | clusterman/draining/queue.py:288-322 | a message is deleted only when the terminate request was issued |
| Draining.DrainingClient.ProcessWarningQueue | clusterman/draining/queue.py:425-443 | a warned host is submitted for draining, with the current time as its start, exactly if it is described and in a target group; the warning is deleted unless the lookup raised |
| Draining.DrainingClient.CleanProcessingHostsCache | clusterman/draining/queue.py:417-423 | exactly the entries whose time has passed leave the cache |
| Draining.DrainingClient.SubmitInstanceForDraining | clusterman/draining/queue.py:115-147 | a submission puts a first-attempt message with the given start time into the drain queue |
| MetricsCache.AnswerIs | examples/clusterman_metrics/clusterman_metrics/boto_client.py:225-249 | in every sound state the answer is exactly the store's points in [Lower, Upper], in order and without duplicates |
| MetricsCache.AgreesIff | examples/clusterman_metrics/clusterman_metrics/boto_client.py:358-437 | below the end of the range the answer equals a direct query if and only if the store has no point in the gap a hit may reach back over |
| MetricsCache.ContiguousAgrees | examples/clusterman_metrics/clusterman_metrics/boto_client.py:225-249 | with nothing cached before the recorded start the answer equals a direct query, the point at time_end included unless the cached points end at time_end - 1 |
| MetricsCache.CompleteIff | examples/clusterman_metrics/clusterman_metrics/boto_client.py:225-249 | the whole of a direct query comes back, the point at time_end included, if and only if the cached points do not end at time_end - 1 or the store has no point at time_end |
| MetricsCache.RepeatedRequestLosesLast | examples/clusterman_metrics/clusterman_metrics/boto_client.py:225-236 | a run in which the same request made twice loses the point at its end |
| MetricsCache.AfterSound | examples/clusterman_metrics/clusterman_metrics/boto_client.py:358-491 | lookup with pruning, storing and invalidation keep: cached points are final points of the store and none is missing from the recorded start on |
| MetricsCache.ContiguousIff | examples/clusterman_metrics/clusterman_metrics/boto_client.py:358-491 | a query keeps the entry free of points before its start if and only if it is not the harmful one: an empty list cached, a start before the recorded one, and a final point in between |
| MetricsCache.RunSound | examples/clusterman_metrics/clusterman_metrics/boto_client.py:358-491 | every run of store growth and queries, in any order, keeps the entry sound |
| MetricsCache.RunAgrees | examples/clusterman_metrics/clusterman_metrics/boto_client.py:225-249 | after every run without a harmful query the cached answer is the direct query |
| MetricsCache.MonotoneRunAgrees | examples/clusterman_metrics/clusterman_metrics/boto_client.py:383-389 | after every run in which query starts never go back the cached answer is the direct query |
| MetricsCache.MonotoneHarmless | examples/clusterman_metrics/clusterman_metrics/boto_client.py:383-389 | queries whose starts never go back are never harmful |
| MetricsCache.StartBound | examples/clusterman_metrics/clusterman_metrics/boto_client.py:435-437 | the recorded start never passes the latest query's start |
| MetricsCache.MovingBackIsWrong | examples/clusterman_metrics/clusterman_metrics/boto_client.py:439-491 | a run with starts that go back after which a query returns a point from before its range |
| MetricsCache.Pruned | examples/clusterman_metrics/clusterman_metrics/boto_client.py:408-418 | pruning keeps exactly the points from the query's start on |
| MetricsCache.StoreSound | examples/clusterman_metrics/clusterman_metrics/boto_client.py:439-491 | storing what was fetched without a gap, with or without invalidation, keeps the entry sound |
| MetricsCache.StoredAre | examples/clusterman_metrics/clusterman_metrics/boto_client.py:453-456 | only points strictly older than five minutes are kept |
| MetricsCache.MetricsClient.CacheLookup | examples/clusterman_metrics/clusterman_metrics/boto_client.py:358-437 | the method is the lookup on its own key, refuses an empty range, and leaves other keys alone |
| MetricsCache.MetricsClient.CacheStore | examples/clusterman_metrics/clusterman_metrics/boto_client.py:439-491 | the method is the store on its own key |
| MetricsCache.MetricsClient.GetMetricValues | examples/clusterman_metrics/clusterman_metrics/boto_client.py:189-249 | the datastore is asked only from the first uncached second, and the answer is the cached points followed by the fetched ones |
| Migration.RateAcceptedIff | clusterman/migration/settings.py:86-92 | the rate is accepted if and only if every pool size gives a chunk of at least one node |
| Migration.PercentShare | clusterman/migration/settings.py:47-61 | a percentage of at most a hundred gives between one node and the whole pool, and the nearest whole number unless that is none |
| Migration.PortionOf | clusterman/migration/settings.py:47-64 | a setting is refused exactly if it is negative; a plain number asks for exactly that many nodes, 0% for none |
| Migration.RoundIsNearest | clusterman/migration/settings.py:60-61 | rounding moves by at most a half, and from the middle to the even neighbour |
| Migration.MonitorPoolHealth | clusterman/migration/worker.py:73-109 | healthy if and only if at some poll the drained nodes were gone and capacity and pods were each seen fine then or later |
| Migration.SelectionIs | clusterman/migration/worker.py:122-123 | the selection holds every selected node as often as the pool does, by falling uptime or by rising number of tasks |
| Migration.SubmitChunk | clusterman/migration/worker.py:135-140 | a chunk is submitted node by node with never more than the chunk outstanding |
| Migration.DrainNodeSelection | clusterman/migration/worker.py:112-158 | submissions are a prefix of the sorted selection, in chunks of exactly the rate's size but for the last one, with a check after each; at no point more than one chunk is outstanding without a later passed check; True means everything was submitted and every check passed; False means the last check failed and the earlier ones passed |
| NodeMigration.LabelKinds | clusterman/batch/node_migration.py:131-148 | event labels have the event prefix and uptime labels do not |
| NodeMigration.LabelPools | clusterman/batch/node_migration.py:131-144 | within one cluster two labels of a kind are equal exactly for the same pool |
| NodeMigration.StepKeeps | clusterman/batch/node_migration.py:150-257 | every step keeps the ledger's keys equal to the event labels in the process table, each process running the recorded event, and the accounts and statuses backed |
| NodeMigration.RunKeeps | clusterman/batch/node_migration.py:259-268 | the same in every reachable state |
| NodeMigration.CompletedOnlyAfterSuccess | clusterman/batch/node_migration.py:240-257 | in every reachable state an event is marked completed at most as often as processes started for it exited 0, and is never both run and skipped |
| NodeMigration.OpenIsFetchedOrRun | clusterman/batch/node_migration.py:173-179 | in every reachable state an open event is handed out by the next listing exactly when no process under its label is recorded as running it |
| NodeMigration.FetchIff | clusterman/batch/node_migration.py:173-179 | an event is handed out exactly when its resource is pending or in progress and no ledger entry is for it |
| NodeMigration.MarkedIff | clusterman/batch/node_migration.py:158-171 | in every run an unnoticed success is marked by the next monitoring if and only if no process was started in the place of the successful one before; if the update then succeeds the event's resource is COMPLETED |
| NodeMigration.LookMarks | clusterman/batch/node_migration.py:240-257 | monitoring notices an unnoticed success exactly once, and nothing else |
| NodeMigration.LookCompletes | clusterman/batch/node_migration.py:240-257 | after monitoring the resource of an event whose process exited 0 is COMPLETED and the event is no longer handed out, unless the update failed, which leaves its status and hands it out again; every other resource keeps its status |
| NodeMigration.MarkIs | clusterman/batch/node_migration.py:181-187 | a successful update changes the status of its own resource only, a failed one changes nothing |
| NodeMigration.UnnoticedStep | clusterman/batch/node_migration.py:158-171 | any other step marks nothing, and loses an unnoticed success exactly when it replaces its process |
| NodeMigration.SuccessLost | clusterman/batch/node_migration.py:158-171 | for any two processable events of one pool, a run that loses a success: the event is unmarked and handed out again although its worker exited 0 |
| NodeMigration.ReplacedIsFetchedAgain | clusterman/batch/node_migration.py:158-179 | from any state in which a dead worker is replaced before monitoring, its event leaves the ledger unmarked and is handed out again |
| NodeMigration.CompleteKeeps | clusterman/batch/node_migration.py:249-254 | the pop from the ledger never fails, and completing keeps the invariant |
| NodeMigration.MonitorIs | clusterman/batch/node_migration.py:240-257 | after monitoring exactly the workers that had exited 0 are gone and every other one is alive with the routine it had |
| NodeMigration.MonitorKeeps | clusterman/batch/node_migration.py:240-257 | all three loops together keep the invariant, for any order of the process table |
| NodeMigration.SpawnEventKeeps | clusterman/batch/node_migration.py:189-212 | spawning for an event keeps the invariant, also when it replaces a dead worker or is refused |
| NodeMigration.Supervisor.SpawnWorker | clusterman/batch/node_migration.py:150-171 | a process is started exactly when none is alive under the label and, for events, a slot is free |
| NodeMigration.Supervisor.SpawnEventWorker | clusterman/batch/node_migration.py:189-212 | an event of another cluster or of a pool that does not take events or has no setup is marked SKIPPED; another gets a process and a ledger entry if no process is alive under its label and a slot is free, and is marked IN PROGRESS and not handed out again; all other resources keep their status |
| NodeMigration.Supervisor.SpawnUptimeWorker | clusterman/batch/node_migration.py:214-238 | a process is started for the pool exactly if the uptime is at least a day, there is a setup, and none is alive under the label |
| NodeMigration.Supervisor.FindDead | clusterman/batch/node_migration.py:242-248 | the dead workers are sorted into completed and to be restarted, in order |
| NodeMigration.Supervisor.MonitorWorkers | clusterman/batch/node_migration.py:240-257 | the method is the monitoring step, and does to every resource what that step does: finished events are COMPLETED and not handed out again unless their update fails |

## Left out

- Simulation.Simulator.PopEvent: the event queue is a multiset of times; the heap's layout, event kinds, and the order of events with equal times are not modelled, and an event's handler is any sequence of the other methods.
- Simulation.Simulator.AddInstance: the join delay is an arbitrary integer parameter, not a normal distribution; fractions of a second are not modelled.
- Simulation.Simulator.RemoveInstance: price functions are values kept per market, so aliasing between an instance's market and the price object is not modelled.
- SpotFleet.SimulatedSpotFleet.TerminateInstancesById: the calls that report removed and added instances to the simulator are not modelled, so bid prices of new instances are not set here.
- SpotFleet.SimulatedSpotFleet.FulfilledCapacity: every market counts; markets without an availability zone, which the program skips, are not modelled.
- PoolManagement.ComputeTargets: group ids are integers, since only their order matters; group and pool limits are whole numbers.
- PoolManagement.PoolManager.ModifyTargetCapacity: the returned value is the unrounded request; the pruning that may follow it is modelled separately.
- Autoscaling.SetpointFixpoint: it needs a positive target; with target 0 the next run takes the branch without a current target.
- Draining.StepKeeps: receiving, handling and deleting a message is one atomic step; failures of the queue service, visibility timeouts inside a step and redelivery are not modelled, and a message keeps only the fields the branches read.
- MetricsCache.MetricsClient.GetMetricValues: one metric per query. Regular-expression queries share the next uncached time between metrics and are not modelled; neither are extra dimensions, deprecated keys, pagination and the uncached mode. Five minutes ago is a parameter, rounded up to a whole second.
- Migration.MonitorPoolHealth: the loop's passes before the timeout are a given sequence of observations; the clock and the sleeps are not modelled.
- Migration.RateAcceptedIff: a setting is already split into a number and whether it has a percent sign; parsing the text is not modelled.
- NodeMigration.Supervisor.SpawnWorker: the limit on worker slots is checked when an event worker is started; restarts do not check it, so no bound on the number of processes is claimed.
- NodeMigration.Supervisor.SpawnEventWorker: starting the process and updating the ledger are one step.
- The `lru_cache` on `values` and `integrals`, which `add_breakpoint` does not clear: the uncached functions are modelled.
- Mutual exclusion by the pool lock of migration workers: the program does not look at the result of the timed acquire.
- Floating-point rounding: values are exact reals. Division by zero is modelled where the program handles it.
- The event and uptime worker routines around the chunk loop (prescaling, disabling autoscaling, time limits), the pool manager's reloading, orphan termination, logging, metrics emission, configuration and reports.
- Maintenance schedules for Mesos, instance types and markets, signals, the command line, and everything that only calls external services.
