# Motion safety of the mantis teleop: a verified model

This project models the logic that stands between "where should the arm go" and "what is written to the
joints", and the two bookkeeping pipelines that have to agree with it, and proves what that logic keeps.

Joint vectors are sequences of exact reals under the max-norm. Geometry is an arbitrary function: a margin of
a pose at a cushion scale for the planner, a collision test of a configuration for the safety filter. Clocks,
random draws, network answers, button levels, thread interleavings and measured poses are arbitrary inputs, so
every statement below holds for all of them.

| module | what it models |
|---|---|
| JointSpace, EdgeCheck, Paths | max-norm distance, interpolation; sampled edge checks and what samples say about the segment; certified paths |
| Environment | the monotonic clock and the random generator |
| Tiers, TierMoves, RrtConnect, HomePlan | the five search tiers, the moves they consist of, and the search over cushion scales |
| PlanClearance, JoinEdge | what a returned plan is worth, and its one edge that need not be certified |
| SafetyFilter, FilterRuns | the terminal accept-or-hold controller, one cycle and whole runs |
| CommandShaper, ShaperRuns, ShaperLimits | the velocity- and acceleration-limited output shaper: one sample, whole runs, and what its limits do when they bind |
| HomeRamp | the waypoint walk of the HOME ramp |
| BridgeModes, BridgeEvents, BridgeRuns, Bridge | clutch, MENU, HOME, axis lock and auto-freeze: the step functions, what each event does in plain terms, every run, the node that updates its state in place |
| Recorder, RecorderEvents, RecorderRuns, VideoPacking | frame pairing, episode numbering and the save queue; the deferred video encode |
| ChunkReplay, ReplayTable | the chunked action protocol and the table it replays |
| KinematicTree | the hop count of the self-collision filter |
| SegmentFeed, FollowerRuns, HomingRetry | the follower's segment feed, what it is worth over whole runs, and the homing retry loop |
| OutputRuns | what the shaper publishes for a ramp or a feed whose targets are held between ticks |
| Options | optional values |

Where the source updates state in place there is a class with that state, and each method is proved to change it
as a function of the old state says; the properties are then proved about that function over all runs. What the
function does is stated once more in plain terms, over the inputs and without the functions it is made of, by the
lemmas whose names end in Says and by their like.

## What the proofs turned up

- **The join edge of the tree search is not always certified.** The connect loop stops when the steered pose
  `qs` is within 1e-9 of `qn` and keeps `qn` (home_planner.py:287-290). Whatever edge into `qn` the other tree
  accepted and whatever the geometry, what the search checked certifies the executed edge exactly when the loop
  copied `qn` or the edge is no longer than one check step (`JoinEdge.JoinCertifiedExactlyWhen`); for a given
  edge into `qn`, exactly when each sample of the executed edge was sampled on one of the two
  (`JoinEdge.JoinCertifiedFrom`). It happens in a run: with home a tree step and less than 1e-9 away there is a
  geometry in which the direct tier refuses the straight edge, the first round of the tree search meets, and the
  route it returns, however it is smoothed, walks just that edge (`JoinEdge.RefusedEdgeReturned`). So the
  docstring's "an accepted plan is certified motion" (home_planner.py:27-29) holds of every edge but at most one,
  and of that one up to the tolerance, which is what every certificate here says.
- **"Never worse than the start" is about the least margin**, not about each pair. Whatever the geometry, a pair
  is kept from coming closer exactly when it started at its bound, its scaled floor plus min(0, margin of the
  start) (`PlanClearance.PairKeptExactlyWhen`); for every other pair there is a geometry, with distances of any
  slope, in which the straight path is accepted and ends with that pair closer
  (`PlanClearance.PlanMayClosePair`). The bound each pair does
  keep is `PlanClearance.PlanKeepsPairsApart`.
- **One-row chunks stall the client**: every chunk starts at the step just executed, which the client drops as
  stale, so with one row per chunk exactly one step is ever executed (`ChunkReplay.RunClient`).
- **A reference jump beyond the per-joint limit of the safety filter stops all joints for good**, as long as the
  reference stays: the filter compares with the last accepted vector, which then never changes
  (`FilterRuns.StuckForever`).
- **The size cap of video files is checked against the current file only**; `VideoPacking.OverCapExactly` gives
  the one case in which an append reaches it, a file already standing at the next place, and
  `VideoPacking.AppendOverCap` an instance.
- **"True means inside HOME_DONE_TOL" holds of every homing run exactly when the approach tolerance is no larger
  than the done tolerance** (`HomingRetry.HomeMeansMeasuredHome`), because the first check returns True within
  the approach tolerance (mantis_follower.py:419-421, 427-429). The two are separate settings, equal as shipped.
  The docstring's "raises once the search is exhausted" leaves out the returns of False: they happen exactly when
  the last round found the link gone, or a complete plan ran and settled close by but not home
  (`HomingRetry.NotHomeExactly`; mantis_follower.py:450-451, 494-503).
- **A homing search that finds nothing advances two cushion tiers** unless the arm comes 0.02 closer before the
  next round: its own relaxation, and the one of that round's progress check
  (`HomingRetry.EmptySearchSkipsATier`).
- **HOME refused for want of a route, or for limits, leaves the arm frozen**: these checks come after the clutch
  was dropped (teleop_mantis.py:1774-1794), and such a refusal is the only one that drops it
  (`BridgeRuns.HomeRefused`).
- **A target freeze steps back** by exactly what the target moved between the two clock readings it takes, so
  not at all only if it had arrived, the readings are equal or the segment has no length
  (`SegmentFeed.FreezeStepsBack`).
- **One leg of the follower's walk has no clearance**: the fed targets of a certified route keep its margin on
  every leg of the route (`FollowerRuns.FedTargetClear`), but the leg back to the arm, walked first when the
  target stands more than the lead away from it (mantis_follower.py:882-894), was never checked. All that is
  certain of its first target is the floor less the slope times its distance to the nearest checked pose
  (`FollowerRuns.BackLegBound`), and for every path, slope and standing target there is a geometry in which it has
  no more than that, below the floor unless it is a checked pose itself (`FollowerRuns.BackLegUncovered`).
- **The acceleration limit binds when a ramp starts at the shipped numbers**: a command of 0.3 rad/s held for a
  100 Hz tick asks the shaper for more than 12 rad/s^2 grants. Held targets are followed with every limit idle
  up to 2/13 rad/s, and not above by these conditions (`ShaperRuns.ShippedTicksFollow`); the conditions under
  which a target that moves at every output sample is followed do hold at 0.3
  (`ShaperRuns.ShippedValuesFollow`).

## Model

| member | source | states |
|---|---|---|
| EdgeCheck.EdgeMargin | home_planner.py:62-84 | despite testing the ends first and stopping early, the result is at least the threshold exactly when every sample is; it is then the least sampled margin, and otherwise the first sample below the threshold |
| EdgeCheck.TrialOrderPermutes | home_planner.py:73-76 | the reordered sample list is the evenly spaced one, each sample once |
| EdgeCheck.FewestSamples | home_planner.py:72-73 | the fewest samples, but two, whose gaps are no longer than a check step; or 400 if those are fewer |
| EdgeCheck.CertifiedReverse | home_planner.py:270-284 | an edge certified in one direction is certified in the other, because both sample the same poses |
| EdgeCheck.SampleNearby | home_planner.py:72-73 | every pose of a segment is within half a sample gap of a sample |
| EdgeCheck.CertifiedSegment | home_planner.py:62-84 | for a margin of slope L, every pose of a certified segment has at least f less L times half the sample gap, the 400-sample cap included |
| EdgeCheck.CertifiedSegmentSpaced | home_planner.py:72-73 | that is half a check step for every edge short enough for the sample cap, and otherwise half of 1/399 of its length |
| Paths.Planner.CheckEdge | home_planner.py:254-255 | the planner's edge test accepts exactly the edges all of whose samples clear the floor |
| Paths.Planner.ReverseCertified | home_planner.py:288-290 | a certified path walked backwards is certified, the nearly certified edge moving to its mirror place |
| Paths.Planner.SpliceCertified | home_planner.py:288-290 | two certified branches whose tips nearly coincide splice into a path with one nearly certified edge |
| Tiers.DirectTier | home_planner.py:132-134 | succeeds exactly when the straight edge is certified |
| Tiers.FoldGroup | home_planner.py:160-162 | the joints of the group, and only those, are at home |
| Tiers.StagedTier | home_planner.py:143-171 | the first of the five groups whose two edges are certified; none only if no group works or the clock cut in |
| Tiers.StagedExact | home_planner.py:160-171 | a staged route is certified on every edge and stays in the box of limits, start and home |
| TierMoves.StageSays | home_planner.py:136-170 | the five groups by the joints' names; one works exactly if it moves some joints and leaves some, moves one of them 1e-4 or more, and both edges are certified |
| Tiers.TryFractions | home_planner.py:189-196 | the largest of the three fractions of a joint's move home whose edge is certified, with its clearance |
| Tiers.BestSingleMove | home_planner.py:187-199 | the first joint of greatest clearance among those with a certified move |
| Tiers.GreedyTier | home_planner.py:173-200 | terminates without the clock; a route is a walk of best single moves, at most 3n long, ending within 1e-4 of home in every joint; each way to fail is the code's |
| TierMoves.GreedyStepSays | home_planner.py:184-200 | a greedy step is, among the single joints moved 1, else 0.6, else 0.3 of their way, the one of greatest clearance, the first joint on a tie; there is none exactly when no joint has a certified move |
| Tiers.GreedyWalkToward | home_planner.py:190-200 | no move ever takes any joint further from home, nor past it, and every edge is certified |
| Tiers.GreedyExact | home_planner.py:173-200 | a greedy route is certified on every edge and contained |
| Tiers.DetourTier | home_planner.py:202-229 | the first back-out, in the order of sizes, joints and signs, from which home is reached straight or staged; none only if none works or the clock cut in |
| TierMoves.DetoursSay | home_planner.py:210-212 | 45, 90, 135 degrees; at each all joints in turn; for each joint forward, then back |
| TierMoves.BackOutSays | home_planner.py:215-216 | a back-out turns its joint by the angle or up to its limit, and no other |
| Tiers.DetourExact | home_planner.py:215-228 | a detour route is certified on every edge, contained, and ends at home |
| RrtConnect.Append | home_planner.py:273-286 | adding a certified edge keeps a tree a tree: parents before children, every edge certified, rooted where it was |
| RrtConnect.Chain | home_planner.py:261-266 | following parents terminates and gives the branch from the root |
| RrtConnect.BranchCertified | home_planner.py:261-266 | every branch is a certified, contained path from the tree's root to the node |
| RrtConnect.Connect | home_planner.py:278-287 | the other tree grows from its nearest node step by step toward the new one and stays a tree; it stops at the first node within the join tolerance, at a refused step or by the clock |
| RrtConnect.Extend | home_planner.py:269-287 | one round: the nearest node steered toward the draw, accepted exactly when its edge is certified, then the connect |
| RrtConnect.GrownNode | home_planner.py:269-275 | when the tree grew, the new node hangs on the first of the nodes nearest to the draw, is one step closer to the draw than it, or is the draw, and their edge is certified; when it did not, that edge is not certified |
| RrtConnect.ConnectNode | home_planner.py:278-287 | each node the connect adds is one step closer to its target than its parent, the first of them hanging on a node nearest to the target |
| RrtConnect.RoundGrows | home_planner.py:269-298 | so does every round of a search |
| RrtConnect.Oriented | home_planner.py:288-290 | in either orientation the joined path runs from the start to home; with tips equal no edge is inexact |
| RrtConnect.CutCertified | home_planner.py:315-318 | a certified short cut keeps the rest of the path certified, and at most one edge nearly so |
| RrtConnect.Shortcut | home_planner.py:308-319 | under any draws and clock: each try takes the cut between its two waypoints exactly when their edge is certified and changes nothing else; the ends and the certificate survive; it stops after 200 tries, with two waypoints left, or late |
| RrtConnect.KeptInOrder | home_planner.py:308-319 | what smoothing leaves are waypoints of the path in their order, the first and the last among them |
| RrtConnect.ClosestBranch | home_planner.py:299-306 | the branch of the start tree whose tip is nearest to home; none exactly when no node is nearer than the start |
| RrtConnect.RrtTier | home_planner.py:231-306 | under any draws and clock: the trees returned are what a sequence of rounds makes of the two roots, each round a draw, a step and a connect, the trees changing places in between; a route is some smoothing of the way over their meeting point, runs from the start and is certified on all edges but at most the join, and on that one too if the trees met exactly; a partial one ends at the node of the start tree nearest to home |
| RrtConnect.SwappedIsParity | home_planner.py:297-298 | the flag that says which tree is rooted at home is the parity of the rounds made |
| HomePlan.RunTier | home_planner.py:107-113 | whatever tier ran, its route has a certificate from the start pose at this scale and floor; a tier that finds nothing had nothing of its kind to find or ran out of time; the tree search completes unless it runs out of time |
| HomePlan.BetterIsBest | home_planner.py:116-121 | the partial carried along is the first of largest gain, above 0.1, among all attempts so far |
| HomePlan.SearchScale | home_planner.py:107-121 | the tiers at one scale are tried in order; an eligible scale is left without a complete route only because the deadline passed |
| HomePlan.FindPlan | home_planner.py:87-125 | the attempts made are a prefix of the scale-then-tier schedule, only the last possibly cut short; the result is the first complete route, else the best partial if allowed, else nothing; unless the deadline passed or a complete route came first, every scale from the given one on at which home has a margin of at least min(0, that of the start) was tried with all five tiers |
| HomePlan.SkippedIsHopeless | home_planner.py:98-106 | skipping a scale loses nothing: at a scale not tried no path that ends at home has a certificate down to min(0, margin of the start) |
| HomePlan.PlanSays | home_planner.py:87-125 | the plan returned is certified at its scale down to min(0, margin of the start); complete exactly when it ends within 1e-6 of home, and else only if partials are allowed, more than 0.1 closer than the start and no further than any other route found |
| PlanClearance.NearEdgeClear | home_planner.py:281-296 | a nearly certified edge is clear up to half a sample spacing plus the join tolerance |
| PlanClearance.PlanClear | home_planner.py:27-40 | any plan from any tier: every pose of every leg, not only the samples, has margin at least min(0, margin of the start) less what the slope allows |
| PlanClearance.PlanInBox | home_planner.py:245-252 | no pose of any leg of a plan, not only its waypoints, leaves the box of joint limits, start and home |
| PlanClearance.MarginIsPairwise | teleop_mantis.py:1077-1091 | the least margin is at least m exactly when each pair keeps its scaled floor plus m |
| PlanClearance.PlanKeepsPairsApart | teleop_mantis.py:1055-1091 | along a plan each pair keeps its scaled floor, the configured one or the default, plus min(0, m0), less what the slope allows |
| PlanClearance.FreeSpace | home_planner.py:132-134 | with the same margin everywhere the straight path is a plan, so the statements above are not empty |
| PlanClearance.PairKeptExactlyWhen | home_planner.py:37-40 | for every geometry: staying no worse than the start keeps a pair from coming closer if and only if that pair started at its scaled floor plus min(0, m0) |
| PlanClearance.PlanMayClosePair | home_planner.py:37-40 | for any other pair and any slope there is a geometry of that slope with these starting distances in which the straight path passes the edge test and ends with the pair closer |
| JoinEdge.JoinExact | home_planner.py:249-296 | what the search checked certifies the join edge if the steering copied its target or the edge has no interior samples |
| JoinEdge.JoinBroken | home_planner.py:269-296 | in every other case some margin passes every check the search made, on the edge into the meeting pose and on the step toward it, and fails the executed join edge |
| JoinEdge.JoinCertifiedExactlyWhen | home_planner.py:269-296 | over every edge into the meeting pose and every geometry: the checks of the search certify the join edge if and only if the steering copied its target or the edge is no longer than a check step |
| JoinEdge.JoinCertifiedFrom | home_planner.py:269-296 | for a given edge into the meeting pose, over every geometry: if and only if each sample of the join edge was a sample of that edge or of the step |
| JoinEdge.RefusedEdgeReturned | home_planner.py:231-296 | a run of the search in which it returns, under every smoothing, exactly the straight edge that fails the edge test, for any home a step and less than the join tolerance away |
| SafetyFilter.ResolveJoints | ros2_packages/safety_filter_controller/src/safety_filter_controller.cpp:130-159 | succeeds exactly when every name is in the model as a one-coordinate joint, with that joint's indices |
| SafetyFilter.FindDuplicate | ros2_packages/safety_filter_controller/src/safety_filter_controller.cpp:185-196 | finds a repeated name exactly when there is one |
| SafetyFilter.Configure | ros2_packages/safety_filter_controller/src/safety_filter_controller.cpp:161-211 | the tables exist exactly when the names resolve and do not repeat; then no two index writes alias |
| SafetyFilter.ScatterAt | ros2_packages/safety_filter_controller/src/safety_filter_controller.cpp:276-278 | writing through distinct indices puts each value in its place and leaves the rest alone |
| SafetyFilter.Controller.ReadCurrentState | ros2_packages/safety_filter_controller/src/safety_filter_controller.cpp:271-285 | the whole configuration is the neutral one with the sensors written in; the measured pose is its commanded part |
| SafetyFilter.Controller.CheckDeltaLimits | ros2_packages/safety_filter_controller/src/safety_filter_controller.cpp:287-296 | true exactly when no joint differs by more than its limit |
| SafetyFilter.Controller.CheckHorizon | ros2_packages/safety_filter_controller/src/safety_filter_controller.cpp:298-371 | true exactly when q + k(c - q) is collision-free for k up to the horizon, uncommanded joints frozen: the period, or the estimate when the period is not positive, cancels |
| SafetyFilter.IntegrateStep | ros2_packages/safety_filter_controller/src/safety_filter_controller.cpp:310-324 | one integration step from the k-th pose ahead is the next one |
| SafetyFilter.Controller.OnActivate | ros2_packages/safety_filter_controller/src/safety_filter_controller.cpp:227-235 | the command and the last safe vector become the measured pose |
| SafetyFilter.Controller.Update | ros2_packages/safety_filter_controller/src/safety_filter_controller.cpp:373-434 | the fields change as one accept-or-hold cycle says, and exactly the command is written |
| FilterRuns.CycleExactly | ros2_packages/safety_filter_controller/src/safety_filter_controller.cpp:373-434 | a whole cycle from sensors and message alone: which vector is considered, when it is accepted, and what is written and remembered in either case |
| FilterRuns.AlwaysHolding | ros2_packages/safety_filter_controller/src/safety_filter_controller.cpp:408-426 | from activation on, after every cycle what is written is the last safe vector |
| FilterRuns.EveryWriteVetted | ros2_packages/safety_filter_controller/src/safety_filter_controller.cpp:403-431 | every vector ever written is the pose measured at activation, unchanged until then, or one accepted at some cycle, then collision-free ahead, and held since |
| FilterRuns.FirstStepIsCommand | ros2_packages/safety_filter_controller/src/safety_filter_controller.cpp:310-324 | the first pose checked ahead is the command itself in the commanded joints and the measured pose elsewhere |
| FilterRuns.PoseIsMeasured | ros2_packages/safety_filter_controller/src/safety_filter_controller.cpp:271-285 | every sensor value reaches its coordinate and no other coordinate moves off neutral |
| FilterRuns.BoundedDrift | ros2_packages/safety_filter_controller/src/safety_filter_controller.cpp:287-296 | over n cycles no joint's output drifts by more than n times its limit |
| FilterRuns.AcceptedNearReference | ros2_packages/safety_filter_controller/src/safety_filter_controller.cpp:383-401 | an accepted write is within 1e-6 of each value asked for, and of the sensed position for each NaN |
| FilterRuns.StuckForever | ros2_packages/safety_filter_controller/src/safety_filter_controller.cpp:408-426 | if in every cycle there is no well-sized message or one joint's reference is over its limit from the held vector, the whole output is constant |
| CommandShaper.Shaper.SetTarget | teleop_mantis.py:324-330 | replaces the target, its feed-forward and its time, and nothing else |
| CommandShaper.Shaper.DoStep | teleop_mantis.py:342-363 | the pose, velocity and feed-forward change as one limited step says, or start at rest on the target |
| ShaperLimits.LimitedSays | teleop_mantis.py:342-363 | a limited step by its limits: the proportional speed cut to the nearest from which the acceleration limit can stop at the target, the smoothed feed-forward added, the sum cut to the nearest within the speed limit, the velocity moved as near to it as the acceleration limit allows |
| ShaperLimits.StopsOrBrakes | teleop_mantis.py:358-363 | without feed-forward, after each step a joint can stop within its error by the acceleration limit, or is braking by all of it |
| ShaperLimits.OvershootBounded | teleop_mantis.py:342-394 | over every run toward a standing target no joint overshoots it by more than v_max dt / 2 + a_max dt^2 / 8 |
| ShaperLimits.FeedForwardNoLag | teleop_mantis.py:342-363 | with its own velocity as feed-forward a target at constant speed is followed without lag, whatever the smoothing |
| CommandShaper.Shaper.RunOnce | teleop_mantis.py:369-398 | one pass: nothing without a target, velocities zeroed when stale, a counted snap when out of reach, else one step, published |
| ShaperLimits.PassSays | teleop_mantis.py:369-398 | one pass: nothing without a target; nothing published and the velocities forgotten when stale; the target itself, at rest, when nothing was published before, the joints changed or one is too far off; else one limited step |
| ShaperRuns.SpeedNeverExceeded | teleop_mantis.py:358-363 | for any stream of targets and feed-forwards no joint's velocity ever exceeds v_max |
| ShaperRuns.ConsecutiveSamples | teleop_mantis.py:357-363 | between consecutive samples without gap, start, shape change or snap the velocity changes by at most a_max dt and the pose by at most v_max dt |
| ShaperRuns.PublishedNearTarget | teleop_mantis.py:389-394 | whatever is published is within the snap distance plus one sample's travel of its target |
| ShaperRuns.PassLength | teleop_mantis.py:366-378 | a pass lasts what the clock says, cut to a quarter of a period and to four; one sample's travel is at most v_max times four periods |
| ShaperRuns.BrakeIdle | teleop_mantis.py:358-360 | for an error that asks for no more speed than twice the acceleration limit over kp, the braking limit does not cut the proportional term |
| ShaperRuns.JointFollows | teleop_mantis.py:357-363 | one joint: a target near a reference of bounded speed keeps it in the lag region, with no limit binding |
| ShaperRuns.LagBound | teleop_mantis.py:342-394 | for targets moving at most u dt per output sample no limit ever binds, the lag stays within u/kp and the snap never fires |
| ShaperRuns.HeldLagBound | teleop_mantis.py:342-394 | for targets held behind a reference moving at most u, never further than off from it: no limit binds, the lag to the reference stays within u/kp + off, the snap never fires |
| ShaperRuns.ShippedTicksFollow | teleop_mantis.py:355-363 | with the shipped gains and 100 Hz targets those conditions hold exactly up to 2/13 rad/s, and at the shipped 0.3 rad/s the first command of a ramp exceeds the acceleration limit |
| ShaperRuns.ClampFollows | teleop_mantis.py:1805-1811 | the clamp leaves the configured speed, 0.9 of the speed limit or half the lead times kp, whichever is least; it meets the conditions of the lag bound if and only if kp dt is at most 1 and 2 kp times it at most the acceleration limit: the clamp itself secures the speed limit and the lead, for every configured speed |
| ShaperRuns.ShippedValuesFollow | teleop_mantis.py:1805-1811 | the shipped homing speed is not clamped and, with the shipped gains and limits, meets the conditions of the lag bound |
| HomeRamp.HomePathClear | teleop_mantis.py:1691-1707 | the straight-path check passes exactly when the edge is certified at the full cushion |
| HomeRamp.ClearPathIsPlan | teleop_mantis.py:1786-1790 | a clear straight path has the certificate of a plan, with floor 0 |
| HomeRamp.WalkTick | teleop_mantis.py:1881-1902 | a tick keeps the command on its leg, moves it at most one step, and turns to the next waypoint only from exactly the current one |
| HomeRamp.AlwaysOnLeg | teleop_mantis.py:1881-1902 | every command of a ramp lies on the leg being walked |
| HomeRamp.MovingTicksBounded | teleop_mantis.py:1881-1902 | with steps of at least smin the moving ticks times smin never exceed the length of the way |
| HomeRamp.RampTicksBounded | teleop_mantis.py:1881-1919 | with ticks at least d apart and steps of at least smin, a ramp not overdue has had no more ticks, waits included, than its way, its dwells and its grace allow |
| HomeRamp.FirstLegOffset | teleop_mantis.py:1801-1804 | started from the last command, the first leg is off the checked one by the initial offset times the part still to go, so never by more than the lead |
| HomeRamp.CommandClear | teleop_mantis.py:1786-1804 | every command along a plan has at least the plan's floor, less what the slope allows for samples, join and, on the first leg, the lead |
| BridgeRuns.Apply | teleop_mantis.py:2026-2192 | every event keeps the invariant: homing excludes the clutch and walks a certified route, a lock needs the clutch and has its line, engaged means ready, a ramp during an episode is the one ordered to stop it, and knows which |
| BridgeRuns.Reached | teleop_mantis.py:1341-1432 | every mode reachable from the constructor's satisfies that invariant |
| BridgeRuns.RampBegins | teleop_mantis.py:1794-1815 | a ramp starts on its first leg, within the lead of the pose its route was certified from |
| BridgeRuns.OrderFromMenu | teleop_mantis.py:2143-2149 | whenever a ramp is to stop the recording, MENU was pressed during the episode it will stop |
| BridgeRuns.EpisodeEndsByItsOwnMenu | teleop_mantis.py:1831-1845 | in every run, whatever ends an episode, MENU was pressed while that very episode was recorded: the end of a ramp never stops another one |
| BridgeRuns.EngagedByHand | teleop_mantis.py:2105-2170 | in every run an engaged arm has been engaged without a break since one press of the clutch or of MENU, debounced and with the hand tracked: neither the end of a ramp, nor recovered joint states, nor HOME ever engages it |
| BridgeRuns.ClutchStep | teleop_mantis.py:2105-2180 | in one event of a run: a control tick drops the clutch exactly when the gate or the follow check fires on fresh joints; a button tick takes it only by hand and drops it only by a press, and leaves a homing arm engaged only by MENU; joint states leave it |
| BridgeEvents.VrSays | teleop_mantis.py:2026-2192 | what a button tick does, field by field: the pose, then pad, MENU, HOME and lock in this order, each with its conditions |
| BridgeEvents.ControlSays | teleop_mantis.py:2323-2384 | what a control tick does, field by field: stale, re-sync, homing, auto-freeze or a command |
| BridgeEvents.JointsSay | teleop_mantis.py:2279-2321 | the first complete joint state makes the bridge ready, frozen and parked there; later ones change nothing else |
| BridgeRuns.PressStopsHoming | teleop_mantis.py:2112-2114 | a whole button tick with only the clutch pressed, while homing, ends the ramp with the recording it was to stop, moves nothing and does not engage |
| BridgeRuns.HomeRefused | teleop_mantis.py:1764-1797 | a refused HOME changes nothing during an episode; otherwise the clutch is dropped exactly by a refusal for limits or for want of a route, and homing, recording and last command stay |
| BridgeRuns.HomingCommandClear | teleop_mantis.py:1864-1919 | in every run each homing command moves at most one step and is as clear as its route was certified to be |
| BridgeEvents.TickEndsRamp | teleop_mantis.py:1864-1919 | in every run: a homing tick at which the gate looks and finds less than the floor ends the ramp and commands nothing; any other ends it exactly on the last waypoint, with the robot within the done tolerance or the grace over |
| BridgeRuns.RampEnds | teleop_mantis.py:1864-1919 | in every run a ramp that nothing else ended ends within that many control ticks, whatever the buttons, the joint states and the robot do meanwhile |
| BridgeRuns.GateQuietOnRoute | teleop_mantis.py:1866-1880 | for a margin of pair distances with non-negative floors: the live gate does not fire at the pose the route starts from, nor at any that meets the route's margin; on a straight full-cushion ramp it is the teleoperation gate |
| Bridge.Node.FindHomeRoute | teleop_mantis.py:1691-1762 | the straight route exactly when it is clear; else none without a planner, and otherwise the plan its attempts call for, at the scale found and with the floor of the start, or none if they call for none; any route returned is certified from the measured pose |
| Bridge.Node.StartHome | teleop_mantis.py:1764-1829 | the fields become those of the step function, including the freeze before a refusal |
| Bridge.Node.EndHome | teleop_mantis.py:1831-1862 | the ramp is gone, the recording it was to stop is stopped, target and anchor are parked |
| Bridge.Node.HomeTick | teleop_mantis.py:1864-1919 | gate, step, waypoint, dwell, done and grace, as one function of the old state |
| Bridge.Node.OnEngage | teleop_mantis.py:1622-1628 | engaged, tracking restored, anchored at the target |
| Bridge.Node.OnDisengage | teleop_mantis.py:1630-1644 | frozen, lock dropped, target parked, blend only if joint states are fresh |
| Bridge.Node.AxlockEngage | teleop_mantis.py:1646-1667 | locks to the line through the target, or does nothing for a zero axis |
| Bridge.Node.AxlockRelease | teleop_mantis.py:1669-1683 | drops the lock and re-anchors only if engaged with a fresh pose |
| Bridge.Node.OnVr | teleop_mantis.py:2026-2192 | pose, pad, MENU, HOME and lock handled in this order, as the step functions say |
| Bridge.Node.OnTick | teleop_mantis.py:2323-2384 | stale joints, re-sync, homing, auto-freeze or one command, as the step function says |
| Bridge.Node.OnJointStates | teleop_mantis.py:2279-2321 | the first complete joint state makes the bridge ready, frozen and parked |
| Recorder.Best | lerobot_recorder.py:326-326 | the first image nearest to the expected time |
| Recorder.EpisodeRecorder.CommitPending | lerobot_recorder.py:310-335 | matches every secondary before it changes anything |
| RecorderEvents.CommitSays | lerobot_recorder.py:310-335 | a commit takes place exactly if every secondary has an image within the tolerance of its expected time, the primary's plus, from five on, the median of the offsets; then the first nearest of each make the frame, which is added or skipped, and their offsets are learned, the last sixty kept; else nothing changes |
| Recorder.EpisodeRecorder.Picture | lerobot_recorder.py:292-308 | history of four per secondary; a primary commits or drops the pending one and takes its place |
| RecorderEvents.PictureSays | lerobot_recorder.py:292-308 | the last four images of a secondary are kept; the primary's, while recording, commits or drops the one pending and takes its place |
| Recorder.EpisodeRecorder.Begin | lerobot_recorder.py:413-454 | refuses a running recorder, a missing library, incomplete joints, a camera without a recent image or a dataset that does not open; else resets the counters and takes the next index |
| RecorderEvents.StartSays | lerobot_recorder.py:413-454 | refused without change exactly while recording, without library, joints, a recent image of each camera or a dataset; else counters reset and the next index taken |
| Recorder.EpisodeRecorder.End | lerobot_recorder.py:456-507 | last commit, then discard without using the index, or queue under it |
| RecorderEvents.StopSays | lerobot_recorder.py:456-507 | a pending image has one last chance; then too short an episode is dropped and its index stays the next one, and any other is queued under its index |
| RecorderEvents.WorkerSays | lerobot_recorder.py:509-518 | an idle worker takes the first episode queued; one that is done adds it to the saved ones |
| Recorder.EpisodeRecorder.Shutdown | lerobot_recorder.py:637-655 | stops a running episode and saves all that was waiting, in order |
| RecorderRuns.CommitAllOrNothing | lerobot_recorder.py:310-335 | commits exactly when every secondary has an image within the tolerance of its expected time; each taken is a nearest one, and only then do the estimates change |
| RecorderRuns.CommitLearns | lerobot_recorder.py:331-333 | a frame adds to each secondary's estimate the offset of a nearest image within the tolerance, keeping the last 60, and touches no other estimate |
| RecorderRuns.Apply | lerobot_recorder.py:292-518 | every event, the worker's included, keeps the books balanced and every primary image accounted for as frame, skipped, dropped or pending |
| RecorderRuns.StartsExactly | lerobot_recorder.py:413-441 | in every run an idle recorder starts an episode if and only if the library is loaded, the joints are complete, the last image of each camera came recently enough, and the dataset opens now or an earlier start opened it |
| RecorderRuns.NothingLostOrReordered | lerobot_recorder.py:488-518 | under any interleaving, saved, in flight and queued together are the kept episodes, in order, numbered consecutively; the next index counts them, so discarded ones use none |
| RecorderRuns.EpisodeAccounts | lerobot_recorder.py:456-464 | at the end of an episode the primary images seen are its frames, those skipped, those dropped and at most one lost pending |
| RecorderRuns.SavedUnderTotal | lerobot_recorder.py:509-518 | each episode is saved under the index equal to the dataset's size at that moment |
| RecorderRuns.ShutdownSavesAll | lerobot_recorder.py:637-655 | after a clean shutdown every kept episode is saved exactly once, the running one included |
| RecorderRuns.FramesInOrder | lerobot_recorder.py:386-408 | an episode's frames are primary images that arrived since its start, in order of arrival, each at most once |
| RecorderRuns.KeptFramesInOrder | lerobot_recorder.py:456-506 | so are the frames of every episode handed to the worker |
| VideoPacking.LastPlaced | lerobot_recorder.py:595-602 | the place of the last episode that has one, latest table first |
| VideoPacking.PackKey | lerobot_recorder.py:603-630 | the episode loop places the clips as the step function does |
| VideoPacking.EachClipSays | lerobot_recorder.py:603-630 | each clip of a run goes where the last one went unless that file is there and would reach the cap; its row starts where the file ended, and that file alone grows |
| VideoPacking.FlushVideos | lerobot_recorder.py:593-631 | one row per pending episode and key, no key touching another's files |
| VideoPacking.PackedIsLaid | lerobot_recorder.py:603-630 | each clip gets an interval of its own length; places never go back; intervals of one file are adjacent, disjoint, after its old content, and end at its duration |
| VideoPacking.FilesGainTheirClips | lerobot_recorder.py:616-622 | every file holds what it held plus exactly the clips placed in it |
| VideoPacking.AppendUnderCap | lerobot_recorder.py:611-618 | with no file beyond the current place, an append leaves its file under the cap |
| VideoPacking.OverCapExactly | lerobot_recorder.py:611-618 | an append reaches the cap exactly when the current file and one already at the next place are both full |
| ChunkReplay.ColumnsByName | policy/dummy_policy_server.py:297-313 | a sent row carries under each client name our value of that name; refused exactly when the names are not a rearrangement |
| ChunkReplay.ColumnsOnce | policy/dummy_policy_server.py:307-311 | with distinct names every column is sent exactly once |
| ChunkReplay.Server.SendPolicyInstructions | policy/dummy_policy_server.py:271-313 | names that are not a rearrangement of ours are an error and change nothing; after any others every row is sent so that, read under those names, it has our values |
| ChunkReplay.ExpectedHolds | policy/dummy_policy_server.py:329-341 | past the end the last row is held; a looping server repeats with the table's period |
| ChunkReplay.Server.PredictChunk | policy/dummy_policy_server.py:343-358 | rows t to t + size - 1, each with its timestep, in the client's columns |
| ChunkReplay.Merge | policy/dummy_policy_server_smoketest.py:96-101 | stale steps dropped, known ones blended: the queue stays a contiguous interval just above the last step, each key holding its table row |
| ChunkReplay.ExecuteNext | policy/dummy_policy_server_smoketest.py:75-80 | what is executed is the row after the last one executed |
| ChunkReplay.Refill | policy/dummy_policy_server_smoketest.py:83-101 | a chunk is merged exactly when the queue holds no more than the threshold's share of a chunk and the request is answered; else the queue stays |
| ChunkReplay.RunClient | policy/dummy_policy_server_smoketest.py:70-101 | for every threshold, chunk size, pattern of empty answers and idempotent aggregator, executed[i] is table row i; with all requests answered every turn after the first executes one, except that one-row chunks stop after one |
| ReplayTable.BuildWaypointTable | policy/dummy_policy_server.py:122-136 | the loops build the table segment by segment |
| ReplayTable.WaypointHit | policy/dummy_policy_server.py:122-136 | every waypoint is in the table, exactly, at the row its travel times add up to |
| ReplayTable.StepsSay | policy/dummy_policy_server.py:130-130 | a segment has its time's number of rows, rounded, halves to even, and one at least |
| ReplayTable.RowSays | policy/dummy_policy_server.py:131-133 | in row i of n every joint has covered i n-ths of its way, and the gripper is where the waypoint wants it |
| ReplayTable.SegmentPace | policy/dummy_policy_server.py:128-134 | within a segment each row is the n-th part of the way from the one before |
| ReplayTable.ScaledRows | policy/dummy_policy_server.py:156-171 | row 0 stays, scale 0 is static, and every distance between rows scales |
| KinematicTree.Hops | teleop_mantis.py:826-839 | terminates with the number of links of a shortest walk between the joints |
| KinematicTree.DistanceIsMetric | teleop_mantis.py:826-839 | the hop count is symmetric, and zero only between a joint and itself |
| KinematicTree.StructNeighbor | teleop_mantis.py:843-850 | drops a pair exactly when both are on the arm and fewer links apart than the limit, or on one joint for a wire box |
| KinematicTree.DroppedSymmetric | teleop_mantis.py:843-850 | the filter does not depend on the order of the pair |
| SegmentFeed.FeedNeverFaster | lerobot_robot_mantis/lerobot_robot_mantis/mantis_follower.py:264-282 | across any number of segments the fed target moves no faster than the pace |
| SegmentFeed.SegmentSays | lerobot_robot_mantis/lerobot_robot_mantis/mantis_follower.py:264-267 | on its way the target has covered the share of the segment that the time gone by is of its length; then it stands at the end |
| SegmentFeed.LegSays | lerobot_robot_mantis/lerobot_robot_mantis/mantis_follower.py:896-898 | a leg is given its length at the pace asked for, 1e-6 at least, or 0.02 if that is longer |
| SegmentFeed.FreezeStepsBack | lerobot_robot_mantis/lerobot_robot_mantis/mantis_follower.py:907-912 | a freeze puts the target back along its segment by exactly the share of it covered between two readings, which is nothing only if it had arrived, the readings are equal or it has no length; it then stands |
| SegmentFeed.Follower.WaitSegment | lerobot_robot_mantis/lerobot_robot_mantis/mantis_follower.py:284-313 | terminates, and by the first thing met: disconnected with the segment left, arrived, frozen by the deadline, or frozen by the gate at a pose below it; at most one look at the pose in 0.05 s and none missed; a freeze is on a pose of the segment |
| SegmentFeed.Follower.PoseWatched | lerobot_robot_mantis/lerobot_robot_mantis/mantis_follower.py:294-311 | while a gated wait goes on, the measured pose was found to have the gate's floor less than 0.05 s before; a wait that the gate ends has just found one that has less |
| SegmentFeed.Follower.LooksSpaced | lerobot_robot_mantis/lerobot_robot_mantis/mantis_follower.py:302-303 | two looks at the pose are at least 0.05 s apart |
| SegmentFeed.Follower.RunPath | lerobot_robot_mantis/lerobot_robot_mantis/mantis_follower.py:859-905 | the first waypoint is the measured pose exactly when the standing target is more than the lead from it, and the rest is the path; the legs run from where the target stands through these waypoints, each from the end of the one before, all of them if done, at the pace; every leg is waited for under the gate min(0, margin of the measured pose) at the smaller of the gate's scale and the plan's; whatever was set before, the feed has no jump from the standing segment on, a frozen one included, and at the end stands still |
| FollowerRuns.ShaperFollowsFeed | lerobot_robot_mantis/lerobot_robot_mantis/mantis_follower.py:264-282 | read once per output sample, a feed without jumps at a followable pace meets the shaper's conditions: the output stays within v/kp of it, no limit binds and no resync fires |
| FollowerRuns.ShaperFollowsHeldFeed | lerobot_robot_mantis/lerobot_robot_mantis/mantis_follower.py:269-278 | with each target held until the feeder sets the next, the output stays within v/kp and one hold's way of where the feed is at that moment |
| FollowerRuns.FedTargetClear | lerobot_robot_mantis/lerobot_robot_mantis/mantis_follower.py:859-905 | walking a certified route, every target fed on its legs has the plan's floor less the slope times the leg's slack, plus the lead on the first leg when the target did not start from the arm |
| FollowerRuns.BackLegBound | lerobot_robot_mantis/lerobot_robot_mantis/mantis_follower.py:882-894 | any pose has the floor of a certified path less the slope times its distance to the nearest checked pose |
| FollowerRuns.BackLegUncovered | lerobot_robot_mantis/lerobot_robot_mantis/mantis_follower.py:882-894 | the first target of the leg back to the arm may have no more: for every path, slope and standing target some geometry certifies the path and gives that target exactly this margin, negative unless it is a checked pose |
| OutputRuns.ShaperFollowsStairs | teleop_mantis.py:1864-1892 | commands a bounded step apart, each held for a tick: everything published is within u/kp and two steps of the command in force, no limit binds and no resync fires |
| OutputRuns.HomingOutputClear | teleop_mantis.py:1864-1919 | in every run whatever is published for a homing command has the route's floor less the slope times slack, lag and, on the first leg, the lead |
| OutputRuns.PublishedClear | lerobot_robot_mantis/lerobot_robot_mantis/mantis_follower.py:859-905 | from the moment the fed target sets out on a certified route, whatever is published has the plan's floor less the slope times the slack of a leg of the route, the lag and, on the first leg, the lead |
| HomingRetry.Settle | lerobot_robot_mantis/lerobot_robot_mantis/mantis_follower.py:914-926 | arrived exactly when some measured error is within the tolerance |
| HomingRetry.TiersOnlyRelax | lerobot_robot_mantis/lerobot_robot_mantis/mantis_follower.py:457-476 | tiers are valid and never tightened, and two rounds in a row are at the same unsaturated tier only with gaps 0.02 apart downward |
| HomingRetry.TierSays | lerobot_robot_mantis/lerobot_robot_mantis/mantis_follower.py:457-476 | a search starts one tier further on for an empty search before it and one for a round not 0.02 closer, up to the last tier |
| HomingRetry.GoHome | lerobot_robot_mantis/lerobot_robot_mantis/mantis_follower.py:398-529 | at most `attempts` rounds; the first round that ends the loop decides how, else a second round without motion, else the last; every search starts from the tier the rounds before it call for |
| HomingRetry.RunSays | lerobot_robot_mantis/lerobot_robot_mantis/mantis_follower.py:425-529 | every round but the last goes on, in at most one of them the arm stood still; and for each outcome, what the last round met exactly when it is the outcome |
| HomingRetry.HomeMeansMeasuredHome | lerobot_robot_mantis/lerobot_robot_mantis/mantis_follower.py:419-456 | every run that returns True measured a gap or an error within the done tolerance, if and only if the approach tolerance is no larger |
| HomingRetry.NotHomeExactly | lerobot_robot_mantis/lerobot_robot_mantis/mantis_follower.py:450-503 | False is returned exactly when the last round found the link gone, or a complete plan ran and settled close by but not home |
| HomingRetry.NotDrivenTwice | lerobot_robot_mantis/lerobot_robot_mantis/mantis_follower.py:504-519 | "not being driven" takes two rounds in which a plan ran and the arm stayed put |
| HomingRetry.EmptySearchSkipsATier | lerobot_robot_mantis/lerobot_robot_mantis/mantis_follower.py:457-476 | two tiers are lost at once exactly when a search finds nothing and the next round is not 0.02 closer |

## Left out

- Geometry: Pinocchio kinematics, hulls, distance queries and the IK are the functions `margin` and `collides`; the model's `integrate` moves one-coordinate joints by v dt and leaves multi-coordinate joints of zero velocity alone.
- No collision geometry at all: the source then reports an infinite margin, which decides every comparison as a large constant margin does.
- PlanClearance.PlanClear: needs a margin of bounded slope; without one, samples say nothing about the poses between them.
- ShaperLimits.OvershootBounded: assumes a constant sample time and no feed-forward, with which the target itself may lie beyond what the limits can follow.
- ShaperRuns.HeldLagBound: assumes a constant sample time and no feed-forward; when a limit binds, as at the start of a ramp at the shipped speed, it says nothing about the lag.
- OutputRuns.ShaperFollowsStairs: takes the ticks to be evenly spaced, with a pass at least every tick.
- OutputRuns.HomingOutputClear: the vector published also holds the parked joints, which do not move.
- `_obs_sanity_checks` of the dummy server, a membership test on state kept by lerobot code that is not part of this model.
- SafetyFilter.Controller.CheckHorizon: when the measured period is not positive, assumes the estimate that stands in for it is not zero; the source would divide by it.
- RrtConnect.RrtTier: the random generator is an arbitrary sequence of draws, so nothing is said about probability of success.
- Bridge.Node: the fields are grouped in five records, and the orientation, roll, anti-windup and shake-detection state of the same methods is left out; the mapped hand target, the commanded pose, forward kinematics and whether the arm is stuck behind its command are inputs.
- VideoPacking.PackedIsLaid: size and duration of files are taken to add under concatenation, and lerobot's next-place function, which is not part of this model, to advance.
- Recorder.EpisodeRecorder.Begin: an image whose conversion raises during the start is left out.
- Recorder.EpisodeRecorder: numpy's median is an arbitrary function; image conversion and robot state are the input that says whether a frame could be added.
- Save failures, interrupts and join timeouts of the recorder, whose cleanup runs through code that is not part of this model.
- ChunkReplay.RunClient: the wire format and lerobot's own observation queue, which decide which requests get an empty answer; the pattern is arbitrary instead.
- FollowerRuns.FedTargetClear: takes the arm to stand still between the measurement the plan was made from and the one the walk starts from.
- HomingRetry.GoHome: what each round meets is an arbitrary input; left out are the search budget in seconds, log texts and the exception's message.
- SegmentFeed.Follower: the 100 Hz feeder thread, which only reads the segment, and `send_action`'s use of segments for policy actions.
- Floating-point rounding everywhere: arithmetic is over the reals, with the tolerances that appear in the code.
- The copy of the planner inside mantis_follower.py, which repeats home_planner.py.
- The episode table's checks against generated data, the speed check's log output, and the WSG50 driver.
- ROS topics, actions, gRPC, threads, encoders and file systems, except as atomic steps with arbitrary results.
