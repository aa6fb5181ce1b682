# A verified model of the mesh tools and the benchmark runner

The Arm System Characterization Tool measures a machine from two sides: CMN tools that
discover, program and read the coherent mesh interconnect, and a benchmark runner with its
caches, child processes and result analysis.  This project models the parts of both whose
correctness depends on state, arithmetic or the order of steps, and proves properties of them
for all inputs, all mesh sizes and all runs.

`dafny verify dfyconfig.toml` checks everything.

| file | what it models |
|---|---|
| `Routing.dfy` | routes over a rectangular mesh, X first and then Y, and what they cost |
| `NodeIds.dfy`, `Discovery.dfy` | node ids that pack (x, y, port, device); mesh dimensions from logical ids |
| `Dtm.dfy` | registers of a debug and trace monitor (DTM), and the cached enable flag |
| `Rotation.dfy`, `Capture.dfy` | logical watchpoints rotating over two physical ones; a capture session |
| `Latency.dfy` | the latency monitor: watchpoint allocation, and its sessions |
| `AsyncRuns.dfy` | worker, controller and SIGINT handler around child processes |
| `Select.dfy` | pruned traversal of a mesh by a selector |
| `TopologyJson.dfy`, `SystemJson.dfy` | saving a system's topology as JSON and loading it |
| `LoadedSystems.dfy`, `RepeatedPorts.dfy` | what loading a document guarantees, and what listing a port again costs |
| `Progress.dfy` | the checkpoint log of CPU discovery |
| `Flits.dfy` | decoding flits from trace payloads |
| `PerfEvents.dfy` | the event list that Python prints and C parses |
| `RecipeCache.dfy` | the validated cache of recipe results |
| `Sweep.dfy` | the search for plateau edges in a size sweep |
| `TopdownRates.dfy` | signed, weighted accounting of measured rates |
| `SamRegions.dfy` | node-id tables shared by hashed address regions |
| `Bits.dfy`, `Arithmetic.dfy`, `Options.dfy` | bit fields, division, results |

Code that computes a value is a function; code that updates objects, registers or files is a
class or a method with loops, proved against a function of the old state; interleaved threads
and crashes are a state machine over atomic steps.  Python integers are unbounded, so `nat`
needs no width; 64-bit registers are `bv64` where bits are set and cleared, and numbers with
explicit division and remainder where fields are cut out.

## What the proofs show about the code

* Routing cannot deadlock on any mesh.  Its costs are symmetric between all pairs of nodes
  exactly if opposite sides of every unit square of the mesh carry the same number of slices.
* The id scheme gives coordinates back exactly if both dimensions are at most 16.  Ids of
  different crosspoints differ exactly if there is one column or at most 16 rows.
* A capture session decodes with the configuration that it reads back *after* resetting the
  watchpoints.  What it decodes is what was captured only if the captured watchpoint had
  channel 0, port 0 and format 4 (`Capture.DecodedAsCapturedIff`).
* "No rotation needed" counts slots only; it means that everything is programmed every time
  exactly if the tag settings agree.
* The DTM write guard trusts a cached flag.  It keeps all programming writes off a monitor
  exactly if the monitor is disabled or the flag is cached as true; before anything is cached
  it lets them pass.  That sessions disable first is what makes them safe.
* Selector pruning loses nothing for every selector exactly if each port's properties cover
  its nodes' and the id of each node, its low three bits cleared, is its crosspoint's.  The
  first fails at an HN-F port with an MPAM node: asking for MPAM nodes misses it.  The second
  can fail on CMN-600, where other ids are accepted: asking for such an id misses its node.
* A device slot that is described only by a count of zero slices is saved once and lost on
  the second save; a system saves as the same document again exactly if it has no such slot.
* A topology document that loads gives a system that agrees with itself exactly if no
  crosspoint lists a port in use with CPUs attached and then lists that port in use again.
  Otherwise CPUs stay on the system's map that are on no port.
* Loading a checkpoint reports no match if the log's last section is for another key.  It then
  leaves an older run's maps in the object, exactly if the key's own last section holds a
  discovery.
* A background command that fails is not started again, and its code is the runner's, in every
  interleaving; one that keeps succeeding is started again every ten steps of its worker.
* The recipe cache can vouch for a file that it did not write, exactly if the file is
  overwritten between the write and the `stat` that takes its fingerprint.  Clearing a recipe
  also clears recipes whose names continue its name after a dot.
* No two categories can dominate after adjustment, exactly if there is no baseline or at most
  one external category.  If negative rates stay, it takes at most one external category with
  a baseline, and at most two without.
* The C parser of the event list returns the printed list exactly for one to seven nonzero
  16-bit ids.  A list of event names therefore arrives exactly if it is not empty and no id is
  zero or wider than 16 bits: the table's `SW_INCR`, whose id is 0, is printed and refused.

## Model

| member | source | states |
|---|---|---|
| Routing.Route.AddHop | extern/cmn-tools/src/cmn_routing.py:221-226 | one iteration of the walk: the hop appended is the next one of the X-then-Y route, with that link's slices added to the mesh total |
| Routing.Route.WalkMesh | extern/cmn-tools/src/cmn_routing.py:219-227 | the walk terminates at the destination crosspoint with exactly the route's mesh hops and the sum of their slices |
| Routing.Route.FindRoute | extern/cmn-tools/src/cmn_routing.py:208-234 | from any route object: hops are source link, mesh route, destination link in order; device, CAL and mesh slice totals are those of the hops and of both ends |
| Routing.Route.Cost | extern/cmn-tools/src/cmn_routing.py:236-244 | after a route is found, the cost from the accumulated totals is the sum of the costs of the hops |
| Routing.StepFollowsRoute | extern/cmn-tools/src/cmn_routing.py:166-186 | the branch taken at any crosspoint of a route leads to the route's next point and reads the slices of that link from the crosspoint that records them, for all four directions |
| Routing.StepExtendsRoute | extern/cmn-tools/src/cmn_routing.py:166-186 | walking on from the n-th point of a route and appending the hop gives the first n + 1 hops |
| Routing.RouteIsPathInMesh | extern/cmn-tools/src/cmn_routing.py:208-234 | every route is a connected path of abs(dx) + abs(dy) hops between its ends that never leaves the mesh |
| Routing.NoShorterPath | extern/cmn-tools/src/cmn_routing.py:208-234 | no path between the same crosspoints, inside the mesh or not, is shorter |
| Routing.RankIncreasesOnRoute | extern/cmn-tools/src/cmn_routing.py:166-186 | one rank on directed links rises along consecutive links of every route, device links included |
| Routing.NoWaitingCycle | extern/cmn-tools/src/cmn_routing.py:166-234 | over the routes of all pairs of nodes of a mesh of any size, the relation "a route holds this link and needs that one" has no cycle |
| Routing.RouteCostIsSumOfHops | extern/cmn-tools/src/cmn_routing.py:90-91 | hop costs sum to: distance, slices of the source's row, slices of the destination's column, local costs of both ends |
| Routing.NeighbourCosts | extern/cmn-tools/src/cmn_routing.py:166-186 | between neighbours a route costs one hop and what the western or southern one records for the link, in both directions |
| Routing.EndsAddTheirSlices | extern/cmn-tools/src/cmn_routing.py:188-206 | each end adds its device's and its CAL's slices to the cost between their crosspoints |
| Routing.SymmetricIffSquaresBalanced | extern/cmn-tools/src/cmn_routing.py:236-244 | costs are the same in both directions for all pairs of nodes if and only if opposite sides of each unit square carry equal slices |
| Routing.SymmetricOnALine | extern/cmn-tools/src/cmn_routing.py:166-186 | on one row or one column costs are always symmetric: a link's slices count alike in both directions |
| NodeIds.CoordinatesRecoveredIff | extern/cmn-tools/src/cmn_base.py:290-300 | ids decode to their crosspoint's coordinates on the whole mesh if and only if no dimension exceeds 16 |
| NodeIds.CoordBitsNarrowest | extern/cmn-tools/src/cmn_base.py:238-249 | coordinate fields are the narrowest of two to four bits that hold both dimensions |
| NodeIds.IdOrderIsXyOrderIff | extern/cmn-tools/src/cmn_base.py:276-282 | sorting crosspoints by id is sorting by (x, y) if and only if there is one column or at most 16 rows |
| NodeIds.IdsDistinctIff | extern/cmn-tools/src/cmn_base.py:276-300 | no two crosspoints of the mesh have the same id if and only if there is one column or at most 16 rows |
| NodeIds.DecodeEncode | extern/cmn-tools/src/cmn_devmem.py:485-535 | for either split of the low bits, any (x, y, port, device) that fits packs into an id that decodes to it |
| NodeIds.EncodeDecode | extern/cmn-tools/src/cmn_devmem.py:485-535 | any id of the mesh's width decodes to fields that pack into the same id |
| NodeIds.OwnerIsUnique | extern/cmn-tools/src/cmn_base.py:537-546 | an id is valid for at most one port of the mesh, whatever mix of port counts and CALs its crosspoints have |
| NodeIds.PortsOwnTheirIds | extern/cmn-tools/src/cmn_base.py:517-535 | every id that a port announces is valid for it, up to the multiplicity that the device bits allow |
| NodeIds.AnnouncedIds | extern/cmn-tools/src/cmn_base.py:525-535 | a port's ids are consecutive: one without a CAL, two with a CAL of one or two devices, else as many as the CAL has |
| NodeIds.XpAtId | extern/cmn-tools/src/cmn_base.py:326-329 | the crosspoint found for a masked id is the only one of the mesh with it |
| NodeIds.PortAtId | extern/cmn-tools/src/cmn_base.py:322-333 | the search through a crosspoint's ports returns the one owner of the id in the whole mesh, and None if no port owns it |
| Discovery.FindWidth | extern/cmn-tools/src/cmn_devmem.py:1731-1736 | the width is the logical id of the crosspoint that looks like (0, 1), or the number of crosspoints if none does |
| Discovery.IndexByCoordinates | extern/cmn-tools/src/cmn_devmem.py:1747-1749 | the dictionary by coordinates holds each crosspoint at the coordinates that its id decodes to |
| Discovery.Discover | extern/cmn-tools/src/cmn_devmem.py:1720-1749 | on a mesh with row-major logical ids of any order of discovery, both dimensions and all coordinates are recovered; on other inputs an error is one of three named ones, each for its reason only |
| Discovery.OriginNorthTellsWidth | extern/cmn-tools/src/cmn_devmem.py:1721-1736 | the crosspoint that looks like (0, 1) by the bits of its id has the width as its logical id, and there is one unless the mesh is a single row |
| Discovery.LogicalIdsFill | extern/cmn-tools/src/cmn_devmem.py:1720-1726 | row-major logical ids are exactly the numbers below the number of crosspoints |
| DtmRegisters.DecodeEncode | extern/cmn-tools/src/cmn_devmem.py:1001-1060 | a watchpoint that fits its fields encodes, in either register layout, to a word that decodes to what it means |
| DtmRegisters.Dtm.Write64 | extern/cmn-tools/src/cmn_devmem.py:247-259 | a guarded write changes that register only, and keeps programming writes off enabled monitors if the monitor is off |
| DtmRegisters.Dtm.SetBits | extern/cmn-tools/src/cmn_devmem.py:261-265 | sets the mask's bits in the register and nothing else |
| DtmRegisters.Dtm.ClearBits | extern/cmn-tools/src/cmn_devmem.py:266-270 | clears the mask's bits in the register and nothing else |
| DtmRegisters.Dtm.Enable | extern/cmn-tools/src/cmn_devmem.py:1140-1147 | the cached flag and the control bit are both true afterwards; other registers and earlier safety stay |
| DtmRegisters.Dtm.Disable | extern/cmn-tools/src/cmn_devmem.py:1149-1152 | from any state and any cached flag, flag and control bit are both false afterwards |
| DtmRegisters.Dtm.IsEnabled | extern/cmn-tools/src/cmn_devmem.py:1154-1164 | the assertion that flag and bit agree never fails; the answer is the control bit, and is cached |
| DtmRegisters.Dtm.SetControl | extern/cmn-tools/src/cmn_devmem.py:1347-1359 | writes the control register outright; flag and bit agree afterwards if and only if the caller's word carries no enable bit of its own or enabling was asked for |
| DtmRegisters.Dtm.ClearFifo | extern/cmn-tools/src/cmn_devmem.py:1169-1181 | writes the FIFO-ready register and leaves all configuration as it was |
| DtmRegisters.Dtm.WpSet | extern/cmn-tools/src/cmn_devmem.py:1256-1265 | programs value, mask and configuration of one watchpoint of a disabled monitor, in that order |
| DtmRegisters.PackedEnable | extern/cmn-tools/src/cmn_devmem.py:1347-1359 | the control word that is written enables exactly if asked for or if the caller's word does |
| DtmRegisters.ControlBits | extern/cmn-tools/src/cmn_devmem.py:1347-1359 | bit by bit: enable, tag and no-ATB are what was asked for or what the caller's word has, and all other bits are the caller's |
| DtmRegisters.GuardSufficesIff | extern/cmn-tools/src/cmn_devmem.py:952-961 | in any state, the guard stops every programming write that would meet an enabled monitor if and only if the monitor is disabled or the flag is cached as true |
| DtmRegisters.GuardSufficesOnceCached | extern/cmn-tools/src/cmn_devmem.py:1154-1164 | with flags that tell the truth, as every operation keeps them, it does so if and only if the monitor is disabled or any flag is cached |
| DtmRegisters.GuardMissesUncachedEnable | extern/cmn-tools/src/cmn_devmem.py:952-961 | the condition can fail: a monitor found enabled with nothing cached lets a programming write pass |
| Rotation.WatchRotation.Append | extern/cmn-tools/src/cmn_capture.py:448-451 | adds any bind at the end, one that is listed already too; position unchanged |
| Rotation.WatchRotation.Advance | extern/cmn-tools/src/cmn_capture.py:458-461 | moves to the cyclic successor |
| Rotation.ScheduleIsRoundRobin | extern/cmn-tools/src/cmn_capture.py:886-928 | over any number of configurations the binds programmed in a direction are the cyclic order of the list without gap or repeat, with sharing, pairs and tag mismatches all allowed |
| Rotation.StepFillsSlots | extern/cmn-tools/src/cmn_capture.py:911-918 | one configuration takes the next bind, and the one after it exactly if that is another one, both fit two slots together, and they agree on tags |
| Rotation.RotationIsFair | extern/cmn-tools/src/cmn_capture.py:429-461 | at any time each bind was programmed as often as it is listed in each whole turn, and in no more than one turn more; the counts of binds that are listed once differ by at most one |
| Rotation.RotationCoversAll | extern/cmn-tools/src/cmn_capture.py:429-461 | n configurations in a row program all n binds, from any position |
| Rotation.NoRotationIffSameTags | extern/cmn-tools/src/cmn_capture.py:793-812 | when no rotation is reported to be needed, every configuration programs every bind if and only if their tag settings are equal |
| Capture.ResetDtm | extern/cmn-tools/src/cmn_capture.py:833-836 | from any state: disabled, all four watchpoints reset, and no armed watchpoint or outright control write on the way |
| Capture.CaptureDtm.ConfigureFirst | extern/cmn-tools/src/cmn_capture.py:892-905 | takes the rotation's bind, writes the control word if it is still to be written, and fills the even slot |
| Capture.CaptureDtm.ConfigureSecond | extern/cmn-tools/src/cmn_capture.py:906-928 | fills the odd slot with the second format, the second group, a sharing neighbour, or turns it off |
| Capture.CaptureDtm.ConfigureDirection | extern/cmn-tools/src/cmn_capture.py:886-928 | registers, log, rotation position and record of binds after one direction are those of one schedule step |
| Capture.CaptureDtm.TurnOff | extern/cmn-tools/src/cmn_capture.py:888-891 | both slots of a direction without binds capture nothing |
| Capture.CaptureDtm.Finish | extern/cmn-tools/src/cmn_capture.py:929-949 | sets trace-to-FIFO if asked, clears counters, enables last, with no further outright control write |
| Capture.CaptureDtm.ConfigureBoth | extern/cmn-tools/src/cmn_capture.py:873-928 | from any hardware state, both directions hold their next schedule step and the control word carries the first upload bind's tag setting |
| Capture.CaptureDtm.ConfigureDtm | extern/cmn-tools/src/cmn_capture.py:847-949 | as above, ending enabled with flag and bit equal; the control register is written outright exactly once, while disabled and before any armed watchpoint; no programming register is written while enabled; with counting the local counters are off and zero; the FIFO is not emptied |
| Capture.SessionControlBits | extern/cmn-tools/src/cmn_capture.py:876-905 | the control word of a session enables, sets tags exactly if the first upload bind does, keeps trace off the bus unless it goes there, and has no other bit |
| Capture.SlotsCapture | extern/cmn-tools/src/cmn_capture.py:814-831 | decoded from the registers, a programmed direction captures at its binds' port and channel, by their match values, in their formats: the first group in the even slot, and in the odd slot the sharing bind, the second format, the second group that the even slot combines with, or nothing |
| Capture.RecordTellsSlots | extern/cmn-tools/src/cmn_capture.py:905-928 | the record of binds agrees with the registers: a slot generates packets exactly if a bind is on record for it, and then at that bind's port and channel |
| Capture.DirectionsOrder | extern/cmn-tools/src/cmn_capture.py:886-904 | whichever of the directions have binds, the one outright control write comes before the first armed watchpoint of either |
| Capture.CaptureDtm.TraceReadout | extern/cmn-tools/src/cmn_capture.py:995-1027 | each ready FIFO entry is collected exactly once, in the order of entry numbers, with the bind recorded for it, but with the configuration of a reset watchpoint; an entry without a record is an error; the FIFO is emptied last, and only if asked for |
| Capture.ReadoutCounts | extern/cmn-tools/src/cmn_capture.py:1009-1024 | as many entries are collected as are ready |
| Capture.DecodedAsCapturedIff | extern/cmn-tools/src/cmn_capture.py:1005-1016 | the configuration used for decoding is that of the capture if and only if channel, port and format are the reset ones |
| Capture.CaptureDtm.Trace | extern/cmn-tools/src/cmn_capture.py:1029-1053 | over a whole session of any number of samples both directions follow their schedules, each sample is collected under the binds that were programmed for it, the FIFO is emptied once for each, every guard passes, and the monitor ends disabled |
| Latency.ChooseSlot | extern/cmn-tools/src/cmn_latency.py:353-358 | finds room exactly if the direction has as many free slots as groups; two groups get the even slot |
| Latency.SlotChoice | extern/cmn-tools/src/cmn_latency.py:353-358 | testing the even slot, then the odd one, is complete because the odd slot is never in use without the even one |
| Latency.SameKeyIff | extern/cmn-tools/src/cmn_latency.py:393-398 | two responses are one to a monitor exactly if they agree in monitor, port, channel and direction |
| Latency.LatencyMonitor.SetWp | extern/cmn-tools/src/cmn_latency.py:349-366 | fails exactly if the direction has too few free slots or the monitor is enabled, and then writes no register; otherwise the slots granted were free and are the first two for uploads and the last two for downloads, no slot of a monitor is ever granted twice, and the registers hold the groups, combined only on the even slot |
| Latency.GrantedSlotCaptures | extern/cmn-tools/src/cmn_latency.py:360-365 | decoded from the registers, each granted slot captures its group of the request at the request's port, channel and format; only the even slot of a pair combines |
| Latency.LatencyMonitor.AddRsp | extern/cmn-tools/src/cmn_latency.py:386-403 | a monitor, port, channel and direction is watched once, in the slot that now holds this very request; a repeated request takes no slot and succeeds even on an enabled monitor; a new one fails exactly if there are too few slots or its monitor is enabled |
| Latency.LatencyMonitor.SetReq | extern/cmn-tools/src/cmn_latency.py:373-381 | a tag setter is refused exactly if there is one or its direction has too few free slots; on success its monitor's control word sets tags, keeps trace in the FIFO and is not enabled; as long as it is the tag setter, enabling and disabling leave those bits alone |
| Latency.LatencyMonitor.ProgramPending | extern/cmn-tools/src/cmn_latency.py:405-418 | at any point of a session, over any sequence of requests, repeated ones too, the allocation invariant holds and no programming register is written while enabled; monitors that are all disabled stay so, the tag setter's included; every request that was given slots is still in the registers as it was asked for; on success every response is watched, and the tag setter was granted last and sets tags |
| Latency.LatencyMonitor.InitDtm | extern/cmn-tools/src/cmn_latency.py:79-100 | from any state: disabled, all watchpoints reset, and no programming write while enabled on the way |
| Latency.LatencyMonitor.Init | extern/cmn-tools/src/cmn_latency.py:306-323 | the same for all monitors, in two passes, and no slot in use afterwards |
| Latency.LatencyMonitor.EnableActive | extern/cmn-tools/src/cmn_latency.py:483-488 | each monitor in use gets one write, which enables it; no other monitor is touched, and flag and bit are equal on all |
| Latency.LatencyMonitor.DisableActive | extern/cmn-tools/src/cmn_latency.py:478-481 | monitors in use are disabled, no other is touched, and flag and bit are equal on all |
| Latency.LatencyMonitor.Clear | extern/cmn-tools/src/cmn_latency.py:465-468 | each monitor in use gets two writes, one that enables it and then one that empties its FIFO; no other is touched |
| Latency.LatencyMonitor.Reset | extern/cmn-tools/src/cmn_latency.py:490-512 | monitors in use end enabled, all four watchpoints match nothing, and the last write emptied the FIFO; no other is touched, and nothing is programmed while enabled |
| Latency.LatencyMonitor.GetCapture | extern/cmn-tools/src/cmn_latency.py:420-442 | nothing is captured exactly if there is a tag setter that has nothing ready; after a capture the tag setter's monitor is disabled |
| Latency.LatencyMonitor.GetNext | extern/cmn-tools/src/cmn_latency.py:521-536 | polls until there is a capture or time is up, with all requests in the registers as they were asked for if it programmed them; after a capture, and after a failed attempt, the next call initialises and programs again before it polls |
| Latency.Session | extern/cmn-tools/src/cmn_latency.py:784-811 | over a whole session, on monitors in any state, of any requests and any sequence of requests, programming, initialising, polling, enabling, disabling, clearing and resetting in any order, flag and bit agree on every monitor and no programming register is written while enabled; a failed call ends the session, and it is closed in any case |
| AsyncRuns.StepKeepsInv | src/core/benchrunner.py:100-161 | every step of worker, controller, SIGINT handler and child keeps the lock, flag, process and registration invariant |
| AsyncRuns.RunKeepsInv | src/core/benchrunner.py:100-161 | in every interleaving of any number of runners the invariant holds throughout |
| AsyncRuns.AtMostOneLiveChild | src/core/benchrunner.py:109-132 | a runner never has two live children |
| AsyncRuns.NoSpawnAfterStop | src/core/benchrunner.py:113-123 | once stop has set the flag no child is created for that runner until it is started again |
| AsyncRuns.NoSpawnAfterSigint | src/core/asct_env.py:117-126 | once the handler has taken the watcher's lock and set its flag no runner creates a child |
| AsyncRuns.HandlerLeavesNoneRunning | src/core/asct_env.py:143-184 | when the handler is done every child has exited or been killed |
| AsyncRuns.StopReturnsWithNoneAlive | src/core/benchrunner.py:150-161 | when stop returns the runner has no live child |
| AsyncRuns.StopIsBounded | src/core/benchrunner.py:109-132 | after the flag is set the worker takes at most six more steps in any interleaving |
| AsyncRuns.FailureEndsTheRun | src/core/benchrunner.py:125-129 | in every run, when a child returns a nonzero code while nobody has asked to stop, that code is the runner's return code and no child of the runner is created, until the next start |
| AsyncRuns.StoppedIsSuccess | src/core/benchrunner.py:126-129 | whatever a child returns once the stop flag is set, the return code is 0 and no child is created, until the next start |
| AsyncRuns.FailedSpawnLeaves255 | src/core/benchrunner.py:120-123 | a command that cannot be started leaves 255 and is not tried again until the next start |
| AsyncRuns.OnlyResultsChangeRetcode | src/core/benchrunner.py:120-126 | nothing else changes a return code |
| AsyncRuns.SuccessRunsAgain | src/core/benchrunner.py:109-129 | as long as nobody asks to stop, no interrupt comes and the command starts and returns zero, every ten steps of the worker create one more child, in any interleaving |
| AsyncRuns.StopSignalsItsChild | src/core/benchrunner.py:150-157 | stop kills the runner's live child, or interrupts it if asked to, and touches no other runner's |
| AsyncRuns.InterruptedBeforeKilled | src/core/asct_env.py:143-169 | in every run, when the handler begins to kill, and later, every child that is alive has been interrupted |
| AsyncRuns.LastStepIsTidy | src/core/benchrunner.py:130-132 | when a worker ends, its child is not registered any more and forgotten, and it holds no lock |
| AsyncRuns.InterruptEndsWorker | src/core/asct_env.py:117-122 | a worker that finds the interrupt creates no child, lets go of both locks and takes no further step |
| AsyncRuns.WorkerNeverStuck | src/core/benchrunner.py:109-161 | a worker with work left can step itself; or it waits for its live child, to which stop has sent a signal if it is stopping; or for the thread that holds the lock it needs, which can step: there is no deadlock |
| AsyncRuns.JoinWaitsForSignalledChild | src/core/benchrunner.py:113-161 | in every run, a child that is alive while stop waits for its worker is the one that stop killed or interrupted |
| Select.AnythingMatches | extern/cmn-tools/src/cmn_select.py:215-243 | an expression that asks for nothing, and no expression at all, match every node |
| Select.AlternativesMatch | extern/cmn-tools/src/cmn_select.py:390-394 | alternatives match exactly what one of them matches |
| Select.PlaceNarrows | extern/cmn-tools/src/cmn_select.py:219-238 | asking in addition for a mesh, coordinate, port, device or id narrows any match to exactly the nodes that have it |
| Select.KindNarrows | extern/cmn-tools/src/cmn_select.py:223-242 | and so does asking for a type, a logical id, a CPU, or properties, of which a node must have all |
| Select.RootsAndXpsHaveNoPlace | extern/cmn-tools/src/cmn_select.py:219-238 | only device nodes match a port, device or CPU, and root nodes match no coordinate or id |
| Select.IterPortNodes | extern/cmn-tools/src/cmn_select.py:433-445 | yields the port's matching nodes in order |
| Select.IterXpNodes | extern/cmn-tools/src/cmn_select.py:414-445 | yields the crosspoint if it matches, then the nodes of the ports that pruning keeps |
| Select.IterCmnNodes | extern/cmn-tools/src/cmn_select.py:470-486 | yields root, crosspoints and devices as the pruned traversal does |
| Select.AllNodesInOrder | extern/cmn-tools/src/cmn_select.py:414-486 | the full traversal has exactly the mesh's nodes of the kinds asked for: the root, then by coordinates, each crosspoint before its devices and these by port |
| Select.FilterKeepsMatches | extern/cmn-tools/src/cmn_select.py:433-445 | filtering keeps exactly the nodes that match |
| Select.CoveredIsLossless | extern/cmn-tools/src/cmn_select.py:284-329 | if each port's properties cover its nodes' and all ids are their crosspoints', the pruned traversal with any list of alternatives is the full traversal filtered by the selector, in the same order |
| Select.LosslessIff | extern/cmn-tools/src/cmn_select.py:295-329 | and that holds for all selectors only then: for an uncovered node, and for one whose id is not its crosspoint's, there is a selector whose match is pruned away |
| Select.MpamAtHomeNodeIsLost | extern/cmn-tools/src/cmn_enum.py:99-124 | in any mesh with an MPAM node behind an HN-F port, with the properties that the tables give both, selecting by that node's properties loses it |
| Select.HomeMeshLosesMpam | extern/cmn-tools/src/cmn_enum.py:251-264 | such a mesh: filtering finds the MPAM node and the pruned traversal finds nothing |
| Select.StrayMeshLosesNode | extern/cmn-tools/src/cmn_base.py:716-735 | a mesh, as CMN-600 may have it, with a node of another crosspoint's id: all ports cover their nodes, filtering by the id finds the node, and the pruned traversal finds nothing |
| Select.GroupByType | extern/cmn-tools/src/cmn_select.py:502-513 | groups hold exactly the nodes of each type in traversal order |
| Select.OrderHasNoRepeats | extern/cmn-tools/src/cmn_select.py:488-500 | the group order has each type that occurs, once |
| Select.OrderIsByRank | extern/cmn-tools/src/cmn_select.py:488-500 | the order is root, crosspoints, types with names, types without, and by number within each |
| Select.GroupedTraversalIsStable | extern/cmn-tools/src/cmn_select.py:488-527 | the type-grouped traversal is a permutation of the traversal that keeps the order within each type |
| TopologyJson.PortRoundTrip | extern/cmn-tools/src/cmn_json.py:244-306 | a saved port passes every creation check and comes back with its kind, CAL, slices, slots, device nodes in order and CPUs, and its CPUs appear on the system's map |
| TopologyJson.LoadNodes | extern/cmn-tools/src/cmn_base.py:430-448 | re-creating device nodes by id puts each back on the slot that it was saved from, order kept |
| TopologyJson.LoadSlots | extern/cmn-tools/src/cmn_json.py:128-134 | re-creating described slots restores positive slice counts without touching the nodes |
| TopologyJson.LoadCpus | extern/cmn-tools/src/cmn_base.py:160-169 | re-attaching CPUs restores each slot's CPUs and adds exactly their places to the map |
| TopologyJson.MissingKeys | extern/cmn-tools/src/cmn_json.py:119-138 | a CPU without an id goes to the port's first device, and a port without a CAL entry has none |
| SystemJson.LinkTableCounts | extern/cmn-tools/src/cmn_base.py:795-821 | the table that limits port counts agrees with the links themselves, at every position of every mesh |
| SystemJson.PortLimitIs | extern/cmn-tools/src/cmn_base.py:764-786 | a crosspoint has at most six connections, links and ports together, and at most four ports |
| SystemJson.CreateXpIff | extern/cmn-tools/src/cmn_base.py:410-428 | a crosspoint is created exactly if its id is that of its place and new, its ports fit that limit, and more than two are allowed on the mesh |
| SystemJson.MissingPortCount | extern/cmn-tools/src/cmn_json.py:102-104 | without a count, a crosspoint has as many ports as are listed |
| SystemJson.UntypedPortIsSkipped | extern/cmn-tools/src/cmn_json.py:114-119 | a port entry without a type adds nothing |
| SystemJson.SystemRoundTrip | extern/cmn-tools/src/cmn_json.py:78-139 | loading a saved system of any meshes fails no check and gives back every mesh, crosspoint, port, slot, node and the whole CPU map, up to zero counts, undescribed slots and CAL slices without a CAL |
| SystemJson.NormalKeepsPort | extern/cmn-tools/src/cmn_json.py:244-306 | what comes back of a port is its type, CAL and slices, and each slot's nodes, CPUs and number of slices |
| SystemJson.NormalKeepsXp | extern/cmn-tools/src/cmn_json.py:271-306 | of a crosspoint, its place, ports, logical id, domain, skipped nodes and the slices of its links |
| SystemJson.NormalKeepsSystem | extern/cmn-tools/src/cmn_json.py:335-356 | of a system, its meshes with all their crosspoints, and every CPU's place |
| SystemJson.PortSavesAgainIff | extern/cmn-tools/src/cmn_json.py:254-268 | a port that was saved and loaded saves as the same document if and only if no slot was described by a zero count alone |
| SystemJson.SystemSavesAgainIff | extern/cmn-tools/src/cmn_json.py:335-356 | a system that was saved and loaded saves as the same document if and only if none of its slots, on any mesh, is described by a zero count alone |
| LoadedSystems.LoadPortAgrees | extern/cmn-tools/src/cmn_json.py:114-138 | a port that loads holds only valid nodes, slots and CPUs, and its CPUs are exactly the entries that the map gains |
| LoadedSystems.LoadedIsValid | extern/cmn-tools/src/cmn_base.py:410-448 | whatever document loads without listing a port again after listing it with CPUs, the creation checks leave a valid system: ids, port limits, node ids, slots and the CPU map agree |
| LoadedSystems.LoadedRoundTrip | extern/cmn-tools/src/cmn_json.py:167-194 | so a loaded system saves and loads again, as its normal form |
| LoadedSystems.PortAgainIsValidIff | extern/cmn-tools/src/cmn_base.py:826-829 | one creation of a port that exists keeps the system valid if and only if no CPU was on it |
| RepeatedPorts.AgainLoses | extern/cmn-tools/src/cmn_json.py:114-138 | when a crosspoint's list has a port with CPUs attached and later that port again, loading the whole list leaves some CPU on the map that is on none of its ports |
| RepeatedPorts.LoadedIsValidIff | extern/cmn-tools/src/cmn_json.py:167-194 | a document that loads gives a valid system if and only if no crosspoint lists a port in use with CPUs attached and later lists it in use again |
| RepeatedPorts.RepeatingLoads | extern/cmn-tools/src/cmn_json.py:114-138 | such a document: a port without CPUs, with one, and without again; it loads, and the system is not valid |
| SystemJson.System.ReadPort | extern/cmn-tools/src/cmn_json.py:114-138 | the loops over devices, slots and CPUs build the port and the CPU map of the specification, or stop at the same failed check |
| SystemJson.System.ReadXp | extern/cmn-tools/src/cmn_json.py:101-138 | the loop over ports does the same for a crosspoint |
| SystemJson.System.ReadCmn | extern/cmn-tools/src/cmn_json.py:78-139 | the loop over crosspoints does the same for a mesh, which becomes the system's next one |
| SystemJson.System.FromJson | extern/cmn-tools/src/cmn_json.py:191-194 | the loop over elements does the same for a system |
| Progress.DetectProgress.Load | extern/cmn-tools/src/cmn_detect_cpu.py:135-166 | the loop over lines leaves the maps and the answer of the replay; without a file nothing changes |
| Progress.DetectProgress.Begin | extern/cmn-tools/src/cmn_detect_cpu.py:130-133 | a resumed run writes nothing, another starts a section of its own |
| Progress.DetectProgress.RecordRnf | extern/cmn-tools/src/cmn_detect_cpu.py:168-170 | map and log gain the same record |
| Progress.DetectProgress.RecordLpid | extern/cmn-tools/src/cmn_detect_cpu.py:172-174 | map and log gain the same record |
| Progress.DetectProgress.RecordSrcid | extern/cmn-tools/src/cmn_detect_cpu.py:176-178 | map and log gain the same record |
| Progress.CurrentIffLastMetaMatches | extern/cmn-tools/src/cmn_detect_cpu.py:149-155 | load reports a run to resume if and only if the last section of the log is for its key |
| Progress.ReplayIsLastWrite | extern/cmn-tools/src/cmn_detect_cpu.py:147-166 | then each map holds for each CPU what the last record after the section's start says, and nothing else |
| Progress.CrashedRunIsRestored | extern/cmn-tools/src/cmn_detect_cpu.py:1154-1167 | after any sequence of starts with any keys, discoveries, method switches, completions and crashes, a process that crashes is resumed with exactly what it knew, and the log unchanged |
| Progress.CompletedIsForgotten | extern/cmn-tools/src/cmn_detect_cpu.py:1262-1264 | a completed run leaves nothing: whoever starts next starts afresh, in a new log |
| Progress.StaleIsForgotten | extern/cmn-tools/src/cmn_detect_cpu.py:1157-1167 | a log from before the last boot, or one that is not asked for, is not resumed |
| Progress.NothingLeftIff | extern/cmn-tools/src/cmn_detect_cpu.py:147-166 | reading a log leaves the maps empty if and only if the key's last section, wherever it is in the log, holds no discovery |
| Progress.StartedInSyncIff | extern/cmn-tools/src/cmn_detect_cpu.py:135-166 | the object's maps are what the new process knows if and only if it read no log, or the log's last section is its own, or the key's last section holds no discovery |
| Progress.StaleMapsRemain | extern/cmn-tools/src/cmn_detect_cpu.py:149-155 | they need not be: a run for one key, one for another, and the first again |
| Flits.BytesAsChunks | extern/cmn-tools/src/cmn_flits.py:626-630 | the loop cuts a payload into as many chunks as fit, highest first |
| Flits.ComposeChunks | extern/cmn-tools/src/cmn_flits.py:603-630 | the chunks of any number put together are the number modulo 2 to the (size * n) |
| Flits.ChunksCompose | extern/cmn-tools/src/cmn_flits.py:626-630 | cutting up what was put together gives the chunks back in order |
| Flits.ChunksOfPayload | extern/cmn-tools/src/cmn_flits.py:603-630 | a payload loses nothing but the bits above its last whole chunk |
| Flits.BytesAsIntToBytes | extern/cmn-tools/src/cmn_flits.py:603-607 | the little-endian reading of a number's bytes is the number |
| Flits.FlitOfChunkOf | extern/cmn-tools/src/cmn_flits.py:814-836 | the fields of formats 0, 1 and 2, on every product's widths, read back what was packed |
| Flits.Widths | extern/cmn-tools/src/cmn_flits.py:814-836 | the products' field widths, and how many bits their chunks pad them with |
| Flits.FlitGroup.Decode | extern/cmn-tools/src/cmn_flits.py:805-836 | the group's flits are those of the payload's chunks in order |
| Flits.DecodePacked | extern/cmn-tools/src/cmn_flits.py:805-836 | flits packed into a payload of any length that holds just as many decode to themselves, in order |
| PerfEvents.ParseEventList | extern/dietperf/dietperf.h:403-435 | on any string the parser terminates, writes inside the array only, and returns the code and events of the specification |
| PerfEvents.AcceptedIsInRange | extern/dietperf/dietperf.h:403-435 | an accepted list has one to seven nonzero 16-bit events |
| PerfEvents.StrtoullOfHex | src/core/asct_pmu_api.py:231-233 | Python's hex of a 64-bit number converts back to it up to the comma or the end |
| PerfEvents.PrintThenParseIff | src/core/asct_pmu_api.py:231-233 | printing and parsing give the list back if and only if it has one to seven nonzero 16-bit ids |
| PerfEvents.PrintThenParse | extern/dietperf/dietperf.h:403-435 | every printed list is stored whole, or refused at its first id that is zero, too wide, or the eighth, with the code for that and the ids before it stored |
| PerfEvents.HexIsLowerCase | src/core/asct_pmu_api.py:231-233 | ids are printed with lower-case digits |
| PerfEvents.UniqueKeepsOne | src/core/asct_pmu_api.py:221-222 | de-duplication keeps each name once and no other |
| PerfEvents.UniqueKeepsOrder | src/core/asct_pmu_api.py:221-222 | names keep the order of their first occurrences |
| PerfEvents.EventListFailsIff | src/core/asct_pmu_api.py:221-231 | a list is refused exactly for more than seven different names, or else for one that the table lacks |
| PerfEvents.EventListArrivesIff | src/core/asct_pmu_api.py:220-233 | from event names to the library's array, with any table of ids: what is printed arrives unchanged if and only if there is a name and the ids of all names are nonzero and fit 16 bits |
| PerfEvents.ZeroEventIsRefused | extern/dietperf/dietperf.h:403-435 | the first name whose id is zero makes the library refuse the list, with the ids before it stored |
| PerfEvents.SwIncrIsRefused | src/core/asct_pmu_api.py:26-28 | with a table that gives SW_INCR the id 0, asking for it alone prints 0x0, which is refused |
| RecipeCache.Cache.ClearRecipeCache | src/core/cache.py:188-212 | removes the results, and all files whose name starts with the recipe's name and a dot: its validators, and the files of recipes whose name goes on after the dot; nothing else |
| RecipeCache.ClearedIff | src/core/cache.py:188-212 | a file goes exactly if it is the recipe's own or belongs to a recipe named like it with a dot and more |
| RecipeCache.PrintTellsTimeAndSize | src/core/cache.py:156-186 | a fingerprint tells time and size, and nothing else |
| RecipeCache.Cache.Save | src/core/cache.py:160-186 | clears, writes the results, then records the fingerprint that the file has at that moment |
| RecipeCache.Cache.IsCacheAvailable | src/core/cache.py:214-241 | true exactly if the file is there with a recorded fingerprint of its own |
| RecipeCache.StepKeepsInv | src/core/cache.py:156-241 | every step of saving, overwriting by others, crashing and restarting keeps the validators honest |
| RecipeCache.AvailableIsLastSaved | src/core/cache.py:214-241 | in every run, with crashes between any two steps, the cache is available only if the file is what the last completed save wrote, provided versions are told apart by time and size and none replaces the file between its write and its fingerprint |
| RecipeCache.WindowIsNeeded | src/core/cache.py:160-186 | that proviso is needed: from any state in that window, a completed save vouches for another program's file if and only if that is not the version saved |
| RecipeCache.RunThroughWindow | src/core/cache.py:160-186 | a run from the empty cache, in that window for one step only, after which the cache is available with a file that was never saved |
| Sweep.ExplorePlateau | src/core/sweep_algorithm.py:399-435 | appends the midpoints of the gaps beside the plateau, and sets the bounds, of the specification |
| Sweep.ComputeNewSizes | src/core/sweep_algorithm.py:160-184 | the same over all levels in order |
| Sweep.ProposalIsNew | src/core/sweep_algorithm.py:399-435 | a proposed size has not been measured and lies strictly inside the gap below or above the plateau, in which nothing has been measured |
| Sweep.SearchEdges | src/core/sweep_algorithm.py:160-184 | measuring what is proposed until nothing is terminates for any metrics; each level then reports the smallest and the largest measured size of its plateau, or the limits where there is none to find; for monotone metrics no size of the plateau, measured or not, is below the one or above the other, unless the largest size allowed was reached |
| Sweep.LevelsMean | src/core/sweep_algorithm.py:403-413 | the first level has hardly any misses, the last always misses, one between misses below and not above |
| Sweep.EdgesAreExact | src/core/sweep_algorithm.py:399-435 | for monotone metrics the edges then found are exact: no smaller or larger size is on the plateau, unless the largest size allowed was reached |
| Sweep.LowerGapHalves | src/core/sweep_algorithm.py:399-435 | each round at least halves the gap below a plateau |
| Sweep.UpperGapHalves | src/core/sweep_algorithm.py:399-435 | each round at least halves the gap above a plateau |
| TopdownRates.Topdown.AddCategory | extern/cmn-tools/src/cmn_topdown.py:138-141 | a category is added once, at rate zero |
| TopdownRates.Topdown.Accumulate | extern/cmn-tools/src/cmn_topdown.py:143-144 | changes one category's rate |
| TopdownRates.Topdown.Apply | extern/cmn-tools/src/cmn_topdown.py:355-362 | the loop over actions changes every category by the sum of its signed, multiplied shares |
| TopdownRates.DeltaIsRateTimesWeight | extern/cmn-tools/src/cmn_topdown.py:486-517 | a category changes by the rate times its weight: each action counts with its sign and the last multiplier before it, or 1 |
| TopdownRates.ActionsMean | extern/cmn-tools/src/cmn_topdown.py:355-362 | single actions add, subtract, and multiply what follows |
| TopdownRates.MeasurePlan | extern/cmn-tools/src/cmn_topdown.py:321-364 | every category's rate is the total over the metrics that have a rate; an uncollected rate is an error |
| TopdownRates.MeasurePerMesh | extern/cmn-tools/src/cmn_topdown.py:398-483 | each mesh's analysis gets the events counted on it and its CPU node's rates, and no other: the rates that a table of metrics and meshes gives, if that is what was measured; the errors are the missing rates and the wrong counts of nodes or rates |
| TopdownRates.MeshAnalysesAddUp | extern/cmn-tools/src/cmn_topdown.py:398-483 | for any metrics, actions and meshes, a category's rates in the analyses that MeasurePerMesh returns sum to its rate in the system's, if events of the system count the sum of what they count on the meshes |
| TopdownRates.SplitAddsUp | extern/cmn-tools/src/cmn_topdown.py:306-319 | for any actions and ports, the categories split by port sum to the category measured without splitting |
| TopdownRates.SplitNamesDiffer | extern/cmn-tools/src/cmn_topdown.py:306-319 | a split category's name tells category and port: no two collide, with one mesh or several |
| TopdownRates.Topdown.Finalize | extern/cmn-tools/src/cmn_topdown.py:151-173 | negative rates become zero if asked for; the total is the baseline's rate, or the sum over external categories and the rest; no positive total is an error |
| TopdownRates.TotalGrows | extern/cmn-tools/src/cmn_topdown.py:165-173 | the total is the baseline's rate if there is one, else the rate of no category and those of the external categories, internal ones not counted |
| TopdownRates.Topdown.Dominator | extern/cmn-tools/src/cmn_topdown.py:175-183 | returns the first dominant category exactly if there is one; a level of at most one half or a missing total is an error |
| TopdownRates.AtMostOneDominates | extern/cmn-tools/src/cmn_topdown.py:151-183 | without a baseline and after adjustment, at a level above one half, no two categories dominate |
| TopdownRates.NeverTwoIff | extern/cmn-tools/src/cmn_topdown.py:151-183 | for a list of categories that holds whatever is measured if and only if there is no baseline or at most one external category |
| TopdownRates.UnadjustedNeverTwoIff | extern/cmn-tools/src/cmn_topdown.py:151-183 | if negative rates stay, no two categories of a list dominate, whatever is measured, if and only if at most two are external, or at most one with a baseline |
| TopdownRates.UnadjustedCanHaveTwo | extern/cmn-tools/src/cmn_topdown.py:151-183 | with three external categories and no baseline two can dominate |
| SamRegions.ReadIdsIsSlice | extern/cmn-tools/src/cmn_sam.py:79-86 | reading consecutive packed fields gives that slice of the table, or an index error exactly if it runs past the last register |
| SamRegions.EntryBits | extern/cmn-tools/src/cmn_sam.py:143-202 | which bits of an entry enable it, say that it is not hashed, and choose its table |
| SamRegions.Cmn600Entries | extern/cmn-tools/src/cmn_sam.py:143-202 | on CMN-600 two entries share a register, and counts are the bytes of one |
| SamRegions.HashedRegions | extern/cmn-tools/src/cmn_sam.py:143-202 | the regions are the enabled entries in order; the node ids of those that draw on one table, put together, are the start of the table without overlap or gap, for both layouts and both tables; the walk stops exactly at the first region whose ids do not fit |
| SamRegions.PackedTableReads | extern/cmn-tools/src/cmn_sam.py:79-86 | a table packed four ids to a register reads back as written |
| SamRegions.ProgrammedIdsComeBack | extern/cmn-tools/src/cmn_sam.py:143-202 | so the regions of a table get the first ids written to it, each once and in order |

## Left out

- Memory mapping, sysfs, `perf` subprocesses, ACPI tables and the Arm Debugger interfaces: registers are maps, measurements are arbitrary inputs.
- Command lines, diagrams, text and HTML reports, logging and register dumps.
- Route statistics (mean, minimum and maximum over routes): simple sums over the costs proved here.
- Watchpoint match values (`cmnwatch.py`): a watchpoint is one or two groups of opaque values; `move_tag_setters_first` only reorders a session's monitors.
- Crosspoints with several DTMs: one DTM per crosspoint, since the guard looks at DTM 0 only.
- The FIFO's contents and the DTC: a sample is the set of ready entries; what the hardware captures is not modelled.
- Flit formats 4 and up, whose layouts are finite tables; Trace packet framing.
- Device and port selectors (`match_device`, `iter_port_devices`) and the text syntax of selectors (`rec_split`, `update`).
- In the topology document: timestamps, DMI identity, version and frequency values (carried as one opaque value), the redundant list of all CPUs, and the indexes by node id and by logical id that can be rebuilt from the nodes.
- The text of checkpoint lines and lines torn in the middle by a crash: a record is written whole or not at all. Applying a checkpoint to the system, and the measurements themselves.
- Grouping discovery events into batches and picking the single event that counted: index offsets into lists.
- The validator of the whole cache directory (hash of the system's description) and restoring results from it.
- K-means, pandas and sigmoid parts of the sweep, and `explore_plateau_endpoints`, which need not terminate for arbitrary functions.
- Recipe loading, formatting of analyses, and parsing of action strings into actions and multipliers (`float` syntax).
- Base, size, CAL and SN fields of address regions, and non-hashed regions: single bit fields.
- Accumulation across repeated start and stop in `dietperf.h`, which depends on kernel counters.
- AsyncRuns.StepKeepsInv: threads are a state machine over values, one atomic step per lock operation, flag access or process call, so memory visibility below that is not captured; a signal handler is a thread that contends for the lock.
- Latency.LatencyMonitor.SetWp: the bit mask of slots in use is a set.
- Latency.LatencyMonitor.GetNext: the clock is a list of poll results, which may be empty; collecting the flits of a capture is left out.
- RecipeCache.StepKeepsInv: assumes that removing a file succeeds and that the fingerprint hash does not collide.
- SystemJson.System.ReadXp: crosspoints, ports and slots are values that are replaced, where the source updates objects that point to each other.
- SystemJson.SystemRoundTrip: the system saved is one whose slots and CPU map agree, as the creation calls leave it (`LoadedSystems.LoadedIsValid`); the order of XPs in the document is that of their ids.
- Progress.CrashedRunIsRestored: a discovery and its log record are one step.
