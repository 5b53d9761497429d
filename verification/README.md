# OpenMUL in Dafny

A model of the stateful parts of the OpenMUL OpenFlow controller and proofs about all their runs. Each part has
a specification on values, theorems about all its runs, and the source's own loops and in-place updates, proved equal
to the specification and to keep what the theorems promise.

- **L2 fast path** (`Fdb*`): a hash table of bucket chains with learning, eviction, ageing with compaction in
  place, and flushing; it refines a map, and the flows on the switch agree with it.
- **Flow, group and meter tables** (`Rule*`): rule lists sorted by priority, owners, reference counts with
  rollback, removal of an app, unregistering.
- **Probing and publishing a switch** (`Probe*`): the order of the phases, one announcement, and when it comes.
- **Two controllers** (`Ha*`): roles and generation ids under any delivery of messages.
- **Message framing** (`Framing*`): reassembly of a byte stream with the buffer's wind-back.
- **Fabric** (`Fabric*`, `RouteKeys`): routes for all pairs of hosts, reference counts of hosts, and the flows of a route.
- **Messages** (`Codec*`, `Cookie`): buckets and bands on the wire, and the cookie of a flow read back.

Operations are atomic, as the source runs them under a lock. Time, random numbers, role, the route service, the
match test and the action validators are parameters. Error returns are
part of each operation.

Some properties one would expect do not hold of the code. Each has a run or an input that shows it and the exact
condition under which it holds: a residual rule read back twice (`CountExactIff`, `ReadBackTwice`),
an app that leaves while its groups are in use (`UnregisterDanglesIff`), the buffer's wind-back
(`InStepIffNoWindBack`, `HalvesGarble`), two masters or two slaves (`TwoOfARoleIff`, with the runs of `HaSplits`),
references of pending routes (`UnfreedIffLeaked`, `OtherEndLeaks`), routes made twice (`RecalcOnceIff`, `NoneFromIff`, `SecondRouteStays`),
a host that returns to a port still held under its key (`AddHostIs`, `ReturningHostIsLost`), tenant ids above twelve
bits (`LaterUninstallMirrorsInstall`, `WideTenantStays`), and ports above sixteen bits in the fast path
(`LearnThenLookup`, `WidePortIsCut`).

## Model

| member | source | states |
|---|---|---|
| FdbChain.AgeChain | mul/mul_fp.c:134-275 | For any bucket chain: after one ageing pass the slots read in order are the surviving entries in their old order, then invalid slots; no bucket but the first is empty, every bucket is either kept in the chain or freed and never both, and the deletes sent are those of the entries whose port is gone, in order |
| FdbChain.AgeBucket | mul/mul_fp.c:157-250 | One bucket of the pass keeps the two-finger layout: survivors packed up to the destination, the rest of the chain untouched |
| FdbChain.AgeSlot | mul/mul_fp.c:164-249 | One slot of the pass: dropped, left where it is, or moved to the destination, each keeping the layout |
| FdbChain.NextFree | mul/mul_fp.c:216-241 | The first invalid slot at or after a position, across buckets, or that there is none |
| FdbChain.MoveSlot | mul/mul_fp.c:201-241 | An entry moved to the destination leaves its slot invalid, and the search across buckets makes the very next slot the new destination |
| FdbChain.Unlink | mul/mul_fp.c:252-270 | Taking an empty bucket out leaves a chain of the others with their slots |
| FdbChain.StageCut | mul/mul_fp.c:256-262 | When an empty bucket is taken out, the recorded destination, if any, is the slot after the last survivor and lies in a bucket that stays |
| FdbChain.DstKept | mul/mul_fp.c:256-262 | At every point of the pass the recorded destination lies in a kept bucket and in no freed one |
| FdbLearn.ScanChain | mul/mul_fp.c:289-315 | One walk finds the slot of the MAC or, if it has none, the first free and the first evictable slot and the last bucket |
| FdbLearn.LearnChain | mul/mul_fp.c:277-334 | Learning on a chain changes the entries it stores as the specification on sequences says, in place, in a free slot, over an evicted entry, or in a new bucket |
| FdbLearn.ForwardChain | mul/mul_fp.c:336-358 | Looking a MAC up refreshes and marks exactly its entry and returns its port, or finds nothing and changes nothing |
| FdbLearn.FlushChain | mul/mul_fp.c:373-423 | A flush sends one delete per valid entry in chain order, leaves an empty first bucket and drops the others |
| FdbTable.L2Fdb.Learn | mul/mul_fp.c:277-334 | The hash table of chains after learning is the table specification's, other chains untouched |
| FdbTable.L2Fdb.Forward | mul/mul_fp.c:336-358 | Same for forwarding to a destination |
| FdbTable.L2Fdb.PacketIn | mul/mul_fp.c:470-564 | On the map: a packet that is LLDP, or comes while loops are watched for and that has not settled or the port is closed, changes and sends nothing; any other binds its source to its port and, unless it goes to a group, refreshes its destination and adds its flow with the bound port if and only if it is bound |
| FdbTable.L2Fdb.Age | mul/mul_fp.c:134-275 | Every chain of the table is aged, and the messages sent are those of all chains in order |
| FdbTable.L2Fdb.Flush | mul/mul_fp.c:373-423 | Every chain of the table is flushed |
| FdbMap.LearnRefines | mul/mul_fp.c:277-334 | Learning is an update of a plain MAC-to-(port, time) map, minus at most one evicted MAC; each MAC stays in one slot of its own hash chain |
| FdbMap.EvictedAreStale | mul/mul_fp.c:122-132 | Only a new MAC evicts, and only a binding more than 310 seconds old |
| FdbMap.LearnThenLookup | mul/mul_fp.h:72-80 | Looking up what was just learned returns the learned port if and only if the MAC was known or the port is below 2^16 |
| FdbMap.WidePortIsCut | mul/mul_fp.h:72-80 | On an empty table port 0x10000 is learned as port 0 |
| FdbMap.ForwardRefines | mul/mul_fp.c:336-358 | Forwarding refreshes one entry of the map, and sends an add with its port exactly when the MAC is known |
| FdbMap.AgeRefines | mul/mul_fp.c:134-275 | Ageing restricts the map to the bindings whose port is neither down nor purged and that are no older than 302 seconds |
| FdbMap.AgeSentAre | mul/mul_fp.c:134-275 | An ageing pass withdraws exactly the flows of entries whose port is gone: expired entries go silently |
| FdbMap.FlushRefines | mul/mul_fp.c:373-423 | A flush empties the map |
| FdbMap.FlushSentAre | mul/mul_fp.c:373-423 | A flush withdraws the flow of every entry and of no other MAC |
| FdbPacket.PacketInRefines | mul/mul_fp.c:470-564 | The same as a lemma on tables, whatever the chains: the source is learned, the destination looked up, and the messages are those of learning followed by at most one add for the destination |
| FdbPacket.LearnTells | mul/mul_fp.c:85-132 | Learning tells the switch of a changed port by a delete and an add, withdraws the flow of an evicted entry exactly if it was installed, and says nothing else |
| FdbPacket.EvictedIff | mul/mul_fp.c:289-332 | A MAC is evicted if and only if the learned one is new, its chain is not empty and has no free slot, and it is that of the first entry more than 310 seconds old |
| FdbPacket.NewEntryIs | mul/mul_fp.h:72-80 | A new entry is not marked installed unless it reuses a free slot whose last entry left the mark |
| FdbPacket.KeyExample | mul/mul_fp.h:56-69 | How the bytes of a MAC are mixed into its chain number |
| FdbFlows.StepKeepsInv | mul/mul_fp.c:85-423 | Every event keeps controller, wire and switch coherent for every MAC |
| FdbFlows.FlowsAgree | mul/mul_fp.c:535-543 | In every run with ordered delivery within two seconds, an unexpired flow outputs to the port the database holds for its MAC, unless a message at most two seconds old about that MAC is on its way, and an add on its way carries the held port |
| RuleSwitch.FindWithHint | mul/mul_of.c:1662-1685 | One walk returns the rule with the key, and when there is none the place before the first rule of no higher priority |
| RuleSwitch.Associate | mul/mul_of.c:1774-1854 | References every object named, counted with repetitions, or none of them if one is missing |
| RuleSwitch.Disassociate | mul/mul_of.c:1752-1772 | Drops one reference per occurrence |
| RuleSwitch.FlowSwitch.Mod | mul/mul_of.c:1856-1926 | The whole new state of a change: take-over of residual rules, rollback of references and lists on failure, and the residual-over-residual return that drops the lists |
| RuleSwitch.FlowSwitch.Add | mul/mul_of.c:1928-2095 | The table invariant is kept; and for every input, by the rule that has its key if any: the return code, the rule that is left, its flags and owners, that nothing else changed but reference counts, and that the switch is told, by an add or a change, if and only if this is no slave and none of four flags is set, or, for a take-over, the actions differ |
| RuleSwitch.FlowSwitch.Del | mul/mul_of.c:2184-2229 | The table invariant is kept; it fails, changing nothing, if and only if the caller owns no rule with that flow, mask and priority; otherwise the rule loses that owner or leaves, and one that lookups hold waits for them with its references |
| RuleSwitch.FlowSwitch.PurgeTable | mul/mul_of.c:1383-1423 | The table is left with the rules that have another owner; those that go and are held wait for the lookups, the switch is told of those that are not local, and the table invariant is kept |
| RuleSwitch.FlowSwitch.Purge | mul/mul_of.c:1436-1449 | The same for all tables |
| RuleSwitch.FlowSwitch.AddObject | mul/mul_of.c:2710-2897 | The table invariant is kept; for every input the return code, the owner, body, attributes, flags and references left, and the message: an add for a new object an app asks for, a change unless it is refused or a take-over alters nothing, none on a slave |
| RuleSwitch.FlowSwitch.DelObject | mul/mul_of.c:2899-2945 | The table invariant is kept; the object goes, and on a non-slave the switch is told, if and only if its owner asks and nothing refers to it, so a delete of an object some rule lists fails and changes nothing; no other object changes |
| RuleSwitch.FlowSwitch.Free | mul/mul_of.c:5065-5087 | If the counts still include the references of the rule that left, then afterwards every count of every group and meter is right |
| RuleInv.InsertOk | mul/mul_of.c:2034-2037 | Inserting at the hint keeps the list sorted by priority and its keys unique |
| RuleInv.AddKeepsInv | mul/mul_of.c:1928-2095 | An add, successful or not, keeps: sorted tables with unique keys, owners counted, one owner unless local, and every group's and meter's count equal to its listings, held listings and lost listings |
| RuleInv.ModKeepsInv | mul/mul_of.c:1856-1926 | So does a change, including its failures |
| RuleInv.DelKeepsInv | mul/mul_of.c:2184-2229 | So does a delete |
| RuleInv.ObjKeepsInv | mul/mul_of.c:2710-2945 | So do group and meter commands |
| RuleRuns.RunKeepsInv | mul/mul_of.c:1928-2229 | So does every run of flow, group and meter commands, lookups and app removals |
| RuleFacts.ReachableIsSound | mul/mul_of.c:2899-2945 | In every reachable state tables are sorted with unique keys, and a group or meter some rule lists exists, has a positive count and cannot be deleted |
| RuleFacts.Lookup | mul/mul_of.c:1725-1750 | First-match lookup finds a rule if and only if an eligible one matches, and no eligible match outranks it (section 5.3 of the OpenFlow Switch Specification 1.3.1) |
| RuleFacts.AddInstalls | mul/mul_of.c:1973-2039 | After a successful add the key has a rule of its caller doing what was asked, or the shared local rule; no other rule in any table has changed |
| RuleAdds.AddAnswers | mul/mul_of.c:1928-2095 | Every add, by what the table holds: Invalid, Perm, Exists or Ok, where a new rule goes, what a take-over and a change leave, which failures still change the rule, and what is sent |
| RuleFacts.DeleteIs | mul/mul_of.c:2140-2180 | The deleted rule leaves exactly when its caller was its only owner; a non-local rule always leaves, and exactly then, on a non-slave, the switch is told |
| RuleAdds.DelAnswers | mul/mul_of.c:2184-2229 | Every delete: failure exactly without an owned rule of that flow, whole mask and priority; what leaves, what waits in lookups, and what is sent |
| RuleAdds.DeleteWhileHeld | mul/mul_of.c:5065-5087 | A rule deleted while a lookup holds it keeps its references until that lets go, and then everything is as if it had never been held |
| RuleAdds.HoldThenLetGo | mul/mul_of.c:5065-5087 | Looking a rule up and letting go of it changes nothing |
| RuleFacts.PurgeTablesAre | mul/mul_of.c:1383-1423 | Removing an app leaves in each table precisely the rules with another owner, in order, without the app |
| RuleFacts.PurgeSends | mul/mul_of.c:1396-1413 | And sends one delete for each rule that goes and is not local, in order, and nothing else |
| RuleFacts.PurgeHolds | mul/mul_of.c:1396-1413 | Of the rules that go, exactly those a lookup holds wait for it, with their references |
| RuleFacts.RemainingAre | mul/mul_of.c:1383-1423 | What is left: membership in both directions |
| RuleFacts.RemainingOk | mul/mul_of.c:1383-1423 | No rule left names the app, and the list is still well-formed |
| RuleFacts.LostExactlyOnResidualChange | mul/mul_of.c:1872-1890 | References are lost exactly when a residual change meets a residual rule, and then exactly those of that rule |
| RuleFacts.LosesIff | mul/mul_of.c:1752-1926 | Of all commands, an add of a residual rule over a residual rule with that group or meter is the only one that loses a reference to it |
| RuleFacts.CountExactIff | mul/mul_of.c:1752-1926 | In every run a group's or meter's count is the number of its listings in tables and in held rules if and only if no add of the run met that guard |
| RuleFacts.LostForever | mul/mul_of.c:2921-2926 | After a loss, in every later state the object exists and no delete succeeds |
| RuleFacts.ReadBackTwice | mul/mul_of.c:1884-1888 | A run that reads one rule back twice and leaves a group no rule lists and no delete removes |
| RuleFacts.UnregisterDanglesIff | mul/mul_app_interface.c:269-296 | When an app unregisters, some rule lists a missing group or meter if and only if a rule that outlives the app listed one of its own |
| RuleFacts.LenderLeaves | mul/mul_of.c:2839-2843 | A run in which that happens |
| ProbeSwitch.Switch.UpdateProbe | mul/mul_of.c:848-876 | For the phase that is due: order and announcement promises are kept, and the phase is over if and only if it has lasted more than ten seconds |
| ProbeSwitch.Switch.ProbePhase | mul/mul_of.c:914-939 | The order of all requests is kept; the switch is asked if and only if nothing was asked yet, the last request is more than four seconds old, or the phase was just given up after ten; an attempt a second later ends the phase or leaves it strictly less time |
| ProbeSwitch.Switch.TryToPublish | mul/mul_of.c:878-947 | Order and announcement promises are kept; a switch that is not ready is left alone, one that is probed for all three, or any on a slave, is announced unless it was, and otherwise only the phase that is due is probed; the attempts left never grow, and a later attempt makes them fewer |
| ProbeSwitch.Switch.RegisterOnce | mul/mul_of.c:4588-4639 | Afterwards the switch is registered, in bench mode also announced; a second registration changes nothing; order and announcement promises are kept |
| ProbeSwitch.Switch.LastReply | mul/mul_of.c:6946-6957 | The last part of a reply ends its phase if that is being probed, for flows once no table is left to answer, and else changes nothing; the promises are kept and the announcement is never put further off |
| Probe.ProbedInOrder | mul/mul_of.c:840-947 | In every run from a new switch: group probing only after meters are done, flow probing only after groups, in the flags and in the order of requests sent; published implies registered with ports and all three done; announced exactly once if published, never before |
| Probe.ReadyIff | mul/mul_of.c:4642-4700 | In every run a switch is registered if and only if a features reply came, and knows its ports if and only if an OpenFlow 1.0 one or their own reply did |
| ProbeProgress.TryProgress | mul/mul_of.c:848-947 | A call never increases the measure on phases and time left, and an attempt a second later decreases it |
| ProbeProgress.PublishedWithin37 | mul/mul_of.c:848-947 | In every run from a new switch, whatever happened before and whatever replies come or not: 37 timer attempts after the ports of the registered switch are known it is published |
| ProbeProgress.SilentSwitch | mul/mul_priv.h:632-642 | A switch that never answers a master is published by exactly the last of the attempts the measure counts |
| ProbeProgress.ThirtySevenIsTight | mul/mul_of.c:848-947 | From a fresh switch no fewer than 37 attempts do |
| HaHandle.HaNode.Transition | mul/mul_ha.c:249-294 | A master asks for the master role and a slave for the slave role, with the next id, above everything sent before below wrap-around; the last request sent keeps showing the node's role and id |
| HaHandle.HaNode.SendState | mul/mul_ha.c:150-162 | System id, id and state are told, nothing ever sent exceeds the node's id, a dead connection takes its role and system id, and the last request sent keeps showing role and id |
| HaHandle.HaNode.Timer | mul/mul_ha.c:488-535 | The state after a tick in every case: who connects, who is elected, a take-over after more than ten seconds of silence, a conflict given up once five ticks were counted and the peer is in conflict too; all ever sent keeps climbing, and the last request sent keeps showing role and id |
| HaHandle.HaNode.Receive | mul/mul_ha.c:401-460 | The id becomes the larger of the two, all ever sent keeps climbing, the state changes, to conflict, if and only if both have one role or one system id or the peer is in conflict and no conflict is known, and the last request sent keeps showing role and id |
| HaHandle.HaNode.UpdateGen | mul/mul_ha.c:394-399 | The id becomes the larger of the two, switches are told if and only if it grew, and all ever sent keeps climbing |
| HaHandle.HaNode.SwitchJoins | mul/mul_of.c:4615-4620 | A switch that registers is asked for the node's role with its id, nothing else changes, and all ever sent keeps climbing |
| HaHandle.HaNode.RoleReplied | mul/mul_of.c:7504-7526 | A larger id in a reply, other than the one that stands for none, is taken over, and the switches are told |
| HaView.SwitchesKnow | mul/mul_ha.c:63-82 | In every run from the start, wrap-around included, the last role request a controller sent asks for the master role if and only if it is master, for the slave role if and only if it is slave, and carries its id |
| HaView.TickIs | mul/mul_ha.c:488-535 | The state after a tick, for every state and all that is known of the peer, and the master role claimed on a take-over |
| HaRuns.GenFallsIffWraps | mul/mul_ha.c:249-294 | A step lowers the generation id if and only if it takes a role at the largest 64-bit id |
| HaRuns.RunClimbs | mul/mul_ha.c:361-399 | Below wrap-around, in every run from the start with lost, late, repeated or reordered messages: ids never decrease, nothing sent exceeds its sender's id, and a role taken is claimed with an id above all that node sent before (section 6.3.4 of the OpenFlow Switch Specification 1.3.1) |
| HaRoles.NeverBothSlave | mul/mul_ha.c:488-535 | In every run from the start without a conflict given up, connections lost and take-overs included: never two slaves |
| HaRoles.NeverBothMaster | mul/mul_ha.c:488-535 | In every run from the start without return to NONE and without take-over: never two masters |
| HaRoles.DoublesIff | mul/mul_ha.c:488-535 | One step makes two masters (two slaves) where there were not if and only if the node takes over, or elects itself on what it last heard, while its peer has that role |
| HaRoles.TwoOfARoleIff | mul/mul_ha.c:488-535 | Over any run from the start there are ever two masters (two slaves) if and only if some step is such a step |
| HaRoles.SplitIsDetected | mul/mul_ha.c:432-459 | In every run from the start without return to NONE, a master that hears of a master, or anyone who hears of a conflict, is in conflict, and a node in conflict stays there |
| HaSplits.TakeoverSplits | mul/mul_ha.c:516-521 | A run with a take-over and two masters |
| HaSplits.ReconnectSplits | mul/mul_ha.c:265-279 | A run with lost connections, no take-over and two masters |
| HaSplits.RedrawSplits | mul/mul_ha.c:273-275 | A run with conflicts given up and two slaves |
| FramingConn.Receiver.TakeMessages | mul/mul_events.c:400-428 | Any messages that are well-formed byte by byte, followed by less than a header, are taken off the buffer exactly as they are, in order; no byte is lost; and any contents are split as the specification says |
| FramingConn.Receiver.ReadChunk | mul/mul_events.c:393-435 | One read in the byte buffer: messages, and the contents left, wind-back included |
| FramingConn.Receiver.EnsureRoom | mul/mul_events.c:357-360 | Growing the buffer keeps its contents |
| Framing.SplitJoin | mul/mul_events.c:400-428 | A stream cut in two: the second piece is split after what the first left over, whatever the first left |
| Framing.WireSplits | mul/mul_events.c:400-428 | Messages with a known version, a type below 255 and their own length, high byte first, in bytes three and four are split off exactly, whatever their number and size, and less than a header is left over |
| Framing.WireEnds | mul/mul_events.c:403-416 | Any other version, or type 255, ends in corruption; a length of zero is never passed; too few bytes wait |
| Framing.SplitConserves | mul/mul_events.c:400-428 | The messages split off and what is left are the stream, byte for byte |
| Framing.WireDelivered | mul/mul_events.c:351-435 | A list of such messages, cut into reads in any way that winds back onto no stale bytes, is delivered as that list with nothing left |
| Framing.AnyCutDelivers | mul/mul_events.c:351-435 | For any cut of a stream into reads, the messages delivered are those of the whole stream if no read ends in an unfinished message as long as the one before it but with other bytes |
| Framing.InStepIffNoWindBack | mul/mul_events.c:430-433 | And the connection is in step after every read if and only if no read does, a condition on the stream and its cuts alone |
| Framing.HalvesGarble | mul/mul_events.c:430-433 | Any two bare messages cut in halves: the second is delivered under the first one's header, so rightly if and only if the two agree in their first four bytes |
| FabricCtx.Context.MakeRoute | application/fabric/mul_fabric_route.c:645-867 | If both hosts are live and distinct, one route is installed with exactly the path the service answers, or one is made pending for a second if it knows none; otherwise nothing changes; no covered pair is lost and every right counter stays right |
| FabricCtx.Context.RoutesToFrom | application/fabric/mul_fabric_route.c:966-983 | Afterwards every pair of the host with a host of its network has exactly one route more, towards it and with pairing away from it, and no other pair has; every right counter stays right |
| FabricCtx.Context.AddAllRoutes | application/fabric/mul_fabric_route.c:1081-1130 | A due recalculation covers every pair of every network, with all counters right, and is due no more |
| FabricCtx.Context.DeleteRoutes | application/fabric/mul_fabric_route.c:924-1057 | Afterwards no route leads to the host, every route that does not touch it is there in the old order, none is new, and every right counter stays right |
| FabricCtx.Context.ResetRoutes | application/fabric/mul_fabric_route.c:1065-1073 | Afterwards no route is installed and a recalculation is due, with all counters right |
| FabricCtx.Context.DeletePending | application/fabric/mul_fabric_route.c:506-526 | References are forgotten to exactly the ends of the first pending route from the host and the first to it of those left; pairs without the host stay covered |
| FabricCtx.Context.RemoveHost | application/fabric/mul_fabric_host.c:510-585 | The host with that key is out of the table, no route leads to it, its port lets go of it exactly if asked to, every other host is still there, references are forgotten by exactly that guard, and coverage and all counters stay right |
| FabricCtx.Context.EnterHost | application/fabric/mul_fabric_host.c:728-806 | The new record is in the table afterwards if and only if its port is valid, its key unknown and its port free or held under another key; then its port points to it and exactly the holder's key leaves, otherwise nobody; coverage, unique keys and all counters stay right |
| FabricCtx.Context.DropPort | application/fabric/mul_fabric_switches.c:262-279 | The port holds no host any more, exactly the host it held is out of the table, and coverage and all counters stay right |
| FabricCtx.Context.RerouteTurn | application/fabric/mul_fabric_route.c:989-1027 | One turn of the port-delete loop: it goes on if and only if some route to the host leaves a switch before the last by the lost port; the first such route is made pending if its ends share a switch, and otherwise replaced by the answer to a new question; coverage and all counters stay right |
| FabricCtx.Context.RetryPending | application/fabric/mul_fabric_route.c:566-635 | After the pass with its restarts a route still pending was not due, or joins live hosts, was refused in this pass and is due again in four seconds; coverage and all counters stay right |
| FabricCtx.Context.PutHost | application/fabric/mul_fabric_host.c:166-187 | Every counter that was right up to this one reference is right, and the record is freed exactly when no reference is left |
| FabricCover.StepSound | application/fabric/mul_fabric_route.c:837-1130 | Every event keeps coverage, whatever the route service answers |
| FabricCover.AlwaysCovered | application/fabric/mul_fabric_route.c:837-1130 | In every reachable state with no recalculation due, each ordered pair of distinct hosts of one network has an installed or pending route |
| FabricCover.RetryCovers | application/fabric/mul_fabric_route.c:566-635 | The retry pass loses no pair of live hosts |
| FabricOnce.RoutedOnce | application/fabric/mul_fabric_route.c:566-1057 | In every run without a reset, whatever the service answers, each ordered pair of distinct hosts of one network has exactly one route, installed or pending: none is lost, none is made twice |
| FabricOnce.RecalcOnceIff | application/fabric/mul_fabric_route.c:1081-1130 | A due recalculation gives every pair exactly one route if and only if none had one, installed or pending, before |
| FabricOnce.AddFromTotal | application/fabric/mul_fabric_route.c:966-983 | The walk over a host's network makes one route for every pair that is due and no other |
| FabricOnce.RetryTotal | application/fabric/mul_fabric_route.c:566-635 | A retry pass changes the number of routes of no pair of live hosts |
| FabricPaths.PathsAreGiven | application/fabric/mul_fabric_route.c:645-867 | In every run every installed route, first made, retried or rerouted, joins two distinct hosts of one network and follows a path the service gave in answer to one of the questions asked |
| FabricPaths.RetrySettles | application/fabric/mul_fabric_route.c:566-635 | What a retry pass leaves pending: routes that were not due, and routes of live hosts refused by an answer of this pass; so none that is due if every answer is a path |
| FabricRoutes.DropRoutesIs | application/fabric/mul_fabric_route.c:1039-1057 | Deleting a host's routes leaves none to it and all that do not touch it, in order |
| FabricRoutes.NoneFromIff | application/fabric/mul_fabric_route.c:924-954 | Deleting a host's routes leaves none from it if and only if it had at most one to each other host of its network and none elsewhere |
| FabricCases.SecondRouteStays | application/fabric/mul_fabric_route.c:1039-1073 | A run in which reset, recalculation and retry install a route twice, and one copy stays when its source is deleted |
| FabricHosts.AddHostIs | application/fabric/mul_fabric_host.c:728-806 | A new record joins if and only if its port is valid, its key unknown and its port free or held under another key; only the holder's key leaves |
| FabricHosts.AddHostPlugs | application/fabric/mul_fabric_host.c:760-790 | A host that joins is recorded as it came, and its port points to it |
| FabricHosts.PortDownIs | application/fabric/mul_fabric_switches.c:262-279 | A port that goes away takes exactly the host it points to out of the table |
| FabricHosts.StepKeyed | application/fabric/mul_fabric_host.c:728-806 | Every event keeps the keys in the host table distinct |
| FabricCases.ReturningHostIsLost | application/fabric/mul_fabric_host.c:786-797 | A run in which a host with a valid port and an unknown key is deleted as it arrives, for its port still points to an old record of its own key |
| FabricRoutes.RunHomed | application/fabric/mul_fabric_route.c:837-1130 | In every run each installed route leads to a host in the table |
| FabricRoutes.ResetIs | application/fabric/mul_fabric_route.c:1065-1073 | A reset over all hosts leaves no route installed |
| FabricRoutes.PortLoopEnds | application/fabric/mul_fabric_route.c:989-1027 | If the port-delete loop for a host ends, after any number of turns and whatever the service answered: no route to the host uses the port, routes to other hosts are as they were in order, and coverage is kept |
| FabricRoutes.LostPortIsLeft | application/fabric/mul_fabric_route.c:1096-1105 | If the walk over all hosts ends, no hop before the last of an installed route leaves its switch by the port, and coverage is kept |
| FabricRoutes.RerouteReplaces | application/fabric/mul_fabric_route.c:989-1027 | One turn of the port-delete loop: which route goes, and what replaces it by the service's answer |
| FabricRefs.FreedIffUnheld | application/fabric/mul_fabric_host.c:166-199 | In every reachable state a host record is freed if and only if table, port, routes and forgotten pending routes all do not hold it, and until then its counter is one less than the number of holders |
| FabricRefs.NothingPointsToFreed | application/fabric/mul_fabric_route.c:467-480 | So neither table, nor port, nor installed or pending route names a freed record |
| FabricRefs.DeleteLeaksIff | application/fabric/mul_fabric_route.c:506-526 | For every record: deleting a host forgets a reference to it if and only if it is an end of the first pending route from that host, or of the first to it of those then left |
| FabricRefs.UnfreedIffLeaked | application/fabric/mul_fabric_route.c:492-526 | In every run, a record that table, port and routes have let go of is unfreed if and only if some deletion in the run met that guard for it |
| FabricLeak.OtherEndLeaks | application/fabric/mul_fabric_host.c:540-541 | A run in which a host that no pending route names is deleted and never freed, because an earlier deletion forgot references to it |
| FabricRefs.ForgottenNeverFreed | application/fabric/mul_fabric_route.c:492-496 | And then that record is never freed in any later state |
| RouteKeys.FabRoute.Install | application/fabric/mul_fabric_route.c:219-334 | Hops on known switches get the source host's port at the first hop and the destination host's at the last, in sixteen bits; the flows of every hop are sent in order, and the template is left as it was |
| RouteKeys.FabRoute.Uninstall | application/fabric/mul_fabric_route.c:344-393 | Uninstalling sends the deletes of every hop in order, and leaves the template as it was |
| RouteKeys.AddedIff | application/fabric/mul_fabric_route.c:219-334 | A flow is added if and only if it is that of a hop on a known switch: its port, the tenant id's low twelve bits as tag except at the first hop, its priority, and an ARP twin if those go along |
| RouteKeys.DeletedIff | application/fabric/mul_fabric_route.c:344-393 | A flow is deleted if and only if it is that of a hop as installed, tagged with all of the tenant id |
| RouteKeys.UninstallMirrorsInstall | application/fabric/mul_fabric_route.c:219-393 | With the same switches known and the same ARP mode, over any path the deletes are exactly the adds, ARP twins included, if and only if the tenant id fits in twelve bits or no flow carries it |
| RouteKeys.LaterUninstallMirrorsInstall | application/fabric/mul_fabric_route.c:219-393 | If switches and the ARP mode may have changed meanwhile, the deletes are exactly the adds if and only if the same switches of the path are known, the mode is the same unless none is, and the tenant id fits or no flow carries it |
| RouteKeys.WideTenantStays | application/fabric/mul_fabric_route.c:219-393 | Tenant 0x1000 over two hops: the second hop's flow is added without the tag its delete carries, so the deletes are not the adds |
| CodecLoops.PrintGroup | mul/mul_of.c:2541-2586 | The builder sizes and fills the buckets of a group message |
| CodecLoops.ParseGroup | mul/mul_app_interface.c:1460-1503 | The command parser's bucket loop, errors included |
| CodecLoops.ParseMeter | mul/mul_app_interface.c:1606-1638 | The command parser's band loop, errors included |
| Codec.GroupRoundTrip | mul/mul_app_interface.c:1460-1503 | Parsing rebuilds the printed buckets exactly, if and only if there are at most 128 and the message length fits in sixteen bits |
| Codec.BucketLayout | common-libs/mul-lib/include/mul_app_interface.h:337-345 | A bucket byte by byte: weight, length of its actions, port and group to watch, each high byte first, four zero bytes, the actions |
| Codec.ParseOne | mul/mul_app_interface.c:1460-1503 | A printed bucket in front of anything is read as it is, and the message is refused if its actions are |
| Codec.ParseEnds | mul/mul_app_interface.c:1460-1503 | Where the walk stops, and that actions longer than what is left are refused |
| Codec.MeterRoundTrip | mul/mul_of.c:3073-3114 | The same for bands, with each band's length field right as a further condition, in both directions |
| Cookie.LearnKeepsCookie | mul/mul_of.c:5559-5574 | A learned flow keeps its 64-bit cookie, bit 63 included, if and only if its low word is not zero or would be numbered zero |
| Cookie.ReplayKeepsCookie | mul/mul_of.c:2042-2055 | So does the copy replayed to the peer |
| Cookie.BitsAre | mul/mul_of.c:5559-5574 | Which bits of a cookie are flag, app and number, and that a missing number is the next one |

## Left out

- Sockets, events, threads and locks, including paths that return with a lock held: operations are atomic here.
- The exact-match table, clone entries, and the alternative builds `C_VIRT_CON_HA` and `FAB_USE_CONX`.
- Mapping virtual to physical tables, table and port features, statistics, CLI and servlets.
- FdbFlows.FlowsAgree: packet-ins come from table 0, the controller stays non-slave, and delivery is in order within two seconds; other apps' flows hit by a non-strict delete are not modelled.
- Initialising the fast path over an existing table.
- The matching of a packet against a rule and the validation of actions are parameters, not modelled.
- Use of a group or meter record through a rule after the record was removed by unregistering; `UnregisterDanglesIff` says when such a rule exists.
- FramingConn.Receiver.TakeMessages: stops and says so at a header of length zero, where the source's loop never ends.
- What is read after a corrupt header: the source drops what the socket holds and starts anew.
- HaRuns.RunClimbs: holds below wrap-around of the 64-bit id; `GenFallsIffWraps` says what happens at it. The file the id is stored in is not modelled.
- Activating the hosts of a port that comes back; adding a host is modelled on its own.
- The table of inactive hosts, tenant-network records and their counters.
- FabricRoutes.PortLoopEnds: says nothing of a loop that does not end, which is so as long as the route service returns paths over the lost port.
- When a due recalculation happens: it may come at any time after a reset.
- The actions of a route's flows (output, tag push and strip, destination MAC); the flows' keys are modelled.
- Whether every element of a path is valid: the source checks only that one is.
- The print loop of meter bands, a plain concatenation.
- Local-group flags set by the action validator while a group is parsed.
