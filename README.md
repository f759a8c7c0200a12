# AndroidPerf telemetry core in Dafny

AndroidPerf is a desktop profiler for Android devices. It attaches to a device
over adb and, for one target package, tracks three things:

- frames per second, from the compositor's latency table;
- CPU usage, from `top`;
- network traffic, from `/proc/net/dev`.

It also reconstructs the compositor layers of that package. This project
models the logic of that core, with every command output treated as an input:

- **Layer** (`layer.dfy`, module `Layers`): the layer record, the occlusion
  test `isCoveredBy`, `equals` and `hashCode`, and the `Layer#<id>:<name>`
  label together with the pattern that reads it back.
- **Layer list** (`layer_list.dfy`, module `LayerList`):
  - the worklist of `Device.updateLayerList` over the compositor dump, cut
    into blocks;
  - `findChildrenLayers`;
  - the per-name ordinals;
  - the stable sort by z;
  - the in-place occlusion pass over an array;
  - list equality by `Layer.equals`.
- **Device session** (`session.dfy`, module `Session`): class `Device` with
  its layers, last listing, target package and uid, launcher list, and three
  samplers. It models:
  - `startPerf`, `endPerf` and `shutdown`;
  - `updateLayerList` as a method proved against the function `NextLayers`;
  - `setTargetPackage`;
  - `updatePackageList`.
- **Device queries** (`device_queries.dfy`, module `DeviceQueries`): the SDK
  default, the ABI list and the ABI choice for the helper binary, the
  `userId=` parse, the focused-window token, and the launcher package list
  (section extraction, name pattern, de-duplicated running-first order).
- **Framing** (`framing.dfy`, module `Framing`): the `PERF_MSG_END\n`
  terminator search of `sendMSG` over the chunks a socket delivers.
- **Samplers** (`sampler.dfy`, `fps.dfy`, `cpu.dfy`, `network.dfy`):
  - `BasePerfService` is class `BaseSampler` (queue, timer, two task handles),
    owned by each concrete sampler class;
  - `FpsSampler` parses the latency table, queues frame times and drains a
    one-second window;
  - `CpuSampler` sums `top` rows and averages per core;
  - `NetworkSampler` sums interface counters and reports telescoping deltas.
- **Text** (`text.dfy`, module `Text`): the Java library semantics the code
  relies on. These are `String.split` with its removal of trailing empty
  strings, `strip`, `indexOf`, `%d` formatting, `parseInt`/`parseLong`, and
  32-bit wrap-around.

Quirks of the source are kept as written, except the strip of the launcher
section (see Findings):

- `y` is read from the same regex group as `x`.
- Blocks with a buffer `slot=` line are skipped.
- Children are de-duplicated only against the names still waiting.
- An exception that escapes a method skips the rest of that method. The
  model gives such a method an error outcome (`UidCrash`, `FocusCrash`,
  `SectionCrash`, `None`).
- An exception that escapes one run of a sampler's update task stops that
  periodic task for good (the handle becomes `Failed`).

## Model

| member | source | states |
|---|---|---|
| Layers.NewLayer | src/main/java/com/android/androidperf/Layer.java:11-24 | a new layer is a SurfaceView exactly when its name starts with "SurfaceView", is visible exactly when it holds a buffer, and keeps the given name, package, ordinal and geometry |
| Layers.CoveredOnlyInOverlayPackage | src/main/java/com/android/androidperf/Layer.java:26-30 | a layer whose package name does not contain "incallui" is never covered |
| Layers.IsCoveredBy | src/main/java/com/android/androidperf/Layer.java:26-30 | the occlusion test: not above the other layer, in an in-call UI package, and with left and top edges not before the other's and right and bottom edges (each an int sum that wraps) not after them |
| Layers.CoveredMeansInside | src/main/java/com/android/androidperf/Layer.java:26-30 | when no edge sum overflows an int, a covered layer is not above its cover and its rectangle lies inside the cover's |
| Layers.WrapInRange | src/main/java/com/android/androidperf/Layer.java:29 | an edge sum within the int range is unchanged by the wrap-around |
| Layers.OverflowingLayerCovered | src/main/java/com/android/androidperf/Layer.java:29 | an in-call layer whose right edge overflows an int wraps to a negative edge and counts as covered by a layer it sticks out of |
| Layers.CoveringIsTransitive | src/main/java/com/android/androidperf/Layer.java:26-30 | when no edge sum overflows, if A is covered by B and B by C then A is covered by C |
| Layers.Equals | src/main/java/com/android/androidperf/Layer.java:37-47 | two layers are equal exactly when their visibility, ordinal and name agree |
| Layers.EqualsIsEquivalence | src/main/java/com/android/androidperf/Layer.java:37-47 | layer equality (name, ordinal, visibility) is reflexive, symmetric and transitive |
| Layers.EqualsIgnoresGeometry | src/main/java/com/android/androidperf/Layer.java:37-47 | changing package name or geometry never breaks equality |
| Layers.StringHash | src/main/java/com/android/androidperf/Layer.java:51 | String.hashCode stays within the int range (31-polynomial with 32-bit wrap-around) |
| Layers.HashCode | src/main/java/com/android/androidperf/Layer.java:49-55 | the hash of name, visibility and ordinal, computed with 32-bit wrap-around, is an int |
| Layers.EqualLayersHashEqually | src/main/java/com/android/androidperf/Layer.java:49-55 | equal layers have equal hash codes |
| Layers.ToString | src/main/java/com/android/androidperf/Layer.java:33-35 | the label starts with `Layer#` and ends with ':' and the layer name |
| Layers.LabelRoundTrip | src/main/java/com/android/androidperf/Layer.java:33-35 | matching `Layer#(\d*):(.*)` against the label of a layer with a non-negative ordinal and a one-line name yields digits that read back as the ordinal, and the name |
| LayerList.FirstBuffer | src/main/java/com/android/androidperf/Device.java:379-382 | the size comes from an `activeBuffer` line of the block, and there is none exactly when the block has no such line |
| LayerList.Geometry | src/main/java/com/android/androidperf/Device.java:383-397 | x and y are both the first group of the position pattern, -1 when absent; an out-of-range x aborts the reading and leaves x, y and z at -1 |
| LayerList.FirstListed | src/main/java/com/android/androidperf/Device.java:458-465 | the child name is a listed name that selects the heading, and none is found only when no listed name selects it |
| LayerList.AttrChildrenListed | src/main/java/com/android/androidperf/Device.java:449-467 | every child found in a block is a listed name selecting that block's heading |
| LayerList.ChildrenOf | src/main/java/com/android/androidperf/Device.java:445-469 | the children of a parent: for each block in dump order, the names its `parent=` lines contribute |
| LayerList.ChildrenAreListed | src/main/java/com/android/androidperf/Device.java:445-469 | every child is a listed name whose block holds a `parent=` reference to the parent |
| LayerList.NoParentNoChildren | src/main/java/com/android/androidperf/Device.java:446-449 | a dump without `parent=` lines names no children |
| LayerList.FindFirstListed | src/main/java/com/android/androidperf/Device.java:458-465 | the loop over the full list returns the first listed name that selects the heading |
| LayerList.FindChildrenLayers | src/main/java/com/android/androidperf/Device.java:445-469 | the children collected by the loops are those the specification function ChildrenOf gives |
| LayerList.BlockChildren | src/main/java/com/android/androidperf/Device.java:449-467 | the loop over one block's attributes finds the children AttrChildren gives |
| LayerList.LineChild | src/main/java/com/android/androidperf/Device.java:455-465 | one `parent=` line naming the parent adds the first name of the full list that selects the block, and nothing otherwise, as AttrChild says |
| LayerList.NotPending | src/main/java/com/android/androidperf/Device.java:368 | queued children are children not already waiting |
| LayerList.RemoveBlock | src/main/java/com/android/androidperf/Device.java:403 | removing a block drops every copy of it and keeps every other block; the dump shrinks when the block was in it |
| LayerList.ScanFrom | src/main/java/com/android/androidperf/Device.java:360-407 | a hit is a block at or after the start that the name selects, that has a buffer line and no slot line |
| LayerList.MatchBlocks | src/main/java/com/android/androidperf/Device.java:358-407 | the matcher loop for one name yields the queue and the hit that ScanFrom specifies |
| LayerList.CollectLayers | src/main/java/com/android/androidperf/Device.java:354-408 | the worklist loop with its idMap and shrinking dump yields the layers Collect specifies |
| LayerList.Collect | src/main/java/com/android/androidperf/Device.java:354-408 | the layers built by polling the worklist until it is empty (or the fuel is spent) |
| LayerList.PollOnce | src/main/java/com/android/androidperf/Device.java:357-407 | one poll moves the worklist, the dump and the built layers exactly as Poll says, and keeps the idMap equal to the per-name count of built layers |
| LayerList.PollExtends | src/main/java/com/android/androidperf/Device.java:356-407 | one poll keeps the layers built so far and adds at most one |
| LayerList.PollShrinks | src/main/java/com/android/androidperf/Device.java:403-404 | one poll only removes blocks, one for each layer it builds |
| LayerList.PollBuilds | src/main/java/com/android/androidperf/Device.java:399-404 | a layer built by a poll carries the polled name and comes from a block of the original dump |
| LayerList.PollQueuesListed | src/main/java/com/android/androidperf/Device.java:368 | names queued by a poll were already waiting or are names of the full list |
| LayerList.PollDense | src/main/java/com/android/androidperf/Device.java:399-401 | a poll gives its layer the next ordinal of its name |
| LayerList.CollectExtends | src/main/java/com/android/androidperf/Device.java:356-408 | draining the worklist only appends layers |
| LayerList.CollectDense | src/main/java/com/android/androidperf/Device.java:399-401 | layers sharing a name get ordinals 0, 1, 2, … in discovery order, without gaps |
| LayerList.CollectFromBlocks | src/main/java/com/android/androidperf/Device.java:372-404 | every collected layer is built from a block of the dump that has a buffer and no slot |
| LayerList.CollectBound | src/main/java/com/android/androidperf/Device.java:403-405 | no more layers are collected than the dump has blocks |
| LayerList.ScanQueuesListed | src/main/java/com/android/androidperf/Device.java:360-368 | names queued during a scan were already waiting or are listed names |
| LayerList.CollectNamesListed | src/main/java/com/android/androidperf/Device.java:341-368 | every collected layer is named by a seed name or by a name of the full list |
| LayerList.InsertByZ | src/main/java/com/android/androidperf/Device.java:411 | one insertion step of the sort adds exactly the inserted layer (multiset) |
| LayerList.SortByZ | src/main/java/com/android/androidperf/Device.java:411 | the sort is a permutation of its input |
| LayerList.SortByZSorted | src/main/java/com/android/androidperf/Device.java:411 | the sorted list is ordered by z |
| LayerList.SortByZStable | src/main/java/com/android/androidperf/Device.java:411 | the sort is stable: the layers of each z level keep their relative order |
| LayerList.Occluded | src/main/java/com/android/androidperf/Device.java:412-423 | the pass keeps length and every field but visibility; a layer ends visible exactly when it was visible and no layer above it, visible on entry, covers it |
| LayerList.OcclusionPass | src/main/java/com/android/androidperf/Device.java:412-423 | the nested loops over the array leave exactly Occluded of the old contents |
| LayerList.HideIfCovered | src/main/java/com/android/androidperf/Device.java:416-422 | the inner loop hides layer i exactly when a layer above it, still visible, covers it, and changes no other layer |
| LayerList.TopLayerUntouched | src/main/java/com/android/androidperf/Device.java:412 | the highest layer is never changed |
| LayerList.OnlyOverlayLayersHidden | src/main/java/com/android/androidperf/Device.java:420-421 | layers outside an in-call UI package keep their visibility |
| LayerList.OcclusionIdempotent | src/main/java/com/android/androidperf/Device.java:412-423 | a second pass changes nothing |
| LayerList.HiddenHasVisibleCover | src/main/java/com/android/androidperf/Device.java:412-423 | when no edge sum overflows, every hidden layer is covered by a higher layer that stays visible |
| LayerList.SameLayersIgnoresGeometry | src/main/java/com/android/androidperf/Device.java:426 | lists that differ only in geometry or package compare equal, so such an update reports no change |
| Session.Seeds | src/main/java/com/android/androidperf/Device.java:340-342 | the seed names are exactly the listed names that contain the package name |
| Session.NextLayers | src/main/java/com/android/androidperf/Device.java:332-433 | the state after updateLayerList: unchanged for a repeated listing, emptied when no listed name holds the package, otherwise the rebuilt layers and the new listing, with the change flag |
| Session.ChangedIffLayersDiffer | src/main/java/com/android/androidperf/Device.java:337-347 | updateLayerList reports a change exactly when the layers afterwards differ from before |
| Session.RepeatedListingIsStable | src/main/java/com/android/androidperf/Device.java:337-338 | a second update with the same listing returns false and changes nothing, whatever the dump says |
| Session.CollectedListed | src/main/java/com/android/androidperf/Device.java:356-408 | every collected layer belongs to the target package and is named in the listing |
| Session.SortKeepsListed | src/main/java/com/android/androidperf/Device.java:411 | sorting keeps every layer a listed layer of the package |
| Session.RebuiltLayers | src/main/java/com/android/androidperf/Device.java:340-423 | after a rebuild every layer is a listed layer of the package, the list is ordered by z, and it is no longer than the dump |
| Session.Rebuild | src/main/java/com/android/androidperf/Device.java:341-423 | the worklist, the sort and the in-place occlusion pass together produce Rebuilt |
| Session.Ended | src/main/java/com/android/androidperf/Device.java:248-256 | endPerf ends a sampler (queue emptied, no task left scheduled) only when profiling had started, and otherwise leaves it as it was |
| Session.RestartDropsQueue | src/main/java/com/android/androidperf/Device.java:233-243 | restarting a running session empties the queue, zeroes the timer and schedules both tasks |
| Session.Device.constructor | src/main/java/com/android/androidperf/Device.java:74-210 | the SDK level, ABI list and core count come from their probes; the layers, the last listing and the uid start empty or zero; the launcher list is built once; every sampler starts with an empty queue, timer 0, no task handles and a live executor, and the FPS and network counters start at zero (the field initialisers of the three services) |
| Session.Device.EndPerf | src/main/java/com/android/androidperf/Device.java:248-256 | the flag ends false, and each sampler is ended exactly when the flag was true |
| Session.Device.StartPerf | src/main/java/com/android/androidperf/Device.java:233-243 | a running session is ended first, every sampler is then begun, the flag ends true, and one latency-clear command goes out per known layer; the executors stay as they were, so a session can be started again |
| Session.Device.Shutdown | src/main/java/com/android/androidperf/Device.java:261-266 | profiling is ended and every sampler's executor is shut down |
| Session.Device.UpdatePackageList | src/main/java/com/android/androidperf/Device.java:280-308 | the list becomes the ordered launcher packages, empty without a section; it is kept when taking the section throws |
| Session.Device.UpdateLayerList | src/main/java/com/android/androidperf/Device.java:332-433 | the layers, the last listing and the result are those NextLayers gives for the old state and the listing (server reply, else dumpsys listing) |
| Session.Device.SetTargetPackage | src/main/java/com/android/androidperf/Device.java:692-705 | profiling is ended and the target set; the uid is replaced only by a parsed int; a crashing uid parse skips the layer update, otherwise the layers are updated as NextLayers says; the executors stay as they were |
| Session.Device.Retarget | src/main/java/com/android/androidperf/Device.java:694-704 | the target is set; the uid is replaced only by a parsed int; unless the uid parse throws, the layers are updated as NextLayers says, and otherwise they are left as they were |
| Session.Device.ReadUid | src/main/java/com/android/androidperf/Device.java:696-703 | the uid is replaced exactly when the first line yields an int after `userId=`; it completes unless the index error escapes |
| DeviceQueries.SdkVersion | src/main/java/com/android/androidperf/Device.java:93-101 | the SDK level is an int |
| DeviceQueries.SdkVersionRoundTrip | src/main/java/com/android/androidperf/Device.java:93-101 | the decimal text of a level reads back as that level |
| DeviceQueries.SdkVersionDefaultsToZero | src/main/java/com/android/androidperf/Device.java:95-100 | text with a non-digit past its first character gives 0 |
| DeviceQueries.AbiList | src/main/java/com/android/androidperf/Device.java:161-167 | the ABI list is never empty, and is the property when getprop prints one |
| DeviceQueries.ChooseAbi | src/main/java/com/android/androidperf/Device.java:525-528 | x86_64, x86 or arm64-v8a is chosen exactly when it is the first of them the list contains; armeabi-v7a exactly when it contains none |
| DeviceQueries.UnknownAbiGetsArm | src/main/java/com/android/androidperf/Device.java:161-167 | an unreadable ABI list gets the armeabi-v7a build |
| DeviceQueries.ParseUid | src/main/java/com/android/androidperf/Device.java:695-703 | a parsed uid is within the int range |
| DeviceQueries.UidOfFirstLine | src/main/java/com/android/androidperf/Device.java:696 | only the first line of the reply is read |
| DeviceQueries.UidRoundTrip | src/main/java/com/android/androidperf/Device.java:696-699 | the line `userId=<u>` gives uid u, whatever later lines say |
| DeviceQueries.UidWithTrailingFieldsKept | src/main/java/com/android/androidperf/Device.java:699-702 | more text after the number makes parseInt fail, and the old uid is kept |
| DeviceQueries.UidWithoutValueCrashes | src/main/java/com/android/androidperf/Device.java:699 | a bare `userId=` has no second field, and the index error escapes |
| DeviceQueries.RemoveAll | src/main/java/com/android/androidperf/Device.java:317 | removing a character leaves none of it and changes nothing when there was none |
| DeviceQueries.FocusRoundTrip | src/main/java/com/android/androidperf/Device.java:313-325 | a focus line ending in `<package>/<activity>}` moves that package to the front unless it is already first; an empty list makes the check throw |
| DeviceQueries.FocusDecision | src/main/java/com/android/androidperf/Device.java:313-325 | which package the focused-window line moves to the front, none, or the crash on an empty list |
| DeviceQueries.FocusWithoutActivity | src/main/java/com/android/androidperf/Device.java:318-320 | a last token without '/' moves nothing |
| DeviceQueries.MainIntentBlock | src/main/java/com/android/androidperf/Device.java:290-294 | the section is the text after the MAIN header and one more character, up to the next intent header, and holds no header itself; no MAIN header means no section |
| DeviceQueries.LastSlash | src/main/java/com/android/androidperf/Device.java:284 | the group of ` {8}\S+ (\S+)/.+` ends at the last '/' of its token that a character other than a line terminator follows, and at none when there is no such '/' |
| DeviceQueries.EntryLineName | src/main/java/com/android/androidperf/Device.java:284 | an indented activity line `<hash> <package>/<activity> filter <hash>` yields its package name, and nothing more |
| DeviceQueries.SeparatorInsideToken | src/main/java/com/android/androidperf/Device.java:284-304 | U+2028 is not a space, so a token runs across it: `        h\u2028x p/a` yields `p` |
| DeviceQueries.SeparatorEndsMatch | src/main/java/com/android/androidperf/Device.java:284-304 | `.+` stops at U+2028 and the search goes on in the same line: `        h p/a\u2028        i q/b` yields `p` then `q` |
| DeviceQueries.StrippedEntryHasNoName | src/main/java/com/android/androidperf/Device.java:284-294 | once stripped, an activity line has lost the indentation the name pattern needs |
| DeviceQueries.FirstEntryDropped | src/main/java/com/android/androidperf/Device.java:294-304 | as written, the stripped section lists the packages of every entry line except the first |
| DeviceQueries.AllEntriesListed | src/main/java/com/android/androidperf/Device.java:284-304 | without the strip, every activity line contributes its package, in order |
| DeviceQueries.PackageOrder | src/main/java/com/android/androidperf/Device.java:296-304 | the captured names de-duplicated, each running package put before the rest |
| DeviceQueries.BuildPackageList | src/main/java/com/android/androidperf/Device.java:296-304 | the loop over the captured names builds the list PackageOrder specifies |
| DeviceQueries.PackageOrderMembers | src/main/java/com/android/androidperf/Device.java:296-304 | the list holds every captured name and nothing else |
| DeviceQueries.PackageOrderDistinct | src/main/java/com/android/androidperf/Device.java:298 | no package is listed twice |
| DeviceQueries.PackageOrderRunningFirst | src/main/java/com/android/androidperf/Device.java:299-302 | packages the process listing mentions come before the others |
| DeviceQueries.LauncherPackages | src/main/java/com/android/androidperf/Device.java:290-307 | the list is kept (None) exactly when taking the section throws, and is empty when there is no MAIN header |
| DeviceQueries.NoLauncherSectionEmptiesList | src/main/java/com/android/androidperf/Device.java:290-307 | without a MAIN section the list becomes empty |
| Framing.AsciiBytes | src/main/java/com/android/androidperf/Device.java:656 | getBytes of ASCII text is one byte per character, with the same code |
| Framing.Request | src/main/java/com/android/androidperf/Device.java:655-656 | a request is the command's bytes followed by the terminator |
| Framing.ReadReply | src/main/java/com/android/androidperf/Device.java:665-680 | the read loop returns the bytes before the first terminator in everything read, or nothing at end of stream |
| Framing.SendMsg | src/main/java/com/android/androidperf/Device.java:648-685 | no forward or an I/O failure gives an empty reply; otherwise the reply is the framed prefix of the chunks |
| Framing.ConcatSplit | src/main/java/com/android/androidperf/Device.java:668 | the buffer after i reads followed by the rest is everything read |
| Framing.ReplySettledOnceTerminated | src/main/java/com/android/androidperf/Device.java:665-680 | once the first n reads hold a terminator the reply is fixed: later reads and any further bytes leave it unchanged |
| Framing.FrameRoundTrip | src/main/java/com/android/androidperf/Device.java:670-674 | a body followed by the terminator reads back as the body, whatever follows, unless the terminator starts inside the body |
| Framing.NoNewlineFrames | src/main/java/com/android/androidperf/Device.java:60 | a body without a newline never holds the start of a terminator |
| Framing.RequestRoundTrip | src/main/java/com/android/androidperf/Device.java:655-674 | a one-line command framed as a request reads back as its bytes |
| Sampler.AfterEnd | src/main/java/com/android/androidperf/BasePerfService.java:20-27 | after end() the queue is empty, the timer is 0, only existing task handles are cancelled, and no task stays scheduled |
| Sampler.EndIsIdempotent | src/main/java/com/android/androidperf/BasePerfService.java:20-27 | ending twice leaves the same state as ending once |
| Sampler.SuppressedStaysDown | src/main/java/com/android/androidperf/BasePerfService.java:17 | after a run of the fixed-rate task throws, the task is never scheduled again, and cancelling it changes nothing |
| Sampler.BaseSampler.UpdateThrew | src/main/java/com/android/androidperf/BasePerfService.java:17 | an exception escaping one run leaves a scheduled update task failed and any other handle as it was |
| Sampler.BaseSampler.Dump | src/main/java/com/android/androidperf/BasePerfService.java:14 | the base dump changes nothing |
| Sampler.BaseSampler.Update | src/main/java/com/android/androidperf/BasePerfService.java:15 | the base update adds exactly 1 to the timer |
| Sampler.BaseSampler.Begin | src/main/java/com/android/androidperf/BasePerfService.java:16-19 | both tasks are scheduled |
| Sampler.BaseSampler.End | src/main/java/com/android/androidperf/BasePerfService.java:20-27 | the new state is AfterEnd of the old |
| Sampler.BaseSampler.Shutdown | src/main/java/com/android/androidperf/BasePerfService.java:28 | the executor is shut down |
| Fps.LatencyData | src/main/java/com/android/androidperf/FPSPerfService.java:18-57 | the timestamps of the latency table, empty without a target layer or output, None when a field does not parse |
| Fps.AcquireLatencyData | src/main/java/com/android/androidperf/FPSPerfService.java:18-57 | the parsing loop returns what LatencyData specifies |
| Fps.TimestampsAreMiddleColumn | src/main/java/com/android/androidperf/FPSPerfService.java:43-53 | every returned timestamp is the middle field of a non-empty three-field row and never Long.MAX_VALUE |
| Fps.StopsAtEmptyLine | src/main/java/com/android/androidperf/FPSPerfService.java:44-45 | nothing after the first empty line is read |
| Fps.NoTableNoTimestamps | src/main/java/com/android/androidperf/FPSPerfService.java:19-27 | with no target layer or empty output the result is the empty list |
| Fps.FirstNewer | src/main/java/com/android/androidperf/FPSPerfService.java:85-89 | the skip loop stops at the first timestamp newer than the last seen, and every earlier one is not newer |
| Fps.SkipSeenFrames | src/main/java/com/android/androidperf/FPSPerfService.java:85-89 | the loop computes FirstNewer |
| Fps.FrameTimes | src/main/java/com/android/androidperf/FPSPerfService.java:92-103 | the push loop yields FrameTimesFrom |
| Fps.FrameTimesBound | src/main/java/com/android/androidperf/FPSPerfService.java:92-97 | at most one frame time per timestamp after the first: n timestamps give at most n-1 |
| Fps.FrameTimesTelescope | src/main/java/com/android/androidperf/FPSPerfService.java:95-98 | without zero timestamps the frame times add up to the span from the predecessor to the last timestamp, in ms |
| Fps.DrainCount | src/main/java/com/android/androidperf/FPSPerfService.java:62-69 | a dump polls at least one frame time when any is queued, and never more than are queued |
| Fps.DrainStopsAtFirstExcess | src/main/java/com/android/androidperf/FPSPerfService.java:62-69 | polling stops at the first frame that takes the total past 1000 ms, and not before |
| Fps.FpsExample | src/main/java/com/android/androidperf/FPSPerfService.java:92-103 | present times 100, 120, 140 ms give two 20 ms frames and 50 fps; a zero predecessor is not a frame boundary |
| Fps.Drain | src/main/java/com/android/androidperf/FPSPerfService.java:62-69 | the polling loop takes DrainCount items, leaves the rest queued and adds their sum to the total |
| Fps.FpsSampler.Update | src/main/java/com/android/androidperf/FPSPerfService.java:81-105 | without a newer frame nothing changes; otherwise the last timestamp is remembered and the new frame times are queued; a parse failure leaves the data as it was and stops the update task for good |
| Fps.FpsSampler.Dump | src/main/java/com/android/androidperf/FPSPerfService.java:59-79 | the polled window gives fps (0 for no time), the unpolled rest stays queued, and the totals are reset |
| Fps.FpsSampler.Begin | src/main/java/com/android/androidperf/FPSPerfService.java:107-111 | one latency-clear command per known layer, then both tasks are scheduled |
| Cpu.LiteralOccurrenceMatches | src/main/java/com/android/androidperf/CPUPerfService.java:54-55 | a literal occurrence of the package also matches the pattern built from it |
| Cpu.WildcardMatchesOtherNames | src/main/java/com/android/androidperf/CPUPerfService.java:55 | the unquoted '.' of a package name matches other characters too |
| Cpu.RunEnd | src/main/java/com/android/androidperf/CPUPerfService.java:11-12 | the `[\d.]+` group runs to the first character that is neither digit nor '.' |
| Cpu.LastCandidate | src/main/java/com/android/androidperf/CPUPerfService.java:11-12 | the greedy `.* +` stops at the last space followed by a digit or '.', and there is none when no such space is left |
| Cpu.LastLegacy | src/main/java/com/android/androidperf/CPUPerfService.java:12 | the legacy leading `.*` stops at the last number that is followed by '%' and a space and then by the package |
| Cpu.CurrentCaptureAfterPackage | src/main/java/com/android/androidperf/CPUPerfService.java:54-59 | in the current format a row's process number is the last number of the row and lies after a match of the package pattern |
| Cpu.NumberBeforePackageIgnored | src/main/java/com/android/androidperf/CPUPerfService.java:54-59 | a row with a number only before the package contributes nothing |
| Cpu.LegacyCaptureIsPercent | src/main/java/com/android/androidperf/CPUPerfService.java:60-68 | in the legacy format the process number is followed by '%', and the package pattern matches after it |
| Cpu.LegacyRowExample | src/main/java/com/android/androidperf/CPUPerfService.java:60-68 | the legacy row ` 12% S 50 com.a` yields its `%` column 12 |
| Cpu.NoPackageNoCapture | src/main/java/com/android/androidperf/CPUPerfService.java:54-68 | a row without a match of the package pattern contributes no process number in either format |
| Cpu.ParseDouble | src/main/java/com/android/androidperf/CPUPerfService.java:58 | a parsed number is non-negative; text that is not digits with at most one point fails |
| Cpu.ParseDoubleOfNat | src/main/java/com/android/androidperf/CPUPerfService.java:58 | the decimal text of a whole number parses to it |
| Cpu.ParseDoubleExamples | src/main/java/com/android/androidperf/CPUPerfService.java:58 | "12.5" and ".5" parse; "1.2.3" and "." throw |
| Cpu.UnparsableCaptureThrows | src/main/java/com/android/androidperf/CPUPerfService.java:57-59 | one process capture that does not parse makes the whole reading throw |
| Cpu.TotalStopsAtFirstZero | src/main/java/com/android/androidperf/CPUPerfService.java:77-82 | the total is the plain sum up to the first zero value; nothing after it counts or is parsed |
| Cpu.SumMatching | src/main/java/com/android/androidperf/CPUPerfService.java:57-59 | the matcher loop computes SumAll of the captures, failing on one that does not parse |
| Cpu.SumUntilZero | src/main/java/com/android/androidperf/CPUPerfService.java:77-82 | the total loop computes TotalUntilZero |
| Cpu.CpuReading | src/main/java/com/android/androidperf/CPUPerfService.java:48-85 | a reading, when no number fails to parse, has a non-negative process and device total; the new `top` listing is used exactly when it mentions the package |
| Cpu.AcquireCpuData | src/main/java/com/android/androidperf/CPUPerfService.java:48-85 | the method computes CpuReading |
| Cpu.MeanBetween | src/main/java/com/android/androidperf/CPUPerfService.java:30-36 | the average lies between the smallest and the largest sample |
| Cpu.CpuSampler.Update | src/main/java/com/android/androidperf/CPUPerfService.java:88-90 | exactly the reading is queued when it parses; otherwise the queue is unchanged and the update task stops for good |
| Cpu.CpuSampler.Dump | src/main/java/com/android/androidperf/CPUPerfService.java:16-46 | the queue is drained and the two averages (0 for none) divided by the core count are emitted |
| Network.SumRows | src/main/java/com/android/androidperf/NetworkPerfService.java:45-51 | the loop sums the two counters of the rows before the first short row, and fails on a counter that is not a long |
| Network.AcquireNetworkData | src/main/java/com/android/androidperf/NetworkPerfService.java:40-53 | the reading is NetworkReading of the output |
| Network.StopsAtShortRow | src/main/java/com/android/androidperf/NetworkPerfService.java:47-48 | nothing after a row with fewer than ten fields is read |
| Network.DrainDeltas | src/main/java/com/android/androidperf/NetworkPerfService.java:20-28 | the growth reported while draining the queue and the counters remembered after it |
| Network.DrainRemembersLast | src/main/java/com/android/androidperf/NetworkPerfService.java:26-27 | after a dump the previous counters are the last sample drained |
| Network.DrainTelescopes | src/main/java/com/android/androidperf/NetworkPerfService.java:20-28 | with non-zero counters the reported growth is last sample minus previous counters |
| Network.FirstSampleAfterReset | src/main/java/com/android/androidperf/NetworkPerfService.java:22-25 | with zero previous counters the first sample only sets them |
| Network.NetExample | src/main/java/com/android/androidperf/NetworkPerfService.java:20-28 | two samples after a reset report the growth between them |
| Network.NetworkReading | src/main/java/com/android/androidperf/NetworkPerfService.java:40-53 | the two counter sums over the interface lines before the first short row, None when a counter is not a long |
| Network.NetworkSampler.Update | src/main/java/com/android/androidperf/NetworkPerfService.java:56-58 | exactly one pair is queued; when a counter does not parse nothing is queued and the update task stops for good |
| Network.NetworkSampler.Dump | src/main/java/com/android/androidperf/NetworkPerfService.java:13-38 | the queue is emptied, the deltas are DrainDeltas of the old queue and counters, and the counters become the last sample |
| Text.IndexOfFrom | src/main/java/com/android/androidperf/Device.java:290-292 | the first occurrence at or after the start, and none before it |
| Text.IndexOfFromAppend | src/main/java/com/android/androidperf/Device.java:670 | an occurrence in what was read stays the first once more is read |
| Text.SplitTwo | src/main/java/com/android/androidperf/Device.java:699 | `a=b` splits on '=' into `[a, b]` |
| Text.SplitLast | src/main/java/com/android/androidperf/Device.java:315-316 | the last piece of a split is the text after the last separator |
| Text.StripNoop | src/main/java/com/android/androidperf/Device.java:696 | strip leaves text without edge whitespace unchanged |
| Text.NatToStringRoundTrip | src/main/java/com/android/androidperf/Layer.java:34 | `%d` of a non-negative int is digits that read back as it |
| Text.ParseJavaInt | src/main/java/com/android/androidperf/NetworkPerfService.java:49-50 | a parsed number lies in the type's range |
| Text.ParseNatToString | src/main/java/com/android/androidperf/Device.java:96 | parsing the decimal text of an in-range number gives the number |
| Text.Lines | src/main/java/com/android/androidperf/CPUPerfService.java:11-12 | a `top` listing is cut at the five line terminators, and no piece holds one; none of the patterns' pieces matches a terminator |
| Text.Wrap32 | src/main/java/com/android/androidperf/Layer.java:51-54 | the 32-bit result is in int range and congruent to the exact value |

## Left out

- LayerList.Collect, LayerList.CollectLayers and Session.Device.UpdateLayerList take a `fuel` bound on the names polled. Children are de-duplicated only against waiting names, so a `parent=` cycle among blocks that are never removed makes the Java loop run forever. The model stops after `fuel` polls.
- Session.Device.UpdateLayerList and Session.Device.SetTargetPackage require every `activeBuffer` size in the dump to fit an int. In Java an oversized size on a hit block makes `parseInt` throw out of the update; the model does not capture that throw.
- Session.Device.Retarget, which Session.Device.SetTargetPackage calls, carries the same requirement on `activeBuffer` sizes.
- Doubles are modelled as `real`. Rounding, and NaN/infinity except for the CPU division by the core count, are not modelled. Cpu.ParseDouble reads the `[\d.]+` captures only, so exponents and signs do not arise.
- The regex engine is not modelled:
  - the compositor dump is given as blocks of typed attribute lines;
  - the two `top` patterns are modelled by what they capture in each line, not by a general matcher;
  - the name pattern of the launcher section and the `Layer#` label pattern are modelled character by character: `\S` is `[^ \t\n\x0B\f\r]` and `.` stops at all five line terminators.
- Threads are not modelled: `ScheduledExecutorService`, `scheduleAtFixedRate`, `Future.cancel`, `Platform.runLater`, `synchronized`, and the concurrency between update and dump. Begin and end are state changes of task handles.
- Session.Device.StartPerf requires live executors; the RejectedExecutionException after shutdown is not modelled.
- Sampler.BaseSampler.Begin requires a live executor for the same reason: scheduling on a shut-down executor throws RejectedExecutionException, which is not modelled.
- Fps.FpsSampler.Begin requires a live executor, as Sampler.BaseSampler.Begin does.
- The charts are not modelled. Each dump returns the values it would plot; `dumpTimer`, which the samplers use as the x coordinate and which `BasePerfService` does not declare, is left out.
- adb and the helper process are not modelled: `execCmd`, `startServer`, `killServer`, `isServerRunning`, `setupForward`, `findFreePort`. Their outputs are parameters, and `sendMSG` takes whether a forward exists and whether an I/O error occurred.
- Session.Device.constructor models only the SDK level, the ABI list, the core count (given as a number rather than counted from `cpu\d+` matches) and the first package list. The other hardware probes (name, CPU model, frequencies, memory, storage, GL) are display-only. Two of them can throw out of the Java constructor, leaving no Device, and the model does not capture either: `Integer.parseInt(memInfo[1])` (Device.java:174) on a three-field `MemTotal` line whose number is not an int, and `Double.parseDouble(storageInfo[1])` (Device.java:185) on a six-field `df` line whose size is not a decimal number (such as `25.0G`).
- `checkCurrentPackage` is modelled as the function DeviceQueries.FocusDecision, whose result is the move `movePackageToFront` would perform in the UI. The UI itself (AppController) is not part of this model.
- FPSPerfService uses `getLayers()` as a map and `getTargetLayer()`, which this `Device` does not have. The FPS sampler therefore takes the target layer (name and ordinal) or none as an input.
- `targetPackage` is null until the first `setTargetPackage`, and `contains(null)` would throw. The model starts it as "".
- The layer listing arrives as bytes decoded with the platform charset; the model receives the decoded text.
- Layers.StringHash hashes Dafny characters, which equal Java's UTF-16 code units only below U+10000.
- Text.ParseJavaInt accepts ASCII digits only, where Java also accepts other Unicode digits.
- Session.Device.UpdatePackageList reads every entry line of the launcher section, the corrected reading of Findings, where Java strips the section and drops the first entry line's package.
- DeviceQueries.LauncherPackages gives the corrected list for the same reason.
- Session.Device.constructor builds the first package list with the corrected reading. When taking the section throws, Java's constructor throws and no Device exists; the model completes with an empty package list.
- LayerList.FindChildrenLayers and LayerList.ChildrenOf take every `parent=` line to belong to a block. In Java a `parent=` line before the first block header makes `matches.get(-1)` throw out of the update; the dump's block structure rules that out here.
- LayerList.FirstBuffer takes the `activeBuffer` group to be a decimal int. In Java a group of spaces only, or one like "1 2", makes `parseInt` throw out of the update; the model's typed attributes rule those out.

## Findings

| source | as written | input that shows it | evidently intended | confidence | as-written member | corrected member |
|---|---|---|---|---|---|---|
| src/main/java/com/android/androidperf/Device.java:294 | the MAIN section is stripped before the name pattern ` {8}\S+ (\S+)/.+` runs, so its first line loses the eight leading spaces the pattern needs | a section whose first line is `        1a2b3c com.example/.Main filter 4d5e6f` followed by more activity lines: the first entry line contributes no package | every activity line of the section contributes its package | medium, not executed | DeviceQueries.FirstEntryDropped | DeviceQueries.AllEntriesListed |

The device session uses the corrected reading (DeviceQueries.PackageNames) when it builds the launcher list.
