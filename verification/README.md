# Crash-scenario reconstruction and evaluation: a Dafny model

This project models the deterministic core of a system that rebuilds car
crashes in a driving simulator from police reports and sketches, mutates the
reconstructed scenarios, and scores the simulated damage against the report.
It covers the following parts:

- **Category-D report scoring** (`ReportD`, `VehicleParts`).
  - The report names damaged parts by side (`L`, `R`), by component (`F`, `M`, `B`), or by both (`FL`, `MR`, …).
  - Report targets and simulator outputs are each brought into a canonical part list.
  - The damaged-component table maps simulator part names to those codes.
- **Statistics and kinematics helpers** (`Libs`).
  - The Vargha–Delaney A effect size with its magnitude label.
  - The speed between two time-stamped points.
- **Vehicle movement** (`Movement`): the trajectory of `(x, y, speed, …)` actions, and its getters and setters.
- **Initial-point mutation** (`MutateInitialPoint`).
  - The search for an on-road point at the expected distance, with the distance redrawn every 50 iterations.
  - The translation of the trajectory to the point that was found.
- **The AI-script profiler** (`RoadProfiler`): the timed script nodes and debug spheres built from a trajectory.
- **The simulation factory** (`SimulationFactory`):
  - the scenario's bounding box and centre;
  - the road and lane-marking list;
  - the report targets;
  - the accelerator retry loop.
- **The simulation** (`Simulation`): when a waiting vehicle is triggered, and the per-vehicle damage outputs.
- **Image/text road fusion** (`Fusion`): pairing each road read from the sketch with the text road that agrees with it best.
- **Street-list rules of the report analyser** (`RoadAnalyzer`, from the Java part of the system):
  - junction keywords;
  - junction streets;
  - assigning a cardinal direction;
  - streets created from road-type words;
  - the lane count.

Everything is modelled with immutable values and pure functions, except a few loops kept as methods.

- Python exceptions become the `Err` case of `Common.Result`.
- Calls into code this model does not contain become function-typed parameters. These are randomness, shapely geometry, the NLP utilities and the ontology, and the simulator. Each parameter's doc comment names what it stands for.
- In-place list updates are modelled as functions that return the updated value.

A report target `"L"` is not expanded on the report side: `_handle_compside_side_targets` only replaces bare components, so `"L"` stays `"L"`. Only simulator outputs go through `decode_part`. `ReportD.ReportSideIsNotDecoded` states this.

## Model

| member | source | states |
|---|---|---|
| ReportD.DecodePart | python_src/models/police_report/reportD.py:10-23 | Fails (Python's implicit None) exactly for a single letter that is neither a side nor a bare component. A successful decoding never contains a bare component. |
| ReportD.DecodeSideIsWholeFlank | python_src/models/police_report/reportD.py:14-15 | A side decodes to its front, middle and back components, in that order, and these are exactly the side-qualified components of that side. |
| ReportD.DecodeBareIsEmpty | python_src/models/police_report/reportD.py:18-21 | A bare component decodes to nothing. |
| ReportD.DecodeOtherLengthsUnchanged | python_src/models/police_report/reportD.py:22-23 | A part whose length is not one passes through as itself. |
| ReportD.Expand | python_src/models/police_report/reportD.py:37-38 | One `{component}{side}` per side, in the set's iteration order. |
| ReportD.RemoveFirst | python_src/models/police_report/reportD.py:36 | `list.remove` shortens the list by exactly one. |
| ReportD.RemoveFirstKeepsOthers | python_src/models/police_report/reportD.py:36 | Removing one value leaves the membership of every other value unchanged. |
| ReportD.BareCountStep | python_src/models/police_report/reportD.py:33-38 | Each replacement step removes exactly one bare component, which is why the removal loop ends. |
| ReportD.HandleTargets | python_src/models/police_report/reportD.py:26-41 | The canonical report list holds exactly the elements the remove-while-iterating loop leaves, each once, in the order of their first occurrence. |
| ReportD.SweepOrigin | python_src/models/police_report/reportD.py:33-38 | Every element the loop leaves is an original target or a bare target paired with an observed side. |
| ReportD.SweepKeeps | python_src/models/police_report/reportD.py:33-38 | No target other than a bare component is ever removed. |
| ReportD.SweepNoBare | python_src/models/police_report/reportD.py:33-38 | Without bare components the loop changes nothing. |
| ReportD.HandleTargetsContents | python_src/models/police_report/reportD.py:26-41 | Every output is an original target, or a bare target combined with a side seen on a two-letter target. Every target that is not bare is kept. |
| ReportD.HandleTargetsWithoutBare | python_src/models/police_report/reportD.py:26-41 | Without bare components the result is the targets de-duplicated in first-occurrence order. |
| ReportD.HandleTargetsWithoutSides | python_src/models/police_report/reportD.py:28-38 | With no two-letter target, nothing new is created. |
| ReportD.SweepIsolated | python_src/models/police_report/reportD.py:33-38 | The loop invariant for reports without adjacent bare components. |
| ReportD.HandleTargetsIsolatedBare | python_src/models/police_report/reportD.py:26-41 | When no two bare components are adjacent, none survives, and each is replaced by its form on every observed side. |
| ReportD.SkipExampleSweep | python_src/models/police_report/reportD.py:33-38 | Removing while iterating skips the next element: `["F","M","FL"]` with side L gives `["M","FL","FL"]`. |
| ReportD.HandleTargetsSkipsAfterRemoval | python_src/models/police_report/reportD.py:26-41 | The same report canonicalises to `["M","FL"]`: the bare `M` survives. |
| ReportD.DecodeAll | python_src/models/police_report/reportD.py:66-72 | Succeeds exactly when every output decodes. Never contains a bare component. |
| ReportD.DecodeAllMembers | python_src/models/police_report/reportD.py:71-72 | A part is in the decoding exactly when some output decodes to it. |
| ReportD.BothSides | python_src/models/police_report/reportD.py:78-80 | Contains exactly `{C}L` and `{C}R` for each component C. |
| ReportD.SimulationCrashes | python_src/models/police_report/reportD.py:63-84 | Succeeds exactly when every output decodes. The result has no duplicates. |
| ReportD.Bares | python_src/models/police_report/reportD.py:67-70 | Exactly the bare outputs, each once. |
| ReportD.BaresFrom | python_src/models/police_report/reportD.py:66-70 | The accumulator is kept as a prefix, with no duplicates. |
| ReportD.SimulationCrashesMembers | python_src/models/police_report/reportD.py:63-84 | A part is reported crashed iff some output decodes to it, or (when nothing decoded) it is a bare output on one side. |
| ReportD.BareSidesMembers | python_src/models/police_report/reportD.py:63-84 | The parts built from the bare outputs are exactly a bare output followed by a side letter. |
| ReportD.SimulationCrashesNeverBare | python_src/models/police_report/reportD.py:63-84 | No bare component is reported by the simulator side. |
| ReportD.NonCrashed | python_src/models/police_report/reportD.py:58-86 | Exactly the vocabulary parts not in the crashed list. |
| ReportD.NonCrashedPartitions | python_src/models/police_report/reportD.py:58-86 | Every vocabulary part is crashed or non-crashed, never both. There are at most as many non-crashed parts as vocabulary parts. |
| ReportD.Process | python_src/models/police_report/reportD.py:43-91 | Fails exactly on invalid or undecodable outputs. The maximum is the vocabulary size. The points are the matcher's verdict on the two canonical lists and their complements. |
| ReportD.ReportSideIsNotDecoded | python_src/models/police_report/reportD.py:26-58 | A report target `"L"` stays `"L"`, so none of the six flank parts counts as crashed on the report side. `["FL","ML","BL"]` from the simulator stays as it is. |
| ReportD.NothingCrashedOnReport | python_src/models/police_report/reportD.py:58 | With report `["L"]` the whole vocabulary is non-crashed. |
| ReportD.ThreeLeftOutputs | python_src/models/police_report/reportD.py:63-84 | The simulator outputs `FL, ML, BL` are reported as they are. |
| VehicleParts.TableOk | src/models/vehicle_parts_dict.py:1-39 | Every entry maps to a side, a bare component or a side-qualified component. |
| VehicleParts.PartCode | src/models/vehicle_parts_dict.py:1-39 | Defined exactly on the table's keys. Every code decodes successfully. |
| VehicleParts.LeftNamesAreLeftCodes | src/models/vehicle_parts_dict.py:9-35 | Every part named "Left" sits on the left flank. |
| VehicleParts.RightNamesAreRightCodes | src/models/vehicle_parts_dict.py:8-34 | Every part named "Right" sits on the right flank. |
| VehicleParts.RearSeatsIsTheOnlyBareSide | src/models/vehicle_parts_dict.py:1-39 | "Rear Seats" is the only entry mapped to a whole side. |
| VehicleParts.RearSeatsIsRightFlank | src/models/vehicle_parts_dict.py:36 | "Rear Seats" maps to "R", which decodes to the three right-flank components. |
| VehicleParts.GlassIsMissing | src/models/vehicle_parts_dict.py:41-42 | "Glass" has no code. |
| Libs.RankSumIdentity | src/libraries/libs.py:39-40 | The rank sum of the treatment sample is m(m+1)/2 plus the number of winning pairs, ties counting half. |
| Libs.PairScoreAntisymmetric | src/libraries/libs.py:39-44 | The winning-pair counts of the two samples add up to m·n. |
| Libs.PairScoreBounds | src/libraries/libs.py:39-44 | The winning-pair count lies between 0 and m·n. |
| Libs.BisectLeft | src/libraries/libs.py:50 | `bisect_left`: everything before the result is below x, everything from it on is at least x. |
| Libs.Classify | src/libraries/libs.py:46-50 | Negligible iff ≤ 0.147, small iff in (0.147, 0.33], medium iff in (0.33, 0.474], large iff > 0.474. A value on a threshold gets the lower label. |
| Libs.VargheDelaneyA | src/libraries/libs.py:20-53 | Fails iff the lengths differ (ValueError) or the samples are empty (division by zero). The estimate is the share of winning pairs, in [0, 1]. The magnitude classifies \|2(A − 0.5)\|. |
| Libs.Estimate | src/libraries/libs.py:39-44 | The rank-sum formula yields the share of winning pairs, ties counting half, and so lies in [0, 1]. |
| Libs.Formula14 | src/libraries/libs.py:43-44 | The computed A equals formula (14) of Vargha and Delaney, (r1/m − (m+1)/2)/n. |
| Libs.SwapComplements | src/libraries/libs.py:20-53 | Swapping the samples gives 1 − A with the same magnitude. |
| Libs.IdenticalSamplesNegligible | src/libraries/libs.py:20-53 | A sample against itself gives A = 0.5, negligible. |
| Libs.DominantTreatmentLarge | src/libraries/libs.py:20-53 | A treatment entirely above the control gives A = 1, large. |
| Libs.CalSpeed | src/libraries/libs.py:56-67 | Equal times give 0. Otherwise the result is 0, or it is at least 0.5 and times the elapsed time gives the distance. Every speed of at least 0.5 is returned. |
| Libs.CalSpeedSymmetric | src/libraries/libs.py:56-67 | The speed does not depend on the order of the two points. |
| Movement.DrivingPoints | src/models/ac3rp/movement.py:20-24 | One point per action, holding its x and y. |
| Movement.Speeds | src/models/ac3rp/movement.py:51-55 | One speed per action. |
| Movement.SetDrivingActions | src/models/ac3rp/movement.py:26-34 | IndexError exactly when fewer points than actions are given. Otherwise only x and y of each action change. |
| Movement.SetSpeed | src/models/ac3rp/movement.py:36-43 | Every action gets the speed, and nothing else changes. |
| Movement.MeanSpeed | src/models/ac3rp/movement.py:45-49 | Undefined exactly for an empty trajectory. |
| Movement.SetThenGetPoints | src/models/ac3rp/movement.py:20-34 | Reading the points back gives the points set, cut to the trajectory length. |
| Movement.GetThenSetIdentity | src/models/ac3rp/movement.py:20-34 | Setting the points just read changes nothing. |
| Movement.SetDrivingActionsKeepsSpeeds | src/models/ac3rp/movement.py:26-55 | Moving the points keeps every speed. |
| Movement.SetSpeedKeepsPoints | src/models/ac3rp/movement.py:20-43 | Setting the speed keeps every point. |
| Movement.SetSpeedLastWins | src/models/ac3rp/movement.py:36-43 | Of two speed settings, the last one wins. |
| Movement.MeanAfterSetSpeed | src/models/ac3rp/movement.py:36-49 | After setting a speed, the mean speed is that speed. |
| Movement.MeanWithinBounds | src/models/ac3rp/movement.py:45-49 | The mean lies between any lower and upper bound of the speeds. |
| MutateInitialPoint.OnRoad | src/models/mutator/mutate_initial_point_class.py:72-78 | Exactly the sampled points inside the road polygon. |
| MutateInitialPoint.Search | src/models/mutator/mutate_initial_point_class.py:55-90 | A found point was sampled in its iteration, with the distance redrawn every 50 iterations, and lies on the road. Every earlier iteration found no on-road point. Running out of fuel means no iteration did. |
| MutateInitialPoint.SearchStep | src/models/mutator/mutate_initial_point_class.py:88-90 | A fruitless iteration passes on to the next one, with a redraw when the count reaches a multiple of 50. |
| MutateInitialPoint.SearchFuelMonotone | src/models/mutator/mutate_initial_point_class.py:62 | A point found within a fuel bound is found, identically, with more fuel. |
| MutateInitialPoint.Process | src/models/mutator/mutate_initial_point_class.py:45-98 | A parked vehicle is returned unchanged. A mutated trajectory keeps its length and all its speeds. |
| MutateInitialPoint.ProcessMovesOnlyPositions | src/models/mutator/mutate_initial_point_class.py:93-97 | The new positions are the translated line, anchored at a sampled on-road point. |
| MutateInitialPoint.FirstBlockUsesFirstDraw | src/models/mutator/mutate_initial_point_class.py:51-90 | Within the first 50 iterations every sample uses the first drawn distance. |
| MutateInitialPoint.FirstPointChanges | src/tests/test_mutator/test_mutate_initial_point_class.py:36-50 | The first driving point moves, provided the translation anchors the first point at the origin and the old point is never an on-road sample. |
| RoadProfiler.Trunc | src/models/road_profiler.py:32 | `int(delay)` truncates toward zero. |
| RoadProfiler.PrefixSums | src/models/road_profiler.py:14-25 | Starts at 0; each entry adds the next increment. |
| RoadProfiler.SegmentTimes | src/models/road_profiler.py:14-25 | The loop computes the running time list (zero-length pairs skipped, speed from the first point). |
| RoadProfiler.TimedNodes | src/models/road_profiler.py:27-33 | One node per position of `zip`: trajectory point k at height 0, with the k-th running time plus the truncated delay. |
| RoadProfiler.Record | src/models/road_profiler.py:34-39 | The nodes are appended to the script, with one point, one radius-0.25 sphere and one colour each. Earlier contents are kept. The radii are rebuilt, one per point. |
| RoadProfiler.ComputeAiScript | src/models/road_profiler.py:13-39 | Appends one node per point of `zip`: the point at height 0, with the running time plus the truncated delay. Also appends one point, one sphere of radius 0.25 and one colour per node. Earlier contents are kept. The radii are rebuilt, one per point. |
| RoadProfiler.TimesNeverDecrease | src/models/road_profiler.py:14-25 | The times start at 0 and never decrease. |
| RoadProfiler.IncrementsCount | src/models/road_profiler.py:18-25 | Every consecutive pair either adds a time or is skipped for zero length. |
| RoadProfiler.NodeCount | src/models/road_profiler.py:21-27 | The node count is the number of points minus the zero-length pairs. |
| RoadProfiler.SegmentUsesFirstSpeed | src/models/road_profiler.py:23-24 | A segment's time is its length over the speed at its first point. |
| SimulationFactory.FoldBounds | src/models/simulation_factory.py:25-37 | The running bounds are attained and hold for every point visited. |
| SimulationFactory.CenterScenario | src/models/simulation_factory.py:19-39 | Fails exactly when the scenario has no point. Both half-extents are non-negative. |
| SimulationFactory.CenterSpans | src/models/simulation_factory.py:19-39 | Twice the half-width (half-height) is the largest x (y) difference between two points, and it is attained. |
| SimulationFactory.CenterExtent | src/models/simulation_factory.py:39 | The third value bounds every coordinate and is attained. |
| SimulationFactory.GenerateRoads | src/models/simulation_factory.py:41-59 | Adds two markings, the middle lines and the road for each segment. The earlier roads are kept. |
| SimulationFactory.SegmentBlockLayout | src/models/simulation_factory.py:42-58 | Segment i's block sits at the running count: left marking, right marking, middle lines, road. |
| SimulationFactory.RoadsAccumulate | src/models/simulation_factory.py:41-59 | Calling it twice appends the roads twice, because the list is never reset. |
| SimulationFactory.GenerateTargets | src/models/simulation_factory.py:88-92 | The keys are exactly the report names. |
| SimulationFactory.TargetsLastWins | src/models/simulation_factory.py:90-91 | A name maps to the parts of its last report. |
| SimulationFactory.TargetsOfDistinctNames | src/models/simulation_factory.py:88-92 | With distinct names every report is kept. |
| SimulationFactory.GenerateAccelerator | src/models/simulation_factory.py:94-132 | As written: succeeds iff one of the first 49 eps values is valid, and returns the first valid one. |
| SimulationFactory.GenerateAcceleratorCorrected | src/models/simulation_factory.py:94-132 | Succeeds iff one of the 50 eps values tried is valid. |
| SimulationFactory.FiftiethAttemptIgnored | src/models/simulation_factory.py:107-122 | An oracle valid only at eps 490 makes the 50 tries succeed but the code return False. |
| Simulation.TriggerVehicle | src/models/simulation.py:62-85 | Raises iff debugging without a distance. Otherwise returns whether the vehicle triggers: the trigger distance exceeds the current one, or there is no distance and the vehicle moves from the start. The script is installed iff the vehicle triggers and the script has more than two nodes, including on a call that then raises. |
| Simulation.TriggerVehicleCorrected | src/models/simulation.py:62-85 | Always returns the trigger decision, and installs the script under the same condition. |
| Simulation.DebugWithoutReportRaises | src/models/simulation.py:73-84 | A vehicle moving from the start, with debugging on and no distance, would be triggered and gets its script installed, yet the call raises. |
| Simulation.CorrectedAgrees | src/models/simulation.py:62-85 | Both install the same script. The corrected value equals the one as written whenever that one does not raise. It does not depend on debugging. |
| Simulation.Reported | src/models/simulation.py:91-109 | At most three distinct damage values pass through unchanged. |
| Simulation.DataOutputs | src/models/simulation.py:87-110 | The keys are exactly the vehicle ids. |
| Simulation.FewDamageValuesPassThrough | src/models/simulation.py:87-110 | A vehicle with few damage values, and no later one with its id, keeps its damage list. |
| Fusion.ParseInt | src/fusion/app.py:59-60 | `int()` succeeds exactly on an optionally signed string of digits. |
| Fusion.ParseShow | src/fusion/app.py:59-60 | Reading back the decimal text of an integer gives the integer. |
| Fusion.BeforeDash | src/fusion/app.py:59 | `split('-')[0]`: the longest dash-free prefix. |
| Fusion.TwoWayIsTwo | src/fusion/app.py:58-59 | "2-way" reads as 2. |
| Fusion.Score | src/fusion/app.py:57-82 | Fails iff a field is not an integer. Otherwise the score is at most 3. It is 3 iff navigation, direction and lane count all agree, and 0 iff none does. |
| Fusion.FirstBest | src/fusion/app.py:88-92 | The first position of a greatest score. |
| Fusion.BestTextIsFirstBest | src/fusion/app.py:84-92 | The chosen text road scores highest, every earlier one scores less, and no other position has both properties. |
| Fusion.CreateRoads | src/fusion/app.py:20-100 | With one road on each side the two are fused. Otherwise each image road, in order, is fused with its first best text road. Fails exactly with image roads but no text road, or an unparsable text road. |
| Fusion.PerfectMatchChosen | src/fusion/app.py:84-92 | When some text road agrees on everything, the image road is fused with one that does. |
| Fusion.SharedTextRoad | src/fusion/app.py:94-98 | Two image roads may share one text road. |
| RoadAnalyzer.FindIntersectionExistence | src/org/saarland/environmentanalyzer/RoadAnalyzer.java:23-76 | "t-intersection" iff a T-junction keyword is found. "intersection" iff only a plain intersection keyword is found. "none" iff neither is. |
| RoadAnalyzer.MergeMeansTIntersection | src/org/saarland/environmentanalyzer/RoadAnalyzer.java:23-61 | The word "merge" alone makes a T-intersection. |
| RoadAnalyzer.CreateEmptyRoads | src/org/saarland/environmentanalyzer/RoadAnalyzer.java:86-95 | Adds exactly two streets. The first is empty. The second ends at the junction iff the type is "t-intersection" and has no other property. |
| RoadAnalyzer.CheckAllRoadHaveCardinalDirection | src/org/saarland/environmentanalyzer/RoadAnalyzer.java:122-136 | True iff there is a street and every street has a direction. |
| RoadAnalyzer.UndirectedZero | src/org/saarland/environmentanalyzer/RoadAnalyzer.java:122-136 | The count of streets without a direction is zero exactly when every street has one. |
| RoadAnalyzer.AssignDirectionToRoad | src/org/saarland/environmentanalyzer/RoadAnalyzer.java:294-337 | Always yields a street carrying the code. It is the first street without a direction, changed only there, or, when every street has one, a new street appended. |
| RoadAnalyzer.AssignTouchesOneProperty | src/org/saarland/environmentanalyzer/RoadAnalyzer.java:316-323 | Filling a slot changes no other street and no other property. |
| RoadAnalyzer.AssignFillsOneSlot | src/org/saarland/environmentanalyzer/RoadAnalyzer.java:294-337 | Assigning a non-empty code lowers the number of undirected streets by one, or keeps it at zero. |
| RoadAnalyzer.FindRoadWithExistingDirection | src/org/saarland/environmentanalyzer/RoadAnalyzer.java:384-397 | The first street whose direction equals the code or lies on its axis. None iff no street matches. |
| RoadAnalyzer.AssignThenFind | src/org/saarland/environmentanalyzer/RoadAnalyzer.java:294-397 | After an assignment, looking up the same direction finds a street at or before the assigned one. |
| RoadAnalyzer.JoinSplit | src/org/saarland/environmentanalyzer/RoadAnalyzer.java:419-424 | Splitting on a separator loses nothing: the pieces join back to the text. |
| RoadAnalyzer.DropTrailingEmpty | src/org/saarland/environmentanalyzer/RoadAnalyzer.java:419-424 | A prefix of the pieces that does not end in an empty piece. Only empty pieces are dropped. |
| RoadAnalyzer.JavaSplit | src/org/saarland/environmentanalyzer/RoadAnalyzer.java:419-424 | `String.split`: a text without the separator comes back whole. Otherwise trailing empty pieces are dropped. |
| RoadAnalyzer.LoneSpaceSplitsToNothing | src/org/saarland/environmentanalyzer/RoadAnalyzer.java:424 | `" ".split(" ")` has no words. |
| RoadAnalyzer.RoadTypeWords | src/org/saarland/environmentanalyzer/RoadAnalyzer.java:428-432 | A word is kept exactly when it is a word of the paragraph and a road type. |
| RoadAnalyzer.RoadTypeWordsConcat | src/org/saarland/environmentanalyzer/RoadAnalyzer.java:424-432 | The words are filtered in reading order: the road types of a text are those of its first part followed by those of the rest. |
| RoadAnalyzer.RoadTypeWordsSingle | src/org/saarland/environmentanalyzer/RoadAnalyzer.java:428-432 | One word is kept exactly when it is a road type. |
| RoadAnalyzer.ConstructRoadByRoadType | src/org/saarland/environmentanalyzer/RoadAnalyzer.java:416-463 | Existing streets are kept. The road-type words, in reading order, each add a street of that type while fewer than two exist. The final count is the initial count from 2 up, else min(2, initial + words). |
| RoadAnalyzer.TwoStreetsAreFinal | src/org/saarland/environmentanalyzer/RoadAnalyzer.java:434-455 | From two streets up, the paragraph changes nothing. |
| RoadAnalyzer.RepeatedRoadTypeAdded | src/org/saarland/environmentanalyzer/RoadAnalyzer.java:441-455 | The duplicate scan has no effect: a road type already recorded is recorded again. |
| RoadAnalyzer.AnalyzeNumberOfLane | src/org/saarland/environmentanalyzer/RoadAnalyzer.java:663-696 | The last lane count set while reading the dependencies, or 0. |
| RoadAnalyzer.ScanPair | src/org/saarland/environmentanalyzer/RoadAnalyzer.java:669-692 | The loop over a dependency's words ends on the last value they set. |
| RoadAnalyzer.ScanNumeric | src/org/saarland/environmentanalyzer/RoadAnalyzer.java:679-691 | The loop over related words ends on the last numeric one. |
| RoadAnalyzer.NoLaneWordMeansZero | src/org/saarland/environmentanalyzer/RoadAnalyzer.java:663-696 | Without a "d-lane" word or a word starting with "lane", the count is 0. |
| RoadAnalyzer.LastDigitLaneWins | src/org/saarland/environmentanalyzer/RoadAnalyzer.java:672-676 | A "d-lane" word read last decides the count, a single digit 0–9. |

## Left out

- Randomness, shapely geometry (`Point.distance`, `is_inside_polygon`, `mutate_initial_point`, `translate_ls_to_new_origin`), `get_direction_of`, the NLP utilities and the ontology lookups are parameters; their own behaviour is not modelled.
- Floating point: all numbers are mathematical reals, so rounding, NaN and infinities are absent. `numpy.mean` is the exact mean.
- Libs.VargheDelaneyA: `scipy.stats.rankdata` is modelled through its defining property (average ranks, ties shared), not through sorting.
- Movement.SetDrivingActions: on IndexError the Python loop has already updated the actions before the missing index; the model returns only the error.
- MutateInitialPoint.Search: the source loop has no bound; `fuel` bounds the iterations modelled, and `None` means the bound was reached first. The vehicle is mutated in place in the source and returned as a new value here.
- `Accelerator` setup and `intersect` (the accelerator lines) are one validity oracle per eps; its constructor's keyword mismatch and the debug plot are not modelled. Whether `player.accelerator` exists when `trigger_vehicle` reads it is not modelled.
- RoadProfiler.ComputeAiScript: `pairs` (src/libraries/common.py) is not part of this model. It is taken to yield the consecutive, overlapping pairs `zip(tr, tr[1:])`, the reading that SegmentTimes, IncrementsCount and NodeCount rely on.
- Simulation.Reported: the KMeans clustering of more than three damage values is a parameter, not modelled.
- Fusion.ParseInt: `int()` also accepts surrounding whitespace and digit-group underscores; the model accepts only an optional sign followed by ASCII digits.
- RoadAnalyzer.AnalyzeNumberOfLane: `getWordPairFromDependency`, `getWordFromToken`, `findAllConnectedWordsTopDown`, `isNumeric` and the `(int)` cast of a parsed double are parameters.
- The NLP-dependent parts of the report analyser (`identifyDirectionInRoads`, `findMainOrCrossingStreetInTJunction`, `identifyParkingSetup`) and the logging calls are not modelled.
- BeamNG control, simulation execution, wall-clock timeouts, sensor polling, visualisation, the command-line entry points, fitness logging, the Transformer and the other mutators are not part of this model.

## Findings

| source | as written | input that shows it | evidently intended | confidence | as-written member | corrected member |
|---|---|---|---|---|---|---|
| src/models/simulation_factory.py:107-122 | The retry check `retry == 50` returns False on the 50th try even when that try was valid, so only 49 eps values can succeed. | Accelerator valid only at eps 490, the 50th value tried. | Succeed whenever any of the 50 tried eps values is valid. | not executed | SimulationFactory.GenerateAccelerator | SimulationFactory.GenerateAcceleratorCorrected |
| src/models/simulation.py:82-84 | The debug line calls `round(distance_report, 2)` even when `distance_report` is None, raising TypeError. | A vehicle with distance_to_trigger −1, no distance report, debug on. | The debug line only reports; the decision is returned, with the script installed as before. | not executed | Simulation.TriggerVehicle | Simulation.TriggerVehicleCorrected |
