# UR16e URDF panel: telemetry-to-joint synchronisation

A Grafana panel that draws a Universal Robots arm (UR16e or UR10e) from its
URDF description and moves the arm's six joints from live telemetry. This
project models the part of `src/components/UrdfPanel.tsx` that decides what
the arm shows:

- the static tables: column name to joint (`FIELD_MAP`), per-joint sign
  (`SIGN_MAP`), `UNIT_SCALE` and the tracked joints (`JOINTS`) — module
  `JointConfig`;
- `latestOfField` and `extractLatestJoints`: the latest finite numeric
  sample per column of the first series, mapped to joints, scaled and
  signed — module `Telemetry`. The loop is a method that follows the code,
  table lookup through JavaScript's prototype chain included; its
  properties are proved on a corrected extraction that looks up only the
  table's own keys, and the two are proved to agree on every joint;
- the joint-target record (`targetRef`): starts with every joint at 0 and is
  updated in place by the data effect, where a missing or invalid value is a
  no-op — module `JointTargets` (as values) and `UrdfPanel.Panel.ApplyData`
  (in place);
- the joint push of each render tick: every tracked joint the attached robot
  exposes gets its target — `JointTargets.Pushed` and `UrdfPanel.Panel.Tick`;
- the robot slot (`robotRef`) around a variant change: cleared (removed from
  the scene, disposed, emptied) before the new load, filled when a load
  succeeds, left alone with an error logged when it fails — module
  `ModelLifecycle` (as values) and `UrdfPanel.Panel` (in place);
- the URL of the URDF file for the selected variant — module `UrdfUrl`.

Samples are modelled as the result of JavaScript's `Number(...)` coercion:
`Finite(r)`, `NonFinite` (NaN or an infinity) or `NonNumber` (a value whose
coercion is NaN). Values are exact reals; with `UNIT_SCALE = 1` and every
sign `1`, the source's floating-point products are exact too, so nothing is
lost there.

Points where the code's behaviour is worth knowing, modelled as written:

- only the first series of the data is read (`series[0]`), not every frame;
- a load completion is attached with no generation or staleness check; a
  completion of a superseded load should be discarded, and the code has no
  such check (see Findings);
- the unmount cleanup (`UrdfPanel.tsx:127-132`) does not remove or dispose
  the attached robot; unmount is not modelled (see Left out).

## Model

| member | source | states |
|---|---|---|
| `JointConfig.SignOf` | src/components/UrdfPanel.tsx:18-25 | the sign applied to a joint is +1 or -1, and 1 for a joint missing from the sign table (`?? 1`) |
| `JointConfig.FieldMapCoversJoints` | src/components/UrdfPanel.tsx:9-36 | the joints the column table maps to are exactly the tracked joints |
| `JointConfig.FieldTarget` | src/components/UrdfPanel.tsx:52-53 | a column is recognised exactly when its name is a key of the column table, and then it names a tracked joint |
| `JointConfig.FieldTargetAsWritten` | src/components/UrdfPanel.tsx:52 | the JavaScript lookup also accepts names inherited from `Object.prototype`; on own keys it agrees with `FieldTarget` |
| `JointConfig.InheritedKey` | src/components/UrdfPanel.tsx:52-56 | the key that `out[dst]` creates from a member inherited from `Object.prototype` is never a tracked joint |
| `JointConfig.InheritedNameSlipsThrough` | src/components/UrdfPanel.tsx:52-53 | a column named `constructor` passes the `!dst` test with a key that is no joint |
| `Telemetry.LatestOfField` | src/components/UrdfPanel.tsx:40-44 | no value for an absent column, a non-numeric column or a column without samples; otherwise the last sample exactly when it is finite |
| `Telemetry.Contribution` | src/components/UrdfPanel.tsx:51-56 | with the own-key lookup, a column writes exactly when it is mapped and has a latest finite value; it writes that value times the unit scale times the joint's sign, to a tracked joint |
| `Telemetry.Collected` | src/components/UrdfPanel.tsx:49-57 | the map the loop builds with the own-key lookup has only tracked joints as keys |
| `Telemetry.CollectedDomain` | src/components/UrdfPanel.tsx:49-57 | with the own-key lookup, the loop's map has an entry for a joint exactly when some column feeds that joint, and all its keys are tracked joints |
| `Telemetry.CollectedLastWins` | src/components/UrdfPanel.tsx:50-57 | when several columns feed the same joint, the last one in column order that has a value decides the entry |
| `Telemetry.CollectedEmpty` | src/components/UrdfPanel.tsx:49-58 | with the own-key lookup, the loop's map is empty exactly when no column contributes, and its keys are tracked joints |
| `Telemetry.LatestJoints` | src/components/UrdfPanel.tsx:46-59 | with the own-key lookup, the result is null exactly when there is no first series or none of its columns contributes; otherwise its keys are tracked joints |
| `Telemetry.ContributionAsWritten` | src/components/UrdfPanel.tsx:52-56 | one column's write with the lookup as written; stated by `Telemetry.ContributionAsWrittenBeyondTable` |
| `Telemetry.CollectedAsWritten` | src/components/UrdfPanel.tsx:49-57 | the loop's map with the lookup as written; stated by `Telemetry.CollectedAsWrittenAgrees` and `Telemetry.CollectedAsWrittenOnJoints` |
| `Telemetry.LatestJointsAsWritten` | src/components/UrdfPanel.tsx:46-59 | `extractLatestJoints` as written, which `Telemetry.ExtractLatestJoints` computes; stated by `Telemetry.LatestJointsAsWrittenOnJoints` and `Telemetry.ConstructorColumnIsReported` |
| `Telemetry.ContributionAsWrittenBeyondTable` | src/components/UrdfPanel.tsx:51-56 | with the lookup as written, a mapped column writes as with the own-key lookup; any other column that writes is named after an inherited member and writes to a key that is no joint, exactly when its latest value is finite |
| `Telemetry.CollectedAsWrittenAgrees` | src/components/UrdfPanel.tsx:49-57 | on every tracked joint the loop's map as written has an entry exactly when the own-key map does, with the same value |
| `Telemetry.CollectedAsWrittenOnJoints` | src/components/UrdfPanel.tsx:49-57 | the own-key map is the map as written restricted to the tracked joints |
| `Telemetry.LatestJointsAsWrittenOnJoints` | src/components/UrdfPanel.tsx:46-59 | `extractLatestJoints` as written returns null with no first series, returns a map whenever the own-key extraction does, and its tracked joints and their values are exactly the own-key extraction's |
| `Telemetry.ConstructorColumnIsReported` | src/components/UrdfPanel.tsx:50-58 | a lone numeric `constructor` column makes `extractLatestJoints` return a non-null map whose keys are no joints, where the own-key extraction returns null |
| `Telemetry.ExtractLatestJoints` | src/components/UrdfPanel.tsx:46-59 | the loop over the first series' columns, with the table lookup as written, computes `LatestJointsAsWritten` |
| `JointTargets.InitialTargets` | src/components/UrdfPanel.tsx:81 | the record starts with exactly the tracked joints, each at 0 |
| `JointTargets.Applied` | src/components/UrdfPanel.tsx:170-178 | an update keeps every key of the record, adds no key but tracked joints, and never changes an entry that is not a tracked joint |
| `JointTargets.AfterData` | src/components/UrdfPanel.tsx:170-179 | a record holding exactly the tracked joints still does after a data update; data with no series changes nothing |
| `JointTargets.AsWrittenSameTargets` | src/components/UrdfPanel.tsx:46-59 | applying the extraction as written gives the same record as applying the own-key extraction, so keys that are no joint never reach the targets |
| `JointTargets.AppliedKeepsKeys` | src/components/UrdfPanel.tsx:173-178 | an update neither adds nor removes a joint from the record |
| `JointTargets.AppliedChangesOnlyFed` | src/components/UrdfPanel.tsx:170-178 | only a tracked joint that got a value can change, it takes that value, and every other entry is unchanged |
| `JointTargets.DataSetsJoint` | src/components/UrdfPanel.tsx:170-178 | after data whose last column feeding a joint has finite last sample `v`, the joint's target is `v * UNIT_SCALE * sign` |
| `JointTargets.DataKeepsJoint` | src/components/UrdfPanel.tsx:170-178 | a joint no column feeds keeps its previous target |
| `JointTargets.UnrecognisedDataIsNoOp` | src/components/UrdfPanel.tsx:170-172 | data in which no column contributes (a null extraction) leaves the whole record unchanged |
| `JointTargets.TargetOrZero` | src/components/UrdfPanel.tsx:119 | the pushed value is the joint's target, or 0 when the record has none (`?? 0`) |
| `JointTargets.Pushed` | src/components/UrdfPanel.tsx:117-120 | a tick keeps the robot's joint set and leaves every joint that is not tracked as it was |
| `JointTargets.PushedMirrorsTargets` | src/components/UrdfPanel.tsx:115-121 | after a tick the robot shows the target on every tracked joint it exposes, keeps its other joints, gains no joint, and a second tick changes nothing |
| `UrdfUrl.ModelKey` | src/components/UrdfPanel.tsx:85 | the variant key is the option's model, or `ur16e` when there is none |
| `UrdfUrl.DescriptionUrl` | src/components/UrdfPanel.tsx:84-86 | the URL is the plugin's URDF directory, then the variant key, then `.urdf` |
| `UrdfUrl.ModelOfUrl` | src/components/UrdfPanel.tsx:84-86 | a key read back from a URL rebuilds that URL between the plugin's URDF directory and `.urdf` |
| `UrdfUrl.UrlRoundTrip` | src/components/UrdfPanel.tsx:84-86 | the key read back from the assembled URL is the selected key |
| `UrdfUrl.UrlDeterminesModel` | src/components/UrdfPanel.tsx:84-86 | two selections yield the same URL exactly when they select the same key, so a variant change always changes the URL the swap effect depends on |
| `UrdfUrl.VariantUrls` | src/components/UrdfPanel.tsx:84-86 | no selection loads the ur16e file; ur16e and ur10e load different files; the ur10e URL in full |
| `ModelLifecycle.Initial` | src/components/UrdfPanel.tsx:78 | the slot starts empty, with nothing in the scene and nothing logged |
| `ModelLifecycle.BeginSwap` | src/components/UrdfPanel.tsx:141-145 | after the start of a swap the slot is empty; exactly the robot it held leaves the scene and is disposed; the log is unchanged |
| `ModelLifecycle.LoadSucceeded` | src/components/UrdfPanel.tsx:150-154 | a completed load is put in the slot whatever the slot held, and exactly it is added to the scene; nothing is removed, disposed or logged |
| `ModelLifecycle.LoadFailed` | src/components/UrdfPanel.tsx:156 | a failed load logs its error and leaves slot, scene and disposals unchanged |
| `ModelLifecycle.SwapThenFailureLeavesEmpty` | src/components/UrdfPanel.tsx:141-156 | a swap whose load fails leaves the slot empty and removes from the scene exactly the robot the slot held, so robots leaked beside the slot stay drawn; from a scene showing only the slot's robot, slot and scene end empty |
| `ModelLifecycle.SingleLoadKeepsSceneIsSlot` | src/components/UrdfPanel.tsx:141-156 | with one load in flight, the scene keeps showing exactly the robot in the slot |
| `ModelLifecycle.OverlappingLoadsLeak` | src/components/UrdfPanel.tsx:147-154 | two swaps before the first load returns, loads completing in order: the first robot stays drawn and is never disposed |
| `ModelLifecycle.StaleLoadWins` | src/components/UrdfPanel.tsx:147-154 | the same swaps with loads completing in reverse order: the superseded variant's robot ends up in the slot |
| `ModelLifecycle.GuardedBeginSwap` | src/components/UrdfPanel.tsx:141-147 | the guarded swap clears the slot as the panel does and starts a newer generation |
| `ModelLifecycle.GuardedLoadSucceeded` | src/components/UrdfPanel.tsx:150-154 | a completion of the latest load into an empty slot attaches as the panel does and records its generation; any other completion only disposes its robot, and nothing else changes |
| `ModelLifecycle.GuardedLoadFailed` | src/components/UrdfPanel.tsx:156 | a failure leaves slot, scene and disposals alone and is logged only if it belongs to the latest load |
| `ModelLifecycle.GuardedKeepsTidy` | src/components/UrdfPanel.tsx:137-157 | with the generation check, every step in any order keeps the scene equal to the slot and the slot's robot loaded for the current selection |
| `ModelLifecycle.RunGuardedKeepsTidy` | src/components/UrdfPanel.tsx:137-157 | with the generation check, any interleaving of swaps, successes and failures keeps the scene equal to the slot, never leaves a superseded selection's robot in the slot, and never decreases the generation |
| `ModelLifecycle.GuardedOverlappingLoads` | src/components/UrdfPanel.tsx:147-154 | under the check, the overlapping swaps end with only the second robot shown, the first disposed, and the invariant holding |
| `UrdfPanel.Panel.constructor` | src/components/UrdfPanel.tsx:78-81 | on mount the record holds every tracked joint at 0 and the slot and scene are empty |
| `UrdfPanel.Panel.ApplyData` | src/components/UrdfPanel.tsx:170-179 | the in-place loop over the extraction as written leaves the record equal to `AfterData` of the old record and keeps exactly the tracked joints |
| `UrdfPanel.Panel.Tick` | src/components/UrdfPanel.tsx:113-121 | the in-place push leaves the attached robot's joints equal to `Pushed` of their old values; with no robot nothing is written |
| `UrdfPanel.Panel.BeginSwap` | src/components/UrdfPanel.tsx:137-147 | the swap effect moves slot and scene as `ModelLifecycle.BeginSwap` and issues the load for the selected variant's URL |
| `UrdfPanel.Panel.LoadSucceeded` | src/components/UrdfPanel.tsx:150-154 | the load callback moves slot and scene as `ModelLifecycle.LoadSucceeded` |
| `UrdfPanel.Panel.LoadFailed` | src/components/UrdfPanel.tsx:156 | the error callback logs and leaves slot and scene as `ModelLifecycle.LoadFailed` says |

## Findings

| source | as written | input that shows it | evidently intended | confidence | as-written member | corrected member |
|---|---|---|---|---|---|---|
| src/components/UrdfPanel.tsx:147-154 | every load completion is attached, with no check that its variant is still the selected one | select ur10e while the ur16e load is in flight, both loads succeed: the ur16e robot stays drawn, undisposed, beside the ur10e one; if they return in reverse order the ur16e robot ends up driven | a completion from a superseded load is discarded (a generation captured at load start and checked at completion) | high, not executed | `ModelLifecycle.LoadSucceeded` with `ModelLifecycle.OverlappingLoadsLeak` and `ModelLifecycle.StaleLoadWins` | `ModelLifecycle.GuardedLoadSucceeded` with `ModelLifecycle.GuardedKeepsTidy` and `ModelLifecycle.RunGuardedKeepsTidy` |
| src/components/UrdfPanel.tsx:52-53 | `FIELD_MAP[src]` is a plain object lookup, so a name inherited from `Object.prototype` passes the `!dst` test | a numeric column named `constructor` with a finite last sample: `extractLatestJoints` returns a non-null map whose key is not a joint | only the table's own keys are recognised | medium, not executed | `JointConfig.FieldTargetAsWritten` with `JointConfig.InheritedNameSlipsThrough` and `Telemetry.ConstructorColumnIsReported` | `JointConfig.FieldTarget` with `Telemetry.CollectedDomain` |

The first row does not corrupt the joint targets; its effect is on the
scene. The in-place `UrdfPanel.Panel` follows the code as written
(`LoadSucceeded` without a check), because that is the panel's behaviour;
the guarded transitions are the corrected definition, with the property
proved about them. The second row has no effect on the joint targets:
`JointTargets.AsWrittenSameTargets` proves that the extraction as written,
which `Telemetry.ExtractLatestJoints` computes, gives the same record as the
corrected own-key extraction, because the data effect reads only the tracked
joints.

## Left out

- The three.js scene, renderer, camera, lights, grid and orbit controls
  (`UrdfPanel.tsx:88-111`, `122-132`): graphics library calls with no
  checkable behaviour beyond the calls. The scene is modelled only as the
  set of robots added and not removed.
- The resize effect (`UrdfPanel.tsx:160-167`): floating-point aspect ratio
  and library setters.
- `disposeObject` (`UrdfPanel.tsx:61-68`): the traversal of the three.js
  object graph; disposal is modelled as the robot entering `disposed`.
- Unmount: cancelling the animation frame and releasing the controls and
  renderer; the robot is not disposed there in the code, and a load that
  completes after unmount is not modelled.
- `requestAnimationFrame` scheduling and React's effect and ref machinery:
  the effects are methods the environment calls; the asynchronous
  `URDFLoader` fetch and parse are replaced by explicit `LoadSucceeded` and
  `LoadFailed` calls; the `sceneRef` guard at line 139 (a scene always
  exists once the mount effect ran) is not modelled.
- The fixed upright rotation given to a loaded robot (line 151).
- IEEE-754 arithmetic and `Number()` coercion rules (e.g. `Number(null)` is
  0): a sample is given directly as its coerced result.
- A column whose `values` is missing is modelled as a column with no samples
  (both give no value).
- Collected: stated for the own-key lookup; with the code's lookup the map can
  also hold keys that are no joint, and on the tracked joints it is the same
  map (`Telemetry.CollectedAsWrittenOnJoints`).
- Contribution: stated for the own-key lookup of `FIELD_MAP`; a column named
  after an inherited member writes a key that is no joint in the code, which
  `Telemetry.ContributionAsWrittenBeyondTable` states.
- CollectedDomain: stated for the own-key lookup; with the code's lookup the
  map can also hold keys that are no joint (`Telemetry.CollectedAsWrittenOnJoints`).
- CollectedEmpty: stated for the own-key lookup; with the code's lookup a lone
  inherited-name column makes the map non-empty (`Telemetry.ConstructorColumnIsReported`).
- LatestJoints: stated for the own-key lookup; the code's result is
  `Telemetry.LatestJointsAsWritten`, which can be non-null where this one is null,
  and gives the same targets (`JointTargets.AsWrittenSameTargets`).
- UrdfPanel.Panel.ApplyData: the `Number.isFinite` re-check of line 175 is not
  modelled, since every extracted value is a finite real.
- UrdfPanel.Panel.Tick: `setJointValue` is modelled as storing the value;
  urdf-loader's clamping to joint limits and mimic joints are not modelled.
- UrdfPanel.Panel.LoadFailed: the error log records the error itself, not the
  `'URDF load error:'` prefix that accompanies it on the console.
- `src/module.ts` (plugin registration and option schema, offering `ur16e`
  and `ur10e`) and `src/types.ts` (type declarations) are not part of this
  model.
