/**
  The joint-target record as a value: its initial state, the effect of one
  data update on it, and the values a render tick pushes into a robot.
 */
module JointTargets {
  import opened Wrappers
  import opened JointConfig
  import opened Telemetry

  /** Every tracked joint at 0, and nothing else. */
  function InitialTargets(): (targets: map<string, real>)
    ensures targets.Keys == JointSet()
    ensures forall j :: j in targets ==> targets[j] == 0.0
  {
    map j | j in Joints :: 0.0
  }

  /**
    The record after the update loop: each tracked joint that has a value in
    `joints` takes it; with no joint map nothing happens.
   */
  function Applied(targets: map<string, real>, joints: Option<map<string, real>>): (after: map<string, real>)
    ensures targets.Keys <= after.Keys <= targets.Keys + JointSet()
    ensures forall k :: k in targets && k !in JointSet() ==> after[k] == targets[k]
  {
    match joints
    case None => targets
    case Some(m) =>
      map k | k in targets.Keys + (JointSet() * m.Keys) ::
        if k in JointSet() && k in m then m[k] else targets[k]
  }

  /** A record that took, on every tracked joint, its value in `m` when there is one, is `Applied` of `m`. */
  lemma AppliedByJoint(targets: map<string, real>, m: map<string, real>, after: map<string, real>)
    requires targets.Keys == JointSet() && after.Keys == JointSet()
    requires forall k :: k in after ==> after[k] == if k in Joints && k in m then m[k] else targets[k]
    ensures after == Applied(targets, Some(m))
  {
  }

  /** The record after the host delivers `data`. */
  function AfterData(targets: map<string, real>, data: PanelData): (after: map<string, real>)
    ensures targets.Keys == JointSet() ==> after.Keys == JointSet()
    ensures |data.series| == 0 ==> after == targets
  {
    Applied(targets, LatestJoints(data))
  }

  /** An update never adds or removes a joint: the record keeps exactly the tracked joints. */
  lemma AppliedKeepsKeys(targets: map<string, real>, joints: Option<map<string, real>>)
    requires targets.Keys == JointSet()
    ensures Applied(targets, joints).Keys == JointSet()
  {
  }

  /** Only a tracked joint that received a value can change, and it changes to that value. */
  lemma AppliedChangesOnlyFed(targets: map<string, real>, joints: Option<map<string, real>>, k: string)
    requires k in targets
    ensures k in Applied(targets, joints)
    ensures Applied(targets, joints)[k] != targets[k] ==>
              joints.Some? && k in JointSet() && k in joints.value && Applied(targets, joints)[k] == joints.value[k]
    ensures joints.Some? && k in JointSet() && k in joints.value ==> Applied(targets, joints)[k] == joints.value[k]
  {
  }

  /**
    A joint whose last feeding column in the first series is numeric with a
    finite last sample `v` ends up at `v * UnitScale * sign`.
   */
  lemma DataSetsJoint(targets: map<string, real>, data: PanelData, i: nat, v: real)
    requires |data.series| > 0
    requires i < |data.series[0].fields|
    requires var f := data.series[0].fields[i];
      f.name in FieldMap && f.kind == Number && |f.values| > 0 && f.values[|f.values| - 1] == Finite(v)
    requires var fields := data.series[0].fields;
      forall k :: i < k < |fields| ==> !Feeds(fields[k], FieldMap[fields[i].name])
    ensures var joint := FieldMap[data.series[0].fields[i].name];
      joint in AfterData(targets, data) && AfterData(targets, data)[joint] == v * UnitScale * SignOf(joint)
  {
    var fields := data.series[0].fields;
    var joint := FieldMap[fields[i].name];
    var value := v * UnitScale * SignOf(joint);
    var c := Contribution(fields[i]);
    assert c.Some? && c.value.0 == joint && c.value.1 == value;
    assert c.value == (joint, value);
    CollectedLastWins(fields, i, joint, value);
  }

  /** A joint no column of the first series feeds keeps its previous target. */
  lemma DataKeepsJoint(targets: map<string, real>, data: PanelData, joint: string)
    requires joint in targets
    requires |data.series| > 0 ==> forall i :: 0 <= i < |data.series[0].fields| ==> !Feeds(data.series[0].fields[i], joint)
    ensures joint in AfterData(targets, data) && AfterData(targets, data)[joint] == targets[joint]
  {
    if |data.series| > 0 {
      CollectedDomain(data.series[0].fields, joint);
    }
  }

  /**
    Applying the joint map as the panel extracts it (table looked up through
    the prototype chain) gives the same record as the corrected extraction:
    keys that are no joint are never read by the update loop.
   */
  lemma AsWrittenSameTargets(targets: map<string, real>, data: PanelData)
    ensures Applied(targets, LatestJointsAsWritten(data)) == AfterData(targets, data)
  {
    var written := LatestJointsAsWritten(data);
    var corrected := LatestJoints(data);
    LatestJointsAsWrittenOnJoints(data);
    var a := Applied(targets, written);
    var b := AfterData(targets, data);
    if written.Some? {
      var m := written.value;
      assert JointSet() * m.Keys == m.Keys * JointSet();
      if corrected.Some? {
        assert JointSet() * corrected.value.Keys == corrected.value.Keys;
      }
    }
    assert a.Keys == b.Keys;
    forall k | k in a
      ensures a[k] == b[k]
    {
      if written.Some? && k in JointSet() && k in written.value {
        assert k in written.value.Keys * JointSet();
      }
    }
  }

  /** Data in which no column contributes leaves the record entirely unchanged. */
  lemma UnrecognisedDataIsNoOp(targets: map<string, real>, data: PanelData)
    requires |data.series| > 0 ==> forall i :: 0 <= i < |data.series[0].fields| ==> Contribution(data.series[0].fields[i]).None?
    ensures AfterData(targets, data) == targets
  {
  }

  /** The value a tick pushes for a joint: its target, or 0 when the record has none. */
  function TargetOrZero(targets: map<string, real>, joint: string): (value: real)
    ensures joint in targets ==> value == targets[joint]
    ensures joint !in targets ==> value == 0.0
  {
    if joint in targets then targets[joint] else 0.0
  }

  /**
    A robot's joint values after a tick: every tracked joint the robot exposes
    is set from the record; other joints are left alone.
   */
  function Pushed(angles: map<string, real>, targets: map<string, real>): (after: map<string, real>)
    ensures after.Keys == angles.Keys
    ensures forall k :: k in angles && k !in JointSet() ==> after[k] == angles[k]
  {
    map k | k in angles :: if k in JointSet() then TargetOrZero(targets, k) else angles[k]
  }

  /**
    After a tick the robot shows the record on every tracked joint it exposes,
    keeps its other joints, gains no joint, and a second tick changes nothing.
   */
  lemma PushedMirrorsTargets(angles: map<string, real>, targets: map<string, real>)
    requires targets.Keys == JointSet()
    ensures Pushed(angles, targets).Keys == angles.Keys
    ensures forall j :: j in angles && j in JointSet() ==> Pushed(angles, targets)[j] == targets[j]
    ensures forall j :: j in angles && j !in JointSet() ==> Pushed(angles, targets)[j] == angles[j]
    ensures Pushed(Pushed(angles, targets), targets) == Pushed(angles, targets)
  {
  }
}
