/**
  The panel's mutable state: the joint-target record it updates in place as
  data arrives, the robot slot it clears and fills around a variant change,
  and the per-frame push of targets into the attached robot.
 */
module UrdfPanel {
  import opened Wrappers
  import opened JointConfig
  import opened Telemetry
  import opened JointTargets
  import opened UrdfUrl
  import opened ModelLifecycle

  /** A loaded robot: the joints it exposes, each with its current actuation value. */
  class Robot {
    var angles: map<string, real>
  }

  class Panel {
    /** The last known target of every tracked joint. */
    var target: map<string, real>
    /** The robot the render loop drives, if one is attached. */
    var slot: Option<Robot>
    /** Robots added to the scene and not removed. */
    var scene: set<Robot>
    /** Robots whose resources were released. */
    var disposed: set<Robot>
    /** Messages sent to the error log. */
    var errors: seq<string>

    ghost predicate Valid()
      reads this
    {
      target.Keys == JointSet() && (slot.Some? ==> slot.value in scene)
    }

    /** The slot and scene as a lifecycle value. */
    function Life(): Lifecycle<Robot>
      reads this
    {
      Lifecycle(slot, scene, disposed, errors)
    }

    /** The objects a tick may write: the attached robot, if any. */
    function Attached(): set<Robot>
      reads this
    {
      SlotSet(slot)
    }

    /** Mount: every tracked joint at 0, no robot, empty scene. */
    constructor ()
      ensures Valid()
      ensures target == InitialTargets()
      ensures Life() == Initial()
    {
      target := InitialTargets();
      slot := None;
      scene := {};
      disposed := {};
      errors := [];
    }

    /**
      The data effect: extract the joint map, and overwrite the target of each
      tracked joint it carries. A null extraction changes nothing.
     */
    method ApplyData(data: PanelData)
      requires Valid()
      modifies this`target
      ensures Valid()
      ensures target == AfterData(old(target), data)
    {
      var joints := ExtractLatestJoints(data);
      if joints.None? {
        AsWrittenSameTargets(target, data);
        return;
      }
      var m := joints.value;
      for i := 0 to |Joints|
        invariant target.Keys == JointSet()
        invariant forall k :: k in target ==>
                    target[k] == if k in Joints[..i] && k in m then m[k] else old(target)[k]
      {
        var name := Joints[i];
        if name in m {
          target := target[name := m[name]];
        }
      }
      assert Joints[..|Joints|] == Joints;
      AppliedByJoint(old(target), m, target);
      AsWrittenSameTargets(old(target), data);
    }

    /**
      The joint push of one render tick: each tracked joint the attached robot
      exposes is set to its target. With no robot nothing is written.
     */
    method Tick()
      requires Valid()
      modifies Attached()
      ensures slot.Some? ==> slot.value.angles == Pushed(old(slot.value.angles), target)
    {
      if slot.None? {
        return;
      }
      var robot := slot.value;
      for i := 0 to |Joints|
        invariant robot.angles.Keys == old(robot.angles).Keys
        invariant forall k :: k in robot.angles ==>
                    robot.angles[k] == if k in Joints[..i] then TargetOrZero(target, k) else old(robot.angles)[k]
      {
        var name := Joints[i];
        if name in robot.angles {
          robot.angles := robot.angles[name := TargetOrZero(target, name)];
        }
      }
      assert Joints[..|Joints|] == Joints;
    }

    /**
      The swap effect for a newly selected variant: clear the slot (remove,
      dispose, empty) and return the URL of the description to load.
     */
    method BeginSwap(model: Option<string>) returns (url: string)
      requires Valid()
      modifies this`slot, this`scene, this`disposed
      ensures Valid()
      ensures Life() == ModelLifecycle.BeginSwap(old(Life()))
      ensures url == DescriptionUrl(model)
    {
      if slot.Some? {
        var current := slot.value;
        scene := scene - {current};
        disposed := disposed + {current};
        slot := None;
      }
      url := DescriptionUrl(model);
    }

    /** The load callback: add the robot to the scene and fill the slot, with no staleness check. */
    method LoadSucceeded(robot: Robot)
      requires Valid()
      modifies this`slot, this`scene
      ensures Valid()
      ensures Life() == ModelLifecycle.LoadSucceeded(old(Life()), robot)
    {
      scene := scene + {robot};
      slot := Some(robot);
    }

    /** The error callback: log the error; slot and scene stay as they are. */
    method LoadFailed(error: string)
      requires Valid()
      modifies this`errors
      ensures Valid()
      ensures Life() == ModelLifecycle.LoadFailed(old(Life()), error)
    {
      errors := errors + [error];
    }
  }
}
