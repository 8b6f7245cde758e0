/**
  The static tables of the panel: which telemetry column drives which URDF
  joint, the per-joint sign, the unit scale, and the fixed list of joints the
  panel knows about.
 */
module JointConfig {
  import opened Wrappers

  /** Telemetry column name -> URDF joint name. */
  const FieldMap: map<string, string> := map[
    "base"     := "shoulder_pan_joint",
    "shoulder" := "shoulder_lift_joint",
    "elbow"    := "elbow_joint",
    "wrist1"   := "wrist_1_joint",
    "wrist2"   := "wrist_2_joint",
    "wrist3"   := "wrist_3_joint"
  ]

  /** URDF joint name -> direction correction. */
  const SignMap: map<string, real> := map[
    "shoulder_pan_joint"  := 1.0,
    "shoulder_lift_joint" := 1.0,
    "elbow_joint"         := 1.0,
    "wrist_1_joint"       := 1.0,
    "wrist_2_joint"       := 1.0,
    "wrist_3_joint"       := 1.0
  ]

  const UnitScale: real := 1.0

  /** The joints the panel tracks, in the order it visits them. */
  const Joints: seq<string> := [
    "shoulder_pan_joint",
    "shoulder_lift_joint",
    "elbow_joint",
    "wrist_1_joint",
    "wrist_2_joint",
    "wrist_3_joint"
  ]

  function JointSet(): set<string> {
    set j | j in Joints
  }

  /** The sign applied to a joint's value; a joint missing from SignMap gets 1. */
  function SignOf(joint: string): (sign: real)
    ensures sign == 1.0 || sign == -1.0
    ensures joint !in SignMap ==> sign == 1.0
  {
    if joint in SignMap then SignMap[joint] else 1.0
  }

  /** Every column the table recognises drives a tracked joint, and every tracked joint has a column. */
  lemma FieldMapCoversJoints()
    ensures FieldMap.Values == JointSet()
  {
    assert FieldMap["base"] == Joints[0];
    assert FieldMap["shoulder"] == Joints[1];
    assert FieldMap["elbow"] == Joints[2];
    assert FieldMap["wrist1"] == Joints[3];
    assert FieldMap["wrist2"] == Joints[4];
    assert FieldMap["wrist3"] == Joints[5];
  }

  /**
    Look a column name up in FieldMap, seeing only the table's own entries:
    the lookup the panel means to do.
   */
  function FieldTarget(name: string): (dst: Option<string>)
    ensures dst.Some? <==> name in FieldMap
    ensures dst.Some? ==> dst.value in JointSet()
  {
    FieldMapCoversJoints();
    if name in FieldMap then Some(FieldMap[name]) else None
  }

  /** The members every plain JavaScript object inherits from Object.prototype. */
  const InheritedNames: set<string> := {
    "constructor", "hasOwnProperty", "isPrototypeOf", "propertyIsEnumerable",
    "toLocaleString", "toString", "valueOf", "__proto__",
    "__defineGetter__", "__defineSetter__", "__lookupGetter__", "__lookupSetter__"
  }

  /**
    The property key an inherited member turns into when it is used as an
    object key: the source text of a native function, or "[object Object]"
    for the prototype itself. The text of a native function is how V8 prints
    it; other engines lay it out differently (with a line break inside the
    braces, for one), so only the fact that the key is no joint matters.
   */
  function InheritedKey(name: string): (key: string)
    ensures key !in JointSet()
  {
    assert forall j | j in Joints :: j[0] != 'f' && j[0] != '[';
    if name == "__proto__" then "[object Object]"
    else if name == "constructor" then "function Object() { [native code] }"
    else "function " + name + "() { [native code] }"
  }

  /**
    The lookup `FIELD_MAP[src]` as JavaScript performs it on an object
    literal: a name that is not an own key but names a member inherited from
    Object.prototype yields that (truthy) member, which then serves as a key.
   */
  function FieldTargetAsWritten(name: string): (dst: Option<string>)
    ensures dst.Some? <==> name in FieldMap || name in InheritedNames
    ensures name in FieldMap ==> dst == FieldTarget(name)
    ensures name !in FieldMap && dst.Some? ==> dst.value !in JointSet()
  {
    if name in FieldMap then Some(FieldMap[name])
    else if name in InheritedNames then Some(InheritedKey(name))
    else None
  }

  /** A column named "constructor" is taken for a mapped column, and its key is no joint. */
  lemma InheritedNameSlipsThrough()
    ensures FieldTarget("constructor").None?
    ensures FieldTargetAsWritten("constructor").Some?
    ensures FieldTargetAsWritten("constructor").value !in JointSet()
  {
  }
}
