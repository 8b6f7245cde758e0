/**
  Turning the host's data frames into joint values: the latest finite sample
  of a numeric column, and the joint map built from the first series.
 */
module Telemetry {
  import opened Wrappers
  import opened JointConfig

  /**
    A sample as `Number(...)` sees it: a finite number, a number that is NaN
    or infinite, or a value whose coercion is NaN.
   */
  datatype Sample = Finite(r: real) | NonFinite | NonNumber

  /** The declared type of a column; only `Number` columns are read. */
  datatype FieldKind = Number | Other

  datatype Field = Field(name: string, kind: FieldKind, values: seq<Sample>)

  datatype DataFrame = DataFrame(fields: seq<Field>)

  /** What the host hands the panel; an absent `series` is the empty sequence. */
  datatype PanelData = PanelData(series: seq<DataFrame>)

  /**
    The last sample of a column, if the column is there, is numeric, has a
    sample, and that sample is finite.
   */
  function LatestOfField(field: Option<Field>): (v: Option<real>)
    ensures field.None? ==> v.None?
    ensures field.Some? && (field.value.kind != Number || |field.value.values| == 0) ==> v.None?
    ensures field.Some? && field.value.kind == Number && |field.value.values| > 0 ==>
              var last := field.value.values[|field.value.values| - 1];
              (v.Some? <==> last.Finite?) && (v.Some? ==> v.value == last.r)
  {
    if field.None? || field.value.kind != Number || |field.value.values| == 0 then None
    else
      match field.value.values[|field.value.values| - 1]
      case Finite(x) => Some(x)
      case _ => None
  }

  /** The joint a column writes and the value it writes, when it writes one. */
  function Contribution(f: Field): (c: Option<(string, real)>)
    ensures c.Some? <==> f.name in FieldMap && LatestOfField(Some(f)).Some?
    ensures c.Some? ==> c.value.0 == FieldMap[f.name] && c.value.0 in JointSet()
    ensures c.Some? ==> c.value.1 == LatestOfField(Some(f)).value * UnitScale * SignOf(c.value.0)
  {
    match FieldTarget(f.name)
    case None => None
    case Some(dst) =>
      match LatestOfField(Some(f))
      case None => None
      case Some(v) => Some((dst, v * UnitScale * SignOf(dst)))
  }

  /** Column `f` writes a value for `joint`. */
  predicate Feeds(f: Field, joint: string) {
    Contribution(f).Some? && Contribution(f).value.0 == joint
  }

  /** The map built by visiting `fields` in order, each contribution overwriting the last. */
  function Collected(fields: seq<Field>): (out: map<string, real>)
    ensures out.Keys <= JointSet()
  {
    if fields == [] then map[]
    else
      var before := Collected(fields[..|fields| - 1]);
      match Contribution(fields[|fields| - 1])
      case None => before
      case Some((joint, value)) => before[joint := value]
  }

  /** A joint has an entry exactly when some column feeds it; entries are tracked joints. */
  lemma {:induction false} CollectedDomain(fields: seq<Field>, joint: string)
    ensures joint in Collected(fields) <==> exists i :: 0 <= i < |fields| && Feeds(fields[i], joint)
    ensures joint in Collected(fields) ==> joint in JointSet()
  {
    if fields != [] {
      var init := fields[..|fields| - 1];
      CollectedDomain(init, joint);
      if exists i :: 0 <= i < |init| && Feeds(init[i], joint) {
        var i :| 0 <= i < |init| && Feeds(init[i], joint);
        assert fields[i] == init[i];
      }
      if exists i :: 0 <= i < |fields| && Feeds(fields[i], joint) {
        var i :| 0 <= i < |fields| && Feeds(fields[i], joint);
        if i < |init| {
          assert init[i] == fields[i];
        }
      }
    }
  }

  /**
    The entry for a joint comes from the last column that feeds it: a later
    column for the same joint wins, an earlier one is overwritten.
   */
  lemma {:induction false} CollectedLastWins(fields: seq<Field>, i: nat, joint: string, value: real)
    requires i < |fields|
    requires Contribution(fields[i]) == Some((joint, value))
    requires forall k :: i < k < |fields| ==> !Feeds(fields[k], joint)
    ensures joint in Collected(fields) && Collected(fields)[joint] == value
  {
    var init := fields[..|fields| - 1];
    if i < |fields| - 1 {
      assert init[i] == fields[i];
      forall k | i < k < |init|
        ensures !Feeds(init[k], joint)
      {
        assert init[k] == fields[k];
      }
      CollectedLastWins(init, i, joint, value);
      assert !Feeds(fields[|fields| - 1], joint);
    }
  }

  /** The collected map is empty exactly when no column contributes. */
  lemma CollectedEmpty(fields: seq<Field>)
    ensures Collected(fields).Keys == {} <==> forall i :: 0 <= i < |fields| ==> Contribution(fields[i]).None?
    ensures Collected(fields).Keys <= JointSet()
  {
    forall joint | joint in Collected(fields)
      ensures joint in JointSet()
    {
      CollectedDomain(fields, joint);
    }
    if i :| 0 <= i < |fields| && Contribution(fields[i]).Some? {
      CollectedDomain(fields, Contribution(fields[i]).value.0);
    }
    if joint :| joint in Collected(fields) {
      CollectedDomain(fields, joint);
    }
  }

  /**
    The joint values a data update carries: None when there is no first
    series or when none of its columns contributes.
   */
  function LatestJoints(data: PanelData): (joints: Option<map<string, real>>)
    ensures joints.None? <==>
              |data.series| == 0 ||
              forall i :: 0 <= i < |data.series[0].fields| ==> Contribution(data.series[0].fields[i]).None?
    ensures joints.Some? ==> joints.value.Keys <= JointSet()
  {
    if |data.series| == 0 then None
    else
      var out := Collected(data.series[0].fields);
      CollectedEmpty(data.series[0].fields);
      if out.Keys == {} then None else Some(out)
  }

  /**
    What a column writes when the table is looked up as JavaScript does,
    through the prototype chain: a column named after an inherited member
    writes under a key that is no joint.
   */
  function ContributionAsWritten(f: Field): Option<(string, real)> {
    var dst := FieldTargetAsWritten(f.name);
    var v := LatestOfField(Some(f));
    if dst.None? || v.None? then None
    else Some((dst.value, v.value * UnitScale * SignOf(dst.value)))
  }

  /**
    A mapped column writes as in the corrected lookup; any other column that
    writes is named after an inherited member, and writes to no joint.
   */
  lemma ContributionAsWrittenBeyondTable(f: Field)
    ensures f.name in FieldMap ==> ContributionAsWritten(f) == Contribution(f)
    ensures f.name !in FieldMap && ContributionAsWritten(f).Some? ==>
              f.name in InheritedNames && ContributionAsWritten(f).value.0 !in JointSet()
    ensures f.name !in FieldMap && f.name in InheritedNames ==>
              (ContributionAsWritten(f).Some? <==> LatestOfField(Some(f)).Some?)
  {
  }

  /** A column's write as written, in terms of the two lookups the loop performs. */
  lemma ContributionAsWrittenSteps(f: Field, dst: Option<string>, v: Option<real>)
    requires dst == FieldTargetAsWritten(f.name) && v == LatestOfField(Some(f))
    ensures dst.None? || v.None? ==> ContributionAsWritten(f).None?
    ensures dst.Some? && v.Some? ==> ContributionAsWritten(f) == Some((dst.value, v.value * UnitScale * SignOf(dst.value)))
  {
  }

  /** The map the loop of the panel builds, with the lookup as written. */
  function CollectedAsWritten(fields: seq<Field>): map<string, real> {
    if fields == [] then map[]
    else
      var before := CollectedAsWritten(fields[..|fields| - 1]);
      match ContributionAsWritten(fields[|fields| - 1])
      case None => before
      case Some((key, value)) => before[key := value]
  }

  /** One more column: the map as written over a longer prefix is the shorter one plus that column's write. */
  lemma CollectedAsWrittenStep(fields: seq<Field>, i: nat, out: map<string, real>)
    requires i < |fields| && out == CollectedAsWritten(fields[..i])
    ensures ContributionAsWritten(fields[i]).None? ==> CollectedAsWritten(fields[..i + 1]) == out
    ensures ContributionAsWritten(fields[i]).Some? ==>
              var (key, value) := ContributionAsWritten(fields[i]).value;
              CollectedAsWritten(fields[..i + 1]) == out[key := value]
  {
    assert fields[..i + 1][..i] == fields[..i];
  }

  /** On tracked joints the map as written and the corrected map agree entry for entry. */
  lemma {:induction false} CollectedAsWrittenAgrees(fields: seq<Field>, joint: string)
    requires joint in JointSet()
    ensures joint in CollectedAsWritten(fields) <==> joint in Collected(fields)
    ensures joint in Collected(fields) ==> CollectedAsWritten(fields)[joint] == Collected(fields)[joint]
  {
    if fields != [] {
      ContributionAsWrittenBeyondTable(fields[|fields| - 1]);
      CollectedAsWrittenAgrees(fields[..|fields| - 1], joint);
    }
  }

  /** The corrected map is the map as written with every key that is no joint dropped. */
  lemma CollectedAsWrittenOnJoints(fields: seq<Field>)
    ensures Collected(fields).Keys == CollectedAsWritten(fields).Keys * JointSet()
    ensures forall j :: j in Collected(fields) ==> CollectedAsWritten(fields)[j] == Collected(fields)[j]
  {
    forall j | j in JointSet() {
      CollectedAsWrittenAgrees(fields, j);
    }
  }

  /** `extractLatestJoints` as written: None when there is no first series or the map is empty. */
  function LatestJointsAsWritten(data: PanelData): Option<map<string, real>> {
    if |data.series| == 0 then None
    else
      var out := CollectedAsWritten(data.series[0].fields);
      if out.Keys == {} then None else Some(out)
  }

  /**
    The extraction as written reports a map whenever the corrected one does,
    and its tracked joints are exactly those of the corrected map, with the
    same values; it may in addition report keys that are no joint.
   */
  lemma LatestJointsAsWrittenOnJoints(data: PanelData)
    ensures |data.series| == 0 ==> LatestJointsAsWritten(data).None?
    ensures LatestJoints(data).Some? ==> LatestJointsAsWritten(data).Some?
    ensures LatestJointsAsWritten(data).Some? ==>
              LatestJointsAsWritten(data).value.Keys * JointSet() ==
                (if LatestJoints(data).Some? then LatestJoints(data).value.Keys else {})
    ensures LatestJointsAsWritten(data).Some? && LatestJoints(data).Some? ==>
              forall j :: j in LatestJoints(data).value ==>
                LatestJointsAsWritten(data).value[j] == LatestJoints(data).value[j]
  {
    if |data.series| > 0 {
      CollectedAsWrittenOnJoints(data.series[0].fields);
    }
  }

  /** A lone numeric column named "constructor": the panel reports a joint map, the corrected lookup none. */
  lemma ConstructorColumnIsReported()
    ensures var data := PanelData([DataFrame([Field("constructor", Number, [Finite(1.0)])])]);
      LatestJoints(data).None? && LatestJointsAsWritten(data).Some?
      && LatestJointsAsWritten(data).value.Keys !! JointSet()
  {
    var f := Field("constructor", Number, [Finite(1.0)]);
    assert [f][..0] == [];
    ContributionAsWrittenBeyondTable(f);
    assert ContributionAsWritten(f).Some?;
    LatestJointsAsWrittenOnJoints(PanelData([DataFrame([f])]));
  }

  /** The loop over the first series' columns that fills the joint map, with the table lookup as written. */
  method ExtractLatestJoints(data: PanelData) returns (joints: Option<map<string, real>>)
    ensures joints == LatestJointsAsWritten(data)
  {
    if |data.series| == 0 {
      return None;
    }
    var fields := data.series[0].fields;
    var out: map<string, real> := map[];
    for i := 0 to |fields|
      invariant out == CollectedAsWritten(fields[..i])
    {
      var f := fields[i];
      CollectedAsWrittenStep(fields, i, out);
      var dst := FieldTargetAsWritten(f.name);
      if dst.None? {
        ContributionAsWrittenSteps(f, dst, LatestOfField(Some(f)));
        continue;
      }
      var v := LatestOfField(Some(f));
      ContributionAsWrittenSteps(f, dst, v);
      if v.None? {
        continue;
      }
      out := out[dst.value := v.value * UnitScale * SignOf(dst.value)];
    }
    assert fields[..|fields|] == fields;
    joints := if out.Keys == {} then None else Some(out);
  }
}
