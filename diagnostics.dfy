/**
 * The map between stepper ids and the motor names the diagnostics
 * commands use: each axis has one lower-case name, a name is accepted in
 * lower or upper case, "y" stands for the first Y motor, and anything else
 * maps to the invalid id `STEPPER_ID_MAX`.
 */
module Diagnostics {
  import opened StepperManager

  /** The names that select each motor. */
  const X_NAMES: set<string> := {"x", "X"}
  const Y1_NAMES: set<string> := {"y", "Y", "y1", "Y1"}
  const Y2_NAMES: set<string> := {"y2", "Y2"}
  const Z_NAMES: set<string> := {"z", "Z"}
  const GRIPPER_NAMES: set<string> := {"gripper", "GRIPPER"}

  /** The canonical names, the ones `IdToName` gives. */
  const CANONICAL: set<string> := {"x", "y1", "y2", "z", "gripper"}

  /** `stepper_id_to_name`: the lower-case name of a motor, "unknown" for any other id. */
  function IdToName(id: int): (s: string)
    ensures s == "unknown" <==> !(0 <= id < STEPPER_ID_MAX)
    ensures 0 <= id < STEPPER_ID_MAX ==> s in CANONICAL
  {
    if id == X_AXIS then "x"
    else if id == Y1_AXIS then "y1"
    else if id == Y2_AXIS then "y2"
    else if id == Z_AXIS then "z"
    else if id == GRIPPER then "gripper"
    else "unknown"
  }

  /** `stepper_name_to_id`: the motor a name selects, compared case-sensitively, or `STEPPER_ID_MAX`. */
  function NameToId(name: string): (id: nat)
    ensures id <= STEPPER_ID_MAX
  {
    if name == "x" || name == "X" then X_AXIS
    else if name == "y" || name == "Y" || name == "y1" || name == "Y1" then Y1_AXIS
    else if name == "y2" || name == "Y2" then Y2_AXIS
    else if name == "z" || name == "Z" then Z_AXIS
    else if name == "gripper" || name == "GRIPPER" then GRIPPER
    else STEPPER_ID_MAX
  }

  /** Each id is selected by exactly its own names; every other name is invalid. */
  lemma NameToIdCases(name: string)
    ensures NameToId(name) == X_AXIS <==> name in X_NAMES
    ensures NameToId(name) == Y1_AXIS <==> name in Y1_NAMES
    ensures NameToId(name) == Y2_AXIS <==> name in Y2_NAMES
    ensures NameToId(name) == Z_AXIS <==> name in Z_NAMES
    ensures NameToId(name) == GRIPPER <==> name in GRIPPER_NAMES
    ensures NameToId(name) == STEPPER_ID_MAX
            <==> name !in X_NAMES + Y1_NAMES + Y2_NAMES + Z_NAMES + GRIPPER_NAMES
  {
  }

  /** A mixed-case name such as "Gripper" is not accepted. */
  lemma MixedCaseRejected()
    ensures NameToId("Gripper") == STEPPER_ID_MAX && NameToId("Y1") == Y1_AXIS
  {
  }

  /** The canonical names survive the round trip through the id; "y" comes back as "y1". */
  lemma NameRoundTrip(name: string)
    ensures name in CANONICAL ==> IdToName(NameToId(name)) == name
    ensures IdToName(NameToId("y")) == "y1"
  {
  }

  /** Every valid id survives the round trip through its name. */
  lemma IdRoundTrip(id: int)
    requires 0 <= id < STEPPER_ID_MAX
    ensures NameToId(IdToName(id)) == id
  {
  }

  /** Any accepted name comes back from the round trip as the canonical name of the same motor. */
  lemma NormalisedName(name: string)
    requires NameToId(name) < STEPPER_ID_MAX
    ensures IdToName(NameToId(name)) in CANONICAL
    ensures NameToId(IdToName(NameToId(name))) == NameToId(name)
  {
    IdRoundTrip(NameToId(name));
  }
}
