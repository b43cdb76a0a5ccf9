/**
 * The skull meter: measuring a subject with the instrument settles, once and for all,
 * whether it is a mutant or a human. A subject holding one of the configured roles is
 * always human; any other subject gets a random verdict, passed in as an index.
 */
module SkullMeterSystem {
  import Wrappers

  /** The stored verdict, in the declaration order of its enumeration (None = 0, Mutant = 1, Human = 2). */
  datatype OperationResult = None | Mutant | Human

  /** The popup shown to the subject. */
  datatype Phrase = YouMutant | YouHuman

  /** The enumeration's values in declaration order, as the verdict is drawn from them. */
  const Values: seq<OperationResult> := [None, Mutant, Human]

  /** An entity of the subject's mind-role container: whether it is a mind role, and its job and antagonist prototypes. */
  datatype MindRole = MindRole(isMindRole: bool, jobPrototype: Wrappers.Option<string>, antagPrototype: Wrappers.Option<string>)

  /** The id compared with the always-human list: the job prototype, else the antagonist prototype, else the empty id. */
  function RoleId(r: MindRole): string
  {
    if r.jobPrototype.Some? then r.jobPrototype.value
    else if r.antagPrototype.Some? then r.antagPrototype.value
    else ""
  }

  /** The role makes its holder always human. */
  predicate AlwaysHuman(r: MindRole, alwaysHumanRoles: seq<string>)
  {
    r.isMindRole && RoleId(r) in alwaysHumanRoles
  }

  /** Some role in `roles` makes its holder always human. */
  function AnyAlwaysHuman(roles: seq<MindRole>, alwaysHumanRoles: seq<string>): (b: bool)
    ensures b <==> exists i :: 0 <= i < |roles| && AlwaysHuman(roles[i], alwaysHumanRoles)
    decreases |roles|
  {
    if roles == [] then false
    else if AlwaysHuman(roles[0], alwaysHumanRoles) then true
    else
      var b := AnyAlwaysHuman(roles[1..], alwaysHumanRoles);
      assert forall i :: 1 <= i < |roles| ==> roles[i] == roles[1..][i - 1];
      b
  }

  /** The roles of the subject's mind; a subject without a mind has none. */
  function RolesOf(mind: Wrappers.Option<seq<MindRole>>): seq<MindRole>
  {
    if mind.Some? then mind.value else []
  }

  /** The phrase matching a settled verdict. */
  function PhraseOf(r: OperationResult): Phrase
  {
    if r == Mutant then YouMutant else YouHuman
  }

  /**
   * One use of an item on the subject, as a value: the stored verdict afterwards and
   * the popup shown. `randomIndex` is the draw from [1, 3).
   */
  function Measure(result: OperationResult, alwaysHumanRoles: seq<string>, isInstrument: bool,
                   mind: Wrappers.Option<seq<MindRole>>, randomIndex: int): (r: (OperationResult, Wrappers.Option<Phrase>))
    requires 1 <= randomIndex < 3
    ensures r.0 == None <==> !isInstrument && result == None
    ensures r.1.Some? <==> isInstrument
  {
    if !isInstrument then (result, Wrappers.None)
    else if result != None then (result, Wrappers.Some(PhraseOf(result)))
    else if AnyAlwaysHuman(RolesOf(mind), alwaysHumanRoles) then (Human, Wrappers.Some(YouHuman))
    else (Values[randomIndex], Wrappers.Some(PhraseOf(Values[randomIndex])))
  }

  /** An item that is not the instrument changes nothing and shows nothing. */
  lemma NonInstrumentIgnored(result: OperationResult, alwaysHumanRoles: seq<string>,
                             mind: Wrappers.Option<seq<MindRole>>, randomIndex: int)
    requires 1 <= randomIndex < 3
    ensures Measure(result, alwaysHumanRoles, false, mind, randomIndex) == (result, Wrappers.None)
  {
  }

  /** A use of the instrument always leaves a settled verdict, and the popup shown matches it. */
  lemma MeasureSettles(result: OperationResult, alwaysHumanRoles: seq<string>,
                       mind: Wrappers.Option<seq<MindRole>>, randomIndex: int)
    requires 1 <= randomIndex < 3
    ensures var (r, popup) := Measure(result, alwaysHumanRoles, true, mind, randomIndex);
            r != None && popup == Wrappers.Some(PhraseOf(r))
  {
  }

  /** A settled verdict never changes again, whatever is used and whatever is drawn. */
  lemma VerdictIsSticky(result: OperationResult, alwaysHumanRoles: seq<string>, isInstrument: bool,
                        mind: Wrappers.Option<seq<MindRole>>, randomIndex: int)
    requires 1 <= randomIndex < 3 && result != None
    ensures Measure(result, alwaysHumanRoles, isInstrument, mind, randomIndex).0 == result
  {
  }

  /** Measuring again repeats the first verdict and its phrase. */
  lemma RemeasureRepeats(result: OperationResult, alwaysHumanRoles: seq<string>,
                         mind: Wrappers.Option<seq<MindRole>>, r1: int, r2: int)
    requires 1 <= r1 < 3 && 1 <= r2 < 3
    ensures var first := Measure(result, alwaysHumanRoles, true, mind, r1);
            Measure(first.0, alwaysHumanRoles, true, mind, r2) == first
  {
  }

  /** A first measurement of a subject holding an always-human role says human, whatever is drawn. */
  lemma AlwaysHumanRoleMeasuresHuman(alwaysHumanRoles: seq<string>, roles: seq<MindRole>, i: nat, randomIndex: int)
    requires 1 <= randomIndex < 3
    requires i < |roles| && AlwaysHuman(roles[i], alwaysHumanRoles)
    ensures Measure(None, alwaysHumanRoles, true, Wrappers.Some(roles), randomIndex) == (Human, Wrappers.Some(YouHuman))
  {
  }

  /** Without an always-human role the draw decides: index 1 gives a mutant, index 2 a human. */
  lemma DrawDecides(alwaysHumanRoles: seq<string>, mind: Wrappers.Option<seq<MindRole>>, randomIndex: int)
    requires 1 <= randomIndex < 3
    requires forall i :: 0 <= i < |RolesOf(mind)| ==> !AlwaysHuman(RolesOf(mind)[i], alwaysHumanRoles)
    ensures Measure(None, alwaysHumanRoles, true, mind, randomIndex).0 == if randomIndex == 1 then Mutant else Human
  {
  }

  /** The SkullMeter component of a subject. */
  class SkullMeter {
    var resultTesting: OperationResult
    var alwaysHumanRoles: seq<string>

    /** A subject not yet measured, with the configured always-human roles. */
    constructor(alwaysHumanRoles: seq<string>)
      ensures resultTesting == None && this.alwaysHumanRoles == alwaysHumanRoles
    {
      resultTesting := None;
      this.alwaysHumanRoles := alwaysHumanRoles;
    }

    /**
     * OnInteractUsing: `isInstrument` says whether the used item is the skull meter
     * instrument, `mind` is the subject's mind roles (None without a mind), and
     * `randomIndex` is the draw from [1, 3). Returns the popup shown, if any.
     */
    method OnInteractUsing(isInstrument: bool, mind: Wrappers.Option<seq<MindRole>>, randomIndex: int)
      returns (popup: Wrappers.Option<Phrase>)
      requires 1 <= randomIndex < 3
      modifies this`resultTesting
      ensures (resultTesting, popup) == Measure(old(resultTesting), alwaysHumanRoles, isInstrument, mind, randomIndex)
    {
      if !isInstrument {
        return Wrappers.None;
      }
      match resultTesting
      case None =>
        if mind.Some? {
          var roles := mind.value;
          var i := 0;
          while i < |roles|
            invariant 0 <= i <= |roles|
            invariant forall j :: 0 <= j < i ==> !AlwaysHuman(roles[j], alwaysHumanRoles)
          {
            var role := roles[i];
            if role.isMindRole {
              var roleId := "";
              if role.jobPrototype.Some? {
                roleId := role.jobPrototype.value;
              } else if role.antagPrototype.Some? {
                roleId := role.antagPrototype.value;
              }
              if roleId in alwaysHumanRoles {
                resultTesting := Human;
                return Wrappers.Some(YouHuman);
              }
            }
            i := i + 1;
          }
        }
        resultTesting := Values[randomIndex];
        if resultTesting == Mutant {
          popup := Wrappers.Some(YouMutant);
        } else {
          popup := Wrappers.Some(YouHuman);
        }
      case Mutant =>
        popup := Wrappers.Some(YouMutant);
      case Human =>
        popup := Wrappers.Some(YouHuman);
    }
  }
}
