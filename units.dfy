/**
 * The display units of the area-measurement controller: a fixed, ordered list
 * of three unit names, a conversion factor from square metres for each, and a
 * display symbol for each. The current unit is an index into the list that
 * advances with wrap-around.
 */
module MeasureUnits {

  /** Square kilometres, square miles and square nautical miles, by their names in the source. */
  const Kilometre: string := "千米"
  const Mile: string := "英里"
  const NauticalMile: string := "海里"

  /** The cycling order of the units. */
  const Units: seq<string> := [Kilometre, Mile, NauticalMile]

  /** Square metres per one square unit. */
  const ConversionFactors: map<string, real> :=
    map[Kilometre := 1000000.0, Mile := 2589988.11, NauticalMile := 3429904.0]

  /** The suffix shown after a converted area. */
  const UnitSymbols: map<string, string> :=
    map[Kilometre := "km²", Mile := "mi²", NauticalMile := "nmi²"]

  /** A valid value of the controller's current-unit index. */
  predicate IsUnitIndex(i: int) {
    0 <= i < |Units|
  }

  /** Both lookups a unit index leads to are defined, and the factor is positive. */
  lemma TablesCoverUnits(i: int)
    requires IsUnitIndex(i)
    ensures Units[i] in ConversionFactors && ConversionFactors[Units[i]] > 0.0
    ensures Units[i] in UnitSymbols
  {
  }

  /** The factor of the unit at index `i`. */
  function Factor(i: int): (f: real)
    requires IsUnitIndex(i)
    ensures f > 0.0
  {
    TablesCoverUnits(i);
    ConversionFactors[Units[i]]
  }

  /** The symbol of the unit at index `i`. */
  function Symbol(i: int): (s: string)
    requires IsUnitIndex(i)
    ensures s in UnitSymbols.Values && |s| >= 3
  {
    TablesCoverUnits(i);
    UnitSymbols[Units[i]]
  }

  /** Different units have different names and different symbols, so a symbol identifies its unit. */
  lemma SymbolIdentifiesUnit(i: int, j: int)
    requires IsUnitIndex(i) && IsUnitIndex(j)
    ensures Units[i] == Units[j] <==> i == j
    ensures Symbol(i) == Symbol(j) <==> i == j
  {
  }

  /** The index after one unit switch: the next unit in the list, wrapping to the first. */
  function NextUnitIndex(i: int): (j: int)
    requires IsUnitIndex(i)
    ensures IsUnitIndex(j)
    ensures i + 1 < |Units| ==> j == i + 1
    ensures i + 1 == |Units| ==> j == 0
  {
    (i + 1) % |Units|
  }

  /** The index after `n` consecutive unit switches. */
  function SwitchTimes(i: int, n: nat): (j: int)
    requires IsUnitIndex(i)
    ensures IsUnitIndex(j)
  {
    if n == 0 then i else NextUnitIndex(SwitchTimes(i, n - 1))
  }

  /** `n` switches advance the index by `n` modulo the number of units. */
  lemma {:induction false} SwitchTimesIsModular(i: int, n: nat)
    requires IsUnitIndex(i)
    ensures SwitchTimes(i, n) == (i + n) % |Units|
  {
    if n > 0 {
      SwitchTimesIsModular(i, n - 1);
    }
  }

  /** The unit comes back exactly after a multiple of three switches; in particular three switches restore it. */
  lemma {:induction false} SwitchTimesRestores(i: int, n: nat)
    requires IsUnitIndex(i)
    ensures SwitchTimes(i, n) == i <==> n % |Units| == 0
  {
    SwitchTimesIsModular(i, n);
  }

  /** Three consecutive switches visit every unit exactly once. */
  lemma ThreeSwitchesVisitAllUnits(i: int)
    requires IsUnitIndex(i)
    ensures {Units[SwitchTimes(i, 1)], Units[SwitchTimes(i, 2)], Units[SwitchTimes(i, 3)]} == set u | u in Units
  {
    SwitchTimesIsModular(i, 1);
    SwitchTimesIsModular(i, 2);
    SwitchTimesIsModular(i, 3);
  }
}
