/**
 * The unit policy `lookup_bigger_is_better`: a closed table from a unit string to
 * whether a larger value of that unit is an improvement. Any other unit is fatal; the
 * source logs an error and exits, modelled here as an error result.
 */
module Units {
  import opened Wrappers

  datatype UnitError = UnknownUnit(units: string)

  /** Units for which a larger value is better, in the source's list order. */
  const BiggerUnits: seq<string> := ["fps", "runs/s", "score", "score (bigger is better)"]

  /** Units for which a smaller value is better, in the source's list order. */
  const SmallerUnits: seq<string> := ["ms", "%", "count", "kb", "percent", "mWh"]

  function LookupBiggerIsBetter(units: string): (r: Result<bool, UnitError>)
    ensures r == Ok(true) <==> units in BiggerUnits
    ensures r == Ok(false) <==> units in SmallerUnits
    ensures r.Err? <==> units !in BiggerUnits && units !in SmallerUnits
    ensures r.Err? ==> r.error == UnknownUnit(units)
  {
    UnitsDisjoint();
    if units in BiggerUnits then Ok(true)
    else if units in SmallerUnits then Ok(false)
    else Err(UnknownUnit(units))
  }

  /** No unit is both bigger-is-better and smaller-is-better. */
  lemma UnitsDisjoint()
    ensures forall u :: u in BiggerUnits ==> u !in SmallerUnits
  {
  }
}
