/**
 * Real numbers extended with positive infinity, standing for the Python floats of the
 * statistics code, which uses `float('inf')` for "insufficient data" and for a
 * percentage taken relative to a zero mean.
 */
module ExtReal {

  datatype Ext = Fin(r: real) | PosInf

  function Abs(x: real): (r: real)
    ensures r >= 0.0
    ensures r == x || r == -x
  {
    if x < 0.0 then -x else x
  }

  /** `abs` on an extended real: infinity stays infinite. */
  function AbsExt(x: Ext): (r: Ext)
    ensures r.PosInf? <==> x.PosInf?
    ensures r.Fin? ==> r.r >= 0.0 && (r.r == x.r || r.r == -x.r)
  {
    match x
    case Fin(v) => Fin(Abs(v))
    case PosInf => PosInf
  }

  /** `x < c` for a finite bound `c`: infinity is below nothing. */
  predicate Below(x: Ext, c: real) {
    x.Fin? && x.r < c
  }
}
