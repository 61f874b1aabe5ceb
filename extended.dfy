/**
  Integers extended with the two infinities that JavaScript uses to seed a
  running minimum (`Infinity`) and a running maximum (`-Infinity`), with the
  order and the `Math.min` / `Math.max` operations on them.
 */
module ExtendedInt {

  datatype Ext = NegInf | Fin(v: int) | PosInf

  /** The order of the extended line: -oo below every integer, +oo above. */
  predicate Le(a: Ext, b: Ext) {
    a.NegInf? || b.PosInf? || (a.Fin? && b.Fin? && a.v <= b.v)
  }

  /** `Math.min(a, b)`: the lesser argument. */
  function Min(a: Ext, b: Ext): (m: Ext)
    ensures Le(m, a) && Le(m, b)
    ensures m == a || m == b
  {
    if Le(a, b) then a else b
  }

  /** `Math.max(a, b)`: the greater argument. */
  function Max(a: Ext, b: Ext): (m: Ext)
    ensures Le(a, m) && Le(b, m)
    ensures m == a || m == b
  {
    if Le(a, b) then b else a
  }

  lemma LeTransitive(a: Ext, b: Ext, c: Ext)
    requires Le(a, b) && Le(b, c)
    ensures Le(a, c)
  {
  }
}
