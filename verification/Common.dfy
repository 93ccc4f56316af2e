/** The optional value used for empty table slots and for events that may not come. */
module Common {
  datatype Option<+T> = None | Some(value: T)

  /** Quotient and remainder are the only ones there are. */
  lemma DivMod(n: nat, q: nat, r: nat, m: nat)
    requires m > 0 && n == q * m + r && r < m
    ensures n / m == q && n % m == r
  {
    var d := n / m - q;
    assert d * m == r - n % m;
    assert d >= 1 ==> d * m >= m;
    assert d <= -1 ==> d * m <= -1 * m;
  }
}
