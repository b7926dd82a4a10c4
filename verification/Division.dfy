/** Quotient and remainder are unique. Shared by the scheduler's quantum and the log's digits. */
module Division {
  lemma DivIs(a: int, q: nat, d: int, r: nat)
    requires q > 0 && a == q * d + r && r < q
    ensures a / q == d && a % q == r
  {
    var e := a / q - d;
    assert q * e == q * (a / q) - q * d == r - a % q;
    MulGrows(q, e);
    MulGrows(q, -e);
  }

  lemma MulGrows(q: nat, e: int)
    ensures e >= 1 ==> q * e >= q
  {
    if e >= 1 {
      assert q * (e - 1) >= 0;
    }
  }
}
