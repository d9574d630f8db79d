/** What several modules share. */
module Common {

  datatype Option<+T> = None | Some(value: T)

  lemma {:induction false} BelowSize(a: set<nat>, n: nat)
    requires forall x <- a :: x < n
    ensures |a| <= n
  {
    if n == 0 {
      assert a == {};
    } else {
      BelowSize(a - {n - 1}, n - 1);
    }
  }
}
