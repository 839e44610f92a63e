/** `ngx_align` and `ngx_align_ptr`. */
module Alignment {

  /** The next multiple of `a`. */
  function Align(n: nat, a: nat): (r: nat)
    requires a > 0
    ensures n <= r < n + a && r % a == 0
  {
    AlignFacts(n, a);
    (n + a - 1) / a * a
  }

  lemma AlignFacts(n: nat, a: nat)
    requires a > 0
    ensures var r := (n + a - 1) / a * a; n <= r < n + a && r % a == 0
  {
    var q := (n + a - 1) / a;
    assert q * a + (n + a - 1) % a == n + a - 1;
    Multiple(q, a);
  }

  lemma Multiple(q: nat, a: nat)
    requires a > 0
    ensures (q * a) % a == 0
  {
    var m := q * a / a;
    var lo, hi := if m < q then m else q, if m < q then q else m;
    assert lo < hi ==> (lo + 1) * a <= hi * a;
  }
}
