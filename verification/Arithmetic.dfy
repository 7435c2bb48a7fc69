/** The smaller of two numbers, and what multiplication by a chunk size keeps. */
module Arithmetic {
  function Min(a: nat, b: nat): nat {
    if a < b then a else b
  }

  lemma MulGrows(a: nat, b: nat, c: nat)
    requires a <= b
    ensures a * c <= b * c
  {}

  lemma MulStep(a: nat, c: nat)
    ensures (a + 1) * c == a * c + c
  {}

  /** Division that rounds up: the fewest chunks that hold `n`. */
  function CeilDiv(n: nat, chunk: nat): nat
    requires 1 <= chunk
  {
    (n + chunk - 1) / chunk
  }

  lemma CeilDivCovers(n: nat, chunk: nat)
    requires 1 <= chunk
    ensures n <= CeilDiv(n, chunk) * chunk < n + chunk
  {
    var d := n + chunk - 1;
    assert d == (d / chunk) * chunk + d % chunk;
  }

  lemma CeilDivIsLeast(n: nat, chunk: nat, i: nat)
    requires 1 <= chunk
    ensures i < CeilDiv(n, chunk) <==> i * chunk < n
  {
    hide CeilDiv;
    CeilDivCovers(n, chunk);
    var k := CeilDiv(n, chunk);
    if i < k {
      MulGrows(i + 1, k, chunk);
      MulStep(i, chunk);
    } else {
      MulGrows(k, i, chunk);
    }
  }
}
