/** How evenly the round-robin counter spreads consecutive requests over a stable list of nodes. */
module RoundRobin {

  // The place the counter points at.
  function Slot(n: nat, counter: nat): (slot: nat)
    requires n > 0
    ensures slot < n
  {
    counter % n
  }

  function Advance(n: nat, counter: nat): nat
    requires n > 0
  {
    (counter + 1) % n
  }

  // How many of the next `m` requests go to place `k`.
  function Share(n: nat, counter: nat, m: nat, k: nat): nat
    requires n > 0
    decreases m
  {
    if m == 0 then 0
    else (if Slot(n, counter) == k then 1 else 0) + Share(n, Advance(n, counter), m - 1, k)
  }

  // The requests before place `k` comes up, when the counter points at `slot`.
  function Wait(n: nat, slot: nat, k: nat): (wait: nat)
    requires slot < n && k < n
    ensures wait < n
  {
    if k >= slot then k - slot else k + n - slot
  }

  // Whole rounds and the requests left over.
  lemma Rounds(n: nat, m: nat) returns (q: nat, r: nat)
    requires n > 0
    ensures q == m / n && r == m % n && m == q * n + r && r < n
  {
    q, r := m / n, m % n;
  }

  lemma UniqueRemainder(n: nat, q: nat, r: nat, q': nat, r': nat)
    requires r < n && r' < n && q * n + r == q' * n + r'
    ensures q == q' && r == r'
  {
    if q < q' {
      MoreRounds(n, q, q');
    } else if q' < q {
      MoreRounds(n, q', q);
    }
  }

  lemma {:induction false} MoreRounds(n: nat, q: nat, q': nat)
    requires q < q'
    ensures q * n + n <= q' * n
    decreases q'
  {
    assert q' * n == (q' - 1) * n + n;
    if q < q' - 1 {
      MoreRounds(n, q, q' - 1);
    }
  }

  lemma Remainder(n: nat, x: nat, q: nat, r: nat)
    requires r < n && x == q * n + r
    ensures x % n == r
  {
    var q', r' := x / n, x % n;
    UniqueRemainder(n, q, r, q', r');
  }

  lemma NextSlot(n: nat, counter: nat)
    requires n > 0
    ensures Slot(n, Advance(n, counter)) == if Slot(n, counter) + 1 == n then 0 else Slot(n, counter) + 1
  {
    var q, r := Rounds(n, counter);
    if r + 1 == n {
      Remainder(n, counter + 1, q + 1, 0);
    } else {
      Remainder(n, counter + 1, q, r + 1);
    }
    Remainder(n, Advance(n, counter), 0, Advance(n, counter));
  }

  // Every place gets one request a round; of an unfinished round the places that come up first get one.
  lemma {:induction false} ShareOfRounds(n: nat, counter: nat, q: nat, r: nat, k: nat)
    requires n > 0 && k < n && r < n
    ensures Share(n, counter, q * n + r, k) == q + if Wait(n, Slot(n, counter), k) < r then 1 else 0
    decreases q, r
  {
    NextSlot(n, counter);
    if r > 0 {
      ShareOfRounds(n, Advance(n, counter), q, r - 1, k);
    } else if q > 0 {
      ShareOfRounds(n, Advance(n, counter), q - 1, n - 1, k);
      assert q * n + r - 1 == (q - 1) * n + (n - 1);
    }
  }

  // Any `m` consecutive requests give each of `n` nodes `m / n` of them, rounded down or up, and up
  // exactly for the `m % n` places that come next.
  lemma FairShares(n: nat, counter: nat, m: nat, k: nat)
    requires n > 0 && k < n
    ensures Share(n, counter, m, k) == m / n + if Wait(n, Slot(n, counter), k) < m % n then 1 else 0
  {
    var q, r := Rounds(n, m);
    ShareOfRounds(n, counter, q, r, k);
  }
}
