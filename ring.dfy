/** Ring wiring of the table: n philosophers sit around n chopsticks.
    Philosopher i picks up chopstick i on the left and chopstick (i + 1) mod n
    on the right, so consecutive philosophers, including n - 1 and 0, share one. */
module Ring {

  /** Index of philosopher i's left chopstick. */
  function Left(i: nat, n: nat): (c: nat)
    requires i < n
    ensures c < n
  {
    i
  }

  /** The philosopher sitting after i, who shares i's right chopstick. */
  function Next(i: nat, n: nat): (j: nat)
    requires i < n
    ensures j < n
  {
    if i + 1 == n then 0 else i + 1
  }

  /** Index of philosopher i's right chopstick: the one shared with the
      philosopher after i, wrapping round from n - 1 to 0. */
  function Right(i: nat, n: nat): (c: nat)
    requires i < n
    ensures c < n
  {
    Next(i, n)
  }

  /** The wrap-around is the remainder of i + 1 modulo n. */
  lemma {:induction false} RightIsModulo(i: nat, n: nat)
    requires i < n
    ensures Right(i, n) == (i + 1) % n
  {
    if i + 1 == n {
      assert (i + 1) % n == n % n == 0;
    } else {
      assert (i + 1) % n == i + 1;
    }
  }

  /** The philosopher sitting before i, who shares i's left chopstick. */
  function Prev(i: nat, n: nat): (j: nat)
    requires i < n
    ensures j < n
  {
    if i == 0 then n - 1 else i - 1
  }

  /** Chopstick c is used by exactly two seats: c (as its left one) and Prev(c)
      (as its right one); no other philosopher reaches for it. */
  lemma {:induction false} Users(i: nat, c: nat, n: nat)
    requires i < n && c < n
    ensures Left(i, n) == c || Right(i, n) == c <==> i == c || i == Prev(c, n)
  {
  }

  /** Next and Prev undo each other: the right neighbour's left neighbour is i. */
  lemma {:induction false} NextPrev(i: nat, n: nat)
    requires i < n
    ensures Prev(Next(i, n), n) == i && Next(Prev(i, n), n) == i
  {
  }

  /** i's right chopstick is its right neighbour's left chopstick. */
  lemma {:induction false} SharedWithNext(i: nat, n: nat)
    requires i < n
    ensures Right(i, n) == Left(Next(i, n), n)
  {
  }

  /** With three or more seats, two consecutive philosophers share exactly one
      chopstick: i's right, which is i + 1's left. */
  lemma {:induction false} NeighboursShareExactlyOne(i: nat, n: nat)
    requires 3 <= n && i < n
    ensures {Left(i, n), Right(i, n)} * {Left(Next(i, n), n), Right(Next(i, n), n)} == {Right(i, n)}
  {
  }

  /** Philosophers who are not neighbours share no chopstick. */
  lemma {:induction false} OthersShareNone(i: nat, j: nat, n: nat)
    requires i < n && j < n
    requires j != i && j != Next(i, n) && j != Prev(i, n)
    ensures {Left(i, n), Right(i, n)} * {Left(j, n), Right(j, n)} == {}
  {
  }
}
