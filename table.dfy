/** The state of the table as a value: which chopsticks lie free and which
    philosophers are eating. A philosopher eats exactly while it holds both of
    its chopsticks; between meals it holds none. The consistency predicate ties
    the chopsticks to the eaters, and the two steps below are what a successful
    request and a finish do to the chopsticks. */
module Table {
  import opened Ring

  /** Chopstick c lies free exactly when neither of its two users eats, and no
      two neighbours eat at once (with a single seat, the philosopher is its
      own neighbour and eats alone with the one chopstick). */
  predicate Consistent(free: seq<bool>, eating: seq<bool>)
  {
    && |free| == |eating|
    && (forall c :: 0 <= c < |free| ==>
          (free[c] <==> !eating[c] && !eating[Prev(c, |free|)]))
    && (forall i :: 0 <= i < |eating| && Next(i, |eating|) != i ==>
          !(eating[i] && eating[Next(i, |eating|)]))
  }

  /** Both of philosopher i's chopsticks taken off the table. */
  function PickUpBoth(free: seq<bool>, i: nat): (r: seq<bool>)
    requires i < |free|
    ensures |r| == |free|
    ensures forall c :: 0 <= c < |free| ==>
              r[c] == (free[c] && c != Left(i, |free|) && c != Right(i, |free|))
  {
    free[Left(i, |free|) := false][Right(i, |free|) := false]
  }

  /** Both of philosopher i's chopsticks put back on the table. */
  function PutDownBoth(free: seq<bool>, i: nat): (r: seq<bool>)
    requires i < |free|
    ensures |r| == |free|
    ensures forall c :: 0 <= c < |free| ==>
              r[c] == (free[c] || c == Left(i, |free|) || c == Right(i, |free|))
  {
    free[Left(i, |free|) := true][Right(i, |free|) := true]
  }

  /** Before anyone has asked, every chopstick is free and nobody eats. */
  lemma {:induction false} EmptyTableConsistent(n: nat)
    ensures Consistent(seq(n, _ => true), seq(n, _ => false))
  {
  }

  /** A waiting philosopher who finds both chopsticks free and picks them up
      keeps the table consistent. */
  lemma {:induction false} PickUpKeepsConsistent(free: seq<bool>, eating: seq<bool>, i: nat)
    requires Consistent(free, eating) && i < |free|
    requires !eating[i] && free[Left(i, |free|)] && free[Right(i, |free|)]
    ensures Consistent(PickUpBoth(free, i), eating[i := true])
  {
    var n := |free|;
    var free', eating' := PickUpBoth(free, i), eating[i := true];
    forall c | 0 <= c < n
      ensures free'[c] <==> !eating'[c] && !eating'[Prev(c, n)]
    {
      Users(i, c, n);
    }
    forall j | 0 <= j < n && Next(j, n) != j
      ensures !(eating'[j] && eating'[Next(j, n)])
    {
      NextPrev(j, n);
      if j == i {
        // i's right neighbour uses chopstick Right(i), which was free.
        assert Prev(Right(i, n), n) == i;
      } else if Next(j, n) == i {
        // i's left neighbour j uses chopstick Left(i) = Right(j), which was free.
        assert Right(j, n) == Left(i, n);
      }
    }
  }

  /** A philosopher who finishes eating and puts both chopsticks down keeps the
      table consistent. */
  lemma {:induction false} PutDownKeepsConsistent(free: seq<bool>, eating: seq<bool>, i: nat)
    requires Consistent(free, eating) && i < |free|
    requires eating[i]
    ensures Consistent(PutDownBoth(free, i), eating[i := false])
  {
    var n := |free|;
    var free', eating' := PutDownBoth(free, i), eating[i := false];
    forall c | 0 <= c < n
      ensures free'[c] <==> !eating'[c] && !eating'[Prev(c, n)]
    {
      Users(i, c, n);
      if c == Left(i, n) && Prev(c, n) != i {
        // The other user of Left(i) is i's left neighbour, who cannot be eating.
        NextPrev(c, n);
        assert Next(Prev(c, n), n) == i;
      }
      if c == Right(i, n) && c != i {
        // The other user of Right(i) is i's right neighbour, who cannot be eating.
        NextPrev(i, n);
        assert c == Next(i, n);
      }
    }
  }

  /** An eating philosopher holds both of its chopsticks. */
  lemma {:induction false} EaterHoldsBoth(free: seq<bool>, eating: seq<bool>, i: nat)
    requires Consistent(free, eating) && i < |free|
    requires eating[i]
    ensures !free[Left(i, |free|)] && !free[Right(i, |free|)]
  {
    var n := |free|;
    NextPrev(i, n);
    assert Prev(Right(i, n), n) == i;
  }

  /** Mutual exclusion: with two or more seats, the two users of a chopstick
      never eat at the same time, so each chopstick has at most one holder. */
  lemma {:induction false} AtMostOneHolder(free: seq<bool>, eating: seq<bool>, c: nat)
    requires Consistent(free, eating) && c < |free|
    requires 2 <= |free|
    ensures !(eating[c] && eating[Prev(c, |free|)])
  {
    var n := |free|;
    var j := Prev(c, n);
    NextPrev(c, n);
    assert Next(j, n) == c && c != j;
  }
}
