/** Positions that count up for ever, kept in 64-bit words, and the slots they name. */
module RingPositions {

  const WORD: nat := 0x1_0000_0000_0000_0000

  function Pow2(k: nat): (p: nat)
    ensures p > 0
  {
    if k == 0 then 1 else 2 * Pow2(k - 1)
  }

  // A capacity the ring accepts: a power of two of at least two that a word can hold.
  ghost predicate IsCapacity(c: nat) {
    exists k :: 1 <= k < 64 && c == Pow2(k)
  }

  // The slot a position names: what is left of the position after taking away whole rounds of the
  // ring. SlotIsMasked says that this is the position masked with the capacity less one.
  function Slot(position: nat, c: nat): (slot: nat)
    requires c > 0
    ensures slot < c
    decreases position
  {
    if position < c then position else Slot(position - c, c)
  }

  lemma EightMore(k: nat)
    ensures Pow2(k + 8) == 0x100 * Pow2(k)
  {
    assert Pow2(k + 2) == 4 * Pow2(k);
    assert Pow2(k + 4) == 16 * Pow2(k);
    assert Pow2(k + 6) == 64 * Pow2(k);
  }

  lemma WordIsPow2()
    ensures Pow2(64) == WORD
  {
    EightMore(0);
    EightMore(8);
    EightMore(16);
    EightMore(24);
    EightMore(32);
    EightMore(40);
    EightMore(48);
    EightMore(56);
  }

  lemma {:induction false} Pow2Grows(j: nat, k: nat)
    requires j <= k
    ensures Pow2(j) <= Pow2(k)
    ensures j < k ==> 2 * Pow2(j) <= Pow2(k)
  {
    if j < k {
      Pow2Grows(j, k - 1);
    }
  }

  lemma {:induction false} CapacityFitsWord(c: nat)
    requires IsCapacity(c)
    ensures 2 <= c < WORD
  {
    var k :| 1 <= k < 64 && c == Pow2(k);
    WordIsPow2();
    Pow2Grows(k, 64);
    Pow2Grows(0, k);
  }

  // Because the capacity is a power of two, a larger power of two is a whole number of rounds.
  lemma {:induction false} WholeRounds(position: nat, k: nat, j: nat)
    requires k <= j
    ensures Slot(position + Pow2(j), Pow2(k)) == Slot(position, Pow2(k))
    decreases j
  {
    if k < j {
      WholeRounds(position + Pow2(j - 1), k, j - 1);
      WholeRounds(position, k, j - 1);
      assert position + Pow2(j) == position + Pow2(j - 1) + Pow2(j - 1);
    }
  }

  /** A wrapped position names the same slot as the position it stands for. */
  lemma {:induction false} WrappedSlot(a: nat, c: nat)
    requires IsCapacity(c)
    ensures c > 0 && Slot(a % WORD, c) == Slot(a, c)
  {
    hide Slot, Pow2;
    var k :| 1 <= k < 64 && c == Pow2(k);
    if a >= WORD {
      WordIsPow2();
      WholeRounds(a - WORD, k, 64);
      WrappedSlot(a - WORD, c);
    }
  }

  // Subtraction that wraps gives the true distance.
  lemma WrappedDistance(a: nat, b: nat)
    requires b <= a < b + WORD
    ensures (a % WORD - b % WORD) % WORD == a - b
  {
    var qa, qb := a / WORD, b / WORD;
    assert a == qa * WORD + a % WORD && b == qb * WORD + b % WORD;
    assert qa == qb || qa == qb + 1;
  }

  // The other way round, it is what is left of the range of a word.
  lemma WrappedBackwards(a: nat, b: nat)
    requires a < b < a + WORD
    ensures (a % WORD - b % WORD) % WORD == WORD - (b - a)
  {
    WrappedDistance(b, a);
    assert (a % WORD - b % WORD) == -(b % WORD - a % WORD);
  }

  // Wrapped positions within one word of each other are equal only if the positions are.
  lemma WrappedEqual(a: nat, b: nat)
    requires b <= a < b + WORD
    ensures a % WORD == b % WORD <==> a == b
  {
    WrappedDistance(a, b);
  }

  lemma WrappedNext(a: nat)
    ensures (a % WORD + 1) % WORD == (a + 1) % WORD
  {
  }

  /** Positions less than a capacity apart are in different slots. */
  lemma {:induction false} SlotsDiffer(a: nat, b: nat, c: nat)
    requires b < a < b + c
    ensures Slot(a, c) != Slot(b, c)
  {
    if b >= c {
      SlotsDiffer(a - c, b - c, c);
    }
  }

  // Bit by bit, least significant first.
  function And(a: nat, b: nat): nat
    decreases a
  {
    if a == 0 || b == 0 then 0 else (a % 2) * (b % 2) + 2 * And(a / 2, b / 2)
  }

  // Half a ring: a position's last bit is its slot's, the rest names a slot of the half.
  lemma {:induction false} SlotHalves(position: nat, c: nat)
    requires c > 0
    ensures Slot(position, 2 * c) == position % 2 + 2 * Slot(position / 2, c)
    decreases position
  {
    if position >= 2 * c {
      SlotHalves(position - 2 * c, c);
      assert (position - 2 * c) / 2 == position / 2 - c;
      assert (position - 2 * c) % 2 == position % 2;
    }
  }

  // Masking with all ones down to the last bit.
  lemma AndHalves(a: nat, mask: nat)
    ensures And(a, 2 * mask + 1) == a % 2 + 2 * And(a / 2, mask)
  {
    var odd := 2 * mask + 1;
    assert odd % 2 == 1 && odd / 2 == mask;
  }

  lemma {:induction false} MaskedSlot(position: nat, k: nat)
    ensures Slot(position, Pow2(k)) == And(position, Pow2(k) - 1)
    decreases k
  {
    hide And, Slot;
    if k == 0 {
      SlotOfOne(position);
      NothingToAnd(position);
    } else {
      var half := Pow2(k - 1);
      SlotHalves(position, half);
      MaskedSlot(position / 2, k - 1);
      AndHalves(position, half - 1);
    }
  }

  lemma NothingToAnd(a: nat)
    ensures And(a, 0) == 0
  {
  }

  lemma {:induction false} SlotOfOne(position: nat)
    ensures Slot(position, 1) == 0
  {
    if position > 0 {
      SlotOfOne(position - 1);
    }
  }

  /** The slot of a position is the position masked with the capacity less one, as the ring computes it. */
  lemma {:induction false} SlotIsMasked(position: nat, c: nat)
    requires IsCapacity(c)
    ensures c > 0 && Slot(position, c) == And(position, c - 1)
  {
    var k :| 1 <= k < 64 && c == Pow2(k);
    MaskedSlot(position, k);
  }

  // A whole number of rounds changes no slot.
  lemma {:induction false} RoundsChangeNothing(a: nat, rounds: nat, c: nat)
    requires c > 0 && Slot(rounds, c) == 0
    ensures Slot(a + rounds, c) == Slot(a, c)
    decreases rounds
  {
    if rounds >= c {
      RoundsChangeNothing(a, rounds - c, c);
    }
  }

  lemma {:induction false} WrappedInRounds(a: nat, c: nat)
    requires c > 0 && Slot(WORD, c) == 0
    ensures Slot(a % WORD, c) == Slot(a, c)
  {
    hide Slot;
    if a >= WORD {
      RoundsChangeNothing(a - WORD, WORD, c);
      WrappedInRounds(a - WORD, c);
    }
  }

  /**
   Which capacities would do: wrapped and true positions name the same slots, everywhere, if and
   only if a word is a whole number of rounds of the ring.
   */
  lemma {:induction false} WrappedSlotsExactly(c: nat)
    requires c > 0
    ensures (forall a: nat :: Slot(a % WORD, c) == Slot(a, c)) <==> Slot(WORD, c) == 0
  {
    if forall a: nat :: Slot(a % WORD, c) == Slot(a, c) {
      var wrapped: nat := WORD;
      assert Slot(wrapped % WORD, c) == Slot(wrapped, c);
      assert Slot(0, c) == 0;
    }
    if Slot(WORD, c) == 0 {
      forall a: nat
        ensures Slot(a % WORD, c) == Slot(a, c)
      {
        WrappedInRounds(a, c);
      }
    }
  }

  /**
   Three, which the ring refuses to be built with, would not do: the last position before the words
   wrap and the first one after it would name the same slot.
   */
  lemma ThreeSlotsClash()
    ensures Slot((WORD - 1) % WORD, 3) == Slot(WORD % WORD, 3) == 0
    ensures Slot(WORD, 3) != 0
  {
    ThirdsOf((WORD - 1) / 3);
    SlotsDiffer(WORD, WORD - 1, 3);
  }

  lemma {:induction false} ThirdsOf(n: nat)
    ensures Slot(3 * n, 3) == 0
  {
    if n > 0 {
      ThirdsOf(n - 1);
    }
  }
}
