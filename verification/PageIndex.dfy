/** The masked circular index of a page. */
module PageIndex {

  const SLOTS: bv32 := 64

  /** The slot after `i`, going round. */
  function NextSlot(i: nat): nat
    requires i < 64
  {
    if i == 63 then 0 else i + 1
  }

  /** That is what masking the incremented 32-bit index computes. */
  lemma MaskGoesRound(i: bv32)
    requires i < SLOTS
    ensures ((i + 1) & (SLOTS - 1)) as int == NextSlot(i as int)
  {
    if i == 63 {
      assert (i + 1) & (SLOTS - 1) == 0;
    } else {
      assert (i + 1) & (SLOTS - 1) == i + 1;
    }
  }

  /** The 32-bit word of an index. */
  function Word(i: nat): (w: bv32)
    requires i < 64
    ensures w < SLOTS && w as nat == i
  {
    if i == 0 then 0
    else
      WordStep(Word(i - 1));
      Word(i - 1) + 1
  }

  lemma WordStep(w: bv32)
    requires w < SLOTS - 1
    ensures w + 1 < SLOTS && (w + 1) as nat == w as nat + 1
  {
  }

  lemma WordIsCast(i: nat)
    requires i < 64
    ensures i as bv32 == Word(i)
  {
    CastBack(Word(i));
  }

  lemma CastBack(w: bv32)
    ensures (w as nat) as bv32 == w
  {
  }

  /** `(i + 1) & (PULSE_SLOTS_PER_PAGE - 1)` on 32-bit words. */
  method MaskedNext(i: nat) returns (next: nat)
    requires i < 64
    ensures next == NextSlot(i)
  {
    WordIsCast(i);
    MaskGoesRound(Word(i));
    next := ((i as bv32 + 1) & (SLOTS - 1)) as nat;
  }
}
