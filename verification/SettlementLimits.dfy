// Where settleability ends: a book with an immediate-or-cancel order that no vault settles. And its
// hypotheses on commitments can be met.
module SettlementLimits {
  import opened Prelude
  import opened Crypto
  import opened Orders
  import opened Matching
  import opened Vault
  import opened Settleability
  import opened ConsumedNotes

  // ---------- a book on which it happens ----------

  function SampleOrder(slot: uint8, side: uint8, orderType: uint8, amount: uint64, note: Digest): Order {
    Order(slot, side, orderType, 0, 1000, 1, amount, 0, amount, note, 0, 0, slot + 1, 0)
  }

  /** An immediate-or-cancel bid for 2 against two asks for 1, all at price 1. */
  function SamplePass(ring: seq<MatchResult>): Pass {
    Pass([SampleOrder(0, SIDE_BID, TYPE_IOC, 2, 10)],
         [SampleOrder(1, SIDE_ASK, TYPE_LIMIT, 1, 11), SampleOrder(2, SIDE_ASK, TYPE_LIMIT, 1, 12)],
         0, 0, [], ring, 0, 0, 0, 0)
  }

  lemma SampleFirstFill(t: Terms, ring: seq<MatchResult>)
    requires |ring| == BATCH_RESULTS_CAPACITY && t.price == 1 && t.feeRate == 0
    ensures
      var s := SamplePass(ring);
      && Step(t, s).Ok?
      && Step(t, s).value.bids == [s.bids[0].(amount := 1)]
      && Step(t, s).value.asks == [s.asks[0].(amount := 0), s.asks[1]]
      && Step(t, s).value.bi == 0 && Step(t, s).value.ai == 1
      && |Step(t, s).value.fills| == 1 && Step(t, s).value.fills[0].bidSlot == 0
      && |Step(t, s).value.ring| == BATCH_RESULTS_CAPACITY
  {
  }

  lemma SampleSecondFill(t: Terms, s: Pass)
    requires |s.ring| == BATCH_RESULTS_CAPACITY && t.price == 1 && t.feeRate == 0
    requires s.bids == [SampleOrder(0, SIDE_BID, TYPE_IOC, 2, 10).(amount := 1)] && s.bi == 0
    requires |s.asks| == 2 && s.asks[1] == SampleOrder(2, SIDE_ASK, TYPE_LIMIT, 1, 12) && s.ai == 1
    ensures Step(t, s).Ok? && !Step(t, s).value.Live()
    ensures |Step(t, s).value.fills| == |s.fills| + 1 && Step(t, s).value.fills[..|s.fills|] == s.fills
    ensures Step(t, s).value.fills[|s.fills|].bidSlot == 0
  {
  }

  /** The refusal is reached: the sample bid fills twice, and no vault settles the log. */
  lemma IocRefusalIsReached(t: Terms, ring: seq<MatchResult>, tee: Tee, v: VaultState)
    requires |ring| == BATCH_RESULTS_CAPACITY && t.price == 1 && t.feeRate == 0
    ensures Run(t, SamplePass(ring)).Ok? && |Run(t, SamplePass(ring)).value.fills| == 2
    ensures SettleAll(v, tee, Run(t, SamplePass(ring)).value.fills).Err?
  {
    var s := SamplePass(ring);
    SampleFirstFill(t, ring);
    var s' := Step(t, s).value;
    SampleSecondFill(t, s');
    var s'' := Step(t, s').value;
    assert Run(t, s'') == Ok(s'');
    assert Run(t, s') == Ok(s'');
    assert Run(t, s) == Ok(s'');
    assert s''.fills[0] == s''.fills[..1][0];
    IocFilledTwiceIsRefused(t, s, Bid, 0, tee, v, 0, 1);
  }

  // ---------- the hypotheses on commitments can be met ----------

  /** Derivation that spells out id and role, and a commitment that is the successor of the nonce. */
  function SampleHashes(): Hashes {
    Hashes((x, y) => x, (lo, hi, amount, owner, nonce: Fr, blinding) => if nonce + 1 < BN254_R then nonce + 1 else 1,
           (tag, id: uint64, role: uint8) => id * 256 + role, (x, y) => x, (i, x, y) => x)
  }

  lemma SampleNote(mint: Digest, amount: uint64, owner: Digest, id: uint64, role: uint8)
    ensures DerivedNote(SampleHashes(), mint, amount, owner, id, role) ==
            if owner < BN254_R then Some(id * 256 + role + 1) else None
  {
  }

  lemma SeparationCanBeMet(tee: Tee)
    ensures ChangeNotesSeparate(SampleHashes(), tee)
  {
    forall m: Minting
      ensures NoteOf(SampleHashes(), m) == if m.owner < BN254_R then Some(m.id * 256 + m.role + 1) else None
    {
      SampleNote(m.mint, m.amount, m.owner, m.id, m.role);
    }
  }
}
