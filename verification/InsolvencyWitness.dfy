// A run after which notes are worth more than the vault holds: the fee note of a whole batch is
// attached to its first settlement, before the fees of the later ones have been retained.
module InsolvencyWitness {
  import opened Prelude
  import opened Crypto
  import opened MerkleTree
  import opened Vault
  import opened VaultSamples
  import opened Solvency

  const QUOTE: Digest := 1
  const BASE: Digest := 2

  /** What the notes of the run open to. Note 15 is the fee note: two matches, a fee of 10 each. */
  function SampleOpening(c: Fr): Opening {
    if c == 11 then Opening(QUOTE, 110, 21)
    else if c == 12 then Opening(BASE, 10, 22)
    else if c == 13 then Opening(BASE, 10, 23)
    else if c == 14 then Opening(QUOTE, 100, 24)
    else if c == 15 then Opening(QUOTE, 20, 25)
    else Opening(0, 0, 0)
  }

  function Start(): VaultState {
    EmptyVault(4, 9, 8)
  }

  /** The first of the two matches: 10 base for 100 quote, a quote fee of 10. */
  function FirstMatch(): Payload {
    Payload(0, 11, 12, 13, 14, 0, 0, 21, 22, 1, 2, 10, 100, 0, 0, 10, 0, 15, 0, 0, 0, 0, 10, 5)
  }

  function Ops(n: nat): (ops: seq<VaultOp>)
    requires n <= 5
    ensures |ops| == n
  {
    [OpDeposit(QUOTE, 110, 0, 11, 0), OpDeposit(BASE, 10, 0, 12, 0), OpLock(11, 1, 100, 110, 9, 0), OpLock(12, 2, 100, 10, 9, 0),
     OpSettle(FirstMatch(), 9, true)][..n]
  }

  /** The vault after each of the five instructions. */
  function StateAt(n: nat): VaultState
    requires n <= 5
  {
    var balances: map<Digest, uint64> := map[QUOTE := 110, BASE := 10];
    var lockA, lockB := NoteLock(1, 100, 9, 110), NoteLock(2, 100, 9, 10);
    if n == 0 then Start()
    else if n == 1 then Start().(leaves := [11], balances := map[QUOTE := 110])
    else if n == 2 then Start().(leaves := [11, 12], balances := balances)
    else if n == 3 then Start().(leaves := [11, 12], balances := balances, locks := map[11 := lockA])
    else if n == 4 then Start().(leaves := [11, 12], balances := balances, locks := map[11 := lockA, 12 := lockB])
    else Start().(leaves := [11, 12, 13, 14, 15], balances := balances, consumed := {11, 12}, nullifiers := {21, 22})
  }

  lemma Room()
    ensures Pow2(4) == 16
  {
    assert Pow2(2) == 4;
  }

  lemma DepositsAndLocks(n: nat)
    requires n < 4
    ensures Exec(PlainHashes(), StateAt(n), Ops(n + 1)[n]) == Ok(StateAt(n + 1))
    ensures Honest(PlainHashes(), SampleOpening, StateAt(n), Ops(n + 1)[n])
  {
    Room();
    if n == 0 {
      assert [] + [11] == [11];
      assert map[][QUOTE := 110] == map[QUOTE := 110];
    } else if n == 1 {
      assert [11] + [12] == [11, 12];
    }
  }

  lemma FirstMatchLeaves()
    ensures SettledLeaves(FirstMatch()) == [13, 14, 15]
    ensures AllInField(SettledLeaves(FirstMatch()))
  {
  }

  lemma FirstMatchSettles()
    ensures Exec(PlainHashes(), StateAt(4), OpSettle(FirstMatch(), 9, true)) == Ok(StateAt(5))
    ensures Honest(PlainHashes(), SampleOpening, StateAt(4), OpSettle(FirstMatch(), 9, true))
    ensures FeesKept(SampleOpening, FirstMatch(), QUOTE) == -10
  {
    Room();
    FirstMatchLeaves();
    var v, p := StateAt(4), FirstMatch();
    assert SettleAccounts(v, p).None? && SettleChecks(v, p, 9, true).None?;
    var marked := v.(consumed := v.consumed + {11, 12}, nullifiers := v.nullifiers + {21, 22});
    AppendsFacts(marked, p);
    assert marked.leaves + SettledLeaves(p) == [11, 12, 13, 14, 15];
    assert v.locks - {11, 12} == map[];
    assert marked.consumed == {11, 12} && marked.nullifiers == {21, 22};
  }

  lemma RunGrows(hs: Hashes, open: Fr -> Opening, mint: Digest, l: Ledger, ops: seq<VaultOp>, op: VaultOp)
    requires HonestRun(hs, open, mint, l, ops) && Honest(hs, open, LedgerRun(hs, open, mint, l, ops).vault, op)
    ensures HonestRun(hs, open, mint, l, ops + [op])
    ensures LedgerRun(hs, open, mint, l, ops + [op]) == LedgerStep(hs, open, mint, LedgerRun(hs, open, mint, l, ops), op)
  {
    assert (ops + [op])[..|ops + [op]| - 1] == ops;
  }

  /** The next state of the ledger, when the instruction settles nothing. */
  lemma PlainStep(open: Fr -> Opening, v: VaultState, w: VaultState, kept: int, op: VaultOp)
    requires Exec(PlainHashes(), v, op) == Ok(w) && Honest(PlainHashes(), open, v, op) && !op.OpSettle?
    ensures LedgerStep(PlainHashes(), open, QUOTE, Ledger(v, kept), op) == Ledger(w, kept)
  {
  }

  lemma LastOp(n: nat)
    requires 0 < n <= 4
    ensures Ops(n) == Ops(n - 1) + [Ops(n)[n - 1]] && !Ops(n)[n - 1].OpSettle?
  {
  }

  lemma {:induction false} RunSoFar(n: nat)
    requires n <= 4
    ensures HonestRun(PlainHashes(), SampleOpening, QUOTE, Ledger(Start(), 0), Ops(n))
    ensures LedgerRun(PlainHashes(), SampleOpening, QUOTE, Ledger(Start(), 0), Ops(n)) == Ledger(StateAt(n), 0)
  {
    if n > 0 {
      RunSoFar(n - 1);
      DepositsAndLocks(n - 1);
      LastOp(n);
      PlainStep(SampleOpening, StateAt(n - 1), StateAt(n), 0, Ops(n)[n - 1]);
      RunGrows(PlainHashes(), SampleOpening, QUOTE, Ledger(Start(), 0), Ops(n - 1), Ops(n)[n - 1]);
    }
  }

  lemma OutstandingAfter()
    ensures Outstanding(SampleOpening, [11, 12, 13, 14, 15], {21, 22}, QUOTE) == 120
  {
    var spent: set<Digest> := {21, 22};
    var a: seq<Fr>, b: seq<Fr> := [11, 12, 13], [14, 15];
    assert [11, 12, 13, 14, 15] == a + b;
    OutstandingAppends(SampleOpening, a, b, spent, QUOTE);
    assert a[..2] == [11, 12] && [11, 12][..1] == [11] && [11][..0] == [];
    assert b[..1] == [14] && [14][..0] == [];
  }

  /** Two deposits, two locks and the first settlement of a batch of two, all honest and accepted: the
      vault has kept 10 less than it minted in fees, and the unspent quote notes are worth 120 while it
      holds 110. */
  lemma InsolvencyIsReached()
    ensures HonestRun(PlainHashes(), SampleOpening, QUOTE, Ledger(Start(), 0), Ops(5))
    ensures
      var l := LedgerRun(PlainHashes(), SampleOpening, QUOTE, Ledger(Start(), 0), Ops(5));
      && l.kept == -10 && l.vault.Balance(QUOTE) == 110
      && Outstanding(SampleOpening, l.vault.leaves, l.vault.nullifiers, QUOTE) == 120
  {
    RunSoFar(4);
    FirstMatchSettles();
    assert Ops(5) == Ops(4) + [OpSettle(FirstMatch(), 9, true)];
    RunGrows(PlainHashes(), SampleOpening, QUOTE, Ledger(Start(), 0), Ops(4), OpSettle(FirstMatch(), 9, true));
    OutstandingAfter();
  }
}
