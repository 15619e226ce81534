// Across the two programs: every match a batch produces is one the vault accepts, because each
// re-lock it asks for is exactly the lock the order's next match needs.
module Settleability {
  import opened Prelude
  import opened Crypto
  import opened MerkleTree
  import opened Orders
  import opened Matching
  import opened MatchingLaws
  import opened Collateral
  import opened Market
  import opened BatchLaws
  import opened FillLaws
  import opened VaultErrors
  import opened Vault

  /** A change note the matcher mints: what it is worth, to whom, for which match and side. */
  datatype Minting = Minting(mint: Digest, amount: uint64, owner: Digest, id: uint64, role: uint8)

  function NoteOf(hs: Hashes, m: Minting): Option<Fr> {
    DerivedNote(hs, m.mint, m.amount, m.owner, m.id, m.role)
  }

  /** What the TEE supplies beyond the match itself: its key, nullifiers, the two trade notes and the
      fee note it attaches (zero for none). `mints` tells which change notes are minted at all. */
  datatype Tee = Tee(
    authority: Digest,
    nullifier: Digest -> Digest,
    noteC: uint64 -> Fr,
    noteD: uint64 -> Fr,
    feeNote: uint64 -> Digest,
    mints: Minting -> bool)

  /** The settlement payload of a match. */
  function PayloadOf(tee: Tee, f: Fill): Payload {
    var m := f.result;
    Payload(m.matchId, m.buyer.note, m.seller.note, tee.noteC(m.matchId), tee.noteD(m.matchId),
            m.buyer.changeNote, m.seller.changeNote, tee.nullifier(m.buyer.note), tee.nullifier(m.seller.note),
            f.buyerOrder, f.sellerOrder, m.base, m.quote, m.buyer.change, m.seller.change, m.buyer.fee, m.seller.fee,
            tee.feeNote(m.matchId), m.buyer.relockOrder, m.buyer.relockExpiry, m.seller.relockOrder, m.seller.relockExpiry,
            m.price, m.batchSlot)
  }

  /** Settling matches one after the other, in match order. */
  function SettleAll(v: VaultState, tee: Tee, fills: seq<Fill>): Result<VaultState, VaultError> {
    if fills == [] then Ok(v)
    else
      var w :- SettleAll(v, tee, fills[..|fills| - 1]);
      Settle(w, PayloadOf(tee, fills[|fills| - 1]), tee.authority, true)
  }

  /** Both input locks of the match outlast its batch by the settlement buffer. */
  ghost predicate LastsOn(v: VaultState, f: Fill) {
    forall side: Side ::
      var note := LegOn(f.result, side).note;
      note in v.locks && v.locks[note].expiry > f.result.batchSlot + SETTLEMENT_BUFFER_SLOTS
  }

  /** Every match settles in turn, from locks that last. */
  ghost predicate InTime(v: VaultState, tee: Tee, fills: seq<Fill>) {
    forall j :: 0 <= j < |fills| ==>
      SettleAll(v, tee, fills[..j]).Ok? && LastsOn(SettleAll(v, tee, fills[..j]).value, fills[j])
  }

  lemma InTimeGrows(start: VaultState, tee: Tee, fills: seq<Fill>, v: VaultState, f: Fill)
    requires InTime(start, tee, fills) && SettleAll(start, tee, fills) == Ok(v) && LastsOn(v, f)
    ensures InTime(start, tee, fills + [f])
  {
    var more := fills + [f];
    forall j | 0 <= j < |more|
      ensures SettleAll(start, tee, more[..j]).Ok? && LastsOn(SettleAll(start, tee, more[..j]).value, more[j])
    {
      assert more[..j] == fills[..j];
      if j == |fills| {
        assert fills[..j] == fills;
      }
    }
  }

  // ---------- hypotheses on commitments and nullifiers ----------

  /** The change notes that are minted differ for different matches or roles, and none is zero. */
  ghost predicate ChangeNotesSeparate(hs: Hashes, tee: Tee) {
    && (forall m: Minting :: tee.mints(m) ==> NoteOf(hs, m) != Some(0))
    && (forall m: Minting, n: Minting ::
          tee.mints(m) && tee.mints(n) && NoteOf(hs, m).Some? && (m.id != n.id || m.role != n.role) ==>
          NoteOf(hs, m) != NoteOf(hs, n))
  }

  ghost predicate NullifiersInjective(tee: Tee) {
    forall a, b :: tee.nullifier(a) == tee.nullifier(b) ==> a == b
  }

  /** `note` is not a change note that is still to be minted, by match `next` or a later one. */
  ghost predicate NotFuture(hs: Hashes, tee: Tee, next: uint64, note: Digest) {
    forall m: Minting :: tee.mints(m) && m.id >= next ==> NoteOf(hs, m) != Some(note)
  }

  /** `note` is a change note minted by match `id` in the given role. */
  ghost predicate MintedBy(hs: Hashes, tee: Tee, id: uint64, role: uint8, note: Digest) {
    exists m: Minting :: tee.mints(m) && m.id == id && m.role == role && NoteOf(hs, m) == Some(note)
  }

  /** The change note one side of a match mints. */
  function MintingOf(t: Terms, m: MatchResult, side: Side): Minting {
    match side
    case Bid => Minting(t.quoteMint, m.buyer.change, m.buyer.owner, m.matchId, CHANGE_ROLE_BUYER)
    case Ask => Minting(t.baseMint, m.seller.change, m.seller.owner, m.matchId, CHANGE_ROLE_SELLER)
  }

  /** Every change note of these matches is one of those that are minted. */
  ghost predicate Mints(t: Terms, tee: Tee, fills: seq<Fill>) {
    forall i, side: Side :: 0 <= i < |fills| && LegOn(fills[i].result, side).change > 0 ==>
      tee.mints(MintingOf(t, fills[i].result, side))
  }

  lemma MintedIsPast(hs: Hashes, tee: Tee, id: uint64, role: uint8, note: Digest)
    requires ChangeNotesSeparate(hs, tee) && MintedBy(hs, tee, id, role, note) && id < U64_MAX
    ensures NotFuture(hs, tee, id + 1, note)
  {
  }

  lemma MintedIsFresh(hs: Hashes, tee: Tee, v: VaultState, id: uint64, role: uint8, note: Digest)
    requires FutureFresh(hs, tee, v, id) && MintedBy(hs, tee, id, role, note)
    ensures note !in v.locks && note !in v.consumed && tee.nullifier(note) !in v.nullifiers
  {
    var m: Minting :| tee.mints(m) && m.id == id && m.role == role && NoteOf(hs, m) == Some(note);
    assert !NotFuture(hs, tee, id, note);
  }

  lemma LaterFuture(hs: Hashes, tee: Tee, next: uint64, later: uint64, note: Digest)
    requires NotFuture(hs, tee, next, note) && next <= later
    ensures NotFuture(hs, tee, later, note)
  {
  }

  /** No future change note has been locked, consumed or nullified. */
  ghost predicate FutureFresh(hs: Hashes, tee: Tee, v: VaultState, next: uint64) {
    && (forall n :: n in v.locks ==> NotFuture(hs, tee, next, n))
    && (forall n :: n in v.consumed ==> NotFuture(hs, tee, next, n))
    && (forall n :: tee.nullifier(n) in v.nullifiers ==> NotFuture(hs, tee, next, n))
  }

  // ---------- pledged collateral ----------

  /** The note is locked for this order at this value, neither consumed nor nullified. */
  ghost predicate Pledged(tee: Tee, v: VaultState, note: Digest, orderId: OrderId, value: uint64, expiry: uint64) {
    && note in v.locks && v.locks[note].orderId == orderId && v.locks[note].amount == value
    && v.locks[note].expiry >= expiry
    && note !in v.consumed && tee.nullifier(note) !in v.nullifiers
  }

  ghost predicate OrderPledged(tee: Tee, v: VaultState, o: Order) {
    Pledged(tee, v, o.note, o.orderId, o.noteAmount, o.expiry) && o.orderId != 0
  }

  /** The TEE is the vault's, the tree has room for `n` more settlements, and fee notes are only
      attached when the protocol owner is set. */
  ghost predicate VaultReady(tee: Tee, v: VaultState, n: int) {
    && tee.authority == v.teePubkey
    && |v.leaves| + 5 * n <= Pow2(v.depth)
    && (forall id :: tee.feeNote(id) < BN254_R && (tee.feeNote(id) != 0 ==> v.protocolOwner != 0))
  }

  // ---------- one settlement ----------

  /** What the vault needs of a match. */
  ghost predicate Settleable(tee: Tee, v: VaultState, f: Fill) {
    var m := f.result;
    && m.buyer.note != m.seller.note
    && (exists e :: Pledged(tee, v, m.buyer.note, f.buyerOrder, m.buyer.noteValue, e))
    && (exists e :: Pledged(tee, v, m.seller.note, f.sellerOrder, m.seller.noteValue, e))
    && m.buyer.noteValue == m.quote + m.buyer.change + m.buyer.fee
    && m.seller.noteValue == m.base + m.seller.change + m.seller.fee
    && (m.buyer.changeNote != 0 <==> m.buyer.change > 0) && m.buyer.changeNote < BN254_R
    && (m.seller.changeNote != 0 <==> m.seller.change > 0) && m.seller.changeNote < BN254_R
    && (m.buyer.relockOrder != 0 ==> m.buyer.change > 0 && m.buyer.changeNote !in v.locks)
    && (m.seller.relockOrder != 0 ==> m.seller.change > 0 && m.seller.changeNote !in v.locks)
    && (m.buyer.change > 0 && m.seller.change > 0 ==> m.buyer.changeNote != m.seller.changeNote)
  }

  /** The locks after a settlement. */
  function LocksAfter(tee: Tee, v: VaultState, m: MatchResult): map<Digest, NoteLock> {
    var withE := if m.buyer.relockOrder == 0 then v.locks
                 else v.locks[m.buyer.changeNote := NoteLock(m.buyer.relockOrder, m.buyer.relockExpiry, tee.authority, m.buyer.change)];
    var withF := if m.seller.relockOrder == 0 then withE
                 else withE[m.seller.changeNote := NoteLock(m.seller.relockOrder, m.seller.relockExpiry, tee.authority, m.seller.change)];
    withF - {m.buyer.note, m.seller.note}
  }

  lemma SettleableChecks(tee: Tee, v: VaultState, f: Fill)
    requires NullifiersInjective(tee) && VaultReady(tee, v, 1) && Settleable(tee, v, f)
    ensures SettleAccounts(v, PayloadOf(tee, f)).None?
    ensures SettleChecks(v, PayloadOf(tee, f), tee.authority, true).None?
  {
  }

  lemma SettleableAppends(tee: Tee, v: VaultState, f: Fill)
    requires VaultReady(tee, v, 1) && Settleable(tee, v, f)
    ensures SettleAppends(v, PayloadOf(tee, f)).Ok?
    ensures
      var w := SettleAppends(v, PayloadOf(tee, f)).value;
      w == v.(leaves := w.leaves) && |w.leaves| <= |v.leaves| + 5
  {
    var p := PayloadOf(tee, f);
    AppendsFacts(v, p);
  }

  /** The vault accepts such a match; the effect is fixed. */
  lemma SettlesOk(tee: Tee, v: VaultState, f: Fill)
    requires NullifiersInjective(tee) && VaultReady(tee, v, 1) && Settleable(tee, v, f)
    ensures Settle(v, PayloadOf(tee, f), tee.authority, true).Ok?
    ensures
      var w := Settle(v, PayloadOf(tee, f), tee.authority, true).value;
      var m := f.result;
      && w == v.(leaves := w.leaves, locks := LocksAfter(tee, v, m), consumed := v.consumed + {m.buyer.note, m.seller.note},
                 nullifiers := v.nullifiers + {tee.nullifier(m.buyer.note), tee.nullifier(m.seller.note)})
      && |w.leaves| <= |v.leaves| + 5
  {
    var p := PayloadOf(tee, f);
    SettleableChecks(tee, v, f);
    var marked := v.(consumed := v.consumed + {p.noteA, p.noteB}, nullifiers := v.nullifiers + {p.nullifierA, p.nullifierB});
    AppendsIgnoreRecords(v, marked, p);
    SettleableAppends(tee, v, f);
  }

  lemma AppendsIgnoreRecords(v: VaultState, marked: VaultState, p: Payload)
    requires |v.leaves| <= Pow2(v.depth)
    requires marked == v.(consumed := marked.consumed, nullifiers := marked.nullifiers)
    ensures SettleAppends(v, p).Ok? <==> SettleAppends(marked, p).Ok?
    ensures SettleAppends(v, p).Ok? ==> SettleAppends(marked, p).value == marked.(leaves := SettleAppends(v, p).value.leaves)
  {
    AppendsFacts(v, p);
    AppendsFacts(marked, p);
  }

  /** Collateral of anyone else is untouched by a settlement. */
  lemma PledgeKept(tee: Tee, v: VaultState, f: Fill, note: Digest, orderId: OrderId, value: uint64, expiry: uint64)
    requires NullifiersInjective(tee) && VaultReady(tee, v, 1) && Settleable(tee, v, f)
    requires Pledged(tee, v, note, orderId, value, expiry)
    requires note != f.result.buyer.note && note != f.result.seller.note
    ensures Settle(v, PayloadOf(tee, f), tee.authority, true).Ok?
    ensures Pledged(tee, Settle(v, PayloadOf(tee, f), tee.authority, true).value, note, orderId, value, expiry)
  {
    SettlesOk(tee, v, f);
  }

  /** A re-locked change note is pledged to the continuing order. */
  lemma RelockPledges(tee: Tee, v: VaultState, f: Fill, side: Side)
    requires NullifiersInjective(tee) && VaultReady(tee, v, 1) && Settleable(tee, v, f)
    requires LegOn(f.result, side).relockOrder != 0
    requires LegOn(f.result, side).changeNote !in v.consumed && tee.nullifier(LegOn(f.result, side).changeNote) !in v.nullifiers
    ensures Settle(v, PayloadOf(tee, f), tee.authority, true).Ok?
    ensures
      var leg := LegOn(f.result, side);
      Pledged(tee, Settle(v, PayloadOf(tee, f), tee.authority, true).value, leg.changeNote, leg.relockOrder, leg.change, leg.relockExpiry)
  {
    SettlesOk(tee, v, f);
  }

  /** Freshness of later change notes survives the settlement of the match that minted these. */
  lemma FreshKept(hs: Hashes, tee: Tee, v: VaultState, f: Fill, next: uint64)
    requires ChangeNotesSeparate(hs, tee) && NullifiersInjective(tee) && VaultReady(tee, v, 1) && Settleable(tee, v, f)
    requires FutureFresh(hs, tee, v, next) && next < U64_MAX
    requires f.result.buyer.change > 0 ==> MintedBy(hs, tee, next, CHANGE_ROLE_BUYER, f.result.buyer.changeNote)
    requires f.result.seller.change > 0 ==> MintedBy(hs, tee, next, CHANGE_ROLE_SELLER, f.result.seller.changeNote)
    ensures Settle(v, PayloadOf(tee, f), tee.authority, true).Ok?
    ensures FutureFresh(hs, tee, Settle(v, PayloadOf(tee, f), tee.authority, true).value, next + 1)
  {
    SettlesOk(tee, v, f);
    var m := f.result;
    var w := Settle(v, PayloadOf(tee, f), tee.authority, true).value;
    forall n | n in w.locks ensures NotFuture(hs, tee, next + 1, n) {
      if n in v.locks {
        LaterFuture(hs, tee, next, next + 1, n);
      } else if n == m.buyer.changeNote && m.buyer.relockOrder != 0 {
        MintedIsPast(hs, tee, next, CHANGE_ROLE_BUYER, n);
      } else {
        MintedIsPast(hs, tee, next, CHANGE_ROLE_SELLER, n);
      }
    }
    forall n | n in w.consumed ensures NotFuture(hs, tee, next + 1, n) {
      assert n in v.consumed || n in v.locks;
      LaterFuture(hs, tee, next, next + 1, n);
    }
    forall n | tee.nullifier(n) in w.nullifiers ensures NotFuture(hs, tee, next + 1, n) {
      if tee.nullifier(n) !in v.nullifiers {
        assert n == m.buyer.note || n == m.seller.note;
        assert n in v.locks;
      }
      LaterFuture(hs, tee, next, next + 1, n);
    }
  }

  // ---------- a pass ----------

  /** A lock that has nothing to do with the batch at hand stands as it is. */
  ghost predicate Stands(tee: Tee, v: VaultState, note: Digest, lock: NoteLock) {
    note in v.locks && v.locks[note] == lock && note !in v.consumed && tee.nullifier(note) !in v.nullifiers
  }

  /** An immediate-or-cancel order that has been filled holds no collateral any more. */
  predicate Unspent(s: Pass, side: Side, k: nat)
    requires k < |BookOf(s, side)|
  {
    BookOf(s, side)[k].orderType == TYPE_IOC ==> FillCount(s.fills, side, BookOf(s, side)[k].slot) == 0
  }

  predicate Active(s: Pass, side: Side, k: nat) {
    k < |BookOf(s, side)| && BookOf(s, side)[k].amount > 0 && Unspent(s, side, k)
  }

  /** No immediate-or-cancel order of the books occurs in two of these matches. */
  ghost predicate IocOnce(s: Pass, fills: seq<Fill>) {
    forall side: Side, k: nat :: k < |BookOf(s, side)| && BookOf(s, side)[k].orderType == TYPE_IOC ==>
      FillCount(fills, side, BookOf(s, side)[k].slot) <= 1
  }

  /** The matches of a pass so far: change notes accounted for, no immediate-or-cancel order twice. */
  ghost predicate Orderly(t: Terms, tee: Tee, s: Pass, fills: seq<Fill>) {
    Mints(t, tee, fills) && IocOnce(s, fills)
  }

  lemma OrderlyPrefix(t: Terms, tee: Tee, s: Pass, fills: seq<Fill>, more: seq<Fill>)
    requires Orderly(t, tee, s, more) && fills <= more
    ensures Orderly(t, tee, s, fills)
  {
    forall side: Side, k: nat | k < |BookOf(s, side)| && BookOf(s, side)[k].orderType == TYPE_IOC
      ensures FillCount(fills, side, BookOf(s, side)[k].slot) <= 1
    {
      FillCountPrefix(fills, more, side, BookOf(s, side)[k].slot);
    }
  }

  lemma StepKeepsOrderly(t: Terms, tee: Tee, s: Pass, fills: seq<Fill>)
    requires CanStep(t, s) && Orderly(t, tee, s, fills)
    ensures Orderly(t, tee, Step(t, s).value, fills)
  {
    var s' := Step(t, s).value;
    StepShape(t, s);
    forall side: Side, k: nat | k < |BookOf(s', side)| && BookOf(s', side)[k].orderType == TYPE_IOC
      ensures FillCount(fills, side, BookOf(s', side)[k].slot) <= 1
    {
      StepSide(t, s, side, CursorOf(s, side));
      StepEvolves(t, s, side, k);
    }
  }

  /** If the matches after a trade are orderly, the orders it traded still held their collateral. */
  lemma CursorsUnspent(t: Terms, tee: Tee, s: Pass, side: Side)
    requires CanStep(t, s) && NextMove(t, s).Cross? && Orderly(t, tee, s, Step(t, s).value.fills)
    ensures Unspent(s, side, CursorOf(s, side))
  {
    CrossAtCursor(t, s, side);
    FillCountGrows(s.fills, Step(t, s).value.fills[|s.fills|], side, BookOf(s, side)[CursorOf(s, side)].slot);
  }

  function NoteAt(s: Pass, side: Side, k: nat): Digest
    requires k < |BookOf(s, side)|
  {
    BookOf(s, side)[k].note
  }

  /** The order expires later than the settlement buffer after the batch. */
  predicate Lasting(t: Terms, o: Order) {
    o.expiry > t.now + SETTLEMENT_BUFFER_SLOTS
  }

  /** Between two matches: every order with something left holds pledged collateral of its own, and
      the other locks stand. */
  ghost predicate PassReady(t: Terms, tee: Tee, v: VaultState, s: Pass, others: map<Digest, NoteLock>) {
    && (forall side: Side, k: nat :: k < |BookOf(s, side)| ==> Steady(side, BookOf(s, side), k, CursorOf(s, side), t.feeRate))
    && (forall side: Side, k: nat :: k < |BookOf(s, side)| ==> Lasting(t, BookOf(s, side)[k]))
    && (forall side: Side, k: nat :: Active(s, side, k) ==> OrderPledged(tee, v, BookOf(s, side)[k]))
    && (forall side: Side, k: nat, side': Side, k': nat :: Active(s, side, k) && Active(s, side', k') && (side != side' || k != k') ==>
          NoteAt(s, side, k) != NoteAt(s, side', k'))
    && (forall n :: n in others ==> Stands(tee, v, n, others[n]))
    && (forall side: Side, k: nat :: Active(s, side, k) ==> NoteAt(s, side, k) !in others)
    && FutureFresh(t.hs, tee, v, s.nextId)
  }

  /** The match of a crossing step, as the TEE sees it. */
  function FillOf(t: Terms, s: Pass): Fill
    requires s.Live() && Trade(t, s.bids[s.bi], s.asks[s.ai], s.nextId).Ok?
  {
    Fill(s.bids[s.bi].slot, s.asks[s.ai].slot, s.bids[s.bi].orderId, s.asks[s.ai].orderId, MatchOf(t, s))
  }

  /** The change notes of a match are minted under its id, one role each. */
  lemma ChangeMinted(t: Terms, tee: Tee, s: Pass, side: Side)
    requires CanStep(t, s) && NextMove(t, s).Cross? && Orderly(t, tee, s, Step(t, s).value.fills)
    ensures Trade(t, s.bids[s.bi], s.asks[s.ai], s.nextId).Ok?
    ensures
      var leg := LegOn(MatchOf(t, s), side);
      && (leg.change > 0 ==> leg.changeNote < BN254_R)
      && (leg.change > 0 ==> MintedBy(t.hs, tee, s.nextId, if side.Bid? then CHANGE_ROLE_BUYER else CHANGE_ROLE_SELLER, leg.changeNote))
      && (leg.change == 0 ==> leg.changeNote == 0 && leg.relockOrder == 0)
  {
    TradeFacts(t, s.bids[s.bi], s.asks[s.ai], s.nextId, side);
    CursorNotes(t, s);
    LegOwner(t, s, side);
    var leg := LegOn(MatchOf(t, s), side);
    if leg.change > 0 {
      var f := Step(t, s).value.fills[|s.fills|];
      assert tee.mints(MintingOf(t, f.result, side));
      assert NoteOf(t.hs, MintingOf(t, f.result, side)) == Some(leg.changeNote);
    }
  }

  lemma LegOwner(t: Terms, s: Pass, side: Side)
    requires CanStep(t, s) && NextMove(t, s).Cross?
    ensures Trade(t, s.bids[s.bi], s.asks[s.ai], s.nextId).Ok?
    ensures LegOn(MatchOf(t, s), side).owner == (if side.Bid? then s.bids[s.bi] else s.asks[s.ai]).owner
  {
  }

  lemma MintedDiffer(hs: Hashes, tee: Tee, id: uint64, e: Digest, f: Digest)
    requires ChangeNotesSeparate(hs, tee)
    requires MintedBy(hs, tee, id, CHANGE_ROLE_BUYER, e)
    ensures e != 0
    ensures MintedBy(hs, tee, id, CHANGE_ROLE_SELLER, f) ==> e != f
  {
  }

  lemma MintedNonZero(hs: Hashes, tee: Tee, id: uint64, role: uint8, note: Digest)
    requires ChangeNotesSeparate(hs, tee) && MintedBy(hs, tee, id, role, note)
    ensures note != 0
  {
  }

  lemma CrossSettleable(t: Terms, tee: Tee, v: VaultState, s: Pass, others: map<Digest, NoteLock>)
    requires ChangeNotesSeparate(t.hs, tee) && PassReady(t, tee, v, s, others)
    requires CanStep(t, s) && NextMove(t, s).Cross? && Orderly(t, tee, s, Step(t, s).value.fills)
    ensures Trade(t, s.bids[s.bi], s.asks[s.ai], s.nextId).Ok? && Settleable(tee, v, FillOf(t, s)) && LastsOn(v, FillOf(t, s))
  {
    ChangeMinted(t, tee, s, Bid);
    ChangeMinted(t, tee, s, Ask);
    var m := MatchOf(t, s);
    TradeFacts(t, s.bids[s.bi], s.asks[s.ai], s.nextId, Bid);
    TradeFacts(t, s.bids[s.bi], s.asks[s.ai], s.nextId, Ask);
    if m.buyer.change > 0 {
      MintedIsFresh(t.hs, tee, v, s.nextId, CHANGE_ROLE_BUYER, m.buyer.changeNote);
      MintedDiffer(t.hs, tee, s.nextId, m.buyer.changeNote, m.seller.changeNote);
    }
    if m.seller.change > 0 {
      MintedIsFresh(t.hs, tee, v, s.nextId, CHANGE_ROLE_SELLER, m.seller.changeNote);
      MintedNonZero(t.hs, tee, s.nextId, CHANGE_ROLE_SELLER, m.seller.changeNote);
    }
    assert Steady(Bid, BookOf(s, Bid), s.bi, CursorOf(s, Bid), t.feeRate);
    assert Steady(Ask, BookOf(s, Ask), s.ai, CursorOf(s, Ask), t.feeRate);
    CursorsUnspent(t, tee, s, Bid);
    CursorsUnspent(t, tee, s, Ask);
    assert Active(s, Bid, s.bi) && Active(s, Ask, s.ai);
    assert NoteAt(s, Bid, s.bi) != NoteAt(s, Ask, s.ai);
    assert OrderPledged(tee, v, BookOf(s, Bid)[s.bi]) && OrderPledged(tee, v, BookOf(s, Ask)[s.ai]);
  }

  /** The order under the cursor, if it goes on, holds its change note, freshly pledged. */
  lemma ContinuingPledged(t: Terms, tee: Tee, v: VaultState, s: Pass, others: map<Digest, NoteLock>, side: Side)
    requires ChangeNotesSeparate(t.hs, tee) && NullifiersInjective(tee) && VaultReady(tee, v, 1)
    requires PassReady(t, tee, v, s, others) && CanStep(t, s) && NextMove(t, s).Cross? && Orderly(t, tee, s, Step(t, s).value.fills)
    requires |BookOf(Step(t, s).value, side)| == |BookOf(s, side)| && Active(Step(t, s).value, side, CursorOf(s, side))
    ensures Trade(t, s.bids[s.bi], s.asks[s.ai], s.nextId).Ok?
    ensures Settle(v, PayloadOf(tee, FillOf(t, s)), tee.authority, true).Ok?
    ensures
      var o' := BookOf(Step(t, s).value, side)[CursorOf(s, side)];
      && OrderPledged(tee, Settle(v, PayloadOf(tee, FillOf(t, s)), tee.authority, true).value, o')
      && o'.note == LegOn(MatchOf(t, s), side).changeNote
      && o'.note !in v.locks
  {
    var k := CursorOf(s, side);
    CrossSettleable(t, tee, v, s, others);
    ChangeMinted(t, tee, s, side);
    StepSide(t, s, side, k);
    CrossAtCursor(t, s, side);
    FillCountGrows(s.fills, Step(t, s).value.fills[|s.fills|], side, BookOf(s, side)[k].slot);
    TradeFacts(t, s.bids[s.bi], s.asks[s.ai], s.nextId, side);
    assert Steady(side, BookOf(s, side), k, CursorOf(s, side), t.feeRate);
    FundedAfter(t, s.bids[s.bi], s.asks[s.ai], s.nextId, side);
    CursorsUnspent(t, tee, s, side);
    assert Active(s, side, k);
    var leg := LegOn(MatchOf(t, s), side);
    MintedIsFresh(t.hs, tee, v, s.nextId, if side.Bid? then CHANGE_ROLE_BUYER else CHANGE_ROLE_SELLER, leg.changeNote);
    assert OrderPledged(tee, v, BookOf(s, side)[k]);
    RelockPledges(tee, v, FillOf(t, s), side);
  }

  /** A step seen by an order that is not under its cursor, or is under it without trading. */
  lemma QuietOrder(t: Terms, s: Pass, side: Side, k: nat)
    requires CanStep(t, s) && Active(Step(t, s).value, side, k) && |BookOf(Step(t, s).value, side)| == |BookOf(s, side)|
    requires k != CursorOf(s, side) || !NextMove(t, s).Cross?
    ensures Active(s, side, k) && BookOf(Step(t, s).value, side)[k] == BookOf(s, side)[k]
  {
    StepSide(t, s, side, k);
    StepShape(t, s);
    FillCountPrefix(s.fills, Step(t, s).value.fills, side, BookOf(s, side)[k].slot);
  }

  lemma SteadyKept(t: Terms, tee: Tee, v: VaultState, s: Pass, others: map<Digest, NoteLock>, side: Side, k: nat)
    requires PassReady(t, tee, v, s, others) && CanStep(t, s) && k < |BookOf(Step(t, s).value, side)|
    ensures |BookOf(Step(t, s).value, side)| == |BookOf(s, side)|
    ensures Steady(side, BookOf(Step(t, s).value, side), k, CursorOf(Step(t, s).value, side), t.feeRate)
    ensures Lasting(t, BookOf(Step(t, s).value, side)[k])
  {
    StepShape(t, s);
    StepSide(t, s, side, CursorOf(s, side));
    assert Steady(side, BookOf(s, side), k, CursorOf(s, side), t.feeRate) && Lasting(t, BookOf(s, side)[k]);
    StepSteady(t, s, side, k);
    StepEvolves(t, s, side, k);
  }

  lemma QuietReady(t: Terms, tee: Tee, v: VaultState, s: Pass, others: map<Digest, NoteLock>)
    requires PassReady(t, tee, v, s, others) && CanStep(t, s) && !NextMove(t, s).Cross?
    ensures PassReady(t, tee, v, Step(t, s).value, others)
  {
    var s' := Step(t, s).value;
    StepShape(t, s);
    forall side: Side, k: nat | k < |BookOf(s', side)|
      ensures Steady(side, BookOf(s', side), k, CursorOf(s', side), t.feeRate) && Lasting(t, BookOf(s', side)[k])
      ensures Active(s', side, k) ==> Active(s, side, k) && BookOf(s', side)[k] == BookOf(s, side)[k]
    {
      SteadyKept(t, tee, v, s, others, side, k);
      if Active(s', side, k) {
        QuietOrder(t, s, side, k);
      }
    }
    forall side: Side, k: nat, side': Side, k': nat | Active(s', side, k) && Active(s', side', k') && (side != side' || k != k')
      ensures NoteAt(s', side, k) != NoteAt(s', side', k')
    {
      assert NoteAt(s, side, k) != NoteAt(s, side', k');
    }
    forall side: Side, k: nat | Active(s', side, k) ensures NoteAt(s', side, k) !in others {
      assert NoteAt(s, side, k) !in others;
    }
  }

  lemma StandsKept(tee: Tee, v: VaultState, f: Fill, note: Digest, lock: NoteLock)
    requires NullifiersInjective(tee) && VaultReady(tee, v, 1) && Settleable(tee, v, f)
    requires Stands(tee, v, note, lock) && note != f.result.buyer.note && note != f.result.seller.note
    ensures Settle(v, PayloadOf(tee, f), tee.authority, true).Ok?
    ensures Stands(tee, Settle(v, PayloadOf(tee, f), tee.authority, true).value, note, lock)
  {
    SettlesOk(tee, v, f);
  }

  /** An order of the new state: under its cursor it holds a change note no lock knew before,
      elsewhere it is as it was, with its note locked. */
  lemma OrderAfterCross(t: Terms, tee: Tee, v: VaultState, s: Pass, others: map<Digest, NoteLock>, side: Side, k: nat)
    requires ChangeNotesSeparate(t.hs, tee) && NullifiersInjective(tee) && VaultReady(tee, v, 1)
    requires PassReady(t, tee, v, s, others) && CanStep(t, s) && NextMove(t, s).Cross? && Orderly(t, tee, s, Step(t, s).value.fills)
    requires Active(Step(t, s).value, side, k)
    ensures Trade(t, s.bids[s.bi], s.asks[s.ai], s.nextId).Ok?
    ensures Settle(v, PayloadOf(tee, FillOf(t, s)), tee.authority, true).Ok?
    ensures
      var s' := Step(t, s).value;
      var leg := LegOn(MatchOf(t, s), side);
      && OrderPledged(tee, Settle(v, PayloadOf(tee, FillOf(t, s)), tee.authority, true).value, BookOf(s', side)[k])
      && (if k == CursorOf(s, side) then NoteAt(s', side, k) == leg.changeNote && NoteAt(s', side, k) !in v.locks && leg.change > 0
          else Active(s, side, k) && NoteAt(s', side, k) == NoteAt(s, side, k) && NoteAt(s', side, k) in v.locks)
  {
    StepShape(t, s);
    CrossSettleable(t, tee, v, s, others);
    if k == CursorOf(s, side) {
      ContinuingPledged(t, tee, v, s, others, side);
      ChangePositive(t, tee, v, s, others, side);
    } else {
      QuietOrder(t, s, side, k);
      CursorNotes(t, s);
      assert Active(s, Bid, s.bi) && Active(s, Ask, s.ai) by {
        CursorsUnspent(t, tee, s, Bid);
        CursorsUnspent(t, tee, s, Ask);
        assert Steady(Bid, BookOf(s, Bid), s.bi, CursorOf(s, Bid), t.feeRate);
        assert Steady(Ask, BookOf(s, Ask), s.ai, CursorOf(s, Ask), t.feeRate);
      }
      assert NoteAt(s, side, k) != NoteAt(s, Bid, s.bi) && NoteAt(s, side, k) != NoteAt(s, Ask, s.ai);
      var o := BookOf(s, side)[k];
      assert OrderPledged(tee, v, o);
      PledgeKept(tee, v, FillOf(t, s), o.note, o.orderId, o.noteAmount, o.expiry);
    }
  }

  lemma CursorNotes(t: Terms, s: Pass)
    requires CanStep(t, s) && NextMove(t, s).Cross?
    ensures Trade(t, s.bids[s.bi], s.asks[s.ai], s.nextId).Ok?
    ensures FillOf(t, s).result.buyer.note == NoteAt(s, Bid, s.bi) && FillOf(t, s).result.seller.note == NoteAt(s, Ask, s.ai)
    ensures Step(t, s).value.fills == s.fills + [FillOf(t, s)]
  {
  }

  lemma ChangePositive(t: Terms, tee: Tee, v: VaultState, s: Pass, others: map<Digest, NoteLock>, side: Side)
    requires PassReady(t, tee, v, s, others) && CanStep(t, s) && NextMove(t, s).Cross? && Orderly(t, tee, s, Step(t, s).value.fills)
    requires Active(Step(t, s).value, side, CursorOf(s, side))
    ensures Trade(t, s.bids[s.bi], s.asks[s.ai], s.nextId).Ok?
    ensures LegOn(MatchOf(t, s), side).change > 0
  {
    var k := CursorOf(s, side);
    StepSide(t, s, side, k);
    assert Steady(side, BookOf(s, side), k, CursorOf(s, side), t.feeRate);
    TradeFacts(t, s.bids[s.bi], s.asks[s.ai], s.nextId, side);
    FundedAfter(t, s.bids[s.bi], s.asks[s.ai], s.nextId, side);
  }

  lemma DistinctAfterCross(t: Terms, tee: Tee, v: VaultState, s: Pass, others: map<Digest, NoteLock>, side: Side, k: nat, side': Side, k': nat)
    requires ChangeNotesSeparate(t.hs, tee) && NullifiersInjective(tee) && VaultReady(tee, v, 1)
    requires PassReady(t, tee, v, s, others) && CanStep(t, s) && NextMove(t, s).Cross? && Orderly(t, tee, s, Step(t, s).value.fills)
    requires Active(Step(t, s).value, side, k) && Active(Step(t, s).value, side', k') && (side != side' || k != k')
    ensures NoteAt(Step(t, s).value, side, k) != NoteAt(Step(t, s).value, side', k')
  {
    OrderAfterCross(t, tee, v, s, others, side, k);
    OrderAfterCross(t, tee, v, s, others, side', k');
    if k == CursorOf(s, side) && k' == CursorOf(s, side') {
      ChangeMinted(t, tee, s, Bid);
      ChangeMinted(t, tee, s, Ask);
      MintedDiffer(t.hs, tee, s.nextId, MatchOf(t, s).buyer.changeNote, MatchOf(t, s).seller.changeNote);
    } else if k != CursorOf(s, side) && k' != CursorOf(s, side') {
      assert NoteAt(s, side, k) != NoteAt(s, side', k');
    }
  }

  lemma CursorsActive(t: Terms, tee: Tee, v: VaultState, s: Pass, others: map<Digest, NoteLock>)
    requires PassReady(t, tee, v, s, others) && CanStep(t, s) && NextMove(t, s).Cross? && Orderly(t, tee, s, Step(t, s).value.fills)
    ensures Active(s, Bid, s.bi) && Active(s, Ask, s.ai)
    ensures NoteAt(s, Bid, s.bi) !in others && NoteAt(s, Ask, s.ai) !in others
  {
    assert Steady(Bid, BookOf(s, Bid), s.bi, CursorOf(s, Bid), t.feeRate);
    assert Steady(Ask, BookOf(s, Ask), s.ai, CursorOf(s, Ask), t.feeRate);
    CursorsUnspent(t, tee, s, Bid);
    CursorsUnspent(t, tee, s, Ask);
    assert Active(s, Bid, s.bi) && Active(s, Ask, s.ai);
  }

  lemma OrdersAfterCross(t: Terms, tee: Tee, v: VaultState, s: Pass, others: map<Digest, NoteLock>, w: VaultState)
    requires ChangeNotesSeparate(t.hs, tee) && NullifiersInjective(tee) && VaultReady(tee, v, 1)
    requires PassReady(t, tee, v, s, others) && CanStep(t, s) && NextMove(t, s).Cross? && Orderly(t, tee, s, Step(t, s).value.fills)
    requires Trade(t, s.bids[s.bi], s.asks[s.ai], s.nextId).Ok?
    requires Settle(v, PayloadOf(tee, FillOf(t, s)), tee.authority, true) == Ok(w)
    ensures
      var s' := Step(t, s).value;
      && (forall side: Side, k: nat :: Active(s', side, k) ==> OrderPledged(tee, w, BookOf(s', side)[k]))
      && (forall side: Side, k: nat :: Active(s', side, k) ==> NoteAt(s', side, k) !in others)
      && (forall side: Side, k: nat, side': Side, k': nat :: Active(s', side, k) && Active(s', side', k') && (side != side' || k != k') ==>
            NoteAt(s', side, k) != NoteAt(s', side', k'))
  {
    var s' := Step(t, s).value;
    forall side: Side, k: nat | Active(s', side, k)
      ensures OrderPledged(tee, w, BookOf(s', side)[k]) && NoteAt(s', side, k) !in others
    {
      OrderAfterCross(t, tee, v, s, others, side, k);
      assert k != CursorOf(s, side) ==> NoteAt(s, side, k) !in others;
    }
    forall side: Side, k: nat, side': Side, k': nat | Active(s', side, k) && Active(s', side', k') && (side != side' || k != k')
      ensures NoteAt(s', side, k) != NoteAt(s', side', k')
    {
      DistinctAfterCross(t, tee, v, s, others, side, k, side', k');
    }
  }

  lemma OthersAfterCross(t: Terms, tee: Tee, v: VaultState, s: Pass, others: map<Digest, NoteLock>)
    requires ChangeNotesSeparate(t.hs, tee) && NullifiersInjective(tee) && VaultReady(tee, v, 1)
    requires PassReady(t, tee, v, s, others) && CanStep(t, s) && NextMove(t, s).Cross? && Orderly(t, tee, s, Step(t, s).value.fills) && s.nextId < U64_MAX
    ensures Trade(t, s.bids[s.bi], s.asks[s.ai], s.nextId).Ok?
    ensures Settle(v, PayloadOf(tee, FillOf(t, s)), tee.authority, true).Ok?
    ensures
      var w := Settle(v, PayloadOf(tee, FillOf(t, s)), tee.authority, true).value;
      && (forall n :: n in others ==> Stands(tee, w, n, others[n]))
      && FutureFresh(t.hs, tee, w, s.nextId + 1)
      && SameVault(v, w, 1)
  {
    CrossSettleable(t, tee, v, s, others);
    CursorNotes(t, s);
    CursorsActive(t, tee, v, s, others);
    ChangeMinted(t, tee, s, Bid);
    ChangeMinted(t, tee, s, Ask);
    FreshKept(t.hs, tee, v, FillOf(t, s), s.nextId);
    SettlesOk(tee, v, FillOf(t, s));
    forall n | n in others ensures Stands(tee, Settle(v, PayloadOf(tee, FillOf(t, s)), tee.authority, true).value, n, others[n]) {
      StandsKept(tee, v, FillOf(t, s), n, others[n]);
    }
  }

  /** A crossing step: the vault accepts the match, and the state after it is ready again. */
  lemma CrossReady(t: Terms, tee: Tee, v: VaultState, s: Pass, others: map<Digest, NoteLock>)
    requires ChangeNotesSeparate(t.hs, tee) && NullifiersInjective(tee) && VaultReady(tee, v, 1)
    requires PassReady(t, tee, v, s, others) && CanStep(t, s) && NextMove(t, s).Cross? && Orderly(t, tee, s, Step(t, s).value.fills) && s.nextId < U64_MAX
    ensures Trade(t, s.bids[s.bi], s.asks[s.ai], s.nextId).Ok?
    ensures Settle(v, PayloadOf(tee, FillOf(t, s)), tee.authority, true).Ok?
    ensures PassReady(t, tee, Settle(v, PayloadOf(tee, FillOf(t, s)), tee.authority, true).value, Step(t, s).value, others)
    ensures SameVault(v, Settle(v, PayloadOf(tee, FillOf(t, s)), tee.authority, true).value, 1)
    ensures Step(t, s).value.nextId == s.nextId + 1
  {
    OthersAfterCross(t, tee, v, s, others);
    OrdersAfterCross(t, tee, v, s, others, Settle(v, PayloadOf(tee, FillOf(t, s)), tee.authority, true).value);
    var s' := Step(t, s).value;
    forall side: Side, k: nat | k < |BookOf(s', side)|
      ensures Steady(side, BookOf(s', side), k, CursorOf(s', side), t.feeRate) && Lasting(t, BookOf(s', side)[k])
    {
      SteadyKept(t, tee, v, s, others, side, k);
    }
  }

  lemma SettleOneMore(start: VaultState, tee: Tee, fills: seq<Fill>, v: VaultState, f: Fill)
    requires SettleAll(start, tee, fills) == Ok(v)
    ensures SettleAll(start, tee, fills + [f]) == Settle(v, PayloadOf(tee, f), tee.authority, true)
  {
    assert (fills + [f])[..|fills + [f]| - 1] == fills;
  }

  lemma CrossSettles(t: Terms, tee: Tee, start: VaultState, v: VaultState, s: Pass, others: map<Digest, NoteLock>)
    requires ChangeNotesSeparate(t.hs, tee) && NullifiersInjective(tee) && VaultReady(tee, v, 1)
    requires SettleAll(start, tee, s.fills) == Ok(v) && InTime(start, tee, s.fills) && PassReady(t, tee, v, s, others)
    requires CanStep(t, s) && NextMove(t, s).Cross? && Orderly(t, tee, s, Step(t, s).value.fills) && s.nextId < U64_MAX
    ensures
      var s' := Step(t, s).value;
      && SettleAll(start, tee, s'.fills).Ok? && InTime(start, tee, s'.fills)
      && PassReady(t, tee, SettleAll(start, tee, s'.fills).value, s', others)
      && SameVault(v, SettleAll(start, tee, s'.fills).value, 1)
      && s'.nextId == s.nextId + 1
  {
    CrossReady(t, tee, v, s, others);
    CrossSettleable(t, tee, v, s, others);
    CursorNotes(t, s);
    SettleOneMore(start, tee, s.fills, v, FillOf(t, s));
    InTimeGrows(start, tee, s.fills, v, FillOf(t, s));
  }

  lemma QuietSettles(t: Terms, tee: Tee, start: VaultState, v: VaultState, s: Pass, others: map<Digest, NoteLock>)
    requires SettleAll(start, tee, s.fills) == Ok(v) && InTime(start, tee, s.fills) && PassReady(t, tee, v, s, others)
    requires CanStep(t, s) && !NextMove(t, s).Cross?
    ensures
      var s' := Step(t, s).value;
      && s'.fills == s.fills && SettleAll(start, tee, s'.fills) == Ok(v) && InTime(start, tee, s'.fills)
      && PassReady(t, tee, v, s', others) && SameVault(v, v, 0) && s'.nextId == s.nextId
  {
    StepShape(t, s);
    QuietReady(t, tee, v, s, others);
  }

  /** One step of the pass with the settlement, if any, that follows it. */
  lemma StepSettles(t: Terms, tee: Tee, start: VaultState, v: VaultState, s: Pass, others: map<Digest, NoteLock>)
    requires ChangeNotesSeparate(t.hs, tee) && NullifiersInjective(tee)
    requires SettleAll(start, tee, s.fills) == Ok(v) && InTime(start, tee, s.fills) && PassReady(t, tee, v, s, others)
    requires CanStep(t, s) && Orderly(t, tee, s, Step(t, s).value.fills)
    requires VaultReady(tee, v, |Step(t, s).value.fills| - |s.fills|)
    requires s.nextId + |Step(t, s).value.fills| - |s.fills| <= U64_MAX
    ensures
      var s' := Step(t, s).value;
      && SettleAll(start, tee, s'.fills).Ok? && InTime(start, tee, s'.fills)
      && PassReady(t, tee, SettleAll(start, tee, s'.fills).value, s', others)
      && SameVault(v, SettleAll(start, tee, s'.fills).value, |s'.fills| - |s.fills|)
      && s'.nextId == s.nextId + |s'.fills| - |s.fills|
  {
    if NextMove(t, s).Cross? {
      StepAccumulates(t, s, Bid);
      CrossSettles(t, tee, start, v, s, others);
    } else {
      QuietSettles(t, tee, start, v, s, others);
    }
  }

  /** A whole pass over orders of any type: starting ready, if no immediate-or-cancel order is filled
      twice every match it makes settles, in order, from locks that last, and it ends ready. */
  lemma {:induction false} RunSettles(t: Terms, tee: Tee, start: VaultState, v: VaultState, s: Pass, others: map<Digest, NoteLock>)
    requires ChangeNotesSeparate(t.hs, tee) && NullifiersInjective(tee)
    requires SettleAll(start, tee, s.fills) == Ok(v) && InTime(start, tee, s.fills) && PassReady(t, tee, v, s, others)
    requires |s.ring| == BATCH_RESULTS_CAPACITY && s.bi <= |s.bids| && s.ai <= |s.asks| && Run(t, s).Ok?
    requires Orderly(t, tee, s, Run(t, s).value.fills)
    requires VaultReady(tee, v, |Run(t, s).value.fills| - |s.fills|)
    requires s.nextId + |Run(t, s).value.fills| - |s.fills| <= U64_MAX
    ensures
      var f := Run(t, s).value;
      && SettleAll(start, tee, f.fills).Ok? && InTime(start, tee, f.fills)
      && PassReady(t, tee, SettleAll(start, tee, f.fills).value, f, others)
      && SameVault(v, SettleAll(start, tee, f.fills).value, |f.fills| - |s.fills|)
      && f.nextId == s.nextId + |f.fills| - |s.fills|
    decreases |s.bids| + |s.asks| - s.bi - s.ai
  {
    if s.Live() {
      var s' := Step(t, s).value;
      StepShape(t, s);
      RunCount(t, s');
      RunExtends(t, s');
      OrderlyPrefix(t, tee, s, s'.fills, Run(t, s').value.fills);
      StepSettles(t, tee, start, v, s, others);
      StepKeepsOrderly(t, tee, s, Run(t, s').value.fills);
      RunSettles(t, tee, start, SettleAll(start, tee, s'.fills).value, s', others);
    }
  }

  /** Settlements change neither the vault's keys nor its balances, and add at most five leaves each. */
  ghost predicate SameVault(v: VaultState, w: VaultState, settlements: int) {
    && w == v.(leaves := w.leaves, locks := w.locks, consumed := w.consumed, nullifiers := w.nullifiers)
    && |w.leaves| <= |v.leaves| + 5 * settlements
  }
}
