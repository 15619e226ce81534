// Rebuilding the vault's leaves from its transaction log.
module Replay {
  import opened Prelude
  import opened Crypto
  import opened Bytes
  import opened MerkleTree
  import opened VaultErrors
  import opened Vault

  // ---------- the wire format ----------

  function Be32(d: Digest): bytes {
    BytesBE(d, 32)
  }

  function Be16(d: OrderId): bytes {
    BytesBE(d, 16)
  }

  function Le8(n: uint64): bytes {
    BytesLE(n, 8)
  }

  /** Match id and the two input notes. */
  function PayloadHead(p: Payload): (b: bytes)
    ensures |b| == 80
  {
    Be16(p.matchId) + Be32(p.noteA) + Be32(p.noteB)
  }

  /** Nullifiers, order ids and amounts. */
  function PayloadMiddle(p: Payload): (b: bytes)
    ensures |b| == 144
  {
    Be32(p.nullifierA) + Be32(p.nullifierB) + Be16(p.orderA) + Be16(p.orderB)
    + Le8(p.base) + Le8(p.quote) + Le8(p.buyerChange) + Le8(p.sellerChange) + Le8(p.buyerFee) + Le8(p.sellerFee)
  }

  /** Re-locks, price and slot. */
  function PayloadTail(p: Payload): (b: bytes)
    ensures |b| == 64
  {
    Be16(p.buyerRelock) + Le8(p.buyerRelockExpiry) + Be16(p.sellerRelock) + Le8(p.sellerRelockExpiry)
    + Le8(p.price) + Le8(p.batchSlot)
  }

  /** `serializePayload`: 448 bytes in the order of the fields. */
  function SerializePayload(p: Payload): (b: bytes)
    ensures |b| == 448
  {
    PayloadHead(p) + Be32(p.noteC) + Be32(p.noteD) + Be32(p.noteE) + Be32(p.noteF) + PayloadMiddle(p) + Be32(p.noteFee) + PayloadTail(p)
  }

  /** Where the five output commitments lie. */
  lemma PayloadSlices(p: Payload)
    ensures
      var b := SerializePayload(p);
      && b[80..112] == Be32(p.noteC) && b[112..144] == Be32(p.noteD) && b[144..176] == Be32(p.noteE)
      && b[176..208] == Be32(p.noteF) && b[352..384] == Be32(p.noteFee)
  {
  }

  /** The 8-byte instruction tags. */
  datatype Tags = Tags(deposit: bytes, settle: bytes) {
    ghost predicate Valid() {
      |deposit| == |settle| == 8 && deposit != settle
    }
  }

  /** An instruction as the log records it: program, data, account keys. */
  datatype Wire = Wire(program: Digest, data: bytes, accounts: seq<Digest>)

  /** A successful instruction of some program. */
  datatype Instruction =
    | DepositIx(mint: Digest, amount: uint64, owner: Digest, nonce: Digest, blinding: Digest)
    | SettleIx(payload: Payload)
    | OtherIx(after: VaultState)  // any instruction that leaves the tree alone, with the state it leaves

  function DepositData(tags: Tags, ix: Instruction): bytes
    requires ix.DepositIx?
  {
    tags.deposit + Le8(ix.amount) + Be32(ix.owner) + Be32(ix.nonce) + Be32(ix.blinding)
  }

  function SettleData(tags: Tags, ix: Instruction): bytes
    requires ix.SettleIx?
  {
    tags.settle + SerializePayload(ix.payload)
  }

  predicate Tagged(data: bytes, tag: bytes) {
    |data| >= 8 && |tag| == 8 && data[..8] == tag
  }

  /** `w` is the log entry of `ix`. The mint of a deposit is its third account. */
  ghost predicate Encodes(tags: Tags, vault: Digest, w: Wire, ix: Instruction) {
    match ix
    case DepositIx(mint, _, _, _, _) =>
      w.program == vault && w.data == DepositData(tags, ix) && |w.accounts| > 2 && w.accounts[2] == mint
    case SettleIx(_) => w.program == vault && w.data == SettleData(tags, ix)
    case OtherIx(_) => w.program != vault || (!Tagged(w.data, tags.deposit) && !Tagged(w.data, tags.settle))
  }

  // ---------- the replay, as a function of one log entry ----------

  /** `noteCommitment` on byte fields; the field library reduces its inputs. */
  function NoteCommitment(hs: Hashes, mint: Digest, amount: uint64, owner: Digest, nonce: Digest, blinding: Digest): Fr {
    hs.poseidon6(MintLow(mint), MintHigh(mint), amount, owner % BN254_R, nonce % BN254_R, blinding % BN254_R)
  }

  /** A 32-byte slice as a digest. */
  function DigestAt(b: bytes, from: nat): Digest
    requires from + 32 <= |b|
  {
    ValueBound(b[from..from + 32]);
    Pow256At32();
    ValueBE(b[from..from + 32])
  }

  function U64At(b: bytes, from: nat): uint64
    requires from + 8 <= |b|
  {
    ValueLEBound(b[from..from + 8]);
    Pow256At32();
    ValueLE(b[from..from + 8])
  }

  lemma {:induction false} ValueLEBound(b: bytes)
    ensures ValueLE(b) < Pow256(|b|)
  {
    if b != [] {
      ValueLEBound(b[1..]);
    }
  }

  /** What the replay pushes for one log entry; `None` is the exception on a short settle payload. */
  function Pushed(hs: Hashes, tags: Tags, vault: Digest, w: Wire): Option<seq<Digest>> {
    if w.program != vault then Some([])
    else if Tagged(w.data, tags.deposit) then
      if |w.data| < 112 || |w.accounts| <= 2 then Some([])
      else Some([NoteCommitment(hs, w.accounts[2], U64At(w.data, 8), DigestAt(w.data, 16), DigestAt(w.data, 48), DigestAt(w.data, 80))])
    else if Tagged(w.data, tags.settle) then
      if |w.data| < 456 then None
      else
        Some([DigestAt(w.data, 88), DigestAt(w.data, 120)] + Optional(DigestAt(w.data, 152))
             + Optional(DigestAt(w.data, 184)) + Optional(DigestAt(w.data, 360)))
    else Some([])
  }

  /** What the vault appends for a successful instruction. */
  function Appended(hs: Hashes, ix: Instruction): seq<Digest> {
    match ix
    case DepositIx(mint, amount, owner, nonce, blinding) =>
      var c := CommitmentFromFields(hs, mint, amount, owner, nonce, blinding);
      if c.Some? then [c.value] else []
    case SettleIx(p) => SettledLeaves(p)
    case OtherIx(_) => []
  }

  /** A deposit whose field inputs are canonical, as every successful one's are. */
  predicate Canonical(ix: Instruction) {
    ix.DepositIx? ==> ix.owner < BN254_R && ix.nonce < BN254_R && ix.blinding < BN254_R
  }

  lemma DigestAtSlice(b: bytes, from: nat, d: Digest)
    requires from + 32 <= |b| && b[from..from + 32] == Be32(d)
    ensures DigestAt(b, from) == d
  {
    Pow256At32();
    ValueOfBytes(d, 32);
  }

  lemma U64AtSlice(b: bytes, from: nat, n: uint64)
    requires from + 8 <= |b| && b[from..from + 8] == Le8(n)
    ensures U64At(b, from) == n
  {
    Pow256At32();
    ValueOfBytesLE(n, 8);
  }

  lemma SettlePushed(hs: Hashes, tags: Tags, vault: Digest, w: Wire, ix: Instruction)
    requires tags.Valid() && ix.SettleIx? && Encodes(tags, vault, w, ix)
    ensures Pushed(hs, tags, vault, w) == Some(SettledLeaves(ix.payload))
  {
    var p := ix.payload;
    var b := SerializePayload(p);
    PayloadSlices(p);
    assert w.data[..8] == tags.settle && w.data[8..] == b;
    assert w.data[88..120] == b[80..112] && w.data[120..152] == b[112..144] && w.data[152..184] == b[144..176];
    assert w.data[184..216] == b[176..208] && w.data[360..392] == b[352..384];
    DigestAtSlice(w.data, 88, p.noteC);
    DigestAtSlice(w.data, 120, p.noteD);
    DigestAtSlice(w.data, 152, p.noteE);
    DigestAtSlice(w.data, 184, p.noteF);
    DigestAtSlice(w.data, 360, p.noteFee);
  }

  lemma DepositSlices(tags: Tags, ix: Instruction)
    requires tags.Valid() && ix.DepositIx?
    ensures
      var data := DepositData(tags, ix);
      && |data| == 112 && data[..8] == tags.deposit && data[8..16] == Le8(ix.amount)
      && data[16..48] == Be32(ix.owner) && data[48..80] == Be32(ix.nonce) && data[80..112] == Be32(ix.blinding)
  {
  }

  lemma DepositPushed(hs: Hashes, tags: Tags, vault: Digest, w: Wire, ix: Instruction)
    requires tags.Valid() && ix.DepositIx? && Encodes(tags, vault, w, ix) && Canonical(ix)
    ensures Pushed(hs, tags, vault, w) == Some(Appended(hs, ix))
  {
    DepositSlices(tags, ix);
    U64AtSlice(w.data, 8, ix.amount);
    DigestAtSlice(w.data, 16, ix.owner);
    DigestAtSlice(w.data, 48, ix.nonce);
    DigestAtSlice(w.data, 80, ix.blinding);
  }

  /** From the bytes of its log entry the replay recovers exactly what the instruction appended. */
  lemma ReplayMatchesInstruction(hs: Hashes, tags: Tags, vault: Digest, w: Wire, ix: Instruction)
    requires tags.Valid() && Encodes(tags, vault, w, ix) && Canonical(ix)
    ensures Pushed(hs, tags, vault, w) == Some(Appended(hs, ix))
  {
    match ix
    case DepositIx(_, _, _, _, _) => DepositPushed(hs, tags, vault, w, ix);
    case SettleIx(_) => SettlePushed(hs, tags, vault, w, ix);
    case OtherIx(_) =>
  }

  // ---------- the chain and its log ----------

  /** The vault after one successful instruction of its log. */
  function ChainStep(hs: Hashes, v: VaultState, ix: Instruction): Result<VaultState, VaultError> {
    match ix
    case DepositIx(mint, amount, owner, nonce, blinding) => Deposit(hs, v, mint, amount, owner, nonce, blinding)
    case SettleIx(p) => Settle(v, p, v.teePubkey, true)
    case OtherIx(after) => if after.leaves == v.leaves && after.depth == v.depth then Ok(after) else Err(Unauthorized)
  }

  function ChainRun(hs: Hashes, v: VaultState, log: seq<Instruction>): Result<VaultState, VaultError> {
    if log == [] then Ok(v)
    else
      var w :- ChainRun(hs, v, log[..|log| - 1]);
      ChainStep(hs, w, log[|log| - 1])
  }

  /** A successful instruction appends what `Appended` says and had canonical inputs. */
  lemma ChainStepAppends(hs: Hashes, v: VaultState, ix: Instruction)
    requires |v.leaves| <= Pow2(v.depth) && ChainStep(hs, v, ix).Ok?
    ensures Canonical(ix) && AllInField(Appended(hs, ix))
    ensures ChainStep(hs, v, ix).value.leaves == v.leaves + Appended(hs, ix)
    ensures ChainStep(hs, v, ix).value.depth == v.depth && |ChainStep(hs, v, ix).value.leaves| <= Pow2(v.depth)
  {
    match ix
    case DepositIx(_, _, _, _, _) =>
    case SettleIx(p) =>
      var marked := v.(consumed := v.consumed + {p.noteA, p.noteB}, nullifiers := v.nullifiers + {p.nullifierA, p.nullifierB});
      AppendsFacts(marked, p);
    case OtherIx(_) =>
      assert v.leaves + [] == v.leaves;
  }

  /** The log entries of a list of instructions, one each and in order. */
  ghost predicate EncodesAll(tags: Tags, vault: Digest, entries: seq<Wire>, log: seq<Instruction>) {
    |entries| == |log| && forall i :: 0 <= i < |log| ==> Encodes(tags, vault, entries[i], log[i])
  }

  // ---------- the replay program ----------

  class LeafHistory {
    const hs: Hashes
    const tags: Tags
    const vault: Digest
    var leaves: seq<Digest>

    constructor (hs: Hashes, tags: Tags, vault: Digest)
      ensures leaves == [] && this.hs == hs && this.tags == tags && this.vault == vault
    {
      this.hs, this.tags, this.vault := hs, tags, vault;
      leaves := [];
    }

    /** `pushSettleLeaves`: throws on a short payload. */
    method PushSettleLeaves(p: bytes) returns (thrown: bool)
      modifies this
      ensures thrown <==> |p| < 448
      ensures thrown ==> leaves == old(leaves)
      ensures !thrown ==> leaves == old(leaves) + [DigestAt(p, 80), DigestAt(p, 112)] + Optional(DigestAt(p, 144))
                                    + Optional(DigestAt(p, 176)) + Optional(DigestAt(p, 352))
    {
      if |p| < 448 {
        return true;
      }
      ZeroValue(p[144..176]);
      ZeroValue(p[176..208]);
      ZeroValue(p[352..384]);
      leaves := leaves + [DigestAt(p, 80), DigestAt(p, 112)];
      if !AllZero(p[144..176]) {
        leaves := leaves + [DigestAt(p, 144)];
      }
      if !AllZero(p[176..208]) {
        leaves := leaves + [DigestAt(p, 176)];
      }
      if !AllZero(p[352..384]) {
        leaves := leaves + [DigestAt(p, 352)];
      }
      return false;
    }

    /** `processIxDataAsync` behind the program check of `walkIx`. */
    method Process(w: Wire) returns (thrown: bool)
      requires tags.Valid()
      modifies this
      ensures thrown <==> Pushed(hs, tags, vault, w).None?
      ensures leaves == if thrown then old(leaves) else old(leaves) + Pushed(hs, tags, vault, w).value
    {
      if w.program != vault {
        return false;
      }
      if Tagged(w.data, tags.deposit) {
        if |w.data| >= 112 && |w.accounts| > 2 {
          leaves := leaves + [NoteCommitment(hs, w.accounts[2], U64At(w.data, 8), DigestAt(w.data, 16), DigestAt(w.data, 48), DigestAt(w.data, 80))];
        }
        return false;
      }
      if Tagged(w.data, tags.settle) {
        SlicesShift(w.data);
        thrown := PushSettleLeaves(w.data[8..]);
        return thrown;
      }
      return false;
    }

    /** `collectVaultLeavesOrdered` over the entries oldest first: stops at `target` leaves, and fails
        if it does not end with exactly that many. */
    method Collect(entries: seq<Wire>, target: nat) returns (ok: bool)
      requires tags.Valid() && leaves == []
      modifies this
      ensures forall log: seq<Instruction>, v: VaultState, k: nat ::
        && EncodesAll(tags, vault, entries, log) && k <= |log|
        && v.leaves == [] && ChainRun(hs, v, log).Ok? && ChainRun(hs, v, log[..k]).Ok?
        && |ChainRun(hs, v, log[..k]).value.leaves| == target ==>
          ok && leaves == ChainRun(hs, v, log[..k]).value.leaves
    {
      var i := 0;
      var thrown := false;
      while i < |entries| && |leaves| < target && !thrown
        invariant i <= |entries|
        invariant thrown <==> ReplayTo(hs, tags, vault, entries, i).None?
        invariant !thrown ==> ReplayTo(hs, tags, vault, entries, i) == Some(leaves)
        invariant i > 0 && !thrown ==> |ReplayTo(hs, tags, vault, entries, i - 1).value| < target
        decreases |entries| - i
      {
        thrown := Process(entries[i]);
        i := i + 1;
      }
      ok := !thrown && |leaves| == target;
      forall log: seq<Instruction>, v: VaultState, k: nat |
        && EncodesAll(tags, vault, entries, log) && k <= |log|
        && v.leaves == [] && ChainRun(hs, v, log).Ok? && ChainRun(hs, v, log[..k]).Ok?
        && |ChainRun(hs, v, log[..k]).value.leaves| == target
        ensures ok && leaves == ChainRun(hs, v, log[..k]).value.leaves
      {
        ReplayReaches(hs, tags, vault, entries, log, v, k, i);
      }
    }
  }

  lemma SlicesShift(data: bytes)
    requires |data| >= 8
    ensures |data| >= 456 ==>
      var p := data[8..];
      && DigestAt(p, 80) == DigestAt(data, 88) && DigestAt(p, 112) == DigestAt(data, 120)
      && DigestAt(p, 144) == DigestAt(data, 152) && DigestAt(p, 176) == DigestAt(data, 184) && DigestAt(p, 352) == DigestAt(data, 360)
  {
    if |data| >= 456 {
      var p := data[8..];
      assert p[80..112] == data[88..120] && p[112..144] == data[120..152] && p[144..176] == data[152..184];
      assert p[176..208] == data[184..216] && p[352..384] == data[360..392];
    }
  }

  /** The leaves after replaying the first `i` entries. */
  function ReplayTo(hs: Hashes, tags: Tags, vault: Digest, entries: seq<Wire>, i: nat): Option<seq<Digest>>
    requires i <= |entries|
  {
    if i == 0 then Some([])
    else
      var prev := ReplayTo(hs, tags, vault, entries, i - 1);
      if prev.None? || Pushed(hs, tags, vault, entries[i - 1]).None? then None
      else Some(prev.value + Pushed(hs, tags, vault, entries[i - 1]).value)
  }

  /** The replay of a log prefix is the vault's leaf sequence after that prefix. */
  lemma {:induction false} ReplayIsChain(hs: Hashes, tags: Tags, vault: Digest, entries: seq<Wire>, log: seq<Instruction>, v: VaultState, i: nat)
    requires tags.Valid() && EncodesAll(tags, vault, entries, log) && i <= |log|
    requires v.leaves == [] && ChainRun(hs, v, log[..i]).Ok?
    ensures ReplayTo(hs, tags, vault, entries, i) == Some(ChainRun(hs, v, log[..i]).value.leaves)
    ensures |ChainRun(hs, v, log[..i]).value.leaves| <= Pow2(ChainRun(hs, v, log[..i]).value.depth)
  {
    if i > 0 {
      assert log[..i][..i - 1] == log[..i - 1];
      ReplayIsChain(hs, tags, vault, entries, log, v, i - 1);
      ChainStepAppends(hs, ChainRun(hs, v, log[..i - 1]).value, log[i - 1]);
      ReplayMatchesInstruction(hs, tags, vault, entries[i - 1], log[i - 1]);
    }
  }

  lemma {:induction false} PrefixRuns(hs: Hashes, v: VaultState, log: seq<Instruction>, i: nat)
    requires i <= |log| && ChainRun(hs, v, log).Ok?
    ensures ChainRun(hs, v, log[..i]).Ok?
    decreases |log|
  {
    if i < |log| {
      PrefixRuns(hs, v, log[..|log| - 1], i);
      assert log[..|log| - 1][..i] == log[..i];
    } else {
      assert log[..i] == log;
    }
  }

  /** Leaves are only ever appended. */
  lemma {:induction false} LeavesGrow(hs: Hashes, tags: Tags, vault: Digest, entries: seq<Wire>, i: nat, j: nat)
    requires i <= j <= |entries| && ReplayTo(hs, tags, vault, entries, j).Some?
    ensures ReplayTo(hs, tags, vault, entries, i).Some?
    ensures ReplayTo(hs, tags, vault, entries, i).value <= ReplayTo(hs, tags, vault, entries, j).value
    decreases j
  {
    if i < j {
      LeavesGrow(hs, tags, vault, entries, i, j - 1);
    }
  }

  /** Entry counts that reach the same number of leaves first have the same leaves. */
  lemma SameLeaves(hs: Hashes, tags: Tags, vault: Digest, entries: seq<Wire>, k: nat, i: nat)
    requires k <= |entries| && i <= |entries|
    requires ReplayTo(hs, tags, vault, entries, k).Some? && ReplayTo(hs, tags, vault, entries, i).Some?
    requires i < k ==> |ReplayTo(hs, tags, vault, entries, i).value| >= |ReplayTo(hs, tags, vault, entries, k).value|
    requires k < i ==> ReplayTo(hs, tags, vault, entries, i - 1).Some?
    requires k < i ==> |ReplayTo(hs, tags, vault, entries, i - 1).value| < |ReplayTo(hs, tags, vault, entries, k).value|
    ensures ReplayTo(hs, tags, vault, entries, i) == ReplayTo(hs, tags, vault, entries, k)
  {
    if i < k {
      LeavesGrow(hs, tags, vault, entries, i, k);
      LongPrefix(ReplayTo(hs, tags, vault, entries, i).value, ReplayTo(hs, tags, vault, entries, k).value);
    } else if k < i {
      LeavesGrow(hs, tags, vault, entries, k, i - 1);
      assert false;
    }
  }

  lemma LongPrefix(a: seq<Digest>, b: seq<Digest>)
    requires a <= b && |a| >= |b|
    ensures a == b
  {
  }

  /** Stopping at the target finds the leaves of the moment the vault had that many. */
  lemma ReplayReaches(hs: Hashes, tags: Tags, vault: Digest, entries: seq<Wire>, log: seq<Instruction>, v: VaultState, k: nat, i: nat)
    requires tags.Valid() && EncodesAll(tags, vault, entries, log) && k <= |log| && i <= |log|
    requires v.leaves == [] && ChainRun(hs, v, log).Ok? && ChainRun(hs, v, log[..k]).Ok?
    requires
      var target := |ChainRun(hs, v, log[..k]).value.leaves|;
      && (ReplayTo(hs, tags, vault, entries, i).Some? ==> i == |entries| || |ReplayTo(hs, tags, vault, entries, i).value| >= target)
      && (i > 0 && ReplayTo(hs, tags, vault, entries, i).Some? ==> |ReplayTo(hs, tags, vault, entries, i - 1).value| < target)
    ensures ReplayTo(hs, tags, vault, entries, i) == Some(ChainRun(hs, v, log[..k]).value.leaves)
  {
    PrefixRuns(hs, v, log, i);
    ReplayIsChain(hs, tags, vault, entries, log, v, i);
    ReplayIsChain(hs, tags, vault, entries, log, v, k);
    SameLeaves(hs, tags, vault, entries, k, i);
  }
}
