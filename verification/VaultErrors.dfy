// Errors of the vault program. The last one stands for a token transfer the token program refuses.
module VaultErrors {
  datatype VaultError =
    | MerkleTreeFull | InvalidProof | StaleMerkleRoot | MalformedPublicInputs
    | NoteAlreadyLocked | NoteAlreadyConsumed | NullifierAlreadySpent
    | LockNotExpired | LockNotFound | InvalidExpirySlot | InvalidTeeSignature
    | NoteNotLockedForOrder | ArithmeticOverflow | ZeroAmount | Unauthorized
    | ConservationViolation | ChangeNoteInconsistent | RelockRequiresChangeNote | ProtocolOwnerUnset
    | TokenTransferFailed
}
