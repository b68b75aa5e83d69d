/**
 * Data model of the PayLog attestation registry: machine integers, 32-byte
 * values, addresses, the per-milestone record, the contract state, the entry
 * points' parameters, the two events and the error type.
 */
module Types {
  import opened Wrappers

  // ---- Machine integers (no arithmetic is done on them; only ranges matter) --

  type U8 = x: int | 0 <= x < 0x100
  type U32 = x: int | 0 <= x < 0x1_0000_0000
  type U64 = x: int | 0 <= x < 0x1_0000_0000_0000_0000
  type U128 = x: int | 0 <= x < 0x1_0000_0000_0000_0000_0000_0000_0000_0000

  /** A fixed 32-byte value (`[u8; 32]`). */
  type Bytes32 = s: seq<bv8> | |s| == 32 witness seq(32, _ => 0 as bv8)

  /** SHA-256 digest of the work artifact, supplied by the oracle. */
  type Hash32 = Bytes32
  /** Hash of the off-chain token transfer, supplied by the client. */
  type TxHash = Bytes32
  /** An account address is 32 bytes on the ledger. */
  type AccountAddress = Bytes32

  /** Milestone identifiers are indices into the milestone vector. */
  type MilestoneId = U32
  /** Block time in milliseconds. */
  type Timestamp = U64

  datatype ContractAddress = ContractAddress(index: U64, subindex: U64)

  /** The sender of a call: an account or another contract instance. */
  datatype Address = Account(account: AccountAddress) | Contract(contract: ContractAddress)

  // ---- Persistent state -------------------------------------------------------

  /** Per-milestone record. */
  datatype Milestone = Milestone(
    amountMinor: U128,
    requested: bool,
    released: bool,
    workHash: Option<Hash32>,
    pltTxHash: Option<TxHash>,
    requestedAtMs: Option<Timestamp>,
    attestedAtMs: Option<Timestamp>)

  /** Contract storage: the principal registry and the ordered milestones. */
  datatype State = State(
    projectId: string,
    client: AccountAddress,
    freelancer: AccountAddress,
    oracle: AccountAddress,
    pltDecimals: U8,
    milestones: seq<Milestone>)

  // ---- Parameters ---------------------------------------------------------------

  datatype InitParams = InitParams(
    projectId: string,
    client: AccountAddress,
    freelancer: AccountAddress,
    oracle: AccountAddress,
    amounts: seq<U128>,
    pltDecimals: U8)

  datatype RequestParam = RequestParam(milestoneId: MilestoneId, workHash: Hash32)

  datatype ConfirmParam = ConfirmParam(milestoneId: MilestoneId, paidAmountMinor: U128, pltTxHash: TxHash)

  // ---- Events -------------------------------------------------------------------

  /** The two event records written to the ledger's log. */
  datatype Event =
    | ReleaseRequestedEvent(
        projectId: string,
        milestoneId: MilestoneId,
        workHash: Hash32,
        requestedAtMs: Timestamp)
    | AttestedEvent(
        projectId: string,
        milestoneId: MilestoneId,
        workHash: Hash32,
        pltTxHash: TxHash,
        amountMinor: U128,
        blockTimeMs: Timestamp)

  // ---- Errors and the read-only view ----------------------------------------------

  datatype ContractError =
    | Unauthorized      // caller not allowed for this action
    | InvalidMilestone  // out-of-bounds index
    | AlreadyRequested  // request twice
    | NotRequested      // confirm without prior request
    | AlreadyReleased   // double-release attempt
    | AmountMismatch    // paid amount differs from the configured one
    | LogError          // event could not be written
    | ParseError        // parameters could not be parsed

  /** What `viewMilestone` returns for a milestone. */
  datatype MilestoneView = MilestoneView(
    amountMinor: U128,
    requested: bool,
    released: bool,
    workHash: Option<Hash32>,
    pltTxHash: Option<TxHash>,
    requestedAtMs: Option<Timestamp>,
    attestedAtMs: Option<Timestamp>)
}
