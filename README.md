# PayLog attestation registry — a Dafny model

PayLog records a freelance milestone handshake on a ledger. An oracle account
asserts that the work for a milestone was done (`requestRelease`). The client
account then asserts that it paid (`confirmPayment`). The contract never moves
tokens. It keeps a vector of milestone records, one per amount configured at
`init`, and writes one event per accepted call. `viewMilestone` returns a
stored record.

The model has five modules:

- `Wrappers` (wrappers.dfy): `Option` and `Result`.
- `Types` (types.dfy): the data model. It holds the machine-integer ranges, the
  32-byte hashes and account addresses, `Address`, `Milestone`, `State`, the
  entry-point parameters, the two events, `ContractError` and `MilestoneView`.
- `Transitions` (transitions.dfy): the entry points as functions of the stored
  state. It also defines the safety invariant `Inv` and the `Ledger`, which is
  the state plus the event log. `Commit` applies an outcome to a ledger: an
  accepted call stores its state and appends its event, and a rejected call
  changes nothing.
- `Paylog` (registry.dfy): the class `Registry`. Its principals are constants
  and its `milestones` and `events` are fields. `RequestRelease` and
  `ConfirmPayment` run the source's checks in order and then write the target
  milestone in place. Each is proved to leave the ledger exactly as `Commit` of
  the matching `Transitions` function says.
- `History` (history.dfy): histories, meaning lists of calls applied one after
  another from deployment. It proves that stages only move forward, that the
  stored work hash is never overwritten, and that the log holds at most one
  request and one attestation per milestone, matching its stage.

The invariant `Inv` says, for every milestone: released implies requested;
`workHash` and `requestedAtMs` are present exactly when it is requested; and
`pltTxHash` and `attestedAtMs` are present exactly when it is released.
`ConfirmPayment` requires `Inv`. `Init` establishes it and every accepted call
keeps it, so every reachable state satisfies it. Under `Inv`, Dafny proves that
the stored work hash is present when `confirm_payment` reads it with `expect`
(smart-contract/src/lib.rs line 278), so that panic cannot happen.

Points of the code the model keeps exactly:

- Every milestone has a mandatory `u128` amount. `confirm_payment` requires the
  paid amount to equal it and does not store the paid amount.
- Milestone ids are 0-based `u32` indices into the milestone vector. An
  out-of-range id gives `InvalidMilestone`.
- `request_release` checks `AlreadyReleased` before `AlreadyRequested`
  (lib.rs:203-204). `confirm_payment` checks `NotRequested`, then
  `AlreadyReleased`, then `AmountMismatch` (lib.rs:268-275).
- The work hash and the transfer hash are fixed 32-byte values.
- `init` rejects an empty amount list (lib.rs:134).

## Model

| member | source | states |
|---|---|---|
| `Transitions.InitMilestones` | smart-contract/src/lib.rs:136-149 | exactly one milestone per amount, in order, with that amount, not requested or released, and every optional field `None` |
| `Transitions.Init` | smart-contract/src/lib.rs:129-159 | rejects exactly the empty amount list, with `ParseError`; otherwise copies the principals and display data, builds one fresh milestone per amount, and establishes `Inv` |
| `Transitions.RequestRelease` | smart-contract/src/lib.rs:179-221 | `Unauthorized` unless the sender is the oracle account (contract senders never are); then `InvalidMilestone` for an out-of-range id; then `AlreadyReleased`; then `AlreadyRequested`; otherwise accepted. On acceptance only the target changes (`requested`, `workHash`, `requestedAtMs` set), the event carries id, hash and time, and `Inv` is kept |
| `Transitions.ConfirmPayment` | smart-contract/src/lib.rs:242-298 | `Unauthorized` unless the sender is the client account; then `InvalidMilestone`, `NotRequested`, `AlreadyReleased` and `AmountMismatch` in that order; otherwise accepted. On acceptance only the target changes (`released`, `pltTxHash`, `attestedAtMs` set), the request data and amount are kept, the event carries the stored work hash and amount, and `Inv` is kept |
| `Transitions.ViewMilestone` | smart-contract/src/lib.rs:327-342 | `None` exactly when the id is out of range; otherwise every field equals the stored milestone's |
| `Paylog.Registry.constructor` | smart-contract/src/lib.rs:151-158 | given a state satisfying `Inv` (as `init` returns), the deployed instance holds exactly that state, with an empty log, and satisfies the invariant |
| `Paylog.Registry.Deploy` | smart-contract/src/lib.rs:129-159 | fails with `ParseError` exactly for an empty amount list; otherwise a fresh instance holds `Init`'s state, an empty log, and satisfies the invariant |
| `Paylog.Registry.RequestRelease` | smart-contract/src/lib.rs:179-221 | returns the status of `Transitions.RequestRelease` and leaves the ledger as `Commit` of that outcome; a rejection changes neither milestones nor log; the invariant is kept |
| `Paylog.Registry.ConfirmPayment` | smart-contract/src/lib.rs:242-298 | returns the status of `Transitions.ConfirmPayment` and leaves the ledger as `Commit` of that outcome; a rejection changes neither milestones nor log; the invariant is kept, so the work hash read at line 278 exists |
| `History.Apply` | smart-contract/src/lib.rs:179-298 | any call keeps `Inv` and the principals and the number of milestones, and every milestone only moves forward (amount fixed, request data fixed once requested, record frozen once released) |
| `History.Run` | smart-contract/src/lib.rs:179-298 | after any history `Inv` holds, and the principals and the number of milestones are those of the start |
| `History.RunEvolves` | smart-contract/src/lib.rs:203-209 | over any history every milestone only moves forward |
| `History.WorkHashNeverOverwritten` | smart-contract/src/lib.rs:202-208 | once a work hash is stored, every later state still holds that same hash |
| `History.ApplyAudited` | smart-contract/src/lib.rs:211-218 | every call keeps the log in step with the stages: one request event exactly when requested, one attestation exactly when released, and only existing ids logged |
| `History.RunAudited` | smart-contract/src/lib.rs:211-295 | every history keeps the log in step with the stages |
| `History.AtMostOnce` | smart-contract/src/lib.rs:267-269 | from deployment on, whatever the calls, each milestone id is requested at most once and confirmed at most once |
| `History.SecondRequestFails` | smart-contract/src/lib.rs:202-204 | after an accepted request, any request for the same milestone fails (`AlreadyRequested` when sent by the oracle) and the stored hash is the first one |
| `History.SecondConfirmFails` | smart-contract/src/lib.rs:267-269 | after an accepted confirmation, any confirmation for the same milestone fails (`AlreadyReleased` when sent by the client) |
| `History.RejectionIsIdempotent` | smart-contract/src/lib.rs:185-204 | a rejected call leaves the ledger unchanged, so repeating it is rejected with the same error |
| `History.CallerIsolation` | smart-contract/src/lib.rs:185-252 | when client and oracle differ, a request by the client fails request's guard (lines 185-190) and a confirmation by the oracle fails confirm's guard (lines 248-252), both with `Unauthorized` |
| `History.EndToEnd` | smart-contract/src/lib.rs:207-218 | init with one amount, a request by the oracle and a confirmation by the client log exactly the two events, and the view shows both hashes and both times |

## Left out

- `Transitions.Init`'s rejection is the host's built-in parse-error reject (`Reject::from(ParseError::default())`, lib.rs:134), whose reject code differs from that of the `ContractError::ParseError` variant; the model writes it as `ParseError` and does not model reject codes.
- Parameter parsing (`parameter_cursor().get()` and its `ParseError`) and the schema derivations. Parameters are typed arguments.
- A failed log write (`LogError`). The log is an append-only sequence that always accepts an event. The error value exists in `ContractError` but is never produced.
- Block time. It is a `now` argument of each call, and no relation between the times of different calls is assumed.
- `project_id` and `plt_decimals` are kept as constant display data that is copied into events and never checked.
- Machine-integer widths are modelled as integer ranges. The code does no arithmetic on them, and a `u32` id always fits in `usize`.
- The in-place write through `get_mut` is modelled as replacing the element of the `milestones` sequence with an updated record. No aliasing of the record is modelled.
- The off-chain token transfer, the hashing of the work artifact, the evaluator, the webhook and the command-line tool. They are not part of this model, and the contract only stores the opaque 32-byte values they produce.
- Host execution (panics, gas, transaction rollback). The only panic in the code is the `expect` at line 278, which is proved unreachable in every reachable state.
