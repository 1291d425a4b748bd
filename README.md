# Read-write transactions of the Cloud Spanner Rust client, in Dafny

This project models the client side of a locking read-write transaction in
the Cloud Spanner client (`ReadWriteTransaction` in
`spanner/src/transaction_rw.rs`) and proves what that code promises.

- A transaction is begun on a leased session. A failed begin hands that very
  session back inside a `BeginError`. A successful one yields a transaction
  holding the server's id, an empty write buffer and sequence number 0.
- `buffer_write` appends mutations to the write buffer and sends nothing.
- `update` and `batch_update` stamp the current sequence number on their
  request and then increment it, even when the call then fails. Row counts
  are taken from the response statistics: the exact count, else the lower
  bound, else 0.
- `commit` sends the write buffer verbatim under the transaction's id.
  `rollback` sends the transaction id. Neither changes the transaction.
- `finish` is the finalization policy. A successful caller result is
  committed, and a failed commit is returned without a rollback. A failure
  carrying no gRPC status, or any status other than ABORTED and NOT_FOUND,
  is rolled back. The original failure is then returned and the rollback's
  own answer is ignored. ABORTED and NOT_FOUND failures are returned with no
  request at all.

The network is an oracle: every operation that sends a request takes the
server's answer (a value or a `Grpc.Status`) as a parameter. The session
(`SpannerApi.ManagedSession`) records, in the ghost field `log`, every
request sent through it. The contracts say exactly which requests each
operation appends, with the fields this client fills in.

The transaction's invariant `ReadWriteTransaction.Valid` says three things.
Its part of the session log starts with its begin request. Every request in
that part goes to this session and names this transaction's id. The
sequence numbers on the wire are exactly 0, 1, ..., `sequenceNumber - 1`,
in sending order.

Files:

- `wrappers.dfy`: `Option` and `Result` (`Ok`/`Err`, as in Rust).
- `grpc.dfy`: gRPC status codes and `Status`, as `tonic` has them.
- `spanner_api.dfy`: the Spanner v1 messages used here, the request log
  entry `Rpc`, and the session class.
- `transaction_rw.dfy`: the transaction class, the free function `commit`,
  `Decide`, `ExtractRowCount` and the sequence-number lemmas.
- `scenarios.dfy`: two client runs proved from the contracts alone, one
  that commits and one whose caller result is ABORTED.

The generic error type of `finish` (Rust's `E: AsTonicStatus +
From<tonic::Status>`) is modelled by two function parameters.
`asStatus: E -> Option<Status>` plays `as_tonic_status`, and
`fromStatus: Status -> E` plays `E::from`.

Three points of the code's behaviour that the model keeps as they are:

- The code has no "already finished" state. A second `finish` applies the
  table again, so `Finish` requires and re-establishes `Valid`.
- When the rollback branch is taken, the code always returns the caller's
  original failure. It never reports a failed rollback.
- The transaction's own `commit` always selects the transaction by id. Only
  the free function `commit` accepts any `commit_request::Transaction`.

## Model

| member | source | states |
|---|---|---|
| `TransactionRw.CommitOptionsOrDefault` | spanner/src/transaction_rw.rs:269-272 | The caller's commit options are used when given; otherwise commit statistics are not requested (the `Default` at lines 35-42). |
| `TransactionRw.Decide` | spanner/src/transaction_rw.rs:274-305 | Commit exactly when the caller's result is `Ok`. Send nothing exactly when it is an `Err` whose status is ABORTED or NOT_FOUND. Roll back exactly when it is an `Err` with no status or any other status. |
| `TransactionRw.ExtractRowCount` | spanner/src/transaction_rw.rs:358-369 | An exact or lower-bound row count gives that count; missing statistics or a missing row count gives 0. |
| `TransactionRw.RowCounts` | spanner/src/transaction_rw.rs:253-258 | One count per result set, as many as the response has, each extracted from the result set at the same position. |
| `TransactionRw.SeqnosStrictlyIncrease` | spanner/src/transaction_rw.rs:208 | If the stamped sequence numbers are 0 .. n-1 (what `Valid` keeps), there are n of them, the first is 0, and they strictly increase, so none repeats. |
| `TransactionRw.CommitOnSession` | spanner/src/transaction_rw.rs:334-356 | Sends one commit carrying the session name, the given mutations verbatim, the given transaction and the statistics flag; returns the server's answer unchanged. |
| `TransactionRw.ReadWriteTransaction.constructor` | spanner/src/transaction_rw.rs:169-180 | The new transaction is bound to the session, holds the id with selector `Id(id)`, an empty buffer and sequence number 0, and satisfies `Valid`. |
| `TransactionRw.ReadWriteTransaction.BeginInternal` | spanner/src/transaction_rw.rs:146-181 | Sends one begin request for the given mode. It fails exactly when the begin fails, and then returns the status with the very session it was given. On success it returns a fresh valid transaction on that session with the returned id, selector `Id` of that id, an empty buffer and sequence number 0. |
| `TransactionRw.ReadWriteTransaction.Begin` | spanner/src/transaction_rw.rs:122-132 | As `BeginInternal`, with mode ReadWrite on the wire. |
| `TransactionRw.ReadWriteTransaction.BeginPartitionedDml` | spanner/src/transaction_rw.rs:134-144 | As `BeginInternal`, with mode PartitionedDml on the wire. |
| `TransactionRw.ReadWriteTransaction.BufferWrite` | spanner/src/transaction_rw.rs:183-185 | The buffer becomes the old buffer followed by the new mutations in order; no request is sent; the sequence number is unchanged. |
| `TransactionRw.ReadWriteTransaction.Update` | spanner/src/transaction_rw.rs:187-220 | Sends one SQL request stamped with the old sequence number under selector `Id(txId)`. The counter goes up by exactly one whatever the answer. The result is the extracted row count, or the call's status unchanged. `Valid` is kept. |
| `TransactionRw.ReadWriteTransaction.BatchUpdate` | spanner/src/transaction_rw.rs:222-259 | Sends one batch request carrying all statements under one sequence number. The counter goes up by exactly one whatever the answer. The result is one row count per result set in response order, or the call's status unchanged. |
| `TransactionRw.ReadWriteTransaction.Commit` | spanner/src/transaction_rw.rs:309-317 | Sends one commit with the whole write buffer in insertion order and `TransactionId(txId)`. Returns the server's answer unchanged. The buffer and the sequence number are unchanged. |
| `TransactionRw.ReadWriteTransaction.Rollback` | spanner/src/transaction_rw.rs:319-331 | Sends one rollback carrying the session name and this transaction's id; returns the server's answer unchanged. |
| `TransactionRw.ReadWriteTransaction.Finish` | spanner/src/transaction_rw.rs:261-307 | On `Ok(s)` it sends exactly one commit and no rollback, and returns `(commit timestamp, s)` or the commit failure converted by `E::from`. On a failure that `Decide` marks for rollback it sends exactly one rollback and returns the original failure, whatever the rollback answered. On ABORTED or NOT_FOUND it sends nothing and returns the original failure. |
| `Scenarios.CommitScenario` | spanner/src/transaction_rw.rs:274-281 | Begin, two buffered writes and an update with exact count 3, then finish with success. The update returns 3, and the requests sent are begin, one SQL request with seqno 0, and a commit of both mutations in order under the begun id. |
| `Scenarios.AbortScenario` | spanner/src/transaction_rw.rs:297-299 | Same run, but the caller's result is ABORTED. Finish sends no commit and no rollback, and returns the ABORTED status itself. |

## Left out

- The async runtime, the gRPC transport and the generated client stubs. Each RPC's answer is a parameter of the operation that sends it.
- `ManagedSession::invalidate_if_needed` and the session pool are not part of this model. Every answer passes through unchanged, and the session's validity flag is not modelled.
- Request priority, call settings and retry/backoff settings (`CallOptions`, `create_request_options`, the rollback's retry setting) are forwarded verbatim by the source and are not modelled.
- Query options, query mode, SQL parameters and parameter types of statements are not modelled; a statement is its SQL text.
- Mutations, timestamps and commit statistics are opaque values.
- The `Deref`/`DerefMut` plumbing to the base `Transaction` is flattened: its session, sequence number and selector are fields of `ReadWriteTransaction`.
- `TransactionRw.ReadWriteTransaction.Update`: the sequence number is an unbounded natural. The source's `AtomicI64::fetch_add` would wrap after 2^63 statements in one transaction, which is not modelled. Its memory ordering does not matter for a single-owner transaction.
- `TransactionRw.ReadWriteTransaction.BatchUpdate`: the batch response's own status field is not read, as in the source; statement-level failures inside a successful batch are not modelled.
