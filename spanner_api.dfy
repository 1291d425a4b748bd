/**
 * The wire-level vocabulary of the Cloud Spanner v1 API that a read-write
 * transaction uses: transaction modes and selectors, the
 * requests it sends and the responses it reads, and the pooled session
 * through which every request goes.
 *
 * Message payloads that carry no logic here (SQL parameters, query options,
 * request priority, mutation contents, timestamps, commit statistics) are
 * kept as opaque values.
 */
module SpannerApi {
  import opened Wrappers

  type Bytes = seq<bv8>

  /** A signed 64-bit integer, the width of row counts on the wire. */
  type I64 = x: int | -0x8000_0000_0000_0000 <= x <= 0x7fff_ffff_ffff_ffff

  /** `transaction_options::Mode`: the locking semantics asked for at begin. */
  datatype Mode = ReadWrite | PartitionedDml

  /** `TransactionSelector`: which transaction a statement runs in. */
  datatype TransactionSelector =
    | SingleUse(singleUseMode: Mode)
    | Id(id: Bytes)
    | Begin(beginMode: Mode)

  /** `commit_request::Transaction`: which transaction a commit applies to. */
  datatype CommitTransaction =
    | TransactionId(transactionId: Bytes)
    | SingleUseTransaction(mode: Mode)

  /** A row mutation; its table, columns and values are an opaque encoding. */
  datatype Mutation = Mutation(encoded: Bytes)

  datatype Timestamp = Timestamp(seconds: int, nanos: int)

  datatype CommitStats = CommitStats(mutationCount: int)

  datatype CommitResponse = CommitResponse(commitTimestamp: Option<Timestamp>, commitStats: Option<CommitStats>)

  /** `result_set_stats::RowCount`: an exact count or, for partitioned DML, a lower bound. */
  datatype RowCount = RowCountExact(rows: I64) | RowCountLowerBound(rows: I64)

  /** `ResultSetStats`, of which only the row count matters here. */
  datatype ResultSetStats = ResultSetStats(rowCount: Option<RowCount>)

  /** `ResultSet`, of which only the statistics matter here (rows are not decoded). */
  datatype ResultSet = ResultSet(stats: Option<ResultSetStats>)

  /** `ExecuteBatchDmlResponse`: one result set per statement that ran. */
  datatype ExecuteBatchDmlResponse = ExecuteBatchDmlResponse(resultSets: seq<ResultSet>)

  /** The `Transaction` message that begin returns. */
  datatype TransactionInfo = TransactionInfo(id: Bytes)

  /** A SQL statement; its parameters and parameter types are not modelled. */
  datatype Statement = Statement(sql: string)

  /**
   * One request sent through a session, with the fields this core fills in.
   * A session's `log` is the sequence of these, in sending order.
   */
  datatype Rpc =
    | BeginTransactionRequest(session: string, mode: Mode)
    | ExecuteSqlRequest(session: string, transaction: TransactionSelector, sql: string, seqno: int)
    | ExecuteBatchDmlRequest(session: string, transaction: TransactionSelector, statements: seq<Statement>, seqno: int)
    | CommitRequest(session: string, mutations: seq<Mutation>, commitTransaction: CommitTransaction, returnCommitStats: bool)
    | RollbackRequest(session: string, transactionId: Bytes)

  /**
   * A session leased from the pool, and the RPC channel behind it.
   * The server's answers are not part of the session: each operation that
   * sends a request takes the response as a parameter. What the session does
   * record is every request sent through it.
   */
  class ManagedSession {
    const name: string
    ghost var log: seq<Rpc>

    constructor (name: string)
      ensures this.name == name && log == []
    {
      this.name := name;
      log := [];
    }
  }
}
