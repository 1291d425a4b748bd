/**
 * The client side of a locking read-write transaction: begin, buffered
 * writes, DML with sequence numbers, commit, rollback, and the finalization
 * policy that chooses between commit, rollback and leaving the transaction
 * alone.
 *
 * Every request the transaction sends is appended to the `log` of the
 * session it owns; the server's answer to each request is a parameter of
 * the operation that sends it.
 */
module TransactionRw {
  import opened Wrappers
  import opened SpannerApi
  import Grpc

  /** Options of a commit; the call options (priority, retry) are not modelled. */
  datatype CommitOptions = CommitOptions(returnCommitStats: bool)

  /** The options used when the caller gives none: no commit statistics. */
  function CommitOptionsOrDefault(options: Option<CommitOptions>): (opt: CommitOptions)
    ensures options.Some? ==> opt == options.value
    ensures options.None? ==> !opt.returnCommitStats
  {
    options.GetOr(CommitOptions(false))
  }

  /** A failed begin hands the session back to the caller together with the failure. */
  datatype BeginError = BeginError(status: Grpc.Status, session: ManagedSession)

  /** The three things finalization can do. */
  datatype Finalization =
    | CommitTx            // send a commit and return its outcome
    | RollbackThenReturn  // send a rollback, ignore its outcome, return the original error
    | ReturnUntouched     // send nothing and return the original error

  /**
   * The finalization policy. A successful caller result is committed. A
   * failure that reports no gRPC status is rolled back; one whose status is
   * ABORTED or NOT_FOUND is left alone; any other status is rolled back.
   */
  function Decide<T, E>(result: Result<T, E>, asStatus: E -> Option<Grpc.Status>): (d: Finalization)
    ensures d == CommitTx <==> result.Ok?
    ensures d == ReturnUntouched <==>
      result.Err? && asStatus(result.error).Some? &&
      asStatus(result.error).value.code in {Grpc.Aborted, Grpc.NotFound}
    ensures d == RollbackThenReturn <==>
      result.Err? && (asStatus(result.error).None? ||
                      asStatus(result.error).value.code !in {Grpc.Aborted, Grpc.NotFound})
  {
    match result
    case Ok(_) => CommitTx
    case Err(err) =>
      match asStatus(err)
      case None => RollbackThenReturn
      case Some(status) =>
        match status.code
        case Aborted => ReturnUntouched
        case NotFound => ReturnUntouched
        case _ => RollbackThenReturn
  }

  /**
   * The number of rows a DML statement affected: the exact count, or the
   * lower bound when only that is known, or 0 when the response carries no
   * statistics or no row count.
   */
  function ExtractRowCount(rs: Option<ResultSetStats>): (count: I64)
    ensures rs.Some? && rs.value.rowCount.Some? ==> count == rs.value.rowCount.value.rows
    ensures rs.None? || rs.value.rowCount.None? ==> count == 0
  {
    match rs
    case Some(stats) =>
      (match stats.rowCount
       case Some(RowCountExact(v)) => v
       case Some(RowCountLowerBound(v)) => v
       case None => 0)
    case None => 0
  }

  /** One row count per result set of a batch, in the order of the response. */
  function RowCounts(resultSets: seq<ResultSet>): (counts: seq<I64>)
    ensures |counts| == |resultSets|
    ensures forall i :: 0 <= i < |resultSets| ==> counts[i] == ExtractRowCount(resultSets[i].stats)
  {
    if resultSets == [] then []
    else [ExtractRowCount(resultSets[0].stats)] + RowCounts(resultSets[1..])
  }

  /** The sequence number a request puts on the wire, if it carries one. */
  function Stamp(rpc: Rpc): seq<int> {
    match rpc
    case ExecuteSqlRequest(_, _, _, seqno) => [seqno]
    case ExecuteBatchDmlRequest(_, _, _, seqno) => [seqno]
    case _ => []
  }

  /** The sequence numbers a run of requests puts on the wire, in sending order. */
  function Seqnos(log: seq<Rpc>): seq<int> {
    if log == [] then [] else Stamp(log[0]) + Seqnos(log[1..])
  }

  lemma {:induction false} SeqnosConcat(a: seq<Rpc>, b: seq<Rpc>)
    ensures Seqnos(a + b) == Seqnos(a) + Seqnos(b)
  {
    if a == [] {
      assert a + b == b;
    } else {
      assert (a + b)[1..] == a[1..] + b;
      SeqnosConcat(a[1..], b);
    }
  }

  /** The numbers 0, 1, ..., n - 1 in increasing order. */
  function Iota(n: nat): seq<int> {
    seq(n, i => i)
  }

  /**
   * If the sequence numbers of a run of requests are 0 .. n - 1, they start
   * at 0, strictly increase, and so never repeat.
   */
  lemma SeqnosStrictlyIncrease(log: seq<Rpc>, n: nat)
    requires Seqnos(log) == Iota(n)
    ensures |Seqnos(log)| == n
    ensures n > 0 ==> Seqnos(log)[0] == 0
    ensures forall i, j :: 0 <= i < j < n ==> Seqnos(log)[i] < Seqnos(log)[j]
  {
  }

  /**
   * Whether a request belongs to the transaction with id `txId` on the
   * session named `sessionName`: it goes to that session, and every
   * transaction reference it carries is that id.
   */
  predicate Carries(rpc: Rpc, sessionName: string, txId: Bytes) {
    match rpc
    case BeginTransactionRequest(s, _) => s == sessionName
    case ExecuteSqlRequest(s, sel, _, _) => s == sessionName && sel == Id(txId)
    case ExecuteBatchDmlRequest(s, sel, _, _) => s == sessionName && sel == Id(txId)
    case CommitRequest(s, _, tx, _) => s == sessionName && tx == TransactionId(txId)
    case RollbackRequest(s, id) => s == sessionName && id == txId
  }

  /**
   * The free function `commit`: sends a commit for `tx` carrying `ms`
   * verbatim and the caller's statistics flag, and returns the server's
   * answer unchanged.
   */
  method CommitOnSession(session: ManagedSession, ms: seq<Mutation>, tx: CommitTransaction,
                         options: CommitOptions, response: Result<CommitResponse, Grpc.Status>)
    returns (r: Result<CommitResponse, Grpc.Status>)
    modifies session
    ensures session.log == old(session.log) + [CommitRequest(session.name, ms, tx, options.returnCommitStats)]
    ensures r == response
  {
    session.log := session.log + [CommitRequest(session.name, ms, tx, options.returnCommitStats)];
    r := response;
  }

  /**
   * A locking read-write transaction bound to one session. `logStart` marks
   * where this transaction's requests begin in the session's log: at its
   * begin request.
   */
  class ReadWriteTransaction {
    const session: ManagedSession
    const txId: Bytes
    const selector: TransactionSelector
    var sequenceNumber: nat
    var wb: seq<Mutation>
    ghost const mode: Mode
    ghost const logStart: nat

    /** This transaction's requests, from its begin request on. */
    ghost function TxLog(): seq<Rpc>
      reads this, session
      requires logStart <= |session.log|
    {
      session.log[logStart..]
    }

    /**
     * Everything about the log except the sequence numbers: it starts with
     * the begin request for `mode`, and every request in it belongs to this
     * transaction and this session.
     */
    ghost predicate WellFormedLog()
      reads this, session
    {
      && logStart < |session.log|
      && selector == Id(txId)
      && session.log[logStart] == BeginTransactionRequest(session.name, mode)
      && (forall i | logStart <= i < |session.log| :: Carries(session.log[i], session.name, txId))
    }

    /**
     * The object invariant: a well-formed log whose sequence numbers are
     * exactly 0 .. sequenceNumber - 1, in sending order.
     */
    ghost predicate Valid()
      reads this, session
    {
      WellFormedLog() && Seqnos(TxLog()) == Iota(sequenceNumber)
    }

    /** The transaction state right after a successful begin. */
    constructor (session: ManagedSession, id: Bytes, ghost mode: Mode)
      requires |session.log| > 0
      requires session.log[|session.log| - 1] == BeginTransactionRequest(session.name, mode)
      ensures Valid()
      ensures this.session == session && txId == id && selector == Id(id) && this.mode == mode
      ensures sequenceNumber == 0 && wb == []
      ensures TxLog() == [BeginTransactionRequest(session.name, mode)]
    {
      this.session := session;
      txId := id;
      selector := Id(id);
      sequenceNumber := 0;
      wb := [];
      this.mode := mode;
      logStart := |session.log| - 1;
      new;
      assert TxLog() == [BeginTransactionRequest(session.name, mode)];
      assert Seqnos(TxLog()) == [] by {
        assert TxLog()[1..] == [];
      }
    }

    /** Records that `rpc`, which belongs to this transaction, was sent. */
    ghost method Send(rpc: Rpc)
      requires WellFormedLog()
      requires Carries(rpc, session.name, txId)
      modifies session
      ensures WellFormedLog()
      ensures session.log == old(session.log) + [rpc]
      ensures Seqnos(TxLog()) == old(Seqnos(TxLog())) + Stamp(rpc)
    {
      ghost var before := TxLog();
      session.log := session.log + [rpc];
      assert TxLog() == before + [rpc];
      SeqnosConcat(before, [rpc]);
      assert Seqnos([rpc]) == Stamp(rpc) by {
        assert [rpc][1..] == [];
      }
    }

    /**
     * `begin_internal`: sends a begin request for `mode`. On failure the very
     * session it was given comes back inside the error; on success the new
     * transaction holds the returned id, an empty write buffer and sequence
     * number 0.
     */
    static method BeginInternal(session: ManagedSession, mode: Mode,
                                response: Result<TransactionInfo, Grpc.Status>)
      returns (r: Result<ReadWriteTransaction, BeginError>)
      modifies session
      ensures session.log == old(session.log) + [BeginTransactionRequest(session.name, mode)]
      ensures r.Err? <==> response.Err?
      ensures r.Err? ==> r.error == BeginError(response.error, session)
      ensures r.Ok? ==> && fresh(r.value) && r.value.Valid()
                        && r.value.session == session && r.value.mode == mode
                        && r.value.txId == response.value.id && r.value.selector == Id(response.value.id)
                        && r.value.wb == [] && r.value.sequenceNumber == 0
                        && r.value.TxLog() == [BeginTransactionRequest(session.name, mode)]
    {
      session.log := session.log + [BeginTransactionRequest(session.name, mode)];
      match response {
        case Err(status) =>
          r := Err(BeginError(status, session));
        case Ok(tx) =>
          var t := new ReadWriteTransaction(session, tx.id, mode);
          r := Ok(t);
      }
    }

    /** `begin`: a transaction in full read-write mode. */
    static method Begin(session: ManagedSession, response: Result<TransactionInfo, Grpc.Status>)
      returns (r: Result<ReadWriteTransaction, BeginError>)
      modifies session
      ensures session.log == old(session.log) + [BeginTransactionRequest(session.name, ReadWrite)]
      ensures r.Err? <==> response.Err?
      ensures r.Err? ==> r.error == BeginError(response.error, session)
      ensures r.Ok? ==> && fresh(r.value) && r.value.Valid()
                        && r.value.session == session && r.value.mode == ReadWrite
                        && r.value.txId == response.value.id
                        && r.value.wb == [] && r.value.sequenceNumber == 0
    {
      r := BeginInternal(session, ReadWrite, response);
    }

    /** `begin_partitioned_dml`: a transaction in partitioned-DML mode. */
    static method BeginPartitionedDml(session: ManagedSession, response: Result<TransactionInfo, Grpc.Status>)
      returns (r: Result<ReadWriteTransaction, BeginError>)
      modifies session
      ensures session.log == old(session.log) + [BeginTransactionRequest(session.name, PartitionedDml)]
      ensures r.Err? <==> response.Err?
      ensures r.Err? ==> r.error == BeginError(response.error, session)
      ensures r.Ok? ==> && fresh(r.value) && r.value.Valid()
                        && r.value.session == session && r.value.mode == PartitionedDml
                        && r.value.txId == response.value.id
                        && r.value.wb == [] && r.value.sequenceNumber == 0
    {
      r := BeginInternal(session, PartitionedDml, response);
    }

    /** `buffer_write`: appends `ms` to the write buffer, in order, sending nothing. */
    method BufferWrite(ms: seq<Mutation>)
      requires Valid()
      modifies this`wb
      ensures Valid()
      ensures wb == old(wb) + ms
      ensures sequenceNumber == old(sequenceNumber)
      ensures session.log == old(session.log)
    {
      wb := wb + ms;
    }

    /**
     * `update`: runs one DML statement stamped with the current sequence
     * number, which is consumed whether or not the call succeeds, and
     * returns the affected row count or the call's failure.
     */
    method Update(stmt: Statement, response: Result<ResultSet, Grpc.Status>)
      returns (r: Result<I64, Grpc.Status>)
      requires Valid()
      modifies this`sequenceNumber, session
      ensures Valid()
      ensures sequenceNumber == old(sequenceNumber) + 1
      ensures wb == old(wb)
      ensures session.log == old(session.log) + [ExecuteSqlRequest(session.name, Id(txId), stmt.sql, old(sequenceNumber))]
      ensures response.Ok? ==> r == Ok(ExtractRowCount(response.value.stats))
      ensures response.Err? ==> r == Err(response.error)
    {
      var seqno := sequenceNumber;
      sequenceNumber := sequenceNumber + 1;
      Send(ExecuteSqlRequest(session.name, selector, stmt.sql, seqno));
      assert Iota(seqno) + [seqno] == Iota(sequenceNumber);
      match response {
        case Ok(rs) => r := Ok(ExtractRowCount(rs.stats));
        case Err(status) => r := Err(status);
      }
    }

    /**
     * `batch_update`: runs a batch of DML statements under one sequence
     * number and returns one row count per result set, in order, or the
     * call's failure.
     */
    method BatchUpdate(stmts: seq<Statement>, response: Result<ExecuteBatchDmlResponse, Grpc.Status>)
      returns (r: Result<seq<I64>, Grpc.Status>)
      requires Valid()
      modifies this`sequenceNumber, session
      ensures Valid()
      ensures sequenceNumber == old(sequenceNumber) + 1
      ensures wb == old(wb)
      ensures session.log == old(session.log) + [ExecuteBatchDmlRequest(session.name, Id(txId), stmts, old(sequenceNumber))]
      ensures response.Ok? ==> r.Ok? && |r.value| == |response.value.resultSets|
      ensures response.Ok? ==> r == Ok(RowCounts(response.value.resultSets))
      ensures response.Err? ==> r == Err(response.error)
    {
      var seqno := sequenceNumber;
      sequenceNumber := sequenceNumber + 1;
      Send(ExecuteBatchDmlRequest(session.name, selector, stmts, seqno));
      assert Iota(seqno) + [seqno] == Iota(sequenceNumber);
      match response {
        case Ok(batch) => r := Ok(RowCounts(batch.resultSets));
        case Err(status) => r := Err(status);
      }
    }

    /**
     * `commit`: commits the write buffer, verbatim and in insertion order,
     * under this transaction's id. The buffer, the id and the sequence
     * number stay as they were.
     */
    method Commit(options: CommitOptions, response: Result<CommitResponse, Grpc.Status>)
      returns (r: Result<CommitResponse, Grpc.Status>)
      requires Valid()
      modifies session
      ensures Valid()
      ensures wb == old(wb) && sequenceNumber == old(sequenceNumber)
      ensures session.log == old(session.log) + [CommitRequest(session.name, wb, TransactionId(txId), options.returnCommitStats)]
      ensures r == response
    {
      assert Carries(CommitRequest(session.name, wb, TransactionId(txId), options.returnCommitStats), session.name, txId);
      r := CommitOnSession(session, wb, TransactionId(txId), options, response);
      SeqnosConcat(old(session.log)[logStart..], [CommitRequest(session.name, wb, TransactionId(txId), options.returnCommitStats)]);
      assert TxLog() == old(session.log)[logStart..] + [CommitRequest(session.name, wb, TransactionId(txId), options.returnCommitStats)];
    }

    /** `rollback`: rolls back this transaction and returns the server's answer. */
    method Rollback(response: Result<(), Grpc.Status>) returns (r: Result<(), Grpc.Status>)
      requires Valid()
      modifies session
      ensures Valid()
      ensures wb == old(wb) && sequenceNumber == old(sequenceNumber)
      ensures session.log == old(session.log) + [RollbackRequest(session.name, txId)]
      ensures r == response
    {
      Send(RollbackRequest(session.name, txId));
      r := response;
    }

    /**
     * `finish`: finalizes the transaction according to `Decide`. A success
     * is committed and the commit's outcome returned (its failure converted
     * with `fromStatus`, never followed by a rollback). A failure is returned
     * unchanged, after a rollback whose own outcome is ignored, or with no
     * request at all for ABORTED and NOT_FOUND. Nothing marks the transaction
     * as finished: a second call decides afresh.
     */
    method Finish<T, E>(result: Result<T, E>, options: Option<CommitOptions>,
                        asStatus: E -> Option<Grpc.Status>, fromStatus: Grpc.Status -> E,
                        commitResponse: Result<CommitResponse, Grpc.Status>,
                        rollbackResponse: Result<(), Grpc.Status>)
      returns (r: Result<(Option<Timestamp>, T), E>)
      requires Valid()
      modifies session
      ensures Valid()
      ensures wb == old(wb) && sequenceNumber == old(sequenceNumber)
      ensures Decide(result, asStatus) == CommitTx ==>
        && session.log == old(session.log) +
             [CommitRequest(session.name, wb, TransactionId(txId), CommitOptionsOrDefault(options).returnCommitStats)]
        && (commitResponse.Ok? ==> r == Ok((commitResponse.value.commitTimestamp, result.value)))
        && (commitResponse.Err? ==> r == Err(fromStatus(commitResponse.error)))
      ensures Decide(result, asStatus) == RollbackThenReturn ==>
        session.log == old(session.log) + [RollbackRequest(session.name, txId)] && r == Err(result.error)
      ensures Decide(result, asStatus) == ReturnUntouched ==>
        session.log == old(session.log) && r == Err(result.error)
    {
      var opt := CommitOptionsOrDefault(options);
      match result {
        case Ok(s) =>
          var c := Commit(opt, commitResponse);
          match c {
            case Ok(resp) => r := Ok((resp.commitTimestamp, s));
            case Err(e) => r := Err(fromStatus(e));
          }
        case Err(err) =>
          match asStatus(err) {
            case None =>
              var _ := Rollback(rollbackResponse);
              r := Err(err);
            case Some(status) =>
              match status.code {
                case Aborted => r := Err(err);
                case NotFound => r := Err(err);
                case _ =>
                  var _ := Rollback(rollbackResponse);
                  r := Err(err);
              }
          }
      }
    }
  }
}
