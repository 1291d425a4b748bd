/**
 * Two client runs of a read-write transaction, proved from the contracts of
 * its operations alone. The caller's error type here is `Grpc.Status`
 * itself, which reports itself as its status and converts from a status
 * unchanged.
 */
module Scenarios {
  import opened Wrappers
  import opened SpannerApi
  import opened TransactionRw
  import Grpc

  /**
   * Begin, buffer two mutations, run one update that reports an exact count
   * of 3, and finish with a successful result: the update returns 3 and
   * finish commits both mutations, in order, under the begun id, returning
   * the commit timestamp. No rollback is sent.
   */
  method CommitScenario(session: ManagedSession, id: Bytes, m1: Mutation, m2: Mutation, stmt: Statement, ts: Timestamp)
    returns (count: Result<I64, Grpc.Status>, outcome: Result<(Option<Timestamp>, ()), Grpc.Status>)
    modifies session
    ensures count == Ok(3)
    ensures outcome == Ok((Some(ts), ()))
    ensures session.log == old(session.log) + [
      BeginTransactionRequest(session.name, ReadWrite),
      ExecuteSqlRequest(session.name, Id(id), stmt.sql, 0),
      CommitRequest(session.name, [m1, m2], TransactionId(id), false)]
  {
    var begun := ReadWriteTransaction.Begin(session, Ok(TransactionInfo(id)));
    var tx := begun.value;
    tx.BufferWrite([m1]);
    tx.BufferWrite([m2]);
    assert tx.wb == [m1, m2];
    count := tx.Update(stmt, Ok(ResultSet(Some(ResultSetStats(Some(RowCountExact(3)))))));
    outcome := tx.Finish(Ok(()), None, (s: Grpc.Status) => Some(s), (s: Grpc.Status) => s,
                         Ok(CommitResponse(Some(ts), None)), Ok(()));
  }

  /**
   * The same run, but the caller's result is an ABORTED failure: finish
   * sends nothing, returns that failure as it was, and ignores the commit and
   * rollback answers it was offered.
   */
  method AbortScenario(session: ManagedSession, id: Bytes, m1: Mutation, m2: Mutation, stmt: Statement,
                       aborted: Grpc.Status, commitResponse: Result<CommitResponse, Grpc.Status>,
                       rollbackResponse: Result<(), Grpc.Status>)
    returns (outcome: Result<(Option<Timestamp>, ()), Grpc.Status>)
    requires aborted.code == Grpc.Aborted
    modifies session
    ensures outcome == Err(aborted)
    ensures session.log == old(session.log) + [
      BeginTransactionRequest(session.name, ReadWrite),
      ExecuteSqlRequest(session.name, Id(id), stmt.sql, 0)]
  {
    var begun := ReadWriteTransaction.Begin(session, Ok(TransactionInfo(id)));
    var tx := begun.value;
    tx.BufferWrite([m1, m2]);
    var _ := tx.Update(stmt, Ok(ResultSet(Some(ResultSetStats(Some(RowCountExact(3)))))));
    outcome := tx.Finish(Err(aborted), None, (s: Grpc.Status) => Some(s), (s: Grpc.Status) => s,
                         commitResponse, rollbackResponse);
  }
}
