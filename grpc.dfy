/** gRPC failures as the `tonic` crate reports them. */
module Grpc {

  /** The gRPC status codes (`tonic::Code`). */
  datatype Code =
    | Ok | Cancelled | Unknown | InvalidArgument | DeadlineExceeded | NotFound
    | AlreadyExists | PermissionDenied | ResourceExhausted | FailedPrecondition
    | Aborted | OutOfRange | Unimplemented | Internal | Unavailable | DataLoss
    | Unauthenticated

  /** A failure as the server or the transport reports it (`tonic::Status`). */
  datatype Status = Status(code: Code, message: string)
}
