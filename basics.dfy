/** Small value types shared by the replication applier and the cluster
    endpoint handler. */
module Basics {

  datatype Option<+T> = None | Some(value: T)

  /** The error numbers (TRI_ERROR_*) that the modelled code raises or
      returns. Numbers the model never inspects, such as the code an agency
      read or an unlink reports, travel as Code(number). */
  datatype ErrorCode =
    | NoError                       // TRI_ERROR_NO_ERROR
    | Internal                      // TRI_ERROR_INTERNAL
    | Forbidden                     // TRI_ERROR_FORBIDDEN
    | Locked                        // TRI_ERROR_LOCKED
    | ReplicationRunning            // TRI_ERROR_REPLICATION_RUNNING
    | InvalidApplierConfiguration   // TRI_ERROR_REPLICATION_INVALID_APPLIER_CONFIGURATION
    | ApplierStopped                // TRI_ERROR_REPLICATION_APPLIER_STOPPED
    | Code(number: int)
}
