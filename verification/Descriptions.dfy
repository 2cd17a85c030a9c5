/** What one process has to know about a buffer of another in order to write into it. */
module Descriptions {

  datatype BufferDescription = BufferDescription(
    rank: nat, segmentId: nat, offset: nat, size: nat, notificationId: nat)
}
