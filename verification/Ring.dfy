/**
 The vocabulary shared by the worker and the kernel: submission and completion queue
 entries, connection records, and the events a run leaves behind.

 A connection record is named by its address, the value an SQE carries as user_data.
 Every accepted connection has an identity (`ConnId`) that is never reused, unlike its
 descriptor and its record. The fields `conn`, `desc` and `payload` of queue entries
 and records that mention it are bookkeeping of the model: no branch of the worker
 reads them.
 */
module Ring {
  import opened Basics

  type Addr = nat
  type ConnId = nat

  const QUEUE_DEPTH: nat := 4096
  const CQE_BATCH: nat := 256
  const FREELIST_WARM: nat := 128

  /** The parts of the server configuration that steer a worker. `direct` is the
      worker's flag: the registered descriptor table is active. */
  datatype Config = Config(direct: bool, multishot: bool, recvBuf: nat, replyCap: nat)

  /** A descriptor: a slot of the registered table when `fixed`, else a process fd. */
  datatype Desc = Desc(fixed: bool, num: int)

  /** Sends and closes carry no user data; an accept carries the worker's marker. */
  datatype Sqe =
    | Accept(direct: bool, multishot: bool)
    | Recv(rec: Addr, desc: Desc, len: nat, conn: ConnId)
    | Send(desc: Desc, len: nat, conn: ConnId)
    | Close(desc: Desc, conn: ConnId)

  datatype UserData = Null | Marker | Ref(rec: Addr)

  /** The worker reads `data`, `res` and `more` only. */
  datatype Cqe = Cqe(data: UserData, res: int, more: bool, conn: ConnId, desc: Desc, payload: Bytes)

  datatype ConnState = StAccept | StRecv

  datatype Record = Record(state: ConnState, fd: int, buf: Bytes, conn: ConnId)

  /** What a worker does to the outside while it drains one completion. */
  datatype Act =
    | Issue(sqe: Sqe)
    | SyncClose(desc: Desc, conn: ConnId)
    | Call(conn: ConnId, req: Bytes, rlen: int, scratch: Bytes)
    | Leak(desc: Desc, conn: ConnId)

  /** One entry of the history of a run. `conn` is the connection the kernel resolved
      the descriptor to, `intended` the one the worker meant. */
  datatype Event =
    | Accepted(conn: ConnId)
    | RecvIssued(conn: ConnId, intended: ConnId)
    | Received(conn: ConnId, res: int, payload: Bytes)
    | Handled(conn: ConnId, req: Bytes, rlen: int, scratch: Bytes)
    | Sent(conn: ConnId, intended: ConnId, bytes: Bytes)
    | Closed(conn: ConnId, intended: ConnId)
    | Stray(intended: ConnId)
}
