/** The messages exchanged by the transaction manager and its workers,
    and the limits both sides are compiled with
    (transaction_management/msg.h, transaction_management/tworker.h). */
module Messages {
  /** Transaction identifier; 0 marks an empty slot of the manager's table. */
  type Tid = nat

  /** A worker is identified by its command port. */
  type NodeId = nat

  const MAX_NODES: nat := 10
  const MAX_TRANS: nat := 5

  /** The numeric codes the manager stores as votes and computes decisions with. */
  const VOTE_ABORT: nat := 1011
  const ABORT: nat := 1009
  const VOTE_COMMIT: nat := 1012
  const POLL_DECISION: nat := 1019
  const DECIDE_ABORT: nat := 2000
  const DECIDE_COMMIT: nat := 2001
  const WAIT: nat := 2002

  /** `w` is the worker the message comes from or goes to; the manager is unique. */
  datatype Msg =
    | Begin(t: Tid, w: NodeId)
    | Join(t: Tid, w: NodeId)
    | CommitReq(t: Tid, w: NodeId)
    | VoteCommit(t: Tid, w: NodeId)
    | VoteAbort(t: Tid, w: NodeId)
    | Poll(t: Tid, w: NodeId)
    | BeginReply(t: Tid, w: NodeId, ok: bool)
    | JoinSuccess(t: Tid, w: NodeId)
    | JoinFail(t: Tid, w: NodeId)
    | Prepare(t: Tid, w: NodeId)
    | Decide(t: Tid, w: NodeId, commit: bool)
  {
    predicate ToManager() {
      Begin? || Join? || CommitReq? || VoteCommit? || VoteAbort? || Poll?
    }
  }

  datatype Option<+T> = None | Some(value: T)

  /** One slot of a vector clock; `nodeId` 0 marks an unused slot. */
  datatype Entry = Entry(nodeId: nat, time: nat)
}
