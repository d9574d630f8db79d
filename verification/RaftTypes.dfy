/** Messages and server state of the Raft library, as values. */
module RaftTypes {
  import opened LogModel

  datatype Entry = Entry(term: nat, data: int)

  datatype Role = Follower | Candidate | Leader

  /** What a server keeps about one member of its configuration. */
  datatype Peer = Peer(nextIdx: nat, matchIdx: nat, granted: bool)

  const NOBODY := -1

  /** `delivered` is the sequence of entries handed to the applylog callback. */
  datatype Server = Server(
    me: nat,
    term: nat,
    votedFor: int,
    role: Role,
    log: Log<Entry>,
    commit: nat,
    applied: nat,
    logBase: nat,
    compacted: nat,
    logTarget: nat,
    peers: seq<Peer>,
    delivered: seq<Entry>)

  datatype VoteRequest = VoteRequest(term: nat, candidate: nat, lastIdx: nat, lastTerm: nat)

  datatype VoteReply = VoteReply(term: nat, granted: bool)

  /** prevTerm is -1 when the sender has already compacted the previous entry. */
  datatype AppendEntries = AppendEntries(
    term: nat, prevIdx: nat, prevTerm: int, leaderCommit: nat, entries: seq<Entry>)

  datatype AppendReply = AppendReply(term: nat, success: bool, currentIdx: nat, firstIdx: nat)

  /** A handler either completes, or stops the process: a C assert failed, a null
      entry was read, or exit was called. */
  datatype Outcome<T> = Abort | Done(server: Server, reply: T)
}
