/** The Raft server as the original runs it: fields changed in place, with the original's
    loops over the log. Every method is the corresponding function of RaftNode on the state. */
module RaftServer {
  import opened RaftNode

  class Raft {
    const id: int
    const peers: nat
    var term: int
    var votedFor: int
    var role: Role
    var log: seq<Entry>
    var base: int
    var baseTerm: int
    var nextIndex: seq<int>
    var matchIndex: seq<int>
    var lastApplied: int
    var commitIndex: int
    var recvVotes: int
    var finishedVotes: int
    var cursor: int
    var dead: bool

    function State(): Node
      reads this
    {
      Node(id, peers, term, votedFor, role, log, base, baseTerm, nextIndex, matchIndex,
           lastApplied, commitIndex, recvVotes, finishedVotes, cursor, dead)
    }

    ghost predicate Valid()
      reads this
    {
      0 <= id < peers && |nextIndex| == |matchIndex| == peers
    }

    constructor (id: int, peers: nat)
      requires 0 <= id < peers
      ensures Valid() && State() == Make(id, peers)
    {
      this.id, this.peers := id, peers;
      term, votedFor, role := 0, NO_VOTE, Follower;
      log, base, baseTerm := [], 0, 0;
      nextIndex, matchIndex := seq(peers, _ => 1), seq(peers, _ => 0);
      lastApplied, commitIndex, recvVotes, finishedVotes, cursor := 0, 0, 0, 0, 0;
      dead := false;
    }

    /** Position in `log` of absolute index `i`. */
    function Pos(i: int): int
      reads this
    {
      i - base - 1
    }

    method BecomeFollower(t: int)
      modifies this
      ensures State() == StepDown(old(State()), t)
    {
      role, term, votedFor := Follower, t, NO_VOTE;
    }

    method HandleRequestVote(args: VoteArgs) returns (reply: VoteReply)
      modifies this
      ensures (State(), reply) == RequestVote(old(State()), args)
    {
      reply := VoteReply(term, false);
      if term > args.term { return; }
      if term < args.term { BecomeFollower(args.term); }
      if votedFor == NO_VOTE || votedFor == args.candidateId {
        if UpToDate(args.lastLogTerm, args.lastLogIndex, LastTerm(State()), LastIndex(State())) {
          votedFor := args.candidateId;
          reply := reply.(granted := true);
        }
      }
    }

    method BeginElection() returns (args: VoteArgs)
      modifies this
      ensures State() == StartElection(old(State())) && args == MakeVoteArgs(State())
    {
      role, term, votedFor := Candidate, term + 1, id;
      recvVotes, finishedVotes, cursor := 1, 1, 0;
      args := MakeVoteArgs(State());
    }

    /** The locked start of a vote thread: which peer it calls. */
    method PickVoteTarget() returns (target: int)
      modifies this`cursor
      ensures target == VoteTarget(old(cursor), id)
      ensures cursor == NextCursor(old(cursor), id, peers)
    {
      if cursor == id { cursor := cursor + 1; }
      target := cursor;
      cursor := cursor + 1;
      if cursor == peers || (cursor == peers - 1 && id == cursor) { cursor := 0; }
    }

    method CountVote(reply: VoteReply)
      modifies this
      ensures State() == OnVoteReply(old(State()), reply)
    {
      finishedVotes := finishedVotes + 1;
      if reply.term > term {
        BecomeFollower(reply.term);
        return;
      }
      if reply.granted { recvVotes := recvVotes + 1; }
    }

    method EndElection()
      requires Valid()
      modifies this
      ensures Valid() && State() == FinishElection(old(State()))
    {
      if role != Candidate { return; }
      if recvVotes > peers / 2 {
        role := Leader;
        for i := 0 to peers
          invariant |nextIndex| == |matchIndex| == peers
          invariant forall k :: 0 <= k < i ==> nextIndex[k] == LastIndex(State()) + 1 && matchIndex[k] == 0
          invariant State() == old(State()).(role := Leader, nextIndex := nextIndex, matchIndex := matchIndex)
        {
          nextIndex := nextIndex[i := base + |log| + 1];
          matchIndex := matchIndex[i := 0];
        }
        var last := LastIndex(State());
        assert nextIndex == seq(peers, _ => last + 1);
        assert matchIndex == seq(peers, _ => 0);
      }
    }

    method Submit(command: string) returns (index: int)
      modifies this`log
      ensures State() == Start(old(State()), command)
      ensures role != Leader ==> index == -1 && log == old(log)
      ensures role == Leader ==>
                && index == old(LastIndex(State())) + 1 == LastIndex(State())
                && log[..|old(log)|] == old(log) && log[Pos(index)] == Entry(command, term)
    {
      if role != Leader { return -1; }
      log := log + [Entry(command, term)];
      index := base + |log|;
    }

    /** The arguments of one AppendEntries call; the entries are gathered one by one. */
    method BuildAppend(peer: int) returns (args: AppendArgs)
      requires Valid() && 0 <= peer < peers
      requires base < nextIndex[peer] <= LastIndex(State()) + 1
      ensures args == MakeAppendArgs(State(), peer)
    {
      var prev := nextIndex[peer] - 1;
      var entries := [];
      for i := Pos(prev) + 1 to |log|
        invariant entries == log[prev - base..i]
      {
        entries := entries + [log[i]];
      }
      assert log[prev - base..|log|] == log[prev - base..];
      var prevTerm := if prev == base then baseTerm else log[Pos(prev)].term;
      args := AppendArgs(term, id, prev, prevTerm, commitIndex, entries);
    }

    /** The first index that holds `t`, searched upwards from the snapshot. */
    method FindFirst(t: int, upTo: int) returns (index: int)
      requires base < upTo <= LastIndex(State()) && TermAt(State(), upTo) == t
      ensures index == base + 1 + FirstOfTerm(log, t)
    {
      index := base + 1;
      assert log[0..] == log;
      while index <= upTo
        invariant base < index <= upTo
        invariant FirstOfTerm(log, t) == (index - base - 1) + FirstOfTerm(log[Pos(index)..], t)
        decreases upTo - index
      {
        if log[Pos(index)].term == t { return; }
        assert log[Pos(index)..][1..] == log[Pos(index) + 1..];
        index := index + 1;
      }
    }

    method HandleAppendEntries(args: AppendArgs) returns (reply: AppendReply)
      requires Valid()
      modifies this
      ensures Valid() && (State(), reply) == AppendEntries(old(State()), args)
    {
      reply := AppendReply(term, false, NO_CONFLICT, NO_CONFLICT);
      if args.term < term { return; }
      if args.term > term { votedFor := NO_VOTE; }
      term, role := args.term, Follower;
      if dead {
        reply := reply.(conflictTerm := PEER_DEAD);
        return;
      }
      if args.prevLogIndex < base {
        reply := reply.(conflictIndex := 1);
        return;
      } else if args.prevLogIndex == base {
        if args.prevLogTerm != baseTerm {
          reply := reply.(conflictIndex := 1);
          return;
        }
      } else {
        if base + |log| < args.prevLogIndex {
          reply := reply.(conflictIndex := base + |log| + 1);
          return;
        }
        var t := log[Pos(args.prevLogIndex)].term;
        if t != args.prevLogTerm {
          var first := FindFirst(t, args.prevLogIndex);
          reply := reply.(conflictTerm := t, conflictIndex := first);
          return;
        }
      }
      ReplaceTail(args.prevLogIndex, args.entries);
      if commitIndex < args.leaderCommit {
        commitIndex := Min(args.leaderCommit, base + |log|);
      }
      reply := reply.(success := true);
    }

    /** Pops everything after `prev`, then pushes the received entries. */
    method ReplaceTail(prev: int, entries: seq<Entry>)
      requires base <= prev <= LastIndex(State())
      modifies this`log
      ensures log == old(log)[..prev - base] + entries
    {
      var logSize := base + |log|;
      for i := prev to logSize
        invariant log == old(log)[..prev - base + (logSize - i)]
      {
        log := log[..|log| - 1];
      }
      for i := 0 to |entries|
        invariant log == old(log)[..prev - base] + entries[..i]
      {
        log := log + [entries[i]];
      }
    }

    /** The leader's own last index of the conflicting term, searched downwards. */
    method FindLast(t: int, from: int) returns (index: int)
      requires from <= LastIndex(State())
      ensures index == LastOfTerm(State(), from, t)
    {
      index := from;
      while index > base
        invariant index <= from
        invariant LastOfTerm(State(), index, t) == LastOfTerm(State(), from, t)
      {
        if log[Pos(index)].term == t { return; }
        index := index - 1;
      }
      index := -1;
    }

    method HandleAppendReply(peer: int, args: AppendArgs, reply: AppendReply)
      requires Valid() && 0 <= peer < peers
      requires term == args.term && reply.term <= term && reply.success ==>
                 && args.prevLogIndex + |args.entries| <= LastIndex(State())
                 && forall q :: 0 <= q < peers ==> matchIndex[q] <= LastIndex(State())
      requires term == args.term && reply.term <= term && !reply.success ==> args.prevLogIndex <= LastIndex(State())
      modifies this
      ensures Valid() && State() == OnAppendReply(old(State()), peer, args, reply)
    {
      if term != args.term { return; }
      if reply.term > term {
        BecomeFollower(reply.term);
        return;
      }
      if reply.success {
        nextIndex := nextIndex[peer := args.prevLogIndex + |args.entries| + 1];
        matchIndex := matchIndex[peer := nextIndex[peer] - 1];
        matchIndex := matchIndex[id := base + |log|];
        var median := Sort(matchIndex)[|matchIndex| / 2];
        if median > commitIndex && (median <= base || TermAt(State(), median) == term) {
          commitIndex := median;
        }
      } else if reply.conflictTerm != NO_CONFLICT && reply.conflictTerm != PEER_DEAD {
        var own := FindLast(reply.conflictTerm, args.prevLogIndex);
        nextIndex := nextIndex[peer := if own != -1 then own + 1 else reply.conflictIndex];
      } else if reply.conflictTerm != PEER_DEAD {
        nextIndex := nextIndex[peer := reply.conflictIndex];
      } else {
        assert nextIndex[peer := nextIndex[peer]] == nextIndex;
      }
    }

    /** One pass of the apply loop: the entries handed to the application, in order. */
    method TakeCommitted() returns (msgs: seq<Entry>)
      requires base <= lastApplied && commitIndex <= LastIndex(State())
      modifies this`lastApplied
      ensures State() == ApplyLog(old(State())) && msgs == ToApply(old(State()))
    {
      msgs := [];
      while lastApplied < commitIndex
        invariant old(lastApplied) <= lastApplied
        invariant lastApplied <= commitIndex || lastApplied == old(lastApplied)
        invariant lastApplied <= LastIndex(State()) ==> msgs == log[old(lastApplied) - base..lastApplied - base]
        invariant lastApplied > LastIndex(State()) ==> msgs == []
      {
        lastApplied := lastApplied + 1;
        msgs := msgs + [log[Pos(lastApplied)]];
      }
    }

    /** Drops the log up to `index`; an older index is turned down, and then the lock stays taken. */
    method ReceiveSnapshot(index: int) returns (stuck: bool)
      requires index != base && index <= LastIndex(State())
      modifies this
      ensures stuck <==> index < old(base)
      ensures State() == if index < old(base) then old(State()) else RecvSnapshot(old(State()), index)
    {
      if index < base { return true; }
      stuck := false;
      var compressLen := index - base;
      baseTerm := log[Pos(index)].term;
      base := index;
      var rest := [];
      for i := compressLen to |log|
        invariant rest == log[compressLen..i]
        invariant log == old(log) && State() == old(State()).(base := index, baseTerm := baseTerm)
      {
        rest := rest + [log[i]];
      }
      assert log[compressLen..|log|] == log[compressLen..];
      log := rest;
    }
  }
}
