/** One Raft server as a value: the state kept under its lock and, as functions of that
    state, what each locked region of 6.824/src/kvRaft/raft.hpp does to it.
    The class in RaftServer.dfy runs the same regions with the original's loops. */
module RaftNode {

  datatype Role = Leader | Candidate | Follower

  datatype Entry = Entry(command: string, term: int)

  datatype VoteArgs = VoteArgs(term: int, candidateId: int, lastLogTerm: int, lastLogIndex: int)

  datatype VoteReply = VoteReply(term: int, granted: bool)

  datatype AppendArgs = AppendArgs(
    term: int, leaderId: int, prevLogIndex: int, prevLogTerm: int,
    leaderCommit: int, entries: seq<Entry>)

  datatype AppendReply = AppendReply(term: int, success: bool, conflictTerm: int, conflictIndex: int)

  const NO_VOTE := -1
  const NO_CONFLICT := -1
  const PEER_DEAD := -100

  /** `log` holds the entries after absolute index `base`; `baseTerm` is the term at `base`. */
  datatype Node = Node(
    id: int, peers: nat,
    term: int, votedFor: int, role: Role,
    log: seq<Entry>, base: int, baseTerm: int,
    nextIndex: seq<int>, matchIndex: seq<int>,
    lastApplied: int, commitIndex: int,
    recvVotes: int, finishedVotes: int, cursor: int,
    dead: bool)

  function Make(id: int, peers: nat): Node {
    Node(id, peers, 0, NO_VOTE, Follower, [], 0, 0,
         seq(peers, _ => 1), seq(peers, _ => 0), 0, 0, 0, 0, 0, false)
  }

  // ---------- Log access by absolute index ----------

  function LastIndex(n: Node): int {
    n.base + |n.log|
  }

  function LastTermOf(log: seq<Entry>, baseTerm: int): int {
    if log == [] then baseTerm else log[|log| - 1].term
  }

  function LastTerm(n: Node): int {
    LastTermOf(n.log, n.baseTerm)
  }

  /** The term at absolute index `i`. Outside [base, lastIndex] the original reads past its
      vector; RaftSafety.AccessInRange shows that no reachable state does. */
  function TermAt(n: Node, i: int): int {
    if n.base < i <= LastIndex(n) then n.log[i - n.base - 1].term
    else if i == n.base then n.baseTerm
    else -1
  }

  // ---------- Elections ----------

  predicate UpToDate(term: int, index: int, lastTerm: int, lastIndex: int) {
    term > lastTerm || (term == lastTerm && index >= lastIndex)
  }

  function StepDown(n: Node, term: int): Node {
    n.(role := Follower, term := term, votedFor := NO_VOTE)
  }

  function RequestVote(n: Node, args: VoteArgs): (Node, VoteReply) {
    if n.term > args.term then (n, VoteReply(n.term, false))
    else
      var m := if n.term < args.term then StepDown(n, args.term) else n;
      if (m.votedFor == NO_VOTE || m.votedFor == args.candidateId)
         && UpToDate(args.lastLogTerm, args.lastLogIndex, LastTerm(m), LastIndex(m))
      then (m.(votedFor := args.candidateId), VoteReply(n.term, true))
      else (m, VoteReply(n.term, false))
  }

  function StartElection(n: Node): Node {
    n.(role := Candidate, term := n.term + 1, votedFor := n.id,
       recvVotes := 1, finishedVotes := 1, cursor := 0)
  }

  function MakeVoteArgs(n: Node): VoteArgs {
    VoteArgs(n.term, n.id, LastTerm(n), LastIndex(n))
  }

  /** The peer one vote thread calls, given the shared cursor it finds. */
  function VoteTarget(cursor: int, id: int): int {
    if cursor == id then cursor + 1 else cursor
  }

  /** The cursor that thread leaves behind. */
  function NextCursor(cursor: int, id: int, peers: int): int {
    var c := VoteTarget(cursor, id) + 1;
    if c == peers || (c == peers - 1 && id == c) then 0 else c
  }

  function OnVoteReply(n: Node, reply: VoteReply): Node {
    var m := n.(finishedVotes := n.finishedVotes + 1);
    if reply.term > m.term then StepDown(m, reply.term)
    else if reply.granted then m.(recvVotes := m.recvVotes + 1)
    else m
  }

  /** What the election loop does once its wait is over. */
  function FinishElection(n: Node): Node {
    if n.role != Candidate then n
    else if n.recvVotes > n.peers / 2 then
      n.(role := Leader,
         nextIndex := seq(n.peers, _ => LastIndex(n) + 1),
         matchIndex := seq(n.peers, _ => 0))
    else n
  }

  // ---------- Replication ----------

  function Start(n: Node, command: string): Node {
    if n.role != Leader then n else n.(log := n.log + [Entry(command, n.term)])
  }

  /** The entries after absolute index `i`. */
  function EntriesAfter(n: Node, i: int): seq<Entry> {
    if n.base <= i <= LastIndex(n) then n.log[i - n.base..] else []
  }

  function MakeAppendArgs(n: Node, peer: int): AppendArgs {
    var prev := if 0 <= peer < |n.nextIndex| then n.nextIndex[peer] - 1 else n.base;
    AppendArgs(n.term, n.id, prev, TermAt(n, prev), n.commitIndex, EntriesAfter(n, prev))
  }

  /** The first position of `log` whose entry has term `t`, or |log|. */
  function FirstOfTerm(log: seq<Entry>, t: int): nat {
    if log == [] || log[0].term == t then 0 else 1 + FirstOfTerm(log[1..], t)
  }

  /** The largest index in (base, i] whose entry has term `t`, or -1. */
  function LastOfTerm(n: Node, i: int, t: int): int
    decreases i - n.base
  {
    if i <= n.base then -1
    else if TermAt(n, i) == t then i
    else LastOfTerm(n, i - 1, t)
  }

  function Min(a: int, b: int): int {
    if a < b then a else b
  }

  /** The receiver's consistency check: the refusal it answers with, or a success. */
  function CheckPrev(n: Node, args: AppendArgs, term: int): AppendReply {
    var prev := args.prevLogIndex;
    if prev < n.base || (prev == n.base && args.prevLogTerm != n.baseTerm) then
      AppendReply(term, false, NO_CONFLICT, 1)
    else if LastIndex(n) < prev then
      AppendReply(term, false, NO_CONFLICT, LastIndex(n) + 1)
    else if prev > n.base && TermAt(n, prev) != args.prevLogTerm then
      AppendReply(term, false, TermAt(n, prev), n.base + 1 + FirstOfTerm(n.log, TermAt(n, prev)))
    else
      AppendReply(term, true, NO_CONFLICT, NO_CONFLICT)
  }

  /** Overwrites everything after the agreed index and moves the commit index along. */
  function Overwrite(n: Node, args: AppendArgs): Node
    requires n.base <= args.prevLogIndex <= LastIndex(n)
  {
    var log := n.log[..args.prevLogIndex - n.base] + args.entries;
    n.(log := log,
       commitIndex := if n.commitIndex < args.leaderCommit
                      then Min(args.leaderCommit, n.base + |log|) else n.commitIndex)
  }

  function AppendEntries(n: Node, args: AppendArgs): (Node, AppendReply) {
    if args.term < n.term then (n, AppendReply(n.term, false, NO_CONFLICT, NO_CONFLICT))
    else
      var m := n.(term := args.term, role := Follower,
                  votedFor := if args.term > n.term then NO_VOTE else n.votedFor);
      if n.dead then (m, AppendReply(n.term, false, PEER_DEAD, NO_CONFLICT))
      else
        var reply := CheckPrev(m, args, n.term);
        (if reply.success then Overwrite(m, args) else m, reply)
  }

  // ---------- The median commit rule ----------

  function Insert(x: int, s: seq<int>): seq<int> {
    if s == [] || x <= s[0] then [x] + s else [s[0]] + Insert(x, s[1..])
  }

  function Sort(s: seq<int>): (r: seq<int>)
    ensures |r| == |s|
  {
    if s == [] then [] else
      var r := Sort(s[1..]);
      InsertLength(s[0], r);
      Insert(s[0], r)
  }

  lemma {:induction false} InsertLength(x: int, s: seq<int>)
    ensures |Insert(x, s)| == |s| + 1
  {
    if s != [] && x > s[0] { InsertLength(x, s[1..]); }
  }

  function Median(s: seq<int>): int
    requires s != []
  {
    Sort(s)[|s| / 2]
  }

  function AdvanceCommit(n: Node): Node
    requires n.matchIndex != []
  {
    var m := Median(n.matchIndex);
    if m > n.commitIndex && (m <= n.base || TermAt(n, m) == n.term)
    then n.(commitIndex := m) else n
  }

  /** Where the leader backs off to after a refusal. */
  function BackOff(n: Node, args: AppendArgs, reply: AppendReply, next: int): int {
    if reply.conflictTerm == PEER_DEAD then next
    else if reply.conflictTerm == NO_CONFLICT then reply.conflictIndex
    else
      var i := LastOfTerm(n, args.prevLogIndex, reply.conflictTerm);
      if i != -1 then i + 1 else reply.conflictIndex
  }

  function OnAppendReply(n: Node, peer: int, args: AppendArgs, reply: AppendReply): Node
    requires 0 <= n.id < |n.matchIndex| == |n.nextIndex| && 0 <= peer < |n.nextIndex|
  {
    if n.term != args.term then n
    else if reply.term > n.term then StepDown(n, reply.term)
    else if reply.success then
      var next := args.prevLogIndex + |args.entries| + 1;
      AdvanceCommit(n.(nextIndex := n.nextIndex[peer := next],
                       matchIndex := n.matchIndex[peer := next - 1][n.id := LastIndex(n)]))
    else
      n.(nextIndex := n.nextIndex[peer := BackOff(n, args, reply, n.nextIndex[peer])])
  }

  // ---------- Hand-over to the application ----------

  /** The entries of absolute indices (lastApplied, commitIndex]. */
  function ToApply(n: Node): seq<Entry> {
    if n.base <= n.lastApplied < n.commitIndex <= LastIndex(n)
    then n.log[n.lastApplied - n.base..n.commitIndex - n.base] else []
  }

  function ApplyLog(n: Node): Node {
    if n.lastApplied < n.commitIndex then n.(lastApplied := n.commitIndex) else n
  }

  /** Drops the entries up to absolute index `i`, which a snapshot now stands for. */
  function RecvSnapshot(n: Node, i: int): Node
    requires n.base < i <= LastIndex(n)
  {
    n.(base := i, baseTerm := TermAt(n, i), log := n.log[i - n.base..])
  }
}
