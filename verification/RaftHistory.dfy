/** The history of a run that the safety argument speaks about: which log each term's leader
    had, who voted for whom with which log in hand, and how much of a leader's log each
    server has held. No step of RaftCluster reads it. */
module RaftHistory {
  import opened Basics
  import opened RaftNode
  import opened RaftCluster

  /** A vote: for whom, the voter's log at that moment, and the term it had that log from. */
  datatype Ballot = Ballot(candidate: nat, log: seq<Entry>, src: int)

  /** A term's leader: who elected it, its log when elected, and its log now. */
  datatype Reign = Reign(leader: nat, electors: set<nat>, init: seq<Entry>, log: seq<Entry>)

  /** `src[p]`: the term whose leader `p` last took its log from.
      `acks[(p, t)]`: how much of the log of term t's leader `p` has held.
      `tally[p]`: the votes counted in p's current election. */
  datatype History = History(
    src: seq<int>, tally: seq<set<nat>>,
    ballots: map<(nat, int), Ballot>, reigns: map<int, Reign>, acks: map<(nat, int), nat>)

  function InitHistory(n: nat): History {
    History(seq(n, _ => 0), seq(n, _ => {}), map[], map[0 := Reign(0, {}, [], [])], map[])
  }

  predicate LogUpToDate(a: seq<Entry>, b: seq<Entry>) {
    UpToDate(LastTermOf(a, 0), |a|, LastTermOf(b, 0), |b|)
  }

  /** `log` lies between the log the leader of term `t` was elected with and its log now. */
  predicate LogIn(h: History, log: seq<Entry>, t: int) {
    t in h.reigns && h.reigns[t].init <= log <= h.reigns[t].log
  }

  // ---------- Well-formed histories ----------

  /** Every entry was written by the leader of its term, below the same prefix. */
  ghost predicate Matching(h: History, log: seq<Entry>) {
    forall i {:trigger EntryFrom(h, log, i)} :: 0 <= i < |log| ==> EntryFrom(h, log, i)
  }

  predicate EntryFrom(h: History, log: seq<Entry>, i: nat)
    requires i < |log|
  {
    var u := log[i].term;
    u >= 1 && u in h.reigns && i < |h.reigns[u].log| && log[..i + 1] == h.reigns[u].log[..i + 1]
  }

  predicate TermsSorted(log: seq<Entry>) {
    forall i, j :: 0 <= i < j < |log| ==> log[i].term <= log[j].term
  }

  predicate ReignLog(t: int, r: Reign) {
    && r.init <= r.log
    && (forall i :: 0 <= i < |r.init| ==> r.init[i].term < t)
    && (forall i :: |r.init| <= i < |r.log| ==> r.log[i].term == t)
    && TermsSorted(r.log)
  }

  predicate Elected(n: nat, h: History, t: int, r: Reign) {
    && r.leader < n
    && (forall v <- r.electors :: v < n)
    && 2 * |r.electors| > n
    && forall v <- r.electors :: VotedIn(h, v, t, r.leader, r.init) && h.ballots[(v, t)].src < t
  }

  /** `v` voted for `p` in term `t`, finding a log `log` at least as up to date as its own. */
  predicate VotedIn(h: History, v: nat, t: int, p: nat, log: seq<Entry>) {
    (v, t) in h.ballots && h.ballots[(v, t)].candidate == p && LogUpToDate(log, h.ballots[(v, t)].log)
  }

  ghost predicate ReignOk(n: nat, h: History, t: int)
    requires t in h.reigns
  {
    var r := h.reigns[t];
    && t >= 0
    && ReignLog(t, r)
    && Matching(h, r.log)
    && (t == 0 ==> r.log == [])
    && (t >= 1 ==> Elected(n, h, t, r))
  }

  /** What `v` held of term `T`'s log, a log of `v` taken from `src` still holds. */
  ghost predicate Keeps(h: History, v: nat, below: int, log: seq<Entry>, src: int) {
    forall T :: (v, T) in h.acks && T < below ==> T <= src && (T == src ==> h.acks[(v, T)] <= |log|)
  }

  predicate SelfVote(h: History, p: nat, t: int) {
    (p, t) in h.ballots && h.ballots[(p, t)].candidate == p
  }

  ghost predicate BallotOk(n: nat, h: History, v: nat, t: int)
    requires (v, t) in h.ballots
  {
    var b := h.ballots[(v, t)];
    && v < n && b.candidate < n && b.src <= t && t >= 1
    && LogIn(h, b.log, b.src)
    && Keeps(h, v, t, b.log, b.src)
    && SelfVote(h, b.candidate, t)
    && LogUpToDate(h.ballots[(b.candidate, t)].log, b.log)
  }

  ghost predicate HistoryOk(n: nat, h: History) {
    && |h.src| == |h.tally| == n
    && 0 in h.reigns
    && (forall t {:trigger ReignOk(n, h, t)} :: t in h.reigns ==> ReignOk(n, h, t))
    && (forall v, t {:trigger BallotOk(n, h, v, t)} :: (v, t) in h.ballots ==> BallotOk(n, h, v, t))
    && (forall v, t :: (v, t) in h.acks ==> t >= 1 && t in h.reigns && h.acks[(v, t)] <= |h.reigns[t].log|)
  }

  // ---------- Choosing ----------

  function Backers(n: nat, h: History, t: int, k: int): set<nat> {
    set p: nat | p < n && (p, t) in h.acks && h.acks[(p, t)] >= k
  }

  /** A majority has held the first `k` entries of term t's leader, the k-th of term `t`. */
  predicate Chosen(n: nat, h: History, t: int, k: int) {
    && t in h.reigns && 1 <= k <= |h.reigns[t].log|
    && h.reigns[t].log[k - 1].term == t
    && 2 * |Backers(n, h, t, k)| > n
  }

  /** The first `c` entries of `log` are chosen, in a term up to `t`. */
  ghost predicate CommitOk(n: nat, h: History, log: seq<Entry>, c: int, t: int) {
    c == 0 || exists T, k :: CommittedBy(n, h, log, c, t, T, k)
  }

  predicate CommittedBy(n: nat, h: History, log: seq<Entry>, c: int, t: int, T: int, k: int) {
    && 1 <= T <= t && 1 <= c <= k && c <= |log| && Chosen(n, h, T, k)
    && log[..c] == h.reigns[T].log[..c]
  }

  lemma {:induction false} RangeSize(n: nat)
    ensures |Range(n)| == n
  {
    if n > 0 {
      RangeSize(n - 1);
    }
  }

  lemma QuorumsMeet(n: nat, a: set<nat>, b: set<nat>) returns (p: nat)
    requires forall v <- a :: v < n
    requires forall v <- b :: v < n
    requires 2 * |a| > n && 2 * |b| > n
    ensures p in a && p in b
  {
    if a * b == {} {
      assert |a + b| == |a| + |b|;
      SubsetSize(a + b, Range(n));
      RangeSize(n);
      assert false;
    }
    p :| p in a * b;
  }

  // ---------- Leader completeness ----------

  lemma LastEntryShared(n: nat, h: History, s: int, log: seq<Entry>)
    requires HistoryOk(n, h) && LogIn(h, log, s) && log != []
    ensures var u := LastTermOf(log, 0);
            u in h.reigns && u >= 1 && log <= h.reigns[u].log && |log| > |h.reigns[u].init|
  {
    assert ReignOk(n, h, s);
    var r := h.reigns[s];
    var i := |log| - 1;
    assert r.log[i] == log[i];
    assert EntryFrom(h, r.log, i);
    var u := log[i].term;
    assert log == r.log[..i + 1] == h.reigns[u].log[..i + 1];
    assert ReignOk(n, h, u);
    assert h.reigns[u].log[i] == log[i];
  }

  /** Of two logs, the one found up to date against the other holds whatever prefix the other
      holds, if later leaders keep that prefix. */
  lemma UpToDateHolds(n: nat, h: History, a: seq<Entry>, sa: int, b: seq<Entry>, sb: int, T: int, k: int)
    requires HistoryOk(n, h) && LogIn(h, a, sa) && LogIn(h, b, sb)
    requires LogUpToDate(a, b)
    requires T in h.reigns && 1 <= k <= |h.reigns[T].log| && h.reigns[T].log[k - 1].term == T
    requires h.reigns[T].log[..k] <= b
    requires forall u :: T < u <= sa && u in h.reigns ==> h.reigns[T].log[..k] <= h.reigns[u].init
    ensures h.reigns[T].log[..k] <= a
  {
    var chosen := h.reigns[T].log[..k];
    LastEntryShared(n, h, sb, b);
    assert ReignOk(n, h, sb) && b <= h.reigns[sb].log;
    var tb, ta := LastTermOf(b, 0), LastTermOf(a, 0);
    assert b[k - 1] == chosen[k - 1];
    assert h.reigns[sb].log[k - 1].term == T;
    assert h.reigns[sb].log[|b| - 1].term == tb >= T;
    assert a != [] by { assert ReignOk(n, h, T); }
    LastEntryShared(n, h, sa, a);
    if ta == tb {
      assert b == h.reigns[ta].log[..|b|] <= a;
    } else {
      assert ReignOk(n, h, sa);
      assert h.reigns[sa].log[|a| - 1].term == ta <= sa by { TermsBelow(n, h, sa, |a| - 1); }
      assert chosen <= h.reigns[ta].init;
      assert h.reigns[ta].init <= h.reigns[ta].log by { assert ReignOk(n, h, ta); }
      assert h.reigns[ta].init <= a;
    }
  }

  lemma TermsBelow(n: nat, h: History, t: int, i: nat)
    requires HistoryOk(n, h) && t in h.reigns && i < |h.reigns[t].log|
    ensures 1 <= h.reigns[t].log[i].term <= t
  {
    assert ReignOk(n, h, t) && EntryFrom(h, h.reigns[t].log, i);
    var r := h.reigns[t];
    if i < |r.init| { assert r.init[i] == r.log[i]; }
  }

  /** Leader completeness: what is chosen in a term, every later leader starts out with. */
  lemma {:induction false} LeaderCompleteness(n: nat, h: History, T: int, k: int, t: int)
    requires HistoryOk(n, h) && Chosen(n, h, T, k)
    requires T < t && t in h.reigns
    ensures h.reigns[T].log[..k] <= h.reigns[t].init
    decreases t
  {
    var chosen := h.reigns[T].log[..k];
    assert ReignOk(n, h, T) && ReignOk(n, h, t);
    var r := h.reigns[t];
    var v := QuorumsMeet(n, Backers(n, h, T, k), r.electors);
    assert VotedIn(h, v, t, r.leader, r.init);
    var b := h.ballots[(v, t)];
    assert BallotOk(n, h, v, t);
    assert (v, T) in h.acks && T <= b.src;
    forall u | T < u < t && u in h.reigns
      ensures chosen <= h.reigns[u].init
    {
      LeaderCompleteness(n, h, T, k, u);
    }
    assert chosen <= b.log;
    InitUpToDate(n, h, T, k, t, b);
  }

  lemma InitUpToDate(n: nat, h: History, T: int, k: int, t: int, b: Ballot)
    requires HistoryOk(n, h) && Chosen(n, h, T, k)
    requires T < t && t in h.reigns
    requires LogIn(h, b.log, b.src) && LogUpToDate(h.reigns[t].init, b.log)
    requires h.reigns[T].log[..k] <= b.log
    requires forall u :: T < u < t && u in h.reigns ==> h.reigns[T].log[..k] <= h.reigns[u].init
    ensures h.reigns[T].log[..k] <= h.reigns[t].init
  {
    var a := h.reigns[t].init;
    assert ReignOk(n, h, t);
    LastEntryShared(n, h, b.src, b.log);
    LastEntryShared(n, h, t, a);
    var u := LastTermOf(a, 0);
    assert u < t by { assert a[|a| - 1].term < t; }
    assert LogIn(h, a, u) by { assert ReignOk(n, h, u); }
    UpToDateHolds(n, h, a, u, b.log, b.src, T, k);
  }
}
