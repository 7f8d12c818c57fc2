/** A stable leader brings any follower's log in line after boundedly many refusals; and why
    AppendEntries must arrive in sending order. */
module RaftRepair {
  import opened Basics
  import opened RaftNode
  import opened RaftReplication

  /** A leader and a live follower, neither compacted, the follower's term not above. */
  predicate CanRepair(l: Node, f: Node, peer: int) {
    && l.role == Leader && l.base == 0 && l.baseTerm == 0
    && 0 <= l.id < |l.matchIndex| == |l.nextIndex| && 0 <= peer < |l.nextIndex|
    && 1 <= l.nextIndex[peer] <= |l.log| + 1
    && f.base == 0 && f.baseTerm == 0 && !f.dead && f.term <= l.term
    && (forall i :: 0 <= i < |f.log| ==> f.log[i].term >= 1)
  }

  /** The leader after it has processed one refusal, and the refusing follower. */
  function AfterRefusal(l: Node, f: Node, peer: int): (Node, Node)
    requires CanRepair(l, f, peer)
  {
    var args := MakeAppendArgs(l, peer);
    var (f', reply) := AppendEntries(f, args);
    (OnAppendReply(l, peer, args, reply), f')
  }

  function Accepts(l: Node, f: Node, peer: int): bool
    requires CanRepair(l, f, peer)
  {
    AppendEntries(f, MakeAppendArgs(l, peer)).1.success
  }

  /** A refusal strictly lowers the next index and keeps it at least 1; at 1 there is none. */
  lemma RefusalLowers(l: Node, f: Node, peer: int)
    requires CanRepair(l, f, peer) && !Accepts(l, f, peer)
    ensures var (l', f') := AfterRefusal(l, f, peer);
            && CanRepair(l', f', peer)
            && 1 <= l'.nextIndex[peer] < l.nextIndex[peer]
            && f'.log == f.log && l'.log == l.log
  {
    var args := MakeAppendArgs(l, peer);
    var prev := args.prevLogIndex;
    var reply := AppendEntries(f, args).1;
    if 0 < prev <= |f.log| {
      FirstOfTermBound(f.log, f.log[prev - 1].term, prev - 1);
      LastOfTermBound(l, prev, reply.conflictTerm);
    }
  }

  /** The rounds of AppendEntries until one is accepted, and the follower's log then. */
  function Repair(l: Node, f: Node, peer: int): (nat, seq<Entry>)
    requires CanRepair(l, f, peer)
    decreases l.nextIndex[peer]
  {
    if Accepts(l, f, peer) then (1, AppendEntries(f, MakeAppendArgs(l, peer)).0.log)
    else
      RefusalLowers(l, f, peer);
      var (l', f') := AfterRefusal(l, f, peer);
      var (rounds, log) := Repair(l', f', peer);
      (rounds + 1, log)
  }

  /** Agreement on the term at an index means agreement up to it. */
  predicate Match(x: seq<Entry>, y: seq<Entry>) {
    forall k :: 0 <= k < |x| && k < |y| && x[k].term == y[k].term ==> x[..k + 1] == y[..k + 1]
  }

  lemma AcceptsLeads(l: Node, f: Node, peer: int)
    requires CanRepair(l, f, peer) && Match(l.log, f.log) && Accepts(l, f, peer)
    ensures AppendEntries(f, MakeAppendArgs(l, peer)).0.log == l.log
  {
    hide AppendEntries, Match;
    var prev := l.nextIndex[peer] - 1;
    assert MakeAppendArgs(l, peer) == Message(l.term, l.id, l.commitIndex, l.log, prev);
    AcceptedMessage(f, l.term, l.id, l.commitIndex, l.log, prev);
  }

  /** Repair ends after at most `nextIndex` rounds with the two logs equal. */
  lemma {:induction false} RepairEqualises(l: Node, f: Node, peer: int)
    requires CanRepair(l, f, peer) && Match(l.log, f.log)
    ensures var (rounds, log) := Repair(l, f, peer);
            rounds <= l.nextIndex[peer] && log == l.log
    decreases l.nextIndex[peer]
  {
    hide AppendEntries, OnAppendReply, MakeAppendArgs, Match;
    if Accepts(l, f, peer) {
      AcceptsLeads(l, f, peer);
    } else {
      RefusalLowers(l, f, peer);
      var (l', f') := AfterRefusal(l, f, peer);
      RepairEqualises(l', f', peer);
    }
  }

  // ---------- The back-off is by terms ----------

  function TermsOf(log: seq<Entry>): set<int> { set e | e in log :: e.term }

  predicate Rises(log: seq<Entry>) {
    forall i, j :: 0 <= i <= j < |log| ==> log[i].term <= log[j].term
  }

  /** A term that all earlier entries stay below does not occur among them. */
  lemma FewerTerms(log: seq<Entry>, i: nat, k: nat)
    requires Rises(log) && i <= k <= |log| && k > 0 && (i > 0 ==> log[i - 1].term < log[k - 1].term)
    ensures |TermsOf(log[..i])| < |TermsOf(log[..k])|
  {
    var t := log[k - 1].term;
    assert log[k - 1] in log[..k];
    assert t in TermsOf(log[..k]);
    forall e | e in log[..i] ensures e.term != t && e in log[..k] {
      var j :| 0 <= j < i && log[j] == e;
      assert log[..k][j] == e;
    }
    SubsetSize(TermsOf(log[..i]), TermsOf(log[..k]));
  }

  /** A refusal inside the follower's log moves the next attempt to where the logs agree, or to where the follower
      has an earlier term. */
  lemma RefusalSkipsTerm(l: Node, f: Node, peer: int)
    requires CanRepair(l, f, peer) && !Accepts(l, f, peer) && Rises(f.log) && l.nextIndex[peer] - 1 <= |f.log|
    ensures var (l', f') := AfterRefusal(l, f, peer);
            var prev, prev' := l.nextIndex[peer] - 1, l'.nextIndex[peer] - 1;
            && CanRepair(l', f', peer) && f'.log == f.log && 0 <= prev' < prev
            && (Accepts(l', f', peer) || prev' == 0 || f.log[prev' - 1].term < f.log[prev - 1].term)
  {
    RefusalLowers(l, f, peer);
    var prev := l.nextIndex[peer] - 1;
    var t := f.log[prev - 1].term;
    var i := LastOfTerm(l, prev, t);
    LastOfTermBound(l, prev, t);
    FirstOfTermBound(f.log, t, prev - 1);
    if i == -1 { NothingBeforeFirst(f.log, t); } else { TermAtLast(l, prev, t); }
  }

  lemma {:induction false} NothingBeforeFirst(log: seq<Entry>, t: int)
    ensures FirstOfTerm(log, t) <= |log| && forall j :: 0 <= j < FirstOfTerm(log, t) ==> log[j].term != t
  {
    if log != [] && log[0].term != t {
      NothingBeforeFirst(log[1..], t);
      assert forall j :: 1 <= j < |log| ==> log[1..][j - 1] == log[j];
    }
  }

  lemma {:induction false} TermAtLast(n: Node, i: int, t: int)
    requires LastOfTerm(n, i, t) != -1
    ensures n.base < LastOfTerm(n, i, t) <= i && TermAt(n, LastOfTerm(n, i, t)) == t
    decreases i - n.base
  {
    if i > n.base && TermAt(n, i) != t { TermAtLast(n, i - 1, t); }
  }

  /** From inside the follower's log, one round per term of the follower and one more are enough. */
  lemma {:induction false} RepairWithin(l: Node, f: Node, peer: int)
    requires CanRepair(l, f, peer) && Rises(f.log) && l.nextIndex[peer] - 1 <= |f.log|
    ensures Repair(l, f, peer).0 <= |TermsOf(f.log[..l.nextIndex[peer] - 1])| + 1
    decreases l.nextIndex[peer]
  {
    hide AppendEntries, OnAppendReply, MakeAppendArgs;
    if !Accepts(l, f, peer) {
      RefusalSkipsTerm(l, f, peer);
      RefusalLowers(l, f, peer);
      var (l', f') := AfterRefusal(l, f, peer);
      var prev, prev' := l.nextIndex[peer] - 1, l'.nextIndex[peer] - 1;
      if Accepts(l', f', peer) {
        FewerTerms(f.log, 0, prev);
      } else {
        FewerTerms(f.log, prev', prev);
        RepairWithin(l', f', peer);
      }
    }
  }

  /** The back-off is fast: a stable leader repairs any follower's log within two rounds more than the follower's log
      has different terms, however many entries are wrong. */
  lemma RepairIsFast(l: Node, f: Node, peer: int)
    requires CanRepair(l, f, peer) && Rises(f.log)
    ensures Repair(l, f, peer).0 <= |TermsOf(f.log)| + 2
  {
    hide AppendEntries, OnAppendReply, MakeAppendArgs, TermsOf;
    var prev := l.nextIndex[peer] - 1;
    if prev <= |f.log| {
      RepairWithin(l, f, peer);
      PrefixTerms(f.log, prev);
    } else {
      TooShort(l, f, peer);
      var (l', f') := AfterRefusal(l, f, peer);
      RepairWithin(l', f', peer);
      assert f.log[..|f.log|] == f.log;
    }
  }

  lemma PrefixTerms(log: seq<Entry>, k: nat)
    requires k <= |log|
    ensures |TermsOf(log[..k])| <= |TermsOf(log)|
  {
    assert forall e <- log[..k] :: e in log;
    SubsetSize(TermsOf(log[..k]), TermsOf(log));
  }

  /** A follower whose log is too short brings the next attempt to its end. */
  lemma TooShort(l: Node, f: Node, peer: int)
    requires CanRepair(l, f, peer) && l.nextIndex[peer] - 1 > |f.log|
    ensures !Accepts(l, f, peer)
    ensures var (l', f') := AfterRefusal(l, f, peer);
            CanRepair(l', f', peer) && f'.log == f.log && l'.nextIndex[peer] == |f.log| + 1
  {
  }

  // ---------- Messages out of order ----------

  /** When a message is accepted, and the log it leaves. */
  lemma AcceptedIs(f: Node, args: AppendArgs)
    ensures AppendEntries(f, args).1.success <==>
            && args.term >= f.term && !f.dead
            && f.base <= args.prevLogIndex <= LastIndex(f) && TermAt(f, args.prevLogIndex) == args.prevLogTerm
    ensures AppendEntries(f, args).1.success ==>
            var f' := AppendEntries(f, args).0;
            && f'.log == f.log[..args.prevLogIndex - f.base] + args.entries
            && f'.base == f.base && f'.baseTerm == f.baseTerm && f'.term == args.term && f'.dead == f.dead
  {
  }

  /** An accepted message makes the log end where the message ends: it shortens the log exactly
      if it ends before the log does. */
  lemma AcceptedShortensIff(f: Node, args: AppendArgs)
    requires AppendEntries(f, args).1.success
    ensures LastIndex(AppendEntries(f, args).0) == args.prevLogIndex + |args.entries|
    ensures LastIndex(AppendEntries(f, args).0) < LastIndex(f) <==> args.prevLogIndex + |args.entries| < LastIndex(f)
  {
    AcceptedIs(f, args);
  }

  /** The message a leader with log `log` sends for previous index `prev`. */
  function Message(term: int, id: int, commit: int, log: seq<Entry>, prev: nat): AppendArgs
    requires prev <= |log|
  {
    AppendArgs(term, id, prev, if prev == 0 then 0 else log[prev - 1].term, commit, log[prev..])
  }

  /** An accepted message leaves the sender's log. */
  lemma AcceptedMessage(f: Node, term: int, id: int, commit: int, log: seq<Entry>, prev: nat)
    requires f.base == 0 && f.baseTerm == 0 && prev <= |log| && Match(log, f.log)
    ensures var args := Message(term, id, commit, log, prev);
            AppendEntries(f, args).1.success ==> AppendEntries(f, args).0.log == log
  {
    hide AppendEntries;
    var args := Message(term, id, commit, log, prev);
    AcceptedIs(f, args);
    if AppendEntries(f, args).1.success {
      assert prev > 0 ==> log[prev - 1].term == f.log[prev - 1].term;
      assert f.log[..prev] == log[..prev];
      assert log[..prev] + log[prev..] == log;
    }
  }

  /** Two messages of one leader, sent when its log was `early` and later when it was `log`, for
      any two previous indices, delivered out of order: a follower that accepts the later one
      accepts the earlier one after it and is left with the earlier log. It loses exactly what
      the leader added in between. */
  lemma LateAppendTakesBack(f: Node, term: int, id: int, early: seq<Entry>, c: int, p: nat, log: seq<Entry>, d: int, q: nat)
    requires f.base == 0 && f.baseTerm == 0 && Match(log, f.log)
    requires early <= log && p <= |early| && q <= |log|
    requires AppendEntries(f, Message(term, id, d, log, q)).1.success
    ensures var g := AppendEntries(f, Message(term, id, d, log, q)).0;
            var late := AppendEntries(g, Message(term, id, c, early, p));
            && g.log == log && late.1.success && late.0.log == early
            && (late.0.log != log <==> |early| < |log|)
  {
    hide AppendEntries;
    var second := Message(term, id, d, log, q);
    var g := AppendEntries(f, second).0;
    AcceptedMessage(f, term, id, d, log, q);
    AcceptedIs(f, second);
    EarlierMatches(early, log, g.log);
    AcceptedIs(g, Message(term, id, c, early, p));
    AcceptedMessage(g, term, id, c, early, p);
  }

  /** Delivered in order, both leave the later log, unless the later one starts beyond the
      earlier log and is refused. */
  lemma AppendsInOrder(f: Node, term: int, id: int, early: seq<Entry>, c: int, p: nat, log: seq<Entry>, d: int, q: nat)
    requires f.base == 0 && f.baseTerm == 0 && Match(log, f.log)
    requires early <= log && p <= |early| && q <= |log|
    requires AppendEntries(f, Message(term, id, c, early, p)).1.success
    ensures var g := AppendEntries(f, Message(term, id, c, early, p)).0;
            var then_ := AppendEntries(g, Message(term, id, d, log, q));
            && g.log == early && (then_.1.success <==> q <= |early|)
            && then_.0.log == if q <= |early| then log else early
  {
    hide AppendEntries;
    var first := Message(term, id, c, early, p);
    EarlierMatches(early, log, f.log);
    var g := AppendEntries(f, first).0;
    AcceptedMessage(f, term, id, c, early, p);
    AcceptedIs(f, first);
    EarlierMatches(early, log, g.log);
    AcceptedIs(g, Message(term, id, d, log, q));
    RefusedIs(g, Message(term, id, d, log, q));
    AcceptedMessage(g, term, id, d, log, q);
  }

  lemma RefusedIs(f: Node, args: AppendArgs)
    ensures !AppendEntries(f, args).1.success ==> AppendEntries(f, args).0.log == f.log
  {
  }

  lemma EarlierMatches(early: seq<Entry>, log: seq<Entry>, other: seq<Entry>)
    requires early <= log
    ensures Match(log, other) ==> Match(early, other)
    ensures Match(log, early) && Match(early, log) && Match(log, log)
  {
    assert forall k :: 0 <= k < |early| ==> early[k] == log[k] && early[..k + 1] == log[..k + 1];
  }
}
