/** The replicated key-value server: committed operations are applied at most once per client
    request. */
module KvServer {
  import opened ShardGroup
  import opened ShardValues

  /** The database and, per client, the request id applied last. */
  datatype Store = Store(db: Data, seqs: map<int, int>)

  /** The comparison with the recorded id lets the operation through. */
  predicate Passes(s: Store, op: Op) {
    op.client !in s.seqs || s.seqs[op.client] < op.request
  }

  function ApplyOne(s: Store, op: Op): Store {
    Store(if op.kind != Get && Passes(s, op) then Write(s.db, op) else s.db, s.seqs[op.client := op.request])
  }

  function ApplyAll(log: seq<Op>): Store {
    if log == [] then Store(map[], map[]) else ApplyOne(ApplyAll(log[..|log| - 1]), log[|log| - 1])
  }

  predicate Seen(log: seq<Op>, client: int, request: int) {
    exists i :: 0 <= i < |log| && log[i].client == client && log[i].request == request
  }

  /** The log with every repeated (client, request) entry removed. */
  function Once(log: seq<Op>): seq<Op> {
    if log == [] then []
    else
      var before, op := log[..|log| - 1], log[|log| - 1];
      if Seen(before, op.client, op.request) then Once(before) else Once(before) + [op]
  }

  /** Each client's request ids never decrease. */
  predicate Monotone(log: seq<Op>) {
    forall i, j :: 0 <= i < j < |log| && log[i].client == log[j].client ==> log[i].request <= log[j].request
  }

  /** The client's latest entry, or -1. */
  function Latest(log: seq<Op>, client: int): (p: int)
    ensures -1 <= p < |log|
  {
    if log == [] then -1
    else if log[|log| - 1].client == client then |log| - 1
    else Latest(log[..|log| - 1], client)
  }

  lemma {:induction false} LatestIs(log: seq<Op>, client: int)
    ensures var p := Latest(log, client);
            && (p != -1 ==> log[p].client == client)
            && forall q :: p < q < |log| ==> log[q].client != client
  {
    if log != [] && log[|log| - 1].client != client {
      var before := log[..|log| - 1];
      LatestIs(before, client);
      assert forall q :: 0 <= q < |before| ==> before[q] == log[q];
    }
  }

  /** The recorded id is always that of the client's latest entry, carried out or not. */
  lemma {:induction false} RecordedLast(log: seq<Op>, client: int)
    ensures var p, seqs := Latest(log, client), ApplyAll(log).seqs;
            && (client in seqs <==> p != -1)
            && (client in seqs ==> seqs[client] == log[p].request)
  {
    if log != [] { RecordedLast(log[..|log| - 1], client); }
  }

  // ---------- Which entries are carried out ----------

  predicate CarriedOut(log: seq<Op>, i: nat)
    requires i < |log|
  {
    Passes(ApplyAll(log[..i]), log[i])
  }

  /** No earlier entry has this client and id. */
  predicate First(log: seq<Op>, i: nat)
    requires i < |log|
  {
    !Seen(log[..i], log[i].client, log[i].request)
  }

  /** The client's entry before entry `i`, or -1. */
  function Previous(log: seq<Op>, i: nat): (p: int)
    requires i < |log|
    ensures -1 <= p < i
  {
    Latest(log[..i], log[i].client)
  }

  /** An entry that is not its client's first rises above the client's previous id exactly if
      its own id is unused. */
  predicate Rises(log: seq<Op>, i: nat)
    requires i < |log|
  {
    var p := Previous(log, i);
    p != -1 ==> (log[p].request < log[i].request <==> First(log, i))
  }

  /** An entry is carried out exactly if its client is new or it rises above the client's previous id. */
  lemma CarriedOutIff(log: seq<Op>, i: nat)
    requires i < |log|
    ensures CarriedOut(log, i) <==> Previous(log, i) == -1 || log[Previous(log, i)].request < log[i].request
  {
    RecordedLast(log[..i], log[i].client);
  }

  /** One entry is carried out exactly if it is the first of its kind, if and only if it rises. */
  lemma FirstOnlyIff(log: seq<Op>, i: nat)
    requires i < |log|
    ensures (CarriedOut(log, i) <==> First(log, i)) <==> Rises(log, i)
  {
    CarriedOutIff(log, i);
    LatestIs(log[..i], log[i].client);
  }

  /** Every request is carried out at its first entry and at no other, if and only if each entry
      rises above its client's previous id exactly when its own id is unused. */
  lemma ExactlyOnceIff(log: seq<Op>)
    ensures (forall i :: 0 <= i < |log| ==> (CarriedOut(log, i) <==> First(log, i))) <==>
            (forall i :: 0 <= i < |log| ==> Rises(log, i))
  {
    forall i | 0 <= i < |log| ensures (CarriedOut(log, i) <==> First(log, i)) <==> Rises(log, i) {
      FirstOnlyIff(log, i);
    }
  }

  /** A request that comes again is carried out again exactly if its client's previous id is lower. */
  lemma RepeatedIff(log: seq<Op>, i: nat)
    requires i < |log| && !First(log, i)
    ensures Previous(log, i) != -1 && (CarriedOut(log, i) <==> log[Previous(log, i)].request < log[i].request)
  {
    CarriedOutIff(log, i);
    LatestIs(log[..i], log[i].client);
  }

  /** So an id that falls and rises again is carried out twice, whatever came before. */
  lemma FallingIdRepeats(before: seq<Op>, a: Op, b: Op)
    requires a.client == b.client
    ensures var log := before + [a, b, a];
            !First(log, |before| + 2) && (CarriedOut(log, |before| + 2) <==> b.request < a.request)
  {
    var log, k := before + [a, b, a], |before|;
    assert log[..k + 2][k] == a && log[..k + 2][k + 1] == b && log[k + 2] == a;
    RepeatedIff(log, k + 2);
  }

  // ---------- The database ----------

  /** The entries carried out, in order. */
  function Performed(log: seq<Op>): seq<Op> {
    if log == [] then []
    else
      var k := |log| - 1;
      if CarriedOut(log, k) then Performed(log[..k]) + [log[k]] else Performed(log[..k])
  }

  /** For every log the database is that of the entries carried out. */
  lemma {:induction false} DatabaseIs(log: seq<Op>)
    ensures ApplyAll(log).db == Replay(Performed(log))
  {
    if log != [] {
      var k := |log| - 1;
      var done := Performed(log[..k]);
      DatabaseIs(log[..k]);
      assert (done + [log[k]])[..|done|] == done;
    }
  }

  lemma {:induction false} PerformedIsOnce(log: seq<Op>)
    requires forall i :: 0 <= i < |log| ==> Rises(log, i)
    ensures Performed(log) == Once(log)
  {
    if log != [] {
      var k := |log| - 1;
      FirstOnlyIff(log, k);
      hide Once;
      forall i | 0 <= i < k ensures Rises(log[..k], i) {
        assert log[..k][..i] == log[..i];
        assert Rises(log, i);
      }
      PerformedIsOnce(log[..k]);
    }
    OnceSnoc(log);
  }

  lemma OnceSnoc(log: seq<Op>)
    ensures log == [] ==> Once(log) == []
    ensures log != [] ==>
      var k := |log| - 1; Once(log) == if First(log, k) then Once(log[..k]) + [log[k]] else Once(log[..k])
  {
  }

  lemma MonotoneRises(log: seq<Op>, i: nat)
    requires Monotone(log) && i < |log|
    ensures Rises(log, i)
  {
    var before, p := log[..i], Previous(log, i);
    LatestIs(before, log[i].client);
    if p != -1 {
      assert before[p] == log[p];
      if !First(log, i) {
        var j :| 0 <= j < i && before[j].client == log[i].client && before[j].request == log[i].request;
        assert j <= p;
      }
    }
  }

  /** Exactly once: if no client's ids decrease, the server's database is the one that carries
      out every operation of the log with repetitions removed. */
  lemma ExactlyOnce(log: seq<Op>)
    requires Monotone(log)
    ensures ApplyAll(log).db == Replay(Once(log))
  {
    forall i | 0 <= i < |log| ensures Rises(log, i) { MonotoneRises(log, i); }
    PerformedIsOnce(log);
    DatabaseIs(log);
  }

  class KVServer {
    var db: Data
    var seqs: map<int, int>
    var lastAppliedIndex: int

    constructor ()
      ensures Store(db, seqs) == ApplyAll([]) && lastAppliedIndex == 0
    {
      db, seqs, lastAppliedIndex := map[], map[], 0;
    }

    /** One message of the apply loop. */
    method ApplyMsg(op: Op, index: int)
      modifies this
      ensures Store(db, seqs) == ApplyOne(old(Store(db, seqs)), op) && lastAppliedIndex == index
    {
      lastAppliedIndex := index;
      var seen := op.client in seqs;
      var previous := if seen then seqs[op.client] else 0;
      seqs := seqs[op.client := op.request];
      if op.kind == Put || op.kind == Append {
        if !seen || previous < op.request {
          if op.kind == Put {
            db := db[op.key := op.value];
          } else if op.key in db {
            db := db[op.key := db[op.key] + op.value];
          } else {
            db := db[op.key := op.value];
          }
        }
      }
    }

    /** The apply loop over a committed log, from a fresh server. */
    method ApplyLoop(log: seq<Op>)
      requires Store(db, seqs) == ApplyAll([])
      modifies this
      ensures Store(db, seqs) == ApplyAll(log) && db == Replay(Performed(log))
      ensures forall key :: key in db <==> exists i :: 0 <= i < |Performed(log)| && Names(Performed(log)[i], key)
      ensures forall key <- db :: db[key] == ValueOf(Performed(log), key)
      ensures Monotone(log) ==> db == Replay(Once(log))
      ensures log != [] ==> lastAppliedIndex == |log|
    {
      for i := 0 to |log|
        invariant Store(db, seqs) == ApplyAll(log[..i])
        invariant i > 0 ==> lastAppliedIndex == i
      {
        assert log[..i + 1][..i] == log[..i];
        ApplyMsg(log[i], i + 1);
      }
      assert log[..|log|] == log;
      DatabaseIs(log);
      forall key
        ensures key in db <==> exists i :: 0 <= i < |Performed(log)| && Names(Performed(log)[i], key)
        ensures key in db ==> db[key] == ValueOf(Performed(log), key)
      {
        ReplayIs(Performed(log), key);
      }
      if Monotone(log) { ExactlyOnce(log); }
    }
  }
}
