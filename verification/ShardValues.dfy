/** What a key holds after a sequence of operations, said without carrying them out. */
module ShardValues {
  import opened ShardGroup

  predicate Names(op: Op, key: string) { op.kind != Get && op.key == key }

  /** The last put of the key, or -1. */
  function LastPut(ops: seq<Op>, key: string): (p: int)
    ensures -1 <= p < |ops|
    ensures p >= 0 ==> ops[p].kind == Put && ops[p].key == key
    ensures forall i :: p < i < |ops| ==> !(ops[i].kind == Put && ops[i].key == key)
  {
    if ops == [] then -1
    else if ops[|ops| - 1].kind == Put && ops[|ops| - 1].key == key then |ops| - 1
    else LastPut(ops[..|ops| - 1], key)
  }

  /** The values appended to the key from position `from` on, put together in order. */
  function Appended(ops: seq<Op>, key: string, from: nat): string
    requires from <= |ops|
    decreases |ops| - from
  {
    if from == |ops| then ""
    else (if ops[from].kind == Append && ops[from].key == key then ops[from].value else "") + Appended(ops, key, from + 1)
  }

  /** The last value put, if any, followed by everything appended since. */
  function ValueOf(ops: seq<Op>, key: string): string {
    var p := LastPut(ops, key);
    (if p == -1 then "" else ops[p].value) + Appended(ops, key, p + 1)
  }

  lemma {:induction false} AppendedSnoc(ops: seq<Op>, op: Op, key: string, from: nat)
    requires from <= |ops|
    ensures Appended(ops + [op], key, from) ==
            Appended(ops, key, from) + (if op.kind == Append && op.key == key then op.value else "")
    decreases |ops| - from
  {
    var more := ops + [op];
    if from < |ops| {
      assert more[from] == ops[from];
      AppendedSnoc(ops, op, key, from + 1);
    } else {
      assert more[from] == op && Appended(more, key, from + 1) == "";
    }
  }

  lemma LastPutSnoc(ops: seq<Op>, op: Op, key: string)
    ensures LastPut(ops + [op], key) == if op.kind == Put && op.key == key then |ops| else LastPut(ops, key)
  {
    assert (ops + [op])[..|ops|] == ops;
  }

  lemma ValueSnoc(ops: seq<Op>, op: Op, key: string)
    ensures ValueOf(ops + [op], key) ==
            if !Names(op, key) then ValueOf(ops, key)
            else if op.kind == Put then op.value else ValueOf(ops, key) + op.value
  {
    hide LastPut;
    LastPutSnoc(ops, op, key);
    var p := LastPut(ops + [op], key);
    if p == |ops| {
      assert op.value + "" == op.value;
    } else {
      AppendedSnoc(ops, op, key, p + 1);
      assert p >= 0 ==> (ops + [op])[p] == ops[p];
      assert ValueOf(ops, key) + "" == ValueOf(ops, key);
    }
  }

  lemma {:induction false} NothingAppended(ops: seq<Op>, key: string, from: nat)
    requires from <= |ops| && forall i :: 0 <= i < |ops| ==> !Names(ops[i], key)
    ensures Appended(ops, key, from) == ""
    decreases |ops| - from
  {
    if from < |ops| { NothingAppended(ops, key, from + 1); }
  }

  /** A key is in the data exactly if some put or append names it, and then holds the last value put followed by
      the values appended since, in order. */
  lemma {:induction false} ReplayIs(ops: seq<Op>, key: string)
    ensures key in Replay(ops) <==> exists i :: 0 <= i < |ops| && Names(ops[i], key)
    ensures key in Replay(ops) ==> Replay(ops)[key] == ValueOf(ops, key)
  {
    if ops != [] {
      var k := |ops| - 1;
      var before, op := ops[..k], ops[k];
      assert ops == before + [op];
      ReplayIs(before, key);
      ValueSnoc(before, op, key);
      assert forall i :: 0 <= i < k ==> before[i] == ops[i];
      if key !in Replay(before) { ValueOfUnnamed(before, key); }
      assert "" + op.value == op.value;
    }
  }

  lemma ValueOfUnnamed(ops: seq<Op>, key: string)
    requires forall i :: 0 <= i < |ops| ==> !Names(ops[i], key)
    ensures ValueOf(ops, key) == ""
  {
    assert LastPut(ops, key) == -1;
    NothingAppended(ops, key, 0);
  }
}
