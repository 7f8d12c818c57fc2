/** Snapshots of the shard server carry an index that UC and UD entries do not advance, so a
    restored server replays entries whose effect the snapshot already holds. */
module ShardSnapshot {
  import opened ShardConfig
  import opened ShardGroup
  import opened ShardSystem
  import opened ShardInvariant
  import opened ShardSafety

  /** Entries that do not advance the recorded index. */
  predicate Silent(c: Command) {
    c.UC? || c.UD?
  }

  /** Applying entries to a group, from left to right. */
  function Redo(g: Group, entries: seq<Command>): Group
    decreases |entries|
  {
    if entries == [] then g else Redo(Obey(g, entries[0]), entries[1..])
  }

  /** An entry that leaves the group alone when it comes again. */
  predicate Spent(g: Group, c: Command) {
    match c
    case UC(config) => config.num <= g.config.num
    case UD(m) => m.num != g.config.num - 1 || (m.shard in g.available && m.shard !in g.comeIn)
    case _ => false
  }

  lemma SpentLeavesAlone(g: Group, c: Command)
    requires Spent(g, c)
    ensures Obey(g, c) == g
  {
    if c.UD? { assert c.migration.shard !in g.comeIn ==> g.comeIn - {c.migration.shard} == g.comeIn; }
  }

  lemma {:induction false} AllSpent(g: Group, entries: seq<Command>)
    requires forall c <- entries :: Spent(g, c)
    ensures Redo(g, entries) == g
    decreases |entries|
  {
    if entries != [] {
      SpentLeavesAlone(g, entries[0]);
      AllSpent(g, entries[1..]);
    }
  }

  /** Silent entries that are not new configurations only add to what is served and only take
      from what is awaited. */
  lemma {:induction false} SilentMonotone(g: Group, entries: seq<Command>, s: int)
    requires forall c <- entries :: Silent(c) && (c.UC? ==> c.config.num <= g.config.num)
    ensures s in g.available ==> s in Redo(g, entries).available
    ensures s !in g.comeIn ==> s !in Redo(g, entries).comeIn
    ensures Redo(g, entries).config == g.config
    decreases |entries|
  {
    if entries != [] {
      assert entries[0] in entries;
      SilentMonotone(Obey(g, entries[0]), entries[1..], s);
    }
  }

  /** Replaying silent entries whose configurations are known changes nothing exactly if every
      pulled shard for the current configuration is already served and no longer awaited. */
  lemma {:induction false} ReplayHarmlessIff(g: Group, entries: seq<Command>)
    requires forall c <- entries :: Silent(c) && (c.UC? ==> c.config.num <= g.config.num)
    ensures Redo(g, entries) == g <==> forall c <- entries :: Spent(g, c)
    decreases |entries|
  {
    if forall c <- entries :: Spent(g, c) {
      AllSpent(g, entries);
    } else if Spent(g, entries[0]) {
      SpentLeavesAlone(g, entries[0]);
      ReplayHarmlessIff(g, entries[1..]);
      assert entries == [entries[0]] + entries[1..];
    } else {
      assert entries[0] in entries;
      SilentMonotone(Obey(g, entries[0]), entries[1..], entries[0].migration.shard);
    }
  }

  // ---------- Snapshots at any moment of a run ----------

  /** In every run, data is applied only at groups past the configuration it was pulled for. */
  lemma PulledInOrder(gids: set<int>, b: Behaviour, i: nat, gid: int, m: Migration)
    requires IsRun(gids, b) && i < |b.steps| && b.steps[i] == Apply(gid, UD(m))
    ensures gid in b.states[i].groups && m.num < b.states[i].groups[gid].config.num
  {
    var h := RunHolds(gids, b, i);
    assert Follows(b.states[i], b.steps[i], b.states[i + 1]);
    assert CommandOk(b.states[i], h, gid, UD(m));
  }

  /** The log entries that a group has applied in the first `i` steps. */
  function Applied(b: Behaviour, i: nat, gid: int): seq<Command>
    requires i <= |b.steps|
  {
    if i == 0 then []
    else if b.steps[i - 1].Apply? && b.steps[i - 1].gid == gid
    then Applied(b, i - 1, gid) + [b.steps[i - 1].command]
    else Applied(b, i - 1, gid)
  }

  /** The index a snapshot records after these entries: the last one that is not silent. */
  function Recorded(log: seq<Command>): (k: nat)
    ensures k <= |log| && forall j :: k <= j < |log| ==> Silent(log[j])
    ensures k > 0 ==> !Silent(log[k - 1])
  {
    if log == [] then 0
    else if Silent(log[|log| - 1]) then Recorded(log[..|log| - 1])
    else |log|
  }

  /** The applied entries that a restored server gets again. */
  function Again(b: Behaviour, i: nat, gid: int): seq<Command>
    requires i <= |b.steps|
  {
    var log := Applied(b, i, gid);
    log[Recorded(log)..]
  }

  /** An entry whose replay is harmless and stays so: the group is past it. */
  predicate Behind(g: Group, c: Command) {
    Silent(c) && Spent(g, c) && (c.UD? ==> c.migration.num < g.config.num)
  }

  predicate AllBehind(g: Group, entries: seq<Command>) {
    forall c <- entries :: Behind(g, c)
  }

  lemma AgainStep(b: Behaviour, i: nat, gid: int)
    requires i < |b.steps|
    ensures var step := b.steps[i];
            Again(b, i + 1, gid) ==
            if step.Apply? && step.gid == gid
            then (if Silent(step.command) then Again(b, i, gid) + [step.command] else [])
            else Again(b, i, gid)
  {
    var step, log := b.steps[i], Applied(b, i, gid);
    if step.Apply? && step.gid == gid {
      assert (log + [step.command])[..|log|] == log;
    }
  }

  /** Applying an entry leaves the group past it, and past whatever it was past before. */
  lemma ObeyBehind(g: Group, c: Command, d: Command)
    requires Silent(c) && (c.UD? ==> c.migration.num < g.config.num)
    ensures Behind(Obey(g, c), c)
    ensures Behind(g, d) ==> Behind(Obey(g, c), d)
  {
    hide ShardData, Without, SetAside, MergeSeqs;
  }

  /** What happens off the log, and at other groups, does not bring anything back. */
  lemma OffLogBehind(s: System, step: Step, gid: int, d: Command)
    requires Enabled(s, step) && gid in s.groups && !(step.Apply? && step.gid == gid)
    ensures gid in Execute(s, step).groups
    ensures Behind(s.groups[gid], d) ==> Behind(Execute(s, step).groups[gid], d)
  {
  }

  lemma {:induction false} AgainBehind(gids: set<int>, b: Behaviour, i: nat, gid: int)
    requires IsRun(gids, b) && i <= |b.steps| && gid in gids
    ensures gid in b.states[i].groups && AllBehind(b.states[i].groups[gid], Again(b, i, gid))
  {
    hide Behind, Execute, Enabled, Obey;
    if i > 0 {
      var s, step := b.states[i - 1], b.steps[i - 1];
      AgainBehind(gids, b, i - 1, gid);
      AgainStep(b, i - 1, gid);
      assert Follows(s, step, b.states[i]);
      forall c | c in Again(b, i, gid)
        ensures gid in b.states[i].groups && Behind(b.states[i].groups[gid], c)
      {
        RunStepBehind(gids, b, i, gid, c);
      }
      StillThere(s, step, gid);
    }
  }

  lemma StillThere(s: System, step: Step, gid: int)
    requires Enabled(s, step) && gid in s.groups
    ensures gid in Execute(s, step).groups
  {
  }

  lemma RunStepBehind(gids: set<int>, b: Behaviour, i: nat, gid: int, c: Command)
    requires IsRun(gids, b) && 0 < i <= |b.steps| && gid in b.states[i - 1].groups
    requires AllBehind(b.states[i - 1].groups[gid], Again(b, i - 1, gid))
    requires c in Again(b, i, gid)
    ensures gid in b.states[i].groups && Behind(b.states[i].groups[gid], c)
  {
    hide Behind, Obey, Again;
    var s, step := b.states[i - 1], b.steps[i - 1];
    AgainStep(b, i - 1, gid);
    assert Follows(s, step, b.states[i]);
    if step.Apply? && step.gid == gid {
      if step.command.UD? { PulledInOrder(gids, b, i - 1, gid, step.command.migration); }
      ObeyBehind(s.groups[gid], step.command, c);
    } else {
      OffLogBehind(s, step, gid, c);
    }
  }

  /** A snapshot taken at any moment of any run and restored, followed by every entry after
      its recorded index that had been applied, gives back the state at the snapshot. */
  lemma LateIndexHarmless(gids: set<int>, b: Behaviour, i: nat, gid: int)
    requires IsRun(gids, b) && i <= |b.steps| && gid in gids
    ensures gid in b.states[i].groups
    ensures var log := Applied(b, i, gid);
            Redo(b.states[i].groups[gid], log[Recorded(log)..]) == b.states[i].groups[gid]
  {
    AgainBehind(gids, b, i, gid);
    AllSpent(b.states[i].groups[gid], Again(b, i, gid));
  }

  /** Without the order of `PulledInOrder` it fails: data that came before its configuration is ignored first
      and installed on replay. */
  lemma EarlyDataIsReplayed(g: Group, config: Config, m: Migration)
    requires m.num == g.config.num >= 1 && config.num == g.config.num + 1 && m.shard !in g.available
    ensures var entries := [UD(m), UC(config)];
            Redo(Redo(g, entries), entries) != Redo(g, entries)
  {
    var entries := [UD(m), UC(config)];
    var g' := Redo(g, entries);
    assert g' == UpdateConfig(g, config) by {
      assert Obey(g, UD(m)) == g;
      assert entries[1..] == [UC(config)] && [UC(config)][1..] == [];
      assert Redo(g, [UC(config)]) == Redo(UpdateConfig(g, config), []);
    }
    assert m.shard !in g'.available;
    assert !Spent(g', entries[0]);
    ReplayHarmlessIff(g', entries);
  }
}
