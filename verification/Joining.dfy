/** How the many-epoch model and the one-epoch model meet: once all replicas follow a line, what the sound truncations
    left is the start of a run of one epoch. */
module Joining {
  import opened Search
  import H = HandOver
  import opened Partition
  import opened Replication

  // ---------------------------------------------------------------- what every step keeps

  ghost predicate Basic(s: H.Cluster) {
    && s.minISR > 0
    && (forall n :: 0 <= n < |s.lines| ==> s.lines[n].hw >= -1)
    && (forall id :: 0 <= id < |s.replicas| ==> s.replicas[id].hw >= -1)
  }

  lemma {:induction false} StepKeepsBasic(s: H.Cluster, step: H.Step)
    requires Basic(s) && H.Enabled(s, step)
    ensures Basic(H.Next(s, step))
  {
  }

  lemma {:induction false} RunKeepsBasic(run: seq<H.Cluster>, steps: seq<H.Step>, n: nat)
    requires H.IsRun(run, steps) && n < |run|
    ensures Basic(run[n])
  {
    if n == 0 {
    } else {
      RunKeepsBasic(run, steps, n - 1);
      assert H.StepAt(run, steps, n - 1);
      StepKeepsBasic(run[n - 1], steps[n - 1]);
    }
  }

  // ---------------------------------------------------------------- the same state in the other model

  /** Messages with their offsets; none asks for an acknowledgement any more. */
  function RecordsOf(log: seq<H.Msg>): (rs: seq<Record>)
    ensures |rs| == |log|
    ensures forall i :: 0 <= i < |log| ==> rs[i] == Record(i, Message(log[i].payload, "", NONE))
  {
    seq(|log|, i requires 0 <= i < |log| => Record(i, Message(log[i].payload, "", NONE)))
  }

  ghost predicate Distinct(names: seq<string>) {
    forall i, j :: 0 <= i < j < |names| ==> names[i] != names[j]
  }

  /** The replica a name stands for. */
  function Number(names: seq<string>, name: string): (m: nat)
    requires name in names
    ensures m < |names| && names[m] == name
  {
    if names[0] == name then 0 else 1 + Number(names[1..], name)
  }

  function Named(offsets: map<nat, int>, names: seq<string>): map<string, int> {
    map name | name in names && Number(names, name) in offsets :: offsets[Number(names, name)]
  }

  function FollowersOf(s: H.Cluster, names: seq<string>, leader: string): map<string, Follower>
    requires |names| == |s.replicas|
  {
    map name | name in names && name != leader ::
      var r := s.replicas[Number(names, name)]; Follower(RecordsOf(r.log), r.hw)
  }

  function WatermarksOf(s: H.Cluster, names: seq<string>, leader: string): map<string, int>
    requires |names| == |s.replicas|
  {
    map name | name in names && name != leader :: s.replicas[Number(names, name)].hw
  }

  function ConfigOf(s: H.Cluster, line: nat, names: seq<string>): Config
    requires line < |s.lines| && s.lines[line].leader < |names|
  {
    Config(names[s.lines[line].leader], (set name | name in names), s.lines[line].epoch, s.minISR)
  }

  function SystemOf(s: H.Cluster, line: nat, names: seq<string>): System
    requires |names| == |s.replicas| && line < |s.lines| && s.lines[line].leader < |names|
  {
    var l := s.lines[line];
    var isr, log, self := Named(l.isr, names), RecordsOf(l.log), names[l.leader];
    System(Leader(log, l.hw, isr, [], true, [], None, [], []), None, FollowersOf(s, names, self), {}, {}, |log|, l.hw,
           WatermarksOf(s, names, self), isr, isr.Keys)
  }

  // ---------------------------------------------------------------- an epoch begins

  lemma {:induction false} PrefixRecords(a: seq<H.Msg>, b: seq<H.Msg>)
    requires a <= b
    ensures RecordsOf(a) <= RecordsOf(b)
  {
    assert forall i :: 0 <= i < |a| ==> a[i] == b[i];
  }

  lemma {:induction false} FollowersBegin(s: H.Cluster, names: seq<string>, leader: string, log: seq<H.Msg>)
    requires |names| == |s.replicas| && forall id :: 0 <= id < |s.replicas| ==> s.replicas[id].log <= log
    ensures var fs, hws := FollowersOf(s, names, leader), WatermarksOf(s, names, leader);
            && fs.Keys == hws.Keys == (set name | name in names) - {leader}
            && forall r <- fs :: fs[r].log <= RecordsOf(log) && fs[r].hw == hws[r]
  {
    var fs := FollowersOf(s, names, leader);
    forall r | r in fs ensures fs[r].log <= RecordsOf(log) {
      PrefixRecords(s.replicas[Number(names, r)].log, log);
    }
  }

  /** All replicas follow the line, which is led. */
  ghost predicate AllJoined(s: H.Cluster, line: nat) {
    H.IsLed(s, line) && forall id :: 0 <= id < |s.replicas| ==> s.replicas[id].line == line
  }

  /**
   * In every run of many epochs whose truncations were sound, once all replicas follow a line, its leader, its
   * followers, its high watermarks and its tracked offsets are those a run of one epoch begins with.
   */
  lemma {:induction false} SoundRunBeginsEpoch(run: seq<H.Cluster>, steps: seq<H.Step>, n: nat, line: nat,
      names: seq<string>)
    requires H.IsRun(run, steps) && n < |run| && H.SoundUntil(run, steps, n) && AllJoined(run[n], line)
    requires Distinct(names) && |names| == |run[n].replicas|
    ensures Init(ConfigOf(run[n], line, names), SystemOf(run[n], line, names))
  {
    var s := run[n];
    H.RunKeepsInv(run, steps, n);
    RunKeepsBasic(run, steps, n);
    assert H.LineInv(s.lines, line) && H.LineInv(s.lines, line - 1);
    forall id | 0 <= id < |s.replicas| ensures s.replicas[id].log <= s.lines[line].log {
      assert H.ReplicaInv(s.replicas[id], id, s.lines[line]);
    }
    StateBegins(s, line, names);
  }

  lemma {:induction false} StateBegins(s: H.Cluster, line: nat, names: seq<string>)
    requires |names| == |s.replicas| && line < |s.lines| && s.lines[line].leader < |names|
    requires s.minISR > 0 && s.lines[line].epoch > 0 && s.lines[line].hw >= -1
    requires forall id :: 0 <= id < |s.replicas| ==> s.replicas[id].log <= s.lines[line].log
    ensures Init(ConfigOf(s, line, names), SystemOf(s, line, names))
  {
    FollowersBegin(s, names, names[s.lines[line].leader], s.lines[line].log);
  }

  /** The tracked offsets are those of the line, by name. */
  lemma {:induction false} OffsetsByName(s: H.Cluster, line: nat, names: seq<string>, id: nat)
    requires Distinct(names) && |names| == |s.replicas| && line < |s.lines| && s.lines[line].leader < |names|
    requires id < |names|
    ensures var t := SystemOf(s, line, names);
            && (names[id] in t.tracked0 <==> id in s.lines[line].isr)
            && (id in s.lines[line].isr ==> t.tracked0[names[id]] == s.lines[line].isr[id])
  {
    assert Number(names, names[id]) == id;
  }

  /** The messages are the same, one by one. */
  ghost predicate SamePayloads(rs: seq<Record>, log: seq<H.Msg>) {
    |rs| == |log| && forall i :: 0 <= i < |log| ==> rs[i].offset == i && rs[i].message.payload == log[i].payload
  }

  /** So it is the same leader with the same log and watermark, and so is every follower. */
  lemma {:induction false} StateByName(s: H.Cluster, line: nat, names: seq<string>, id: nat)
    requires Distinct(names) && |names| == |s.replicas| && line < |s.lines| && s.lines[line].leader < |names|
    requires id < |names| && id != s.lines[line].leader
    ensures var c, t, l := ConfigOf(s, line, names), SystemOf(s, line, names), s.lines[line];
            && c.minISR == s.minISR && c.epoch == l.epoch && c.self == names[l.leader]
            && t.leader.hw == l.hw && SamePayloads(t.leader.log, l.log)
            && names[id] in t.followers && t.followers[names[id]].hw == s.replicas[id].hw
            && SamePayloads(t.followers[names[id]].log, s.replicas[id].log)
  {
    assert Number(names, names[id]) == id;
  }
}
