/** Which entries the metadata leader proposes, and when a partition's leader stays in its ISR. */
module Proposals {
  import opened Search
  import opened Metadata

  // ---------------------------------------------------------------- proposing

  /** The check before a change of the ISR is proposed: it comes from the current leader, about another replica. */
  predicate MayChangeISR(s: Store, op: Op)
    requires op.Shrink? || op.Expand?
  {
    && Has(s, op.stream, op.id) && op.replica != op.leader
    && s[op.stream][op.id].leader == op.leader && s[op.stream][op.id].leaderEpoch == op.leaderEpoch
  }

  /** The choice of a new leader for partition `about`: another member of its ISR. The entry does not carry the number
      of the partition, so it is about partition 0. */
  predicate MayElect(s: Store, op: Op, about: int)
    requires op.ChangeLeader?
  {
    && Has(s, op.stream, about) && op.id == 0 && |s[op.stream][about].isr| > 1
    && op.leader in s[op.stream][about].isr && op.leader != s[op.stream][about].leader
  }

  /** The entry could be proposed in this state. Creation puts all replicas in the ISR and takes the leader from
      them. */
  predicate MayPropose(s: Store, op: Op, about: int) {
    match op
    case Create(_, _, leader, replicas, isr) => isr == replicas && leader in replicas
    case Shrink(_, _, _, _, _) => MayChangeISR(s, op)
    case Expand(_, _, _, _, _) => MayChangeISR(s, op)
    case ChangeLeader(_, _, _) => MayElect(s, op, about)
    case _ => true
  }

  /** When an entry was proposed: how much of the log the proposer had applied, and which partition it was about. */
  datatype Origin = Origin(seen: nat, about: int)

  /** Every entry of the log was proposed by a server that had applied some part of the log before it. */
  ghost predicate Proposed(log: seq<Op>, origins: seq<Origin>) {
    |origins| == |log| && forall i :: 0 <= i < |log| ==> ProposedAt(log, origins, i)
  }

  ghost predicate ProposedAt(log: seq<Op>, origins: seq<Origin>, i: nat)
    requires i < |log| == |origins|
  {
    origins[i].seen <= i && After(log, origins[i].seen).Some?
    && MayPropose(After(log, origins[i].seen).value, log[i], origins[i].about)
  }

  // ---------------------------------------------------------------- the leader and its ISR

  predicate LeaderInISR(p: Part) {
    p.leader in p.isr
  }

  ghost predicate InSync(s: Store) {
    forall stream, id :: Has(s, stream, id) ==> LeaderInISR(s[stream][id])
  }

  /** The entry neither removes the leader of its partition nor names one from outside the ISR. */
  predicate Harmless(s: Store, op: Op) {
    match op
    case Create(stream, id, leader, _, isr) => (Has(s, stream, id) && !s[stream][id].paused) || leader in isr
    case Shrink(stream, id, replica, _, _) => Has(s, stream, id) ==> replica != s[stream][id].leader
    case ChangeLeader(stream, id, leader) => Has(s, stream, id) ==> leader in s[stream][id].isr
    case _ => true
  }

  /** The entry is about this partition alone. */
  predicate About(op: Op, stream: string, id: int) {
    (Guards(op) || op.Create?) && op.stream == stream && op.id == id
  }

  /** A partition an entry is not about, or only pauses, keeps its leader and its ISR. */
  lemma {:induction false} OthersStay(s: Store, op: Op, index: nat, stream: string, id: int)
    requires !About(op, stream, id) && Has(Step(s, op, index).0, stream, id)
    ensures Has(s, stream, id) && (LeaderInISR(Step(s, op, index).0[stream][id]) <==> LeaderInISR(s[stream][id]))
  {
    StepIsLocal(s, op, index, stream, id);
  }

  lemma {:induction false} ChangedStays(log: seq<Op>, n: nat)
    requires n < |log| && After(log, n + 1).Some? && After(log, n).Some? && InSync(After(log, n).value) &&
             Guards(log[n])
    ensures var s, t, op := After(log, n).value, After(log, n + 1).value, log[n];
            Has(t, op.stream, op.id) && (LeaderInISR(t[op.stream][op.id]) <==> Harmless(s, op))
  {
    EntryTakesEffect(log, n);
    assert LeaderInISR(After(log, n).value[log[n].stream][log[n].id]);
  }

  lemma {:induction false} CreatedStays(s: Store, op: Op, index: nat)
    requires InSync(s) && op.Create?
    ensures var t := Step(s, op, index).0;
            Has(t, op.stream, op.id) && (LeaderInISR(t[op.stream][op.id]) <==> Harmless(s, op))
  {
    if Has(s, op.stream, op.id) {
      assert LeaderInISR(s[op.stream][op.id]);
    }
  }

  /** An entry applied in order keeps every leader in its ISR if and only if it is harmless. */
  lemma {:induction false} EntryKeepsInSync(log: seq<Op>, n: nat)
    requires n < |log| && After(log, n + 1).Some? && After(log, n).Some? && InSync(After(log, n).value)
    ensures InSync(After(log, n + 1).value) <==> Harmless(After(log, n).value, log[n])
  {
    var s, t, op := After(log, n).value, After(log, n + 1).value, log[n];
    if Guards(op) {
      ChangedStays(log, n);
    } else if op.Create? {
      CreatedStays(s, op, n + 1);
    }
    forall stream, id | Has(t, stream, id) && !About(op, stream, id) ensures LeaderInISR(t[stream][id]) {
      OthersStay(s, op, n + 1, stream, id);
    }
  }

  ghost predicate SyncedAfter(log: seq<Op>, m: nat)
    requires m <= |log|
  {
    After(log, m).Some? && InSync(After(log, m).value)
  }

  predicate HarmlessAt(log: seq<Op>, i: nat)
    requires i < |log|
  {
    After(log, i).Some? && Harmless(After(log, i).value, log[i])
  }

  /** Over every log: each state has every leader in its ISR if and only if each entry is harmless where it is
      applied. */
  lemma {:induction false} LeadersStayInSync(log: seq<Op>, n: nat)
    requires n <= |log| && After(log, n).Some?
    ensures (forall m :: 0 <= m <= n ==> SyncedAfter(log, m)) <==> (forall i :: 0 <= i < n ==> HarmlessAt(log, i))
  {
    if n == 0 {
      assert SyncedAfter(log, 0);
    } else {
      EarlierRuns(log, n - 1, n);
      LeadersStayInSync(log, n - 1);
      if SyncedAfter(log, n - 1) {
        EntryKeepsInSync(log, n - 1);
        assert SyncedAfter(log, n) <==> HarmlessAt(log, n - 1);
      }
    }
  }

  // ---------------------------------------------------------------- where harm comes from

  /** The entry is applied to what it was proposed for: the leader epoch it names is still current, or nothing about the
      partition has changed since a new leader was chosen for it. */
  ghost predicate Timely(log: seq<Op>, origins: seq<Origin>, i: nat)
    requires Proposed(log, origins) && i < |log| && After(log, i).Some?
  {
    var s, op := After(log, i).value, log[i];
    && (op.Shrink? && Has(s, op.stream, op.id) ==> s[op.stream][op.id].leaderEpoch == op.leaderEpoch)
    && (op.ChangeLeader? && Has(s, op.stream, op.id) ==>
          && ProposedAt(log, origins, i) && origins[i].about == 0
          && s[op.stream][op.id].epoch == After(log, origins[i].seen).value[op.stream][op.id].epoch)
  }

  /** A timely entry is harmless: what removes a leader from its ISR, or puts one outside it, is a removal applied
      after the leader changed, or an election applied after the ISR changed or to another partition than the one it
      was for. */
  lemma {:induction false} TimelyIsHarmless(log: seq<Op>, origins: seq<Origin>, i: nat)
    requires Proposed(log, origins) && i < |log| && After(log, i).Some? && Timely(log, origins, i)
    ensures Harmless(After(log, i).value, log[i])
  {
    assert ProposedAt(log, origins, i);
    var op, seen := log[i], origins[i].seen;
    if op.Shrink? && Has(After(log, i).value, op.stream, op.id) {
      LeaderAgreement(log, seen, i, op.stream, op.id);
    } else if op.ChangeLeader? && Has(After(log, i).value, op.stream, op.id) {
      EpochAgreement(log, seen, i, op.stream, op.id);
    }
  }

  /** So over every log whose entries are all timely, each state has every leader in its ISR. */
  lemma {:induction false} TimelyLogsStayInSync(log: seq<Op>, origins: seq<Origin>, n: nat)
    requires Proposed(log, origins) && n <= |log| && After(log, n).Some?
    requires forall i :: 0 <= i < n ==> After(log, i).Some? && Timely(log, origins, i)
    ensures InSync(After(log, n).value)
  {
    LeadersStayInSync(log, n);
    forall i | 0 <= i < n ensures HarmlessAt(log, i) {
      TimelyIsHarmless(log, origins, i);
    }
    assert SyncedAfter(log, n);
  }

  const RACE: seq<Op> :=
    [Create("s", 0, "a", {"a", "b"}, {"a", "b"}), ChangeLeader("s", 0, "b"), Shrink("s", 0, "b", "a", 1)]

  const RACE_ORIGINS: seq<Origin> := [Origin(0, 0), Origin(1, 0), Origin(1, 0)]

  /** The partition after the first `n` entries. */
  ghost predicate IsAfter(log: seq<Op>, n: nat, id: int, p: Part)
    requires n <= |log|
  {
    After(log, n).Some? && Get(After(log, n).value, "s", id) == Some(p)
  }

  lemma {:induction false} RaceStates()
    ensures var p := Part("a", 1, 1, {"a", "b"}, {"a", "b"}, false);
            && IsAfter(RACE, 1, 0, p) && IsAfter(RACE, 2, 0, p.(leader := "b", leaderEpoch := 2, epoch := 2))
            && IsAfter(RACE, 3, 0, p.(leader := "b", leaderEpoch := 2, epoch := 3, isr := {"a"}))
  {
    assert After(RACE, 0) == Some(map[]);
    assert {"a", "b"} - {"b"} == {"a"};
  }

  /** A removal proposed before a leader change and applied after it leaves a leader outside its ISR. Each entry could
      be proposed when it was. */
  lemma {:induction false} RacingShrinkRemovesLeader()
    ensures Proposed(RACE, RACE_ORIGINS)
    ensures After(RACE, 3).Some? && Has(After(RACE, 3).value, "s", 0) && !LeaderInISR(After(RACE, 3).value["s"][0])
  {
    RaceStates();
    assert |{"a", "b"}| == 2;
    assert forall i :: 0 <= i < |RACE| ==> ProposedAt(RACE, RACE_ORIGINS, i);
  }

  /** The partition has this leader since entry `i`. */
  predicate LedSince(s: Store, stream: string, id: int, leader: Id, i: nat) {
    Has(s, stream, id) && s[stream][id].leader == leader && s[stream][id].leaderEpoch == i + 1
  }

  /**
   * Over every log of proposed entries: an election that is applied gives the partition it was for the chosen leader if
   * and only if that is partition 0, and otherwise leaves it as it was.
   */
  lemma {:induction false} ElectionReachesFirst(log: seq<Op>, origins: seq<Origin>, i: nat)
    requires Proposed(log, origins) && i < |log| && log[i].ChangeLeader? && After(log, i + 1).Some?
    ensures var op, about := log[i], origins[i].about;
            && After(log, i).Some?
            && (LedSince(After(log, i + 1).value, op.stream, about, op.leader, i) <==> about == 0)
            && (about != 0 ==>
                Get(After(log, i + 1).value, op.stream, about) == Get(After(log, i).value, op.stream, about))
  {
    var op, about := log[i], origins[i].about;
    assert ProposedAt(log, origins, i);
    EntryTakesEffect(log, i);
    if about != 0 {
      StepIsLocal(After(log, i).value, op, i + 1, op.stream, about);
      if Has(After(log, i).value, op.stream, about) {
        PartStaysOk(log, i, op.stream, about);
      }
    }
  }

  const ASTRAY: seq<Op> :=
    [Create("s", 0, "a", {"a"}, {"a"}), Create("s", 1, "b", {"b", "c"}, {"b", "c"}), ChangeLeader("s", 0, "c")]

  const ASTRAY_ORIGINS: seq<Origin> := [Origin(0, 0), Origin(1, 0), Origin(2, 1)]

  lemma {:induction false} AstrayStates()
    ensures var p, q := Part("a", 1, 1, {"a"}, {"a"}, false), Part("b", 2, 2, {"b", "c"}, {"b", "c"}, false);
            && IsAfter(ASTRAY, 1, 0, p) && IsAfter(ASTRAY, 2, 0, p) && IsAfter(ASTRAY, 2, 1, q)
            && IsAfter(ASTRAY, 3, 0, p.(leader := "c", leaderEpoch := 3, epoch := 3)) && IsAfter(ASTRAY, 3, 1, q)
  {
    assert After(ASTRAY, 0) == Some(map[]);
  }

  /** Electing a leader for any partition but the first gives the first one a leader that is not even its replica, and
      leaves the other as it was. */
  lemma {:induction false} ElectionGoesAstray()
    ensures Proposed(ASTRAY, ASTRAY_ORIGINS)
    ensures After(ASTRAY, 3).Some? && Has(After(ASTRAY, 3).value, "s", 0) && Has(After(ASTRAY, 3).value, "s", 1)
    ensures var first, second := After(ASTRAY, 3).value["s"][0], After(ASTRAY, 3).value["s"][1];
            first.leader == "c" && "c" !in first.replicas && second.leader == "b"
  {
    AstrayStates();
    assert |{"b", "c"}| == 2;
    assert forall i :: 0 <= i < |ASTRAY| ==> ProposedAt(ASTRAY, ASTRAY_ORIGINS, i);
  }

  // ---------------------------------------------------------------- changes of a partition that is gone

  const GONE: seq<Op> :=
    [Create("s", 0, "a", {"a", "b"}, {"a", "b"}), Delete("s"), Shrink("s", 0, "b", "a", 1)]

  const GONE_ORIGINS: seq<Origin> := [Origin(0, 0), Origin(1, 0), Origin(1, 0)]

  /** A removal proposed before the stream is deleted and applied after it stops every server that applies it. */
  lemma {:induction false} RacingDeleteStops()
    ensures Proposed(GONE, GONE_ORIGINS) && After(GONE, 2) == Some(map[]) && After(GONE, 3).None?
  {
    assert After(GONE, 0) == Some(map[]);
    assert IsAfter(GONE, 1, 0, Part("a", 1, 1, {"a", "b"}, {"a", "b"}, false));
    assert After(GONE, 2).value == map[];
    assert forall i :: 0 <= i < |GONE| ==> ProposedAt(GONE, GONE_ORIGINS, i);
  }

  /** An entry that was proposed for a partition stops the server if and only if the log has deleted its stream since
      and not created the partition again, or the server it moves in or out of the ISR is no replica of it. */
  lemma {:induction false} ProposedStops(log: seq<Op>, origins: seq<Origin>, i: nat)
    requires Proposed(log, origins) && i < |log| && (log[i].Shrink? || log[i].Expand?) && After(log, i).Some?
    ensures var op, seen := log[i], origins[i].seen;
            After(log, i + 1).None? <==>
              || ((exists d :: seen <= d < i && log[d] == Delete(op.stream)) && !CreatedSince(log, i, op.stream, op.id))
              || (CreatedSince(log, i, op.stream, op.id) && !ReplicaAt(log, i, op))
  {
    var op, seen := log[i], origins[i].seen;
    assert ProposedAt(log, origins, i);
    PartitionsAreCreated(log, seen, op.stream, op.id);
    PartitionsAreCreated(log, i, op.stream, op.id);
    EntryStops(log, i, op, i + 1);
    if Has(After(log, i).value, op.stream, op.id) {
      PartStaysOk(log, i, op.stream, op.id);
    }
    if forall d :: seen <= d < i ==> log[d] != Delete(op.stream) {
      StillCreated(log, seen, i, op.stream, op.id);
    }
  }

  lemma {:induction false} StillCreated(log: seq<Op>, m: nat, n: nat, stream: string, id: int)
    requires m <= n <= |log| && CreatedSince(log, m, stream, id) && forall d :: m <= d < n ==> log[d] != Delete(stream)
    ensures CreatedSince(log, n, stream, id)
  {
    var i :| 0 <= i < m && CreatedAt(log, i, m, stream, id);
    assert CreatedAt(log, i, n, stream, id);
  }
}
