/** Why each part of the condition on elections is needed: runs in which a committed message is lost. In all of them the
    elected replica is in the ISR and every truncation is sound. */
module LostCommits {
  import opened EpochCache
  import opened HandOver
  import opened Durability
  import opened LateReplica

  // Replica 0 leads epoch 1. Replica 2 is taken out of the ISR; replica 1 fetches and reports the one message.
  const LOG: seq<Msg> := [Msg(1, "a")]
  const JOINED := NEW.(line := 1)
  const LEADER := WROTE_1
  const FETCHED := JOINED.(log := LOG, cache := [EpochOffset(1, 0)])
  const PAIR: map<nat, int> := map[0 := -1, 1 := -1]
  const BOTH: map<nat, int> := map[0 := 0, 1 := 0]
  const THREE: map<nat, int> := map[0 := 0, 1 := 0, 2 := -1]
  const REPORTED := LINE_1.(isr := BOTH, sent := map[1 := 0])

  function InLine(l: Line, replicas: seq<Replica>): Cluster {
    Cluster(1, [BEFORE, l], replicas)
  }

  const EMPTY := [LEADER.(log := []), JOINED, JOINED]
  const WRITTEN := [LEADER, JOINED, JOINED]
  const REPLICATED := [LEADER, FETCHED, JOINED]
  const IN_SYNC := InLine(REPORTED, REPLICATED)

  lemma {:induction false} OneJoins()
    requires Reachable(LED_1)
    ensures Reachable(InLine(LINE_1.(log := []), [LEADER.(log := []), JOINED, NEW]))
  {
    LookupSplits([EpochOffset(1, -1)], 1);
    StepIsReachable(LED_1, Follow(1, 1, 0), InLine(LINE_1.(log := []), [LEADER.(log := []), JOINED, NEW]));
  }

  lemma {:induction false} TwoJoins()
    requires Reachable(InLine(LINE_1.(log := []), [LEADER.(log := []), JOINED, NEW]))
    ensures Reachable(InLine(LINE_1.(log := []), EMPTY))
  {
    LookupSplits([EpochOffset(1, -1)], 1);
    StepIsReachable(InLine(LINE_1.(log := []), [LEADER.(log := []), JOINED, NEW]), Follow(2, 1, 0),
                    InLine(LINE_1.(log := []), EMPTY));
  }

  lemma {:induction false} TwoIsRemoved()
    requires Reachable(InLine(LINE_1.(log := []), EMPTY))
    ensures Reachable(InLine(LINE_1.(log := [], isr := PAIR), EMPTY))
  {
    assert FRESH - {2} == PAIR;
    ChangeIsReachable(InLine(LINE_1.(log := []), EMPTY), Remove(2), InLine(LINE_1.(log := [], isr := PAIR), EMPTY));
  }

  lemma {:induction false} ZeroWrites()
    requires Reachable(InLine(LINE_1.(log := [], isr := PAIR), EMPTY))
    ensures Reachable(InLine(LINE_1.(isr := PAIR), WRITTEN))
  {
    assert [] + [Msg(1, "a")] == LOG;
    StepIsReachable(InLine(LINE_1.(log := [], isr := PAIR), EMPTY), Write(0, "a"),
        InLine(LINE_1.(isr := PAIR), WRITTEN));
  }

  lemma {:induction false} OneFetches()
    requires Reachable(InLine(LINE_1.(isr := PAIR), WRITTEN))
    ensures Reachable(InLine(LINE_1.(isr := PAIR), REPLICATED))
  {
    assert [] + [Msg(1, "a")] == LOG;
    assert Assigned([], 1, 0) == FETCHED.cache;
    StepIsReachable(InLine(LINE_1.(isr := PAIR), WRITTEN), Fetch(1), InLine(LINE_1.(isr := PAIR), REPLICATED));
  }

  lemma {:induction false} OneReports()
    requires Reachable(InLine(LINE_1.(isr := PAIR), REPLICATED))
    ensures Reachable(InLine(REPORTED.(isr := PAIR), REPLICATED))
  {
    StepIsReachable(InLine(LINE_1.(isr := PAIR), REPLICATED), Request(1), InLine(REPORTED.(isr := PAIR), REPLICATED));
  }

  lemma {:induction false} OneIsTracked()
    requires Reachable(InLine(REPORTED.(isr := PAIR), REPLICATED))
    ensures Reachable(InLine(REPORTED.(isr := map[0 := -1, 1 := 0]), REPLICATED))
  {
    assert PAIR[1 := 0] == map[0 := -1, 1 := 0];
    StepIsReachable(InLine(REPORTED.(isr := PAIR), REPLICATED), Track(1, 1, 0),
                    InLine(REPORTED.(isr := map[0 := -1, 1 := 0]), REPLICATED));
  }

  lemma {:induction false} ZeroIsTracked()
    requires Reachable(InLine(REPORTED.(isr := map[0 := -1, 1 := 0]), REPLICATED))
    ensures Reachable(IN_SYNC)
  {
    var isr: map<nat, int> := map[0 := -1, 1 := 0];
    assert isr[0 := 0] == BOTH;
    StepIsReachable(InLine(REPORTED.(isr := map[0 := -1, 1 := 0]), REPLICATED), Report(1), IN_SYNC);
  }

  lemma {:induction false} InSyncIsReachable()
    ensures Reachable(IN_SYNC)
  {
    Starts();
    FirstLeads();
    OneJoins();
    TwoJoins();
    TwoIsRemoved();
    ZeroWrites();
    OneFetches();
    OneReports();
    OneIsTracked();
    ZeroIsTracked();
  }

  // ---------------------------------------------------------------- a replica that rejoined

  const DECIDED := REPORTED.(committed := 1)
  const REJOINED := InLine(DECIDED.(isr := THREE), REPLICATED)

  lemma {:induction false} ZeroDecides()
    requires Reachable(IN_SYNC)
    ensures Reachable(InLine(DECIDED, REPLICATED))
  {
    assert BOTH.Keys == {0, 1} && |BOTH| == |BOTH.Keys| == 2;
    StepIsReachable(IN_SYNC, Decide(1, 1), InLine(DECIDED, REPLICATED));
  }

  lemma {:induction false} TwoIsAdded()
    requires Reachable(InLine(DECIDED, REPLICATED))
    ensures Reachable(REJOINED)
  {
    assert BOTH[2 := -1] == THREE;
    ChangeIsReachable(InLine(DECIDED, REPLICATED), Add(2), REJOINED);
  }

  lemma {:induction false} RejoinedIsReachable()
    ensures Reachable(REJOINED)
  {
    InSyncIsReachable();
    ZeroDecides();
    TwoIsAdded();
  }

  /** The last line of a state lacks what was committed in an earlier one. */
  predicate Lost(s: Cluster, line: nat) {
    && line < |s.lines| && s.lines[line].committed <= |s.lines[line].log|
    && !(s.lines[line].log[..s.lines[line].committed] <= s.lines[|s.lines| - 1].log)
  }

  /** A replica that rejoined the ISR has not reported what was committed while it was out. Electing it loses that. */
  lemma {:induction false} RejoinedLoses()
    ensures Reachable(REJOINED) && 2 in Members(REJOINED.lines[1]) && Enabled(REJOINED, Elect(2, 2, FRESH))
    ensures Lost(Next(REJOINED, Elect(2, 2, FRESH)), 1)
  {
    RejoinedIsReachable();
    ThreeAreMembers(REJOINED.lines[1]);
  }

  // ---------------------------------------------------------------- in the ISR since the epoch began

  const LINE_B := Line(2, 1, 1, LOG, FRESH, [], map[], 0, -1)
  const LEADER_B := FETCHED.(cache := [EpochOffset(1, 0), EpochOffset(2, 0)], line := 2)
  const SUCCEEDED := Cluster(1, [BEFORE, REJOINED.lines[1], LINE_B], [LEADER, LEADER_B, JOINED])
  const FOLLOWED := SUCCEEDED.(replicas := [LEADER, LEADER_B, JOINED.(line := 2)])

  lemma {:induction false} ThreeAreMembers(l: Line)
    requires l.isr == THREE && l.pending == []
    ensures Members(l) == FRESH.Keys
  {
    assert AppliedAll(THREE, []) == THREE && THREE.Keys == FRESH.Keys;
  }

  lemma {:induction false} OneMayLead()
    ensures Enabled(REJOINED, Elect(1, 2, FRESH))
  {
    ThreeAreMembers(REJOINED.lines[1]);
  }

  lemma {:induction false} OneSucceeds()
    requires Reachable(REJOINED)
    ensures Reachable(SUCCEEDED)
  {
    OneMayLead();
    assert Assigned(FETCHED.cache, 2, 0) == LEADER_B.cache;
    ElectionIsReachable(REJOINED, 1, 2, FRESH, SUCCEEDED);
  }

  lemma {:induction false} TwoFollows()
    requires Reachable(SUCCEEDED)
    ensures Reachable(FOLLOWED) && SoundStep(SUCCEEDED, Follow(2, 2, 1), FOLLOWED)
  {
    LookupSplits(LEADER_B.cache, 1);
    StepIsReachable(SUCCEEDED, Follow(2, 2, 1), FOLLOWED);
  }

  /** A replica that has been in the ISR since the epoch began, with nothing committed in the epoch yet, need not have
      reported what the leader's log held at its start. Electing it loses what was committed before. */
  lemma {:induction false} AlwaysInSyncLoses()
    ensures Reachable(SUCCEEDED) && SoundStep(SUCCEEDED, Follow(2, 2, 1), FOLLOWED) && |SUCCEEDED.lines| == 3
    ensures 2 in SUCCEEDED.lines[2].isr && 2 in FOLLOWED.lines[2].isr && FOLLOWED.lines[2].committed == 0
    ensures Enabled(FOLLOWED, Elect(2, 3, FRESH)) && Lost(Next(FOLLOWED, Elect(2, 3, FRESH)), 1)
  {
    RejoinedIsReachable();
    OneSucceeds();
    TwoFollows();
    assert AppliedAll(FRESH, []) == FRESH;
  }

  // ---------------------------------------------------------------- a leader behind the Raft log

  const PROPOSED := InLine(REPORTED.(pending := [Add(2)]), REPLICATED)
  const LINE_C := Line(2, 2, 0, [], FRESH, [], map[], 0, -1)
  const LEADER_C := NEW.(cache := [EpochOffset(2, -1)], line := 2)
  const DEPOSED := Cluster(1, [BEFORE, REPORTED.(pending := [Add(2)]), LINE_C], [LEADER, FETCHED, LEADER_C])

  lemma {:induction false} TwoIsProposed()
    requires Reachable(IN_SYNC)
    ensures Reachable(PROPOSED)
  {
    ProposalIsReachable(IN_SYNC, Add(2), PROPOSED);
  }

  lemma {:induction false} MembersOfProposed()
    ensures Members(REPORTED.(pending := [Add(2)])) == FRESH.Keys
  {
    assert [Add(2)][1..] == [];
    assert AppliedAll(THREE, []) == THREE;
    assert BOTH[2 := -1] == THREE;
    assert AppliedAll(BOTH, [Add(2)]) == THREE;
    assert THREE.Keys == FRESH.Keys;
  }

  lemma {:induction false} TwoMayLead()
    ensures Enabled(PROPOSED, Elect(2, 2, FRESH))
  {
    MembersOfProposed();
  }

  lemma {:induction false} TwoLeads()
    requires Reachable(PROPOSED)
    ensures Reachable(DEPOSED)
  {
    TwoMayLead();
    assert Assigned([], 2, -1) == LEADER_C.cache;
    ElectionIsReachable(PROPOSED, 2, 2, FRESH, DEPOSED);
  }

  /** A leader that has not yet heard that a replica joined the ISR and was elected goes on committing without it. */
  lemma {:induction false} LaggingLeaderLoses()
    ensures Reachable(PROPOSED) && 2 in Members(PROPOSED.lines[1]) && Reachable(DEPOSED)
    ensures Enabled(DEPOSED, Decide(1, 1)) && Lost(Next(DEPOSED, Decide(1, 1)), 1)
  {
    InSyncIsReachable();
    TwoIsProposed();
    MembersOfProposed();
    TwoLeads();
    assert BOTH.Keys == {0, 1} && |BOTH| == |BOTH.Keys| == 2;
  }

  // ---------------------------------------------------------------- offsets from an earlier epoch

  const LINE_D := REPORTED.(isr := THREE)
  const LINE_E := Line(3, 0, 0, [], THREE, [], map[], 0, -1)
  const BACK_0 := NEW.(cache := [EpochOffset(1, -1)], line := 2, led := THREE)
  const LEADER_E := BACK_0.(cache := [EpochOffset(1, -1), EpochOffset(3, -1)], line := 3)
  const WITH_TWO := InLine(LINE_D, REPLICATED)
  const TWO_LED := Cluster(1, [BEFORE, LINE_D, LINE_C], [LEADER, FETCHED, LEADER_C])
  const ZERO_BACK := TWO_LED.(replicas := [BACK_0, FETCHED, LEADER_C])
  const ONE_BACK := TWO_LED.(replicas := [BACK_0, NEW.(line := 2), LEADER_C])
  const AGAIN := Cluster(1, [BEFORE, LINE_D, LINE_C, LINE_E], [LEADER_E, NEW.(line := 2), LEADER_C])
  const WITHOUT_TWO := AGAIN.(lines := [BEFORE, LINE_D, LINE_C, LINE_E.(isr := BOTH)])
  const WRITTEN_E := Cluster(1, [BEFORE, LINE_D, LINE_C, LINE_E.(isr := BOTH, log := [Msg(3, "b")])],
                             [LEADER_E.(log := [Msg(3, "b")]), NEW.(line := 2), LEADER_C])

  lemma {:induction false} TwoIsBack()
    requires Reachable(IN_SYNC)
    ensures Reachable(WITH_TWO)
  {
    assert BOTH[2 := -1] == THREE;
    ChangeIsReachable(IN_SYNC, Add(2), WITH_TWO);
  }

  lemma {:induction false} TwoIsElected()
    requires Reachable(WITH_TWO)
    ensures Reachable(TWO_LED) && Trusted(WITH_TWO, Elect(2, 2, FRESH))
  {
    ThreeAreMembers(WITH_TWO.lines[1]);
    assert Assigned([], 2, -1) == LEADER_C.cache;
    ElectionIsReachable(WITH_TWO, 2, 2, FRESH, TWO_LED);
  }

  lemma {:induction false} ZeroFollows()
    requires Reachable(TWO_LED)
    ensures Reachable(ZERO_BACK)
  {
    LookupSplits(LEADER_C.cache, 2);
    StepIsReachable(TWO_LED, Follow(0, 2, 2), ZERO_BACK);
  }

  lemma {:induction false} OneIsCut()
    ensures Truncated(FETCHED, LEADER_C) == FETCHED.(log := [], cache := []) && Agreeable(FETCHED, LEADER_C)
  {
    LookupSplits(LEADER_C.cache, 2);
    assert Before(FETCHED.cache, 0) == [];
  }

  lemma {:induction false} OneFollows()
    requires Reachable(ZERO_BACK)
    ensures Reachable(ONE_BACK)
  {
    OneIsCut();
    FollowIsReachable(ZERO_BACK, 1, 2, 2, NEW.(line := 2), ONE_BACK);
  }

  lemma {:induction false} ZeroLeadsAgain()
    requires Reachable(ONE_BACK)
    ensures Reachable(AGAIN)
  {
    assert AppliedAll(FRESH, []) == FRESH && THREE.Keys == FRESH.Keys;
    assert Assigned(BACK_0.cache, 3, -1) == LEADER_E.cache;
    ElectionIsReachable(ONE_BACK, 0, 3, THREE, AGAIN);
  }

  lemma {:induction false} TwoIsOut()
    requires Reachable(AGAIN)
    ensures Reachable(WITHOUT_TWO)
  {
    assert THREE - {2} == BOTH;
    ChangeIsReachable(AGAIN, Remove(2), WITHOUT_TWO);
  }

  lemma {:induction false} ZeroWritesAgain()
    requires Reachable(WITHOUT_TWO)
    ensures Reachable(WRITTEN_E)
  {
    assert [] + [Msg(3, "b")] == [Msg(3, "b")];
    StepIsReachable(WITHOUT_TWO, Write(0, "b"), WRITTEN_E);
  }

  lemma {:induction false} StaleIsReachable()
    ensures Reachable(WRITTEN_E)
  {
    InSyncIsReachable();
    TwoIsBack();
    TwoIsElected();
    ZeroFollows();
    OneFollows();
    ZeroLeadsAgain();
    TwoIsOut();
    ZeroWritesAgain();
  }

  /** A server that leads a second time still has the offsets its followers reported the first time. It commits a
      message that no other member of its ISR has. */
  lemma {:induction false} StaleOffsetsCommit()
    ensures CaughtUp(ONE_BACK.lines[2], 0)
    ensures Reachable(WRITTEN_E) && Enabled(WRITTEN_E, Decide(3, 1))
    ensures var l := WRITTEN_E.lines[3];
            l.isr.Keys == {0, 1} && WRITTEN_E.replicas[1].log == [] && 1 !in l.sent && l.isr[1] == 0
  {
    StaleIsReachable();
    assert BOTH.Keys == {0, 1} && |BOTH| == |BOTH.Keys| == 2;
  }

  // ---------------------------------------------------------------- a watermark above the leader's

  const ADVANCED := InLine(DECIDED.(hw := 0), [LEADER.(hw := 0), FETCHED, JOINED])
  const LINE_F := Line(2, 1, 1, LOG, PAIR, [], map[], 0, -1)
  const UNLEARNED := Cluster(1, [BEFORE, DECIDED.(hw := 0), LINE_F], [LEADER.(hw := 0), LEADER_B, JOINED])
  const AHEAD_0 := LEADER.(hw := 0, line := 2, led := BOTH)
  const AHEAD := UNLEARNED.(replicas := [AHEAD_0, LEADER_B, JOINED])

  lemma {:induction false} ZeroAdvances()
    requires Reachable(InLine(DECIDED, REPLICATED))
    ensures Reachable(ADVANCED)
  {
    StepIsReachable(InLine(DECIDED, REPLICATED), Advance(1), ADVANCED);
  }

  lemma {:induction false} OneMaySucceed()
    ensures Enabled(ADVANCED, Elect(1, 2, PAIR)) && Trusted(ADVANCED, Elect(1, 2, PAIR))
  {
    assert AppliedAll(BOTH, []) == BOTH && BOTH.Keys == PAIR.Keys;
  }

  lemma {:induction false} OneLeadsUnlearned()
    requires Reachable(ADVANCED)
    ensures Reachable(UNLEARNED)
  {
    OneMaySucceed();
    assert Assigned(FETCHED.cache, 2, 0) == LEADER_B.cache;
    ElectionIsReachable(ADVANCED, 1, 2, PAIR, UNLEARNED);
  }

  lemma {:induction false} ZeroKeepsItsLog()
    ensures Truncated(LEADER.(hw := 0), LEADER_B) == LEADER.(hw := 0) && Agreeable(LEADER.(hw := 0), LEADER_B)
  {
    LookupSplits(LEADER_B.cache, 2);
  }

  lemma {:induction false} ZeroFollowsUnlearned()
    requires Reachable(UNLEARNED)
    ensures Reachable(AHEAD)
  {
    ZeroKeepsItsLog();
    assert Left(UNLEARNED, 0) == BOTH;
    FollowIsReachable(UNLEARNED, 0, 2, 1, AHEAD_0, AHEAD);
  }

  lemma {:induction false} AheadIsReachable()
    ensures Reachable(ADVANCED) && Reachable(AHEAD)
  {
    InSyncIsReachable();
    ZeroDecides();
    ZeroAdvances();
    OneLeadsUnlearned();
    ZeroFollowsUnlearned();
  }

  /** A caught-up replica that has not learned of a commit is elected: the epoch begins with a follower, the old leader,
      whose high watermark is above the new leader's. */
  lemma {:induction false} WatermarkBeginsAbove()
    ensures Reachable(ADVANCED) && Trusted(ADVANCED, Elect(1, 2, PAIR)) && Reachable(AHEAD)
    ensures AHEAD.lines[2].leader == 1 && AHEAD.replicas[0].line == 2
    ensures AHEAD.replicas[0].hw == 0 && AHEAD.lines[2].hw == AHEAD.replicas[1].hw == -1
  {
    OneMaySucceed();
    AheadIsReachable();
  }
}
