/** A replica that comes back late: truncation against the new leader leaves it with a message the leader does not have,
    and the logs no longer match. */
module LateReplica {
  import opened EpochCache
  import opened HandOver

  // Replica 0 leads epoch 1 and writes a message nobody fetches. Replica 1 leads epoch 2 and writes another at the same
  // offset, which replica 2 fetches before it leads epoch 3.
  const FRESH: map<nat, int> := map[0 := -1, 1 := -1, 2 := -1]
  const NEW := Replica([], [], 0, -1, map[])
  const BEFORE := NOBODY.(isr := FRESH)
  const LINE_1 := Line(1, 0, 0, [Msg(1, "a")], FRESH, [], map[], 0, -1)
  const LINE_2 := Line(2, 1, 0, [Msg(2, "b")], FRESH, [], map[], 0, -1)
  const LINE_3 := Line(3, 2, 1, [Msg(2, "b")], FRESH, [], map[], 0, -1)
  const WROTE_1 := NEW.(log := [Msg(1, "a")], cache := [EpochOffset(1, -1)], line := 1)
  const WROTE_2 := NEW.(log := [Msg(2, "b")], cache := [EpochOffset(2, -1)], line := 2)
  const FETCHED_2 := NEW.(log := [Msg(2, "b")], cache := [EpochOffset(2, 0)], line := 2)
  const LEADS_3 := NEW.(log := [Msg(2, "b")], cache := [EpochOffset(2, 0), EpochOffset(3, 0)], line := 3)

  const STARTED := Cluster(1, [BEFORE], [NEW, NEW, NEW])
  const LED_1 := Cluster(1, [BEFORE, LINE_1.(log := [])], [WROTE_1.(log := []), NEW, NEW])
  const WRITTEN_1 := Cluster(1, [BEFORE, LINE_1], [WROTE_1, NEW, NEW])
  const JOINED_1 := Cluster(1, [BEFORE, LINE_1], [WROTE_1, NEW.(line := 1), NEW])
  const LED_2 := Cluster(1, [BEFORE, LINE_1, LINE_2.(log := [])], [WROTE_1, WROTE_2.(log := []), NEW])
  const WRITTEN_2 := Cluster(1, [BEFORE, LINE_1, LINE_2], [WROTE_1, WROTE_2, NEW])
  const JOINED_2 := Cluster(1, [BEFORE, LINE_1, LINE_2], [WROTE_1, WROTE_2, NEW.(line := 2)])
  const REPLICATED_2 := Cluster(1, [BEFORE, LINE_1, LINE_2], [WROTE_1, WROTE_2, FETCHED_2])
  const LED_3 := Cluster(1, [BEFORE, LINE_1, LINE_2, LINE_3], [WROTE_1, WROTE_2, LEADS_3])

  lemma {:induction false} Starts()
    ensures Reachable(STARTED)
  {
    assert FreshMap(3) == FRESH;
    StartIsReachable(STARTED);
  }

  lemma {:induction false} FirstLeads()
    requires Reachable(STARTED)
    ensures Reachable(LED_1)
  {
    assert AppliedAll(FRESH, []) == FRESH;
    assert Assigned([], 1, -1) == [EpochOffset(1, -1)];
    StepIsReachable(STARTED, Elect(0, 1, FRESH), LED_1);
  }

  lemma {:induction false} FirstWrites()
    requires Reachable(LED_1)
    ensures Reachable(WRITTEN_1)
  {
    assert [] + [Msg(1, "a")] == [Msg(1, "a")];
    StepIsReachable(LED_1, Write(0, "a"), WRITTEN_1);
  }

  lemma {:induction false} SecondJoins()
    requires Reachable(WRITTEN_1)
    ensures Reachable(JOINED_1)
  {
    LookupSplits([EpochOffset(1, -1)], 1);
    StepIsReachable(WRITTEN_1, Follow(1, 1, 0), JOINED_1);
  }

  lemma {:induction false} SecondLeads()
    requires Reachable(JOINED_1)
    ensures Reachable(LED_2)
  {
    assert AppliedAll(FRESH, []) == FRESH;
    assert Assigned([], 2, -1) == [EpochOffset(2, -1)];
    StepIsReachable(JOINED_1, Elect(1, 2, FRESH), LED_2);
  }

  lemma {:induction false} SecondWrites()
    requires Reachable(LED_2)
    ensures Reachable(WRITTEN_2)
  {
    assert [] + [Msg(2, "b")] == [Msg(2, "b")];
    StepIsReachable(LED_2, Write(1, "b"), WRITTEN_2);
  }

  lemma {:induction false} ThirdJoins()
    requires Reachable(WRITTEN_2)
    ensures Reachable(JOINED_2)
  {
    LookupSplits([EpochOffset(2, -1)], 1);
    StepIsReachable(WRITTEN_2, Follow(2, 2, 1), JOINED_2);
  }

  lemma {:induction false} ThirdFetches()
    requires Reachable(JOINED_2)
    ensures Reachable(REPLICATED_2)
  {
    assert [] + [Msg(2, "b")] == [Msg(2, "b")];
    assert Assigned([], 2, 0) == [EpochOffset(2, 0)];
    StepIsReachable(JOINED_2, Fetch(2), REPLICATED_2);
  }

  lemma {:induction false} ThirdLeads()
    requires Reachable(REPLICATED_2)
    ensures Reachable(LED_3)
  {
    assert AppliedAll(FRESH, []) == FRESH;
    assert Assigned(FETCHED_2.cache, 3, 0) == LEADS_3.cache;
    ElectionIsReachable(REPLICATED_2, 2, 3, FRESH, LED_3);
  }

  lemma {:induction false} LateIsReachable()
    ensures Reachable(LED_3)
  {
    Starts();
    FirstLeads();
    FirstWrites();
    SecondJoins();
    SecondLeads();
    SecondWrites();
    ThirdJoins();
    ThirdFetches();
    ThirdLeads();
  }

  /** When replica 0 comes back it asks for the end of epoch 1, is told the first offset of epoch 2, and keeps its own
      message there. All truncations up to then are sound; this one is not. */
  lemma {:induction false} DivergenceIsReachable()
    ensures Reachable(LED_3) && Enabled(LED_3, Follow(0, 3, 2)) && !Sound(LED_3, Follow(0, 3, 2))
    ensures var s := LED_3;
            && Truncated(s.replicas[0], s.replicas[2]) == s.replicas[0]
            && s.replicas[0].log == [Msg(1, "a")] && s.replicas[2].log == [Msg(2, "b")]
  {
    LateIsReachable();
    LookupSplits([EpochOffset(2, 0), EpochOffset(3, 0)], 2);
  }

  const KEPT := WROTE_1.(line := 3, led := FRESH)
  const WROTE_3 := LEADS_3.(log := [Msg(2, "b"), Msg(3, "c")])
  const FETCHED_3 := KEPT.(log := [Msg(1, "a"), Msg(3, "c")], cache := [EpochOffset(1, -1), EpochOffset(3, 1)])
  const FOLLOWED_3 := Cluster(1, [BEFORE, LINE_1, LINE_2, LINE_3], [KEPT, WROTE_2, LEADS_3])
  const WRITTEN_3 := Cluster(1, [BEFORE, LINE_1, LINE_2, LINE_3.(log := WROTE_3.log)], [KEPT, WROTE_2, WROTE_3])
  const REPLICATED_3 := WRITTEN_3.(replicas := [FETCHED_3, WROTE_2, WROTE_3])

  lemma {:induction false} FirstFollowsThird()
    ensures IsStep(LED_3, Follow(0, 3, 2), FOLLOWED_3)
  {
    LookupSplits([EpochOffset(2, 0), EpochOffset(3, 0)], 2);
  }

  lemma {:induction false} ThirdWrites()
    ensures IsStep(FOLLOWED_3, Write(2, "c"), WRITTEN_3)
  {
    assert [Msg(2, "b")] + [Msg(3, "c")] == WROTE_3.log;
  }

  lemma {:induction false} FirstFetches()
    ensures IsStep(WRITTEN_3, Fetch(0), REPLICATED_3)
  {
    assert [Msg(1, "a")] + [Msg(3, "c")] == FETCHED_3.log;
    assert Assigned([EpochOffset(1, -1)], 3, 1) == FETCHED_3.cache;
  }

  /** Once it has fetched the leader's next message, two logs hold the same message at one offset and different ones
      below it. */
  lemma {:induction false} LogsStopMatching()
    ensures Reachable(LED_3) && IsStep(LED_3, Follow(0, 3, 2), FOLLOWED_3)
    ensures IsStep(FOLLOWED_3, Write(2, "c"), WRITTEN_3) && IsStep(WRITTEN_3, Fetch(0), REPLICATED_3)
    ensures var x, y := REPLICATED_3.replicas[0].log, REPLICATED_3.replicas[2].log;
            |x| == |y| == 2 && x[1] == y[1] && x[0] != y[0]
  {
    LateIsReachable();
    FirstFollowsThird();
    ThirdWrites();
    FirstFetches();
  }
}
