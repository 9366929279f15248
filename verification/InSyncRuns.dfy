/** Runs of one epoch that show what the ISR does not promise. */
module InSyncRuns {
  import opened Search
  import opened Partition
  import opened Replication
  import opened Progress

  const CONFIG := Config("a", {"a", "b"}, 1, 1)
  const WANTED := Message("m", "inbox", ALL)
  const REC := Record(0, WANTED)
  const IDLE := Leader([], -1, map["a" := -1], [], true, [], None, [], [])

  function Alone(l: Leader, reading: Option<map<string, int>>): System {
    System(l, reading, map["b" := Follower([], -1)], {}, {}, 0, -1, map["b" := -1], map["a" := -1], {"a"})
  }

  // ---------------------------------------------------------------- a replica that rejoins

  const SELF: map<string, int> := map["a" := 0]
  const SEQUENCED := IDLE.(log := [REC], batch := [REC], reported := false)
  const QUEUED := IDLE.(log := [REC], queue := [REC], reported := false)
  const REPORTED := QUEUED.(isr := SELF, reported := true)
  const DECIDED := REPORTED.(decision := Some(Decision(0, {"a"})))
  const COMMITTED := IDLE.(log := [REC], isr := SELF, hw := 0, acks := [Ack(0, {"a"})])
  const REJOINED := COMMITTED.(isr := map["a" := 0, "b" := -1])

  lemma {:induction false} Starts()
    ensures Reachable(CONFIG, Alone(IDLE, None))
  {
    StartIsReachable(CONFIG, Alone(IDLE, None));
  }

  lemma {:induction false} Sequences()
    requires Reachable(CONFIG, Alone(IDLE, None))
    ensures Reachable(CONFIG, Alone(SEQUENCED, None))
  {
    assert Sequenced(0, [WANTED]) == [REC];
    assert Append(IDLE, [WANTED]).log == [REC];
    StepIsReachable(CONFIG, Alone(IDLE, None), SequenceStep([WANTED]), Alone(SEQUENCED, None));
  }

  lemma {:induction false} Queues()
    requires Reachable(CONFIG, Alone(SEQUENCED, None))
    ensures Reachable(CONFIG, Alone(QUEUED, None))
  {
    var p := ProcessPending(SEQUENCED);
    assert p.queue == [REC] && p.batch == [] && p.early == [];
    StepIsReachable(CONFIG, Alone(SEQUENCED, None), ProcessStep, Alone(QUEUED, None));
  }

  lemma {:induction false} Reports()
    requires Reachable(CONFIG, Alone(QUEUED, None))
    ensures Reachable(CONFIG, Alone(REPORTED, None))
  {
    assert UpdateOffset(QUEUED, "a", 0).isr == SELF;
    StepIsReachable(CONFIG, Alone(QUEUED, None), ReportStep, Alone(REPORTED, None));
  }

  lemma {:induction false} Begins()
    requires Reachable(CONFIG, Alone(REPORTED, None))
    ensures Reachable(CONFIG, Alone(REPORTED, Some(SELF)))
  {
    assert |SELF| == |SELF.Keys| == |{"a"}| == 1;
    StepIsReachable(CONFIG, Alone(REPORTED, None), BeginStep, Alone(REPORTED, Some(SELF)));
  }

  lemma {:induction false} Decides()
    requires Reachable(CONFIG, Alone(REPORTED, Some(SELF)))
    ensures Reachable(CONFIG, Alone(DECIDED, None))
  {
    assert "a" in SELF && SELF["a"] == 0 && SELF.Keys == {"a"};
    StepIsReachable(CONFIG, Alone(REPORTED, Some(SELF)), DecideStep(SELF, 0), Alone(DECIDED, None));
  }

  lemma {:induction false} Commits()
    requires Reachable(CONFIG, Alone(DECIDED, None))
    ensures Reachable(CONFIG, Alone(COMMITTED, None))
  {
    var q := [REC];
    assert TakeUntil(q, 0) == 1;
    assert q[..1] == q && q[1..] == [];
    assert AcksFor([REC][..0], {"a"}) == [];
    assert AcksFor([REC], {"a"}) == [Ack(0, {"a"})];
    StepIsReachable(CONFIG, Alone(DECIDED, None), CompleteStep, Alone(COMMITTED, None));
  }

  lemma {:induction false} Rejoins()
    requires Reachable(CONFIG, Alone(COMMITTED, None))
    ensures Reachable(CONFIG, Alone(REJOINED, None))
  {
    assert Expand(COMMITTED, "b").isr == REJOINED.isr;
    StepIsReachable(CONFIG, Alone(COMMITTED, None), ExpandStep("b"), Alone(REJOINED, None));
  }

  /** A replica that rejoins the ISR need not store what was committed and acknowledged while it was out: expanding the
      ISR goes by elapsed time and does not look at the log. */
  lemma {:induction false} RejoinedMemberMayLackCommitted() returns (s: System)
    ensures Reachable(CONFIG, s)
    ensures "b" in s.leader.isr && s.leader.hw == 0 && s.leader.acks == [Ack(0, {"a"})]
    ensures "b" in s.followers && s.followers["b"].log == []
  {
    Starts();
    Sequences();
    Queues();
    Reports();
    Begins();
    Decides();
    Commits();
    Rejoins();
    s := Alone(REJOINED, None);
  }

  // ---------------------------------------------------------------- a leader outside its ISR

  const BOTH: map<string, int> := map["a" := -1, "b" := -1]
  const OTHER: map<string, int> := map["b" := -1]
  const CAUGHT_UP: map<string, int> := map["b" := 0]
  const ASKS := Request("b", -1, 1)
  const HAS := Request("b", 0, 1)
  const DATA := Response("b", 1, -1, [REC])
  const NOTHING := Response("b", 1, -1, [])

  function Pair(l: Leader, f: seq<Record>, reqs: set<Request>, resps: set<Response>, steady: set<string>): System {
    System(l, None, map["b" := Follower(f, -1)], reqs, resps, 0, -1, map["b" := -1], BOTH, steady)
  }

  const FIRST := Pair(IDLE.(isr := BOTH), [], {}, {}, {"a", "b"})
  const WRITTEN := Pair(SEQUENCED.(isr := BOTH), [], {}, {}, {"a", "b"})
  const OUTSIDE := Pair(SEQUENCED.(isr := OTHER), [], {}, {}, {"b"})
  const ASKED := OUTSIDE.(requests := {ASKS})
  const ANSWERED := ASKED.(responses := {DATA})
  const DELIVERED := Pair(SEQUENCED.(isr := OTHER), [REC], {ASKS}, {DATA}, {"b"})
  const ASKED_AGAIN := DELIVERED.(requests := {ASKS, HAS})
  const TRACKED := Pair(SEQUENCED.(isr := CAUGHT_UP), [REC], {ASKS, HAS}, {DATA, NOTHING}, {"b"})
  const READING := TRACKED.(reading := Some(CAUGHT_UP))
  const DECIDED_OUTSIDE := TRACKED.(leader := SEQUENCED.(isr := CAUGHT_UP, decision := Some(Decision(0, {"b"}))))
  const UNANSWERED := TRACKED.(leader := SEQUENCED.(isr := CAUGHT_UP, hw := 0))

  lemma {:induction false} PairStarts()
    ensures Reachable(CONFIG, FIRST)
  {
    StartIsReachable(CONFIG, FIRST);
  }

  lemma {:induction false} PairWrites()
    requires Reachable(CONFIG, FIRST)
    ensures Reachable(CONFIG, WRITTEN)
  {
    assert Sequenced(0, [WANTED]) == [REC];
    assert Append(FIRST.leader, [WANTED]).log == [REC];
    StepIsReachable(CONFIG, FIRST, SequenceStep([WANTED]), WRITTEN);
  }

  lemma {:induction false} WithoutLeader()
    ensures Shrink(WRITTEN.leader, "a") == OUTSIDE.leader && WRITTEN.steady - {"a"} == OUTSIDE.steady
  {
    assert BOTH - {"a"} == OTHER;
    assert {"a", "b"} - {"a"} == {"b"};
  }

  lemma {:induction false} LeaderIsRemoved()
    requires Reachable(CONFIG, WRITTEN)
    ensures Reachable(CONFIG, OUTSIDE)
  {
    WithoutLeader();
    StepIsReachable(CONFIG, WRITTEN, ShrinkStep("a"), OUTSIDE);
  }

  lemma {:induction false} FollowerAsks()
    requires Reachable(CONFIG, OUTSIDE)
    ensures Reachable(CONFIG, ASKED)
  {
    StepIsReachable(CONFIG, OUTSIDE, RequestStep("b"), ASKED);
  }

  /** A request the leader accepts is answered. */
  lemma {:induction false} AnswerIsReachable(s: System, req: Request, count: nat, resp: Response, t: System)
    requires Reachable(CONFIG, s) && req in s.requests && Accepts(CONFIG, req)
    requires req.offset < NewestOffset(s.leader.log) ==> 0 <= req.offset + 1 && req.offset + 1 + count <= |s.leader.log|
    requires resp == Respond(CONFIG, s.leader, req, count)
    requires t == s.(leader := UpdateOffset(s.leader, req.from, req.offset), responses := s.responses + {resp})
    ensures Reachable(CONFIG, t)
  {
    StepIsReachable(CONFIG, s, HandleStep(req, count), t);
  }

  lemma {:induction false} FirstAnswer()
    ensures Respond(CONFIG, ASKED.leader, ASKS, 1) == DATA && UpdateOffset(ASKED.leader, "b", -1) == ASKED.leader
  {
    assert OTHER["b" := -1] == OTHER;
    assert [REC][0..1] == [REC];
  }

  lemma {:induction false} SecondAnswer()
    ensures Respond(CONFIG, ASKED_AGAIN.leader, HAS, 0) == NOTHING
    ensures UpdateOffset(ASKED_AGAIN.leader, "b", 0) == TRACKED.leader
  {
    assert OTHER["b" := 0] == CAUGHT_UP;
  }

  lemma {:induction false} LeaderAnswers()
    requires Reachable(CONFIG, ASKED)
    ensures Reachable(CONFIG, ANSWERED)
  {
    FirstAnswer();
    AnswerIsReachable(ASKED, ASKS, 1, DATA, ANSWERED);
  }

  lemma {:induction false} FollowerReceives()
    requires Reachable(CONFIG, ANSWERED)
    ensures Reachable(CONFIG, DELIVERED)
  {
    assert [] + [REC] == [REC];
    StepIsReachable(CONFIG, ANSWERED, DeliverStep(DATA), DELIVERED);
  }

  lemma {:induction false} FollowerAsksAgain()
    requires Reachable(CONFIG, DELIVERED)
    ensures Reachable(CONFIG, ASKED_AGAIN)
  {
    assert {ASKS} + {HAS} == {ASKS, HAS};
    StepIsReachable(CONFIG, DELIVERED, RequestStep("b"), ASKED_AGAIN);
  }

  lemma {:induction false} LeaderTracks()
    requires Reachable(CONFIG, ASKED_AGAIN)
    ensures Reachable(CONFIG, TRACKED)
  {
    SecondAnswer();
    assert {DATA} + {NOTHING} == {DATA, NOTHING};
    AnswerIsReachable(ASKED_AGAIN, HAS, 0, NOTHING, TRACKED);
  }

  lemma {:induction false} LeaderReads()
    requires Reachable(CONFIG, TRACKED)
    ensures Reachable(CONFIG, READING)
  {
    assert |CAUGHT_UP| == |CAUGHT_UP.Keys| == |{"b"}| == 1;
    StepIsReachable(CONFIG, TRACKED, BeginStep, READING);
  }

  lemma {:induction false} LeaderDecides()
    requires Reachable(CONFIG, READING)
    ensures Reachable(CONFIG, DECIDED_OUTSIDE)
  {
    assert "b" in CAUGHT_UP && CAUGHT_UP["b"] == 0 && CAUGHT_UP.Keys == {"b"};
    StepIsReachable(CONFIG, READING, DecideStep(CAUGHT_UP, 0), DECIDED_OUTSIDE);
  }

  lemma {:induction false} LeaderCommits()
    requires Reachable(CONFIG, DECIDED_OUTSIDE)
    ensures Reachable(CONFIG, UNANSWERED)
  {
    var none: seq<Record> := [];
    assert TakeUntil([], 0) == 0 && none[..0] == [] && none[0..] == [];
    StepIsReachable(CONFIG, DECIDED_OUTSIDE, CompleteStep, UNANSWERED);
  }

  /** A leader that was removed from its own ISR can commit a message before it has put it on the commit queue: the
      message is at the high watermark and asks for an acknowledgement, and none is sent. */
  lemma {:induction false} RemovedLeaderMissesAck() returns (s: System)
    ensures Reachable(CONFIG, s)
    ensures s.leader.hw == 0 && s.base == 0 && s.leader.log == [REC] && Wants(REC, ALL) && s.leader.acks == []
  {
    PairStarts();
    PairWrites();
    LeaderIsRemoved();
    FollowerAsks();
    LeaderAnswers();
    FollowerReceives();
    FollowerAsksAgain();
    LeaderTracks();
    LeaderReads();
    LeaderDecides();
    LeaderCommits();
    s := UNANSWERED;
  }

  // ---------------------------------------------------------------- an offset from an earlier epoch

  const STRICT := Config("a", {"a", "b"}, 1, 2)
  const STALE: map<string, int> := map["a" := -1, "b" := 0]
  const CLAIMED: map<string, int> := map["a" := 0, "b" := 0]

  function Untrue(l: Leader, reading: Option<map<string, int>>): System {
    System(l, reading, map["b" := Follower([], -1)], {}, {}, 0, -1, map["b" := -1], STALE, {"a", "b"})
  }

  const IDLE_STALE := IDLE.(isr := STALE)
  const SEQUENCED_STALE := SEQUENCED.(isr := STALE)
  const QUEUED_STALE := QUEUED.(isr := STALE)
  const REPORTED_STALE := REPORTED.(isr := CLAIMED)
  const DECIDED_STALE := REPORTED_STALE.(decision := Some(Decision(0, {"a", "b"})))
  const COMMITTED_STALE := COMMITTED.(isr := CLAIMED, acks := [Ack(0, {"a", "b"})])

  lemma {:induction false} StaleStarts()
    ensures Reachable(STRICT, Untrue(IDLE_STALE, None))
  {
    StartIsReachable(STRICT, Untrue(IDLE_STALE, None));
  }

  lemma {:induction false} StaleSequences()
    requires Reachable(STRICT, Untrue(IDLE_STALE, None))
    ensures Reachable(STRICT, Untrue(SEQUENCED_STALE, None))
  {
    assert Sequenced(0, [WANTED]) == [REC];
    assert Append(IDLE_STALE, [WANTED]).log == [REC];
    StepIsReachable(STRICT, Untrue(IDLE_STALE, None), SequenceStep([WANTED]), Untrue(SEQUENCED_STALE, None));
  }

  lemma {:induction false} StaleQueues()
    requires Reachable(STRICT, Untrue(SEQUENCED_STALE, None))
    ensures Reachable(STRICT, Untrue(QUEUED_STALE, None))
  {
    var p := ProcessPending(SEQUENCED_STALE);
    assert p.queue == [REC] && p.batch == [] && p.early == [];
    StepIsReachable(STRICT, Untrue(SEQUENCED_STALE, None), ProcessStep, Untrue(QUEUED_STALE, None));
  }

  lemma {:induction false} StaleReports()
    requires Reachable(STRICT, Untrue(QUEUED_STALE, None))
    ensures Reachable(STRICT, Untrue(REPORTED_STALE, None))
  {
    assert UpdateOffset(QUEUED_STALE, "a", 0).isr == CLAIMED;
    StepIsReachable(STRICT, Untrue(QUEUED_STALE, None), ReportStep, Untrue(REPORTED_STALE, None));
  }

  lemma {:induction false} StaleBegins()
    requires Reachable(STRICT, Untrue(REPORTED_STALE, None))
    ensures Reachable(STRICT, Untrue(REPORTED_STALE, Some(CLAIMED)))
  {
    assert |CLAIMED| == |CLAIMED.Keys| == |{"a", "b"}| == 2;
    StepIsReachable(STRICT, Untrue(REPORTED_STALE, None), BeginStep, Untrue(REPORTED_STALE, Some(CLAIMED)));
  }

  lemma {:induction false} StaleDecides()
    requires Reachable(STRICT, Untrue(REPORTED_STALE, Some(CLAIMED)))
    ensures Reachable(STRICT, Untrue(DECIDED_STALE, None))
  {
    assert "a" in CLAIMED && CLAIMED["a"] == 0 && CLAIMED.Keys == {"a", "b"};
    StepIsReachable(STRICT, Untrue(REPORTED_STALE, Some(CLAIMED)), DecideStep(CLAIMED, 0), Untrue(DECIDED_STALE, None));
  }

  lemma {:induction false} StaleCommits()
    requires Reachable(STRICT, Untrue(DECIDED_STALE, None))
    ensures Reachable(STRICT, Untrue(COMMITTED_STALE, None))
  {
    var q := [REC];
    assert TakeUntil(q, 0) == 1;
    assert q[..1] == q && q[1..] == [];
    assert AcksFor([REC][..0], {"a", "b"}) == [];
    assert AcksFor([REC], {"a", "b"}) == [Ack(0, {"a", "b"})];
    StepIsReachable(STRICT, Untrue(DECIDED_STALE, None), CompleteStep, Untrue(COMMITTED_STALE, None));
  }

  lemma {:induction false} StaleIsReachable()
    ensures Reachable(STRICT, Untrue(COMMITTED_STALE, None))
  {
    StaleStarts();
    StaleSequences();
    StaleQueues();
    StaleReports();
    StaleBegins();
    StaleDecides();
    StaleCommits();
  }

  lemma {:induction false} StaleIsUntrue()
    ensures !Truthful(STRICT, Untrue(IDLE_STALE, None))
  {
    assert "b" in STALE && !Stores(STRICT, Untrue(IDLE_STALE, None), "b", 0);
  }

  /** An epoch that begins with an offset its member does not store: a message is acknowledged on behalf of both
      replicas, as many as the minimum asks for, and only the leader stores it. */
  lemma {:induction false} StaleOffsetAcknowledges()
    ensures Reachable(STRICT, Untrue(IDLE_STALE, None)) && !Truthful(STRICT, Untrue(IDLE_STALE, None))
    ensures Reachable(STRICT, Untrue(COMMITTED_STALE, None))
    ensures COMMITTED_STALE.acks == [Ack(0, {"a", "b"})] && "b" in Untrue(COMMITTED_STALE, None).followers
    ensures Untrue(COMMITTED_STALE, None).followers["b"].log == []
  {
    StaleStarts();
    StaleIsReachable();
    StaleIsUntrue();
  }

  // ---------------------------------------------------------------- a message from an earlier epoch

  const CARRIED := IDLE.(log := [REC], isr := map["a" := -1, "b" := -1])
  const CARRIED_OVER := System(CARRIED, None, map["b" := Follower([REC], -1)], {}, {}, 1, -1, map["b" := -1],
                               map["a" := -1, "b" := -1], {"a", "b"})

  /** A new leader that knows nothing of its own offset: both replicas have the message from the epoch before, and it is
      not committed until another one is published. */
  lemma {:induction false} CarriedOverWaits(t: System)
    ensures Reachable(CONFIG, CARRIED_OVER) && Idle(CARRIED_OVER) && |CARRIED.isr| >= CONFIG.minISR
    ensures CARRIED_OVER.followers["b"].log == CARRIED.log == [REC]
    ensures Quietly(CONFIG, CARRIED_OVER, t) ==> t.leader.hw == -1
  {
    StartIsReachable(CONFIG, CARRIED_OVER);
    if Quietly(CONFIG, CARRIED_OVER, t) {
      HeldBackStays(CONFIG, CARRIED_OVER, t);
    }
  }
}
