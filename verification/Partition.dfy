/** A partition replica within one leader epoch: the leader's sequencing, commit queue and in-sync replicas,
    and a follower's handling of replication responses, each as a function of the state. The class at the end is
    the partition object whose methods compute these functions step by step. */
module Partition {
  import opened Integers
  import opened Search

  datatype AckPolicy = LEADER | ALL | NONE

  datatype Message = Message(payload: string, ackInbox: string, policy: AckPolicy)

  datatype Record = Record(offset: int, message: Message)

  datatype Config = Config(self: string, replicas: set<string>, epoch: nat, minISR: nat)

  /** The least tracked offset of the ISR read under the lock, and the replicas it was read from. */
  datatype Decision = Decision(min: int, members: set<string>)

  /** An acknowledgement for policy ALL, with the replicas of the commit decision that released it. */
  datatype Ack = Ack(offset: int, members: set<string>)

  datatype Leader = Leader(
    log: seq<Record>,
    hw: int,
    isr: map<string, int>,
    batch: seq<Record>,          // appended, not yet on the commit queue
    reported: bool,              // own latest offset updated since the last batch
    queue: seq<Record>,          // pending commit
    decision: Option<Decision>,  // taken, commit queue not yet served
    early: seq<int>,             // offsets acknowledged for policy LEADER
    acks: seq<Ack>)              // acknowledgements for policy ALL

  datatype Follower = Follower(log: seq<Record>, hw: int)

  datatype Request = Request(from: string, offset: int, epoch: nat)

  datatype Response = Response(to: string, epoch: nat, hw: int, data: seq<Record>)

  function NewestOffset(log: seq<Record>): int {
    if log == [] then -1 else log[|log| - 1].offset
  }

  // ---------------------------------------------------------------- sequencing

  /** The records `Append` makes of a batch. */
  function Sequenced(next: int, msgs: seq<Message>): (rs: seq<Record>)
    ensures |rs| == |msgs|
    ensures forall i :: 0 <= i < |msgs| ==> rs[i] == Record(next + i, msgs[i])
  {
    seq(|msgs|, i requires 0 <= i < |msgs| => Record(next + i, msgs[i]))
  }

  function Append(l: Leader, msgs: seq<Message>): Leader {
    var rs := Sequenced(NewestOffset(l.log) + 1, msgs);
    l.(log := l.log + rs, batch := rs, reported := false)
  }

  predicate Wants(r: Record, policy: AckPolicy) {
    r.message.policy == policy && r.message.ackInbox != ""
  }

  function ProcessPending(l: Leader): Leader
    requires l.batch != []
  {
    var r := l.batch[0];
    l.(batch := l.batch[1..], queue := l.queue + [r], early := l.early + if Wants(r, LEADER) then [r.offset] else [])
  }

  function UpdateOffset(l: Leader, replica: string, offset: int): Leader {
    if replica in l.isr then l.(isr := l.isr[replica := Max(l.isr[replica], offset)]) else l
  }

  function ReportSelf(l: Leader, self: string): Leader {
    UpdateOffset(l, self, NewestOffset(l.log)).(reported := true)
  }

  // ---------------------------------------------------------------- committing

  /** The minimum as the code takes it: 0 for an empty ISR. */
  ghost predicate IsMin(isr: map<string, int>, m: int) {
    if isr == map[] then m == 0
    else (exists r :: r in isr && isr[r] == m) && (forall r :: r in isr ==> m <= isr[r])
  }

  function Decide(l: Leader, m: int): Leader {
    l.(decision := Some(Decision(m, l.isr.Keys)))
  }

  /** How many records from the front of the queue are at or below an offset. */
  function TakeUntil(queue: seq<Record>, m: int): (n: nat)
    ensures n <= |queue|
    ensures forall i :: 0 <= i < n ==> queue[i].offset <= m
    ensures n < |queue| ==> queue[n].offset > m
  {
    if queue == [] || queue[0].offset > m then 0 else 1 + TakeUntil(queue[1..], m)
  }

  function AcksFor(rs: seq<Record>, members: set<string>): seq<Ack> {
    if rs == [] then []
    else
      var n := |rs| - 1;
      AcksFor(rs[..n], members) + if Wants(rs[n], ALL) then [Ack(rs[n].offset, members)] else []
  }

  lemma {:induction false} AcksForAre(rs: seq<Record>, members: set<string>)
    ensures forall a :: a in AcksFor(rs, members) <==>
            exists r <- rs :: r.message.policy == ALL && r.message.ackInbox != "" && a == Ack(r.offset, members)
  {
    if rs == [] {
    } else {
      var n := |rs| - 1;
      AcksForAre(rs[..n], members);
      assert rs == rs[..n] + [rs[n]];
    }
  }

  function Complete(l: Leader): Leader
    requires l.decision.Some?
  {
    var d := l.decision.value;
    var n := TakeUntil(l.queue, d.min);
    l.(decision := None, hw := Max(l.hw, d.min), queue := l.queue[n..],
       acks := l.acks + AcksFor(l.queue[..n], d.members))
  }

  // ---------------------------------------------------------------- in-sync replicas

  function Shrink(l: Leader, replica: string): Leader {
    l.(isr := l.isr - {replica})
  }

  function Expand(l: Leader, replica: string): Leader {
    l.(isr := l.isr[replica := -1])
  }

  // ---------------------------------------------------------------- replication

  predicate Accepts(c: Config, req: Request) {
    (req.epoch == 0 || req.epoch == c.epoch) && req.from in c.replicas && req.from != c.self
  }

  /** A response carries at most the records after the requested offset, as far as the batch limit allows. */
  function Respond(c: Config, l: Leader, req: Request, count: nat): Response
    requires req.offset < NewestOffset(l.log) ==> 0 <= req.offset + 1 && req.offset + 1 + count <= |l.log|
  {
    Response(req.from, c.epoch, l.hw,
             if req.offset >= NewestOffset(l.log) then [] else l.log[req.offset + 1..req.offset + 1 + count])
  }

  function Receive(c: Config, f: Follower, resp: Response): Follower {
    if resp.epoch != c.epoch then f
    else
      var g := f.(hw := Max(f.hw, resp.hw));
      if resp.data == [] || resp.data[0].offset < NewestOffset(f.log) + 1 then g
      else g.(log := g.log + resp.data)
  }

  // ---------------------------------------------------------------- the object

  datatype Result = Ok | Error(message: string)

  function ProcessAll(l: Leader): Leader
    decreases |l.batch|
  {
    if l.batch == [] then l else ProcessAll(ProcessPending(l))
  }

  /** The batch ends up on the commit queue, and its messages that ask for it are acknowledged. */
  lemma {:induction false} AllProcessed(l: Leader)
    ensures var p := ProcessAll(l);
            && p.queue == l.queue + l.batch && l.early <= p.early
            && p.log == l.log && p.isr == l.isr && EarlyFor(p.early[|l.early|..], l.batch)
    decreases |l.batch|
  {
    if l.batch == [] {
    } else {
      var n, p := ProcessPending(l), ProcessAll(l);
      AllProcessed(n);
      var first, r := n.early[|l.early|..], l.batch[0];
      assert p.early[|l.early|..] == first + p.early[|n.early|..];
      assert forall i :: 0 <= i < |n.batch| ==> n.batch[i] == l.batch[i + 1];
      assert forall o :: o in first <==> o == r.offset && Wants(r, LEADER);
    }
  }

  /** The early acknowledgements of a batch: one for each message that asks for it. */
  ghost predicate EarlyFor(early: seq<int>, batch: seq<Record>) {
    forall o :: o in early <==>
                exists i :: 0 <= i < |batch| && batch[i].offset == o &&
                            batch[i].message.policy == LEADER && batch[i].message.ackInbox != ""
  }

  lemma {:induction false} ReportsAfter(l: Leader, msgs: seq<Message>, queued: Leader, self: string)
    requires queued.reported && queued.(reported := false) == ProcessAll(Append(l, msgs))
    ensures UpdateOffset(queued, self, NewestOffset(queued.log)) == ReportSelf(ProcessAll(Append(l, msgs)), self)
  {
  }

  lemma {:induction false} BatchEffect(l: Leader, msgs: seq<Message>, self: string)
    ensures var rs, t := Sequenced(NewestOffset(l.log) + 1, msgs), ReportSelf(ProcessAll(Append(l, msgs)), self);
            && t.log == l.log + rs && t.queue == l.queue + rs && l.early <= t.early &&
                EarlyFor(t.early[|l.early|..], rs)
            && t.isr.Keys == l.isr.Keys && forall r :: r in t.isr ==>
                t.isr[r] == if r == self then Max(l.isr[r], NewestOffset(t.log)) else l.isr[r]
  {
    AllProcessed(Append(l, msgs));
  }

  /** The minimum of a slice, 0 if it is empty. */
  method LeastOffset(v: seq<int>) returns (m: int)
    ensures v == [] ==> m == 0
    ensures v != [] ==> m in v && forall x :: x in v ==> m <= x
  {
    m := 0;
    if |v| > 0 {
      m := v[0];
    }
    var i := 1;
    while i < |v|
      invariant 1 <= i
      invariant v != [] ==> m in v && forall k :: 0 <= k < i && k < |v| ==> m <= v[k]
      invariant v == [] ==> m == 0
    {
      if v[i] < m {
        m := v[i];
      }
      i := i + 1;
    }
  }

  class PartitionObject {
    const config: Config
    var log: seq<Record>
    var hw: int
    var isr: map<string, int>
    var commitQueue: seq<Record>
    var earlyAcks: seq<int>
    var acks: seq<Ack>

    constructor (config: Config, log: seq<Record>, hw: int, isr: seq<string>)
      ensures this.config == config && this.log == log && this.hw == hw
      ensures commitQueue == [] && earlyAcks == [] && acks == []
      ensures this.isr.Keys == set r | r in isr
      ensures forall r :: r in this.isr ==> this.isr[r] == if r == config.self then NewestOffset(log) else -1
    {
      this.config, this.log, this.hw := config, log, hw;
      this.commitQueue, this.earlyAcks, this.acks := [], [], [];
      var tracked: map<string, int> := map[];
      for i := 0 to |isr|
        invariant tracked.Keys == set r | r in isr[..i]
        invariant forall r :: r in tracked ==> tracked[r] == if r == config.self then NewestOffset(log) else -1
      {
        var offset := if isr[i] == config.self then NewestOffset(log) else -1;
        tracked := tracked[isr[i] := offset];
        assert isr[..i + 1] == isr[..i] + [isr[i]];
      }
      assert isr[..|isr|] == isr;
      this.isr := tracked;
    }

    ghost function View(): Leader
      reads this
    {
      Leader(log, hw, isr, [], true, commitQueue, None, earlyAcks, acks)
    }

    method UpdateISRLatestOffset(replica: string, offset: int)
      modifies this`isr
      ensures View() == UpdateOffset(old(View()), replica, offset)
      ensures isr.Keys == old(isr).Keys && forall r :: r in isr ==>
              old(isr)[r] <= isr[r] && (r != replica ==> isr[r] == old(isr)[r])
      ensures replica in isr ==> isr[replica] >= offset && isr[replica] in {offset, old(isr)[replica]}
    {
      if replica in isr && offset > isr[replica] {
        isr := isr[replica := offset];
      }
      assert replica in old(isr) ==> isr == old(isr)[replica := Max(old(isr)[replica], offset)];
    }

    method RemoveFromISR(replica: string) returns (r: Result)
      modifies this`isr
      ensures r.Error? <==> replica !in config.replicas
      ensures View() == if r.Ok? then Shrink(old(View()), replica) else old(View())
      ensures r.Ok? ==> replica !in isr && isr.Keys == old(isr).Keys - {replica} && forall x :: x in isr ==>
              isr[x] == old(isr)[x]
    {
      if replica !in config.replicas {
        return Error(replica + " not a replica");
      }
      isr := isr - {replica};
      r := Ok;
    }

    method AddToISR(replica: string) returns (r: Result)
      modifies this`isr
      ensures r.Error? <==> replica !in config.replicas
      ensures View() == if r.Ok? then Expand(old(View()), replica) else old(View())
      ensures r.Ok? ==> isr.Keys == old(isr).Keys + {replica} && isr[replica] == -1
      ensures forall x :: x in old(isr) && (r.Error? || x != replica) ==> x in isr && isr[x] == old(isr)[x]
    {
      if replica !in config.replicas {
        return Error(replica + " not a replica");
      }
      isr := isr[replica := -1];
      r := Ok;
    }

    method ProcessPendingMessage(r: Record)
      modifies this`earlyAcks, this`commitQueue
      ensures View() == ProcessPending(old(View()).(batch := [r]))
    {
      if r.message.policy == LEADER && r.message.ackInbox != "" {
        earlyAcks := earlyAcks + [r.offset];
      }
      commitQueue := commitQueue + [r];
    }

    /** One turn of the message processing loop: append the batch, put each message on the commit queue,
        then update this replica's own offset. */
    method ProcessBatch(msgs: seq<Message>)
      modifies this
      ensures View() == ReportSelf(ProcessAll(Append(old(View()), msgs)), config.self)
      ensures |log| == |old(log)| + |msgs| && old(log) <= log && commitQueue == old(commitQueue) + log[|old(log)|..]
      ensures forall i :: 0 <= i < |msgs| ==> log[|old(log)| + i] == Record(NewestOffset(old(log)) + 1 + i, msgs[i])
      ensures old(earlyAcks) <= earlyAcks && EarlyFor(earlyAcks[|old(earlyAcks)|..], log[|old(log)|..])
      ensures isr.Keys == old(isr).Keys && forall r :: r in isr ==>
              if r == config.self then isr[r] == Max(old(isr)[r], NewestOffset(log)) else isr[r] == old(isr)[r]
    {
      QueueBatch(msgs);
      ReportsAfter(old(View()), msgs, View(), config.self);
      UpdateISRLatestOffset(config.self, NewestOffset(log));
      BatchEffect(old(View()), msgs, config.self);
      assert log[|old(log)|..] == Sequenced(NewestOffset(old(log)) + 1, msgs);
    }

    method QueueBatch(msgs: seq<Message>)
      modifies this`log, this`commitQueue, this`earlyAcks
      ensures View().(reported := false) == ProcessAll(Append(old(View()), msgs))
    {
      ghost var start := Append(View(), msgs);
      var rs := Sequenced(NewestOffset(log) + 1, msgs);
      log := log + rs;
      for i := 0 to |rs|
        invariant View() == old(View()).(log := start.log, queue := commitQueue, early := earlyAcks)
        invariant ProcessAll(View().(batch := rs[i..], reported := false)) == ProcessAll(start)
      {
        ghost var before := View().(batch := rs[i..], reported := false);
        ProcessPendingMessage(rs[i]);
        assert ProcessPending(before) == View().(batch := rs[i + 1..], reported := false);
      }
    }

    /** One turn of the commit loop. Nothing happens while the ISR is below its minimum size. */
    method CommitCheck()
      modifies this`hw, this`commitQueue, this`acks
      ensures |isr| < config.minISR ==> View() == old(View())
      ensures |isr| >= config.minISR ==> exists m :: IsMin(isr, m) && View() == Complete(Decide(old(View()), m))
    {
      if |isr| < config.minISR {
        return;
      }
      var members := isr.Keys;
      var latestOffsets := LatestOffsets();
      var minLatest := LeastOffset(latestOffsets);
      var committed := TakeCommitted(minLatest);
      if minLatest > hw {
        hw := minLatest;
      }
      SendAcks(committed, members);
      assert IsMin(isr, minLatest);
      assert View() == Complete(Decide(old(View()), minLatest));
    }

    method TakeCommitted(minLatest: int) returns (committed: seq<Record>)
      modifies this`commitQueue
      ensures var n := TakeUntil(old(commitQueue), minLatest);
              committed == old(commitQueue)[..n] && commitQueue == old(commitQueue)[n..]
    {
      committed := [];
      ghost var queue, k := commitQueue, 0;
      while commitQueue != [] && commitQueue[0].offset <= minLatest
        invariant k <= |queue| && committed == queue[..k] && commitQueue == queue[k..]
        invariant forall i :: 0 <= i < k ==> queue[i].offset <= minLatest
        decreases |commitQueue|
      {
        committed, commitQueue := committed + [commitQueue[0]], commitQueue[1..];
        k := k + 1;
      }
      assert k < |queue| ==> queue[k].offset > minLatest;
    }

    method SendAcks(committed: seq<Record>, members: set<string>)
      modifies this`acks
      ensures acks == old(acks) + AcksFor(committed, members)
      ensures forall a :: a in acks[|old(acks)|..] <==>
                exists r <- committed ::
                  r.message.policy == ALL && r.message.ackInbox != "" && a == Ack(r.offset, members)
    {
      for i := 0 to |committed|
        invariant acks == old(acks) + AcksFor(committed[..i], members)
      {
        assert committed[..i + 1][..i] == committed[..i];
        if committed[i].message.policy == ALL && committed[i].message.ackInbox != "" {
          acks := acks + [Ack(committed[i].offset, members)];
        }
      }
      assert committed[..|committed|] == committed;
      AcksForAre(committed, members);
    }

    method LatestOffsets() returns (offsets: seq<int>)
      ensures forall r :: r in isr ==> isr[r] in offsets
      ensures forall x :: x in offsets ==> exists r :: r in isr && isr[r] == x
    {
      offsets := [];
      var rest := isr.Keys;
      while rest != {}
        invariant rest <= isr.Keys
        invariant forall r :: r in isr && r !in rest ==> isr[r] in offsets
        invariant forall x :: x in offsets ==> exists r :: r in isr && isr[r] == x
        decreases rest
      {
        var r :| r in rest;
        offsets := offsets + [isr[r]];
        rest := rest - {r};
      }
    }

    /** A follower's handling of a replication response; the number of messages replicated. */
    method HandleReplicationResponse(resp: Response) returns (n: nat)
      modifies this`log, this`hw
      ensures Follower(log, hw) == Receive(config, Follower(old(log), old(hw)), resp)
      ensures n == |log| - |old(log)|
      ensures resp.epoch != config.epoch ==> log == old(log) && hw == old(hw)
      ensures resp.epoch == config.epoch ==> hw >= resp.hw && hw >= old(hw) && hw in {resp.hw, old(hw)}
      ensures resp.epoch == config.epoch && resp.data != [] && resp.data[0].offset > NewestOffset(old(log)) ==>
                log == old(log) + resp.data
      ensures resp.data == [] || resp.data[0].offset <= NewestOffset(old(log)) ==> log == old(log)
    {
      if resp.epoch != config.epoch {
        return 0;
      }
      if resp.hw > hw {
        hw := resp.hw;
      }
      if |resp.data| == 0 {
        return 0;
      }
      if resp.data[0].offset < NewestOffset(log) + 1 {
        return 0;
      }
      log := log + resp.data;
      n := |resp.data|;
    }
  }
}
