/** The metadata state machine: entries of the Raft log applied to streams and partitions, guarded by epochs. */
module Metadata {
  import opened Search

  type Id = string

  datatype Part = Part(leader: Id, leaderEpoch: nat, epoch: nat, replicas: set<Id>, isr: set<Id>, paused: bool)

  /** Stream name to partition number to partition. */
  type Store = map<string, map<int, Part>>

  datatype Op =
    | Create(stream: string, id: int, leader: Id, replicas: set<Id>, isr: set<Id>)
    | Shrink(stream: string, id: int, replica: Id, leader: Id, leaderEpoch: nat)
    | Expand(stream: string, id: int, replica: Id, leader: Id, leaderEpoch: nat)
    | ChangeLeader(stream: string, id: int, leader: Id)
    | Delete(stream: string)
    | Pause(stream: string, ids: seq<int>)

  /** A refusal is returned to the caller; an error stops the server. */
  datatype Verdict =
    | Done | PartitionExists | StreamNotFound | PartitionNotFound | NoSuchPartition | NotReplica | StaleLeaderEpoch

  predicate Fatal(v: Verdict) {
    v.NoSuchPartition? || v.NotReplica? || v.StaleLeaderEpoch?
  }

  predicate Has(s: Store, stream: string, id: int) {
    stream in s && id in s[stream]
  }

  function Get(s: Store, stream: string, id: int): Option<Part> {
    if Has(s, stream, id) then Some(s[stream][id]) else None
  }

  function Put(s: Store, stream: string, id: int, p: Part): (r: Store)
    ensures Get(r, stream, id) == Some(p)
    ensures forall st, i :: (st, i) != (stream, id) ==> Get(r, st, i) == Get(s, st, i)
  {
    s[stream := (if stream in s then s[stream] else map[])[id := p]]
  }

  // ---------------------------------------------------------------- applying an entry

  /** The entries that change a partition, guarded by its epoch. */
  predicate Guards(op: Op) {
    op.Shrink? || op.Expand? || op.ChangeLeader?
  }

  /** The leader given at creation is set once more, with the epoch just assigned. */
  function Created(s: Store, op: Op, index: nat): (Store, Verdict)
    requires op.Create?
  {
    if Has(s, op.stream, op.id) && !s[op.stream][op.id].paused then (s, PartitionExists)
    else (Put(s, op.stream, op.id, Part(op.leader, index, index, op.replicas, op.isr, false)), Done)
  }

  /** The change to a partition itself, once the epoch check let it through. */
  function Changed(p: Part, op: Op, index: nat): (Part, Verdict)
    requires Guards(op)
  {
    match op
    case Shrink(_, _, r, _, _) =>
      if r !in p.replicas then (p, NotReplica) else (p.(isr := p.isr - {r}, epoch := index), Done)
    case Expand(_, _, r, _, _) =>
      if r !in p.replicas then (p, NotReplica) else (p.(isr := p.isr + {r}, epoch := index), Done)
    case ChangeLeader(_, _, leader) =>
      if index < p.leaderEpoch then (p, StaleLeaderEpoch)
      else (p.(leader := leader, leaderEpoch := index, epoch := index), Done)
  }

  function Guarded(s: Store, op: Op, index: nat): (Store, Verdict)
    requires Guards(op)
  {
    if !Has(s, op.stream, op.id) then (s, NoSuchPartition) else
    var p := s[op.stream][op.id];
    if p.epoch >= index then (s, Done) else
    var (q, v) := Changed(p, op, index);
    (if v.Done? then Put(s, op.stream, op.id, q) else s, v)
  }

  function PausedPart(p: Part): Part {
    p.(paused := true)
  }

  /** No numbers means all partitions. */
  function PausedStream(parts: map<int, Part>, ids: seq<int>): map<int, Part> {
    map id | id in parts :: if ids == [] || id in ids then PausedPart(parts[id]) else parts[id]
  }

  function Step(s: Store, op: Op, index: nat): (Store, Verdict) {
    match op
    case Create(_, _, _, _, _) => Created(s, op, index)
    case Delete(stream) => if stream !in s then (s, StreamNotFound) else (s - {stream}, Done)
    case Pause(stream, ids) =>
      if stream !in s then (s, StreamNotFound)
      else if exists i :: 0 <= i < |ids| && ids[i] !in s[stream] then (s, PartitionNotFound)
      else (s[stream := PausedStream(s[stream], ids)], Done)
    case _ => Guarded(s, op, index)
  }

  /** The store after the first `n` entries; nothing once an entry stopped the server. */
  function After(log: seq<Op>, n: nat): Option<Store>
    requires n <= |log|
  {
    if n == 0 then Some(map[]) else
    var before := After(log, n - 1);
    if before.None? then None else
    var (s, v) := Step(before.value, log[n - 1], n);
    if Fatal(v) then None else Some(s)
  }

  // ---------------------------------------------------------------- what every entry keeps

  /** The entry that gave the partition this leader. */
  predicate MakesLeader(op: Op, stream: string, id: int, leader: Id) {
    (op.Create? || op.ChangeLeader?) && op.stream == stream && op.id == id && op.leader == leader
  }

  ghost predicate PartOk(log: seq<Op>, n: nat, stream: string, id: int, p: Part)
    requires n <= |log|
  {
    && 1 <= p.leaderEpoch <= p.epoch <= n
    && MakesLeader(log[p.leaderEpoch - 1], stream, id, p.leader)
  }

  /** What an entry does to one partition. */
  function StepPart(p: Option<Part>, stream: string, id: int, op: Op, index: nat): Option<Part> {
    if op.stream != stream then p
    else if op.Delete? then None
    else if op.Pause? then (if p.Some? && (op.ids == [] || id in op.ids) then Some(PausedPart(p.value)) else p)
    else if op.id != id then p
    else if op.Create? then
      if p.Some? && !p.value.paused then p else Some(Part(op.leader, index, index, op.replicas, op.isr, false))
    else if p.None? || p.value.epoch >= index then p
    else Some(Changed(p.value, op, index).0)
  }

  /** The state machine acts on each partition by itself, unless it refuses the entry. */
  lemma {:induction false} StepIsLocal(s: Store, op: Op, index: nat, stream: string, id: int)
    ensures var (r, v) := Step(s, op, index);
            if v.Done? then Get(r, stream, id) == StepPart(Get(s, stream, id), stream, id, op, index) else r == s
  {
  }

  /** One entry, seen from one partition. */
  lemma {:induction false} PartAfter(log: seq<Op>, n: nat, stream: string, id: int)
    requires 0 < n <= |log| && After(log, n).Some?
    ensures After(log, n - 1).Some?
    ensures var p, q := Get(After(log, n - 1).value, stream, id), Get(After(log, n).value, stream, id);
            q == p || q == StepPart(p, stream, id, log[n - 1], n)
  {
  }

  /** Epochs stay within the log, and the leader epoch names the entry that chose the leader. */
  lemma {:induction false} PartStaysOk(log: seq<Op>, n: nat, stream: string, id: int)
    requires n <= |log| && After(log, n).Some? && Has(After(log, n).value, stream, id)
    ensures PartOk(log, n, stream, id, After(log, n).value[stream][id])
  {
    if n == 0 {
    } else {
      PartAfter(log, n, stream, id);
      if Has(After(log, n - 1).value, stream, id) {
        PartStaysOk(log, n - 1, stream, id);
      }
    }
  }

  /** Two servers that agree on the leader epoch of a partition agree on its leader, however far each has come. */
  lemma {:induction false} LeaderAgreement(log: seq<Op>, m: nat, n: nat, stream: string, id: int)
    requires m <= |log| && n <= |log| && After(log, m).Some? && After(log, n).Some?
    requires Has(After(log, m).value, stream, id) && Has(After(log, n).value, stream, id)
    requires After(log, m).value[stream][id].leaderEpoch == After(log, n).value[stream][id].leaderEpoch
    ensures After(log, m).value[stream][id].leader == After(log, n).value[stream][id].leader
  {
    PartStaysOk(log, m, stream, id);
    PartStaysOk(log, n, stream, id);
  }

  lemma {:induction false} EarlierRuns(log: seq<Op>, m: nat, n: nat)
    requires m <= n <= |log| && After(log, n).Some?
    ensures After(log, m).Some?
    decreases n - m
  {
    if m == n {
    } else {
      EarlierRuns(log, m, n - 1);
    }
  }

  function Unpaused(p: Part): Part {
    p.(paused := false)
  }

  /** A partition is, but for pausing, what it was right after the entry its epoch names. */
  lemma {:induction false} EpochNamesState(log: seq<Op>, n: nat, stream: string, id: int)
    requires n <= |log| && After(log, n).Some? && Has(After(log, n).value, stream, id)
    ensures var p := After(log, n).value[stream][id];
            && p.epoch <= n && After(log, p.epoch).Some? && Has(After(log, p.epoch).value, stream, id)
            && Unpaused(p) == Unpaused(After(log, p.epoch).value[stream][id])
  {
    if n == 0 {
    } else {
      var p := After(log, n).value[stream][id];
      PartStaysOk(log, n, stream, id);
      EarlierRuns(log, p.epoch, n);
      PartAfter(log, n, stream, id);
      if p.epoch < n {
        EpochNamesState(log, n - 1, stream, id);
      }
    }
  }

  /** Agreement on the partition epoch is agreement on the whole partition. */
  lemma {:induction false} EpochAgreement(log: seq<Op>, m: nat, n: nat, stream: string, id: int)
    requires m <= |log| && n <= |log| && After(log, m).Some? && After(log, n).Some?
    requires Has(After(log, m).value, stream, id) && Has(After(log, n).value, stream, id)
    requires After(log, m).value[stream][id].epoch == After(log, n).value[stream][id].epoch
    ensures Unpaused(After(log, m).value[stream][id]) == Unpaused(After(log, n).value[stream][id])
  {
    EpochNamesState(log, m, stream, id);
    EpochNamesState(log, n, stream, id);
  }

  /** The stale leader epoch error cannot arise while the log is applied in order. */
  lemma {:induction false} NeverStale(log: seq<Op>, n: nat)
    requires n < |log| && After(log, n).Some?
    ensures Step(After(log, n).value, log[n], n + 1).1 != StaleLeaderEpoch
  {
    var s, op := After(log, n).value, log[n];
    if op.ChangeLeader? && Has(s, op.stream, op.id) {
      PartStaysOk(log, n, op.stream, op.id);
    }
  }

  /**
   * No epoch check holds back an entry applied in order: a change to a partition takes effect, on that partition,
   * at its own index.
   */
  lemma {:induction false} EntryTakesEffect(log: seq<Op>, n: nat)
    requires n < |log| && After(log, n + 1).Some? && Guards(log[n])
    ensures After(log, n).Some? && Has(After(log, n).value, log[n].stream, log[n].id) &&
            Has(After(log, n + 1).value, log[n].stream, log[n].id)
    ensures var op := log[n];
            var p, q := After(log, n).value[op.stream][op.id], After(log, n + 1).value[op.stream][op.id];
            && q.epoch == n + 1 && q.replicas == p.replicas && q.paused == p.paused
            && (op.ChangeLeader? ==> q.leader == op.leader && q.leaderEpoch == n + 1 && q.isr == p.isr)
            && (!op.ChangeLeader? ==>
                q.leader == p.leader && q.leaderEpoch == p.leaderEpoch && op.replica in p.replicas)
            && (op.Shrink? ==> forall r :: r in q.isr <==> r in p.isr && r != op.replica)
            && (op.Expand? ==> forall r :: r in q.isr <==> r in p.isr || r == op.replica)
  {
    var s, op := After(log, n).value, log[n];
    PartStaysOk(log, n, op.stream, op.id);
  }

  // ---------------------------------------------------------------- what stops the server

  /**
   * In a store some log leads to, an entry of any index stops the server if and only if it changes a partition that is
   * not there, or puts a server that is no replica in or out of the ISR, at an index above the partition's epoch.
   */
  lemma {:induction false} EntryStops(log: seq<Op>, n: nat, op: Op, index: nat)
    requires n <= |log| && After(log, n).Some?
    ensures var s := After(log, n).value;
            Fatal(Step(s, op, index).1) <==>
              Guards(op) && match Get(s, op.stream, op.id)
                            case None => true
                            case Some(p) => !op.ChangeLeader? && p.epoch < index && op.replica !in p.replicas
  {
    if Guards(op) && Has(After(log, n).value, op.stream, op.id) {
      PartStaysOk(log, n, op.stream, op.id);
    }
  }

  /** The log creates the partition and does not delete its stream since. */
  ghost predicate CreatedSince(log: seq<Op>, n: nat, stream: string, id: int)
    requires n <= |log|
  {
    exists i :: 0 <= i < n && CreatedAt(log, i, n, stream, id)
  }

  ghost predicate CreatedAt(log: seq<Op>, i: nat, n: nat, stream: string, id: int)
    requires i < n <= |log|
  {
    log[i].Create? && log[i].stream == stream && log[i].id == id && forall j :: i < j < n ==> log[j] != Delete(stream)
  }

  /** Which partitions there are can be read off the log. */
  lemma {:induction false} PartitionsAreCreated(log: seq<Op>, n: nat, stream: string, id: int)
    requires n <= |log| && After(log, n).Some?
    ensures Has(After(log, n).value, stream, id) <==> CreatedSince(log, n, stream, id)
  {
    if n == 0 {
    } else {
      PartAfter(log, n, stream, id);
      PartitionsAreCreated(log, n - 1, stream, id);
      CreatedNext(log, n - 1, stream, id);
      StepIsLocal(After(log, n - 1).value, log[n - 1], n, stream, id);
    }
  }

  lemma {:induction false} CreatedNext(log: seq<Op>, n: nat, stream: string, id: int)
    requires n < |log|
    ensures var op := log[n];
            CreatedSince(log, n + 1, stream, id) <==>
              op != Delete(stream) &&
              (CreatedSince(log, n, stream, id) || (op.Create? && op.stream == stream && op.id == id))
  {
    var op := log[n];
    if CreatedSince(log, n + 1, stream, id) {
      var i :| 0 <= i < n + 1 && CreatedAt(log, i, n + 1, stream, id);
      assert i < n ==> CreatedAt(log, i, n, stream, id) && op != Delete(stream);
    }
    if op != Delete(stream) && CreatedSince(log, n, stream, id) {
      var i :| 0 <= i < n && CreatedAt(log, i, n, stream, id);
      assert CreatedAt(log, i, n + 1, stream, id);
    }
    if op.Create? && op.stream == stream && op.id == id {
      assert CreatedAt(log, n, n + 1, stream, id);
    }
  }

  /** Entry `i` changes a partition the log has not created, or the ISR membership of a server that is no replica. */
  ghost predicate StopsAt(log: seq<Op>, i: nat)
    requires i < |log|
  {
    var op := log[i];
    Guards(op) && (!CreatedSince(log, i, op.stream, op.id) || (!op.ChangeLeader? && !ReplicaAt(log, i, op)))
  }

  predicate ReplicaAt(log: seq<Op>, i: nat, op: Op)
    requires i < |log| && (op.Shrink? || op.Expand?)
  {
    After(log, i).Some? && match Get(After(log, i).value, op.stream, op.id)
                           case None => false
                           case Some(p) => op.replica in p.replicas
  }

  /** A server comes through the first `n` entries if and only if none of them is such. */
  lemma {:induction false} ServerComesThrough(log: seq<Op>, n: nat)
    requires n <= |log|
    ensures After(log, n).Some? <==> forall i :: 0 <= i < n ==> !StopsAt(log, i)
  {
    if n == 0 {
    } else {
      ServerComesThrough(log, n - 1);
      if After(log, n - 1).Some? {
        var op := log[n - 1];
        EntryStops(log, n - 1, op, n);
        PartitionsAreCreated(log, n - 1, op.stream, if Guards(op) then op.id else 0);
        if Guards(op) && Has(After(log, n - 1).value, op.stream, op.id) {
          PartStaysOk(log, n - 1, op.stream, op.id);
        }
        assert After(log, n).Some? <==> !StopsAt(log, n - 1);
      }
    }
  }

  /** The stream is there, and the log has not created one of the partitions. */
  ghost predicate Lacks(log: seq<Op>, n: nat, stream: string, ids: seq<int>)
    requires n <= |log| && After(log, n).Some?
  {
    stream in After(log, n).value && exists i :: 0 <= i < |ids| && !CreatedSince(log, n, stream, ids[i])
  }

  lemma {:induction false} LacksIsMissing(log: seq<Op>, n: nat, stream: string, ids: seq<int>)
    requires n <= |log| && After(log, n).Some?
    ensures var s := After(log, n).value;
            Lacks(log, n, stream, ids) <==> stream in s && exists i :: 0 <= i < |ids| && ids[i] !in s[stream]
  {
    var s := After(log, n).value;
    forall i | 0 <= i < |ids| ensures Has(s, stream, ids[i]) <==> CreatedSince(log, n, stream, ids[i]) {
      PartitionsAreCreated(log, n, stream, ids[i]);
    }
  }

  /** Which entries are refused: a creation when the partition is there and not paused, deleting and pausing when there
      is no such stream, and pausing when one of the partitions was not created. */
  lemma {:induction false} Refusals(log: seq<Op>, n: nat, op: Op, index: nat)
    requires n <= |log| && After(log, n).Some? && !Guards(op)
    ensures var s, v := After(log, n).value, Step(After(log, n).value, op, index).1;
            match op
            case Create(stream, id, _, _, _) =>
              var there := CreatedSince(log, n, stream, id);
              && (v.PartitionExists? || v.Done?) && (!there ==> v.Done?)
              && (there ==> Has(s, stream, id) && (v.Done? <==> s[stream][id].paused))
            case Delete(stream) => if stream in s then v.Done? else v.StreamNotFound?
            case Pause(stream, ids) =>
              if stream !in s then v.StreamNotFound?
              else if Lacks(log, n, stream, ids) then v.PartitionNotFound?
              else v.Done?
  {
    match op {
      case Create(stream, id, _, _, _) => PartitionsAreCreated(log, n, stream, id);
      case Pause(stream, ids) => LacksIsMissing(log, n, stream, ids);
      case Delete(_) =>
    }
  }

  /** What creation, deletion and pausing leave behind, when they are not refused. */
  lemma {:induction false} StreamEntryTakesEffect(s: Store, op: Op, index: nat, stream: string, id: int)
    requires !Guards(op) && Step(s, op, index).1.Done?
    ensures var q := Get(Step(s, op, index).0, stream, id);
            && (op.Create? && op.stream == stream && op.id == id ==>
                q.Some? && q.value.leader == op.leader && q.value.leaderEpoch == q.value.epoch == index &&
                q.value.replicas == op.replicas && q.value.isr == op.isr && !q.value.paused)
            && (op.Create? && (op.stream, op.id) != (stream, id) ==> q == Get(s, stream, id))
            && (op.Delete? && op.stream == stream ==> q.None?)
            && (op.Pause? && op.stream == stream ==>
                Has(s, stream, id) == q.Some? && (q.Some? ==>
                  && q.value == s[stream][id].(paused := q.value.paused)
                  && (q.value.paused <==> op.ids == [] || id in op.ids || s[stream][id].paused)))
            && (op.stream != stream ==> q == Get(s, stream, id))
  {
  }

  /** Creation puts the in-sync set within the replicas, and nothing takes it out. */
  lemma {:induction false} IsrWithinReplicas(log: seq<Op>, n: nat, stream: string, id: int)
    requires n <= |log| && After(log, n).Some? && Has(After(log, n).value, stream, id)
    requires forall i :: 0 <= i < n && log[i].Create? ==> log[i].isr <= log[i].replicas
    ensures var p := After(log, n).value[stream][id]; p.isr <= p.replicas
  {
    if n == 0 {
    } else {
      PartAfter(log, n, stream, id);
      if Has(After(log, n - 1).value, stream, id) {
        IsrWithinReplicas(log, n - 1, stream, id);
      }
    }
  }

  // ---------------------------------------------------------------- entries delivered again

  lemma {:induction false} EpochCovers(log: seq<Op>, n: nat, i: nat)
    requires i < n <= |log| && After(log, n).Some? && Guards(log[i]) &&
             Has(After(log, n).value, log[i].stream, log[i].id)
    ensures After(log, n).value[log[i].stream][log[i].id].epoch >= i + 1
  {
    var stream, id := log[i].stream, log[i].id;
    PartAfter(log, n, stream, id);
    if i + 1 < n && Has(After(log, n - 1).value, stream, id) {
      EpochCovers(log, n - 1, i);
    }
    PartStaysOk(log, n, stream, id);
  }

  /**
   * An entry delivered again changes nothing if and only if its partition is still there, and for a
   * creation is not paused. Without its partition a change stops the server and a creation revives it.
   */
  lemma {:induction false} Redelivery(log: seq<Op>, n: nat, i: nat)
    requires i < n <= |log| && After(log, n).Some? && (Guards(log[i]) || log[i].Create?)
    ensures var s, op := After(log, n).value, log[i];
            var (r, v) := Step(s, op, i + 1);
            (r == s && !Fatal(v)) <==> Has(s, op.stream, op.id) && (op.Create? ==> !s[op.stream][op.id].paused)
  {
    var s, op := After(log, n).value, log[i];
    if Guards(op) && Has(s, op.stream, op.id) {
      EpochCovers(log, n, i);
    }
    if op.Create? {
      assert Get(Step(s, op, i + 1).0, op.stream, op.id).Some?;
    }
  }

  // ---------------------------------------------------------------- the server's own state

  class MetadataServer {
    var streams: Store

    constructor ()
      ensures streams == map[]
    {
      streams := map[];
    }

    method CreatePartition(op: Op, index: nat) returns (v: Verdict)
      requires op.Create?
      modifies this
      ensures (streams, v) == Created(old(streams), op, index)
    {
      var parts := map[];
      if op.stream in streams {
        parts := streams[op.stream];
      }
      if op.id in parts && !parts[op.id].paused {
        return PartitionExists;
      }
      var p := Part(op.leader, index, index, op.replicas, op.isr, false);
      streams := streams[op.stream := parts[op.id := p]];
      return Done;
    }

    method ShrinkISR(op: Op, epoch: nat) returns (v: Verdict)
      requires op.Shrink?
      modifies this
      ensures (streams, v) == Guarded(old(streams), op, epoch)
    {
      var stream, id, replica := op.stream, op.id, op.replica;
      if !Has(streams, stream, id) {
        return NoSuchPartition;
      }
      var p := streams[stream][id];
      if p.epoch >= epoch {
        return Done;
      }
      if replica !in p.replicas {
        return NotReplica;
      }
      streams := Put(streams, stream, id, p.(isr := p.isr - {replica}, epoch := epoch));
      return Done;
    }

    method ExpandISR(op: Op, epoch: nat) returns (v: Verdict)
      requires op.Expand?
      modifies this
      ensures (streams, v) == Guarded(old(streams), op, epoch)
    {
      var stream, id, replica := op.stream, op.id, op.replica;
      if !Has(streams, stream, id) {
        return NoSuchPartition;
      }
      var p := streams[stream][id];
      if p.epoch >= epoch {
        return Done;
      }
      if replica !in p.replicas {
        return NotReplica;
      }
      streams := Put(streams, stream, id, p.(isr := p.isr + {replica}, epoch := epoch));
      return Done;
    }

    method ChangePartitionLeader(stream: string, id: int, leader: Id, epoch: nat) returns (v: Verdict)
      modifies this
      ensures (streams, v) == Guarded(old(streams), ChangeLeader(stream, id, leader), epoch)
    {
      if !Has(streams, stream, id) {
        return NoSuchPartition;
      }
      var p := streams[stream][id];
      if p.epoch >= epoch {
        return Done;
      }
      if epoch < p.leaderEpoch {
        return StaleLeaderEpoch;
      }
      streams := Put(streams, stream, id, p.(leader := leader, leaderEpoch := epoch, epoch := epoch));
      return Done;
    }

    /** First collects the partitions to pause, so that a missing one leaves all as they were. */
    method PauseStream(stream: string, ids: seq<int>) returns (v: Verdict)
      modifies this
      ensures (streams, v) == Step(old(streams), Pause(stream, ids), 0)
    {
      if stream !in streams {
        return StreamNotFound;
      }
      var toPause := streams[stream].Keys;
      if ids != [] {
        toPause := {};
        for i := 0 to |ids|
          invariant streams == old(streams) && forall k :: 0 <= k < i ==> ids[k] in streams[stream]
          invariant forall id :: id in toPause <==> id in ids[..i]
        {
          if ids[i] !in streams[stream] {
            return PartitionNotFound;
          }
          assert ids[..i + 1] == ids[..i] + [ids[i]];
          toPause := toPause + {ids[i]};
        }
        assert ids[..|ids|] == ids;
      }
      var was := streams[stream];
      var parts := map id | id in was :: if id in toPause then PausedPart(was[id]) else was[id];
      assert forall id <- was :: id in toPause <==> ids == [] || id in ids;
      assert forall id <- was :: parts[id] == PausedStream(was, ids)[id];
      assert parts == PausedStream(was, ids);
      streams := streams[stream := parts];
      return Done;
    }

    /** One entry of the Raft log at its index. */
    method Apply(op: Op, index: nat) returns (v: Verdict)
      modifies this
      ensures (streams, v) == Step(old(streams), op, index)
    {
      match op
      case Create(_, _, _, _, _) => v := CreatePartition(op, index);
      case Shrink(_, _, _, _, _) => v := ShrinkISR(op, index);
      case Expand(_, _, _, _, _) => v := ExpandISR(op, index);
      case ChangeLeader(stream, id, leader) => v := ChangePartitionLeader(stream, id, leader, index);
      case Pause(stream, ids) => v := PauseStream(stream, ids);
      case Delete(stream) =>
        if stream !in streams {
          return StreamNotFound;
        }
        streams := streams - {stream};
        return Done;
    }

    /** Replays a log from its first entry: what is left is what the log determines. */
    method Replay(log: seq<Op>) returns (n: nat, v: Verdict)
      requires streams == map[]
      modifies this
      ensures n <= |log| && After(log, n) == Some(streams) && (n < |log| ==> Fatal(v) && After(log, n + 1).None?)
    {
      n, v := 0, Done;
      while n < |log|
        invariant n <= |log| && After(log, n) == Some(streams)
      {
        ghost var before := streams;
        v := Apply(log[n], n + 1);
        if Fatal(v) {
          FatalKeeps(before, log[n], n + 1);
          return;
        }
        n := n + 1;
      }
    }
  }

  lemma {:induction false} FatalKeeps(s: Store, op: Op, index: nat)
    requires Fatal(Step(s, op, index).1)
    ensures Step(s, op, index).0 == s
  {
  }
}
