/** The parallel key scan of log compaction: goroutines take segments from a channel and update a shared map,
    in any order, and the map ends up with the greatest offset of each key. */
module KeyScan {
  import opened Integers
  import opened Search
  import opened Sequences

  datatype Rec = Rec(offset: int, key: Option<string>, value: string, leaderEpoch: nat)

  /** The map is keyed by strings, so a nil key and an empty one share a slot. */
  function Slot(r: Rec): string {
    match r.key
    case None => ""
    case Some(k) => k
  }

  // ---------------------------------------------------------------- what the map should hold

  /** The greatest offset at or below `hw` of each slot, by one pass over the records. */
  function Latest(recs: seq<Rec>, hw: int): map<string, int> {
    if recs == [] then map[]
    else
      var n := |recs| - 1;
      var m := Latest(recs[..n], hw);
      if recs[n].offset > hw then m else Noted(m, recs[n])
  }

  function Noted(m: map<string, int>, r: Rec): map<string, int> {
    m[Slot(r) := if Slot(r) in m then Max(m[Slot(r)], r.offset) else r.offset]
  }

  /** A map that has an entry for a slot exactly if some record at or below `hw` has that slot, namely the greatest
      of their offsets. */
  ghost predicate IsLatest(m: map<string, int>, recs: seq<Rec>, hw: int) {
    && (forall k :: k in m ==> exists r :: r in recs && r.offset == m[k] <= hw && Slot(r) == k)
    && (forall r :: r in recs && r.offset <= hw ==> Slot(r) in m && r.offset <= m[Slot(r)])
  }

  lemma {:induction false} LatestIsLatest(recs: seq<Rec>, hw: int)
    ensures IsLatest(Latest(recs, hw), recs, hw)
  {
    if recs == [] {
    } else {
      var n := |recs| - 1;
      LatestIsLatest(recs[..n], hw);
      var m, l := Latest(recs[..n], hw), Latest(recs, hw);
      assert recs == recs[..n] + [recs[n]];
      forall k | k in l ensures exists r :: r in recs && r.offset == l[k] <= hw && Slot(r) == k {
        if k in m && l[k] == m[k] {
          var r :| r in recs[..n] && r.offset == m[k] <= hw && Slot(r) == k;
          assert r in recs;
        } else {
          assert recs[n] in recs;
        }
      }
    }
  }

  lemma {:induction false} LatestIsUnique(m: map<string, int>, n: map<string, int>, recs: seq<Rec>, hw: int)
    requires IsLatest(m, recs, hw) && IsLatest(n, recs, hw)
    ensures m == n
  {
  }

  predicate At(segs: seq<seq<Rec>>, s: int, i: int) {
    0 <= s < |segs| && 0 <= i < |segs[s]|
  }

  /** Offsets rise within a segment and from each segment to the next. */
  ghost predicate Rising(segs: seq<seq<Rec>>) {
    forall s, i, t, j :: At(segs, s, i) && At(segs, t, j) && (s < t || (s == t && i < j)) ==>
        segs[s][i].offset < segs[t][j].offset
  }

  // ---------------------------------------------------------------- the goroutines

  datatype Worker =
    | Idle
    | Scanning(seg: nat, pos: nat)
    | Setting(seg: nat, pos: nat)  // found the slot taken, about to raise its offset
    | Done

  /** `sent` segments have been put on the channel and `taken` of them received. */
  datatype Scan = Scan(sent: nat, taken: nat, offsets: map<string, int>, workers: seq<Worker>)

  datatype Move = Send | Work(w: nat)

  predicate Enabled(segs: seq<seq<Rec>>, s: Scan, move: Move) {
    match move
    case Send => s.sent < |segs|
    case Work(w) =>
      && w < |s.workers|
      && match s.workers[w]
         case Idle => s.taken < s.sent || s.sent == |segs|
         case Scanning(_, _) => true
         case Setting(_, _) => true
         case Done => false
  }

  /** One atomic action: a channel operation, a `LoadOrStore`, or a locked `set`. */
  function Next(segs: seq<seq<Rec>>, hw: int, s: Scan, move: Move): Scan
    requires Enabled(segs, s, move)
  {
    match move
    case Send => s.(sent := s.sent + 1)
    case Work(w) =>
      match s.workers[w]
      case Idle =>
        if s.taken < s.sent then s.(taken := s.taken + 1, workers := s.workers[w := Scanning(s.taken, 0)])
        else s.(workers := s.workers[w := Done])
      case Scanning(g, i) =>
        if !At(segs, g, i) then s.(workers := s.workers[w := Idle])
        else if segs[g][i].offset > hw then s.(workers := s.workers[w := Done])
        else if Slot(segs[g][i]) in s.offsets then s.(workers := s.workers[w := Setting(g, i)])
        else s.(offsets := s.offsets[Slot(segs[g][i]) := segs[g][i].offset],
            workers := s.workers[w := Scanning(g, i + 1)])
      case Setting(g, i) =>
        if !At(segs, g, i) then s.(workers := s.workers[w := Idle])
        else s.(offsets := Noted(s.offsets, segs[g][i]), workers := s.workers[w := Scanning(g, i + 1)])
      case Done => s
  }

  ghost predicate Init(s: Scan) {
    s.sent == 0 && s.taken == 0 && s.offsets == map[] && |s.workers| > 0 && forall w :: 0 <= w < |s.workers| ==>
        s.workers[w] == Idle
  }

  ghost predicate StepAt(segs: seq<seq<Rec>>, hw: int, run: seq<Scan>, moves: seq<Move>, i: nat)
    requires i < |moves| && |run| == |moves| + 1
  {
    Enabled(segs, run[i], moves[i]) && run[i + 1] == Next(segs, hw, run[i], moves[i])
  }

  ghost predicate IsRun(segs: seq<seq<Rec>>, hw: int, run: seq<Scan>, moves: seq<Move>) {
    && |run| == |moves| + 1
    && Init(run[0])
    && forall i :: 0 <= i < |moves| ==> StepAt(segs, hw, run, moves, i)
  }

  ghost predicate Finished(s: Scan) {
    forall w :: 0 <= w < |s.workers| ==> s.workers[w] == Done
  }

  // ---------------------------------------------------------------- the invariant

  ghost predicate Pending(w: Worker, s: int, i: int) {
    (w.Scanning? || w.Setting?) && w.seg == s && w.pos <= i
  }

  ghost predicate Covered(m: map<string, int>, r: Rec) {
    Slot(r) in m && r.offset <= m[Slot(r)]
  }

  ghost predicate Sound(segs: seq<seq<Rec>>, hw: int, m: map<string, int>) {
    forall k :: k in m ==> exists s, i :: At(segs, s, i) && segs[s][i].offset == m[k] <= hw && Slot(segs[s][i]) == k
  }

  /** A record of a received segment is in the map, or a goroutine is still before it, or it is above `hw`. */
  ghost predicate Accounted(segs: seq<seq<Rec>>, hw: int, s: Scan, g: int, i: int)
    requires At(segs, g, i)
  {
    g < s.taken && segs[g][i].offset <= hw ==>
      Covered(s.offsets, segs[g][i]) || exists w :: 0 <= w < |s.workers| && Pending(s.workers[w], g, i)
  }

  ghost predicate WorkerInv(segs: seq<seq<Rec>>, hw: int, s: Scan, w: Worker) {
    match w
    case Idle => true
    case Scanning(g, i) => g < s.taken && g < |segs| && i <= |segs[g]|
    case Setting(g, i) => g < s.taken && At(segs, g, i) && segs[g][i].offset <= hw && Slot(segs[g][i]) in s.offsets
    case Done => forall g, i :: s.taken <= g && At(segs, g, i) ==> segs[g][i].offset > hw
  }

  ghost predicate Inv(segs: seq<seq<Rec>>, hw: int, s: Scan) {
    && s.taken <= s.sent <= |segs| && |s.workers| > 0
    && Sound(segs, hw, s.offsets)
    && (forall w :: 0 <= w < |s.workers| ==> WorkerInv(segs, hw, s, s.workers[w]))
    && (forall g, i :: At(segs, g, i) ==> Accounted(segs, hw, s, g, i))
  }

  lemma {:induction false} SoundAfterNoted(segs: seq<seq<Rec>>, hw: int, m: map<string, int>, g: nat, i: nat)
    requires Sound(segs, hw, m) && At(segs, g, i) && segs[g][i].offset <= hw
    ensures Sound(segs, hw, Noted(m, segs[g][i]))
  {
  }

  lemma {:induction false} StillAccounted(segs: seq<seq<Rec>>, hw: int, s: Scan, t: Scan, w: nat, g: int, i: int)
    requires At(segs, g, i) && Accounted(segs, hw, s, g, i) && w < |s.workers| && |t.workers| == |s.workers|
    requires forall v :: 0 <= v < |s.workers| && v != w ==> t.workers[v] == s.workers[v]
    requires forall r: Rec :: Covered(s.offsets, r) ==> Covered(t.offsets, r)
    requires t.taken == s.taken
    requires Pending(s.workers[w], g, i) ==>
             Pending(t.workers[w], g, i) || Covered(t.offsets, segs[g][i]) || segs[g][i].offset > hw
    ensures Accounted(segs, hw, t, g, i)
  {
  }

  lemma {:induction false} SendKeepsInv(segs: seq<seq<Rec>>, hw: int, s: Scan)
    requires Inv(segs, hw, s) && Enabled(segs, s, Send)
    ensures Inv(segs, hw, Next(segs, hw, s, Send))
  {
  }

  lemma {:induction false} TakeKeepsInv(segs: seq<seq<Rec>>, hw: int, s: Scan, w: nat)
    requires Inv(segs, hw, s) && Enabled(segs, s, Work(w)) && s.workers[w] == Idle && s.taken < s.sent
    ensures Inv(segs, hw, Next(segs, hw, s, Work(w)))
  {
    var t := Next(segs, hw, s, Work(w));
    forall v | 0 <= v < |t.workers| ensures WorkerInv(segs, hw, t, t.workers[v]) {
      assert WorkerInv(segs, hw, s, s.workers[v]);
    }
    forall g, i | At(segs, g, i) ensures Accounted(segs, hw, t, g, i) {
      assert Accounted(segs, hw, s, g, i);
      if g == s.taken {
        assert Pending(t.workers[w], g, i);
      } else if g < s.taken && segs[g][i].offset <= hw && !Covered(s.offsets, segs[g][i]) {
        var v :| 0 <= v < |s.workers| && Pending(s.workers[v], g, i);
        assert Pending(t.workers[v], g, i);
      }
    }
  }

  lemma {:induction false} ExitKeepsInv(segs: seq<seq<Rec>>, hw: int, s: Scan, w: nat)
    requires Inv(segs, hw, s) && Enabled(segs, s, Work(w)) && s.workers[w] == Idle && s.taken >= s.sent
    ensures Inv(segs, hw, Next(segs, hw, s, Work(w)))
  {
    var t := Next(segs, hw, s, Work(w));
    forall v | 0 <= v < |t.workers| ensures WorkerInv(segs, hw, t, t.workers[v]) {
      assert WorkerInv(segs, hw, s, s.workers[v]);
    }
    forall g, i | At(segs, g, i) ensures Accounted(segs, hw, t, g, i) {
      StillAccounted(segs, hw, s, t, w, g, i);
    }
  }

  /** What one scanning step does to the map and to its goroutine. */
  lemma {:induction false} ScanEffect(segs: seq<seq<Rec>>, hw: int, s: Scan, w: nat)
    requires Rising(segs) && Inv(segs, hw, s) && w < |s.workers| && (s.workers[w].Scanning? || s.workers[w].Setting?)
    ensures var t := Next(segs, hw, s, Work(w));
            && t.sent == s.sent && t.taken == s.taken && |t.workers| == |s.workers|
            && Sound(segs, hw, t.offsets)
            && (forall r: Rec :: Covered(s.offsets, r) ==> Covered(t.offsets, r))
            && (forall k :: k in s.offsets ==> k in t.offsets)
            && WorkerInv(segs, hw, t, t.workers[w])
  {
    var t := Next(segs, hw, s, Work(w));
    var g, i := s.workers[w].seg, s.workers[w].pos;
    assert WorkerInv(segs, hw, s, s.workers[w]);
    if At(segs, g, i) && segs[g][i].offset <= hw {
      SoundAfterNoted(segs, hw, s.offsets, g, i);
    }
  }

  lemma {:induction false} ScanMoves(segs: seq<seq<Rec>>, hw: int, s: Scan, w: nat, h: int, j: int)
    requires Rising(segs) && w < |s.workers| && (s.workers[w].Scanning? || s.workers[w].Setting?) && At(segs, h, j)
    requires WorkerInv(segs, hw, s, s.workers[w]) && Pending(s.workers[w], h, j)
    ensures var t := Next(segs, hw, s, Work(w));
            Pending(t.workers[w], h, j) || Covered(t.offsets, segs[h][j]) || segs[h][j].offset > hw
  {
  }

  /** A goroutine that meets an offset above `hw` stops for good: everything it leaves unread is above `hw` too. */
  lemma {:induction false} ScanKeepsInv(segs: seq<seq<Rec>>, hw: int, s: Scan, w: nat)
    requires Rising(segs) && Inv(segs, hw, s) && w < |s.workers| && (s.workers[w].Scanning? || s.workers[w].Setting?)
    ensures Inv(segs, hw, Next(segs, hw, s, Work(w)))
  {
    var t := Next(segs, hw, s, Work(w));
    ScanEffect(segs, hw, s, w);
    assert WorkerInv(segs, hw, s, s.workers[w]);
    forall v | 0 <= v < |t.workers| ensures WorkerInv(segs, hw, t, t.workers[v]) {
      if v != w {
        assert WorkerInv(segs, hw, s, s.workers[v]);
        OtherWorker(segs, hw, s, t, v);
      }
    }
    forall h, j | At(segs, h, j) ensures Accounted(segs, hw, t, h, j) {
      if Pending(s.workers[w], h, j) { ScanMoves(segs, hw, s, w, h, j); }
      StillAccounted(segs, hw, s, t, w, h, j);
    }
  }

  lemma {:induction false} OtherWorker(segs: seq<seq<Rec>>, hw: int, s: Scan, t: Scan, v: nat)
    requires v < |s.workers| && v < |t.workers| && t.workers[v] == s.workers[v] && t.taken == s.taken
    requires WorkerInv(segs, hw, s, s.workers[v]) && forall k :: k in s.offsets ==> k in t.offsets
    ensures WorkerInv(segs, hw, t, t.workers[v])
  {
  }

  lemma {:induction false} StepKeepsInv(segs: seq<seq<Rec>>, hw: int, s: Scan, move: Move)
    requires Rising(segs) && Inv(segs, hw, s) && Enabled(segs, s, move)
    ensures Inv(segs, hw, Next(segs, hw, s, move))
  {
    match move {
      case Send => SendKeepsInv(segs, hw, s);
      case Work(w) =>
        if s.workers[w].Idle? {
          if s.taken < s.sent { TakeKeepsInv(segs, hw, s, w); } else { ExitKeepsInv(segs, hw, s, w); }
        } else {
          ScanKeepsInv(segs, hw, s, w);
        }
    }
  }

  lemma {:induction false} RunKeepsInv(segs: seq<seq<Rec>>, hw: int, run: seq<Scan>, moves: seq<Move>, n: nat)
    requires Rising(segs) && IsRun(segs, hw, run, moves) && n < |run|
    ensures Inv(segs, hw, run[n])
  {
    if n == 0 {
    } else {
      RunKeepsInv(segs, hw, run, moves, n - 1);
      assert StepAt(segs, hw, run, moves, n - 1);
      StepKeepsInv(segs, hw, run[n - 1], moves[n - 1]);
    }
  }

  // ---------------------------------------------------------------- termination

  function SegWork(segs: seq<seq<Rec>>): nat {
    if segs == [] then 0 else 2 * |segs[0]| + 2 + SegWork(segs[1..])
  }

  function WorkerWork(segs: seq<seq<Rec>>, w: Worker): int {
    match w
    case Idle => 1
    case Scanning(g, i) => if g < |segs| then 2 * (|segs[g]| - i) + 2 else 2
    case Setting(g, i) => if g < |segs| then 2 * (|segs[g]| - i) + 1 else 2
    case Done => 0
  }

  function WorkersWork(segs: seq<seq<Rec>>, ws: seq<Worker>): int {
    if ws == [] then 0 else WorkerWork(segs, ws[0]) + WorkersWork(segs, ws[1..])
  }

  /** What remains to be done: sends, segments on the channel, and the rest of each goroutine's segment. */
  function Remaining(segs: seq<seq<Rec>>, s: Scan): int {
    |segs| - s.sent + (if s.taken <= |segs| then SegWork(segs[s.taken..]) else 0) + WorkersWork(segs, s.workers)
  }

  lemma {:induction false} WorkersUpdate(segs: seq<seq<Rec>>, ws: seq<Worker>, w: nat, x: Worker)
    requires w < |ws|
    ensures WorkersWork(segs, ws[w := x]) == WorkersWork(segs, ws) - WorkerWork(segs, ws[w]) + WorkerWork(segs, x)
  {
    var us := ws[w := x];
    if w == 0 {
      assert us[1..] == ws[1..];
    } else {
      assert us[1..] == ws[1..][w - 1 := x];
      WorkersUpdate(segs, ws[1..], w - 1, x);
    }
  }

  lemma {:induction false} WorkersNonNegative(segs: seq<seq<Rec>>, hw: int, s: Scan, ws: seq<Worker>)
    requires forall w :: 0 <= w < |ws| ==> WorkerInv(segs, hw, s, ws[w])
    ensures WorkersWork(segs, ws) >= 0
  {
    if ws == [] {
    } else {
      assert WorkerInv(segs, hw, s, ws[0]);
      forall w | 0 <= w < |ws[1..]| ensures WorkerInv(segs, hw, s, ws[1..][w]) {
        assert WorkerInv(segs, hw, s, ws[w + 1]);
      }
      WorkersNonNegative(segs, hw, s, ws[1..]);
    }
  }

  lemma {:induction false} StepDecreases(segs: seq<seq<Rec>>, hw: int, s: Scan, move: Move)
    requires Inv(segs, hw, s) && Enabled(segs, s, move)
    ensures Remaining(segs, Next(segs, hw, s, move)) < Remaining(segs, s)
  {
    if move.Work? {
      var w := move.w;
      var t := Next(segs, hw, s, move);
      assert WorkerInv(segs, hw, s, s.workers[w]);
      WorkersUpdate(segs, s.workers, w, t.workers[w]);
      if s.workers[w].Idle? && s.taken < s.sent {
        assert segs[s.taken..][1..] == segs[t.taken..];
      }
    }
  }

  // ---------------------------------------------------------------- main results

  /** Every interleaving ends, after no more steps than this. */
  lemma {:induction false} ScanTerminates(segs: seq<seq<Rec>>, hw: int, run: seq<Scan>, moves: seq<Move>)
    requires Rising(segs) && IsRun(segs, hw, run, moves)
    ensures |moves| <= |segs| + SegWork(segs) + |run[0].workers|
  {
    RunBounded(segs, hw, run, moves, |moves|);
    IdleWork(segs, run[0].workers);
    assert segs[0..] == segs;
    RunKeepsInv(segs, hw, run, moves, |moves|);
    WorkersNonNegative(segs, hw, run[|moves|], run[|moves|].workers);
  }

  lemma {:induction false} RunBounded(segs: seq<seq<Rec>>, hw: int, run: seq<Scan>, moves: seq<Move>, n: nat)
    requires Rising(segs) && IsRun(segs, hw, run, moves) && n < |run|
    ensures Remaining(segs, run[n]) + n <= Remaining(segs, run[0])
  {
    if n == 0 {
    } else {
      RunBounded(segs, hw, run, moves, n - 1);
      RunKeepsInv(segs, hw, run, moves, n - 1);
      assert StepAt(segs, hw, run, moves, n - 1);
      StepDecreases(segs, hw, run[n - 1], moves[n - 1]);
    }
  }

  lemma {:induction false} IdleWork(segs: seq<seq<Rec>>, ws: seq<Worker>)
    requires forall w :: 0 <= w < |ws| ==> ws[w] == Idle
    ensures WorkersWork(segs, ws) == |ws|
  {
    if ws == [] {
    } else {
      IdleWork(segs, ws[1..]);
    }
  }

  /** Until all goroutines are done, one of them or the sender can go on. */
  lemma {:induction false} ScanNeverStuck(segs: seq<seq<Rec>>, hw: int, run: seq<Scan>, moves: seq<Move>, n: nat)
      returns (move: Move)
    requires Rising(segs) && IsRun(segs, hw, run, moves) && n < |run| && !Finished(run[n])
    ensures Enabled(segs, run[n], move)
  {
    RunKeepsInv(segs, hw, run, moves, n);
    var w :| 0 <= w < |run[n].workers| && run[n].workers[w] != Done;
    move := if run[n].sent < |segs| then Send else Work(w);
  }

  lemma {:induction false} FlatAt(segs: seq<seq<Rec>>, r: Rec)
    ensures r in Flat(segs) <==> exists s, i :: At(segs, s, i) && segs[s][i] == r
  {
    if segs == [] {
    } else {
      var n := |segs| - 1;
      FlatAt(segs[..n], r);
      if r in Flat(segs[..n]) {
        var s, i :| At(segs[..n], s, i) && segs[..n][s][i] == r;
        assert At(segs, s, i);
      } else if r in segs[n] {
        var i :| 0 <= i < |segs[n]| && segs[n][i] == r;
        assert At(segs, n, i);
      }
      if s, i :| At(segs, s, i) && segs[s][i] == r {
        if s < n {
          assert At(segs[..n], s, i) && segs[..n][s][i] == r;
        }
      }
    }
  }

  /** Whatever the number of goroutines and the interleaving, when all are done the map is that of one pass over the log
      in order: the greatest offset at or below `hw` of each key, and nothing else. */
  lemma {:induction false} ScanFindsLatest(segs: seq<seq<Rec>>, hw: int, run: seq<Scan>, moves: seq<Move>)
    requires Rising(segs) && IsRun(segs, hw, run, moves) && Finished(run[|run| - 1])
    ensures run[|run| - 1].offsets == Latest(Flat(segs), hw)
    ensures IsLatest(run[|run| - 1].offsets, Flat(segs), hw)
  {
    var s := run[|run| - 1];
    RunKeepsInv(segs, hw, run, moves, |run| - 1);
    forall k | k in s.offsets ensures exists r :: r in Flat(segs) && r.offset == s.offsets[k] <= hw && Slot(r) == k {
      var g, i :| At(segs, g, i) && segs[g][i].offset == s.offsets[k] <= hw && Slot(segs[g][i]) == k;
      FlatAt(segs, segs[g][i]);
    }
    forall r | r in Flat(segs) && r.offset <= hw ensures Slot(r) in s.offsets && r.offset <= s.offsets[Slot(r)] {
      FlatAt(segs, r);
      var g, i :| At(segs, g, i) && segs[g][i] == r;
      assert WorkerInv(segs, hw, s, s.workers[0]);
      assert Accounted(segs, hw, s, g, i);
    }
    LatestIsLatest(Flat(segs), hw);
    LatestIsUnique(s.offsets, Latest(Flat(segs), hw), Flat(segs), hw);
  }
}
