/** One producer, any number of (de)compression threads and one consumer around the queue, as a
    transition system whose steps are the queue's critical sections (src/thread_comp.c,
    src/thread_archio.c). The transform runs outside the lock, between a claim and a replace. */
module Pipeline {
  import opened Bytes
  import opened ArchiveItems
  import opened Queue
  import opened Sums

  type Transform = Block -> Option<Block>

  predicate InputOk(i: Input) {
    i.status == Done || (i.status == Todo && i.item.BlockItem?)
  }

  /** The item a consumer must see for an input: unclaimed blocks transformed once, the rest as is. */
  function Expected(t: Transform, i: Input): Item {
    if i.status == Todo && i.item.BlockItem? && t(i.item.block).Some?
    then BlockItem(t(i.item.block).value)
    else i.item
  }

  datatype Worker = Idle | Busy(num: int, block: Block) | Dead(num: int)

  /** What the consumer has made of an input: read it, or thrown it away. */
  datatype Removed = Delivered(item: Item) | Destroyed

  datatype Sys = Sys(queue: State, added: nat, workers: seq<Worker>, out: seq<Removed>)

  datatype Step = AddStep | EndStep | AbortStep | ClaimStep(w: nat) | FinishStep(w: nat) | TakeStep | DestroyStep

  function Init(blkMax: nat, workers: nat): Sys {
    Sys(State([], 1, blkMax, false), 0, seq(workers, _ => Idle), [])
  }

  predicate Enabled(script: seq<Input>, s: Sys, step: Step) {
    match step
    case AddStep => s.added < |script| && AddResult(s.queue) == Added
    case EndStep => s.added == |script| && !s.queue.ended
    case AbortStep => !s.queue.ended
    case ClaimStep(w) => w < |s.workers| && s.workers[w].Idle? && ClaimResult(s.queue).Taken?
    case FinishStep(w) => w < |s.workers| && s.workers[w].Busy?
    case TakeStep => DequeueFirstResult(s.queue).Taken?
    case DestroyStep => DestroyResult(s.queue).Taken?
  }

  /** A thread whose transform fails exits and leaves its block in progress. */
  function Perform(script: seq<Input>, t: Transform, s: Sys, step: Step): Sys
    requires Enabled(script, s, step)
  {
    match step
    case AddStep =>
      s.(queue := AfterAdd(s.queue, script[s.added].item, script[s.added].status), added := s.added + 1)
    case EndStep =>
      s.(queue := s.queue.(ended := true))
    case AbortStep =>
      s.(queue := s.queue.(ended := true))
    case ClaimStep(w) =>
      var r := ClaimResult(s.queue);
      s.(queue := AfterClaim(s.queue), workers := s.workers[w := Busy(r.num, r.value)])
    case FinishStep(w) =>
      var Busy(num, b) := s.workers[w];
      if t(b).Some?
      then s.(queue := AfterReplace(s.queue, num, t(b).value, Done), workers := s.workers[w := Idle])
      else s.(workers := s.workers[w := Dead(num)])
    case TakeStep =>
      var r := DequeueFirstResult(s.queue);
      s.(queue := AfterTake(s.queue, r), out := s.out + [Delivered(r.value)])
    case DestroyStep =>
      s.(queue := AfterTake(s.queue, DestroyResult(s.queue)), out := s.out + [Destroyed])
  }

  // ---- the invariant

  /** Input number k is still queued. */
  predicate InQueue(s: Sys, k: int) {
    |s.out| <= k < |s.out| + |s.queue.entries|
  }

  /** The entry that stands for input number k. */
  function At(s: Sys, k: int): Entry
    requires InQueue(s, k)
  {
    s.queue.entries[k - |s.out|]
  }

  /** The input needs no transform, or its transform succeeds. */
  predicate Passes(t: Transform, i: Input) {
    i.status == Todo && i.item.BlockItem? ==> t(i.item.block).Some?
  }

  /** Untouched until a worker has finished it, then as expected; numbered by its place in the input. */
  predicate EntryOk(t: Transform, input: Input, e: Entry, k: int) {
    && e.num == k + 1
    && (e.status == Done ==> e.item == Expected(t, input) && Passes(t, input))
    && (e.status != Done ==> e.item == input.item && input.status == Todo && e.item.BlockItem?)
  }

  ghost predicate EntriesOk(script: seq<Input>, t: Transform, s: Sys) {
    && |s.out| + |s.queue.entries| == s.added <= |script|
    && s.queue.nextNum == s.added + 1
    && forall k :: InQueue(s, k) ==> EntryOk(t, script[k], At(s, k), k)
  }

  predicate Holds(w: Worker, k: int) {
    !w.Idle? && w.num == k + 1
  }

  predicate HeldOk(e: Entry, w: Worker) {
    e.status == Progress && (w.Busy? ==> e.item == BlockItem(w.block))
  }

  predicate WorkerOk(s: Sys, w: Worker) {
    !w.Idle? ==> InQueue(s, w.num - 1) && HeldOk(At(s, w.num - 1), w)
  }

  predicate AllWorkersOk(s: Sys) {
    forall w :: 0 <= w < |s.workers| ==> WorkerOk(s, s.workers[w])
  }

  ghost predicate AllHeld(s: Sys) {
    forall k :: InQueue(s, k) && At(s, k).status == Progress ==>
      exists w :: 0 <= w < |s.workers| && Holds(s.workers[w], k)
  }

  predicate Distinct(ws: seq<Worker>) {
    forall v, w :: 0 <= v < |ws| && 0 <= w < |ws| && v != w && !ws[v].Idle? && !ws[w].Idle? ==> ws[v].num != ws[w].num
  }

  /** Entries in progress and non-idle threads are in bijection. */
  ghost predicate Bijection(s: Sys) {
    AllWorkersOk(s) && Distinct(s.workers) && AllHeld(s)
  }

  ghost predicate OutOk(script: seq<Input>, t: Transform, s: Sys)
    requires |s.out| <= |script|
  {
    forall i :: 0 <= i < |s.out| && s.out[i].Delivered? ==>
      s.out[i].item == Expected(t, script[i]) && Passes(t, script[i])
  }

  predicate Bounded(s: Sys) {
    NumBlocks(s.queue.entries) <= s.queue.blkMax + 1
  }

  ghost predicate Inv(script: seq<Input>, t: Transform, s: Sys) {
    EntriesOk(script, t, s) && Bijection(s) && OutOk(script, t, s) && Bounded(s)
  }

  lemma {:induction false} InitInv(script: seq<Input>, t: Transform, blkMax: nat, workers: nat)
    ensures Inv(script, t, Init(blkMax, workers))
  {
  }

  lemma {:induction false} BoundedStep(script: seq<Input>, t: Transform, s: Sys, step: Step)
    requires Enabled(script, s, step) && Bounded(s)
    ensures Bounded(Perform(script, t, s, step))
  {
    var es, es' := s.queue.entries, Perform(script, t, s, step).queue.entries;
    match step {
      case AddStep => NumBlocksAppend(es, es'[|es|]);
      case EndStep =>
      case AbortStep =>
      case ClaimStep(w) => SumUpdate(BlockWeight, es, FirstTodo(es), es'[FirstTodo(es)]);
      case FinishStep(w) =>
        var i := IndexOfNum(es, s.workers[w].num);
        if i < |es| && t(s.workers[w].block).Some? { SumUpdate(BlockWeight, es, i, es'[i]); }
      case _ => SumHead(BlockWeight, es);
    }
  }

  lemma {:induction false} AddInv(script: seq<Input>, t: Transform, s: Sys)
    requires EntriesOk(script, t, s) && Bijection(s)
    requires Enabled(script, s, AddStep) && InputOk(script[s.added])
    ensures EntriesOk(script, t, Perform(script, t, s, AddStep)) && Bijection(Perform(script, t, s, AddStep))
  {
    var s' := Perform(script, t, s, AddStep);
    assert forall k :: InQueue(s, k) ==> InQueue(s', k) && At(s', k) == At(s, k);
    assert forall k :: InQueue(s', k) ==> InQueue(s, k) || k == s.added;
  }

  /** The number a busy thread holds always leads back to exactly the block it claimed. */
  lemma {:induction false} ReplaceFindsClaimed(script: seq<Input>, t: Transform, s: Sys, w: nat)
    requires EntriesOk(script, t, s) && Bijection(s) && w < |s.workers| && s.workers[w].Busy?
    ensures InQueue(s, s.workers[w].num - 1)
    ensures IndexOfNum(s.queue.entries, s.workers[w].num) == s.workers[w].num - 1 - |s.out|
    ensures At(s, s.workers[w].num - 1) == Entry(BlockItem(s.workers[w].block), Progress, s.workers[w].num)
  {
    var k := s.workers[w].num - 1;
    assert WorkerOk(s, s.workers[w]);
    assert EntryOk(t, script[k], At(s, k), k);
    var i := IndexOfNum(s.queue.entries, s.workers[w].num);
    assert i < |s.queue.entries| ==> InQueue(s, |s.out| + i) && At(s, |s.out| + i) == s.queue.entries[i];
  }

  /** A worker's step: entry c becomes e and thread w becomes x. */
  function WorkerStep(s: Sys, c: int, e: Entry, w: nat, x: Worker): Sys
    requires InQueue(s, c) && w < |s.workers|
  {
    s.(queue := s.queue.(entries := s.queue.entries[c - |s.out| := e]), workers := s.workers[w := x])
  }

  lemma {:induction false} WorkerStepEntries(s: Sys, c: int, e: Entry, w: nat, x: Worker)
    requires InQueue(s, c) && w < |s.workers|
    ensures var s' := WorkerStep(s, c, e, w, x);
            && (forall k :: InQueue(s', k) <==> InQueue(s, k))
            && (forall k :: InQueue(s', k) ==> At(s', k) == if k == c then e else At(s, k))
  {
  }

  lemma {:induction false} WorkerStepEntriesOk(script: seq<Input>, t: Transform, s: Sys, c: int,
                                               e: Entry, w: nat, x: Worker)
    requires InQueue(s, c) && w < |s.workers| && EntriesOk(script, t, s) && EntryOk(t, script[c], e, c)
    ensures EntriesOk(script, t, WorkerStep(s, c, e, w, x))
  {
    WorkerStepEntries(s, c, e, w, x);
  }

  lemma {:induction false} WorkerStepHolders(s: Sys, c: int, e: Entry, w: nat, x: Worker)
    requires InQueue(s, c) && w < |s.workers|
    requires AllHeld(s)
    requires s.workers[w].Idle? || s.workers[w].num == c + 1
    requires e.status == Progress ==> Holds(x, c)
    ensures AllHeld(WorkerStep(s, c, e, w, x))
  {
    var s' := WorkerStep(s, c, e, w, x);
    WorkerStepEntries(s, c, e, w, x);
    forall k | InQueue(s', k) && At(s', k).status == Progress
      ensures exists v :: 0 <= v < |s'.workers| && Holds(s'.workers[v], k)
    {
      if k == c {
        assert Holds(s'.workers[w], k);
      } else {
        assert InQueue(s, k);
        var v :| 0 <= v < |s.workers| && Holds(s.workers[v], k);
        assert Holds(s'.workers[v], k);
      }
    }
  }

  lemma {:induction false} WorkerStepOk(s: Sys, c: int, e: Entry, w: nat, x: Worker)
    requires InQueue(s, c) && w < |s.workers| && AllWorkersOk(s) && Distinct(s.workers)
    requires if s.workers[w].Idle? then At(s, c).status != Progress else s.workers[w].num == c + 1
    requires !x.Idle? ==> x.num == c + 1 && HeldOk(e, x)
    ensures AllWorkersOk(WorkerStep(s, c, e, w, x)) && Distinct(WorkerStep(s, c, e, w, x).workers)
  {
    var s' := WorkerStep(s, c, e, w, x);
    WorkerStepEntries(s, c, e, w, x);
    forall v | 0 <= v < |s.workers| && v != w
      ensures WorkerOk(s', s.workers[v]) && (!s.workers[v].Idle? ==> s.workers[v].num != c + 1)
    {
      assert WorkerOk(s, s.workers[v]);
    }
  }

  lemma {:induction false} WorkerStepBijection(s: Sys, c: int, e: Entry, w: nat, x: Worker)
    requires InQueue(s, c) && w < |s.workers| && Bijection(s)
    requires if s.workers[w].Idle? then At(s, c).status != Progress else s.workers[w].num == c + 1
    requires !x.Idle? ==> x.num == c + 1 && HeldOk(e, x)
    requires e.status == Progress ==> Holds(x, c)
    ensures Bijection(WorkerStep(s, c, e, w, x))
  {
    WorkerStepHolders(s, c, e, w, x);
    WorkerStepOk(s, c, e, w, x);
  }

  lemma {:induction false} ClaimInv(script: seq<Input>, t: Transform, s: Sys, w: nat)
    requires EntriesOk(script, t, s) && Bijection(s) && Enabled(script, s, ClaimStep(w))
    ensures EntriesOk(script, t, Perform(script, t, s, ClaimStep(w))) && Bijection(Perform(script, t, s, ClaimStep(w)))
  {
    var c := |s.out| + FirstTodo(s.queue.entries);
    assert InQueue(s, c) && At(s, c) == s.queue.entries[FirstTodo(s.queue.entries)];
    assert EntryOk(t, script[c], At(s, c), c);
    var e, x := At(s, c).(status := Progress), Busy(c + 1, At(s, c).item.block);
    assert Perform(script, t, s, ClaimStep(w)) == WorkerStep(s, c, e, w, x);
    WorkerStepEntriesOk(script, t, s, c, e, w, x);
    WorkerStepBijection(s, c, e, w, x);
  }

  /** Finishing replaces exactly the claimed entry; a failing transform changes only the thread. */
  lemma {:induction false} FinishIsWorkerStep(script: seq<Input>, t: Transform, s: Sys, w: nat, c: int)
    returns (e: Entry, x: Worker)
    requires Enabled(script, s, FinishStep(w)) && c == s.workers[w].num - 1 && InQueue(s, c)
    requires IndexOfNum(s.queue.entries, c + 1) == c - |s.out|
    requires At(s, c) == Entry(BlockItem(s.workers[w].block), Progress, c + 1)
    ensures Perform(script, t, s, FinishStep(w)) == WorkerStep(s, c, e, w, x)
    ensures match t(s.workers[w].block)
            case Some(b) => e == Entry(BlockItem(b), Done, c + 1) && x == Idle
            case None => e == At(s, c) && x == Dead(c + 1)
  {
    match t(s.workers[w].block) {
      case Some(b) => e, x := Entry(BlockItem(b), Done, c + 1), Idle;
      case None =>
        e, x := At(s, c), Dead(c + 1);
        assert s.queue.entries[c - |s.out| := e] == s.queue.entries;
    }
  }

  lemma {:induction false} FinishInv(script: seq<Input>, t: Transform, s: Sys, w: nat)
    requires EntriesOk(script, t, s) && Bijection(s) && Enabled(script, s, FinishStep(w))
    ensures EntriesOk(script, t, Perform(script, t, s, FinishStep(w))) &&
            Bijection(Perform(script, t, s, FinishStep(w)))
  {
    ReplaceFindsClaimed(script, t, s, w);
    var c := s.workers[w].num - 1;
    var e, x := FinishIsWorkerStep(script, t, s, w, c);
    assert EntryOk(t, script[c], At(s, c), c);
    WorkerStepEntriesOk(script, t, s, c, e, w, x);
    WorkerStepBijection(s, c, e, w, x);
  }

  /** Dequeuing and destroying remove the same entry; only what is remembered of it differs. */
  lemma {:induction false} RemoveEntries(script: seq<Input>, t: Transform, s: Sys, step: Step)
    requires EntriesOk(script, t, s) && Enabled(script, s, step) && (step.TakeStep? || step.DestroyStep?)
    ensures var s' := Perform(script, t, s, step);
            && (forall k :: InQueue(s, k) <==> InQueue(s', k) || k == |s.out|)
            && (forall k :: InQueue(s', k) ==> At(s', k) == At(s, k))
            && EntriesOk(script, t, s')
  {
    var s' := Perform(script, t, s, step);
    assert forall k :: InQueue(s', k) ==> InQueue(s, k) && At(s', k) == At(s, k);
  }

  lemma {:induction false} RemoveHolders(script: seq<Input>, t: Transform, s: Sys, step: Step)
    requires EntriesOk(script, t, s) && Enabled(script, s, step) && (step.TakeStep? || step.DestroyStep?)
    requires AllHeld(s)
    ensures AllHeld(Perform(script, t, s, step))
  {
    var s' := Perform(script, t, s, step);
    RemoveEntries(script, t, s, step);
    forall k | InQueue(s', k) && At(s', k).status == Progress
      ensures exists v :: 0 <= v < |s'.workers| && Holds(s'.workers[v], k)
    {
      assert InQueue(s, k);
    }
  }

  lemma {:induction false} RemoveInv(script: seq<Input>, t: Transform, s: Sys, step: Step)
    requires Inv(script, t, s) && Enabled(script, s, step) && (step.TakeStep? || step.DestroyStep?)
    ensures Inv(script, t, Perform(script, t, s, step))
  {
    BoundedStep(script, t, s, step);
    RemoveEntries(script, t, s, step);
    RemoveHolders(script, t, s, step);
    var s', c := Perform(script, t, s, step), |s.out|;
    assert At(s, c) == s.queue.entries[0] && EntryOk(t, script[c], At(s, c), c);
    forall w | 0 <= w < |s.workers| ensures WorkerOk(s', s.workers[w]) {
      assert WorkerOk(s, s.workers[w]);
    }
  }

  lemma {:induction false} EndInv(script: seq<Input>, t: Transform, s: Sys, s': Sys)
    requires EntriesOk(script, t, s) && Bijection(s) && s' == s.(queue := s.queue.(ended := true))
    ensures EntriesOk(script, t, s') && Bijection(s')
  {
    assert forall k :: InQueue(s, k) <==> InQueue(s', k);
    assert forall k :: InQueue(s, k) ==> At(s', k) == At(s, k);
  }

  lemma {:induction false} StepInv(script: seq<Input>, t: Transform, s: Sys, step: Step)
    requires step.AddStep? && s.added < |script| ==> InputOk(script[s.added])
    requires Inv(script, t, s) && Enabled(script, s, step)
    ensures Inv(script, t, Perform(script, t, s, step))
  {
    BoundedStep(script, t, s, step);
    var s' := Perform(script, t, s, step);
    match step {
      case AddStep => AddInv(script, t, s);
      case EndStep => EndInv(script, t, s, s');
      case AbortStep => EndInv(script, t, s, s');
      case ClaimStep(w) => ClaimInv(script, t, s, w);
      case FinishStep(w) => FinishInv(script, t, s, w);
      case _ => RemoveInv(script, t, s, step);
    }
  }

  // ---- whole runs

  /** The state after a sequence of steps, if each is enabled where it is taken. */
  function RunTo(script: seq<Input>, t: Transform, s: Sys, steps: seq<Step>): Option<Sys> {
    if steps == [] then Some(s)
    else
      match RunTo(script, t, s, steps[..|steps| - 1])
      case None => None
      case Some(m) =>
        if Enabled(script, m, steps[|steps| - 1]) then Some(Perform(script, t, m, steps[|steps| - 1])) else None
  }

  predicate ScriptOk(script: seq<Input>) {
    forall i :: 0 <= i < |script| ==> InputOk(script[i])
  }

  lemma {:induction false} RunInv(script: seq<Input>, t: Transform, blkMax: nat, workers: nat, steps: seq<Step>)
    requires ScriptOk(script) && RunTo(script, t, Init(blkMax, workers), steps).Some?
    ensures Inv(script, t, RunTo(script, t, Init(blkMax, workers), steps).value)
    ensures var s := RunTo(script, t, Init(blkMax, workers), steps).value;
            |s.workers| == workers && s.queue.blkMax == blkMax
  {
    if steps == [] {
      InitInv(script, t, blkMax, workers);
    } else {
      var pre := steps[..|steps| - 1];
      RunInv(script, t, blkMax, workers, pre);
      StepInv(script, t, RunTo(script, t, Init(blkMax, workers), pre).value, steps[|steps| - 1]);
    }
  }

  function ExpectedAll(t: Transform, script: seq<Input>): (r: seq<Item>)
    ensures |r| == |script|
  {
    seq(|script|, i requires 0 <= i < |script| => Expected(t, script[i]))
  }

  /** Everything that has left the queue followed by everything in it, queued blocks taken as
      transformed. */
  function Stream(t: Transform, s: Sys): (r: seq<Option<Item>>)
    ensures |r| == |s.out| + |s.queue.entries|
  {
    seq(|s.out|, i requires 0 <= i < |s.out| =>
      if s.out[i].Delivered? then Some(s.out[i].item) else None) +
    seq(|s.queue.entries|, j requires 0 <= j < |s.queue.entries| =>
      var e := s.queue.entries[j];
      Some(Expected(t, Input(e.item, if e.status == Done then Done else Todo))))
  }

  lemma {:induction false} StreamAt(script: seq<Input>, t: Transform, s: Sys, k: nat)
    requires EntriesOk(script, t, s) && OutOk(script, t, s)
    requires k < s.added && !(k < |s.out| && s.out[k].Destroyed?)
    ensures Stream(t, s)[k] == Some(Expected(t, script[k]))
  {
    if k >= |s.out| {
      assert InQueue(s, k) && EntryOk(t, script[k], At(s, k), k);
    }
  }

  /** Every interleaving refines the sequential map: at any moment the stream is what was added so far,
      in order, each unclaimed block transformed exactly once and everything else untouched; an item
      is missing from it only where the consumer has thrown it away. */
  lemma {:induction false} Refinement(script: seq<Input>, t: Transform, blkMax: nat, workers: nat, steps: seq<Step>)
    requires ScriptOk(script) && RunTo(script, t, Init(blkMax, workers), steps).Some?
    ensures var s := RunTo(script, t, Init(blkMax, workers), steps).value;
            && |Stream(t, s)| == s.added <= |script|
            && NumBlocks(s.queue.entries) <= blkMax + 1
            && forall k :: 0 <= k < s.added && !(k < |s.out| && s.out[k].Destroyed?) ==>
                 Stream(t, s)[k] == Some(ExpectedAll(t, script)[k])
  {
    RunInv(script, t, blkMax, workers, steps);
    var s := RunTo(script, t, Init(blkMax, workers), steps).value;
    forall k | 0 <= k < s.added && !(k < |s.out| && s.out[k].Destroyed?)
      ensures Stream(t, s)[k] == Some(ExpectedAll(t, script)[k])
    {
      StreamAt(script, t, s, k);
    }
  }

  // ---- progress

  function EntryWeight(e: Entry): nat {
    if e.status == Todo then 3 else 1
  }

  function BusyWeight(w: Worker): nat {
    if w.Busy? then 1 else 0
  }

  /** Work left: inputs to add, entries to transform and remove, threads to finish. */
  function Measure(script: seq<Input>, s: Sys): nat {
    (if s.queue.ended || s.added > |script| then 0 else 1 + 4 * (|script| - s.added))
    + SumBy(EntryWeight, s.queue.entries) + SumBy(BusyWeight, s.workers)
  }

  lemma {:induction false} FinishDrains(script: seq<Input>, t: Transform, s: Sys, w: nat)
    requires Enabled(script, s, FinishStep(w))
    requires var i := IndexOfNum(s.queue.entries, s.workers[w].num);
             i < |s.queue.entries| && s.queue.entries[i].status == Progress
    ensures Measure(script, Perform(script, t, s, FinishStep(w))) < Measure(script, s)
  {
    var s' := Perform(script, t, s, FinishStep(w));
    var i := IndexOfNum(s.queue.entries, s.workers[w].num);
    SumUpdate(BusyWeight, s.workers, w, s'.workers[w]);
    if t(s.workers[w].block).Some? {
      SumUpdate(EntryWeight, s.queue.entries, i, s'.queue.entries[i]);
    }
  }

  lemma {:induction false} ClaimDrains(script: seq<Input>, t: Transform, s: Sys, w: nat)
    requires Enabled(script, s, ClaimStep(w))
    ensures Measure(script, Perform(script, t, s, ClaimStep(w))) < Measure(script, s)
  {
    var s' := Perform(script, t, s, ClaimStep(w));
    var es, i := s.queue.entries, FirstTodo(s.queue.entries);
    SumUpdate(EntryWeight, es, i, s'.queue.entries[i]);
    SumUpdate(BusyWeight, s.workers, w, s'.workers[w]);
  }

  lemma {:induction false} AddedBound(script: seq<Input>, t: Transform, s: Sys)
    requires EntriesOk(script, t, s)
    ensures s.added <= |script|
  {}

  lemma {:induction false} StepDrains(script: seq<Input>, t: Transform, s: Sys, step: Step)
    requires Inv(script, t, s) && Enabled(script, s, step)
    ensures Measure(script, Perform(script, t, s, step)) < Measure(script, s)
  {
    hide Measure, Perform, EntriesOk, Bijection, OutOk, Bounded;
    if step.AddStep? || step.EndStep? || step.AbortStep? {
      AddedBound(script, t, s);
      ProducerDrains(script, t, s, step);
    } else if step.ClaimStep? {
      ClaimDrains(script, t, s, step.w);
    } else if step.FinishStep? {
      ReplaceFindsClaimed(script, t, s, step.w);
      FinishDrains(script, t, s, step.w);
    } else {
      ConsumerDrains(script, t, s, step);
    }
  }

  lemma {:induction false} ProducerDrains(script: seq<Input>, t: Transform, s: Sys, step: Step)
    requires Enabled(script, s, step) && (step.AddStep? || step.EndStep? || step.AbortStep?) && s.added <= |script|
    ensures Measure(script, Perform(script, t, s, step)) < Measure(script, s)
  {
    if step.AddStep? {
      SumAppend(EntryWeight, s.queue.entries, Perform(script, t, s, step).queue.entries[|s.queue.entries|]);
    }
  }

  lemma {:induction false} ConsumerDrains(script: seq<Input>, t: Transform, s: Sys, step: Step)
    requires Enabled(script, s, step) && (step.TakeStep? || step.DestroyStep?)
    ensures Measure(script, Perform(script, t, s, step)) < Measure(script, s)
  {
    SumHead(EntryWeight, s.queue.entries);
  }

  /** No run is longer than the work there was at the start. */
  lemma {:induction false} RunsAreBounded(script: seq<Input>, t: Transform, blkMax: nat, workers: nat, steps: seq<Step>)
    requires ScriptOk(script) && RunTo(script, t, Init(blkMax, workers), steps).Some?
    ensures |steps| + Measure(script, RunTo(script, t, Init(blkMax, workers), steps).value) <= 4 * |script| + 1
  {
    if steps == [] {
      var s := Init(blkMax, workers);
      assert forall w :: w in s.workers ==> BusyWeight(w) <= 0;
      SumAtMost(BusyWeight, s.workers, 0);
    } else {
      var pre := steps[..|steps| - 1];
      RunsAreBounded(script, t, blkMax, workers, pre);
      RunInv(script, t, blkMax, workers, pre);
      StepDrains(script, t, RunTo(script, t, Init(blkMax, workers), pre).value, steps[|steps| - 1]);
    }
  }

  /** A producer that nobody answers fills the queue with one block more than its limit. */
  lemma {:induction false} FillsUp(script: seq<Input>, t: Transform, blkMax: nat, n: nat)
    requires n <= |script| && n <= blkMax + 1 && forall i :: 0 <= i < |script| ==> script[i].item.BlockItem?
    ensures var r := RunTo(script, t, Init(blkMax, 1), seq(n, _ => AddStep));
            && r.Some? && NumBlocks(r.value.queue.entries) == n && r.value.added == n && !r.value.queue.ended
            && r.value.queue.blkMax == blkMax
  {
    if n > 0 {
      FillsUp(script, t, blkMax, n - 1);
      var steps := seq(n, _ => AddStep);
      assert steps[..n - 1] == seq(n - 1, _ => AddStep);
      var s := RunTo(script, t, Init(blkMax, 1), steps[..n - 1]).value;
      var i := script[n - 1];
      NumBlocksAppend(s.queue.entries, Entry(i.item, i.status, s.queue.nextNum));
    }
  }

  predicate NeverFails(script: seq<Input>, t: Transform) {
    forall i :: 0 <= i < |script| ==> Passes(t, script[i])
  }

  predicate NoneDead(s: Sys) {
    forall w :: 0 <= w < |s.workers| ==> !s.workers[w].Dead?
  }

  lemma {:induction false} RunNoneDead(script: seq<Input>, t: Transform, blkMax: nat, workers: nat, steps: seq<Step>)
    requires ScriptOk(script) && NeverFails(script, t) && RunTo(script, t, Init(blkMax, workers), steps).Some?
    ensures NoneDead(RunTo(script, t, Init(blkMax, workers), steps).value)
  {
    if steps != [] {
      var pre, step := steps[..|steps| - 1], steps[|steps| - 1];
      RunNoneDead(script, t, blkMax, workers, pre);
      RunInv(script, t, blkMax, workers, pre);
      var s := RunTo(script, t, Init(blkMax, workers), pre).value;
      if step.FinishStep? {
        var k := s.workers[step.w].num - 1;
        assert WorkerOk(s, s.workers[step.w]) && EntryOk(t, script[k], At(s, k), k);
      }
    }
  }

  /** With a worker alive and a transform that never fails, some step of the ordinary loops of the
      three kinds of thread is enabled until the queue is empty and ended. */
  lemma {:induction false} NoDeadlock(script: seq<Input>, t: Transform, s: Sys) returns (step: Step)
    requires Inv(script, t, s) && NoneDead(s) && |s.workers| >= 1 && !AtEnd(s.queue)
    ensures Enabled(script, s, step) && !step.AbortStep? && !step.DestroyStep?
  {
    var es := s.queue.entries;
    if es == [] {
      step := if s.added < |script| then AddStep else EndStep;
    } else {
      assert InQueue(s, |s.out|) && At(s, |s.out|) == es[0];
      if es[0].status == Done {
        step := TakeStep;
      } else if es[0].status == Progress {
        var w :| 0 <= w < |s.workers| && Holds(s.workers[w], |s.out|);
        step := FinishStep(w);
      } else {
        assert EntryOk(t, script[|s.out|], es[0], |s.out|) && FirstTodo(es) == 0;
        step := if s.workers[0].Idle? then ClaimStep(0) else FinishStep(0);
      }
    }
  }

  /** No step of the ordinary loops of the three kinds of thread is enabled. */
  ghost predicate Stuck(script: seq<Input>, s: Sys) {
    forall step: Step :: !step.AbortStep? && !step.DestroyStep? ==> !Enabled(script, s, step)
  }

  /** When nothing more can happen, either the queue is empty and ended, or a thread is dead: then the
      consumer waits for the block that this thread holds, and nobody will ever finish it. */
  lemma {:induction false} StuckIff(script: seq<Input>, t: Transform, s: Sys)
    requires Inv(script, t, s) && |s.workers| >= 1 && Stuck(script, s)
    ensures AtEnd(s.queue) <==> NoneDead(s)
    ensures DequeueFirstResult(s.queue) == Wait <==> !NoneDead(s)
  {
    hide EntriesOk, OutOk, Bounded, AllHeld, Distinct, FirstTodo, NumBlocks;
    if NoneDead(s) {
      if !AtEnd(s.queue) {
        var step := NoDeadlock(script, t, s);
      }
    } else {
      var w :| 0 <= w < |s.workers| && s.workers[w].Dead?;
      assert WorkerOk(s, s.workers[w]);
      assert !Enabled(script, s, TakeStep);
    }
  }

  lemma {:induction false} OutKind(script: seq<Input>, t: Transform, s: Sys, steps: seq<Step>)
    requires RunTo(script, t, s, steps).Some? && s.out == [] && !s.queue.ended
    requires AbortStep !in steps && DestroyStep !in steps
    ensures var e := RunTo(script, t, s, steps).value;
            && (e.queue.ended ==> e.added == |script|)
            && forall i :: 0 <= i < |e.out| ==> e.out[i].Delivered?
  {
    if steps != [] {
      OutKind(script, t, s, steps[..|steps| - 1]);
    }
  }

  /** A run without interruption that can go no further has delivered the whole input, in order. */
  lemma {:induction false} CompleteRun(script: seq<Input>, t: Transform, blkMax: nat, workers: nat, steps: seq<Step>)
    requires ScriptOk(script) && NeverFails(script, t) && workers >= 1
    requires RunTo(script, t, Init(blkMax, workers), steps).Some?
    requires AbortStep !in steps && DestroyStep !in steps
    requires Stuck(script, RunTo(script, t, Init(blkMax, workers), steps).value)
    ensures RunTo(script, t, Init(blkMax, workers), steps).value.out ==
            seq(|script|, i requires 0 <= i < |script| => Delivered(ExpectedAll(t, script)[i]))
  {
    var s := RunTo(script, t, Init(blkMax, workers), steps).value;
    RunInv(script, t, blkMax, workers, steps);
    RunNoneDead(script, t, blkMax, workers, steps);
    OutKind(script, t, Init(blkMax, workers), steps);
    if !AtEnd(s.queue) {
      var step := NoDeadlock(script, t, s);
    }
    assert |s.out| == |script|;
    forall i | 0 <= i < |script| ensures s.out[i] == Delivered(ExpectedAll(t, script)[i]) {
      assert s.out[i].Delivered?;
    }
  }

  /** Such a run has delivered the input if and only if no transform fails; otherwise it ends with a dead
      thread and a consumer that waits for ever. */
  lemma {:induction false} CompleteRunIff(script: seq<Input>, t: Transform, blkMax: nat, workers: nat, steps: seq<Step>)
    requires ScriptOk(script) && workers >= 1
    requires RunTo(script, t, Init(blkMax, workers), steps).Some?
    requires AbortStep !in steps && DestroyStep !in steps
    requires Stuck(script, RunTo(script, t, Init(blkMax, workers), steps).value)
    ensures var s := RunTo(script, t, Init(blkMax, workers), steps).value;
            && (s.out == seq(|script|, i requires 0 <= i < |script| => Delivered(ExpectedAll(t, script)[i]))
                <==> NeverFails(script, t))
            && (NoneDead(s) <==> NeverFails(script, t))
            && (DequeueFirstResult(s.queue) == Wait <==> !NeverFails(script, t))
  {
    var s := RunTo(script, t, Init(blkMax, workers), steps).value;
    RunInv(script, t, blkMax, workers, steps);
    StuckIff(script, t, s);
    OutKind(script, t, Init(blkMax, workers), steps);
    if NeverFails(script, t) {
      CompleteRun(script, t, blkMax, workers, steps);
      RunNoneDead(script, t, blkMax, workers, steps);
    }
    if NoneDead(s) || |s.out| == |script| {
      forall i | 0 <= i < |script| ensures Passes(t, script[i]) {
        assert s.out[i].Delivered?;
      }
    }
  }
}
