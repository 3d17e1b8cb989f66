/** From a tree through the compressing threads, the volumes, their damage, and the decompressing
    threads back to a tree. */
module EndToEnd {
  import opened Bytes
  import opened ArchiveItems
  import opened Dico
  import opened Records
  import opened ObjCodec
  import opened BlockTransform
  import Pipeline
  import Queue
  import Fletcher
  import Format
  import Reader
  import VolumeChain
  import ArchWriter
  import Archive
  import opened Arrived

  type Select = u16 -> bool

  // ---- what the saving thread queues

  predicate RecsOk(recs: seq<Rec>) {
    forall i :: 0 <= i < |recs| ==> RecOk(recs[i])
  }

  predicate HeadersOk(prefix: seq<Header>) {
    forall i :: 0 <= i < |prefix| ==> VolumeChain.ItemOk(HeaderItem(prefix[i]))
  }

  /** Blocks wait for a compressing thread, headers are ready at once. */
  function Queued(item: Item): Input {
    Input(item, if item.BlockItem? then Todo else Done)
  }

  /** The main header and its companions, then the records of one filesystem. */
  function Script(prefix: seq<Header>, recs: seq<Rec>): (script: seq<Input>)
    requires RecsOk(recs)
    ensures |script| == |prefix| + |recs|
  {
    seq(|prefix| + |recs|, i requires 0 <= i < |prefix| + |recs| =>
      if i < |prefix| then Input(HeaderItem(prefix[i]), Done) else Queued(EncRec(recs[i - |prefix|])))
  }

  function Compress(c: Codec, o: Options): Pipeline.Transform {
    b => Compressed(c, o, b)
  }

  function Decompress(c: Codec, o: Options): Pipeline.Transform {
    b => Decompressed(c, o, b)
  }

  /** What leaves the queue for the writing thread. */
  function Written(c: Codec, o: Options, prefix: seq<Header>, recs: seq<Rec>): (items: seq<Item>)
    requires RecsOk(recs)
    ensures |items| == |prefix| + |recs|
  {
    Pipeline.ExpectedAll(Compress(c, o), Script(prefix, recs))
  }

  predicate Encodable(c: Codec, o: Options, prefix: seq<Header>, recs: seq<Rec>) {
    RecsOk(recs) && HeadersOk(prefix) && Pipeline.NeverFails(Script(prefix, recs), Compress(c, o))
  }

  lemma {:induction false} WrittenAt(c: Codec, o: Options, prefix: seq<Header>, recs: seq<Rec>, i: nat)
    requires CodecOk(c) && Encodable(c, o, prefix, recs) && i < |prefix| + |recs|
    ensures var w := Written(c, o, prefix, recs)[i];
            && VolumeChain.ItemOk(w)
            && (i < |prefix| ==> w == HeaderItem(prefix[i]))
            && (i >= |prefix| ==>
                  var item := EncRec(recs[i - |prefix|]);
                  if item.HeaderItem? then w == item
                  else Compressed(c, o, item.block).Some? && w == BlockItem(Compressed(c, o, item.block).value))
  {
    hide Compressed, EncHead, CodecOk, Format.BlockOk, Format.Printable, HeadOk;
    if i >= |prefix| {
      var rec := recs[i - |prefix|];
      assert RecOk(rec);
      assert Script(prefix, recs)[i] == Queued(EncRec(rec));
      RecItemOk(rec);
      if rec.Blk? {
        CompressedOk(c, o, EncRec(rec).block);
      }
    }
  }

  lemma {:induction false} RecItemOk(rec: Rec)
    requires RecOk(rec)
    ensures EncRec(rec).HeaderItem? ==> VolumeChain.ItemOk(EncRec(rec))
  {
    hide EncHead;
    match rec
    case FileFoot(md5, _) => FootPrintable(md5);
    case _ =>
  }

  lemma {:induction false} FootPrintable(md5: bytes)
    requires |md5| <= 16
    ensures Format.Printable(FootDico(md5))
  {
    var d := FootDico(md5);
    assert Format.EncItems(d[1..]) == [];
  }

  lemma {:induction false} WrittenOk(c: Codec, o: Options, prefix: seq<Header>, recs: seq<Rec>)
    requires CodecOk(c) && Encodable(c, o, prefix, recs)
    ensures ArchWriter.AllOk(Written(c, o, prefix, recs))
  {
    hide CodecOk, Encodable, Written, Compressed;
    EncodableRecs(c, o, prefix, recs);
    var w := Written(c, o, prefix, recs);
    forall i | 0 <= i < |w| ensures VolumeChain.ItemOk(w[i]) {
      WrittenAt(c, o, prefix, recs, i);
    }
  }

  // ---- what the reading thread queues

  /** A block whose data were altered is queued as zeros, and as done. */
  function ReadInput(item: Item, bad: bool): Input {
    match item
    case HeaderItem(_) => Input(item, Done)
    case BlockItem(b) =>
      if bad then Input(BlockItem(b.(fsid := 0, data := Zeros(b.realSize))), Done)
      else Input(BlockItem(b.(fsid := 0)), Todo)
  }

  /** The items that arrive, numbered from start on. */
  function ReadInputs(items: seq<Item>, start: nat, m: Marks): (inputs: seq<Input>)
    ensures |inputs| == |Arriving(start, |items|, m.gone)|
  {
    var at := Arriving(start, |items|, m.gone);
    seq(|at|, k requires 0 <= k < |at| => ReadInput(items[at[k] - start], at[k] in m.bad))
  }

  /** The global headers, and everything of the filesystems that are asked for. */
  predicate IsWanted(sel: Select, item: Item) {
    (item.HeaderItem? && FsidOf(item) == Format.FILESYSID_NULL) || sel(FsidOf(item))
  }

  function FsidOf(item: Item): u16 {
    match item case HeaderItem(h) => h.fsid case BlockItem(b) => b.fsid
  }

  /** Which items arrive as zeros, and which do not arrive. */
  function MarksOf(sel: Select, items: seq<Item>, damage: Archive.Damage): Marks {
    Marks(Archive.Spoilt(damage),
          set i | 0 <= i < |items| && (i in Archive.Gone(damage) || !IsWanted(sel, items[i])))
  }

  /** Altered filesystem ids are of filesystems that are not asked for. */
  predicate MovedAway(sel: Select, damage: Archive.Damage) {
    forall i :: i in damage && damage[i].Moved? ==> damage[i].fsid != Format.FILESYSID_NULL && !sel(damage[i].fsid)
  }

  lemma {:induction false} InputsStep(items: seq<Item>, start: nat, m: Marks)
    requires items != []
    ensures ReadInputs(items, start, m) ==
            (if start in m.gone then [] else [ReadInput(items[0], start in m.bad)]) +
              ReadInputs(items[1..], start + 1, m)
  {
    hide ReadInput;
  }

  /** What is read from item number n on. */
  lemma {:induction false} YieldIsInputs(sel: Select, items: seq<Item>, n: nat, damage: Archive.Damage)
    requires n <= |items| && MovedAway(sel, damage)
    ensures var r := VolumeChain.YieldAll(sel, Archive.SegsFrom(items[n..], n, damage));
            r.complete && r.inputs == ReadInputs(items[n..], n, MarksOf(sel, items, damage))
    decreases |items| - n
  {
    hide VolumeChain.Yield, ReadInputs, Archive.SegOf, MarksOf, MovedAway;
    var rest := items[n..];
    if n == |items| {
      NoInputs(n, MarksOf(sel, items, damage));
    } else {
      YieldIsInputs(sel, items, n + 1, damage);
      assert rest[1..] == items[n + 1..];
      var segs := Archive.SegsFrom(rest, n, damage);
      assert segs[1..] == Archive.SegsFrom(rest[1..], n + 1, damage) && segs[0] == Archive.SegOf(items[n], n, damage);
      InputsStep(rest, n, MarksOf(sel, items, damage));
      YieldOne(sel, items, n, damage);
    }
  }

  lemma {:induction false} NoInputs(start: nat, m: Marks)
    ensures ReadInputs([], start, m) == []
  {}

  lemma {:induction false} YieldOne(sel: Select, items: seq<Item>, i: nat, damage: Archive.Damage)
    requires i < |items| && MovedAway(sel, damage)
    ensures var m := MarksOf(sel, items, damage);
            VolumeChain.Yield(sel, Archive.SegOf(items[i], i, damage)).inputs ==
            if i in m.gone then [] else [ReadInput(items[i], i in m.bad)]
  {
    hide VolumeChain.Foreign;
  }

  // ---- what the restoring thread gets

  /** Decompressing gives back the data of every block that arrived. */
  lemma {:induction false} Delivered(c: Codec, o: Options, r: Options, b: Block)
    requires CodecOk(c) && Clear(b) && Compressed(c, o, b).Some? && (o.encrypting ==> r.encrypting)
    ensures var p := Compressed(c, o, b).value.(fsid := 0);
            && Decompressed(c, r, p) == Some(p.(data := b.data))
            && p.offset == b.offset && p.realSize == b.realSize
  {
    hide CodecOk;
    var b0 := b.(fsid := 0);
    BlindCompressed(c, o, b);
    TransformInverse(c, o, r, b0);
    assert Compressed(c, o, b0) == Some(Compressed(c, o, b).value.(fsid := 0));
    Unchanged(c, o, b);
  }

  lemma {:induction false} BlindCompressed(c: Codec, o: Options, b: Block)
    requires Compressed(c, o, b).Some?
    ensures Compressed(c, o, b.(fsid := 0)) == Some(Compressed(c, o, b).value.(fsid := 0))
  {}

  lemma {:induction false} Unchanged(c: Codec, o: Options, b: Block)
    requires Compressed(c, o, b).Some?
    ensures Compressed(c, o, b).value.offset == b.offset && Compressed(c, o, b).value.realSize == b.realSize
  {}

  /** Record number i as it arrives. */
  lemma {:induction false} RecDelivered(c: Codec, o: Options, r: Options, prefix: seq<Header>,
                                        recs: seq<Rec>, bad: bool, i: nat)
    requires CodecOk(c) && Encodable(c, o, prefix, recs) && (o.encrypting ==> r.encrypting) &&
             |prefix| <= i < |prefix| + |recs|
    ensures var input := ReadInput(Written(c, o, prefix, recs)[i], bad);
            && (input.item.BlockItem? && input.status == Todo ==> Decompressed(c, r, input.item.block).Some?)
            && DecRec(Pipeline.Expected(Decompress(c, r), input)) ==
               Some(Blind(ZeroRec(recs[i - |prefix|], bad)))
  {
    hide Compressed, Decompressed, CodecOk, HeadOk, EncHead, DecHead, Written, Encodable, VolumeChain.ItemOk;
    EncodableRecs(c, o, prefix, recs);
    var rec := recs[i - |prefix|];
    WrittenAt(c, o, prefix, recs, i);
    RecRoundTrip(rec);
    if rec.Blk? {
      var b := EncRec(rec).block;
      Delivered(c, o, r, b);
      Unchanged(c, o, b);
    }
  }

  lemma {:induction false} EncodableRecs(c: Codec, o: Options, prefix: seq<Header>, recs: seq<Rec>)
    requires Encodable(c, o, prefix, recs)
    ensures RecsOk(recs) && forall i :: 0 <= i < |recs| ==> RecOk(recs[i])
  {}

  /** The records behind the first n items, if all of them can be read. */
  function DecRecs(items: seq<Item>, n: nat): Option<seq<Rec>>
    requires n <= |items|
    decreases |items| - n
  {
    if n == |items| then Some([])
    else
      match DecRec(items[n])
      case None => None
      case Some(rec) =>
        match DecRecs(items, n + 1)
        case None => None
        case Some(rest) => Some([rec] + rest)
  }

  lemma {:induction false} DecRecsAt(items: seq<Item>, n: nat, recs: seq<Rec>)
    requires n + |recs| == |items| && forall i :: n <= i < |items| ==> DecRec(items[i]) == Some(recs[i - n])
    ensures DecRecs(items, n) == Some(recs)
    decreases |recs|
  {
    hide DecRec;
    if recs != [] {
      DecRecsAt(items, n + 1, recs[1..]);
      assert [recs[0]] + recs[1..] == recs;
    }
  }

  /** No decompressing thread fails on what has been read. */
  lemma {:induction false} InputsOk(c: Codec, o: Options, r: Options, prefix: seq<Header>, recs: seq<Rec>, m: Marks)
    requires CodecOk(c) && Encodable(c, o, prefix, recs) && (o.encrypting ==> r.encrypting)
    ensures var inputs := ReadInputs(Written(c, o, prefix, recs), 0, m);
            Pipeline.ScriptOk(inputs) && Pipeline.NeverFails(inputs, Decompress(c, r))
  {
    hide CodecOk, Encodable, Written, DecRec, Compressed, Decompressed, Pipeline.Expected, Blind, ZeroRec;
    hide VolumeChain.ItemOk;
    EncodableRecs(c, o, prefix, recs);
    var written := Written(c, o, prefix, recs);
    var inputs, at := ReadInputs(written, 0, m), Arriving(0, |written|, m.gone);
    forall k | 0 <= k < |inputs|
      ensures Pipeline.InputOk(inputs[k])
      ensures inputs[k].status == Todo && inputs[k].item.BlockItem? ==> Decompressed(c, r, inputs[k].item.block).Some?
    {
      assert inputs[k] == ReadInput(written[at[k]], at[k] in m.bad);
      if at[k] < |prefix| {
        WrittenAt(c, o, prefix, recs, at[k]);
      } else {
        RecDelivered(c, o, r, prefix, recs, at[k] in m.bad, at[k]);
      }
    }
  }

  /** The headers in front arrive, and behind them what is left of the records. */
  lemma {:induction false} PrefixArrives(p: nat, n: nat, gone: set<nat>)
    requires forall i :: i in gone ==> p <= i
    ensures var at, behind := Arriving(0, p + n, gone), Arriving(p, n, gone);
            && |at| == p + |behind|
            && (forall k :: 0 <= k < p ==> at[k] == k)
            && (forall k :: 0 <= k < |behind| ==> at[p + k] == behind[k])
  {
    ArrivingConcat(0, p, n, gone);
    AllArrive(0, p, gone);
  }

  /** Item number i of those that arrive. */
  lemma {:induction false} ArrivesAt(c: Codec, o: Options, r: Options, prefix: seq<Header>, recs: seq<Rec>,
                                     m: Marks, i: nat)
    requires CodecOk(c) && Encodable(c, o, prefix, recs) && (o.encrypting ==> r.encrypting)
    requires forall k :: k in m.gone ==> |prefix| <= k
    ensures var inputs, arrived := ReadInputs(Written(c, o, prefix, recs), 0, m), ArrivedRecs(recs, |prefix|, m);
            && |inputs| == |prefix| + |arrived|
            && (|prefix| <= i < |inputs| ==>
                  DecRec(Pipeline.Expected(Decompress(c, r), inputs[i])) == Some(Blind(arrived[i - |prefix|])))
  {
    hide CodecOk, Encodable, Written, DecRec, Pipeline.Expected, Blind, ZeroRec, ReadInput, RecsOk;
    EncodableRecs(c, o, prefix, recs);
    var written, behind := Written(c, o, prefix, recs), Arriving(|prefix|, |recs|, m.gone);
    var inputs, arrived := ReadInputs(written, 0, m), ArrivedRecs(recs, |prefix|, m);
    PrefixArrives(|prefix|, |recs|, m.gone);
    if |prefix| <= i < |inputs| {
      var at := behind[i - |prefix|];
      assert inputs[i] == ReadInput(written[at], at in m.bad);
      assert arrived[i - |prefix|] == ZeroRec(recs[at - |prefix|], at in m.bad);
      RecDelivered(c, o, r, prefix, recs, at in m.bad, at);
    }
  }

  /** Everything that arrives arrives in order, and only the blocks that were altered are zeros. */
  lemma {:induction false} StreamDelivered(c: Codec, o: Options, r: Options, prefix: seq<Header>,
                                           recs: seq<Rec>, m: Marks)
    requires CodecOk(c) && Encodable(c, o, prefix, recs) && (o.encrypting ==> r.encrypting)
    requires forall i :: i in m.gone ==> |prefix| <= i
    ensures var inputs := ReadInputs(Written(c, o, prefix, recs), 0, m);
            && Pipeline.ScriptOk(inputs) && Pipeline.NeverFails(inputs, Decompress(c, r)) && |prefix| <= |inputs|
            && DecRecs(Pipeline.ExpectedAll(Decompress(c, r), inputs), |prefix|) ==
               Some(BlindAll(ArrivedRecs(recs, |prefix|, m)))
  {
    hide CodecOk, Encodable, Written, DecRec, Pipeline.Expected, Blind, ReadInputs, ArrivedRecs;
    hide Pipeline.NeverFails, Pipeline.ScriptOk;
    EncodableRecs(c, o, prefix, recs);
    var inputs := ReadInputs(Written(c, o, prefix, recs), 0, m);
    var items, out := Pipeline.ExpectedAll(Decompress(c, r), inputs), BlindAll(ArrivedRecs(recs, |prefix|, m));
    ArrivesAt(c, o, r, prefix, recs, m, 0);
    forall i | |prefix| <= i < |items| ensures DecRec(items[i]) == Some(out[i - |prefix|]) {
      ArrivesAt(c, o, r, prefix, recs, m, i);
    }
    DecRecsAt(items, |prefix|, out);
    InputsOk(c, o, r, prefix, recs, m);
  }

  // ---- taking records out of the queue

  /** The queue holds these records, all of them done. */
  predicate Readable(entries: seq<Queue.Entry>, recs: seq<Rec>) {
    |entries| == |recs| &&
    forall i :: 0 <= i < |entries| ==> entries[i].status == Done && DecRec(entries[i].item) == Some(recs[i])
  }

  /** The two dequeue operations of the queue take the next record if it is of their kind, and leave it there
      otherwise: that is how restoring takes blocks and headers. */
  lemma {:induction false} DequeuesAgree(s: Queue.State, recs: seq<Rec>)
    requires Readable(s.entries, recs)
    ensures var r, after := Queue.DequeueBlockResult(s), Queue.AfterTake(s, Queue.DequeueBlockResult(s));
            if recs != [] && recs[0].Blk?
            then r.Taken? && DecRec(BlockItem(r.value)) == Some(recs[0]) && Readable(after.entries, recs[1..])
            else !r.Taken? && after == s
    ensures var r, after := Queue.DequeueHeaderResult(s), Queue.AfterTake(s, Queue.DequeueHeaderResult(s));
            if recs != [] && !recs[0].Blk?
            then r.Taken? && DecRec(HeaderItem(r.value)) == Some(recs[0]) && Readable(after.entries, recs[1..])
            else !r.Taken? && after == s
  {
    hide DecHead, GetData;
  }

  // ---- complete runs of the threads

  /** A run of one producer, some workers and one consumer, none of them interrupted, until nothing more
      can happen. */
  ghost predicate RanToEnd(script: seq<Input>, t: Pipeline.Transform, run: Schedule) {
    && run.workers >= 1 && Pipeline.RunTo(script, t, Pipeline.Init(run.blkMax, run.workers), run.steps).Some?
    && Pipeline.AbortStep !in run.steps && Pipeline.DestroyStep !in run.steps
    && Pipeline.Stuck(script, Pipeline.RunTo(script, t, Pipeline.Init(run.blkMax, run.workers), run.steps).value)
  }

  datatype Schedule = Schedule(blkMax: nat, workers: nat, steps: seq<Pipeline.Step>)

  /** What the consumer has taken, in order. */
  function Taken(script: seq<Input>, t: Pipeline.Transform, run: Schedule): seq<Item>
    requires Pipeline.RunTo(script, t, Pipeline.Init(run.blkMax, run.workers), run.steps).Some?
  {
    ItemsOf(Pipeline.RunTo(script, t, Pipeline.Init(run.blkMax, run.workers), run.steps).value.out)
  }

  function ItemsOf(out: seq<Pipeline.Removed>): seq<Item> {
    if out == [] then []
    else ItemsOf(out[..|out| - 1]) + if out[|out| - 1].Delivered? then [out[|out| - 1].item] else []
  }

  lemma {:induction false} ItemsOfDelivered(items: seq<Item>)
    ensures ItemsOf(seq(|items|, i requires 0 <= i < |items| => Pipeline.Delivered(items[i]))) == items
  {
    if items != [] {
      var n := |items| - 1;
      ItemsOfDelivered(items[..n]);
      var out := seq(|items|, i requires 0 <= i < |items| => Pipeline.Delivered(items[i]));
      assert out[..n] == seq(n, i requires 0 <= i < n => Pipeline.Delivered(items[..n][i]));
    }
  }

  lemma {:induction false} TakenIsExpected(script: seq<Input>, t: Pipeline.Transform, run: Schedule)
    requires Pipeline.ScriptOk(script) && Pipeline.NeverFails(script, t) && RanToEnd(script, t, run)
    ensures Taken(script, t, run) == Pipeline.ExpectedAll(t, script)
  {
    hide Pipeline.RunTo, Pipeline.Enabled, Pipeline.ScriptOk, Pipeline.NeverFails, ItemsOf, Pipeline.ExpectedAll;
    Pipeline.CompleteRun(script, t, run.blkMax, run.workers, run.steps);
    ItemsOfDelivered(Pipeline.ExpectedAll(t, script));
  }

  /** Any block that no thread can transform makes every complete run end with a consumer that waits. */
  lemma {:induction false} FailureHangs(script: seq<Input>, t: Pipeline.Transform, run: Schedule, i: nat)
    requires Pipeline.ScriptOk(script) && i < |script| && !Pipeline.Passes(t, script[i]) && RanToEnd(script, t, run)
    ensures var s := Pipeline.RunTo(script, t, Pipeline.Init(run.blkMax, run.workers), run.steps).value;
            Queue.DequeueFirstResult(s.queue) == Queue.Wait
  {
    hide Pipeline.RunTo, Pipeline.Stuck, Pipeline.Passes, Pipeline.ScriptOk, Pipeline.ExpectedAll;
    Pipeline.CompleteRunIff(script, t, run.blkMax, run.workers, run.steps);
  }

  /** One stored byte, compressed with algorithm number `algo` by another build. */
  function StoredBlock(algo: u16): (b: Block)
    ensures Format.BlockOk(b)
  {
    Block([7], 1, 0, Fletcher.Checksum([7]), 1, algo, 1, ENCRYPT_NONE, 0)
  }

  /** It happens: such a block is read from an archive without error, and then restoring waits for ever. */
  lemma {:induction false} MissingAlgorithmHangs(c: Codec, o: Options, algo: u16, blkMax: nat, workers: nat)
    returns (run: Schedule)
    requires algo != COMPRESS_NONE && !c.supported(algo) && workers >= 1
    ensures var script, t := [Input(BlockItem(StoredBlock(algo)), Todo)], Decompress(c, o);
            && Decompressed(c, o, StoredBlock(algo)) == None && RanToEnd(script, t, run)
            && run.workers == workers && run.blkMax == blkMax
            && var s := Pipeline.RunTo(script, t, Pipeline.Init(blkMax, workers), run.steps).value;
               Queue.DequeueFirstResult(s.queue) == Queue.Wait
  {
    hide Decompressed, RanToEnd;
    UnknownAlgorithm(c, o, StoredBlock(algo));
    var script, t := [Input(BlockItem(StoredBlock(algo)), Todo)], Decompress(c, o);
    run := RunCanEnd(script, t, Schedule(blkMax, workers, []));
    FailureHangs(script, t, run, 0);
  }

  lemma {:induction false} RunOneMore(script: seq<Input>, t: Pipeline.Transform, s: Pipeline.Sys,
                                      steps: seq<Pipeline.Step>, step: Pipeline.Step)
    requires Pipeline.RunTo(script, t, s, steps).Some? &&
             Pipeline.Enabled(script, Pipeline.RunTo(script, t, s, steps).value, step)
    ensures Pipeline.RunTo(script, t, s, steps + [step]) ==
            Some(Pipeline.Perform(script, t, Pipeline.RunTo(script, t, s, steps).value, step))
  {
    assert (steps + [step])[..|steps|] == steps;
  }

  /** Every run can be carried on until nothing more can happen: runs to the end exist. */
  lemma {:induction false} RunCanEnd(script: seq<Input>, t: Pipeline.Transform, run: Schedule) returns (end: Schedule)
    requires Pipeline.ScriptOk(script) && run.workers >= 1
    requires Pipeline.RunTo(script, t, Pipeline.Init(run.blkMax, run.workers), run.steps).Some?
    requires Pipeline.AbortStep !in run.steps && Pipeline.DestroyStep !in run.steps
    ensures RanToEnd(script, t, end) && run.steps <= end.steps && end.workers == run.workers && end.blkMax == run.blkMax
    decreases Pipeline.Measure(script,
                               Pipeline.RunTo(script, t, Pipeline.Init(run.blkMax, run.workers), run.steps).value)
  {
    hide Pipeline.RunTo, Pipeline.Enabled, Pipeline.Perform, Pipeline.Measure, Pipeline.Inv, Pipeline.ScriptOk;
    var init := Pipeline.Init(run.blkMax, run.workers);
    var s := Pipeline.RunTo(script, t, init, run.steps).value;
    if step: Pipeline.Step :| !step.AbortStep? && !step.DestroyStep? && Pipeline.Enabled(script, s, step) {
      Pipeline.RunInv(script, t, run.blkMax, run.workers, run.steps);
      RunOneMore(script, t, init, run.steps, step);
      Pipeline.StepDrains(script, t, s, step);
      end := RunCanEnd(script, t, run.(steps := run.steps + [step]));
    } else {
      end := run;
    }
  }
}
