/** The data queues and the work buffer of an audio effect, as values.

    Sizes are in samples (floats).  A queue is dropped when the common parameters change and made
    anew when the client reopens the effect; the work buffer is resized at the same time. */
module EffectBuffers {
  import opened Basics

  /** A bounded FIFO of samples. */
  datatype Queue = Queue(capacity: nat, samples: seq<real>) {
    ghost predicate Valid() {
      |samples| <= capacity
    }

    function AvailableToRead(): nat {
      |samples|
    }

    function AvailableToWrite(): int {
      capacity - |samples|
    }
  }

  /** The fields of Parameter::Common that matter here, for input and output. */
  datatype Common = Common(
    isFloat: bool,
    inputFrames: nat, inputFrameSize: nat, inputChannels: nat,
    outputFrames: nat, outputFrameSize: nat, outputChannels: nat)

  datatype Context = Context(
    reopenSupported: bool,
    inputFrameSize: nat,
    outputFrameSize: nat,
    inputFrames: nat,        // mCommon.input.frameCount
    outputFrames: nat,       // mCommon.output.frameCount
    input: Option<Queue>,
    output: Option<Queue>,
    work: nat)
  {
    function InputSize(): nat {
      inputFrames * inputFrameSize / 4
    }

    function OutputSize(): nat {
      outputFrames * outputFrameSize / 4
    }
  }

  function Max(a: nat, b: nat): nat {
    if a < b then b else a
  }

  function Open(c: Common, reopenSupported: bool): Context {
    var inSize, outSize := c.inputFrames * c.inputFrameSize / 4, c.outputFrames * c.outputFrameSize / 4;
    Context(reopenSupported, c.inputFrameSize, c.outputFrameSize, c.inputFrames, c.outputFrames,
            Some(Queue(inSize, [])), Some(Queue(outSize, [])), Max(inSize, outSize))
  }

  /** True if a parameter change makes updateIOFrameSize drop queues at all. */
  predicate CanDrop(x: Context) {
    x.work != 0 && x.input.Some? && x.output.Some? && x.reopenSupported
  }

  predicate InputChanged(x: Context, c: Common) {
    c.inputFrameSize != x.inputFrameSize || x.inputFrames != c.inputFrames
  }

  predicate OutputChanged(x: Context, c: Common) {
    c.outputFrameSize != x.outputFrameSize || x.outputFrames != c.outputFrames
  }

  function UpdateIOFrameSize(x: Context, c: Common): Context {
    x.(inputFrameSize := c.inputFrameSize, outputFrameSize := c.outputFrameSize,
       input := if CanDrop(x) && InputChanged(x, c) then None else x.input,
       output := if CanDrop(x) && OutputChanged(x, c) then None else x.output)
  }

  /** setCommon; `wakeOk` is the result of waking the client to reopen. */
  function SetCommon(x: Context, c: Common, wakeOk: bool): (Context, bool) {
    if !c.isFloat then (x, false)
    else
      var y := UpdateIOFrameSize(x, c);
      var notified := CanDrop(x) && (InputChanged(x, c) || OutputChanged(x, c));
      if notified && !wakeOk then (y, false)
      else if c.inputChannels == 0 || c.outputChannels == 0 then (y, false)
      else (y.(inputFrames := c.inputFrames, outputFrames := c.outputFrames), true)
  }

  function Reopen(x: Context): Context {
    x.(input := if x.input.None? then Some(Queue(x.InputSize(), [])) else x.input,
       output := if x.output.None? then Some(Queue(x.OutputSize(), [])) else x.output,
       work := Max(x.InputSize(), x.OutputSize()))
  }

  /** How many samples one pass of process handles. */
  function ProcessSamples(x: Context): int
    requires x.input.Some? && x.output.Some?
  {
    Min(x.input.value.AvailableToRead(), x.output.value.AvailableToWrite())
  }

  /** One pass of process with the copying effect. */
  function Process(x: Context): Context
    requires ContentsFit(x)
  {
    if x.input.None? || x.output.None? then x
    else
      var n := ProcessSamples(x);
      var moved := x.input.value.samples[..n];
      x.(input := Some(x.input.value.(samples := x.input.value.samples[n..])),
         output := Some(x.output.value.(samples := x.output.value.samples + moved)))
  }

  datatype Action =
    | ActSetCommon(common: Common, wakeOk: bool)
    | ActReopen
    | ClientWrites(samples: seq<real>)
    | ClientReads(n: nat)
    | ActProcess

  predicate ContentsFit(x: Context) {
    && (x.input.Some? ==> |x.input.value.samples| <= x.input.value.capacity)
    && (x.output.Some? ==> |x.output.value.samples| <= x.output.value.capacity)
  }

  predicate Enabled(x: Context, a: Action) {
    match a
    case ClientWrites(samples) => x.input.Some? && |samples| <= x.input.value.AvailableToWrite()
    case ClientReads(n) => x.output.Some? && n <= x.output.value.AvailableToRead()
    case _ => true
  }

  function Step(x: Context, a: Action): Context
    requires ContentsFit(x) && Enabled(x, a)
  {
    match a
    case ActSetCommon(c, wakeOk) => SetCommon(x, c, wakeOk).0
    case ActReopen => Reopen(x)
    case ClientWrites(samples) =>
      x.(input := Some(x.input.value.(samples := x.input.value.samples + samples)))
    case ClientReads(n) =>
      x.(output := Some(x.output.value.(samples := x.output.value.samples[n..])))
    case ActProcess => Process(x)
  }

  // ---------------------------------------------------------------------------------------------
  // The work buffer is large enough
  // ---------------------------------------------------------------------------------------------

  /** While both queues exist, one of them has the size of the current parameters and the work buffer
      has the larger of the two sizes; the other queue may be left over from older parameters.  Or
      one queue has no room at all. */
  ghost predicate Inv(x: Context) {
    && ContentsFit(x) && x.reopenSupported
    && (x.input.Some? && x.output.Some? ==>
          x.input.value.capacity == 0 || x.output.value.capacity == 0 ||
          (x.work == Max(x.InputSize(), x.OutputSize()) &&
           (x.input.value.capacity == x.InputSize() || x.output.value.capacity == x.OutputSize())))
  }

  lemma StepKeepsInv(x: Context, a: Action)
    requires Inv(x) && Enabled(x, a)
    ensures Inv(Step(x, a))
  {
  }

  /** The actions of a run, from an effect just opened on. */
  predicate CanRun(x: Context, run: seq<Action>)
    decreases |run|
  {
    run == [] || (ContentsFit(x) && Enabled(x, run[0]) && CanRun(Step(x, run[0]), run[1..]))
  }

  function After(x: Context, run: seq<Action>): Context
    requires CanRun(x, run)
    decreases |run|
  {
    if run == [] then x else After(Step(x, run[0]), run[1..])
  }

  lemma {:induction false} RunKeepsInv(x: Context, run: seq<Action>)
    requires Inv(x) && CanRun(x, run)
    ensures Inv(After(x, run))
    decreases |run|
  {
    if run != [] {
      StepKeepsInv(x, run[0]);
      hide Inv, Step, Enabled, ContentsFit;
      RunKeepsInv(Step(x, run[0]), run[1..]);
    }
  }

  /** After any parameter changes and reopens, in any order and with any results, one pass of process
      moves no more samples than the work buffer holds, and it moves them unchanged and in order. */
  lemma ProcessFitsWorkBuffer(c: Common, run: seq<Action>)
    requires CanRun(Open(c, true), run)
    ensures var x := After(Open(c, true), run);
      && ContentsFit(x)
      && (x.input.Some? && x.output.Some? ==>
            var y := Process(x);
            && 0 <= ProcessSamples(x) <= x.work
            && x.input.value.samples == x.input.value.samples[..ProcessSamples(x)] + y.input.value.samples
            && y.output.value.samples == x.output.value.samples + x.input.value.samples[..ProcessSamples(x)]
            && ContentsFit(y))
  {
    RunKeepsInv(Open(c, true), run);
  }

  /** A pass goes on until there is nothing left to read or no room left to write, and loses nothing. */
  lemma ProcessMovesAll(x: Context)
    requires ContentsFit(x) && x.input.Some? && x.output.Some?
    ensures
      var y := Process(x);
      && y.input.Some? && y.output.Some? && ContentsFit(y)
      && (y.input.value.samples == [] || |y.output.value.samples| == y.output.value.capacity)
      && y.output.value.samples + y.input.value.samples == x.output.value.samples + x.input.value.samples
      && x.output.value.samples <= y.output.value.samples
      && y.input.value.capacity == x.input.value.capacity && y.output.value.capacity == x.output.value.capacity
      && y == x.(input := y.input, output := y.output)
  {
    var y := Process(x);
    var n := ProcessSamples(x);
    var all := x.input.value.samples;
    assert all == all[..n] + all[n..];
  }

  function Puts(a: Action): seq<real> {
    if a.ClientWrites? then a.samples else []
  }

  function Takes(x: Context, a: Action): seq<real>
    requires Enabled(x, a)
  {
    if a.ClientReads? then x.output.value.samples[..a.n] else []
  }

  /** What the client writes in a run, and what it reads. */
  function Written(run: seq<Action>): seq<real> {
    if run == [] then [] else Puts(run[0]) + Written(run[1..])
  }

  function ReadOut(x: Context, run: seq<Action>): seq<real>
    requires CanRun(x, run)
    decreases |run|
  {
    if run == [] then [] else Takes(x, run[0]) + ReadOut(Step(x, run[0]), run[1..])
  }

  /** All samples inside the effect, the oldest first. */
  function Inside(x: Context): seq<real>
    requires x.input.Some? && x.output.Some?
  {
    x.output.value.samples + x.input.value.samples
  }

  lemma StepConserves(x: Context, a: Action)
    requires ContentsFit(x) && Enabled(x, a) && x.input.Some? && x.output.Some? && !a.ActSetCommon?
    ensures
      var y := Step(x, a);
      && y.input.Some? && y.output.Some? && ContentsFit(y)
      && Inside(x) + Puts(a) == Takes(x, a) + Inside(y)
  {
    match a
    case ActProcess => ProcessMovesAll(x);
    case ClientReads(n) =>
      var all := x.output.value.samples;
      assert all == all[..n] + all[n..];
    case _ =>
  }

  /** While the parameters stay, the copying effect is transparent: over every run of writes, reads, passes and
      reopens the client reads what it wrote, in order, and the rest is still inside. */
  lemma {:induction false} EffectIsTransparent(x: Context, run: seq<Action>)
    requires ContentsFit(x) && x.input.Some? && x.output.Some? && CanRun(x, run)
    requires forall i :: 0 <= i < |run| ==> !run[i].ActSetCommon?
    ensures
      var y := After(x, run);
      y.input.Some? && y.output.Some? && Inside(x) + Written(run) == ReadOut(x, run) + Inside(y)
    decreases |run|
  {
    hide Step, Enabled, ContentsFit, Inside, Puts, Takes;
    if run != [] {
      assert !run[0].ActSetCommon?;
      StepConserves(x, run[0]);
      var y := Step(x, run[0]);
      EffectIsTransparent(y, run[1..]);
      var w, r := Puts(run[0]), Takes(x, run[0]);
      assert Inside(x) + (w + Written(run[1..])) == (Inside(x) + w) + Written(run[1..]);
      assert (r + Inside(y)) + Written(run[1..]) == r + (Inside(y) + Written(run[1..]));
      assert r + (ReadOut(y, run[1..]) + Inside(After(y, run[1..]))) == (r + ReadOut(y, run[1..])) + Inside(After(y, run[1..]));
    } else {
      assert Inside(x) + [] == [] + Inside(x);
    }
  }

  // ---------------------------------------------------------------------------------------------
  // What opening, changing and reopening come to
  // ---------------------------------------------------------------------------------------------

  lemma SamplesPerFrame(frames: nat, channels: nat)
    ensures frames * (4 * channels) / 4 == frames * channels
  {
    assert frames * (4 * channels) == 4 * (frames * channels);
  }

  /** For float samples, of four bytes each, an opened effect has room for a whole buffer of frames in each
      queue, and a work buffer for the larger of the two. */
  lemma OpenedForWholeFrames(c: Common, inChannels: nat, outChannels: nat, reopenSupported: bool)
    requires c.inputFrameSize == 4 * inChannels && c.outputFrameSize == 4 * outChannels
    ensures
      var x := Open(c, reopenSupported);
      && x.input == Some(Queue(c.inputFrames * inChannels, []))
      && x.output == Some(Queue(c.outputFrames * outChannels, []))
      && x.work >= c.inputFrames * inChannels && x.work >= c.outputFrames * outChannels
      && (x.work == c.inputFrames * inChannels || x.work == c.outputFrames * outChannels)
  {
    SamplesPerFrame(c.inputFrames, inChannels);
    SamplesPerFrame(c.outputFrames, outChannels);
  }

  /** New parameters are taken as a whole, unless the data is not float, the client cannot be woken when it
      has to be, or there are no channels; the frame counts change only then. */
  lemma ChangeSucceedsExactly(x: Context, c: Common, wakeOk: bool)
    ensures
      var (y, ok) := SetCommon(x, c, wakeOk);
      && (ok <==>
            && c.isFloat && c.inputChannels != 0 && c.outputChannels != 0
            && (wakeOk || (y.input == x.input && y.output == x.output)))
      && (ok ==> y.inputFrameSize == c.inputFrameSize && y.outputFrameSize == c.outputFrameSize &&
                 y.inputFrames == c.inputFrames && y.outputFrames == c.outputFrames)
      && (!ok ==> y.inputFrames == x.inputFrames && y.outputFrames == x.outputFrames)
      && (!c.isFloat ==> y == x)
      && y.work == x.work && y.reopenSupported == x.reopenSupported
  {
  }

  /** With both queues there, a change and a reopen give each side that changed an empty queue of the new
      size, leave the other with its data, and size the work buffer for the new parameters. */
  lemma ReopenAfterChange(x: Context, c: Common, inChannels: nat, outChannels: nat)
    requires x.reopenSupported && x.work != 0 && x.input.Some? && x.output.Some?
    requires SetCommon(x, c, true).1
    requires c.inputFrameSize == 4 * inChannels && c.outputFrameSize == 4 * outChannels
    ensures
      var z := Reopen(SetCommon(x, c, true).0);
      && z.input == (if (c.inputFrames, c.inputFrameSize) == (x.inputFrames, x.inputFrameSize) then x.input
                     else Some(Queue(c.inputFrames * inChannels, [])))
      && z.output == (if (c.outputFrames, c.outputFrameSize) == (x.outputFrames, x.outputFrameSize) then x.output
                      else Some(Queue(c.outputFrames * outChannels, [])))
      && z.work == Max(c.inputFrames * inChannels, c.outputFrames * outChannels)
      && z.work >= c.inputFrames * inChannels && z.work >= c.outputFrames * outChannels
  {
    SamplesPerFrame(c.inputFrames, inChannels);
    SamplesPerFrame(c.outputFrames, outChannels);
  }

  /** Where a reopen is not supported, or a queue is missing, or there is no work buffer, no change drops a queue. */
  lemma NothingDropped(x: Context, c: Common, wakeOk: bool)
    requires !x.reopenSupported || x.work == 0 || x.input.None? || x.output.None?
    ensures SetCommon(x, c, wakeOk).0.input == x.input && SetCommon(x, c, wakeOk).0.output == x.output
  {
  }

  // ---------------------------------------------------------------------------------------------
  // The stronger assertion in process
  // ---------------------------------------------------------------------------------------------

  /** What process asserts: the work buffer holds all that either queue could offer. */
  predicate AssertHolds(x: Context) {
    x.input.Some? && x.output.Some? ==>
      x.input.value.AvailableToRead() <= x.work && x.output.value.AvailableToWrite() <= x.work
  }

  /** It holds whatever the queues contain exactly when neither queue is larger than the buffer. */
  lemma AssertDependsOnCapacities(x: Context)
    requires x.input.Some? && x.output.Some?
    ensures
      (forall a, b: seq<real> | |a| <= x.input.value.capacity && |b| <= x.output.value.capacity ::
         AssertHolds(x.(input := Some(x.input.value.(samples := a)), output := Some(x.output.value.(samples := b)))))
      <==> x.input.value.capacity <= x.work && x.output.value.capacity <= x.work
  {
    var a, b: seq<real> := seq(x.input.value.capacity, _ => 0.0), [];
    var full := x.(input := Some(x.input.value.(samples := a)), output := Some(x.output.value.(samples := b)));
    assert AssertHolds(full) ==> x.input.value.capacity <= x.work && x.output.value.capacity <= x.work;
  }

  /** Two changes between reopens break it: the second one does not drop the other queue. */
  lemma AssertCanFail()
    ensures
      var c := Common(true, 10, 4, 1, 10, 4, 1);
      var run := [ActSetCommon(c.(inputFrames := 5), true),
                  ActSetCommon(c.(inputFrames := 5, outputFrames := 5), true), ActReopen];
      CanRun(Open(c, true), run) && !AssertHolds(After(Open(c, true), run))
  {
    var c := Common(true, 10, 4, 1, 10, 4, 1);
    var a1, a2 := ActSetCommon(c.(inputFrames := 5), true), ActSetCommon(c.(inputFrames := 5, outputFrames := 5), true);
    var x1 := Step(Open(c, true), a1);
    var x2 := Step(x1, a2);
    var x3 := Step(x2, ActReopen);
    assert x3 == Context(true, 4, 4, 5, 5, Some(Queue(5, [])), Some(Queue(10, [])), 5);
    assert [ActReopen][1..] == [] && CanRun(x2, [ActReopen]) && After(x2, [ActReopen]) == x3;
    assert [a2, ActReopen][1..] == [ActReopen];
    assert CanRun(x1, [a2, ActReopen]) && After(x1, [a2, ActReopen]) == x3;
    assert [a1, a2, ActReopen][1..] == [a2, ActReopen];
  }

  /** A run in which every parameter change finds both queues, that is, reopens follow changes. */
  predicate Prompt(x: Context, run: seq<Action>)
    requires CanRun(x, run)
    decreases |run|
  {
    run == [] ||
    ((run[0].ActSetCommon? ==> x.input.Some? && x.output.Some?) && Prompt(Step(x, run[0]), run[1..]))
  }

  /** In such a run a queue always has the current size, or none. */
  ghost predicate PromptInv(x: Context) {
    && ContentsFit(x) && x.reopenSupported
    && (x.input.Some? ==> x.input.value.capacity == 0 || x.input.value.capacity == x.InputSize())
    && (x.output.Some? ==> x.output.value.capacity == 0 || x.output.value.capacity == x.OutputSize())
    && (x.input.Some? && x.output.Some? ==>
          (x.input.value.capacity == 0 && x.output.value.capacity == 0) ||
          x.work == Max(x.InputSize(), x.OutputSize()))
  }

  lemma PromptStep(x: Context, a: Action)
    requires PromptInv(x) && Enabled(x, a)
    requires a.ActSetCommon? ==> x.input.Some? && x.output.Some?
    ensures PromptInv(Step(x, a)) && AssertHolds(x)
  {
  }

  /** When every change is followed by a reopen before the next change, the assertion holds. */
  lemma {:induction false} AssertHoldsWhenPrompt(x: Context, run: seq<Action>)
    requires PromptInv(x) && CanRun(x, run) && Prompt(x, run)
    ensures PromptInv(After(x, run)) && AssertHolds(After(x, run))
    decreases |run|
  {
    if run != [] {
      PromptStep(x, run[0]);
      hide PromptInv, Step, Enabled, ContentsFit, AssertHolds;
      AssertHoldsWhenPrompt(Step(x, run[0]), run[1..]);
    }
  }

  lemma OpenIsPrompt(c: Common)
    ensures PromptInv(Open(c, true)) && Inv(Open(c, true))
  {
  }
}
