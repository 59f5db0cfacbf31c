/** The effect context and the processing pass as objects, proved against EffectBuffers. */
module EffectContexts {
  import opened Basics
  import opened EffectBuffers

  /** A data queue shared with the client. */
  class DataMQ {
    const capacity: nat
    var samples: seq<real>

    constructor (capacity: nat)
      ensures this.capacity == capacity && samples == []
    {
      this.capacity := capacity;
      samples := [];
    }

    function Value(): Queue
      reads this
    {
      Queue(capacity, samples)
    }

    /** Reads the first `count` samples into the start of `buffer`. */
    method Read(buffer: array<real>, count: nat)
      requires count <= |samples| && count <= buffer.Length
      modifies this`samples, buffer
      ensures samples == old(samples)[count..]
      ensures buffer[..count] == old(samples)[..count]
    {
      var i := 0;
      while i < count
        invariant i <= count && samples == old(samples)
        invariant buffer[..i] == samples[..i]
      {
        buffer[i] := samples[i];
        i := i + 1;
      }
      samples := samples[count..];
    }

    /** Appends the first `count` samples of `buffer`. */
    method Write(buffer: array<real>, count: nat)
      requires count <= buffer.Length && |samples| + count <= capacity
      modifies this`samples
      ensures samples == old(samples) + buffer[..count]
    {
      samples := samples + buffer[..count];
    }
  }

  class EffectContext {
    var reopenSupported: bool
    var inputFrameSize: nat
    var outputFrameSize: nat
    var inputFrames: nat
    var outputFrames: nat
    var inputMQ: DataMQ?
    var outputMQ: DataMQ?
    var workBuffer: array<real>

    constructor (c: Common, reopenSupported: bool)
      ensures Valid() && View() == Open(c, reopenSupported)
      ensures fresh(inputMQ) && fresh(outputMQ) && fresh(workBuffer)
    {
      this.reopenSupported := reopenSupported;
      inputFrameSize, outputFrameSize := c.inputFrameSize, c.outputFrameSize;
      inputFrames, outputFrames := c.inputFrames, c.outputFrames;
      var inSize, outSize := c.inputFrames * c.inputFrameSize / 4, c.outputFrames * c.outputFrameSize / 4;
      inputMQ := new DataMQ(inSize);
      outputMQ := new DataMQ(outSize);
      workBuffer := new real[Max(inSize, outSize)];
    }

    ghost predicate Valid()
      reads this, inputMQ, outputMQ
    {
      && (inputMQ != null ==> inputMQ != outputMQ && |inputMQ.samples| <= inputMQ.capacity)
      && (outputMQ != null ==> |outputMQ.samples| <= outputMQ.capacity)
    }

    ghost function View(): Context
      reads this, inputMQ, outputMQ, workBuffer
    {
      Context(reopenSupported, inputFrameSize, outputFrameSize, inputFrames, outputFrames,
              if inputMQ == null then None else Some(inputMQ.Value()),
              if outputMQ == null then None else Some(outputMQ.Value()),
              workBuffer.Length)
    }

    method SetCommonParameter(c: Common, wakeOk: bool) returns (success: bool)
      requires Valid()
      modifies this
      ensures Valid() && (View(), success) == SetCommon(old(View()), c, wakeOk)
    {
      if !c.isFloat {
        return false;
      }
      success := UpdateFrameSizes(c, wakeOk);
      if !success {
        return;
      }
      if c.inputChannels == 0 || c.outputChannels == 0 {
        return false;
      }
      inputFrames, outputFrames := c.inputFrames, c.outputFrames;
    }

    method UpdateFrameSizes(c: Common, wakeOk: bool) returns (success: bool)
      requires Valid()
      modifies this
      ensures Valid() && View() == UpdateIOFrameSize(old(View()), c)
      ensures success <==>
        wakeOk || !CanDrop(old(View())) || !(InputChanged(old(View()), c) || OutputChanged(old(View()), c))
    {
      var prevInputFrameSize, prevOutputFrameSize := inputFrameSize, outputFrameSize;
      inputFrameSize, outputFrameSize := c.inputFrameSize, c.outputFrameSize;
      if workBuffer.Length == 0 || inputMQ == null || outputMQ == null {
        return true;
      }
      if !reopenSupported {
        return true;
      }
      var needUpdateMq := false;
      if inputFrameSize != prevInputFrameSize || inputFrames != c.inputFrames {
        inputMQ := null;
        needUpdateMq := true;
      }
      if outputFrameSize != prevOutputFrameSize || outputFrames != c.outputFrames {
        outputMQ := null;
        needUpdateMq := true;
      }
      success := !needUpdateMq || wakeOk;
    }

    method DupeFmqWithReopen()
      requires Valid()
      modifies this
      ensures Valid() && View() == Reopen(old(View()))
    {
      var inSize, outSize := inputFrames * inputFrameSize / 4, outputFrames * outputFrameSize / 4;
      var bufferSize := Max(inSize, outSize);
      if inputMQ == null {
        inputMQ := new DataMQ(inSize);
      }
      if outputMQ == null {
        outputMQ := new DataMQ(outSize);
      }
      if workBuffer.Length != bufferSize {
        var kept := workBuffer[..];
        workBuffer := new real[bufferSize](i => if 0 <= i < |kept| then kept[i] else 0.0);
      }
    }

    /** One pass of the worker in the processing state.  The work buffer is used for input and output
        at once, as the source does. */
    method ProcessOnce() returns (handled: nat)
      requires Valid() && Inv(View())
      modifies inputMQ, outputMQ, workBuffer
      ensures Valid() && View() == Process(old(View()))
      ensures handled <= workBuffer.Length
      ensures handled == (if inputMQ == null || outputMQ == null then 0 else ProcessSamples(old(View())))
      ensures inputMQ != null && outputMQ != null ==>
        && (inputMQ.samples == [] || |outputMQ.samples| == outputMQ.capacity)
        && outputMQ.samples + inputMQ.samples == old(outputMQ.samples) + old(inputMQ.samples)
        && |outputMQ.samples| == |old(outputMQ.samples)| + handled
    {
      if inputMQ == null || outputMQ == null {
        return 0;
      }
      ProcessMovesAll(View());
      var available := Min(|inputMQ.samples|, outputMQ.capacity - |outputMQ.samples|);
      handled := available;
      if 0 < handled {
        inputMQ.Read(workBuffer, handled);
        var produced := EffectProcess(workBuffer, workBuffer, handled);
        outputMQ.Write(workBuffer, produced);
      } else {
        assert inputMQ.samples[0..] == inputMQ.samples && outputMQ.samples + [] == outputMQ.samples;
      }
    }
  }

  /** The copying effect: `input` and `output` may be the same buffer. */
  method EffectProcess(input: array<real>, output: array<real>, samples: nat) returns (produced: nat)
    requires samples <= input.Length && samples <= output.Length
    modifies output
    ensures produced == samples
    ensures output[..samples] == old(input[..samples])
    ensures output[samples..] == old(output[samples..])
  {
    var i := 0;
    while i < samples
      invariant i <= samples
      invariant output[..i] == old(input[..i])
      invariant input[i..] == old(input[i..])
      invariant output[samples..] == old(output[samples..])
    {
      output[i] := input[i];
      i := i + 1;
    }
    produced := samples;
  }
}
