/**
 * The capture side of the client (`AudioRecorder.jsx`): the audio-worklet accumulator
 * `PCMProcessor`, which posts the first channel's samples in chunks of at least 2048, and
 * the recorder's device selection, start and stop bookkeeping. Browser media objects are
 * represented by handles; what `getUserMedia` and the audio context do is an input.
 */
module AudioRecorder {
  import opened Wrappers
  import opened Seqs

  /** `this.bufferSize`: about 128 ms of audio at 16 kHz. */
  const BufferSize: nat := 2048

  function Flatten(chunks: seq<seq<real>>): seq<real>
    decreases |chunks|
  {
    if chunks == [] then [] else Flatten(chunks[..|chunks| - 1]) + chunks[|chunks| - 1]
  }

  lemma FlattenAppend(chunks: seq<seq<real>>, c: seq<real>)
    ensures Flatten(chunks + [c]) == Flatten(chunks) + c
  {
    assert (chunks + [c])[..|chunks|] == chunks;
  }

  /**
   * One `process` call on the accumulator `buffer` with the first channel's samples: the
   * chunk posted, if any, and the new buffer.
   */
  function Accumulate(buffer: seq<real>, channel: seq<real>): (Option<seq<real>>, seq<real>) {
    var all := buffer + channel;
    if |all| >= BufferSize then (Some(all), []) else (None, all)
  }

  /** A run of `process` calls, each given the first channel of its render quantum. */
  function RunQuanta(buffer: seq<real>, quanta: seq<seq<real>>): (seq<seq<real>>, seq<real>)
    decreases |quanta|
  {
    if quanta == [] then ([], buffer)
    else
      var (posted, rest) := RunQuanta(buffer, quanta[..|quanta| - 1]);
      var (chunk, next) := Accumulate(rest, quanta[|quanta| - 1]);
      (if chunk.Some? then posted + [chunk.value] else posted, next)
  }

  /** The accumulator's invariant: chunks and buffer hold what was received, in order. */
  predicate Conserved(posted: seq<seq<real>>, buffer: seq<real>, received: seq<real>) {
    |buffer| < BufferSize &&
    Flatten(posted) + buffer == received &&
    forall k :: 0 <= k < |posted| ==> |posted[k]| >= BufferSize
  }

  /** The chunks posted after one more `process` call. */
  function PostedAfter(posted: seq<seq<real>>, chunk: Option<seq<real>>): seq<seq<real>> {
    if chunk.Some? then posted + [chunk.value] else posted
  }

  /** One `process` call keeps the accumulator's invariant, with the channel's samples received. */
  lemma AccumulateKeeps(posted: seq<seq<real>>, buffer: seq<real>, received: seq<real>, channel: seq<real>)
    requires Conserved(posted, buffer, received)
    ensures var (chunk, next) := Accumulate(buffer, channel);
      Conserved(PostedAfter(posted, chunk), next, received + channel)
  {
    var (chunk, next) := Accumulate(buffer, channel);
    if chunk.Some? {
      FlattenAppend(posted, chunk.value);
      assert Flatten(posted + [chunk.value]) + next == Flatten(posted) + buffer + channel;
    } else {
      assert Flatten(posted) + next == Flatten(posted) + buffer + channel;
    }
  }

  /**
   * Over any run of `process` calls the posted chunks followed by the buffer are exactly the
   * samples received, in order: nothing is lost or duplicated. Every posted chunk holds at
   * least 2048 samples, and the buffer always holds fewer.
   */
  lemma {:induction false} RunQuantaConserves(buffer: seq<real>, quanta: seq<seq<real>>)
    requires |buffer| < BufferSize
    ensures var (posted, rest) := RunQuanta(buffer, quanta);
      Flatten(posted) + rest == buffer + Flatten(quanta) &&
      |rest| < BufferSize &&
      forall k :: 0 <= k < |posted| ==> |posted[k]| >= BufferSize
    decreases |quanta|
  {
    if quanta != [] {
      var init := quanta[..|quanta| - 1];
      var q := quanta[|quanta| - 1];
      RunQuantaConserves(buffer, init);
      var (posted, rest) := RunQuanta(buffer, init);
      assert Conserved(posted, rest, buffer + Flatten(init));
      AccumulateKeeps(posted, rest, buffer + Flatten(init), q);
      assert Flatten(quanta) == Flatten(init) + q;
      assert buffer + Flatten(init) + q == buffer + Flatten(quanta);
    }
  }

  /** The `PCMProcessor` audio-worklet processor. */
  class PCMProcessor {
    /** `this.buffer`: samples not yet posted. */
    var buffer: seq<real>
    /** The messages posted through `this.port`, oldest first. */
    var posted: seq<seq<real>>
    /** Every first-channel sample handed to `process` so far. */
    ghost var received: seq<real>

    ghost predicate Valid()
      reads this
    {
      Conserved(posted, buffer, received)
    }

    constructor ()
      ensures Valid() && buffer == [] && posted == [] && received == []
    {
      buffer := [];
      posted := [];
      received := [];
    }

    /**
     * `process(inputs, ...)` for `inputs[0] == input`, the channels of the first input.
     * Without channels nothing changes; the processor always asks to stay alive.
     */
    method Process(input: seq<seq<real>>) returns (keepAlive: bool)
      requires Valid()
      modifies this
      ensures Valid() && keepAlive
      ensures input == [] ==> buffer == old(buffer) && posted == old(posted) && received == old(received)
      ensures input != [] ==> received == old(received) + input[0]
      ensures input != [] ==>
        var (chunk, next) := Accumulate(old(buffer), input[0]);
        buffer == next && posted == (if chunk.Some? then old(posted) + [chunk.value] else old(posted))
    {
      if |input| > 0 {
        var channel := input[0];
        for i := 0 to |channel|
          invariant buffer == old(buffer) + channel[..i]
          invariant posted == old(posted) && received == old(received)
        {
          buffer := buffer + [channel[i]];
        }
        assert channel[..|channel|] == channel;
        AccumulateKeeps(posted, old(buffer), received, channel);
        received := received + channel;
        if |buffer| >= BufferSize {
          posted := posted + [buffer];
          buffer := [];
        }
      }
      return true;
    }
  }

  /** An entry of `enumerateDevices()`. */
  datatype MediaDeviceInfo = MediaDeviceInfo(kind: string, deviceId: string)

  /** `devs.filter(d => d.kind === 'audioinput')`. */
  function AudioInputs(devs: seq<MediaDeviceInfo>): (inputs: seq<MediaDeviceInfo>)
    ensures |inputs| <= |devs|
    ensures forall d :: d in inputs <==> d in devs && d.kind == "audioinput"
    decreases |devs|
  {
    if devs == [] then []
    else
      var init := AudioInputs(devs[..|devs| - 1]);
      var last := devs[|devs| - 1];
      assert devs == devs[..|devs| - 1] + [last];
      if last.kind == "audioinput" then init + [last] else init
  }

  lemma AudioInputsSnoc(t: seq<MediaDeviceInfo>, x: MediaDeviceInfo)
    ensures AudioInputs(t + [x]) == AudioInputs(t) + (if x.kind == "audioinput" then [x] else [])
  {
    var s := t + [x];
    assert s[..|s| - 1] == t && s[|s| - 1] == x;
  }

  /**
   * The filter decides each device on its own and keeps the survivors in enumeration
   * order: a single device is kept exactly when it is an audio input, and the filter
   * distributes over concatenation. Together these fix the result, order and repeats included.
   */
  lemma {:induction false} AudioInputsKeepOrder(a: seq<MediaDeviceInfo>, b: seq<MediaDeviceInfo>)
    ensures AudioInputs(a + b) == AudioInputs(a) + AudioInputs(b)
    ensures |b| == 1 ==> AudioInputs(b) == if b[0].kind == "audioinput" then b else []
    decreases |b|
  {
    if b == [] {
      assert a + b == a;
    } else {
      var t, x := b[..|b| - 1], b[|b| - 1];
      AppendSnoc(a, b);
      AudioInputsSnoc(a + t, x);
      AudioInputsSnoc(t, x);
      AudioInputsKeepOrder(a, t);
      AppendAssoc(AudioInputs(a), AudioInputs(t), if x.kind == "audioinput" then [x] else []);
      if |b| == 1 {
        assert t == [];
        AudioInputsSnoc([], x);
      }
    }
  }

  /** Without audio inputs the filter keeps nothing. */
  lemma NoAudioInputs(devs: seq<MediaDeviceInfo>)
    requires forall k :: 0 <= k < |devs| ==> devs[k].kind != "audioinput"
    ensures AudioInputs(devs) == []
  {
  }

  /**
   * The device `fetchDevices` selects, `devices[0]`, is the first audio input in the order
   * `enumerateDevices()` listed them.
   */
  lemma AudioInputsHead(devs: seq<MediaDeviceInfo>, i: nat)
    requires i < |devs| && devs[i].kind == "audioinput"
    requires forall k :: 0 <= k < i ==> devs[k].kind != "audioinput"
    ensures AudioInputs(devs) != [] && AudioInputs(devs)[0] == devs[i]
  {
    var before, rest := devs[..i], devs[i + 1..];
    SplitAt(devs, i);
    NoAudioInputs(before);
    AudioInputsSnoc(before, devs[i]);
    assert AudioInputs(before + [devs[i]]) == [devs[i]];
    AudioInputsKeepOrder(before + [devs[i]], rest);
  }

  /** How far `startRecording` got: the step that failed, with the handles obtained before it. */
  datatype StartOutcome =
    | MicUnavailable
    | ContextFailed(stream: nat)
    | WorkletFailed(stream: nat, context: nat)
    | Capturing(stream: nat, context: nat, node: nat)

  /** The recorder component's state: its React state, its refs, and what it released. */
  class Recorder {
    var isRecording: bool
    var selectedDeviceId: string
    var devices: seq<MediaDeviceInfo>
    /** `audioContextRef`, `streamRef`, `workletNodeRef`. */
    var context: Option<nat>
    var stream: Option<nat>
    var workletNode: Option<nat>
    /** Audio contexts closed and streams whose tracks were stopped, in order. */
    var closedContexts: seq<nat>
    var stoppedStreams: seq<nat>
    /** Whether the parent passed `onStop`, and how often it has been called. */
    const hasOnStop: bool
    var onStopCalls: nat

    constructor (hasOnStop: bool)
      ensures !isRecording && selectedDeviceId == "" && devices == []
      ensures context.None? && stream.None? && workletNode.None?
      ensures closedContexts == [] && stoppedStreams == []
      ensures this.hasOnStop == hasOnStop && onStopCalls == 0
    {
      isRecording := false;
      selectedDeviceId := "";
      devices := [];
      context, stream, workletNode := None, None, None;
      closedContexts, stoppedStreams := [], [];
      this.hasOnStop := hasOnStop;
      onStopCalls := 0;
    }

    /**
     * `fetchDevices` with the result of `enumerateDevices()` (`None` when it rejects): keep the
     * audio inputs, and select the first one only when nothing is selected yet.
     */
    method FetchDevices(enumerated: Option<seq<MediaDeviceInfo>>)
      modifies this
      ensures enumerated.None? ==> devices == old(devices) && selectedDeviceId == old(selectedDeviceId)
      ensures enumerated.Some? ==> devices == AudioInputs(enumerated.value)
      ensures enumerated.Some? && |devices| > 0 && old(selectedDeviceId) == "" ==>
        selectedDeviceId == devices[0].deviceId
      ensures enumerated.Some? && (devices == [] || old(selectedDeviceId) != "") ==>
        selectedDeviceId == old(selectedDeviceId)
      ensures isRecording == old(isRecording) && context == old(context) && stream == old(stream)
      ensures workletNode == old(workletNode) && onStopCalls == old(onStopCalls)
      ensures closedContexts == old(closedContexts) && stoppedStreams == old(stoppedStreams)
    {
      if enumerated.Some? {
        var inputs := AudioInputs(enumerated.value);
        devices := inputs;
        if |inputs| > 0 && selectedDeviceId == "" {
          selectedDeviceId := inputs[0].deviceId;
        }
      }
    }

    /**
     * `stopRecording`: close the context, stop the stream's tracks, drop the worklet node,
     * clear `isRecording`, and call `onStop` — on every call, even when nothing was running.
     */
    method StopRecording()
      modifies this
      ensures context.None? && stream.None? && workletNode.None? && !isRecording
      ensures closedContexts == old(closedContexts) + (if old(context).Some? then [old(context).value] else [])
      ensures stoppedStreams == old(stoppedStreams) + (if old(stream).Some? then [old(stream).value] else [])
      ensures onStopCalls == old(onStopCalls) + (if hasOnStop then 1 else 0)
      ensures devices == old(devices) && selectedDeviceId == old(selectedDeviceId)
    {
      if context.Some? {
        closedContexts := closedContexts + [context.value];
        context := None;
      }
      if stream.Some? {
        stoppedStreams := stoppedStreams + [stream.value];
        stream := None;
      }
      if workletNode.Some? {
        workletNode := None;
      }
      isRecording := false;
      if hasOnStop {
        onStopCalls := onStopCalls + 1;
      }
    }

    /**
     * `startRecording`, given how far it got. Each ref is stored as soon as its object
     * exists, so a failure after the stream or the context was obtained leaves them set while
     * `isRecording` stays false.
     */
    method StartRecording(outcome: StartOutcome)
      modifies this
      ensures outcome.MicUnavailable? ==>
        stream == old(stream) && context == old(context) && workletNode == old(workletNode) &&
        isRecording == old(isRecording)
      ensures outcome.ContextFailed? ==>
        stream == Some(outcome.stream) && context == old(context) && workletNode == old(workletNode) &&
        isRecording == old(isRecording)
      ensures outcome.WorkletFailed? ==>
        stream == Some(outcome.stream) && context == Some(outcome.context) &&
        workletNode == old(workletNode) && isRecording == old(isRecording)
      ensures outcome.Capturing? ==>
        stream == Some(outcome.stream) && context == Some(outcome.context) &&
        workletNode == Some(outcome.node) && isRecording
      ensures devices == old(devices) && selectedDeviceId == old(selectedDeviceId)
      ensures closedContexts == old(closedContexts) && stoppedStreams == old(stoppedStreams)
      ensures onStopCalls == old(onStopCalls)
    {
      match outcome
      case MicUnavailable =>
      case ContextFailed(s) =>
        stream := Some(s);
      case WorkletFailed(s, c) =>
        stream := Some(s);
        context := Some(c);
      case Capturing(s, c, n) =>
        stream := Some(s);
        context := Some(c);
        workletNode := Some(n);
        isRecording := true;
    }

    /** `handleClick`: stop when recording, otherwise start. */
    method HandleClick(outcome: StartOutcome)
      modifies this
      ensures old(isRecording) ==>
        !isRecording && context.None? && stream.None? && workletNode.None? &&
        closedContexts == old(closedContexts) + (if old(context).Some? then [old(context).value] else []) &&
        stoppedStreams == old(stoppedStreams) + (if old(stream).Some? then [old(stream).value] else []) &&
        onStopCalls == old(onStopCalls) + (if hasOnStop then 1 else 0)
      ensures !old(isRecording) && outcome.MicUnavailable? ==>
        stream == old(stream) && context == old(context) && workletNode == old(workletNode) && !isRecording
      ensures !old(isRecording) && outcome.ContextFailed? ==>
        stream == Some(outcome.stream) && context == old(context) && workletNode == old(workletNode) && !isRecording
      ensures !old(isRecording) && outcome.WorkletFailed? ==>
        stream == Some(outcome.stream) && context == Some(outcome.context) &&
        workletNode == old(workletNode) && !isRecording
      ensures !old(isRecording) && outcome.Capturing? ==>
        stream == Some(outcome.stream) && context == Some(outcome.context) &&
        workletNode == Some(outcome.node) && isRecording
      ensures !old(isRecording) ==>
        closedContexts == old(closedContexts) && stoppedStreams == old(stoppedStreams) && onStopCalls == old(onStopCalls)
      ensures devices == old(devices) && selectedDeviceId == old(selectedDeviceId)
    {
      if isRecording {
        StopRecording();
      } else {
        StartRecording(outcome);
      }
    }
  }
}
