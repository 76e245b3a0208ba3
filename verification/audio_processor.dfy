/**
 * The server's sentence segmenter (`AudioProcessor`): incoming PCM bytes are cut into
 * 1024-byte windows (512 16-bit samples); a speech/silence machine buffers the windows of a
 * sentence and hands the sentence out after more than ten silent windows. The Silero VAD
 * verdict for a window is the oracle `vad`.
 */
module AudioProcessor {
  import opened Wrappers
  import opened Seqs

  const WindowBytes: nat := 1024
  const SilenceTolerance: nat := 10
  /** `has_speech` works on windows of 512 samples and looks at most 32 of them. */
  const WindowSamples: nat := 512
  const ChunkCount: nat := 32

  /** The processor's state: unconsumed bytes, the sentence so far, and the speech/silence machine. */
  datatype Segmenter = Segmenter(audio: seq<bv8>, speech: seq<bv8>, isSpeaking: bool, silence: nat)

  /** A state and, when a sentence is finished, its bytes. */
  datatype Outcome = Outcome(state: Segmenter, sentence: Option<seq<bv8>>)

  /**
   * The machine's invariant: it is speaking exactly when a sentence is being buffered; the
   * buffer holds whole windows, at least one of speech followed by the tolerated silent ones.
   */
  predicate Inv(s: Segmenter) {
    (s.isSpeaking <==> s.speech != []) &&
    s.silence <= SilenceTolerance &&
    |s.speech| % WindowBytes == 0 &&
    (s.isSpeaking ==> |s.speech| >= WindowBytes * (s.silence + 1))
  }

  /** One window `w` with VAD verdict `isSpeech`. */
  function Absorb(s: Segmenter, w: seq<bv8>, isSpeech: bool): Outcome {
    if isSpeech then Outcome(s.(isSpeaking := true, silence := 0, speech := s.speech + w), None)
    else if !s.isSpeaking then Outcome(s, None)
    else if s.silence + 1 > SilenceTolerance then
      Outcome(s.(isSpeaking := false, silence := 0, speech := []), Some(s.speech))
    else Outcome(s.(silence := s.silence + 1, speech := s.speech + w), None)
  }

  /** The `while` loop of `process_stream`: windows are consumed in order until a sentence ends or fewer than 1024 bytes remain. */
  function Consume(s: Segmenter, vad: seq<bv8> -> bool): Outcome
    decreases |s.audio|
  {
    if |s.audio| < WindowBytes then Outcome(s, None)
    else
      var w := s.audio[..WindowBytes];
      var o := Absorb(s.(audio := s.audio[WindowBytes..]), w, vad(w));
      if o.sentence.Some? then o else Consume(o.state, vad)
  }

  /** `process_stream(chunk)`. */
  function Process(s: Segmenter, chunk: seq<bv8>, vad: seq<bv8> -> bool): Outcome {
    Consume(s.(audio := s.audio + chunk), vad)
  }

  /** A window keeps the invariant; a sentence it ends is the whole buffer, at least eleven windows long. */
  lemma AbsorbKeepsInv(s: Segmenter, w: seq<bv8>, isSpeech: bool)
    requires Inv(s) && |w| == WindowBytes
    ensures Inv(Absorb(s, w, isSpeech).state)
    ensures Absorb(s, w, isSpeech).state.audio == s.audio
    ensures var o := Absorb(s, w, isSpeech);
      o.sentence.Some? ==>
        o.sentence.value == s.speech && |s.speech| >= WindowBytes * (SilenceTolerance + 1) && |s.speech| % WindowBytes == 0
  {
  }

  /**
   * Consuming keeps the invariant and removes whole windows from the front of the buffer;
   * without a sentence fewer than 1024 bytes remain; a sentence is at least eleven windows.
   */
  lemma {:induction false} ConsumeKeepsInv(s: Segmenter, vad: seq<bv8> -> bool)
    requires Inv(s)
    ensures var o := Consume(s, vad);
      Inv(o.state) &&
      |o.state.audio| <= |s.audio| && (|s.audio| - |o.state.audio|) % WindowBytes == 0 &&
      o.state.audio == s.audio[|s.audio| - |o.state.audio|..]
    ensures var o := Consume(s, vad);
      o.sentence.None? ==> |o.state.audio| < WindowBytes
    ensures var o := Consume(s, vad);
      o.sentence.Some? ==> |o.sentence.value| >= WindowBytes * (SilenceTolerance + 1) && |o.sentence.value| % WindowBytes == 0
    decreases |s.audio|
  {
    if |s.audio| >= WindowBytes {
      var w := s.audio[..WindowBytes];
      var s1 := s.(audio := s.audio[WindowBytes..]);
      AbsorbKeepsInv(s1, w, vad(w));
      var o := Absorb(s1, w, vad(w));
      if o.sentence.None? {
        assert Consume(s, vad) == Consume(o.state, vad);
        ConsumeKeepsInv(o.state, vad);
        var r := Consume(o.state, vad).state.audio;
        SuffixOfSuffix(s.audio, WindowBytes, r);
        OneMoreWindow(|o.state.audio| - |r|);
        assert |s.audio| - |r| == WindowBytes + (|o.state.audio| - |r|);
      } else {
        assert Consume(s, vad) == o;
      }
    }
  }

  /** Whole windows plus one window are whole windows. */
  lemma OneMoreWindow(n: int)
    requires n % WindowBytes == 0
    ensures (WindowBytes + n) % WindowBytes == 0
  {
  }

  /** A suffix of `a[n..]` is a suffix of `a`. */
  lemma SuffixOfSuffix(a: seq<bv8>, n: nat, r: seq<bv8>)
    requires n <= |a| && |r| <= |a| - n && r == a[n..][|a| - n - |r|..]
    ensures r == a[|a| - |r|..]
  {
  }

  /** Silent windows before any speech are dropped: the machine stays idle and buffers nothing. */
  lemma {:induction false} SilenceBeforeSpeechDiscarded(s: Segmenter, vad: seq<bv8> -> bool)
    requires !s.isSpeaking && s.speech == []
    requires forall j :: 0 <= j && WindowBytes * (j + 1) <= |s.audio| ==> !vad(s.audio[WindowBytes * j..WindowBytes * (j + 1)])
    ensures var o := Consume(s, vad);
      o.sentence.None? && o.state == s.(audio := o.state.audio) && |o.state.audio| < WindowBytes
    decreases |s.audio|
  {
    if |s.audio| >= WindowBytes {
      var w := s.audio[..WindowBytes];
      assert !vad(s.audio[WindowBytes * 0..WindowBytes * (0 + 1)]);
      var s1 := s.(audio := s.audio[WindowBytes..]);
      forall j | 0 <= j && WindowBytes * (j + 1) <= |s1.audio|
        ensures !vad(s1.audio[WindowBytes * j..WindowBytes * (j + 1)])
      {
        assert s1.audio[WindowBytes * j..WindowBytes * (j + 1)] == s.audio[WindowBytes * (j + 1)..WindowBytes * (j + 1 + 1)];
      }
      SilenceBeforeSpeechDiscarded(s1, vad);
    }
  }

  /** The `j`-th 1024-byte window of `a`. */
  function Window(a: seq<bv8>, j: nat): seq<bv8>
    requires WindowBytes * (j + 1) <= |a|
  {
    a[WindowBytes * j..WindowBytes * (j + 1)]
  }

  /** Dropping the first window shifts every later window down by one. */
  lemma WindowShift(a: seq<bv8>, j: nat)
    requires WindowBytes * (j + 2) <= |a|
    ensures Window(a[WindowBytes..], j) == Window(a, j + 1)
  {
  }

  /**
   * A speaking machine that has counted `c` silent windows keeps buffering the next
   * `10 - c` silent windows, and the one after them ends the sentence: the sentence is the
   * buffer followed by the tolerated windows, and the machine is idle again.
   */
  lemma {:induction false} SilentTail(s: Segmenter, vad: seq<bv8> -> bool, c: nat)
    requires s.isSpeaking && s.silence == c && c <= SilenceTolerance
    requires |s.audio| >= WindowBytes * (SilenceTolerance + 1 - c)
    requires forall j :: 0 <= j <= SilenceTolerance - c ==> !vad(Window(s.audio, j))
    ensures Consume(s, vad) ==
      Outcome(Segmenter(s.audio[WindowBytes * (SilenceTolerance + 1 - c)..], [], false, 0),
              Some(s.speech + s.audio[..WindowBytes * (SilenceTolerance - c)]))
    decreases SilenceTolerance - c
  {
    var w := s.audio[..WindowBytes];
    assert w == Window(s.audio, 0);
    var s1 := s.(audio := s.audio[WindowBytes..]);
    var o := Absorb(s1, w, vad(w));
    assert !vad(Window(s.audio, 0));
    if c == SilenceTolerance {
      assert Consume(s, vad) == o;
      assert o.state == Segmenter(s.audio[WindowBytes * (SilenceTolerance + 1 - c)..], [], false, 0);
      assert s.speech + s.audio[..WindowBytes * (SilenceTolerance - c)] == s.speech;
    } else {
      assert o == Outcome(s1.(silence := c + 1, speech := s.speech + w), None);
      assert Consume(s, vad) == Consume(o.state, vad);
      forall j | 0 <= j <= SilenceTolerance - (c + 1)
        ensures !vad(Window(o.state.audio, j))
      {
        WindowShift(s.audio, j);
      }
      SilentTail(o.state, vad, c + 1);
      var k := WindowBytes * (SilenceTolerance - (c + 1));
      assert o.state.audio[k + WindowBytes..] == s.audio[WindowBytes * (SilenceTolerance + 1 - c)..];
      assert w + o.state.audio[..k] == s.audio[..WindowBytes * (SilenceTolerance - c)];
      AppendAssoc(s.speech, w, o.state.audio[..k]);
    }
  }

  /**
   * A speech window followed by eleven silent ones ends a sentence, whatever came before:
   * the sentence is the earlier buffer, the speech window and the ten tolerated silent
   * windows; the eleventh is dropped, the machine is idle, and the bytes after it stay.
   */
  lemma SentenceAfterElevenSilences(s: Segmenter, vad: seq<bv8> -> bool)
    requires |s.audio| >= WindowBytes * (SilenceTolerance + 2)
    requires vad(Window(s.audio, 0))
    requires forall j :: 1 <= j <= SilenceTolerance + 1 ==> !vad(Window(s.audio, j))
    ensures Consume(s, vad) ==
      Outcome(Segmenter(s.audio[WindowBytes * (SilenceTolerance + 2)..], [], false, 0),
              Some(s.speech + s.audio[..WindowBytes * (SilenceTolerance + 1)]))
  {
    var w := s.audio[..WindowBytes];
    assert w == Window(s.audio, 0);
    var s1 := s.(audio := s.audio[WindowBytes..]);
    var o := Absorb(s1, w, vad(w));
    assert o == Outcome(s1.(isSpeaking := true, silence := 0, speech := s.speech + w), None);
    assert Consume(s, vad) == Consume(o.state, vad);
    forall j | 0 <= j <= SilenceTolerance
      ensures !vad(Window(o.state.audio, j))
    {
      WindowShift(s.audio, j);
    }
    SilentTail(o.state, vad, 0);
    var k := WindowBytes * SilenceTolerance;
    assert o.state.audio[k + WindowBytes..] == s.audio[WindowBytes * (SilenceTolerance + 2)..];
    assert w + o.state.audio[..k] == s.audio[..WindowBytes * (SilenceTolerance + 1)];
    AppendAssoc(s.speech, w, o.state.audio[..k]);
  }

  /** `flush`: the buffered sentence, if any, is handed out; the silence counter is left as it is. */
  function Flush(s: Segmenter): (o: Outcome)
    ensures s.speech == [] ==> o == Outcome(s, None)
    ensures s.speech != [] ==> o.sentence == Some(s.speech) && o.state == s.(speech := [], isSpeaking := false)
    ensures Inv(s) ==> Inv(o.state) && !o.state.isSpeaking
  {
    if |s.speech| > 0 then Outcome(s.(speech := [], isSpeaking := false), Some(s.speech)) else Outcome(s, None)
  }

  /** The `i`-th 512-sample window counted from the end of `pcm`. */
  function WindowFromEnd(pcm: seq<real>, i: nat): seq<real>
    requires WindowSamples * (i + 1) <= |pcm|
  {
    pcm[|pcm| - WindowSamples * (i + 1)..|pcm| - WindowSamples * i]
  }

  function Min(a: int, b: int): int {
    if a <= b then a else b
  }

  /** How many windows `has_speech` looks at. */
  function ScannedWindows(n: nat): (m: nat)
    ensures m <= ChunkCount && WindowSamples * m <= n
  {
    Min(n / WindowSamples, ChunkCount)
  }

  /** The processor object: two byte buffers and the speech/silence machine. */
  class Processor {
    var audioBuffer: seq<bv8>
    var speechBuffer: seq<bv8>
    var isSpeaking: bool
    var silenceCounter: nat

    function State(): Segmenter
      reads this
    {
      Segmenter(audioBuffer, speechBuffer, isSpeaking, silenceCounter)
    }

    ghost predicate Valid()
      reads this
    {
      Inv(State())
    }

    constructor ()
      ensures Valid() && State() == Segmenter([], [], false, 0)
    {
      audioBuffer := [];
      speechBuffer := [];
      isSpeaking := false;
      silenceCounter := 0;
    }

    method ProcessStream(chunk: seq<bv8>, vad: seq<bv8> -> bool) returns (result: Option<seq<bv8>>)
      requires Valid()
      modifies this
      ensures Valid()
      ensures Outcome(State(), result) == Process(old(State()), chunk, vad)
    {
      audioBuffer := audioBuffer + chunk;
      while |audioBuffer| >= WindowBytes
        invariant Valid()
        invariant Consume(State(), vad) == Process(old(State()), chunk, vad)
        decreases |audioBuffer|
      {
        ghost var pre := State();
        var window := audioBuffer[..WindowBytes];
        audioBuffer := audioBuffer[WindowBytes..];
        ghost var o := Absorb(State(), window, vad(window));
        AbsorbKeepsInv(State(), window, vad(window));
        assert Consume(pre, vad) == if o.sentence.Some? then o else Consume(o.state, vad);
        if vad(window) {
          isSpeaking := true;
          silenceCounter := 0;
          speechBuffer := speechBuffer + window;
        } else if isSpeaking {
          silenceCounter := silenceCounter + 1;
          if silenceCounter > SilenceTolerance {
            isSpeaking := false;
            silenceCounter := 0;
            result := Some(speechBuffer);
            speechBuffer := [];
            assert Outcome(State(), result) == o;
            return;
          } else {
            speechBuffer := speechBuffer + window;
          }
        }
        assert State() == o.state;
      }
      return None;
    }

    method FlushSpeech() returns (result: Option<seq<bv8>>)
      requires Valid()
      modifies this
      ensures Valid()
      ensures Outcome(State(), result) == Flush(old(State()))
    {
      if |speechBuffer| > 0 {
        result := Some(speechBuffer);
        speechBuffer := [];
        isSpeaking := false;
        return;
      }
      return None;
    }

    /**
     * `has_speech`: false below 512 samples or when the volume gate (`loud`) is closed;
     * otherwise true exactly when the VAD accepts one of the last `min(n div 512, 32)` windows.
     */
    method HasSpeech(pcm: seq<real>, loud: bool, vad: seq<real> -> bool) returns (b: bool)
      ensures b <==>
        |pcm| >= WindowSamples && loud && exists i :: 0 <= i < ScannedWindows(|pcm|) && vad(WindowFromEnd(pcm, i))
    {
      if |pcm| < WindowSamples {
        return false;
      }
      if !loud {
        return false;
      }
      var maxChunks := Min(|pcm| / WindowSamples, ChunkCount);
      for i := 0 to maxChunks
        invariant forall j :: 0 <= j < i ==> !vad(WindowFromEnd(pcm, j))
      {
        var chunk := pcm[|pcm| - WindowSamples * (i + 1)..|pcm| - WindowSamples * i];
        if vad(chunk) {
          assert chunk == WindowFromEnd(pcm, i);
          return true;
        }
      }
      return false;
    }
  }
}
