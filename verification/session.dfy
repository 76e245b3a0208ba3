/**
 * The per-connection streaming rules of the `/ws/{role}/{user_id}` endpoint: the PCM
 * buffer, the throttled preview, the silence commit, the language state, the stop flush
 * and the relay of typed text. Time, the speech verdict, the state of the transcription
 * lock, `json.loads`, translation and text-to-speech are inputs; transcriptions and sends
 * are emitted as actions, and the results of background transcriptions come back as events.
 */
module Session {
  import opened Wrappers
  import opened Json
  import opened Text
  import ConnectionManager

  /** 16 kHz float32 audio: 240000 samples (15 s) for a preview, more than 16000 samples (1 s) for a commit. */
  const PreviewBytes: nat := 4 * 16000 * 15
  const CommitSamples: nat := 16000

  /** What the endpoint's loop receives, plus the completions of the transcriptions it started. */
  datatype Event =
    | Binary(bytes: seq<bv8>)
    | Text(text: string)
    | Closed
    | PreviewDone(transcript: string, detected: string)   // `run_preview` finished
    | CommitDone(transcript: string)                      // `process_commit` finished
    | FlushDone(transcript: string)                       // the awaited stop transcription finished

  /** What the endpoint does. */
  datatype Action =
    | StartPreview(audio: seq<bv8>, lang: Option<string>)       // `create_task(run_preview(...))`
    | StartCommit(audio: seq<bv8>, lang: Option<string>)        // `create_task(process_commit(...))`
    | TranscribeStop(audio: seq<bv8>, lang: Option<string>)     // the awaited stop transcription
    | Reply(message: Json)                                      // `websocket.send_json`
    | ToPartner(message: Json)                                  // `manager.send_to_partner`
    | SetUserLang(newLang: string)                              // `manager.update_user_lang`
    | Leave                                                     // `manager.disconnect(user_id)`
    | Crash                                                     // an exception other than a disconnect ends the endpoint

  /** The inputs of one step besides the event. */
  datatype Env = Env(
    now: real,
    speaking: bool,                                  // `has_speech(...) or max_amp > 0.01`
    lockFree: bool,                                  // `not transcription_lock.locked()`
    parse: string -> Option<Json>,                   // `json.loads`; `None` when it raises
    translate: (string, string, string) -> string,   // `translate_text(text, src, target)`
    tts: (string, string) -> Option<string>)         // `generate_audio_sync(text, lang)`

  /**
   * The loop's local state: `trans_lang`, the sticky `session_state["lang"]`, `pcm_chunks`,
   * and the `last_preview_time` / `last_speech_time` attributes set on the socket.
   */
  datatype Stream = Stream(
    transLang: Option<string>,
    sticky: Option<string>,
    chunks: seq<seq<bv8>>,
    lastPreview: real,
    lastSpeech: Option<real>)

  datatype Step = Step(state: Stream, actions: seq<Action>)

  /** The state when the connection is set up with the query parameter `lang`. */
  function Initial(lang: string): (s: Stream)
    ensures lang == "auto" ==> s.transLang.None?
    ensures lang != "auto" ==> s.transLang == Some(lang)
    ensures s.sticky.None? && s.chunks == [] && s.lastSpeech.None?
  {
    Stream(if lang == "auto" then None else Some(lang), None, [], 0.0, None)
  }

  /** `b"".join(pcm_chunks)`. */
  function Join(chunks: seq<seq<bv8>>): seq<bv8>
    decreases |chunks|
  {
    if chunks == [] then [] else Join(chunks[..|chunks| - 1]) + chunks[|chunks| - 1]
  }

  /** `trans_lang if trans_lang else session_state["lang"]`. */
  function EffectiveLang(s: Stream): (l: Option<string>)
    ensures s.transLang.Some? && s.transLang.value != "" ==> l == s.transLang
    ensures !(s.transLang.Some? && s.transLang.value != "") ==> l == s.sticky
  {
    if s.transLang.Some? && s.transLang.value != "" then s.transLang else s.sticky
  }

  /** The last `n` elements of `s` (`s[-n:]` when longer). */
  function Tail(s: seq<bv8>, n: nat): (r: seq<bv8>)
    ensures |r| == if |s| > n then n else |s|
    ensures r == s[|s| - |r|..]
  {
    if |s| > n then s[|s| - n..] else s
  }

  /** The translation target: the partner's language, or "en" without a partner. */
  function TargetLang(m: ConnectionManager.Manager, userId: string): string {
    if userId in m.pairs && m.pairs[userId] != "" then ConnectionManager.UserLang(m, m.pairs[userId]) else "en"
  }

  /** A binary frame: ignored unless a non-empty whole number of float32 samples; then the preview or commit rule. */
  function OnBinary(s: Stream, b: seq<bv8>, env: Env): Step {
    if |b| == 0 || |b| % 4 != 0 then Step(s, [])
    else
      var chunks := s.chunks + [b];
      var audio := Join(chunks);
      if env.speaking then
        var preview := env.now - s.lastPreview > 0.5 && env.lockFree;
        var s1 := s.(chunks := chunks, lastSpeech := Some(env.now));
        if preview then
          Step(s1.(lastPreview := env.now), [StartPreview(Tail(audio, PreviewBytes), EffectiveLang(s))])
        else Step(s1, [])
      else
        var since := s.lastSpeech.GetOr(env.now);
        if env.now - since > 1.2 && |audio| / 4 > CommitSamples then
          Step(s.(chunks := [], lastSpeech := Some(env.now), sticky := None), [StartCommit(audio, EffectiveLang(s))])
        else Step(s.(chunks := chunks, lastSpeech := Some(since)), [])
  }

  function SystemMessage(text: string): Json {
    JObj(map["system" := JStr(text)])
  }

  /** `{"type": kind, "text": text}`. */
  function Typed(kind: string, text: string): Json {
    JObj(map["type" := JStr(kind), "text" := JStr(text)])
  }

  /** A chat message from this user: its translation, then the audio of the translation when there is one. */
  function OnChatText(userId: string, lang: string, actual: string, target: string, env: Env): seq<Action> {
    var translated := env.translate(actual, lang, target);
    var audio := if translated == "" then None else env.tts(translated, target);
    var payload := JObj(map["sender" := JStr(userId), "original" := JStr(actual), "translated" := JStr(translated),
                            "src_lang" := JStr(lang), "target_lang" := JStr(target)]);
    [Reply(payload), ToPartner(payload)] +
    (if audio.Some? && audio.value != "" then
       var artifact := JObj(map["type" := JStr("audio"), "payload" := JStr(audio.value), "sender" := JStr(userId)]);
       [Reply(artifact), ToPartner(artifact)]
     else [])
  }

  /** `json.loads(raw)`, or `{"text": raw}` when it raises. */
  function Parsed(raw: string, parse: string -> Option<Json>): Json {
    if parse(raw).None? then JObj(map["text" := JStr(raw)]) else parse(raw).value
  }

  /** `stop_recording`: the buffered audio, if any, is taken out and transcribed. */
  function OnStop(s: Stream): Step {
    if s.chunks == [] then Step(s, [])
    else Step(s.(chunks := []), [TranscribeStop(Join(s.chunks), EffectiveLang(s))])
  }

  /** `language_change` to a non-empty `l`: "auto" clears both languages, anything else sets both. */
  function OnLanguage(s: Stream, l: string): Step {
    var s1 := if l == "auto" then s.(transLang := None, sticky := None) else s.(transLang := Some(l), sticky := Some(l));
    Step(s1, [SetUserLang(l), Reply(SystemMessage("Language switched to " + l))])
  }

  /** A parsed text frame that is an object: stop, language change, or a chat message. */
  function OnCommand(s: Stream, userId: string, lang: string, target: string, fields: map<string, Json>, env: Env): Step {
    if Field(fields, "type") == Some(JStr("stop_recording")) then OnStop(s)
    else if Field(fields, "type") == Some(JStr("language_change")) then
      var newLang := Field(fields, "lang");
      if newLang.Some? && newLang.value.JStr? && newLang.value.s != "" then OnLanguage(s, newLang.value.s)
      else Step(s, [])
    else if "text" in fields then
      if !fields["text"].JStr? then Step(s, [Crash])
      else if PyStrip(fields["text"].s) == "" then Step(s, [])
      else Step(s, OnChatText(userId, lang, fields["text"].s, target, env))
    else Step(s, [])
  }

  /** A text frame; anything but an object after parsing raises inside the loop. */
  function OnText(s: Stream, userId: string, lang: string, target: string, raw: string, env: Env): Step {
    var parsed := Parsed(raw, env.parse);
    if !parsed.JObj? then Step(s, [Crash]) else OnCommand(s, userId, lang, target, parsed.fields, env)
  }

  /** One event for the connection of `userId` opened with `lang`, given the manager's state `m`. */
  function OnEvent(s: Stream, userId: string, lang: string, m: ConnectionManager.Manager, ev: Event, env: Env): Step {
    match ev
    case Closed => Step(s, [Leave])
    case Binary(b) => OnBinary(s, b, env)
    case Text(t) => OnText(s, userId, lang, TargetLang(m, userId), t, env)
    case PreviewDone(transcript, detected) =>
      if transcript == "" then Step(s, [])
      else
        var stuck := s.sticky.Some? && s.sticky.value != "";
        Step(if detected != "" && !stuck then s.(sticky := Some(detected)) else s, [Reply(Typed("preview", transcript))])
    case CommitDone(transcript) => Step(s, if transcript == "" then [] else [Reply(Typed("commit", transcript))])
    case FlushDone(transcript) => Step(s, if transcript == "" then [] else [Reply(Typed("preview", transcript))])
  }

  /** A binary frame that is empty or not a whole number of float32 samples changes nothing. */
  lemma PartialSampleIgnored(s: Stream, b: seq<bv8>, env: Env)
    requires |b| == 0 || |b| % 4 != 0
    ensures OnBinary(s, b, env) == Step(s, [])
  {
  }

  /**
   * While speaking, a preview of at most the last 240000 samples starts only when more than
   * half a second has passed since the last one and the lock is free; the chunk is kept and
   * `last_speech_time` becomes `now` either way.
   */
  lemma PreviewThrottle(s: Stream, b: seq<bv8>, env: Env)
    requires |b| > 0 && |b| % 4 == 0 && env.speaking
    ensures var r := OnBinary(s, b, env);
      r.state.chunks == s.chunks + [b] && r.state.lastSpeech == Some(env.now) &&
      r.state.transLang == s.transLang && r.state.sticky == s.sticky
    ensures var r := OnBinary(s, b, env);
      (r.actions != [] <==> env.now - s.lastPreview > 0.5 && env.lockFree)
    ensures var r := OnBinary(s, b, env);
      r.actions != [] ==>
        r.actions == [StartPreview(Tail(Join(s.chunks + [b]), PreviewBytes), EffectiveLang(s))] &&
        |r.actions[0].audio| <= PreviewBytes && r.state.lastPreview == env.now
  {
  }

  /**
   * On silence, the whole buffer is committed only after more than 1.2 s without speech and
   * with more than 16000 samples; then the buffer is emptied, `last_speech_time` is `now`
   * and the sticky language is forgotten. Otherwise the chunk is kept.
   */
  lemma SilenceCommit(s: Stream, b: seq<bv8>, env: Env)
    requires |b| > 0 && |b| % 4 == 0 && !env.speaking
    ensures var r := OnBinary(s, b, env);
      var audio := Join(s.chunks + [b]);
      var fires := s.lastSpeech.Some? && env.now - s.lastSpeech.value > 1.2 && |audio| / 4 > CommitSamples;
      (fires ==> r.state.chunks == [] && r.state.lastSpeech == Some(env.now) && r.state.sticky.None? &&
                 r.actions == [StartCommit(audio, EffectiveLang(s))]) &&
      (!fires ==> r.state.chunks == s.chunks + [b] && r.actions == [] && r.state.sticky == s.sticky)
  {
  }

  /** The first silent frame without any earlier speech starts the silence clock and never commits. */
  lemma FirstSilenceStartsClock(s: Stream, b: seq<bv8>, env: Env)
    requires |b| > 0 && |b| % 4 == 0 && !env.speaking && s.lastSpeech.None?
    ensures OnBinary(s, b, env) == Step(s.(chunks := s.chunks + [b], lastSpeech := Some(env.now)), [])
  {
  }

  /**
   * `language_change` to "auto" clears the requested and the sticky language; any other
   * non-empty value sets both. Either way the manager is told and a notice is sent.
   */
  lemma LanguageChange(s: Stream, userId: string, lang: string, target: string, raw: string, env: Env, l: string)
    requires env.parse(raw) == Some(JObj(map["type" := JStr("language_change"), "lang" := JStr(l)]))
    requires l != ""
    ensures var r := OnText(s, userId, lang, target, raw, env);
      r.actions == [SetUserLang(l), Reply(SystemMessage("Language switched to " + l))] &&
      r.state.chunks == s.chunks &&
      (l == "auto" ==> r.state.transLang.None? && r.state.sticky.None? && EffectiveLang(r.state).None?) &&
      (l != "auto" ==> r.state.transLang == Some(l) && r.state.sticky == Some(l) && EffectiveLang(r.state) == Some(l))
  {
    var fields := map["type" := JStr("language_change"), "lang" := JStr(l)];
    assert Field(fields, "type") != Some(JStr("stop_recording"));
    assert Field(fields, "lang") == Some(JStr(l));
  }

  /** `stop_recording` with buffered audio empties the buffer and transcribes it for a preview, never a commit. */
  lemma StopFlushesAsPreview(s: Stream, userId: string, lang: string, target: string, raw: string, m: ConnectionManager.Manager, env: Env)
    requires env.parse(raw) == Some(JObj(map["type" := JStr("stop_recording")]))
    ensures var r := OnText(s, userId, lang, target, raw, env);
      r.state == s.(chunks := []) &&
      (s.chunks != [] ==> r.actions == [TranscribeStop(Join(s.chunks), EffectiveLang(s))]) &&
      (s.chunks == [] ==> r.actions == [])
    ensures forall t :: (OnEvent(s, userId, lang, m, FlushDone(t), env).actions ==
      if t == "" then [] else [Reply(Typed("preview", t))])
  {
  }

  /**
   * Text that `json.loads` rejects is a chat message with that text; one that is blank
   * after `strip()` is ignored; otherwise the translation is sent to the sender and the
   * partner, followed by the audio only when text-to-speech returned some.
   */
  lemma RawTextIsChat(s: Stream, userId: string, lang: string, target: string, raw: string, env: Env)
    requires env.parse(raw).None?
    ensures var r := OnText(s, userId, lang, target, raw, env);
      r.state == s &&
      (PyStrip(raw) == "" ==> r.actions == []) &&
      (PyStrip(raw) != "" ==> r.actions == OnChatText(userId, lang, raw, target, env))
  {
    var fields := map["text" := JStr(raw)];
    assert Field(fields, "type") == None;
  }

  /** The relay: text and translation to both ends, the audio artifact only when text-to-speech produced one. */
  lemma ChatRelay(userId: string, lang: string, actual: string, target: string, env: Env)
    ensures var acts := OnChatText(userId, lang, actual, target, env);
      var translated := env.translate(actual, lang, target);
      var audio := if translated == "" then None else env.tts(translated, target);
      |acts| == (if audio.Some? && audio.value != "" then 4 else 2) &&
      acts[0].Reply? && acts[1] == ToPartner(acts[0].message) &&
      acts[0].message == JObj(map["sender" := JStr(userId), "original" := JStr(actual), "translated" := JStr(translated),
                                  "src_lang" := JStr(lang), "target_lang" := JStr(target)]) &&
      (|acts| == 4 ==>
        acts[2] == Reply(JObj(map["type" := JStr("audio"), "payload" := JStr(audio.value), "sender" := JStr(userId)])) &&
        acts[3] == ToPartner(acts[2].message))
  {
  }

  /** The target language is the partner's, or "en" for an unpaired user or a partner that is gone. */
  lemma TargetIsPartnerLang(m: ConnectionManager.Manager, userId: string)
    ensures userId !in m.pairs ==> TargetLang(m, userId) == "en"
    ensures userId in m.pairs && m.pairs[userId] != "" && m.pairs[userId] in m.connections ==>
      TargetLang(m, userId) == m.connections[m.pairs[userId]].lang
    ensures userId in m.pairs && m.pairs[userId] !in m.connections ==> TargetLang(m, userId) == "en"
  {
  }

  /** A preview result fixes the sticky language only when none is set yet; the requested language still wins. */
  lemma StickyLanguage(s: Stream, userId: string, lang: string, m: ConnectionManager.Manager, t: string, d: string, env: Env)
    requires t != "" && d != ""
    ensures var r := OnEvent(s, userId, lang, m, PreviewDone(t, d), env);
      (s.sticky.None? ==> r.state.sticky == Some(d)) &&
      (s.sticky.Some? && s.sticky.value != "" ==> r.state.sticky == s.sticky) &&
      (s.transLang.Some? && s.transLang.value != "" ==> EffectiveLang(r.state) == s.transLang)
  {
  }

  /** Every buffered chunk is a non-empty whole number of float32 samples. */
  predicate WholeSamples(chunks: seq<seq<bv8>>) {
    forall i :: 0 <= i < |chunks| ==> |chunks[i]| > 0 && |chunks[i]| % 4 == 0
  }

  /** Audio handed to the transcriber: a whole number of float32 samples, so `np.frombuffer` accepts it. */
  predicate WholeAudio(a: Action) {
    (a.StartPreview? || a.StartCommit? || a.TranscribeStop?) ==> |a.audio| % 4 == 0
  }

  lemma {:induction false} JoinWholeSamples(chunks: seq<seq<bv8>>)
    requires WholeSamples(chunks)
    ensures |Join(chunks)| % 4 == 0
    ensures |Join(chunks)| >= 4 * |chunks|
    decreases |chunks|
  {
    if chunks != [] {
      var init := chunks[..|chunks| - 1];
      assert WholeSamples(init) by {
        forall i | 0 <= i < |init| ensures |init[i]| > 0 && |init[i]| % 4 == 0 {
          assert init[i] == chunks[i];
        }
      }
      JoinWholeSamples(init);
      assert |Join(chunks)| == |Join(init)| + |chunks[|chunks| - 1]|;
    }
  }

  /** A step after which the buffer is still whole samples and every transcription gets whole samples. */
  predicate WholeStep(r: Step) {
    WholeSamples(r.state.chunks) && forall k :: 0 <= k < |r.actions| ==> WholeAudio(r.actions[k])
  }

  /** A binary frame keeps the buffer made of whole samples and hands the transcriber whole samples. */
  lemma BinaryKeepsWholeSamples(s: Stream, b: seq<bv8>, env: Env)
    requires WholeSamples(s.chunks)
    ensures WholeStep(OnBinary(s, b, env))
  {
    if |b| > 0 && |b| % 4 == 0 {
      var chunks := s.chunks + [b];
      assert WholeSamples(chunks) by {
        forall i | 0 <= i < |chunks| ensures |chunks[i]| > 0 && |chunks[i]| % 4 == 0 {
          if i < |s.chunks| { assert chunks[i] == s.chunks[i]; }
        }
      }
      JoinWholeSamples(chunks);
      var audio := Join(chunks);
      if |audio| > PreviewBytes {
        assert |audio| - PreviewBytes == 4 * ((|audio| - PreviewBytes) / 4);
      }
    }
  }

  /** Chat messages only send: they never touch the audio. */
  lemma ChatTextOnlySends(userId: string, lang: string, actual: string, target: string, env: Env)
    ensures var acts := OnChatText(userId, lang, actual, target, env);
      forall k :: 0 <= k < |acts| ==> acts[k].Reply? || acts[k].ToPartner?
  {
  }

  /** The stop flush hands over the whole buffer and empties it. */
  lemma StopKeepsWholeSamples(s: Stream)
    requires WholeSamples(s.chunks)
    ensures WholeStep(OnStop(s))
  {
    JoinWholeSamples(s.chunks);
  }

  /** A parsed command never adds to the buffer; the stop flush hands over the whole buffer. */
  lemma CommandKeepsWholeSamples(s: Stream, userId: string, lang: string, target: string, fields: map<string, Json>, env: Env)
    requires WholeSamples(s.chunks)
    ensures WholeStep(OnCommand(s, userId, lang, target, fields, env))
  {
    if Field(fields, "type") == Some(JStr("stop_recording")) {
      StopKeepsWholeSamples(s);
    } else if Field(fields, "type") == Some(JStr("language_change")) {
      var newLang := Field(fields, "lang");
      if newLang.Some? && newLang.value.JStr? && newLang.value.s != "" {
        assert WholeStep(OnLanguage(s, newLang.value.s));
      }
    } else if "text" in fields && fields["text"].JStr? && PyStrip(fields["text"].s) != "" {
      ChatTextOnlySends(userId, lang, fields["text"].s, target, env);
      assert WholeStep(Step(s, OnChatText(userId, lang, fields["text"].s, target, env)));
    }
  }

  /** A text frame never adds to the buffer; the stop flush hands over the whole buffer. */
  lemma TextKeepsWholeSamples(s: Stream, userId: string, lang: string, target: string, raw: string, env: Env)
    requires WholeSamples(s.chunks)
    ensures WholeStep(OnText(s, userId, lang, target, raw, env))
  {
    var parsed := Parsed(raw, env.parse);
    if parsed.JObj? {
      CommandKeepsWholeSamples(s, userId, lang, target, parsed.fields, env);
    }
  }

  /**
   * The check on the frame length keeps the buffer made of whole samples, and then every
   * transcription (preview, commit, stop flush) receives a whole number of samples.
   */
  lemma KeepsWholeSamples(s: Stream, userId: string, lang: string, m: ConnectionManager.Manager, ev: Event, env: Env)
    requires WholeSamples(s.chunks)
    ensures WholeStep(OnEvent(s, userId, lang, m, ev, env))
  {
    match ev {
      case Binary(b) => BinaryKeepsWholeSamples(s, b, env);
      case Text(t) => TextKeepsWholeSamples(s, userId, lang, TargetLang(m, userId), t, env);
      case _ =>
    }
  }

  /** The endpoint's loop for one connection: its local variables and whether it still runs. */
  class Endpoint {
    const userId: string
    const lang: string
    var transLang: Option<string>
    var sticky: Option<string>
    var pcmChunks: seq<seq<bv8>>
    var lastPreviewTime: real
    var lastSpeechTime: Option<real>
    var running: bool

    function State(): Stream
      reads this
    {
      Stream(transLang, sticky, pcmChunks, lastPreviewTime, lastSpeechTime)
    }

    constructor (userId: string, lang: string)
      ensures this.userId == userId && this.lang == lang && running && State() == Initial(lang)
      ensures WholeSamples(pcmChunks)
    {
      this.userId := userId;
      this.lang := lang;
      transLang := if lang == "auto" then None else Some(lang);
      sticky := None;
      pcmChunks := [];
      lastPreviewTime := 0.0;
      lastSpeechTime := None;
      running := true;
    }

    /** A binary frame: the buffer, the speech clock and the preview clock, updated in place. */
    method HandleBinary(b: seq<bv8>, env: Env) returns (actions: seq<Action>)
      modifies this
      ensures Step(State(), actions) == OnBinary(old(State()), b, env)
    {
      actions := [];
      if |b| == 0 || |b| % 4 != 0 {
        return;
      }
      pcmChunks := pcmChunks + [b];
      var audio := Join(pcmChunks);
      if env.speaking {
        if env.now - lastPreviewTime > 0.5 && env.lockFree {
          var effective := if transLang.Some? && transLang.value != "" then transLang else sticky;
          lastPreviewTime := env.now;
          actions := [StartPreview(Tail(audio, PreviewBytes), effective)];
        }
        lastSpeechTime := Some(env.now);
      } else {
        if lastSpeechTime.None? {
          lastSpeechTime := Some(env.now);
        }
        if env.now - lastSpeechTime.value > 1.2 && |audio| / 4 > CommitSamples {
          var effective := if transLang.Some? && transLang.value != "" then transLang else sticky;
          actions := [StartCommit(audio, effective)];
          pcmChunks := [];
          lastSpeechTime := Some(env.now);
          sticky := None;
        }
      }
    }

    /** One turn of the loop (or the completion of a background transcription). */
    method Handle(ev: Event, m: ConnectionManager.Manager, env: Env) returns (actions: seq<Action>)
      requires running && WholeSamples(pcmChunks)
      modifies this
      ensures WholeSamples(pcmChunks) && forall k :: 0 <= k < |actions| ==> WholeAudio(actions[k])
      ensures Step(State(), actions) == OnEvent(old(State()), userId, lang, m, ev, env)
      ensures running <==> Leave !in actions && Crash !in actions
    {
      KeepsWholeSamples(State(), userId, lang, m, ev, env);
      if ev.Binary? {
        actions := HandleBinary(ev.bytes, env);
      } else {
        var r := OnEvent(State(), userId, lang, m, ev, env);
        transLang, sticky, pcmChunks, lastPreviewTime, lastSpeechTime :=
          r.state.transLang, r.state.sticky, r.state.chunks, r.state.lastPreview, r.state.lastSpeech;
        actions := r.actions;
      }
      running := Leave !in actions && Crash !in actions;
    }
  }
}
