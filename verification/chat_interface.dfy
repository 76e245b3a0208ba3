/**
 * The chat page's dictation reconciler (`ChatInterface`): the handler that folds the latest
 * timeline entry into the typed text and the ghost preview, the send and stop compositions,
 * the textarea value and its edit, and the render-time normalisation of timeline entries.
 * The 3000 ms "Complete" timers are explicit deadlines fired by `Tick`.
 */
module ChatInterface {
  import opened Wrappers
  import opened Json
  import opened Text
  import opened WebSocketHook
  import opened Seqs

  /** What the handler makes of the latest entry. */
  datatype Event =
    | PreviewEv(text: string)
    | CommitEv(text: string)
    | StatusEv(processing: bool)
    | NoEvent

  /**
   * `data = typeof text === 'object' ? text : JSON.parse(text)`, then a dispatch on
   * `data.type`. Only a plain object can carry `type`; a failed parse and a parse to `null`
   * end in the empty `catch`. A preview or commit whose `text` is not a string is not an event.
   */
  function EventOf(text: Payload, parse: string -> Option<Json>): Event {
    var data :=
      match text
      case Obj(fields) => Some(fields)
      case Str(s) => (if parse(s).Some? && parse(s).value.JObj? then Some(parse(s).value.fields) else None)
      case _ => None;
    if data.None? then NoEvent
    else
      var fields := data.value;
      var kind := Field(fields, "type");
      var text := Field(fields, "text");
      if StrictEq(kind, Some(JStr("preview"))) then
        (if text.Some? && text.value.JStr? then PreviewEv(text.value.s) else NoEvent)
      else if StrictEq(kind, Some(JStr("commit"))) then
        (if text.Some? && text.value.JStr? then CommitEv(text.value.s) else NoEvent)
      else if StrictEq(kind, Some(JStr("status"))) then
        StatusEv(StrictEq(Field(fields, "status"), Some(JStr("processing"))))
      else NoEvent
  }

  /** The committed input: `(prev.trim() + separator + text).trim()` with a space only after non-blank text. */
  function CommitMerge(prev: string, text: string): (r: string)
    ensures Stripped(r, IsJsSpace)
    ensures JsTrim(prev) == [] ==> r == JsTrim(text)
  {
    var head := JsTrim(prev);
    var separator := if head != [] then " " else "";
    var r := JsTrim(head + separator + text);
    StripIsInfix(head + separator + text, IsJsSpace);
    assert head == [] ==> head + separator + text == text;
    r
  }

  /** Committing trimmed text onto trimmed, non-empty text joins the two with exactly one space. */
  lemma CommitJoinsWithOneSpace(prev: string, text: string)
    requires prev != [] && Stripped(prev, IsJsSpace)
    requires text != [] && Stripped(text, IsJsSpace)
    ensures CommitMerge(prev, text) == prev + " " + text
  {
    StripOfStripped(prev, IsJsSpace);
    var joined := prev + " " + text;
    assert joined[0] == prev[0] && joined[|joined| - 1] == text[|text| - 1];
    StripOfStripped(joined, IsJsSpace);
  }

  /** Committing "hello" onto an empty input gives "hello". */
  lemma CommitOntoEmpty()
    ensures CommitMerge("", "hello") == "hello"
  {
    var empty: string := "";
    assert Stripped(empty, IsJsSpace);
    StripOfStripped(empty, IsJsSpace);
    var hello: string := "hello";
    assert Stripped(hello, IsJsSpace);
    StripOfStripped(hello, IsJsSpace);
  }

  /** Committing "world" onto "hello" gives "hello world". */
  lemma CommitOntoText()
    ensures CommitMerge("hello", "world") == "hello world"
  {
    var hello: string := "hello";
    var world: string := "world";
    assert Stripped(hello, IsJsSpace) && Stripped(world, IsJsSpace);
    CommitJoinsWithOneSpace(hello, world);
  }

  /** The dictation state: the five React state fields plus the pending clear timers. */
  datatype Dictation = Dictation(
    inputText: string,
    previewText: string,
    isProcessing: bool,
    completionStatus: bool,
    lastProcessed: Option<nat>,
    clearAt: seq<int>)

  /** The three state updates of one event at time `now`. */
  function ApplyEvent(d: Dictation, ev: Event, now: int): (r: Dictation)
    ensures r.lastProcessed == d.lastProcessed
    ensures ev.PreviewEv? ==> r == d.(previewText := ev.text)
    ensures ev.CommitEv? ==> r == d.(inputText := CommitMerge(d.inputText, ev.text), previewText := "")
    ensures ev.StatusEv? && ev.processing ==> r == d.(isProcessing := true)
    ensures ev.StatusEv? && !ev.processing ==>
      r == d.(isProcessing := false, completionStatus := true, clearAt := d.clearAt + [now + 3000])
    ensures ev.NoEvent? ==> r == d
  {
    match ev
    case PreviewEv(text) => d.(previewText := text)
    case CommitEv(text) => d.(inputText := CommitMerge(d.inputText, text), previewText := "")
    case StatusEv(processing) =>
      if processing then d.(isProcessing := true)
      else d.(isProcessing := false, completionStatus := true, clearAt := d.clearAt + [now + 3000])
    case NoEvent => d
  }

  /** The message-handler effect: only the last entry is looked at, and only once. */
  function Handle(d: Dictation, messages: seq<Entry>, parse: string -> Option<Json>, now: int): Dictation {
    if messages == [] then d
    else
      var last := messages[|messages| - 1];
      if d.lastProcessed == Some(last.id) then d
      else ApplyEvent(d.(lastProcessed := Some(last.id)), EventOf(last.text, parse), now)
  }

  /** Running the effect again on the same list changes nothing: an entry is processed at most once. */
  lemma HandleIdempotent(d: Dictation, messages: seq<Entry>, parse: string -> Option<Json>, now: int, later: int)
    ensures Handle(Handle(d, messages, parse, now), messages, parse, later) == Handle(d, messages, parse, now)
  {
  }

  /**
   * Of two entries arriving before the effect runs, only the second is processed: the
   * effect on `prefix + [a, b]` is the effect on the list that ends at `b` alone.
   */
  lemma HandleSeesOnlyLast(d: Dictation, prefix: seq<Entry>, a: Entry, b: Entry, parse: string -> Option<Json>, now: int)
    ensures Handle(d, prefix + [a, b], parse, now) == Handle(d, [b], parse, now)
  {
  }

  /** What `handleSendText` sends: the typed text and the ghost text joined by a space, trimmed. */
  function SendText(inputText: string, previewText: string): string {
    JsTrim(inputText + (if previewText != [] then " " + previewText else ""))
  }

  /** The textarea value: typed text, then the ghost text separated by a space when both are present. */
  function DisplayValue(inputText: string, previewText: string): string {
    inputText + (if previewText != [] then (if inputText != [] then " " else "") + previewText else "")
  }

  /** What is sent is exactly the trimmed textarea content. */
  lemma SentIsTrimmedDisplay(inputText: string, previewText: string)
    ensures SendText(inputText, previewText) == JsTrim(DisplayValue(inputText, previewText))
  {
    var sent := inputText + (if previewText != [] then " " + previewText else "");
    var shown := DisplayValue(inputText, previewText);
    if previewText != [] && inputText == [] {
      assert sent == [' '] + previewText;
      assert shown == previewText;
      StripLeadingSpace(' ', previewText, IsJsSpace);
    } else {
      assert sent == shown;
    }
  }

  /** When recording stops with ghost text, the typed text becomes the trimmed textarea content. */
  lemma StopFoldIsTrimmedDisplay(inputText: string, previewText: string)
    requires previewText != []
    ensures JsTrim(inputText + " " + previewText) == JsTrim(DisplayValue(inputText, previewText))
  {
    var folded := inputText + " " + previewText;
    var shown := DisplayValue(inputText, previewText);
    if inputText == [] {
      assert folded == [' '] + previewText;
      assert shown == previewText;
      StripLeadingSpace(' ', previewText, IsJsSpace);
    } else {
      assert folded == shown;
    }
  }

  /** How an entry renders. */
  datatype View =
    | Hidden
    | Notice(system: Option<Json>)
    | Bubble(content: map<string, Json>, isMe: bool)

  /**
   * The fallbacks for backend inconsistencies: a falsy `text` takes a truthy `original`, a
   * falsy `lang` takes a truthy `src_lang`.
   */
  function Normalise(content: map<string, Json>): (r: map<string, Json>)
    ensures forall k :: k != "text" && k != "lang" ==> Field(r, k) == Field(content, k)
    ensures Truthy(Field(r, "text")) <==> Truthy(Field(content, "text")) || Truthy(Field(content, "original"))
    ensures Truthy(Field(r, "lang")) <==> Truthy(Field(content, "lang")) || Truthy(Field(content, "src_lang"))
    ensures Truthy(Field(content, "text")) ==> Field(r, "text") == Field(content, "text")
    ensures !Truthy(Field(content, "text")) && Truthy(Field(content, "original")) ==> Field(r, "text") == Field(content, "original")
    ensures Truthy(Field(content, "lang")) ==> Field(r, "lang") == Field(content, "lang")
    ensures !Truthy(Field(content, "lang")) && Truthy(Field(content, "src_lang")) ==> Field(r, "lang") == Field(content, "src_lang")
  {
    var withText :=
      if !Truthy(Field(content, "text")) && Truthy(Field(content, "original")) then content["text" := content["original"]]
      else content;
    if !Truthy(Field(withText, "lang")) && Truthy(Field(withText, "src_lang")) then withText["lang" := withText["src_lang"]]
    else withText
  }

  predicate HiddenType(fields: map<string, Json>) {
    StrictEq(Field(fields, "type"), Some(JStr("preview"))) || StrictEq(Field(fields, "type"), Some(JStr("audio")))
  }

  /** The render of a parsed (or copied) value `raw` for the user `userId`. */
  function RenderRaw(raw: map<string, Json>, userId: string): (r: View)
    ensures HiddenType(raw) <==> r.Hidden?
    ensures !HiddenType(raw) && Truthy(Field(raw, "system")) ==> r == Notice(Field(raw, "system"))
    ensures !HiddenType(raw) && !Truthy(Field(raw, "system")) ==> r.Bubble? && r.content == Normalise(raw)
    ensures r.Bubble? ==> !HiddenType(r.content) && !Truthy(Field(r.content, "system"))
    ensures r.Bubble? ==> (r.isMe <==> StrictEq(Field(r.content, "sender"), Some(JStr(userId))))
  {
    if HiddenType(raw) then Hidden
    else if Truthy(Field(raw, "system")) then Notice(Field(raw, "system"))
    else Bubble(Normalise(raw), StrictEq(Field(raw, "sender"), Some(JStr(userId))))
  }

  /**
   * Rendering one timeline entry. A string that does not parse, or parses to `null`, is
   * shown as a system notice holding the string; a parsed primitive is spread like any value.
   */
  function Render(e: Entry, userId: string, parse: string -> Option<Json>): (r: View)
    ensures r.Bubble? ==> !StrictEq(Field(r.content, "type"), Some(JStr("preview")))
    ensures r.Bubble? ==> !StrictEq(Field(r.content, "type"), Some(JStr("audio")))
    ensures r.Bubble? ==> !Truthy(Field(r.content, "system"))
    ensures r.Bubble? ==> (r.isMe <==> StrictEq(Field(r.content, "sender"), Some(JStr(userId))))
    ensures e.text.Str? && (parse(e.text.s).None? || parse(e.text.s) == Some(JNull)) ==> r == Notice(Some(JStr(e.text.s)))
    ensures e.text.Obj? ==> r == RenderRaw(e.text.fields, userId)
    ensures e.text.Arr? ==> r == RenderRaw(Spread(JArr(e.text.items)), userId)
    ensures e.text.Bytes? ==> r == RenderRaw(map[], userId)
    ensures e.text.Str? && parse(e.text.s).Some? && parse(e.text.s) != Some(JNull) ==>
      r == RenderRaw(Spread(parse(e.text.s).value), userId)
  {
    match e.text
    case Obj(fields) => RenderRaw(fields, userId)
    case Arr(items) => RenderRaw(Spread(JArr(items)), userId)
    case Bytes(_) => RenderRaw(map[], userId)
    case Str(s) =>
      match parse(s)
      case None => Notice(Some(JStr(s)))
      case Some(JNull) => Notice(Some(JStr(s)))
      case Some(v) => RenderRaw(Spread(v), userId)
  }

  /**
   * A chat message as the server relays it (`sender`, `original`, `translated`, `src_lang`,
   * `target_lang`, no `text`, `lang`, `type` or `system`) renders as a bubble whose text is
   * the original and whose language is the source language; it is "mine" exactly when the
   * sender is the user.
   */
  lemma RelayedChatShowsOriginal(e: Entry, userId: string, parse: string -> Option<Json>, sender: string,
                                 original: string, translated: string, srcLang: string, targetLang: string)
    requires original != [] && srcLang != []
    requires e.text == Obj(map["sender" := JStr(sender), "original" := JStr(original), "translated" := JStr(translated),
                               "src_lang" := JStr(srcLang), "target_lang" := JStr(targetLang)])
    ensures var r := Render(e, userId, parse);
      r.Bubble? && Field(r.content, "text") == Some(JStr(original)) && Field(r.content, "lang") == Some(JStr(srcLang)) &&
      Field(r.content, "translated") == Some(JStr(translated)) && (r.isMe <==> sender == userId)
  {
    var raw := e.text.fields;
    assert Field(raw, "type") == None && Field(raw, "system") == None;
    assert Field(raw, "text") == None && Field(raw, "lang") == None;
    assert Field(raw, "original") == Some(JStr(original)) && Field(raw, "src_lang") == Some(JStr(srcLang));
    assert Field(raw, "translated") == Some(JStr(translated)) && Field(raw, "sender") == Some(JStr(sender));
  }

  /** The page's state: the React state fields, the dedup ref and the pending clear timers. */
  class ChatView {
    var inputText: string
    var previewText: string
    var isProcessing: bool
    var completionStatus: bool
    var lastProcessed: Option<nat>
    var clearAt: seq<int>

    function State(): Dictation
      reads this
    {
      Dictation(inputText, previewText, isProcessing, completionStatus, lastProcessed, clearAt)
    }

    constructor ()
      ensures State() == Dictation("", "", false, false, None, [])
    {
      inputText := "";
      previewText := "";
      isProcessing := false;
      completionStatus := false;
      lastProcessed := None;
      clearAt := [];
    }

    /** The message-handler effect, run after the timeline changed, at time `now`. */
    method OnMessages(messages: seq<Entry>, parse: string -> Option<Json>, now: int)
      modifies this
      ensures State() == Handle(old(State()), messages, parse, now)
    {
      if |messages| == 0 {
        return;
      }
      var lastMsg := messages[|messages| - 1];
      if lastProcessed == Some(lastMsg.id) {
        return;
      }
      lastProcessed := Some(lastMsg.id);
      var ev := EventOf(lastMsg.text, parse);
      match ev {
        case PreviewEv(text) =>
          previewText := text;
        case CommitEv(text) =>
          inputText := CommitMerge(inputText, text);
          previewText := "";
        case StatusEv(processing) =>
          isProcessing := processing;
          if !processing {
            completionStatus := true;
            clearAt := clearAt + [now + 3000];
          }
        case NoEvent =>
      }
    }

    /** The timers due by `now` fire; each sets `completionStatus` false. */
    method Tick(now: int)
      modifies this
      ensures clearAt == Later(old(clearAt), now)
      ensures completionStatus == (old(completionStatus) && Later(old(clearAt), now) == old(clearAt))
      ensures inputText == old(inputText) && previewText == old(previewText)
      ensures isProcessing == old(isProcessing) && lastProcessed == old(lastProcessed)
    {
      var remaining := Later(clearAt, now);
      if remaining != clearAt {
        completionStatus := false;
      }
      clearAt := remaining;
    }

    /** `handleSendText`: the value given to `sendJson`, if any. */
    method HandleSendText() returns (out: Option<Json>)
      modifies this
      ensures var t := SendText(old(inputText), old(previewText));
        (t == [] ==> out.None? && inputText == old(inputText) && previewText == old(previewText)) &&
        (t != [] ==> out == Some(JObj(map["text" := JStr(t)])) && inputText == "" && previewText == "")
      ensures isProcessing == old(isProcessing) && completionStatus == old(completionStatus)
      ensures lastProcessed == old(lastProcessed) && clearAt == old(clearAt)
    {
      var finalText := JsTrim(inputText + (if previewText != [] then " " + previewText else ""));
      if finalText == [] {
        return None;
      }
      out := Some(JObj(map["text" := JStr(finalText)]));
      inputText := "";
      previewText := "";
    }

    /** `handleStopRecording`: always sends the stop control; ghost text is folded into the typed text. */
    method HandleStopRecording() returns (out: Json)
      modifies this
      ensures out == JObj(map["type" := JStr("stop_recording")])
      ensures old(previewText) != [] ==>
        inputText == JsTrim(DisplayValue(old(inputText), old(previewText))) && previewText == ""
      ensures old(previewText) == [] ==> inputText == old(inputText) && previewText == old(previewText)
      ensures isProcessing == old(isProcessing) && completionStatus == old(completionStatus)
      ensures lastProcessed == old(lastProcessed) && clearAt == old(clearAt)
    {
      out := JObj(map["type" := JStr("stop_recording")]);
      if previewText != [] {
        StopFoldIsTrimmedDisplay(inputText, previewText);
        inputText := JsTrim(inputText + " " + previewText);
        previewText := "";
      }
    }

    /** The textarea's `value`. */
    function Display(): string
      reads this
    {
      DisplayValue(inputText, previewText)
    }

    /** The textarea's `onChange`: the whole edited value, ghost text included, becomes typed text. */
    method Edit(value: string)
      modifies this
      ensures inputText == value && previewText == "" && Display() == value
      ensures isProcessing == old(isProcessing) && completionStatus == old(completionStatus)
      ensures lastProcessed == old(lastProcessed) && clearAt == old(clearAt)
    {
      inputText := value;
      previewText := "";
    }
  }

  /** The deadlines still pending after time `now`, in order. */
  function Later(deadlines: seq<int>, now: int): (r: seq<int>)
    ensures forall k :: 0 <= k < |r| ==> r[k] > now && r[k] in deadlines
    ensures forall k :: 0 <= k < |deadlines| && deadlines[k] > now ==> deadlines[k] in r
    ensures r == deadlines <==> forall k :: 0 <= k < |deadlines| ==> deadlines[k] > now
    decreases |deadlines|
  {
    if deadlines == [] then []
    else if deadlines[0] > now then [deadlines[0]] + Later(deadlines[1..], now)
    else Later(deadlines[1..], now)
  }

  lemma LaterCons(x: int, t: seq<int>, now: int)
    ensures Later([x] + t, now) == (if x > now then [x] else []) + Later(t, now)
  {
    var s := [x] + t;
    assert s[0] == x && s[1..] == t;
  }

  /**
   * Each timer is kept or dropped on its own and the pending ones stay in the order they
   * were scheduled: a single deadline is kept exactly when it is after `now`, and the
   * filter distributes over concatenation.
   */
  lemma {:induction false} LaterKeepsOrder(a: seq<int>, b: seq<int>, now: int)
    ensures Later(a + b, now) == Later(a, now) + Later(b, now)
    ensures |a| == 1 ==> Later(a, now) == if a[0] > now then a else []
    decreases |a|
  {
    if a == [] {
      assert a + b == b;
    } else {
      var x, t := a[0], a[1..];
      AppendCons(a, b);
      LaterCons(x, t + b, now);
      LaterCons(x, t, now);
      LaterKeepsOrder(t, b, now);
      AppendAssoc(if x > now then [x] else [], Later(t, now), Later(b, now));
      if |a| == 1 {
        assert t == [];
      }
    }
  }

}
