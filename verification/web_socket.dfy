/**
 * The client's socket hook (`useWebSocket`): the connect guard, the open/closed flag, send
 * gating, inbound decoding, and the message timeline with its "attach the audio to the
 * latest message of the same sender" merge. `JSON.parse` is the oracle `parse`; object
 * identity of timeline entries is an explicit `id`.
 */
module WebSocketHook {
  import opened Wrappers
  import opened Json
  import opened Text

  /** `WebSocket.readyState`. */
  datatype ReadyState = Connecting | Open | Closing | Closed

  /** An inbound frame: a text frame or a binary one (delivered as an `ArrayBuffer`). */
  datatype Frame = TextFrame(s: string) | BinaryFrame(data: seq<bv8>)

  /**
   * A decoded inbound item: a parsed object or array, a string kept as received, or binary
   * data. A `JSON.parse` of text starting with `{` or `[` yields an object or an array or
   * throws, so no other parsed shape is kept.
   */
  datatype Payload =
    | Obj(fields: map<string, Json>)
    | Arr(items: seq<Json>)
    | Str(s: string)
    | Bytes(data: seq<bv8>)

  /** A timeline entry `{text, timestamp}`; `id` stands for the identity of the JS object. */
  datatype Entry = Entry(id: nat, text: Payload, timestamp: int)

  /** What the hook transmits: a binary chunk of samples or a JSON value. */
  datatype OutFrame = BinaryOut(samples: seq<real>) | JsonOut(value: Json)

  /** The `onmessage` decode: text starting with `{` or `[` is parsed; anything else, or a failed parse, is kept. */
  function Decode(frame: Frame, parse: string -> Option<Json>): (p: Payload)
    ensures frame.BinaryFrame? ==> p == Bytes(frame.data)
    ensures frame.TextFrame? ==> p.Obj? || p.Arr? || p == Str(frame.s)
    ensures frame.TextFrame? && p.Obj? ==>
      (StartsWith(frame.s, "{") || StartsWith(frame.s, "[")) && parse(frame.s) == Some(JObj(p.fields))
    ensures frame.TextFrame? && p.Arr? ==>
      (StartsWith(frame.s, "{") || StartsWith(frame.s, "[")) && parse(frame.s) == Some(JArr(p.items))
    ensures frame.TextFrame? && (StartsWith(frame.s, "{") || StartsWith(frame.s, "[")) ==>
      (parse(frame.s).Some? && parse(frame.s).value.JObj? ==> p.Obj?)
    ensures frame.TextFrame? && (StartsWith(frame.s, "{") || StartsWith(frame.s, "[")) ==>
      (parse(frame.s).Some? && parse(frame.s).value.JArr? ==> p.Arr?)
  {
    match frame
    case BinaryFrame(data) => Bytes(data)
    case TextFrame(s) =>
      if StartsWith(s, "{") || StartsWith(s, "[") then
        match parse(s)
        case Some(JObj(fields)) => Obj(fields)
        case Some(JArr(items)) => Arr(items)
        case _ => Str(s)
      else Str(s)
  }

  /** `data && data.type === 'audio'`: only a parsed object can carry `type`. */
  predicate IsAudioArtifact(data: Payload) {
    data.Obj? && StrictEq(Field(data.fields, "type"), Some(JStr("audio")))
  }

  /**
   * The `content` the merge derives from an entry's `text`: a spread copy of an object (an
   * array or an `ArrayBuffer` spreads to its index properties or to `{}`); for a string, the
   * result of `JSON.parse`.
   */
  datatype Content =
    | Plain(fields: map<string, Json>)
    | Primitive(v: Json)
    | NullValue
    | Unparseable

  function ContentOf(text: Payload, parse: string -> Option<Json>): Content {
    match text
    case Obj(fields) => Plain(fields)
    case Arr(items) => Plain(Spread(JArr(items)))
    case Bytes(_) => Plain(map[])
    case Str(s) =>
      match parse(s)
      case None => Unparseable
      case Some(JNull) => NullValue
      case Some(JObj(fields)) => Plain(fields)
      case Some(JArr(items)) => Plain(Spread(JArr(items)))
      case Some(v) => Primitive(v)
  }

  /** What the backward scan does at one entry. */
  datatype Probe =
    | Skip                                   // JSON.parse threw: `continue`
    | NoMatch                                // a system notice or another sender
    | Match(fields: map<string, Json>)       // the content with `audio64` set
    | Abort                                  // a TypeError reached the outer `catch`: `return prev`

  /**
   * One step of the scan for an artifact with `sender` and `payload` (each `None` when
   * absent). Reading a property of `null` throws; setting `audio64` on a primitive throws in
   * strict-mode module code. An absent payload leaves `audio64` reading as `undefined`.
   */
  function ProbeEntry(text: Payload, sender: Option<Json>, payload: Option<Json>,
                      parse: string -> Option<Json>): Probe
  {
    match ContentOf(text, parse)
    case Unparseable => Skip
    case NullValue => Abort
    case Primitive(_) => if StrictEq(None, sender) then Abort else NoMatch
    case Plain(fields) =>
      if !Truthy(Field(fields, "system")) && StrictEq(Field(fields, "sender"), sender) then
        Match(if payload.Some? then fields["audio64" := payload.value] else fields - {"audio64"})
      else NoMatch
  }

  predicate Passes(p: Probe) {
    p.Skip? || p.NoMatch?
  }

  /** The scan over entries `n-1` down to `0`; a match becomes a new object `{...msg, text: content}`. */
  function ScanFrom(prev: seq<Entry>, n: nat, sender: Option<Json>, payload: Option<Json>,
                    parse: string -> Option<Json>, freshId: nat): seq<Entry>
    requires n <= |prev|
    decreases n
  {
    if n == 0 then prev
    else
      match ProbeEntry(prev[n - 1].text, sender, payload, parse)
      case Match(fields) => prev[n - 1 := Entry(freshId, Obj(fields), prev[n - 1].timestamp)]
      case Abort => prev
      case _ => ScanFrom(prev, n - 1, sender, payload, parse, freshId)
  }

  /** The `setMessages` updater for an audio artifact. */
  function AttachAudio(prev: seq<Entry>, sender: Option<Json>, payload: Option<Json>,
                       parse: string -> Option<Json>, freshId: nat): seq<Entry>
  {
    ScanFrom(prev, |prev|, sender, payload, parse, freshId)
  }

  /**
   * When entry `j` matches and every later entry is skipped or from someone else, the
   * artifact is attached to entry `j` and every other entry is unchanged.
   */
  lemma {:induction false} ScanAttachesToLatest(prev: seq<Entry>, n: nat, j: nat, sender: Option<Json>,
                                                 payload: Option<Json>, parse: string -> Option<Json>, freshId: nat)
    requires j < n <= |prev|
    requires ProbeEntry(prev[j].text, sender, payload, parse).Match?
    requires forall k :: j < k < n ==> Passes(ProbeEntry(prev[k].text, sender, payload, parse))
    ensures ScanFrom(prev, n, sender, payload, parse, freshId) ==
      prev[j := Entry(freshId, Obj(ProbeEntry(prev[j].text, sender, payload, parse).fields), prev[j].timestamp)]
    decreases n
  {
    if n - 1 != j {
      ScanAttachesToLatest(prev, n - 1, j, sender, payload, parse, freshId);
    }
  }

  /** When no entry matches (and none aborts the scan), the list is returned unchanged and the artifact is dropped. */
  lemma {:induction false} ScanWithoutMatch(prev: seq<Entry>, n: nat, sender: Option<Json>,
                                             payload: Option<Json>, parse: string -> Option<Json>, freshId: nat)
    requires n <= |prev|
    requires forall k :: 0 <= k < n ==> !ProbeEntry(prev[k].text, sender, payload, parse).Match?
    ensures ScanFrom(prev, n, sender, payload, parse, freshId) == prev
    decreases n
  {
    if n > 0 {
      ScanWithoutMatch(prev, n - 1, sender, payload, parse, freshId);
    }
  }

  /**
   * The merge never adds or removes entries; it changes at most one entry, and a changed
   * entry is a new object holding the matched content with the same timestamp.
   */
  lemma {:induction false} ScanChangesAtMostOne(prev: seq<Entry>, n: nat, sender: Option<Json>,
                                                 payload: Option<Json>, parse: string -> Option<Json>, freshId: nat)
    requires n <= |prev|
    ensures var r := ScanFrom(prev, n, sender, payload, parse, freshId);
      |r| == |prev| &&
      (r == prev ||
       exists j :: 0 <= j < n && ProbeEntry(prev[j].text, sender, payload, parse).Match? &&
         r == prev[j := Entry(freshId, Obj(ProbeEntry(prev[j].text, sender, payload, parse).fields), prev[j].timestamp)])
    decreases n
  {
    if n > 0 {
      ScanChangesAtMostOne(prev, n - 1, sender, payload, parse, freshId);
    }
  }

  /**
   * With three messages A (from U1), B (from U2) and C (from U1), an artifact from U1 is
   * attached to C, the latest message of U1, and A and B are left as they are.
   */
  lemma AttachToLatestExample(parse: string -> Option<Json>, payload: Json)
    ensures var a := Entry(0, Obj(map["sender" := JStr("U1"), "text" := JStr("A")]), 10);
      var b := Entry(1, Obj(map["sender" := JStr("U2"), "text" := JStr("B")]), 20);
      var c := Entry(2, Obj(map["sender" := JStr("U1"), "text" := JStr("C")]), 30);
      AttachAudio([a, b, c], Some(JStr("U1")), Some(payload), parse, 7) ==
        [a, b, Entry(7, Obj(map["sender" := JStr("U1"), "text" := JStr("C"), "audio64" := payload]), 30)]
  {
    var a := Entry(0, Obj(map["sender" := JStr("U1"), "text" := JStr("A")]), 10);
    var b := Entry(1, Obj(map["sender" := JStr("U2"), "text" := JStr("B")]), 20);
    var c := Entry(2, Obj(map["sender" := JStr("U1"), "text" := JStr("C")]), 30);
    assert Field(c.text.fields, "sender") == Some(JStr("U1"));
    assert Field(c.text.fields, "system") == None;
    ScanAttachesToLatest([a, b, c], 3, 2, Some(JStr("U1")), Some(payload), parse, 7);
  }

  /**
   * The backward `for` loop of the merge updater over a copy of the list, returning the
   * updated copy at the first hit or `prev` when nothing matches.
   */
  method MergeAudio(prev: seq<Entry>, sender: Option<Json>, payload: Option<Json>,
                    parse: string -> Option<Json>, freshId: nat) returns (next: seq<Entry>)
    ensures next == AttachAudio(prev, sender, payload, parse, freshId)
    ensures |next| == |prev|
  {
    var newParams := prev;
    var i := |prev| - 1;
    while i >= 0
      invariant -1 <= i < |prev|
      invariant newParams == prev
      invariant AttachAudio(prev, sender, payload, parse, freshId) == ScanFrom(prev, i + 1, sender, payload, parse, freshId)
    {
      var msg := newParams[i];
      var probe := ProbeEntry(msg.text, sender, payload, parse);
      if probe.Abort? {
        return prev;
      }
      if probe.Match? {
        newParams := newParams[i := Entry(freshId, Obj(probe.fields), msg.timestamp)];
        return newParams;
      }
      i := i - 1;
    }
    return prev;
  }

  /** The timeline after one inbound frame: an audio artifact is merged, everything else appended. */
  function Receive(prev: seq<Entry>, frame: Frame, parse: string -> Option<Json>, freshId: nat, now: int): seq<Entry> {
    var data := Decode(frame, parse);
    if IsAudioArtifact(data) then
      AttachAudio(prev, Field(data.fields, "sender"), Field(data.fields, "payload"), parse, freshId)
    else prev + [Entry(freshId, data, now)]
  }

  /**
   * An audio artifact never grows the list; every other inbound item (previews, commits,
   * status, system notices, binary data) is appended at the end as a new entry.
   */
  lemma ReceiveShape(prev: seq<Entry>, frame: Frame, parse: string -> Option<Json>, freshId: nat, now: int)
    ensures var data := Decode(frame, parse);
      IsAudioArtifact(data) ==> |Receive(prev, frame, parse, freshId, now)| == |prev|
    ensures var data := Decode(frame, parse);
      !IsAudioArtifact(data) ==> Receive(prev, frame, parse, freshId, now) == prev + [Entry(freshId, data, now)]
  {
    var data := Decode(frame, parse);
    if IsAudioArtifact(data) {
      ScanChangesAtMostOne(prev, |prev|, Field(data.fields, "sender"), Field(data.fields, "payload"), parse, freshId);
    }
  }

  /** Entry identities are distinct and below the allocator. */
  predicate IdsBelow(entries: seq<Entry>, nextId: nat) {
    (forall k :: 0 <= k < |entries| ==> entries[k].id < nextId) &&
    (forall i, j :: 0 <= i < j < |entries| ==> entries[i].id != entries[j].id)
  }

  /** Receiving keeps entry identities distinct, given a fresh identity for the new or merged entry. */
  lemma ReceiveKeepsIdsDistinct(prev: seq<Entry>, frame: Frame, parse: string -> Option<Json>, freshId: nat, now: int)
    requires IdsBelow(prev, freshId)
    ensures IdsBelow(Receive(prev, frame, parse, freshId, now), freshId + 1)
  {
    var data := Decode(frame, parse);
    var r := Receive(prev, frame, parse, freshId, now);
    if IsAudioArtifact(data) {
      ScanChangesAtMostOne(prev, |prev|, Field(data.fields, "sender"), Field(data.fields, "payload"), parse, freshId);
      if r != prev {
        var j :| 0 <= j < |prev| && r == prev[j := Entry(freshId, r[j].text, prev[j].timestamp)];
        forall i, k | 0 <= i < k < |r|
          ensures r[i].id != r[k].id
        {
          if i != j && k != j {
            assert r[i] == prev[i] && r[k] == prev[k];
          }
        }
      }
    } else {
      assert r == prev + [Entry(freshId, data, now)];
      forall i, k | 0 <= i < k < |r|
        ensures r[i].id != r[k].id
      {
        if k < |prev| {
          assert r[i] == prev[i] && r[k] == prev[k];
        }
      }
    }
  }

  /** The hook's state: every socket it created (the last is `socketRef.current`), its React state, and what it sent. */
  class SocketHook {
    var sockets: seq<ReadyState>
    var isConnected: bool
    var messages: seq<Entry>
    var nextId: nat
    var sent: seq<OutFrame>
    var warnings: nat

    ghost predicate Valid()
      reads this
    {
      IdsBelow(messages, nextId)
    }

    constructor ()
      ensures Valid() && sockets == [] && !isConnected && messages == [] && sent == [] && warnings == 0
    {
      sockets := [];
      isConnected := false;
      messages := [];
      nextId := 0;
      sent := [];
      warnings := 0;
    }

    /** `socketRef.current?.readyState === WebSocket.OPEN`. */
    predicate CurrentOpen()
      reads this
    {
      sockets != [] && sockets[|sockets| - 1] == Open
    }

    /** `connect`: a no-op only while the current socket is open; otherwise a new socket replaces the reference. */
    method Connect()
      requires Valid()
      modifies this
      ensures Valid()
      ensures old(CurrentOpen()) ==> sockets == old(sockets)
      ensures !old(CurrentOpen()) ==> sockets == old(sockets) + [Connecting]
      ensures isConnected == old(isConnected) && messages == old(messages) && sent == old(sent)
      ensures nextId == old(nextId) && warnings == old(warnings)
    {
      if CurrentOpen() {
        return;
      }
      sockets := sockets + [Connecting];
    }

    /** `disconnect`: `close()` on the current socket, which then reports its closure through `onclose`. */
    method Disconnect()
      requires Valid()
      modifies this
      ensures Valid()
      ensures |sockets| == |old(sockets)|
      ensures sockets != [] ==> var last := |sockets| - 1;
        sockets == old(sockets)[last := if old(sockets)[last] in {Connecting, Open} then Closing else old(sockets)[last]]
      ensures isConnected == old(isConnected) && messages == old(messages) && sent == old(sent)
      ensures nextId == old(nextId) && warnings == old(warnings)
    {
      if sockets != [] {
        var last := |sockets| - 1;
        if sockets[last] == Connecting || sockets[last] == Open {
          sockets := sockets[last := Closing];
        }
      }
    }

    /** `onopen` of socket `k`, which may be an older socket than the current one. */
    method OnOpen(k: nat)
      requires Valid() && k < |sockets| && sockets[k] == Connecting
      modifies this
      ensures Valid()
      ensures sockets == old(sockets)[k := Open] && isConnected
      ensures messages == old(messages) && sent == old(sent) && nextId == old(nextId) && warnings == old(warnings)
    {
      sockets := sockets[k := Open];
      isConnected := true;
    }

    /** `onclose` of socket `k`; there is no `onerror` handler, an error is followed by a close. */
    method OnClose(k: nat)
      requires Valid() && k < |sockets| && sockets[k] != Closed
      modifies this
      ensures Valid()
      ensures sockets == old(sockets)[k := Closed] && !isConnected
      ensures messages == old(messages) && sent == old(sent) && nextId == old(nextId) && warnings == old(warnings)
    {
      sockets := sockets[k := Closed];
      isConnected := false;
    }

    /** `onmessage` of socket `k` at time `now`. */
    method OnMessage(k: nat, frame: Frame, parse: string -> Option<Json>, now: int)
      requires Valid() && k < |sockets| && sockets[k] == Open
      modifies this
      ensures Valid()
      ensures messages == Receive(old(messages), frame, parse, old(nextId), now)
      ensures nextId == old(nextId) + 1
      ensures sockets == old(sockets) && isConnected == old(isConnected)
      ensures sent == old(sent) && warnings == old(warnings)
    {
      var data := Decode(frame, parse);
      var freshId := nextId;
      ReceiveKeepsIdsDistinct(messages, frame, parse, freshId, now);
      if IsAudioArtifact(data) {
        messages := MergeAudio(messages, Field(data.fields, "sender"), Field(data.fields, "payload"), parse, freshId);
      } else {
        messages := messages + [Entry(freshId, data, now)];
      }
      nextId := nextId + 1;
    }

    /** `sendBytes`: transmitted only while the current socket is open; otherwise a warning and no change. */
    method SendBytes(samples: seq<real>)
      requires Valid()
      modifies this
      ensures Valid()
      ensures old(CurrentOpen()) ==> sent == old(sent) + [BinaryOut(samples)] && warnings == old(warnings)
      ensures !old(CurrentOpen()) ==> sent == old(sent) && warnings == old(warnings) + 1
      ensures sockets == old(sockets) && isConnected == old(isConnected)
      ensures messages == old(messages) && nextId == old(nextId)
    {
      if CurrentOpen() {
        sent := sent + [BinaryOut(samples)];
      } else {
        warnings := warnings + 1;
      }
    }

    /** `sendJson`: transmitted only while the current socket is open; otherwise a warning and no change. */
    method SendJson(value: Json)
      requires Valid()
      modifies this
      ensures Valid()
      ensures old(CurrentOpen()) ==> sent == old(sent) + [JsonOut(value)] && warnings == old(warnings)
      ensures !old(CurrentOpen()) ==> sent == old(sent) && warnings == old(warnings) + 1
      ensures sockets == old(sockets) && isConnected == old(isConnected)
      ensures messages == old(messages) && nextId == old(nextId)
    {
      if CurrentOpen() {
        sent := sent + [JsonOut(value)];
      } else {
        warnings := warnings + 1;
      }
    }
  }
}
