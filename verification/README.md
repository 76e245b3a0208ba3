# Live dictation and translated chat: a verified model of its core

The system is a customer-support chat with live dictation and translation.
- **Browser client.**
  - It captures microphone audio and streams it to the server as float32 PCM chunks.
  - It keeps a timeline of inbound messages.
  - It folds live transcription previews and commits into a dictation box.
  - Text-to-speech audio is attached to the chat message it belongs to.
- **Server.**
  - It pairs customers with employees: a pool of free employees and a FIFO queue of waiting customers.
  - It keeps an account store with an approval gate.
  - It segments audio into sentences with a voice-activity detector.
  - For every connection it runs a loop that decides when to transcribe a preview, when to commit a sentence, which language to transcribe in, and how typed text is translated and relayed to the partner.

Each core source file is one Dafny module. Pure logic is written as functions and lemmas. Code that updates state in place becomes a class. Each method of such a class is specified by a pure function of the old state: `ensures State() == Step(old(State()), ...)`. The properties are proved about those functions.

| module | source |
|---|---|
| `AudioConverter` | frontend/src/utils/audioConverter.js |
| `AudioRecorder` | frontend/src/components/AudioRecorder.jsx |
| `WebSocketHook` | frontend/src/hooks/useWebSocket.js |
| `ChatInterface` | frontend/src/components/ChatInterface.jsx |
| `IdleTimeout` | frontend/src/hooks/useIdleTimeout.js |
| `Config` | frontend/src/config.js |
| `ConnectionManager` | backend/app/connection_manager.py |
| `Auth` | backend/app/auth.py |
| `AudioProcessor` | backend/app/services/audio_processor.py |
| `Session` | backend/app/main.py (`websocket_endpoint`) |
| `Wrappers`, `Json`, `Text`, `Seqs` | shared: Option/Result, JavaScript/Python values, string operations, concatenation facts |

JavaScript and Python semantics are written out explicitly:
- `Json.Truthy` is JavaScript truthiness; `Json.StrictEq` is `===`; `Json.Spread` is `{...v}`.
- `undefined` is `None`.
- `Text.JsTrim` is JavaScript `trim`; `Text.PyStrip` is Python `strip()`.
- `Text.ReplaceFirst` is `String.prototype.replace` with a string pattern.
- `Math.round` is `Floor(x + 1/2)`.
- An `Int16Array` store truncates toward zero and then wraps modulo 2^16.

External effects are inputs or emitted actions:
- `JSON.parse` / `json.loads` is a function parameter `parse`.
- Clocks are `now` arguments.
- The voice-activity detector is a boolean oracle.
- Translation and text-to-speech are function parameters.
- A failing socket send is membership in a set `dead`.
- Background transcriptions are `Session.Action`s whose results come back as `Session.Event`s.

Two points of the audio conversion are modelled as the code behaves:
- The comment at frontend/src/utils/audioConverter.js:11 promises the range -32768..32767, but line 12 clamps only from above, so samples below -1.0 wrap (see Findings).
- The downsampler's windows (audioConverter.js:32-43) are not of a fixed `round(Rin/Rout)` samples: window `k` runs from `Math.round(k * Rin/Rout)` to `Math.round((k + 1) * Rin/Rout)`, cut at the input's end, so window sizes vary.

## Model

| member | source | states |
|---|---|---|
| AudioConverter.WindowNonEmpty | frontend/src/utils/audioConverter.js:32-40 | When the output rate is lower, every output window starts inside the input and is non-empty, so `accum / count` never divides by zero |
| AudioConverter.WindowsTilePrefix | frontend/src/utils/audioConverter.js:32-43 | The windows start at index 0 and follow one another without gap or overlap: laid end to end they are exactly the input prefix up to the next window start |
| AudioConverter.DownsampledInRange | frontend/src/utils/audioConverter.js:36-40 | Every output sample is a mean of its window, so it lies within the bounds of the input samples |
| AudioConverter.SumWindow | frontend/src/utils/audioConverter.js:35-39 | The inner loop returns the sum and the number of the samples in `[from, min(to, len))`, and that number is positive |
| AudioConverter.DownsampleBuffer | frontend/src/utils/audioConverter.js:17-45 | Equal rates return the input array itself; a higher output rate is an error. Otherwise the result is a new array of length `round(len/ratio)` whose sample `k` is the mean of input window `[round(k·r), min(round((k+1)·r), len))` |
| AudioConverter.TruncToZero | frontend/src/utils/audioConverter.js:12 | The integer the store keeps is the real truncated toward zero: within one of it, never farther from zero |
| AudioConverter.WrapInt16 | frontend/src/utils/audioConverter.js:12 | The stored value is congruent to the integer modulo 2^16, and equals it inside the int16 range |
| AudioConverter.Int16SampleBoundaries | frontend/src/utils/audioConverter.js:12 | Samples at or above 1.0 encode as 32767, 0.0 as 0, -1.0 as -32767 |
| AudioConverter.Int16SampleInUnitRange | frontend/src/utils/audioConverter.js:11-12 | Within [-1, 1] the encoding is `x·32767` truncated toward zero, inside [-32767, 32767] |
| AudioConverter.Int16SampleWrapsBelowMinusOne | frontend/src/utils/audioConverter.js:11-12 | As written, -2.0 encodes as +2 and -1.5 as +16386 |
| AudioConverter.ClampedInt16SampleSound | frontend/src/utils/audioConverter.js:11-12 | The two-sided clamp stays in [-32767, 32767], keeps the sign, is monotone, and agrees with the code from -1.0 upwards |
| AudioConverter.ConvertFloat32ToInt16 | frontend/src/utils/audioConverter.js:7-15 | A new array with exactly one encoded value per input sample, at the same index |
| AudioRecorder.RunQuantaConserves | frontend/src/components/AudioRecorder.jsx:59-72 | Over any run of `process` calls, the posted chunks followed by the buffer are the received samples in order. Every chunk holds at least 2048 samples and the buffer fewer |
| AudioRecorder.AccumulateKeeps | frontend/src/components/AudioRecorder.jsx:61-75 | One `process` call keeps the invariant with its channel counted as received: posted chunks then buffer are all samples received, in order, every chunk holds at least 2048 samples and the buffer fewer |
| AudioRecorder.PCMProcessor.constructor | frontend/src/components/AudioRecorder.jsx:56-60 | The buffer starts empty and nothing has been posted |
| AudioRecorder.PCMProcessor.Process | frontend/src/components/AudioRecorder.jsx:61-75 | Appends the first channel to the buffer and posts the whole buffer once it reaches 2048. With no channels nothing changes. The call always returns true and keeps the conservation invariant |
| AudioRecorder.AudioInputs | frontend/src/components/AudioRecorder.jsx:17 | Keeps exactly the devices whose kind is `audioinput` and never more devices than it was given |
| AudioRecorder.AudioInputsKeepOrder | frontend/src/components/AudioRecorder.jsx:17 | The filter keeps a single device exactly when it is an audio input and distributes over concatenation, so the kept devices stay in enumeration order with their repeats |
| AudioRecorder.AudioInputsHead | frontend/src/components/AudioRecorder.jsx:17-21 | The device `fetchDevices` selects, `inputs[0]`, is the first audio input in enumeration order |
| AudioRecorder.Recorder.constructor | frontend/src/components/AudioRecorder.jsx:4-11 | Not recording, no device selected or listed, all three refs null |
| AudioRecorder.Recorder.FetchDevices | frontend/src/components/AudioRecorder.jsx:14-25 | Keeps only the audio inputs. It selects the first one only when nothing is selected yet. A rejected enumeration changes nothing |
| AudioRecorder.Recorder.StopRecording | frontend/src/components/AudioRecorder.jsx:106-121 | Closes the context and stops the stream when present. Nulls the three refs and clears `isRecording`. Calls `onStop` on every call, even when nothing was running |
| AudioRecorder.Recorder.StartRecording | frontend/src/components/AudioRecorder.jsx:32-104 | Each ref is set as soon as its object exists; `isRecording` becomes true only when capture starts. A failed step leaves the earlier refs set |
| AudioRecorder.Recorder.HandleClick | frontend/src/components/AudioRecorder.jsx:123-129 | When recording: the whole new state of `stopRecording` (refs nulled, the context closed and the stream stopped when present, `onStop` called). Otherwise the whole new state of `startRecording` for each outcome. The device list and the selection never change |
| WebSocketHook.Decode | frontend/src/hooks/useWebSocket.js:24-29 | Binary stays binary. Text starting with `{` or `[` that parses to an object or array becomes that value (both directions). Anything else, or a failed parse, is kept as the received string |
| WebSocketHook.ScanAttachesToLatest | frontend/src/hooks/useWebSocket.js:38-51 | When entry `j` matches and every later entry is skipped or from someone else, the artifact is attached to `j` as a new object and all other entries are unchanged |
| WebSocketHook.ScanWithoutMatch | frontend/src/hooks/useWebSocket.js:38-53 | When no entry matches, the list is returned unchanged and the artifact is dropped |
| WebSocketHook.ScanChangesAtMostOne | frontend/src/hooks/useWebSocket.js:36-57 | The merge keeps the length and changes at most one entry, which is a matching entry with the merged content and its timestamp |
| WebSocketHook.AttachToLatestExample | frontend/src/hooks/useWebSocket.js:38-51 | For [A from U1, B from U2, C from U1], U1's audio goes onto C; A and B are untouched |
| WebSocketHook.MergeAudio | frontend/src/hooks/useWebSocket.js:33-58 | The backward loop returns exactly the specified merge (first hit from the end; `prev` when nothing matches or the scan throws) and keeps the length |
| WebSocketHook.AttachAudio | frontend/src/hooks/useWebSocket.js:33-58 | The merge as a function; specified by `ScanAttachesToLatest`, `ScanWithoutMatch` and `ScanChangesAtMostOne` |
| WebSocketHook.ReceiveShape | frontend/src/hooks/useWebSocket.js:32-63 | An audio artifact never grows the timeline. Every other inbound item, binary data included, is appended at the end |
| WebSocketHook.Receive | frontend/src/hooks/useWebSocket.js:23-64 | One inbound frame applied to the timeline; specified by `ReceiveShape` and `ReceiveKeepsIdsDistinct` |
| WebSocketHook.ReceiveKeepsIdsDistinct | frontend/src/hooks/useWebSocket.js:49-62 | New and merged entries are new objects: entry identities stay distinct |
| WebSocketHook.SocketHook.constructor | frontend/src/hooks/useWebSocket.js:6-8 | No socket, not connected, no messages |
| WebSocketHook.SocketHook.Connect | frontend/src/hooks/useWebSocket.js:10-16 | A no-op only while the current socket is open. In any other state, including connecting, a new socket replaces the reference |
| WebSocketHook.SocketHook.Disconnect | frontend/src/hooks/useWebSocket.js:72-74 | Closes the current socket if there is one; nothing else changes |
| WebSocketHook.SocketHook.OnOpen | frontend/src/hooks/useWebSocket.js:18-21 | The socket is open and `isConnected` is true |
| WebSocketHook.SocketHook.OnClose | frontend/src/hooks/useWebSocket.js:66-69 | The socket is closed and `isConnected` is false, even for a replaced socket |
| WebSocketHook.SocketHook.OnMessage | frontend/src/hooks/useWebSocket.js:23-64 | The timeline becomes `Receive` of the frame, and entry identities stay distinct |
| WebSocketHook.SocketHook.SendBytes | frontend/src/hooks/useWebSocket.js:76-84 | Transmits only while the current socket is open; otherwise one warning and no other change |
| WebSocketHook.SocketHook.SendJson | frontend/src/hooks/useWebSocket.js:86-92 | Transmits only while the current socket is open; otherwise one warning and no other change |
| ChatInterface.CommitMerge | frontend/src/components/ChatInterface.jsx:51-54 | The committed input is always trimmed, and onto blank input it is the trimmed commit text |
| ChatInterface.CommitJoinsWithOneSpace | frontend/src/components/ChatInterface.jsx:52-53 | Trimmed text committed onto trimmed, non-empty input is joined with exactly one space |
| ChatInterface.CommitOntoEmpty | frontend/src/components/ChatInterface.jsx:52-53 | "" + "hello" gives "hello" |
| ChatInterface.CommitOntoText | frontend/src/components/ChatInterface.jsx:52-53 | "hello" + "world" gives "hello world" |
| ChatInterface.ApplyEvent | frontend/src/components/ChatInterface.jsx:43-68 | A preview replaces the ghost text. A commit merges into the input and clears the preview. Status "processing" sets the flag. Any other status clears it, sets "Complete" and schedules its clearing 3000 ms later |
| ChatInterface.EventOf | frontend/src/components/ChatInterface.jsx:40-69 | The dictation event an entry carries; its effect is specified by `ApplyEvent` |
| ChatInterface.Handle | frontend/src/components/ChatInterface.jsx:30-70 | The message effect as a function; specified by `HandleIdempotent` and `HandleSeesOnlyLast` |
| ChatInterface.HandleIdempotent | frontend/src/components/ChatInterface.jsx:36-38 | Running the handler again on the same list changes nothing |
| ChatInterface.HandleSeesOnlyLast | frontend/src/components/ChatInterface.jsx:33-38 | Of entries arriving together, only the last is processed |
| ChatInterface.SentIsTrimmedDisplay | frontend/src/components/ChatInterface.jsx:100-109 | The text sent is exactly the trimmed textarea value |
| ChatInterface.StopFoldIsTrimmedDisplay | frontend/src/components/ChatInterface.jsx:111-120 | On stop, ghost text folded into the input gives the trimmed textarea value |
| ChatInterface.SendText | frontend/src/components/ChatInterface.jsx:102 | The text `handleSendText` sends; `SentIsTrimmedDisplay` proves it is the trimmed textarea value |
| ChatInterface.DisplayValue | frontend/src/components/ChatInterface.jsx:294 | The textarea value; related to what is sent and folded by `SentIsTrimmedDisplay` and `StopFoldIsTrimmedDisplay` |
| ChatInterface.Normalise | frontend/src/components/ChatInterface.jsx:197-199 | A falsy `text` takes a truthy `original` and a falsy `lang` takes a truthy `src_lang`; every other field is unchanged |
| ChatInterface.RenderRaw | frontend/src/components/ChatInterface.jsx:189-200 | Hidden exactly for a "preview" or "audio" type. Otherwise a truthy `system` gives a notice holding it, and anything else a bubble whose content is `Normalise` of the entry (the `text`←`original` and `lang`←`src_lang` fallbacks) and which is "mine" exactly when the sender is the user |
| ChatInterface.RelayedChatShowsOriginal | frontend/src/components/ChatInterface.jsx:192-199 | A chat message as the server relays it (no `text`, `lang`, `type` or `system`) shows as a bubble with the original as its text, the source language as its language and the translation kept |
| ChatInterface.Render | frontend/src/components/ChatInterface.jsx:186-201 | An object renders as `RenderRaw` of its fields, an array or a parsed string as `RenderRaw` of its spread, binary data as `RenderRaw` of `{}`. A string that does not parse, or parses to `null`, renders as a notice holding the string. A bubble is never a preview, audio or system entry |
| ChatInterface.Later | frontend/src/components/ChatInterface.jsx:66 | The pending clear timers are exactly those due after `now`; the list is unchanged exactly when none is due |
| ChatInterface.LaterKeepsOrder | frontend/src/components/ChatInterface.jsx:66 | A single timer stays pending exactly when it is due after `now`, and the filter distributes over concatenation, so pending timers keep their scheduling order and repeats |
| ChatInterface.ChatView.constructor | frontend/src/components/ChatInterface.jsx:11-16 | Empty input and preview, not processing, nothing processed |
| ChatInterface.ChatView.OnMessages | frontend/src/components/ChatInterface.jsx:30-70 | The new dictation state is `Handle` of the old one |
| ChatInterface.ChatView.Tick | frontend/src/components/ChatInterface.jsx:66 | Due timers fire and clear "Complete"; the dictation text is unchanged |
| ChatInterface.ChatView.HandleSendText | frontend/src/components/ChatInterface.jsx:100-109 | Sends `{text: trim(input + " " + preview)}` and clears both buffers. When that text is empty it sends nothing and changes nothing |
| ChatInterface.ChatView.HandleStopRecording | frontend/src/components/ChatInterface.jsx:111-120 | Always sends `{type: "stop_recording"}`. A non-empty preview is folded into the input and cleared; otherwise the input is untouched |
| ChatInterface.ChatView.Edit | frontend/src/components/ChatInterface.jsx:294-298 | The whole edited value, ghost text included, becomes the input, and the preview is cleared |
| IdleTimeout.ToInt32 | frontend/src/hooks/useIdleTimeout.js:9 | The delay as a signed 32-bit value: in [-2^31, 2^31) and congruent to the input modulo 2^32 |
| IdleTimeout.Delay | frontend/src/hooks/useIdleTimeout.js:9 | The wait is `timeoutMs` for 0 ≤ `timeoutMs` < 2^31, zero for a negative timeout down to -2^31 and for 2^31 ≤ `timeoutMs` < 2^32 (the timer runs out at once), and always below 2^31 and either zero or congruent to `timeoutMs` modulo 2^32 |
| IdleTimeout.StepFiresOnlyAfterQuiet | frontend/src/hooks/useIdleTimeout.js:7-10 | Every step keeps one timer consistent with the last reset. `onTimeout` fires at most once per step, only at least `Delay(timeoutMs)` after the last reset, and leaves nothing pending |
| IdleTimeout.DueTimerFires | frontend/src/hooks/useIdleTimeout.js:7-10 | A pending timer whose `Delay(timeoutMs)` has run out fires on the next clock step, once, and nothing stays pending |
| IdleTimeout.FiveMinuteIdleFiresOnce | frontend/src/hooks/useIdleTimeout.js:6-26 | Mounted at time 0 with a 300000 ms timeout and no activity, nothing fires at 299999 ms and `onTimeout` runs exactly once at 300000 ms |
| IdleTimeout.NoRearmWithoutActivity | frontend/src/hooks/useIdleTimeout.js:9 | With nothing pending, the clock alone changes nothing |
| IdleTimeout.FiresAtMostOnceWhileIdle | frontend/src/hooks/useIdleTimeout.js:7-19 | Without tracked events, `onTimeout` fires at most once however far the clock advances |
| IdleTimeout.QuietAfterCleanup | frontend/src/hooks/useIdleTimeout.js:22-25 | After cleanup, nothing but a new mount changes the watchdog |
| IdleTimeout.Step | frontend/src/hooks/useIdleTimeout.js:6-26 | One input to the hook; specified by `StepFiresOnlyAfterQuiet`, `DueTimerFires`, `FiveMinuteIdleFiresOnce`, `NoRearmWithoutActivity`, `FiresAtMostOnceWhileIdle` and `QuietAfterCleanup` |
| IdleTimeout.IdleWatchdog.constructor | frontend/src/hooks/useIdleTimeout.js:4 | No listeners, no pending timer |
| IdleTimeout.IdleWatchdog.ResetTimer | frontend/src/hooks/useIdleTimeout.js:7-10 | Replaces any pending timer with one due `Delay(timeoutMs)` from now |
| IdleTimeout.IdleWatchdog.Mount | frontend/src/hooks/useIdleTimeout.js:6-19 | Attaches the five listeners and starts exactly one timer |
| IdleTimeout.IdleWatchdog.Cleanup | frontend/src/hooks/useIdleTimeout.js:22-25 | Cancels the pending timer and removes all five listeners |
| IdleTimeout.IdleWatchdog.OnActivity | frontend/src/hooks/useIdleTimeout.js:13-16 | A tracked event restarts the timer while the listeners are attached |
| IdleTimeout.IdleWatchdog.Tick | frontend/src/hooks/useIdleTimeout.js:9 | A due timer calls `onTimeout` once and is not re-armed |
| IdleTimeout.IdleWatchdog.Restart | frontend/src/hooks/useIdleTimeout.js:6-26 | A change of `timeoutMs` tears the effect down and sets it up again with a fresh timer of the new length |
| Config.WsBase | frontend/src/config.js:4 | An unset or empty `VITE_WS_URL` falls back to `ws://localhost:8000` |
| Config.ApiUrlFromSecure | frontend/src/config.js:6 | A `wss://` prefix becomes `https://`; only the first later `ws://` is rewritten |
| Config.ApiUrlFromPlain | frontend/src/config.js:6 | A `ws://` prefix becomes `http://`; only the first later `wss://` is rewritten |
| Config.ApiUrlUnmarked | frontend/src/config.js:6 | An address with neither marker is returned as it is |
| Config.DefaultApiUrl | frontend/src/config.js:4-6 | With no socket address configured, the HTTP base is `http://localhost:8000` |
| Text.ReplaceFirstAt | frontend/src/config.js:6 | `replace` rewrites the first occurrence of the pattern and keeps every other character |
| Text.ReplaceFirstAbsent | frontend/src/config.js:6 | Without an occurrence, `replace` returns the string unchanged |
| Text.StripEmptyIff | frontend/src/components/ChatInterface.jsx:103 | A trimmed string is empty exactly when the original is all whitespace |
| Text.StripIdempotent | frontend/src/components/ChatInterface.jsx:53 | Trimming twice is trimming once |
| Text.StripIsInfix | frontend/src/components/ChatInterface.jsx:53 | The trimmed string is a contiguous part of the original with only whitespace before and after it, and it neither starts nor ends with whitespace |
| Text.StripOfStripped | frontend/src/components/ChatInterface.jsx:53 | A string that neither starts nor ends with whitespace is left as it is |
| Text.StripLeadingSpace | frontend/src/components/ChatInterface.jsx:102 | A leading whitespace character makes no difference to the trimmed result |
| Text.ContainsIffOccurs | backend/app/connection_manager.py:132 | Python `in` on strings holds exactly when the pattern occurs at some index |
| Json.Field | frontend/src/hooks/useWebSocket.js:46 | A property read is `undefined` exactly for a missing key, and otherwise the stored value |
| Json.Spread | frontend/src/components/ChatInterface.jsx:194 | Spreading an object copies its fields; `null`, booleans and numbers spread to `{}` |
| ConnectionManager.RemoveFirst | backend/app/connection_manager.py:102-103 | Removing an absent id changes nothing |
| ConnectionManager.RemoveFirstCutsFirst | backend/app/connection_manager.py:103 | `list.remove` cuts out only the first occurrence and keeps the rest in order |
| ConnectionManager.Without | backend/app/connection_manager.py:106 | The queue keeps exactly the entries of other users and never grows |
| ConnectionManager.WithoutKeepsOrder | backend/app/connection_manager.py:106 | A single entry is kept exactly when it is another user's, and the filter distributes over concatenation, so the waiting customers keep their FIFO order and repeats |
| ConnectionManager.UserLang | backend/app/connection_manager.py:75-78 | The stored language, or "en" for an unknown user |
| ConnectionManager.Connect | backend/app/connection_manager.py:13-48 | `connect_user`; specified by `CustomerTakesFirstEmployee` and `EmployeeJoinsPoolAndTakesHead` |
| ConnectionManager.Match | backend/app/connection_manager.py:50-73 | `match_users`; specified by `MatchNotifiesCustomerFirst` and `MatchKeepsMutual` |
| ConnectionManager.Leave | backend/app/connection_manager.py:96-135 | `disconnect`; specified by `DisconnectForgetsUser`, `DisconnectFreesEmployee` and `FixedDepartureUnpairsEveryone` |
| ConnectionManager.RelayToPartner | backend/app/connection_manager.py:85-94 | `send_to_partner`; specified by `RelayNeedsLivePartner` |
| ConnectionManager.DisconnectForgetsUser | backend/app/connection_manager.py:96-112 | Afterwards the user has no connection, no queue entry and no pairing of its own. One pool entry is removed, and the pairings of the user and of its partner are gone; another user's pairing that names the user is kept |
| ConnectionManager.DisconnectFreesEmployee | backend/app/connection_manager.py:114-135 | A connected ex-partner is told "Partner disconnected." unless its socket is dead. If its id looks like an employee's it is back in the pool, appended only if absent |
| ConnectionManager.MatchNotifiesCustomerFirst | backend/app/connection_manager.py:50-73 | The pair is recorded both ways first. A dead customer is disconnected and the employee is not told. Otherwise both are told, customer first |
| ConnectionManager.CustomerTakesFirstEmployee | backend/app/connection_manager.py:37-48 | A customer takes the first free employee, who leaves the pool. With none free, the customer joins the end of the queue and is told so |
| ConnectionManager.EmployeeJoinsPoolAndTakesHead | backend/app/connection_manager.py:18-35 | An arriving employee is appended to the pool and matched with the head of the queue, which leaves the queue. The employee stays in the pool |
| ConnectionManager.RelayNeedsLivePartner | backend/app/connection_manager.py:85-94 | Nothing happens for an unpaired sender or a vanished partner. A live partner receives the data; a failed send disconnects it |
| ConnectionManager.EmployeeDoublyBooked | backend/app/connection_manager.py:18-35 | As written: C1 waits, E1 arrives and takes C1, then C2 arrives and is paired with E1 while C1 is still paired with E1 |
| ConnectionManager.FixedMatchedEmployeeLeavesPool | backend/app/connection_manager.py:18-35 | With the fix, an employee matched with a waiting customer is not in the pool and the pair is recorded both ways |
| ConnectionManager.FixedScenarioQueuesSecondCustomer | backend/app/connection_manager.py:18-43 | With the fix, the same arrivals leave C2 queued and E1 paired only with C1 |
| ConnectionManager.DepartedEmployeeStaysPaired | backend/app/connection_manager.py:109-112 | As written, after C1, E1, C2 arrive and E1 leaves, C1 is still paired with E1, which has no connection |
| ConnectionManager.FixedDepartureUnpairsEveryone | backend/app/connection_manager.py:96-135 | When pairings are mutual, `disconnect(u)` keeps them mutual and the pool and queue free of paired users, and afterwards nobody is paired with `u` |
| ConnectionManager.MatchKeepsMutual | backend/app/connection_manager.py:50-73 | Pairing two unpaired users that nobody is offered keeps pairings mutual, whichever notifications fail |
| ConnectionManager.EmptyIsMutual | backend/app/connection_manager.py:5-11 | The empty manager has mutual pairings: nothing is paired, pooled or queued |
| ConnectionManager.FixedConnectKeepsMutual | backend/app/connection_manager.py:13-48 | With the fix, every arrival of a new id keeps pairings mutual and the pool and queue duplicate-free and free of paired users |
| ConnectionManager.ConnectionManager.constructor | backend/app/connection_manager.py:5-11 | All four collections empty |
| ConnectionManager.ConnectionManager.Send | backend/app/connection_manager.py:60-64 | A send succeeds exactly when the socket is live, and then it is delivered |
| ConnectionManager.ConnectionManager.ConnectUser | backend/app/connection_manager.py:13-48 | The new state is `Connect` of the old one |
| ConnectionManager.ConnectionManager.MatchUsers | backend/app/connection_manager.py:50-73 | The new state is `Match` of the old one |
| ConnectionManager.ConnectionManager.GetUserLang | backend/app/connection_manager.py:75-78 | Returns `UserLang` |
| ConnectionManager.ConnectionManager.UpdateUserLang | backend/app/connection_manager.py:80-83 | Only an existing user's language changes; nothing else does |
| ConnectionManager.ConnectionManager.SendToPartner | backend/app/connection_manager.py:85-94 | The new state is `RelayToPartner` of the old one |
| ConnectionManager.ConnectionManager.Disconnect | backend/app/connection_manager.py:96-135 | The new state is `Leave` of the old one |
| Auth.DefaultUsers | backend/app/auth.py:20-22 | Without a users file the store is exactly {admin: password "admin", role admin, approved} |
| Auth.Login | backend/app/auth.py:46-61 | 401 exactly for an unknown user or a wrong password; 403 exactly for a correct but unapproved login. Otherwise the username and the stored role |
| Auth.Listing | backend/app/auth.py:63-71 | Exactly the users whose role is not admin, each with its stored role and approval |
| Auth.LoginFollowsApproval | backend/app/auth.py:73-91 | After approve or block, login with the right password succeeds exactly when the flag is true |
| Auth.RegistrationGate | backend/app/auth.py:31-61 | A fresh registration gets 403 until approved, and then logs in as an employee |
| Auth.UserStore.constructor | backend/app/auth.py:20-22 | The store starts as the default users |
| Auth.UserStore.Register | backend/app/auth.py:31-44 | 400 for an existing name. Otherwise an unapproved employee is added and every other user is untouched |
| Auth.UserStore.LoginUser | backend/app/auth.py:46-61 | Returns `Login` on the current store |
| Auth.UserStore.GetUsers | backend/app/auth.py:63-71 | Returns `Listing` on the current store |
| Auth.UserStore.SetApproved | backend/app/auth.py:73-91 | 404 for an unknown name; otherwise only that user's `approved` changes |
| Auth.UserStore.ApproveUser | backend/app/auth.py:73-81 | 404 for an unknown name; otherwise only that user's `approved` becomes true |
| Auth.UserStore.BlockUser | backend/app/auth.py:83-91 | 404 for an unknown name; otherwise only that user's `approved` becomes false |
| Auth.ApprovalScenario | backend/test_rbac_flow_robust.py:33-77 | Register, login, approve, login on a fresh store give 200, 403, 200, 200 |
| Auth.BlockingScenario | backend/test_blocking_flow.py:13-44 | Register, approve, login, block, login give 200, 200, 200, 200, 403 |
| AudioProcessor.AbsorbKeepsInv | backend/app/services/audio_processor.py:62-82 | One window keeps the machine's invariant: speaking exactly while a sentence is buffered, the buffer in whole windows, the counter at most 10. A sentence handed out is the whole buffer, at least eleven windows |
| AudioProcessor.ConsumeKeepsInv | backend/app/services/audio_processor.py:35-84 | Windows are consumed in order from the front. Without a sentence, fewer than 1024 bytes remain; with one, the rest stays for the next call. A sentence is whole windows, at least eleven |
| AudioProcessor.Absorb | backend/app/services/audio_processor.py:62-82 | One window through the state machine; specified by `AbsorbKeepsInv`, `SilenceBeforeSpeechDiscarded`, `SilentTail` and `SentenceAfterElevenSilences` |
| AudioProcessor.Consume | backend/app/services/audio_processor.py:41-84 | The window loop as a function; specified by `ConsumeKeepsInv`, `SilenceBeforeSpeechDiscarded` and `SentenceAfterElevenSilences`, and implemented by `Processor.ProcessStream` |
| AudioProcessor.SilentTail | backend/app/services/audio_processor.py:66-82 | A speaking machine with `c` silent windows counted keeps buffering the next `10 - c` silent windows, and the one after them returns the buffer plus those windows, resets the machine and leaves the following bytes |
| AudioProcessor.SentenceAfterElevenSilences | backend/app/services/audio_processor.py:41-82 | From any state, a speech window followed by eleven silent ones returns a sentence made of the earlier buffer, the speech window and the ten tolerated silent windows (the eleventh is dropped); the machine is idle with an empty buffer and the bytes after the eleventh window stay unconsumed |
| AudioProcessor.SilenceBeforeSpeechDiscarded | backend/app/services/audio_processor.py:67-69 | Silent windows before any speech are discarded and the machine stays idle |
| AudioProcessor.Flush | backend/app/services/audio_processor.py:86-96 | None for an empty sentence buffer. Otherwise the buffer is returned and emptied and `is_speaking` is cleared, while the silence counter is untouched |
| AudioProcessor.ScannedWindows | backend/app/services/audio_processor.py:115-122 | At most 32 windows, and they fit in the samples |
| AudioProcessor.Processor.constructor | backend/app/services/audio_processor.py:19-28 | Both buffers empty, not speaking, counter 0 |
| AudioProcessor.Processor.ProcessStream | backend/app/services/audio_processor.py:30-84 | Returns and leaves exactly what `Process` specifies, keeping the invariant |
| AudioProcessor.Processor.FlushSpeech | backend/app/services/audio_processor.py:86-96 | Returns and leaves exactly what `Flush` specifies |
| AudioProcessor.Processor.HasSpeech | backend/app/services/audio_processor.py:100-139 | False below 512 samples or when quiet. Otherwise true exactly when the detector accepts one of the last `min(n div 512, 32)` disjoint 512-sample windows |
| Session.Initial | backend/app/main.py:74-91 | "auto" starts without a requested language, any other value requests it; no sticky language, an empty buffer |
| Session.EffectiveLang | backend/app/main.py:163 | The requested language when set, otherwise the sticky one |
| Session.Tail | backend/app/main.py:175 | The last 240000 samples at most, taken from the end |
| Session.OnBinary | backend/app/main.py:109-207 | A binary frame; specified by `PartialSampleIgnored`, `PreviewThrottle`, `SilenceCommit`, `FirstSilenceStartsClock` and `BinaryKeepsWholeSamples` |
| Session.OnText | backend/app/main.py:209-285 | A text frame; specified by `RawTextIsChat`, `LanguageChange`, `StopFlushesAsPreview` and `TextKeepsWholeSamples` |
| Session.OnCommand | backend/app/main.py:215-285 | A parsed command; specified by `CommandKeepsWholeSamples`, `LanguageChange` and `StopFlushesAsPreview` |
| Session.OnChatText | backend/app/main.py:255-285 | A chat message; specified by `ChatRelay` and `ChatTextOnlySends` |
| Session.OnEvent | backend/app/main.py:94-307 | One loop event or background completion; specified by `KeepsWholeSamples`, `StickyLanguage` and `TargetIsPartnerLang` |
| Session.PartialSampleIgnored | backend/app/main.py:111-113 | A binary frame that is empty or not a multiple of 4 bytes changes nothing |
| Session.PreviewThrottle | backend/app/main.py:151-183 | While speaking, a preview starts exactly when more than 0.5 s have passed since the last one and the lock is free. It covers at most the last 240000 samples. The chunk is kept and `last_speech_time` is `now` either way |
| Session.SilenceCommit | backend/app/main.py:186-207 | On silence, the whole buffer is committed exactly when silence exceeds 1.2 s and more than 16000 samples are buffered. Then the buffer is emptied, `last_speech_time` is `now` and the sticky language is cleared. Otherwise the chunk is kept |
| Session.FirstSilenceStartsClock | backend/app/main.py:187-191 | The first silent frame with no earlier speech starts the silence clock and never commits |
| Session.LanguageChange | backend/app/main.py:233-246 | "auto" clears both the requested and the sticky language; any other non-empty value sets both. The manager is told and a notice is sent |
| Session.StopFlushesAsPreview | backend/app/main.py:216-230 | `stop_recording` empties the buffer and transcribes it. The result, whatever the manager holds, is sent as a "preview", never a "commit" |
| Session.RawTextIsChat | backend/app/main.py:212-252 | Text that does not parse is `{"text": raw}`. Text blank after `strip()` is ignored; otherwise it is relayed as chat |
| Session.ChatRelay | backend/app/main.py:255-285 | The text payload (`sender`, `original`, `translated`, `src_lang`, `target_lang`) goes to the sender, then to the partner, translated from the connect-time language. Only when text-to-speech returned something does `{type: "audio", payload, sender}` follow, again to the sender and then to the partner |
| Session.ChatTextOnlySends | backend/app/main.py:255-285 | A chat message only sends, to the sender and the partner; it never touches the audio |
| Session.TargetIsPartnerLang | backend/app/main.py:101-104 | The target is the partner's language, or "en" when unpaired or the partner is gone |
| Session.StickyLanguage | backend/app/main.py:302-307 | A preview result fixes the sticky language only when none is set, and a requested language still wins |
| Session.JoinWholeSamples | backend/app/main.py:118 | Joining non-empty whole-sample chunks gives whole samples, at least one per chunk |
| Session.BinaryKeepsWholeSamples | backend/app/main.py:109-207 | The length check keeps the buffer in whole float32 samples, and previews and commits receive whole samples |
| Session.StopKeepsWholeSamples | backend/app/main.py:216-230 | The stop flush hands the transcriber the whole buffer, a whole number of samples, and empties the buffer |
| Session.CommandKeepsWholeSamples | backend/app/main.py:210-252 | A parsed command never adds to the buffer, and the only transcription it asks for is the stop flush of whole samples |
| Session.TextKeepsWholeSamples | backend/app/main.py:210-230 | A text frame never adds to the buffer; the stop flush receives whole samples |
| Session.KeepsWholeSamples | backend/app/main.py:109-230 | Every event keeps the buffer in whole samples; every transcription request is a whole number of samples |
| Session.Endpoint.constructor | backend/app/main.py:68-91 | The loop's variables start as `Initial(lang)` |
| Session.Endpoint.HandleBinary | backend/app/main.py:109-207 | The buffer, the two clocks and the sticky language are updated in place to `OnBinary` of the old state, with its actions |
| Session.Endpoint.Handle | backend/app/main.py:94-288 | The new local state and the actions are `OnEvent` of the old state. The loop keeps running unless the client left or an exception other than a disconnect ended it. The buffer stays in whole samples |

## Left out

- Float32 storage, IEEE-754 rounding and NaN: samples are reals.
- AudioConverter.DownsampleBuffer: does not model rates that are not positive.
- AudioConverter.Mean: its empty-window fallback is never reached for a lower output rate (see `WindowNonEmpty`). With equal rates the input is returned before any window is formed.
- `getUserMedia`, `AudioContext`, worklet registration, Blob URLs and `Audio` playback are browser APIs. The recorder sees only how far `startRecording` got (`StartOutcome`).
- frontend/src/hooks/useAudioRecorder.js is an unused legacy hook. Its only logic is the converter, which is modelled.
- ChatInterface.EventOf: a preview or commit whose `text` is not a string (or is missing) is treated as no event. The source would store that value, for example `undefined`, in the buffer.
- WebSocketHook.ContentOf: a timeline string that parses to an array is spread like an object; whether the property writes on an array copy throw is not modelled.
- WebSocketHook.ProbeEntry: an artifact without `payload` removes `audio64` instead of storing `undefined`; both render the same.
- `Text.LowerAscii` lower-cases ASCII only; Python's `lower()` on other letters is not modelled.
- The Silero detector is stateful; here it is a pure oracle per window.
- AudioProcessor.Processor.HasSpeech: the peak-amplitude gate is a boolean input `loud`.
- The 4.0× gain, the amplitude fallback `max_amp > 0.01` and the detector threshold are folded into the boolean input `speaking`.
- Session.OnBinary: the source hands preview and commit transcription the audio after the 4.0× gain (main.py:129, 175, 200), while the stop flush gets it unscaled (main.py:222-227). The model hands all three the raw buffered bytes; float32 arithmetic on the bytes is not modelled.
- asyncio scheduling is an ordering of events:
  - the lock is the input `lockFree`
  - `create_task` and the awaited stop transcription are actions
  - their results arrive as `PreviewDone`, `CommitDone` and `FlushDone`
- A sticky-language update is seen at the next event. Session.OnCommand: the stop flush reads the requested and sticky language when `stop_recording` arrives, while the source reads them only after acquiring `transcription_lock` (main.py:225-226), so it can also see a sticky language set by a preview still in flight.
- `last_transcribe_time` and `silence_duration` in main.py are computed but never read; they are not modelled.
- Session.OnText: a truthy `lang` in `language_change` that is not a string is treated as absent.
- Python truthiness of `session_state` (a non-empty dict, always true) is taken as true.
- ConnectionManager.Connect, ConnectionManager.Match, ConnectionManager.Leave and ConnectionManager.RelayToPartner are each one atomic step. In the source they await socket sends (connection_manager.py:14, 45, 61, 70, 91, 117), and other connections' coroutines can run at those points; interleavings inside one call are not modelled.
- IdleTimeout.Delay: `timeoutMs` is an integer; fractional, infinite and non-numeric values, which the Web IDL conversion truncates or maps to zero, are not modelled.
- Errors raised by socket sends inside the endpoint loop are not modelled. The manager's own sends fail through `dead`.
- Sockets' error events are not modelled; the client has no error handler, and a close follows.
- users.json file I/O is not modelled: the store is an in-memory map with the insertion order of a Python dict.
- Hand-edited users files (users without `approved`, or a name in the file but not the map) are not modelled.
- The login token is an input rather than random.
- The `/auth/pending` request in the test scripts has no route in backend/app/auth.py and is not modelled.
- backend/tests/test_multilingual_flow.py is a network integration script.
- Transcription (backend/app/services/transcriber.py), translation (backend/app/services/translator.py) and gTTS are oracles. gTTS failures give no audio.
- The UI, routing and login forms (App.jsx, LandingPage.jsx, LoginScreen.jsx, EmployeeAuth.jsx, AdminLogin.jsx, AdminDashboard.jsx) are not part of this model.

## Findings

| source | as written | input that shows it | evidently intended | confidence | as-written member | corrected member |
|---|---|---|---|---|---|---|
| frontend/src/utils/audioConverter.js:11-12 | `Math.min(1, x) * 0x7FFF` clamps only from above; the `Int16Array` store wraps values below -32768 | samples -2.0 and -1.5 encode as +2 and +16386 | clamp to [-1, 1], as the comment's -32768..32767 range says | high (not executed) | AudioConverter.Int16SampleWrapsBelowMinusOne | AudioConverter.ClampedInt16SampleSound |
| backend/app/connection_manager.py:20-35 | an arriving employee is appended to the pool and stays there after taking a waiting customer | C1 connects (queued), E1 connects (paired with C1), C2 connects: C2 is paired with E1 while C1 still is | an employee matched from the queue does not also join the pool | high (not executed) | ConnectionManager.EmployeeDoublyBooked | ConnectionManager.FixedMatchedEmployeeLeavesPool |
| backend/app/connection_manager.py:109-112 | `disconnect` pops the leaver's own pairing and its partner's, but not a third user's pairing that names the leaver, which the double booking above creates | C1 connects, E1 connects, C2 connects, E1 disconnects: C1 stays paired with E1, which has no connection, so its messages reach no one and it is not queued for another employee | pairings stay mutual, so nobody is paired with a user who left | high (not executed) | ConnectionManager.DepartedEmployeeStaysPaired | ConnectionManager.FixedDepartureUnpairsEveryone |
