# LiveTalking client core in Dafny

This project models two sequential pieces of LiveTalking and proves properties about them.

- **The sentence segmenter of `llm_response`** (`segmenter.dfy`, module `Segmenter`). The
  language model's reply arrives as a stream of chunks. The segmenter cuts the text into
  speakable segments, and each segment goes to `put_msg_txt`. A segment is cut at a
  split-point character (`,.!;:` or full-width `，。！？：；`) once the text gathered since
  the last cut is longer than ten characters. The remainder is handed over once when the
  stream ends.
  - `LlmResponse` and `ScanMessage` keep the source's loops: the accumulator `result`, the
    position `lastpos` inside a chunk, and slices of the chunk. The list of strings passed to
    `put_msg_txt` is the method's result.
  - The methods are proved equal to `Segments`, a reference definition that pushes one
    character at a time.
  - `Segments` is proved to be the only *valid segmentation* of the text. A valid
    segmentation is lossless. Every piece but the last is longer than ten characters and
    ends at a split point. No split point inside a piece lies at or past index 10. The last
    piece, the leftover, is always present (possibly empty) and has no split point at or
    past index 10.
- **The connection lifecycle of the `VideoChat` component** (`video_chat.dfy`, module
  `VideoChat`). `start` opens a peer connection and runs the offer/answer handshake. `stop`
  tears the connection down. The `track` listener sends each inbound track to the video or
  the audio element.
  - The component is a class. Its fields are `sessionId`, `isStarted`, `pcRef`, the two
    media elements' `srcObject` (`videoSrc`, `audioSrc`), and a log of the notifications
    shown (`message.success` / `error` / `info`).
  - The peer connection is an opaque handle with a `closed` flag.
  - Each awaited step of `start` is an input that resolves or throws. The steps are
    `createOffer`, `setLocalDescription`, `negotiateOffer` and `setRemoteDescription`.
  - The gathering barrier takes two inputs: the gathering state when the wait begins, and
    the states announced by later `icegatheringstatechange` events. When no event announces
    `complete`, `start` stays suspended forever. The model's outcome for this is
    `AwaitingGathering`.

Where the documented design of the system and its code disagree, the model follows the code:

- `stop` does not reset the session id.
- A failed `start` does not discard its peer connection. It stays in `pcRef`, open. A
  later `start` replaces it without closing it.
- The answer is not validated before it is applied.
- `start` is guarded by `isStarted`, not by the connection state.
- The gathering wait has no timeout.

## Model

| member | source | states |
|---|---|---|
| `Segmenter.LlmResponse` | llm.py:27-50 | The strings passed to `put_msg_txt`, in call order, are exactly `Segments` of the stream text. Their concatenation is the text of all chunks that have a choice. Every string but the last is an in-loop emission. |
| `Segmenter.ScanMessage` | llm.py:36-47 | Scanning one chunk's content with `lastpos` and slices gives the same state as pushing its characters one by one. The invariant keeps `0 <= lastpos <= i <= len(msg)`, so both slices are well defined. |
| `Segmenter.Segments` | llm.py:39-50 | The output is a valid segmentation of the text: lossless, in-loop emissions longer than 10 that end at a split point and are minimal, then one leftover. There is exactly one more call than there are in-loop emissions, and the last call carries the leftover accumulator. |
| `Segmenter.SegmentsCharacterised` | llm.py:40-50 | A list of strings is a valid segmentation of the text if and only if it equals `Segments` of the text. |
| `Segmenter.SegmentationUnique` | llm.py:40-46 | Two valid segmentations of the same text are equal: every cut point is forced. |
| `Segmenter.RunLossless` | llm.py:41-47 | Emitted text followed by the accumulator spells the text fed so far, in order, with nothing dropped. |
| `Segmenter.RunAppend` | llm.py:29-47 | Feeding two pieces of text one after the other, carrying the accumulator across (as it is carried across chunks), equals feeding their concatenation. |
| `Segmenter.PushWellFormed` | llm.py:40-46 | One character keeps the state well formed. An emission is longer than 10, ends with a split point, and has every earlier split point below index 10. The accumulator keeps no split point at or past index 10. |
| `Segmenter.RunWellFormed` | llm.py:39-46 | Any amount of text keeps the state well formed. |
| `Segmenter.RunExtendsSent` | llm.py:45 | Emissions are only appended: earlier calls are never revised. |
| `Segmenter.EmissionClearsResult` | llm.py:43-46 | At the step that emits, the accumulator becomes empty and the emitted string is the old accumulator plus the split character. |
| `Segmenter.EmptyChunkIgnored` | llm.py:30 | A chunk with an empty `choices` list adds no text and changes no emission. |
| `Segmenter.ExampleStreamText` | llm.py:29-36 | For a concrete three-chunk stream whose middle chunk has no choices, the text read is the first choice's content of the other two. |
| `Segmenter.ExampleSegments` | llm.py:40-50 | For "Hello, world. This is fine? yes!" the calls are "Hello, world.", " This is fine? yes!" and a final empty string. ASCII `?` is not a split point. |
| `VideoChat.EventsUntilComplete` | desktop_app/src/components/VideoChat.tsx:42-48 | The listener resolves at the first event that reports `complete`, and only if some event does. |
| `VideoChat.GatheringWait` | desktop_app/src/components/VideoChat.tsx:38-50 | The wait resolves at once exactly when gathering is already complete. Otherwise it resolves at the first state change to `complete`. It never resolves when no such change comes. |
| `VideoChat.Negotiate` | desktop_app/src/components/VideoChat.tsx:34-65 | The handshake connects if and only if every step succeeds, and then the session id is the answer's `sessionid`. A throw before `setSessionId` writes no session id and fails with that step's error. The offer is sent if and only if the earlier steps succeeded and gathering completed. A session id written without connecting means `setRemoteDescription` threw. Conversely, when every step before it succeeds and only `setRemoteDescription` throws, the session id is already the answer's `sessionid` and the failure carries that step's error. |
| `VideoChat.StartNotices` | desktop_app/src/components/VideoChat.tsx:60-64 | Success shows "连接成功". A failure shows "连接失败: " followed by the error. Nothing is shown when `start` is skipped or stays suspended. |
| `VideoChat.Route` | desktop_app/src/components/VideoChat.tsx:24-28 | A track goes to the video sink if and only if its kind is `video`. Every other kind goes to the audio sink. |
| `VideoChat.PeerConnection.constructor` | desktop_app/src/components/VideoChat.tsx:20 | A new connection starts open. |
| `VideoChat.PeerConnection.Close` | desktop_app/src/components/VideoChat.tsx:70 | Closing leaves the connection closed, whatever its previous state. |
| `VideoChat.Component.constructor` | desktop_app/src/components/VideoChat.tsx:7-11 | The session id starts as "0", with `isStarted` false and no connection. |
| `VideoChat.Component.Start` | desktop_app/src/components/VideoChat.tsx:13-66 | When already started, nothing changes. Otherwise a fresh, open connection is left in `pcRef` on every path. `isStarted` becomes true only on success. The session id is the answer's id whenever `setSessionId` was reached, and is unchanged otherwise. The notice log grows by `StartNotices`. The previous connection is not closed. |
| `VideoChat.Component.Stop` | desktop_app/src/components/VideoChat.tsx:68-75 | `Stop` closes the held connection, if any, and clears `pcRef`. `isStarted` becomes false and one info notice is shown. `sessionId` is unchanged. |
| `VideoChat.Component.OnTrack` | desktop_app/src/components/VideoChat.tsx:23-29 | A video track's stream becomes the video element's source. Any other track's stream becomes the audio element's source. The other element and the session state are untouched. |
| `VideoChat.StopTwice` | desktop_app/src/components/VideoChat.tsx:68-75 | Calling `stop` twice leaves the same state as calling it once, with two info notices. The media sources are untouched. |
| `VideoChat.ConnectScenario` | desktop_app/src/components/VideoChat.tsx:38-60 | When every step succeeds and the backend issues session "42" after one non-complete gathering event, the session id is "42". The session is started on an open connection, and a single success notice is shown. |
| `VideoChat.RemoteFailureScenario` | desktop_app/src/components/VideoChat.tsx:20-65 | When `setRemoteDescription` throws, the session id is already the new one and the session is not started. A retry replaces `pcRef` and leaves the first connection open. |

`Segmenter.StreamText`, `Segmenter.Push` and `Segmenter.Run` are reference definitions and carry
no contract of their own. `StreamText` picks the first choice's content of every chunk that has
a choice (llm.py:30, 36). What it promises is stated by `EmptyChunkIgnored` and
`ExampleStreamText`, and through `LlmResponse`. `Push` is one character of the scan at
llm.py:40-47, and `Run` is a run of such steps. What they promise is stated by `RunAppend`,
`RunLossless`, `RunWellFormed`, `RunExtendsSent`, `EmissionClearsResult` and `Segments`. The
methods `ScanMessage` and `LlmResponse` are proved equal to them.

The class invariant `Component.Valid()` is kept by the constructor, `Start`, `Stop` and `OnTrack`. It
says that a started session always holds an open connection.

## Left out

- The OpenAI client, its environment variables and the streaming request (llm.py:10-26) are
  foreign library and network code. The chunks are an input sequence. `delta.content` is
  always a string. In the source a `None` content would raise, and that case is not
  modelled.
- Timing with `time.perf_counter`, the `first` flag that only guards a log line, and the
  `logger.info` calls (llm.py:9, 17-18, 32-35, 44, 48-49) have no effect on what is sent.
- `put_msg_txt` is the returned list of strings. What `BaseReal` does with them is not part
  of this model.
- SDP contents, ICE configuration and the transceivers (VideoChat.tsx:16-19, 31-32) are
  browser internals. The offer payload is not modelled. Only whether it is sent is
  modelled.
- React semantics: asynchronous `setState`, the stale `isStarted` seen by the closure, and
  when the mount effect runs `start` and `stop` (VideoChat.tsx:77-83). `start` and `stop`
  run as sequential methods, with state written immediately.
- Component.OnTrack: the null checks on `videoRef.current` and `audioRef.current` are not
  modelled. The elements are taken to be mounted. `evt.streams[0]` is passed in as one
  stream.
- Component.Start: the error text is the thrown value's string form, given as an input.
  JavaScript's conversion of an `Error` object to a string is not modelled.
- Listener removal after `complete` (VideoChat.tsx:44) does not affect the result, because a
  promise resolves only once. It is not modelled.
- JSX rendering, the hidden session-id input and the speech-recognition iframe
  (VideoChat.tsx:85-122) are presentation and cross-frame I/O.
- The REST wrappers in `desktop_app/src/api/` (including `parseInt` of the session id), the
  chat sidebar and the app shell are presentation or thin I/O.
- The idle watchdog, the speech-capture loop and the assistant-transcript fold appear in the
  documented design of the system but have no code in the files modelled here, so they are
  not part of this model.
