# BankBuddy chat client: message protocol and session model

A Dafny model of the client side of the BankBuddy chat widget. The widget is
a browser script that talks to a bot server over a WebSocket. The model
covers:

- the cookie string parser and writer, the Enter-key test, reading and
  clearing the text input, and the base64 encoding of byte buffers
  (`src/utils.js`);
- the decisions the bot configuration makes about the chat window, i.e.
  which widget buttons appear, whether the microphone icon goes, and whether
  the ellipsis menu goes (`src/utils.js`);
- the choice of the client's identity, either the `sender` cookie or the
  FingerprintJS visitor id, kept in `window.browserFP`
  (`src/fingerprint.js`);
- the outgoing envelope `{tenant, sender, get_config, message | audio_b64 |
  file_b64}` and the classification of incoming replies
  (`src/socketMessages.js`);
- the `BankBuddyWebSocket` send methods and the parse hook (`src/ws.js`);
- microphone access and the `RECORDER`/`RECORDING` globals
  (`src/audioVideo.js`);
- the session's start-up and its event handlers: `open`, `message`, Enter
  in the input, the send button and the microphone icon (`src/index.js`).

Module layout:

- One module per source file: `Utils`, `Fingerprint`, `SocketMessages`,
  `Ws`, `AudioVideo`, `Index`.
- Helper modules:
  - `Wrappers`: `Option`, `Result`, `Outcome` and the JavaScript error kinds.
  - `JsString`: `trim`, `indexOf`, `slice` and `split`, with JavaScript's
    clamping and whitespace rules.
  - `JsValue`: parsed JSON values with truthiness, loose `== false`
    (including `Number(string) == 0`) and `length`.
  - `Base64`: the encoding of section 4 of RFC 4648, with a decoder as its
    inverse.
  - `Browser`: the platform objects the client touches, namely `window`,
    `document.cookie`, the input element, `navigator.mediaDevices` and the
    RecordRTC recorder.

Modelling conventions:

- Pure code is written as functions and lemmas.
- Code that updates fields is written as classes and methods. These are
  `Window`, `Document`, `InputElement`, `BankBuddyWebSocket` (its frame log)
  and `Session` (its render log, and whether the microphone icon and the
  ellipsis are still attached to the page).
- `JSON.parse` is a parameter `string -> Option<Json>`; `None` means it
  throws.
- `JSON.stringify` stays abstract. The frame `Stringified(env)` stands for
  the serialised envelope. `Unserialized(env)` stands for an object handed
  to `send` as it is.
- Each event handler runs to completion before the next one starts.

Behaviours of the code a reader might not expect:

- The chosen identity is only kept in `window.browserFP`; it is never
  written back to a cookie.
- `startAudioRecording` does not refuse a second start; it replaces the
  recorder.
- `WebSocket.send` before the connection is open throws the platform's
  `InvalidStateError`. After the connection closes it silently drops the
  frame. There is no dedicated "not ready" error.
- Every inbound message is checked for `conf`. There is no "configuration
  already applied" flag. A second configuration that removes the microphone
  icon or the ellipsis again throws a `TypeError`, because the element is
  already detached (`MIC_ICON.parentNode` is `null`, or the dropdown button
  is no longer found).
- `quick_replies` and `data` are passed on as they are, `undefined` when
  absent. They are not given a default empty list.
- `stopAudioRecording` with no recorder throws a `TypeError`. It is not a
  clean precondition failure.

## Model

| member | source | states |
|---|---|---|
| JsString.Trim | src/utils.js:27 | the result is a contiguous part of the input that neither starts nor ends with ECMAScript whitespace, and everything removed before and after it is whitespace |
| JsString.IndexOf | src/utils.js:25 | -1 exactly when the character is absent, otherwise a position holding it with no earlier occurrence |
| JsString.IndexOfFirst | src/utils.js:25 | the first occurrence of the character is the position `indexOf` returns |
| JsString.SplitWithoutSeparator | src/utils.js:23 | splitting a string that has no `"; "` gives that string alone |
| JsString.SplitAround | src/utils.js:23 | splitting `a; b` gives the pieces of `a` followed by the pieces of `b` |
| JsValue.Property | src/socketMessages.js:76 | a property is defined exactly for an object that has the key, and it is the stored value |
| JsValue.Utf16Length | src/fingerprint.js:46 | `length` counts one or two units per character and is zero only for the empty string |
| JsValue.LengthOf | src/socketMessages.js:78 | reading `length` fails exactly on `null`; arrays give their element count and strings their UTF-16 length |
| JsValue.LooseFalseOfScalars | src/utils.js:126 | for booleans and numbers, `== false` is falsiness; `undefined` is falsy but not `== false` |
| JsValue.TruthyButLooselyFalse | src/utils.js:126 | `"0"` and `[]` are truthy and yet `== false` |
| Base64.EncodeLength | src/utils.js:89-98 | the encoding has 4·⌈n/3⌉ characters |
| Base64.EncodeCharacters | src/utils.js:89-98 | every character is from the alphabet except a trailing padding of exactly (3 − n mod 3) mod 3 `=` |
| Base64.DecodeEncode | src/utils.js:89-98 | decoding the encoding gives back the bytes |
| Utils.CookieEntryWithSeparator | src/utils.js:24-29 | a piece is split at its first `=`: key is the trimmed prefix, value the untrimmed rest, which may contain `=` |
| Utils.CookieEntryWithoutSeparator | src/utils.js:25-28 | a piece without `=` gives as key the piece minus its last character, trimmed, and as value the whole piece |
| Utils.CollectKeys | src/utils.js:31-37 | the keys of the reduced object are exactly the keys of the entries |
| Utils.CollectLastWins | src/utils.js:31-37 | an entry's value survives when no later entry has its key |
| Utils.CookieKeys | src/utils.js:22-37 | the parsed keys are exactly the keys of the `"; "`-separated pieces |
| Utils.ParseCookiesKeys | src/utils.js:19-37 | the empty cookie string parses to no cookies; otherwise the keys are those of the pieces |
| Utils.ParseCookiesLaterWins | src/utils.js:22-37 | when a key occurs in several pieces, the last piece's value is the one returned |
| Utils.SplitAfterSet | src/utils.js:56 | after a set, the cookie string splits into the old pieces followed by `key=value` |
| Utils.ParseCookiesAfterSet | src/utils.js:19-57 | after `setDocumentCookie(k, v)` the parsed cookies are the old ones with `k` mapped to `v`, plus an empty-key entry when the string was empty, for a trimmed `k` without `=` and no `"; "` in `k` or `v` |
| Utils.SetDocumentCookie | src/utils.js:55-57 | the cookie string becomes the old one followed by `; key=value` |
| Utils.GetInputValueAndClearInput | src/utils.js:77-81 | returns the field's previous value and leaves the field empty |
| Utils.Latin1 | src/utils.js:92-95 | one character per byte, its code the byte's value |
| Utils.Btoa | src/utils.js:91 | `btoa` fails exactly when a character is above U+00FF |
| Utils.ArrayBufferToBase64 | src/utils.js:89-98 | the result is the RFC 4648 base64 of the bytes; the Latin-1 string is never rejected |
| Utils.ArrayBufferToBase64IsRfc4648 | src/utils.js:89-98 | length 4·⌈n/3⌉, alphabet characters then the padding, `""` exactly for an empty buffer, and it decodes back to the bytes |
| Utils.ApplyWidgetsOutcome | src/utils.js:108-135 | the widget step succeeds exactly when every element it removes is still attached; then it makes all its changes and detaches exactly the removed elements; otherwise it throws a `TypeError` after a strict prefix of them; it never reattaches an element |
| Utils.LoadedTrayFindsAll | src/utils.js:118-135 | on a freshly loaded page both removable elements are attached |
| Utils.ConfigurationOrderAndErrors | src/utils.js:100-135 | a missing or null `conf` throws before any write; a missing or null `widgets` throws after the branding; otherwise the branding comes first, then the widget changes, and the step throws a `TypeError` exactly when it removes an element already detached |
| Utils.RepeatedConfiguration | src/utils.js:118-135 | applying a configuration a second time throws a `TypeError` exactly when it removes the microphone icon or the ellipsis, and otherwise succeeds again |
| Utils.WidgetButtonsFollowFixedOrder | src/utils.js:113-116 | buttons are added in the order camera, paperclip, image, location-pin, for exactly the truthy flags |
| Utils.MicRemovedIffFalsy | src/utils.js:118 | the microphone icon is removed exactly when its flag is falsy |
| Utils.EllipsisRemovedIffAllLooselyFalse | src/utils.js:120-135 | the ellipsis is removed exactly when all five flags are `== false`, so a missing flag keeps it |
| Utils.TruthyLooselyFalseMicrophone | src/utils.js:118-126 | a microphone flag that is truthy but loosely equal to `false`, with the other flags `false`, removes only the ellipsis |
| Utils.StringZeroMicrophone | src/utils.js:118-126 | a microphone flag of `"0"` with the other flags `false` removes the ellipsis but keeps the microphone |
| Browser.MediaDevices.GetUserMedia | src/audioVideo.js:17 | each request is logged; a granted request gives a stream for those constraints, a refused one `NotAllowedError` |
| Browser.Window.constructor | src/index.js:43-44 | `RECORDING` starts false, `RECORDER` null, and no identity is set |
| Fingerprint.FingerprintLibrary.LoadAndGet | src/fingerprint.js:13-14 | loading and asking the library gives its visitor id and counts one call |
| Fingerprint.GetBrowserFingerPrint | src/fingerprint.js:12-17 | the result carries the library's visitor id; the library is asked once |
| Fingerprint.SetClientFingerPrint | src/fingerprint.js:23-33 | `getClientFingerPrint` after `setClientFingerPrint(x)` returns `x` |
| Fingerprint.SenderCookie | src/fingerprint.js:44-46 | the cookie is usable exactly when `sender` is present and non-empty |
| Fingerprint.InitializeFingerPrint | src/fingerprint.js:38-51 | stores the chosen identity, changes no other global and no cookie, and asks the library only when there is no usable `sender` cookie |
| Fingerprint.IdentityFromCookie | src/fingerprint.js:43-47 | a non-empty `sender` cookie is the identity whatever the library would say |
| Fingerprint.IdentityFromLibrary | src/fingerprint.js:48 | otherwise the identity is the visitor id |
| Fingerprint.SameSenderSameIdentity | src/fingerprint.js:43-50 | two runs with the same non-empty `sender` cookie give the same identity |
| Fingerprint.IdentityScenarios | src/fingerprint.js:43-48 | cookie `sender=abc123` gives `abc123`; no cookies with visitor id `fp-987` gives `fp-987` |
| Fingerprint.SetSenderCookieIsIdentity | src/fingerprint.js:41-48 | whatever the cookie string held before, a `sender` cookie then written with `setDocumentCookie` is read back as the identity |
| SocketMessages.FormatOutgoingMessage | src/socketMessages.js:19-70 | tenant and sender take their defaults; `get_config` holds only when `getConfig` is true |
| SocketMessages.AtMostOnePayload | src/socketMessages.js:52-67 | an envelope has at most one of `message`, `audio_b64`, `file_b64` |
| SocketMessages.FalsyMessageHasNoPayload | src/socketMessages.js:54-55 | `undefined`, `null` or `""` gives no payload key |
| SocketMessages.PayloadFollowsType | src/socketMessages.js:43-67 | a non-empty message goes to exactly the key its type selects (default text), unchanged; an unknown type sets none |
| SocketMessages.PayloadIgnoresGetConfig | src/socketMessages.js:41-67 | the payload does not depend on `getConfig` |
| SocketMessages.EnvelopeDefaults | src/socketMessages.js:45-50 | tenant: option, else URL query, else `TENANT_ID`; sender: option, else fingerprint; empty strings count as absent |
| SocketMessages.TextWithTenantAndSenderScenario | src/socketMessages.js:19-70 | `"Hello"` with tenant `t1` and sender `s1` gives `{tenant:"t1", sender:"s1", get_config:false, message:"Hello"}` |
| SocketMessages.EnvelopeJson | src/socketMessages.js:52 | the serialised envelope always has `tenant` and `get_config`, and `sender` exactly when it is defined |
| SocketMessages.EnvelopeJsonKeys | src/socketMessages.js:52-67 | the serialised keys are among the six envelope keys, with the tenant and flag values, and at most one payload key |
| SocketMessages.DefaultMessageParser | src/socketMessages.js:72-83 | a text `JSON.parse` rejects gives a `SyntaxError` |
| SocketMessages.ParserFailsExactly | src/socketMessages.js:73-78 | the parser fails exactly when parsing fails (`SyntaxError`), or on a primitive or a `null` `data` (`TypeError`) |
| SocketMessages.ParserCopiesFields | src/socketMessages.js:75-80 | `isConfMessage` holds exactly when `conf` is a key; `conf`, `quick_replies` and `data` are copied, `undefined` when absent |
| SocketMessages.CarouselIffLongData | src/socketMessages.js:77-78 | `displayAsCarousel` holds exactly when `data` is present with length above one (for an array, more than one element) |
| SocketMessages.CarouselReplyScenario | src/socketMessages.js:72-83 | two cards with quick replies classify as a carousel that is not a configuration |
| SocketMessages.SingleCardScenario | src/socketMessages.js:72-83 | one card classifies as not a carousel |
| SocketMessages.ConfAndPlainScenarios | src/socketMessages.js:72-83 | a reply with `conf` is a configuration; a plain reply is neither configuration nor carousel |
| Ws.BankBuddyWebSocket.constructor | src/ws.js:18-20 | a new socket is connecting and has sent nothing |
| Ws.BankBuddyWebSocket.Opened | src/index.js:50 | the `open` event finds the connection open |
| Ws.BankBuddyWebSocket.Send | src/ws.js:30 | connecting: `InvalidStateError`; open: the frame is appended; closing or closed: dropped without error |
| Ws.BankBuddyWebSocket.SendJSONMessage | src/ws.js:29-31 | exactly one frame, the serialisation of the argument, appended when open |
| Ws.BankBuddyWebSocket.SendFileMessage | src/ws.js:38-41 | the file envelope is appended unserialised |
| Ws.BankBuddyWebSocket.SendFileMessageStringified | src/ws.js:38-41 | the file envelope is appended serialised |
| Ws.BankBuddyWebSocket.SendAudioMessage | src/ws.js:48-56 | exactly one serialised audio envelope is appended when open; only the frame log changes |
| Ws.BankBuddyWebSocket.ParseIncomingMessage | src/ws.js:71-74 | a left-out parser defaults to `JSON.parse` (failing exactly when it throws), a falsy one gives back the message as it is, and a function's result is returned |
| Ws.JsonParse | src/ws.js:71 | `JSON.parse` fails, with a `SyntaxError`, exactly when the text does not parse |
| Ws.DefaultParserRejectsLikeMessageParser | src/ws.js:71-74 | with the default parser a message is rejected exactly when `defaultMessageParser` reports a `SyntaxError` for it |
| Ws.EmptyAudioHasNoPayload | src/ws.js:49-53 | an empty buffer encodes to `""`, so the envelope has no `audio_b64` and no payload |
| Ws.AudioEnvelopeCarriesBytes | src/ws.js:48-56 | a non-empty buffer travels as its base64 in `audio_b64` only, and decodes back |
| Ws.FileFrameIsUnreadable | src/ws.js:38-41 | the unserialised file frame carries no readable envelope; the serialised one carries the file's base64 |
| AudioVideo.DeviceConstraints | src/audioVideo.js:16 | arguments left out default to audio on and video off |
| AudioVideo.GetDeviceAccess | src/audioVideo.js:16-18 | one `getUserMedia` request with those constraints; its answer is returned |
| AudioVideo.StartAudioRecording | src/audioVideo.js:23-31 | asks for audio only; when granted, a fresh `audio/webm` recorder is recording and `RECORDING` is set, replacing any earlier recorder; when refused, neither global changes |
| AudioVideo.StopAudioRecording | src/audioVideo.js:37-41 | with no recorder, a `TypeError` and nothing changes; otherwise the recorder stops, `RECORDING` is false, `RECORDER` still refers to it, and the bytes are returned |
| Index.Session.constructor | src/index.js:43-44 | start-up leaves `RECORDING` false and `RECORDER` null, the identity chosen, the socket connecting with no frames, one scroll drawn, and the microphone icon and ellipsis attached |
| Index.Session.OnOpen | src/index.js:50-56 | on open exactly one frame is sent, the configuration request |
| Index.Session.OnMessage | src/index.js:60-74 | each message is parsed and routed by its own `isConfMessage`: configuration applied to the page as earlier messages left it, or the reply displayed, then a scroll; a throw stops the handler; the page's attached elements are updated |
| Index.Session.SubmitInput | src/index.js:87-92 | the input is always cleared; an empty value sends and draws nothing; otherwise the text envelope is sent, then the user's turn, the scroll and the clearing of quick replies are drawn |
| Index.Session.OnKeypress | src/index.js:85-94 | a key other than Enter changes nothing; Enter submits the input |
| Index.Session.OnSendClick | src/index.js:98-105 | a click submits the input |
| Index.Session.OnMicClick | src/index.js:109-114 | not recording: only starts a recording and sends nothing; recording: stops it and sends exactly one audio frame |
| Index.HandshakeRequestsConfiguration | src/index.js:52-56 | the handshake has `get_config` true and no payload key |
| Index.TextEnvelopeCarriesText | src/index.js:89 | typed text travels in `message` with `get_config` false |
| Index.MessageIsConfiguredOrDisplayed | src/index.js:68-71 | a configuration message is applied and never displayed; any other is displayed and configures nothing |
| Index.RejectedMessageDrawsNothing | src/index.js:63-66 | a message the parser rejects draws nothing |
| Index.RepeatedConfigurationMessage | src/index.js:68-73 | a configuration message received twice throws a `TypeError` the second time, and draws no scroll, exactly when it removes an element; otherwise it ends with the scroll again |

`Utils.PressedKeyIsEnter` (src/utils.js:68-70) is a predicate: it holds exactly
when the event's code is `"Enter"`. `Index.Session.OnKeypress` states what
follows from it.

## Findings

| source | as written | input that shows it | evidently intended | confidence | as-written member | corrected member |
|---|---|---|---|---|---|---|
| src/ws.js:38-41 | `sendFileMessage` hands the envelope object to `send` without `JSON.stringify`, so the frame is the text "[object Object]" and the file is lost | any non-empty file on an open socket, e.g. the single byte 0x41; shown by `Ws.FileFrameIsUnreadable` | serialise the envelope as `sendAudioMessage` does | not executed | Ws.BankBuddyWebSocket.SendFileMessage | Ws.BankBuddyWebSocket.SendFileMessageStringified |

No handler in `src/index.js` calls `sendFileMessage`, so nothing else in the
model depends on either version.

## Left out

- DOM construction and rendering (`src/dom.js`) are recorded only as render
  operations.
  - `displayBotMessage` and `scrollToBottom` are assumed not to throw.
  - Calls into names that `src/dom.js` never defines are not modelled.
- `MIC_ICON` is not declared in `src/utils.js`. The model assumes the name
  resolves to the icon element.
- The DOM writes of the configuration step are recorded as `DomChange`
  values. These are the image, heading and subheading, the widget buttons,
  and the removal of the microphone icon and the ellipsis.
- The async races between handlers are left out.
  - `initializeFingerPrint` is not awaited before the socket opens. The
    model runs it to completion inside the session constructor.
  - `startAudioRecording` is not awaited in the microphone handler.
  - `recorder.startRecording()` is not awaited either.
  Each handler is atomic.
- FingerprintJS, `getUserMedia`, RecordRTC and the platform WebSocket are
  reduced to fixed answers and logs.
  - A failing fingerprint load is not modelled.
  - The audio a recorder captures is a parameter of the microphone handler.
- JSON text syntax is not modelled. `JSON.parse` is a parameter and
  `JSON.stringify` stays abstract (`Ws.Frame`).
- The `error` handler only logs to the console. It and the other console
  output are left out.
- `TENANT_ID` is modelled as a string. An undefined build-time value is not
  modelled.
- `document.cookie` assignment is modelled as string concatenation. The
  browser's cookie-jar semantics are not modelled.
- The URL `tenant` query is read as the fixed value `Window.locationTenant`.
  URL parsing is not modelled.
- SocketMessages.FormatOutgoingMessage: `getConfig` is modelled as a
  boolean option. A non-boolean truthy `getConfig`, which JavaScript would
  copy into `get_config` as it is, is not modelled.
- SocketMessages.FormatOutgoingMessage: the message is modelled as a string.
  Non-string messages (an `ArrayBuffer` passed directly) are not modelled;
  every caller passes a string.
- JsValue.GreaterThanOne: `x > 1` is decided only for numbers, and is false
  for everything else. This matters only when `data` is an object whose own
  `length` property is a string or an array. For such a value
  JavaScript's numeric conversion may give a different answer.
- JsValue.LooselyEqualsFalse: a numeric string is compared with 0 by the
  exact value of its literal. The rounding of `Number(s)` to a double is not
  modelled, so a non-zero literal below the smallest double, such as
  `"1e-400"`, is `== false` in JavaScript but not in the model. The same
  holds for Utils.EllipsisRemovedIffAllLooselyFalse, which is stated in
  terms of it.
- Utils.CookieEntryWithoutSeparator: strings are sequences of characters,
  and `slice(0, -1)` removes the last character. JavaScript removes the last
  UTF-16 code unit, so for a piece without `=` that ends in a character above
  U+FFFF it leaves a lone high surrogate in the key. A character of the model
  cannot hold a lone surrogate. Where `=` is present, positions in
  characters and in code units select the same parts.
- Ws.BankBuddyWebSocket: the `protocols` constructor argument and the
  closing handshake are not modelled. The socket reaches only the
  `Connecting` and `Open` states through the model's own methods.
