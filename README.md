# pytboss transport and protocol core, in Dafny

pytboss is a Python client for PitBoss pellet-grill controllers. It speaks a
JSON RPC protocol (Mongoose OS RPC) to the grill, either over Bluetooth LE
(GATT characteristics) or through a WebSocket relay. This project models the
client's core and proves properties of it:

- **Password codec** (`Codec`, codec.py). `timed_key` derives an 8-byte key
  from the grill's uptime. `encode` and `decode` are a keyed XOR stream whose
  key schedule feeds back the ciphertext byte. Proved here:
  - decoding an encoding gives back the data;
  - two uptimes in the same 10-second bucket give the same key;
  - the derived key is the base key rearranged, with the last byte never
    whitened.
- **RPC correlation** (`Transport`, transport.py). A counter hands out ids
  `(last + 1) & 2047`. A map from id to pending call is filled by
  `send_command` and drained by `_on_command_response`. Each method runs
  atomically. `SendCommand` joins two lock-guarded regions, the id
  allocation and the registration, so another call taking an id between
  the two is not modelled.
- **BLE framing** (`Ble`, ble.py):
  - a 4-byte big-endian length goes to the tx_ctl characteristic;
  - the frame follows in pieces of at most 20 characters;
  - on receipt, the announced length is read back from the data
    characteristic, and the answer is settled against the BLE copy of the
    pending map.
- **WebSocket dispatch** (`Wss`, wss.py). Every outgoing frame is stamped
  with `app_id`. The read loop sorts incoming frames into state callbacks,
  command answers (the loop ends on a match) and vdata.
- **Grill definitions** (`GrillTemplates` and `Grills`, grills.py;
  `GrillDefs`, grills/__init__.py):
  - the JavaScript helpers embedded in the templates (`formatHex`,
    `formatDecimal`, `convertTemperature`, `parseHexMessage`, the
    `startsWith` polyfill);
  - `Command.__call__` and the `parse_*` guards;
  - `Grill.from_dict`, which includes Python's `int()` of a string and
    `str.split`;
  - the two differing `get_grills` and `get_grill` lookups.
- **Façade** (`Api`, api.py; `Config`, config.py; `Fs`, fs.py):
  - temperature clamping and light gating;
  - state merging and fan-out to subscribers;
  - the uptime cache and the conditional `psw` parameter;
  - the Wi-Fi parameter builder;
  - the chunked `FS.Get` read loop.

  These run against `Rpc.Conn`: a transport seen from outside, which logs
  every request and answers from a script of replies.

Shared values live in `Json`:
- a JSON datatype;
- Python truthiness;
- the exceptions the source raises, and a `Result` that carries them.

Code that changes state in place is modelled as classes whose methods
carry `modifies` clauses. These are the transports, `PitBoss`,
`FileSystem` and `Config`. The loops of the source are `while` loops
with invariants, proved against a specification function:
- `timed_key`, `encode` and `decode`;
- `_send_prepared_command` and the BLE receive loop;
- `_subscribe`;
- `parseHexMessage`;
- both `get_grills`;
- `get_file_content`.

Behaviour of the code that the model keeps as written:
- The WebSocket transport stamps the fixed `app_id` "FIXME" and does not
  filter incoming frames by it. There is no reconnection or backoff.
  Sending before `connect` raises `AttributeError` (`None.send`).
- A WebSocket frame with an unmatched `id` and a truthy `result` goes to
  the vdata callback.
- The BLE transport reads the error message of a failed call from the top
  level of the answer (`payload["message"]`). The WebSocket transport reads
  it inside `payload["error"]`; see `Ble.ErrorMessagePlacement`.
- `subscribe_debug_logs` never awaits its `start_notify`, so the model does
  not switch debug-log notifications on. Debug-log data goes to the
  callback as is.

## Model

| member | source | states |
|---|---|---|
| Codec.TimedKeyFrom | pytboss/codec.py:14-20 | the derived key has as many bytes as the base key (8 for KEY) |
| Codec.BucketBounds | pytboss/codec.py:13 | the bucket is floor(max(uptime - 5, 0) / 10); any uptime up to 5 is in bucket 0 |
| Codec.BucketWindow | pytboss/codec.py:13 | bucket n holds exactly the uptimes in [5 + 10n, 15 + 10n); bucket 0 holds all below 15 |
| Codec.SameBucketSameKey | pytboss/codec.py:13-20 | two uptimes in one 10-second window give the same key |
| Codec.TimedKeyLast | pytboss/codec.py:15-19 | the last key byte is the entry never popped, not XORed with n |
| Codec.PoppedAndRemaining | pytboss/codec.py:14-19 | the popped entries plus the remaining one are a permutation of the base key |
| Codec.TimedKeyIsPoppedXor | pytboss/codec.py:13-18 | key byte j (all but the last) is the j-th popped entry XOR the j-th running value; the running values start at n and each next one is `(n * v + v) & 0xFF` of the previous one and its popped byte |
| Codec.LastNeverPopped | pytboss/codec.py:15-19 | with distinct entries, the last key byte is a base-key entry that no popped entry equals |
| Codec.KeyDistinct | pytboss/codec.py:6 | the eight entries of KEY are pairwise distinct |
| Codec.TimedKeyStep | pytboss/codec.py:16-18 | one loop pass pops entry n mod len, emits it whitened and advances n to (n*v + v) & 0xFF |
| Codec.PopKey | pytboss/codec.py:14-20 | the pop loop over a working copy produces exactly the specified key |
| Codec.TimedKey | pytboss/codec.py:10-20 | `timed_key(uptime)` is the key of the uptime's bucket derived from KEY |
| Codec.Encrypt | pytboss/codec.py:28-33 | the encoding walk emits one byte per input byte |
| Codec.Decrypt | pytboss/codec.py:41-46 | the decoding walk emits one byte per input byte |
| Codec.EncryptStep | pytboss/codec.py:29-33 | one encoding pass emits (b ^ k) & 0xFF and schedules the key with the output byte |
| Codec.DecryptStep | pytboss/codec.py:42-46 | one decoding pass emits (b ^ k) & 0xFF and schedules the key with the input byte |
| Codec.EncryptInvariant | pytboss/codec.py:28-33 | the encoding loop's invariant (output so far plus the rest of the walk is the whole walk) survives one pass |
| Codec.DecryptInvariant | pytboss/codec.py:41-46 | the decoding loop's invariant survives one pass |
| Codec.DecryptEncrypt | pytboss/codec.py:28-46 | decrypting an encryption with the same key and start gives the input back, for any non-empty key |
| Codec.EncryptDecrypt | pytboss/codec.py:28-46 | encrypting a decryption gives the ciphertext back |
| Codec.IndexOf | pytboss/codec.py:49 | `list.index` is the position of the first occurrence |
| Codec.StripMarker | pytboss/codec.py:48-51 | everything after the first 0xFF, or the whole buffer when there is none (the ValueError is swallowed) |
| Codec.DecodeEncode | pytboss/codec.py:23-53 | the encoding is 17 + len(data) bytes long and decodes to the data, for any padding in 0..254 and any non-empty key |
| Codec.PasswordCheck | pytboss/codec.py:10-53 | a password encoded with the key of one uptime decodes with the key of any uptime in the same bucket |
| Codec.Encode | pytboss/codec.py:23-34 | `encode` yields the padding, the marker and the data run through the walk, on a private copy of the key; 17 + len(data) bytes |
| Codec.Decode | pytboss/codec.py:37-53 | `decode` runs the walk on a private copy of the key and strips up to the first marker |
| Transport.NextIdRange | pytboss/transport.py:60-63 | ids are in 0..2047; the first id from 0 is 1; 2047 wraps to 0; below 2047 the id is last + 1 |
| Transport.AllocationsAt | pytboss/transport.py:60-63 | the j-th of k consecutive allocations is (last + j + 1) mod 2048 |
| Transport.AllocationsDistinct | pytboss/transport.py:60-63 | 2048 consecutive allocations yield pairwise distinct ids |
| Transport.AllocationsWrap | pytboss/transport.py:60-63 | the 2048th allocation gives back the starting counter |
| Transport.Settle | pytboss/transport.py:71-80 | no slot means no match; a cancelled slot is dropped; an error fails the call with the nested message or "Unknown error"; otherwise the result resolves it |
| Transport.RespondEffect | pytboss/transport.py:68-80 | an unknown id changes nothing and reports no match; a known id removes exactly its entry and reports a match, unless settling raises (an answer with neither error nor result) |
| Transport.SecondResponseUnmatched | pytboss/transport.py:68-80 | repeating a response finds nothing and changes nothing |
| Transport.CancelledDropped | pytboss/transport.py:70-80 | a cancelled call's entry is removed without resolving it, and the handler still returns True |
| Transport.Transport.constructor | pytboss/transport.py:16-19 | the counter starts at 0 with no pending calls |
| Transport.Transport.NextCommandId | pytboss/transport.py:60-63 | the counter advances to (last + 1) & 2047 and that id is returned |
| Transport.Transport.PrepareCommand | pytboss/transport.py:65-66 | the frame has a fresh id and the method and params unchanged |
| Transport.Transport.SendCommand | pytboss/transport.py:43-47 | a waiting slot is registered under the frame's id before transmission; nothing else in the map changes |
| Transport.Transport.CancelCall | pytboss/transport.py:73 | a caller giving up marks its slot cancelled and leaves it in the map |
| Transport.Transport.OnCommandResponse | pytboss/transport.py:68-80 | the pending map and the outcome are those of `Respond` |
| Ble.LengthRoundTrip | pytboss/ble.py:130-152 | decoding the 4-byte prefix gives the length mod 2^32, so exactly the length below 4 GiB |
| Ble.EncodeLength | pytboss/ble.py:131-135 | the byte-shifting loop builds the big-endian length prefix |
| Ble.ChunksConcat | pytboss/ble.py:137-139 | the data pieces concatenate to exactly the frame |
| Ble.ChunksShape | pytboss/ble.py:137-139 | there are ceil(len / 20) pieces of 1 to 20 characters; all but the last have exactly 20 |
| Ble.SixtyOneCharacters | pytboss/ble.py:137-139 | a 61-character frame goes out as 4 pieces, the first of 20 and the last of 1 |
| Ble.ChunkStep | pytboss/ble.py:137-139 | the pieces from offset i are cmd[i:i+20] followed by the pieces from i + 20 |
| Ble.SentStep | pytboss/ble.py:137-139 | one pass of the sending loop keeps the writes so far a prefix of all data writes |
| Ble.ReadResponse | pytboss/ble.py:152-155 | reads stop as soon as at least resp_len bytes are in; a length of 0 makes no read; running out of reads reports the answer incomplete |
| Ble.Settle | pytboss/ble.py:159-167 | unknown ids and cancelled calls are ignored; an error fails the call with the top-level message or "Unknown error"; otherwise the result resolves it |
| Ble.ErrorMessagePlacement | pytboss/ble.py:163-164 | on the same error payload, BLE reports the top-level message and the base transport the nested one |
| Ble.BleConnection.constructor | pytboss/ble.py:51-59 | counter 0, no pending calls, no debug-log callback, nothing written |
| Ble.BleConnection.Start | pytboss/ble.py:61-63 | notifications are enabled on rx_ctl |
| Ble.BleConnection.Stop | pytboss/ble.py:65-69 | rx_ctl notifications stop, and debug-log notifications too when subscribed |
| Ble.BleConnection.SubscribeDebugLogs | pytboss/ble.py:71-83 | a second subscription fails its assertion and changes nothing; the first stores the callback |
| Ble.BleConnection.CancelDebugLogs | pytboss/ble.py:85-90 | cancel clears the callback and stops the notifications; once cleared it is a no-op |
| Ble.BleConnection.OnDebugLogReceived | pytboss/ble.py:141-147 | the data goes to the callback unchanged, or is dropped when none is registered |
| Ble.BleConnection.NextCommandId | pytboss/ble.py:94-97 | the counter advances to (last + 1) & 2047 and that id is returned |
| Ble.BleConnection.SendPreparedCommand | pytboss/ble.py:130-139 | the writes are extended by the length prefix and then the pieces of the frame, in order |
| Ble.BleConnection.SendCommand | pytboss/ble.py:99-116 | a fresh id is registered as waiting and its serialised frame transmitted |
| Ble.BleConnection.SendCommandTimedOut | pytboss/ble.py:110-115 | when the transmit times out, TimeoutError is raised, only the writes made before it went out, and the fresh id stays registered as waiting |
| Ble.BleConnection.SendCommandWithoutAnswer | pytboss/ble.py:118-128 | a fresh id is taken and its frame transmitted; nothing is registered |
| Ble.BleConnection.OnRpcDataReceived | pytboss/ble.py:149-167 | it reports truncation exactly when there are under 4 bytes; otherwise it stops at the first read that brings the total to the announced length and settles the answer against the pending map; it starves, with nothing changed, exactly when all the reads together fall short |
| Wss.Stamp | pytboss/wss.py:68-70 | the sent frame is the command with `app_id` "FIXME" added and every other field unchanged |
| Wss.StateCalls | pytboss/wss.py:53-54 | one state call per status entry, in list order |
| Wss.Dispatch | pytboss/wss.py:46-62 | the loop consumes no more frames than it is given, and all of them when the stream ends it |
| Wss.StatusInOrder | pytboss/wss.py:51-54 | a status list of N entries makes N state calls first, in order |
| Wss.StopIgnoresLaterFrames | pytboss/wss.py:55-58 | once the loop has stopped, later frames change nothing |
| Wss.AnswerEndsLoop | pytboss/wss.py:55-58 | a matching answer ends the loop after that frame |
| Wss.UnmatchedResultIsVData | pytboss/wss.py:55-62 | an answer nobody waits on does not stop the loop, and its truthy result goes to vdata |
| Wss.StatusAndVData | pytboss/wss.py:51-62 | one frame can make state calls and then a vdata call |
| Wss.WebSocketConnection.constructor | pytboss/wss.py:18-34 | not connected, no socket, no callbacks, fresh transport state |
| Wss.WebSocketConnection.Connect | pytboss/wss.py:36-44 | the socket is open, the callbacks are kept and the connection reports connected |
| Wss.WebSocketConnection.SendPreparedCommand | pytboss/wss.py:68-70 | with a socket the stamped frame is sent; without one the send raises and nothing is sent |
| Wss.WebSocketConnection.SendCommand | pytboss/transport.py:43-47 | the call is registered under a fresh id, then its stamped frame is sent |
| Wss.WebSocketConnection.SendCommandWithoutAnswer | pytboss/transport.py:58 | as written, the call always raises TypeError and sends nothing |
| Wss.WebSocketConnection.SendCommandWithoutAnswerFixed | pytboss/transport.py:50-58 | as intended, a fresh id is taken and the stamped frame sent; nothing is registered |
| Wss.WebSocketConnection.HandleFrame | pytboss/wss.py:49-62 | one loop pass does exactly what `Step` says to the events and the pending map |
| Wss.WebSocketConnection.Subscribe | pytboss/wss.py:46-62 | the read loop produces exactly `Dispatch`'s events, frames consumed, stop reason and pending map |
| GrillTemplates.FormatHexDigits | pytboss/grills.py:16-19 | for n >= 0, formatHex is the two low hex digits of n |
| GrillTemplates.FormatDecimalDigits | pytboss/grills.py:20-23 | for n >= 0, formatDecimal is the three low decimal digits of n |
| GrillTemplates.FormatHexValue | pytboss/grills.py:16-19 | formatHex always has 2 characters; for n >= 0 they are hex digits worth n mod 256 |
| GrillTemplates.FormatDecimalValue | pytboss/grills.py:20-23 | formatDecimal always has 3 characters; for n >= 0 they are decimal digits worth n mod 1000 |
| GrillTemplates.FormatExamples | pytboss/grills.py:16-23 | formatHex(11) is "0b", formatHex(255) is "ff", formatDecimal(7) is "007" |
| GrillTemplates.ParsedHex | pytboss/grills.py:42-48 | one number per two characters: (L + 1) / 2 numbers for length L |
| GrillTemplates.ParseHexMessage | pytboss/grills.py:42-48 | the loop over the message produces exactly `ParsedHex` |
| GrillTemplates.ParsedHexAt | pytboss/grills.py:44-46 | the k-th number is parseInt of characters 2k and 2k+1 |
| GrillTemplates.ParseTwoHex | pytboss/grills.py:45 | two hex digits parse to their value |
| GrillTemplates.ParseFormatHex | pytboss/grills.py:16-19 | parseInt(formatHex(v), 16) is v for a byte value v |
| GrillTemplates.HexRoundTripAt | pytboss/grills.py:42-48 | position k of the parse of a formatHex-built string is byte k |
| GrillTemplates.HexRoundTrip | pytboss/grills.py:42-48 | parseHexMessage reads back exactly the bytes formatHex wrote |
| GrillTemplates.ConvertTemperatureCases | pytboss/grills.py:34-41 | null exactly for a reading of 960; otherwise the three-digit number; NaN when a part is missing |
| GrillTemplates.ConvertTemperatureExamples | pytboss/grills.py:34-41 | digits 1, 9, 1 give 191; digits 9, 6, 0 give null |
| GrillTemplates.StartsWithMeansOccursAt | pytboss/grills.py:30-32 | the intended polyfill is true iff search occurs at the clamped position |
| GrillTemplates.StartsWithAgreeAtZero | pytboss/grills.py:30-32 | without a position, the polyfill as written and as intended agree |
| GrillTemplates.StartsWithAsWrittenMisses | pytboss/grills.py:30-32 | as written, "abc".startsWith("bc", 1) is false, though "bc" occurs at 1 |
| Grills.DecimalValue | pytboss/grills.py:166 | a decimal numeral's digits are worth the number |
| Grills.PyIntOfDecimal | pytboss/grills.py:166 | int(str(n)) is n for every natural n |
| Grills.PyIntOfMinus | pytboss/grills.py:166 | a minus sign before a well-grouped numeral negates its value |
| Grills.PyIntOfNegative | pytboss/grills.py:166 | int("-" + str(n)) is -n |
| Grills.PyIntRejectsWord | pytboss/grills.py:165-169 | int("Smoke") raises ValueError |
| Grills.PyIntRejectsEmpty | pytboss/grills.py:165-169 | int("") raises ValueError |
| Grills.PyIntRejectsFraction | pytboss/grills.py:165-169 | int("12.5") raises ValueError |
| Grills.JoinSplit | pytboss/grills.py:185 | joining the pieces of `split` again gives the string back |
| Grills.SplitJoin | pytboss/grills.py:185 | splitting a join of separator-free pieces gives the pieces back |
| Grills.ParseIncrements | pytboss/grills.py:184-186 | a successful parse has one value per piece |
| Grills.ParseFirst | pytboss/grills.py:184-186 | a numeral first piece puts its value in front of the rest's parse |
| Grills.ParseNumerals | pytboss/grills.py:184-186 | parsing the numerals of ns gives ns |
| Grills.TempIncrementsRoundTrip | pytboss/grills.py:184-186 | increments written "a/b/c" read back as [a, b, c] |
| Grills.CommandsKeyedBySlug | pytboss/grills.py:112-115 | every command is stored under its own slug, and every listed slug is a key |
| Grills.LimitParsing | pytboss/grills.py:164-176 | a non-numeral limit is absent; a number or numeral is kept; null raises TypeError |
| Grills.FromDictFields | pytboss/grills.py:161-189 | has_lights iff lights > 0; limits parsed or absent; the increments, the board, the meat probes, the name and the raw dict are kept |
| Grills.Call | pytboss/grills.py:80-88 | a truthy hex is returned whatever the arguments; no hex and no snippet raises NotImplementedError; otherwise the snippet's value |
| Grills.HexIgnoresArguments | pytboss/grills.py:82-83 | with a hex string, arguments and evaluator make no difference |
| Grills.ParseStatus | pytboss/grills.py:120-124 | raises NotImplementedError iff the status body is falsy |
| Grills.ParseTemperatures | pytboss/grills.py:126-130 | raises NotImplementedError iff the temperatures body is falsy |
| Grills.Find | pytboss/grills.py:218 | a name is found iff it is in the table, and then its definition is returned |
| Grills.GrillsStep | pytboss/grills.py:205-209 | one loop pass: an exception ends the generator, a skipped entry adds nothing, a loaded grill is appended |
| Grills.GetGrills | pytboss/grills.py:199-209 | the loop yields exactly the specified grills and stops with the specified exception |
| Grills.GetGrillsFilters | pytboss/grills.py:199-209 | on a well-formed table, the grills are `from_dict` of the entries that have a status parser and the asked-for board, in table order |
| Grills.GetGrill | pytboss/grills.py:212-220 | an unknown name, or one stored as null, raises InvalidGrill; otherwise `from_dict` of the definition |
| GrillDefs.GetGrills | pytboss/grills/__init__.py:17-25 | the loop yields exactly the specified definitions |
| GrillDefs.AllWithoutBoard | pytboss/grills/__init__.py:23-25 | without a board every definition comes out, in table order, and nothing raises |
| GrillDefs.OnlyThatBoard | pytboss/grills/__init__.py:23-25 | with a board, exactly the definitions on that board come out, in table order |
| GrillDefs.ListsWithoutStatusParser | pytboss/grills/__init__.py:23-25 | a definition without a status parser is listed here but skipped by grills.py |
| GrillDefs.GetGrill | pytboss/grills/__init__.py:28-34 | the stored definition, or an empty dict for an unknown name |
| GrillDefs.GetGrillLookups | pytboss/grills/__init__.py:34 | a listed name gives its own definition; an unlisted one gives {} where grills.py raises InvalidGrill |
| Api.Clamp | pytboss/api.py:169-172 | at least a set minimum; at most a set maximum unless they cross; unchanged within the limits; below the minimum gives the minimum, above the maximum gives the maximum unless they cross |
| Api.ClampSettles | pytboss/api.py:169-172 | clamping is idempotent, and crossed limits give the minimum |
| Api.Hex | pytboss/api.py:137-139 | `bytes.hex()` has two characters per byte |
| Api.HexIsFormatHex | pytboss/api.py:137-139 | `bytes.hex()` equals the text formatHex writes for those bytes |
| Api.PswCarriesPassword | pytboss/api.py:135-140 | the psw hex parses back to the encoded bytes, which decode to the password under any uptime in the same bucket |
| Api.UptimeCached | pytboss/api.py:256-264 | a cache at most 5 s old answers without a request |
| Api.UptimeReused | pytboss/api.py:256-264 | after a successful fetch, asking again within 5 s makes no request and gives the same uptime |
| Api.AuthAddsPsw | pytboss/api.py:135-140 | psw is added iff a password is set, the other params are untouched, and no password means no request |
| Api.SlugSendsItsHex | pytboss/api.py:142-149 | a successful command ends with PB.SendMCUCommand carrying its command's hex string |
| Api.LightFrom | pytboss/api.py:194-204 | no lights gives {} and no request; otherwise the light command is sent |
| Api.Merge | pytboss/api.py:98-106 | a non-empty dict is merged over the state; a falsy value adds nothing; a list is read as pairs; a string raises ValueError; a number or `True` raises TypeError |
| Api.AsPair | pytboss/api.py:101 | a pair is a two-item list with a string key or a two-character string; other lengths raise ValueError, non-iterables TypeError |
| Api.MergePairs | pytboss/api.py:101 | succeeds exactly when every element is a pair, and keeps every key of the state |
| Api.MergePairsFirstError | pytboss/api.py:101 | the first element that is not a pair decides the error |
| Api.MergePairsLastWins | pytboss/api.py:101 | a key takes the value of the last pair naming it |
| Api.MergePairsUntouched | pytboss/api.py:101 | a key no pair names keeps its value, or stays absent |
| Api.IncomingMerges | pytboss/api.py:98-106 | a field comes from the temperatures if they have it, else from the status, and from nowhere else |
| Api.IncomingEmpty | pytboss/api.py:98-111 | empty payloads give an empty state |
| Api.StateNeedsStatusParser | pytboss/api.py:223 | a board without a status parser cannot report state |
| Api.PitBoss.constructor | pytboss/api.py:35-55 | the password is kept; no subscribers, empty state, no uptime cached |
| Api.PitBoss.SubscribeState | pytboss/api.py:72-79 | the callback is appended; nothing else changes |
| Api.PitBoss.SubscribeVData | pytboss/api.py:81-88 | the callback is appended; nothing else changes |
| Api.PitBoss.OnStateReceived | pytboss/api.py:90-121 | a non-empty update is merged into the state and each state subscriber, in order, gets the merged state; an empty one changes nothing |
| Api.PitBoss.OnVDataReceived | pytboss/api.py:123-133 | the decoded payload goes to each vdata subscriber in order; a decoding error reaches nobody |
| Api.PitBoss.GetUptime | pytboss/api.py:256-264 | requests and cache follow `UptimeFrom`; subscribers and state are untouched |
| Api.PitBoss.Authenticate | pytboss/api.py:135-140 | requests and result follow `AuthFrom` |
| Api.PitBoss.SendHexCommand | pytboss/api.py:142-145 | an authenticated PB.SendMCUCommand with the hex string |
| Api.PitBoss.SendCommand | pytboss/api.py:147-149 | the board's command for the slug, evaluated and sent |
| Api.PitBoss.SetGrillTemperature | pytboss/api.py:163-173 | the clamped temperature is sent with set-temperature |
| Api.PitBoss.SetProbe2Temperature | pytboss/api.py:182-192 | without the command it raises UnsupportedOperation and sends nothing; otherwise the command is sent |
| Api.PitBoss.TurnLight | pytboss/api.py:194-204 | follows `LightFrom` |
| Api.PitBoss.GetState | pytboss/api.py:218-225 | the parsed status of sc_11 with the parsed temperatures of sc_12 over it |
| Api.PitBoss.SetGrillPassword | pytboss/api.py:151-161 | the stored password is replaced only when the request succeeds |
| Config.WifiParams | pytboss/config.py:85-91 | exactly `{"config": {"wifi": {"sta": sta}}}`; sta is enabled, has ssid iff given and pass iff given, with the given values |
| Config.SingleFieldUpdates | pytboss/config.py:64-82 | setting the SSID sends no password, and setting the password sends no SSID |
| Config.GetParams | pytboss/config.py:33-35 | the key is sent iff it is truthy |
| Config.SaveCall | pytboss/config.py:44-47 | Config.Save with {"reboot": reboot}; the answer is awaited iff not rebooting |
| Config.Config.constructor | pytboss/config.py:14-20 | the connection is kept |
| Config.Config.GetInfo | pytboss/config.py:22-24 | one Sys.GetInfo request with empty params; returns the next reply, which it consumes |
| Config.Config.GetConfig | pytboss/config.py:26-36 | one Config.Get request with `GetParams(key)`; returns the next reply, which it consumes |
| Config.Config.SaveConfig | pytboss/config.py:38-47 | one `SaveCall(reboot)` request; no answer and no reply consumed iff rebooting, otherwise the next reply is returned and consumed |
| Config.Config.Set | pytboss/config.py:49-51 | one Config.Set request with the arguments under "config"; returns the next reply, which it consumes |
| Config.Config.SetWifiCredentials | pytboss/config.py:53-62 | one Config.Set request with both credentials; returns the next reply, which it consumes |
| Config.Config.SetWifiSsid | pytboss/config.py:64-71 | one Config.Set request with the SSID only; returns the next reply, which it consumes |
| Config.Config.SetWifiPassword | pytboss/config.py:73-82 | one Config.Set request with the password only; returns the next reply, which it consumes |
| Rpc.Conn.SendCommand | pytboss/transport.py:34-48 | the request is logged as awaited and answered by the next reply |
| Rpc.Conn.SendCommandWithoutAnswer | pytboss/ble.py:118-128 | the request is logged as not awaited and no reply is consumed |
| Fs.GetCalls | pytboss/fs.py:27-35 | n rounds make n requests |
| Fs.GetCallsStep | pytboss/fs.py:31-35 | request k reads 512 bytes at offset 512k of the same file |
| Fs.ReadFrom | pytboss/fs.py:30-37 | at least one request; a reading that ends normally has one request per piece and no more than there are replies |
| Fs.ReadStep | pytboss/fs.py:30-37 | a reply with left == 0 ends the reading; otherwise its piece comes first and the reading goes on |
| Fs.FetchStep | pytboss/fs.py:30-37 | one loop pass keeps the pieces so far a prefix of the whole reading |
| Fs.FailStep | pytboss/fs.py:30-37 | a raising request ends the reading with the pieces so far, that request counted |
| Fs.BytesLiteral | pytboss/fs.py:34 | `str` of bytes is a b'...' literal, quoted as `repr` quotes it |
| Fs.FileSystem.constructor | pytboss/fs.py:14-19 | the connection is kept |
| Fs.FileSystem.FetchOne | pytboss/fs.py:31-35 | one FS.Get request for 512 bytes at the offset, and its reply decoded |
| Fs.FileSystem.FetchPieces | pytboss/fs.py:27-37 | requests at offsets 0, 512, ... for the same file; they stop after the first reply with left == 0, or at an exception |
| Fs.FileSystem.GetFileContent | pytboss/fs.py:25-37 | as written, the content is the pieces' `str` literals, in request order; one reply is consumed per request made |
| Fs.FileSystem.GetFileBytes | pytboss/fs.py:25-37 | as intended, the content is the pieces joined, in request order; one reply is consumed per request made |
| Fs.FileSystem.GetFileList | pytboss/fs.py:21-23 | one FS.List request with empty params; returns the next reply, which it consumes |
| Fs.FileSystem.SetFileContent | pytboss/fs.py:39-44 | one FS.Put request with the arguments unchanged; returns the next reply, which it consumes |
| Fs.FileSystem.RenameFile | pytboss/fs.py:46-48 | one FS.Rename request with the arguments unchanged; returns the next reply, which it consumes |
| Fs.FileSystem.DeleteFile | pytboss/fs.py:50-52 | one FS.Remove request with the argument unchanged; returns the next reply, which it consumes |
| Fs.ServedFirst | pytboss/fs.py:30-37 | against a device serving a file, the first reply gives its first 512 bytes (or all of them) |
| Fs.ReadsServedFile | pytboss/fs.py:25-37 | against a device serving a file, the pieces join to exactly the file, at most 512 bytes each, one request per piece |
| Fs.EmptyFileReadsAsLiteral | pytboss/fs.py:34 | as written, an empty file reads as "b''"; the intended read gives no bytes |
| Fs.TextPieceReadsAsLiteral | pytboss/fs.py:34 | as written, the bytes "hi" read as "b'hi'"; the intended read gives the bytes |

## Left out

- Sockets, GATT, timers and the asyncio event loop are not modelled. A
  transport is a class whose methods run atomically. Reads, replies and
  clock readings are parameters, and writes and requests are logs.
- `json.dumps` and `json.loads` are function parameters (`dumps`,
  `loads`), as are base64 decoding (`Base64`), the JavaScript evaluator
  (`JsEval`) and the random padding of `encode` (`pad`). Key order of
  dicts is not modelled: objects are maps.
- UTF-8 encoding is not modelled:
  - the BLE pieces are counted and cut in characters, as the source cuts
    them;
  - passwords are taken as bytes.
- `asyncio.wait_for`'s timeout in `BleConnection.send_command` is
  modelled by `Ble.BleConnection.SendCommandTimedOut`: the caller gets
  TimeoutError, only the writes done before the timeout went out, and the
  call stays registered and waiting. When the timeout fires is a
  parameter. `Transport.Transport.CancelCall` models a caller that gives
  up on the awaited reply itself.
- After 2048 calls an id is reused. A call still waiting under it then
  loses its slot; `SendCommand`'s contract states this overwrite.
- Codec.Encode and Codec.Decode require a non-empty key whenever there is
  data. Python raises ZeroDivisionError for an empty key, and every caller
  passes an 8-byte key.
- Floats are `real`. Python's float rounding, and `int()` of a float
  beyond its truncation, are not modelled.
- A JSON `1`, `1.0` and `true` are the same dict key in Python. Only the
  id lookup of the pending map models this (`IdKey`).
- Python's `int()` of a string is modelled for the Latin-1 white space
  and ASCII digits; other Unicode digits are not. `parseInt` is modelled
  for the hex radix only.
- GrillTemplates.FormatHex, GrillTemplates.FormatDecimal and
  GrillTemplates.ConvertTemperature: JavaScript values are integers or NaN
  only. The `parseInt(n)` inside formatHex and formatDecimal is taken as
  the identity on integers. Not modelled:
  - truncation of a fractional argument;
  - a "0x" string read as hex;
  - the exponent form of numbers from 1e21 on;
  - string parts, which `convertTemperature` would concatenate, since its
    third term is not multiplied;
  - string lengths counted in UTF-16 units.
- Api.PitBoss.OnStateReceived and Api.PitBoss.OnVDataReceived: a
  subscriber is an identity that receives a value. In Python each state
  callback gets the live state dict, so a callback's mutation is seen by
  the next callback and by later merges. A callback that raises ends the
  loop before the remaining subscribers run. Neither is modelled.
- Wss.WebSocketConnection.Subscribe: a `status` value that is a dict is
  iterated over its keys in Python; the model treats it as a TypeError.
  A frame that is not a JSON object is also not modelled.
- The state callback at wss.py:54 and the WebSocket vdata callback are
  recorded as calls. When the callback is a coroutine function, its body
  never runs, because line 54 does not await it; this is not modelled.
- `PitBoss.__init__` registers its callbacks through
  `set_state_callback` and `set_vdata_callback`. No transport here defines
  them, so that wiring, and `start`, `stop` and `is_connected`, which
  only delegate, are not modelled. The grill definition is a constructor
  parameter instead of `get_grill`'s result.
- The façade methods that only forward a fixed request are covered by
  `Api.PitBoss.SendCommand`, `Api.PitBoss.Authenticate` and
  `Rpc.Conn.SendCommand`:
  - `set_probe_temperature`, `turn_grill_off` and the primer motor;
  - `get_firmware_version`, `set_mcu_update_timer` and
    `set_wifi_update_frequency`;
  - `set_virtual_data` and `get_virtual_data`.

  They have no members of their own.
- `ping` passes `timeout=` to `send_command`. The BLE transport accepts it.
  The WebSocket transport inherits `send_command` from transport.py:34,
  which has no such parameter, so `ping` raises TypeError there. Neither
  path is modelled.
- Api.PitBoss.SetProbe2Temperature: api.py imports `UnsupportedOperation`
  from exceptions.py and `StateDict` from grills.py, and neither file
  defines them, so importing api.py fails in Python. The model assumes
  both exist: `UnsupportedOperation` as an error value and `StateDict` as
  a plain object.
- Api.Merge: a pair whose key is a number, `null` or a boolean, and a
  two-key dict used as a pair, are accepted by Python. The model has
  string keys and no key order, so it raises TypeError for them.
- The debug-log `cancel` closure runs `run_until_complete` on the
  connection's loop. Whether that loop is already running is not
  modelled: Ble.BleConnection.CancelDebugLogs assumes it completes.
- An awaited request whose reply never comes does not return in Python;
  the model reports it as `NoReply`. The `FS.Get` loop has no bound of
  its own, so against a finite script of replies it ends with that error
  when no reply says nothing is left.
- `_read_grills` reads the bundled grills.json; the table is a parameter
  (`Grills.Table`), with each name once.

## Findings

| source | as written | input that shows it | evidently intended | confidence | as-written member | corrected member |
|---|---|---|---|---|---|---|
| pytboss/grills.py:30-32 | the `startsWith` polyfill slices `this.slice(pos, search.length)`, so a non-zero position uses the search length as the end index | `"abc".startsWith("bc", 1)` gives false | `slice(pos, pos + search.length)`: true when search occurs at pos | not executed | GrillTemplates.StartsWithAsWrittenMisses | GrillTemplates.StartsWithMeansOccursAt |
| pytboss/transport.py:58 | `send_command_without_answer` passes the un-awaited coroutine of `_prepare_command` to `_send_prepared_command`, and the WebSocket transport assigns `app_id` into it | any `send_command_without_answer` on a WebSocketConnection raises TypeError and sends nothing | take an id and send the stamped frame without registering a call | not executed | Wss.WebSocketConnection.SendCommandWithoutAnswer | Wss.WebSocketConnection.SendCommandWithoutAnswerFixed |
| pytboss/fs.py:34 | each decoded piece is appended as `str(bytes)`, the literal `b'...'` | an empty file reads as "b''"; a file holding "hi" reads as "b'hi'" | the file's content, the pieces joined, which reads back exactly a served file (Fs.ReadsServedFile) | not executed | Fs.EmptyFileReadsAsLiteral | Fs.FileSystem.GetFileBytes |
