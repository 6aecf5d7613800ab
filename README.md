# fdrop networking core in Dafny

fdrop is a desktop app for pairing devices on a local network. A device announces
itself over mDNS and resolves the announcements of its peers. It keeps a
registry of them and links to one through a handshake over TCP that the user on
the other side confirms. This project models that core and proves properties of it:

- **Frame codec** (`definitions.rs`, `protocol.rs`, `read_stream`). A frame is a
  one-byte type tag, a big-endian `u16` payload length and the payload
  (`wire.dfy`, `definitions.dfy`, `protocol.dfy`, `framing.dfy`). `read_stream`
  is a method over a `TcpStream` class whose incoming bytes it consumes. The
  method is proved equal to the pure decoder `DecodeFrame`. Proved about that
  decoder: the round trip `DecodeFrame(Frame(tag, p) + rest)`, and one lemma per
  failure path (unknown tag, stream ending inside the header, oversized length,
  payload cut short).
- **Connection registry** (`ConnectionManager`, `registry.dfy`). In the source,
  `Connection`s are equal exactly when their names are, so the `HashSet<Connection>`
  is modelled as a map from name to record. `Valid()` says every record sits under
  its own name. `insert` keeps an existing record of the same name; `replace`
  overwrites it. The link-request counter is a `u8` that wraps modulo 256.
- **Discovery loop** (`discovery.dfy`). The body of the thread that consumes
  mDNS events is a method over the sequence of events the receiver delivers.
  It is proved equal to the folds `Apply` and `EmittedBy` and to the count
  `Handled` of events it takes.
- **Link handshake** (`handshake.dfy`):
  - `send_link_request` is a method with the source's `for` loop over addresses;
  - `authenticate_peer` runs against the registry and a stream;
  - `link_device_by_name` takes the record out, runs `send_link_request` on it and
    puts it back. It does not involve `authenticate_peer`: the responder's reply
    is an input, and no lemma joins initiator and responder end to end.
  Each is tied to a pure outcome function (`LinkRequestOutcome`,
  `Authenticate`), and the lemmas are about those functions. Which addresses
  accept a connection, the peer's reply bytes, the user's decision in the
  confirmation window and the new channel are all inputs. The prost `Link`
  encoder and decoder are the two functions of a `LinkCodec` parameter.
- **Error reports** (`fdrop_common.dfy`, `errors.dfy`). `human_readable_error`
  is a loop over the chain of causes. The thiserror messages and source chains
  of `NetworkError` give the string that `From<NetworkError> for String` produces.
- **Frontend helpers** (`networking.dfy`):
  - `realname`, over a model of `String.prototype.indexOf`;
  - `transferTypeFromString`;
  - the `available_devices` map as a class whose methods are the
    `device-discovered`, `device-removed` and `device-linked` listeners and
    `refresh_available_devices`.

A `todo!()` or a failing `unwrap()` is not excluded by a precondition. It is the
outcome `Panicked(Todo | UnwrapNone | UnwrapErr)` of the `Exit` type, so every
input has a modelled outcome.

In these places the code does something other than what its names, types and
comments evidently intend, and the model follows the code:

- A `ServiceResolved` for a known name replaces the whole record. The new record
  is unlinked and has no channel, so a linked peer loses its channel on
  rediscovery (`Discovery.RediscoveryDropsChannel`), although the stored channel
  is what makes `send_link_request` treat the peer as linked (lib.rs:99-101).
- The responder stores the new channel on the record but never sets
  `info.linked`. The initiator never stores a channel at all.
- `ServiceRemoved` deletes the name whatever service type the event carries.
- `read_stream` accepts only tags 128 and 1. A `PrepareFileTransfer` tag (2)
  from `protocol.rs` is an `InvalidInput` io error there.
- `human_readable_error` numbers every cause "1." and puts no newline between
  causes. This is because `i` is never incremented
  (`FdropCommon.TwoCausesReport`).
- An oversized payload reaches `todo!()`, which the comment beside it marks as
  a placeholder for an error response (`Framing.OversizeNeverReturnsFrame`).
- `device-linked` is emitted with the peer's full name as a bare string. The
  frontend listener reads `payload.name` and `payload.platform` from it. The
  model of the listener takes the payload as the frontend types it.

## Model

| member | source | states |
|---|---|---|
| Wire.LengthBytes | src-tauri/fdrop-net/src/definitions.rs:33-34 | the two bytes written for a length read back big-endian as the length modulo 2^16 (the `as u16` cast) |
| Wire.LengthBytesOfBigEndian | src-tauri/fdrop-net/src/definitions.rs:33-34 | writing a length that was read from two bytes gives back those two bytes |
| Wire.Frame | src-tauri/fdrop-net/src/definitions.rs:30-37 | a frame is the tag byte, then the big-endian payload length modulo 2^16, then the payload itself; 3 + payload bytes long |
| Definitions.TryFrom | src-tauri/fdrop-net/src/definitions.rs:16-27 | succeeds exactly on 128 and 1, yields the type whose discriminant is the byte, and otherwise fails with the InvalidInput io error and its message |
| Definitions.Encode | src-tauri/fdrop-net/src/definitions.rs:30-37 | the buffer built by `put_u8`, `put_u16` and the payload is the frame of the type's tag and the payload |
| Definitions.DiscriminantInjective | src-tauri/fdrop-net/src/definitions.rs:9-14 | the two message types have distinct tags |
| Protocol.TryFrom | src-tauri/fdrop-net/src/protocol.rs:17-30 | succeeds exactly on 128, 1 and 2, yields the type whose discriminant is the byte, otherwise the InvalidInput io error |
| Protocol.Encode | src-tauri/fdrop-net/src/protocol.rs:32-39 | the buffer built is the frame of the transfer type's tag and the payload |
| Protocol.DiscriminantInjective | src-tauri/fdrop-net/src/protocol.rs:11-15 | the three transfer types have pairwise distinct tags |
| Protocol.TagsAgreeWithMessageType | src-tauri/fdrop-net/src/protocol.rs:11-15 | `Link` and `TextMessage` have the same tag and frames in both enums; the `PrepareFileTransfer` tag is rejected by `MessageType::try_from` |
| Framing.TcpStream.constructor | src-tauri/fdrop-net/src/lib.rs:103-104 | a connected stream starts with the peer's bytes to read and nothing written |
| Framing.TcpStream.ReadU8 | src-tauri/fdrop-net/src/lib.rs:299-302 | consumes one byte and returns it, or fails with the "unexpected end of file" error when none is left |
| Framing.TcpStream.ReadU16 | src-tauri/fdrop-net/src/lib.rs:304-307 | consumes two bytes and returns them as a big-endian number, or fails with "unexpected end of file" having drained the stream |
| Framing.TcpStream.ReadExact | src-tauri/fdrop-net/src/lib.rs:312-316 | consumes exactly n bytes and returns them, or fails with "early eof" having drained the stream |
| Framing.TcpStream.WriteAll | src-tauri/fdrop-net/src/lib.rs:112-114 | appends the bytes to what was written, or fails and writes nothing when the peer is gone |
| Framing.DecodeFrame | src-tauri/fdrop-net/src/lib.rs:297-318 | what is left unread is a suffix of the input; a returned frame has at most 2048 payload bytes and the input is exactly that frame followed by the rest |
| Framing.ReadStream | src-tauri/fdrop-net/src/lib.rs:297-318 | reading the stream step by step ends as `DecodeFrame` of its bytes says, and leaves exactly the rest it names unread |
| Framing.UnknownTagFailsFirst | src-tauri/fdrop-net/src/lib.rs:299-303 | a tag other than 128 or 1 fails with the InvalidInput io error after consuming only that byte |
| Framing.OversizeNeverReturnsFrame | src-tauri/fdrop-net/src/lib.rs:308-311 | a declared length above 2048 reaches `todo!()` right after the header, never a frame |
| Framing.HeaderCutShort | src-tauri/fdrop-net/src/lib.rs:299-307 | an empty stream, or a valid tag followed by fewer than two length bytes, is a read error with "unexpected end of file" and drains the stream |
| Framing.ShortPayloadIsReadError | src-tauri/fdrop-net/src/lib.rs:312-316 | a valid header with fewer payload bytes than it declares is a read error and drains the stream; a shorter frame is never returned |
| Framing.DecodeEncode | src-tauri/fdrop-net/src/lib.rs:297-318 | decoding an encoded frame of at most 2048 bytes gives back its type and payload and leaves exactly the following bytes |
| Framing.MaxSizeAccepted | src-tauri/fdrop-net/src/lib.rs:308 | a payload of exactly 2048 bytes is still accepted |
| FdropCommon.Report | src-tauri/fdrop-common/src/lib.rs:2-15 | the report starts with the top message followed by "\n\nCaused by:\n", and its length is that prefix plus the cause lines |
| FdropCommon.HumanReadableError | src-tauri/fdrop-common/src/lib.rs:2-15 | the loop over the chain of causes builds exactly `Report(top, causes)` |
| FdropCommon.CauseLinesPrefix | src-tauri/fdrop-common/src/lib.rs:10-13 | the lines of the first k causes are a prefix of the lines of the whole chain: the loop only appends |
| FdropCommon.CauseInPlace | src-tauri/fdrop-common/src/lib.rs:10-13 | the k-th cause appears in the report as "1.\t" and its message, right after the lines of the causes before it |
| FdropCommon.EmptyChainReport | src-tauri/fdrop-common/src/lib.rs:6-7 | an error without a source still gets the "Caused by:" header and nothing after it |
| FdropCommon.SingleCauseReport | src-tauri/fdrop-common/src/lib.rs:6-13 | an error with one cause is reported as its message, the header, "1.\t" and the cause |
| FdropCommon.TwoCausesReport | src-tauri/fdrop-common/src/lib.rs:9-13 | two causes are both numbered 1 and run together without a separator |
| Errors.Sources | src-tauri/fdrop-net/src/errors.rs:2-8 | the chain of a `NetworkError` has at least one entry, and it starts with the message of the wrapped error (both variants are `#[from]`) |
| Errors.UserMessage | src-tauri/fdrop-net/src/errors.rs:46-50 | the string a `NetworkError` converts to opens with its top message and the "Caused by:" header, and its first cause line is the wrapped error's message |
| Errors.CommunicationUserMessage | src-tauri/fdrop-net/src/errors.rs:6-50 | the string for a communication error other than `Io` is the top message, the header and the one cause line of that error's own message |
| Registry.FromServiceInfo | src-tauri/fdrop-net/src/lib.rs:62-76 | the record of a resolved service has its full name and its addresses in the iteration order of mdns-sd's address set, is unlinked and has no channel |
| Registry.EmptyConnectionWithName | src-tauri/fdrop-net/src/lib.rs:79-92 | the placeholder has the given name, no address, no channel and is unlinked |
| Registry.WrappingIncrement | src-tauri/fdrop-net/src/lib.rs:351 | adds one to the counter, and 255 wraps to 0 |
| Registry.SameConnection | src-tauri/fdrop-net/src/lib.rs:46-60 | two records are equal exactly when their placeholders are, that is, when only the name is compared |
| Registry.SameConnectionIsEquivalence | src-tauri/fdrop-net/src/lib.rs:46-52 | that equality is reflexive, symmetric and transitive, as `impl Eq` requires |
| Registry.FullName | src-tauri/fdrop-net/src/lib.rs:339 | the full name is the instance name followed by "._fdrop._tcp.local." |
| Registry.AtMostOneRecordPerName | src-tauri/fdrop-net/src/lib.rs:46-60 | in a registry keyed by name, two records that are equal as `Connection`s (same name) are the same record |
| Registry.PlaceholderFindsRecord | src-tauri/fdrop-net/src/lib.rs:46-60 | a record is equal to the placeholder of a name exactly when it is the record stored under that name |
| Registry.ConnectionManager.constructor | src-tauri/fdrop-net/src/lib.rs:144-156 | a new manager has no record, no instance name and a counter at 0 |
| Registry.ConnectionManager.ConnectionInfos | src-tauri/fdrop-net/src/lib.rs:174-176 | yields exactly the info of each record |
| Registry.ConnectionManager.TakeConnectionByName | src-tauri/fdrop-net/src/lib.rs:178-181 | returns the record of that name if there is one, and removes that name and nothing else |
| Registry.ConnectionManager.ConnectionExists | src-tauri/fdrop-net/src/lib.rs:183-186 | true exactly when some record is equal to the placeholder of the name, that is, when the name is stored; the registry is unchanged |
| Registry.ConnectionManager.Replace | src-tauri/fdrop-net/src/lib.rs:272 | the record takes the place of any record of its name |
| Registry.ConnectionManager.Remove | src-tauri/fdrop-net/src/lib.rs:280 | removes that name and nothing else |
| Registry.ConnectionManager.Insert | src-tauri/fdrop-net/src/lib.rs:369 | adds the record exactly when its name is absent; an existing record of that name is kept |
| Registry.ConnectionManager.NextLinkRequestId | src-tauri/fdrop-net/src/lib.rs:349-351 | returns the counter's value for the window label, then bumps it with wrap-around |
| Registry.ConnectionManager.RecordInstanceName | src-tauri/fdrop-net/src/lib.rs:248 | the instance name becomes the full mDNS name of our service |
| Discovery.LocalHostname | src-tauri/fdrop-net/src/lib.rs:231 | our own host name as records carry it: the system host name followed by ".local." |
| Discovery.Handled | src-tauri/fdrop-net/src/lib.rs:262-285 | the loop takes every event, or stops right after the first `SearchStopped` of the fdrop service type |
| Discovery.RunEventLoop | src-tauri/fdrop-net/src/lib.rs:231-291 | with our own host name formatted as `{hs}.local.`, the loop takes exactly `Handled(events)` events, leaves the registry at `Apply` of them and emits `EmittedBy` of them, keeping records under their names |
| Discovery.HandledStopsAt | src-tauri/fdrop-net/src/lib.rs:283-285 | with the first stop event at position i, exactly i + 1 events are taken |
| Discovery.HandledAll | src-tauri/fdrop-net/src/lib.rs:262 | without a stop event, every event is taken |
| Discovery.EventsAfterStopIgnored | src-tauri/fdrop-net/src/lib.rs:283-285 | nothing after the fdrop `SearchStopped` is handled |
| Discovery.OwnHostIgnored | src-tauri/fdrop-net/src/lib.rs:264-267 | a record resolved for our own host changes nothing and emits nothing |
| Discovery.ResolvedReplacesRecord | src-tauri/fdrop-net/src/lib.rs:264-274 | any other resolved record adds or replaces the record of its name with a fresh unlinked one with the new addresses; all other names keep their records |
| Discovery.RediscoveryDropsChannel | src-tauri/fdrop-net/src/lib.rs:270-272 | rediscovering a peer that has a channel drops the channel |
| Discovery.RemovedDeletesOnlyThatName | src-tauri/fdrop-net/src/lib.rs:275-282 | a removal deletes that name, whatever its service type, and leaves every other record as it was |
| Discovery.ApplyKeepsKeyed | src-tauri/fdrop-net/src/lib.rs:262-291 | handling any events keeps every record under its own name |
| Handshake.ResponseFrom | src-tauri/fdrop-net/src/lib.rs:122 | `LinkResponse::try_from` is defined exactly on 0, 1 and 2, and inverts the enum numbers |
| Handshake.FirstReachable | src-tauri/fdrop-net/src/lib.rs:102-104 | the position of the first address that connects, with every earlier address unreachable; none when no address connects |
| Handshake.SendLinkRequest | src-tauri/fdrop-net/src/lib.rs:95-133 | returns `LinkRequestOutcome`; tries the addresses up to and including the first that connects; writes the `Link` request frame with our name when that socket takes writes |
| Handshake.LinkedPeerShortCircuits | src-tauri/fdrop-net/src/lib.rs:99-101 | a peer with a channel is reported `Accepted` without a connection |
| Handshake.NoAddressConnects | src-tauri/fdrop-net/src/lib.rs:102-132 | when no address connects, every address is tried and the result is `NoReachableAddress` |
| Handshake.OnlyFirstReachableUsed | src-tauri/fdrop-net/src/lib.rs:102-130 | the loop tries nothing past the first address that connects |
| Handshake.PeerRefusalIsRejected | src-tauri/fdrop-net/src/lib.rs:121-127 | a reply of `Rejected` or `Other` is reported as `Rejected` |
| Handshake.LinkRequestNeverOther | src-tauri/fdrop-net/src/lib.rs:121-129 | the request never reports `Other` |
| Handshake.LinkRequestErrorHasNoCause | src-tauri/fdrop-net/src/lib.rs:112-132 | the only errors returned are `NoReachableAddress`, `DecodeError` and a write error |
| Handshake.AuthenticatePeer | src-tauri/fdrop-net/src/lib.rs:320-384 | the exit, window id, registry and bytes written are those `Authenticate` gives, and the stream is left after the first frame |
| Handshake.AnswerRequest | src-tauri/fdrop-net/src/lib.rs:339-384 | once the request is decoded, the exit, window id, registry and bytes written are those `Answer` gives |
| Handshake.FirstFrameMustBeLink | src-tauri/fdrop-net/src/lib.rs:326-330 | a first frame of another type is `Unauthenticated`, changes nothing and writes nothing |
| Handshake.UndecodableRequest | src-tauri/fdrop-net/src/lib.rs:332-336 | an undecodable `Link` payload is a `DecodeError` and changes nothing |
| Handshake.CounterBumpedOnce | src-tauri/fdrop-net/src/lib.rs:345-357 | the counter stays or goes up by exactly one, and it goes up exactly when a `Link` request was decoded and our instance name is known |
| Handshake.UndiscoveredPeerNotFound | src-tauri/fdrop-net/src/lib.rs:353-355 | a request from a name never discovered is `PeerNotFound`, changes no record and shows no prompt |
| Handshake.OnlyAcceptanceLinks | src-tauri/fdrop-net/src/lib.rs:361-373 | the records change only for an accepted request from a discovered peer, and then only that record gains the new channel |
| Handshake.LinkedOnlyIfDiscoveredAndAccepted | src-tauri/fdrop-net/src/lib.rs:359-373 | a channel is handed out only when the user accepted, and the peer's record then holds that channel |
| Handshake.AcceptedLinksRecord | src-tauri/fdrop-net/src/lib.rs:361-383 | an accepted request from a discovered peer gives exactly that record the new channel, shows the prompt, and with a writable stream answers `Accepted` with our name and returns the channel and the full name |
| Handshake.RefusalKeepsRecords | src-tauri/fdrop-net/src/lib.rs:359-383 | a refused request from a discovered peer changes no record, shows the prompt, and with a writable stream answers with the user's decision and returns no channel |
| Handshake.LinkDeviceByName | src-tauri/fdrop-net/src/lib.rs:443-499 | an unknown name panics; on an error the record stays taken out and the result is the error's report; otherwise the record is put back, the answer's label returned and the counter bumped only on `Rejected` |
| Networking.IndexOf | src/lib/networking.svelte.ts:42 | -1 exactly when the pattern does not occur, otherwise the first position where it occurs |
| Networking.RealName | src/lib/networking.svelte.ts:41-45 | a prefix of the name with no "._fdrop" in it, cut right where the first "._fdrop" starts, and the whole name when there is none |
| Networking.RealNameOfFullName | src/lib/networking.svelte.ts:41-45 | applied to the full mDNS name of a short name without "._fdrop", gives back the short name |
| Networking.TransferTypeFromString | src/lib/networking.svelte.ts:21-28 | a member exactly for its own name, `undefined` for every other string |
| Networking.SetAllLastWins | src/lib/networking.svelte.ts:79 | after setting a list, a name is present exactly when it was before or is in the list; a listed name maps to its last device in the list, and any other name keeps its entry |
| Networking.AvailableDevices.constructor | src/lib/networking.svelte.ts:47 | the map starts empty |
| Networking.AvailableDevices.OnDeviceDiscovered | src/lib/networking.svelte.ts:53-56 | the payload is stored under its name; every other entry stays |
| Networking.AvailableDevices.OnDeviceRemoved | src/lib/networking.svelte.ts:57-59 | only the payload's name is removed |
| Networking.AvailableDevices.OnDeviceLinked | src/lib/networking.svelte.ts:60-65 | throws exactly when the name is absent, then with no change; otherwise that entry becomes linked with the payload's platform and nothing else changes |
| Networking.AvailableDevices.RefreshAvailableDevices | src/lib/networking.svelte.ts:76-80 | the map becomes `SetAll` of the old map and the fetched list, in list order |

## Left out

- The mDNS daemon is not modelled: `ServiceDaemon::new`, `register`, `browse`, `stop_browse` and `shutdown`. Their errors in `ConnectionManager::new`, `launch_discovery_service` and `shutdown` are not modelled either. The discovery loop gets its events as a sequence.
- Hostnames, config and keys are not modelled: `whoami`'s hostname lookup, the user configuration and the key store. The host name and our short name are parameters.
- `accept_connections` is not modelled: the listening socket and the async task spawned for each stream. `authenticate_peer` gets its stream as a parameter, and the `DEVICE_LINKED` emit after it is not modelled.
- Concurrency is not modelled: the `Mutex` around the registry, the other tasks and the one-second `sleep`. Each operation runs as one sequential step. So `authenticate_peer`'s `take_connection_by_name(..).unwrap()` after `connection_exists` always finds the record.
- Lock poisoning is not modelled. The panics at lib.rs:348 and lib.rs:452 happen while the registry `Mutex` is held. That poisons it, so every later `lock().unwrap()` panics too, the discovery thread's included. The model's registry stays usable after such a panic.
- `confirm_link_request` and the rejection window are not modelled, because they are user-interface code. The user's answer is the `decision` parameter.
- The protobuf encoding of `Link` is a function parameter (`LinkCodec`), because it is generated prost code. `Message::encode` into the buffer may fail in the source; the model treats it as total.
- `handle.emit` in the discovery loop always succeeds in the model. In the source a failed emit ends the thread with `?`.
- `handle_postauth_stream` and the transfer relay are not modelled: the source body is `todo!()`. `transfer.rs` is not part of this model.
- Registry.WrappingIncrement: models the release build, where `u8` addition wraps. A debug build panics at 255 instead.
- `get_available_devices`' JSON parse is not modelled: `refresh_available_devices` receives the parsed list. Svelte's `$state` proxy and the `SvelteMap` reactivity are left out, and `console.log` is not modelled.
- I/O errors other than end of stream and a closed peer are not modelled: a read is either served from the peer's bytes or ends early.
