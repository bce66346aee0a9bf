# krpc client core, modelled in Dafny

This project models three sequential parts of krpc, a small C++ RPC
framework built on Protocol Buffers and ZooKeeper, and proves properties of
the model.

- **`KrpcChannel`** (`src/krpcChannel.cc`) is the client side of a call. It:
  - looks up `/Service/Method` in the registry and splits the value at its first `:` into `m_ip` and `m_port`;
  - connects lazily and keeps the socket in `m_clientfd`;
  - frames the request as `varint32(len(header)) ++ header ++ args`;
  - sends the frame, reads the reply once, and parses it.
- **`krpcConfig`** (`src/krpcConfig.cc`) reads `key=value` lines into a map. It trims spaces, skips comments, blank lines and lines without `=`, and never overwrites a key. `Load` returns `""` for an absent key.
- **`KrpcController`** (`src/krpcController.cc`) holds the status of one call: a failed flag and an error text. The cancellation operations are stubs.

## Modules

- **`Basics`**: `Option`, bytes, `uint16_t`.
- **`StdString`**: the parts of `std::string` and of the C library that the core relies on:
  - `find`, `find_first_not_of` and `find_last_not_of`, where `npos` read back into an `int` is -1;
  - `substr`, including its `std::out_of_range` throw and the clamping of its count;
  - `atoi`.
- **`Varint`**: the Protocol Buffers base-128 varint written by `CodedOutputStream::WriteVarint32`, a reference decoder, and the request frame.
- **`Config`**:
  - `Trim`, `ParseLine` and `LoadLines` as functions, with lemmas;
  - the class `KrpcConfig`, whose `LoadConfigFile` loop is proved equal to `LoadLines`.
- **`Controller`**:
  - the status as a value;
  - the class `KrpcController`, whose methods are tied to `Apply`;
  - lemmas about sequences of controller calls.
- **`ChannelSpec`**: `Call`, the whole effect of one `CallMethod`, built from `Open` (lookup, split, connect) and `Exchange` (serialise, frame, send, receive, parse).
- **`Channel`**: the class `KrpcChannel` with the source's fields. Its constructor, `NewConnect` and `CallMethod` update the fields step by step.
  - `CallMethod` is proved to leave the fields, the controller and the event trace exactly as `Call` says.
  - A ghost `trace` records every registry read, connect attempt, send, receive and close.
- **`ChannelProperties`**: lemmas about `Call`, `Open` and `Exchange`.

Everything a call learns from outside is an input of the model (`CallInputs`):
- the registry read, as a function from node path to value, `""` on failure;
- the outcome of `socket` and `connect`;
- the serialised request, and whether serialisation succeeded;
- the header serialiser;
- the outcomes of `send` and `recv`;
- the response parser;
- the `strerror_r` texts.

### Where the code and its design notes differ

Where the code and its design notes differ, the model follows the code:
- A value without `:`, or an empty registry value when `m_idx` is 0 or -1, does not end the call. The channel still connects, to `""` or `" "` and port 0. If that connect fails, the call returns without `SetFailed`. (An empty value with `m_idx` of 1 or more throws instead; see "Stale index".)
- A request that does not serialise is still framed and sent, with `args_size` 0.
- A failed `recv` does not close the socket.
- A failed `send` closes the socket but leaves `m_clientfd` at the closed descriptor. The next call reuses it without a lookup.
- A reply of zero bytes is handed to the parser like any other.
- A successful call leaves the controller as it was. It does not clear an earlier failure.
- A duplicate configuration key keeps its first value, because `unordered_map::insert` does not overwrite.

### Stale index

`m_idx` is only written when the registry value is not empty. Suppose a first call finds `ip:port` with a non-empty ip and then cannot connect. A second call that finds the node empty leaves `m_idx` at the old colon position, so `substr` at line 54 starts past the end of `" "` and throws `std::out_of_range` out of `CallMethod`. The model keeps this as the outcome `ThrewOutOfRange`. It is proved reachable in `StaleIndexReachable`.

## Model

| member | source | states |
|---|---|---|
| `Channel.KrpcChannel.constructor` | src/krpcChannel.cc:20-29 | `m_clientfd` is -1 and `m_idx` 0. Without `connectNow` nothing is attempted. With it, the first attempt and up to three retries are made, stopping at the first success, and `m_clientfd` is that success's socket or -1 |
| `Channel.KrpcChannel.NewConnect` | src/krpcChannel.cc:150-183 | succeeds exactly when `connect` does, and only then stores the new socket in `m_clientfd`. A failed `connect` closes the new socket. A failed `socket` closes nothing |
| `Channel.KrpcChannel.CallMethod` | src/krpcChannel.cc:34-144 | the fields, the controller status, the events and the way the call ends are exactly those of `Call` on the old fields and status |
| `Channel.KrpcChannel.Connect` | src/krpcChannel.cc:41-68 | on an unconnected channel: looks up, splits and connects as `Open` says, and reports whether the call goes on |
| `Channel.KrpcChannel.LookUp` | src/krpcChannel.cc:44-54 | stores both names, reads exactly the node `MethodPath`, sets `m_idx` and `m_ip` as `Locate` says, and returns the port `Locate` computes (None when `substr` throws) without storing it; `Connect` stores it in `m_port` |
| `Channel.KrpcChannel.SendAndReceive` | src/krpcChannel.cc:70-140 | the controller status and the events are those of `Exchange` on the current fields |
| `ChannelSpec.Call` | src/krpcChannel.cc:41-140 | the whole effect of one `CallMethod`: `Exchange` on a connected channel, otherwise `Open` and, when it connected, `Exchange` on its state. A definition: `CallMethod` is proved equal to it, and the `ChannelProperties` lemmas describe it |
| `ChannelSpec.Open` | src/krpcChannel.cc:44-67 | the connection half: the lookup of `Locate`, the throw when the port's `substr` throws, else one `newConnect` to the stored ip and port. A definition: `Connect` is proved equal to it, and `OpenQueriesFirst`, `EmptyLookupStillConnects`, `SplitsEndpoint` and `StaleIndexThrows` describe it |
| `ChannelSpec.Locate` | src/krpcChannel.cc:44-54 | the names stored, `QueryServiceHost`'s `m_idx`, `HostIp` and `HostPort` of the value read. A definition: `LookUp` is proved equal to it |
| `ChannelSpec.Exchange` | src/krpcChannel.cc:70-140 | serialise, frame, send, receive and parse, with each failure's text and close. A definition: `SendAndReceive` is proved equal to it, and `ExchangeKeepsChannel`, `FrameSent`, `ReplyHandling` and the other failure lemmas describe it |
| `ChannelSpec.MethodPath` | src/krpcChannel.cc:193 | `"/" + service + "/" + method`. A definition: `SplitMethodPathOfMethodPath` shows it loses nothing |
| `ChannelSpec.HostIp` | src/krpcChannel.cc:52 | `host_data.substr(0, m_idx)`, everything for -1. A definition: `SplitAtFirstColon` and `SplitRenderedEndpoint` describe it |
| `ChannelSpec.HostPort` | src/krpcChannel.cc:54 | `atoi` of the text after `m_idx`, modulo 2^16, or the `std::out_of_range` throw. A definition: `SplitAtFirstColon`, `SplitRenderedEndpoint` and `StaleIndexThrows` describe it |
| `ChannelSpec.QueryServiceHost` | src/krpcChannel.cc:188-216 | an empty value gives `" "` with `idx` unchanged. A value without `:` gives `" "` with `idx` -1. Otherwise the value is returned unchanged with `idx` at its first `:` |
| `ChannelSpec.SplitMethodPathOfMethodPath` | src/krpcChannel.cc:193 | a service name without `/` and the method name can be read back from the node path, so distinct methods read distinct nodes |
| `ChannelSpec.SplitAtFirstColon` | src/krpcChannel.cc:52-54 | for a value whose first `:` is at `i`: the ip is the text before it and holds no `:`, and the port is `atoi` of the rest modulo 2^16 |
| `ChannelSpec.SplitRenderedEndpoint` | src/krpcChannel.cc:52-54 | a value registered as `ip:port` gives back exactly that ip and port |
| `ChannelSpec.AttemptCount` | src/krpcChannel.cc:26-28 | `while (!rt && count--)` makes between 1 and 4 attempts. Every attempt before the last fails, and fewer than 4 means the last one succeeded |
| `ChannelSpec.AttemptCountFrom` | src/krpcChannel.cc:26-28 | conversely, when every attempt before the `n`-th fails and the `n`-th connects or is the fourth, the loop makes exactly `n` attempts |
| `ChannelSpec.Received1024` | src/krpcChannel.cc:123-125 | `recv` keeps at most 1024 bytes, the first ones waiting, and all of them when there are no more |
| `ChannelProperties.AttemptEventsCount` | src/krpcChannel.cc:26-28 | each `newConnect` of the retry loop is exactly one connect attempt |
| `ChannelProperties.EagerConnectAttempts` | src/krpcChannel.cc:20-29 | the eager constructor makes 1 to 4 connect attempts and ends connected exactly when one of the first four attempts succeeds |
| `ChannelProperties.ExchangeKeepsChannel` | src/krpcChannel.cc:70-140 | from the serialisation on, no field changes, nothing is looked up or connected, and every send, receive and close is on `m_clientfd` |
| `ChannelProperties.CallNeverClearsFailure` | src/krpcChannel.cc:34-144 | after a call the status is either unchanged or failed |
| `ChannelProperties.CallQueriesMethodPath` | src/krpcChannel.cc:41-51 | an unconnected call reads `"/" + service + "/" + method` first and only once, and stores both names |
| `ChannelProperties.ReuseSkipsLookup` | src/krpcChannel.cc:41 | with a socket in `m_clientfd` there is no lookup and no connect and no field changes. The header carries the names stored by the first lookup |
| `ChannelProperties.EmptyLookupStillConnects` | src/krpcChannel.cc:51-58 | an empty registry value keeps `m_idx`. With `m_idx` 0 or -1 the call still connects, to `""` or `" "` and port 0 |
| `ChannelProperties.NoColonStillConnects` | src/krpcChannel.cc:207-212 | a value without `:` sets `m_idx` to -1, and the call still connects to `" "` and port 0 |
| `ChannelProperties.ConnectFailureNotReported` | src/krpcChannel.cc:58-63 | a failed connect leaves the status untouched, stores no socket and sends nothing |
| `ChannelProperties.SplitsEndpoint` | src/krpcChannel.cc:52-58 | for a value with a `:`, the stored ip is the text before the first `:` and the port is the truncated `atoi` of the rest. The connect goes to that endpoint |
| `ChannelProperties.RegisteredEndpointConnects` | src/krpcChannel.cc:52-58 | a registered `ip:port` is connected to at exactly that ip and port |
| `ChannelProperties.StaleIndexThrows` | src/krpcChannel.cc:51-54 | an empty registry value with a stored `m_idx` of 1 or more throws `std::out_of_range`. Only the registry read has happened and the status is untouched |
| `ChannelProperties.StaleIndexReachable` | src/krpcChannel.cc:51-63 | a failed connect after a good lookup, followed by an empty lookup, makes the second call throw |
| `ChannelProperties.FrameSent` | src/krpcChannel.cc:102-114 | the bytes sent decode to the header length and split back into exactly the header and the arguments |
| `ChannelProperties.ArgsSizeIsArgsLength` | src/krpcChannel.cc:71-114 | for a serialised request, `args_size` equals the length of the arguments that follow the header on the wire |
| `ChannelProperties.RequestFailureStillSends` | src/krpcChannel.cc:73-114 | a request that fails to serialise is still framed with `args_size` 0 and sent, and the call is failed. Without later failures the text is "serialize request fail" |
| `ChannelProperties.HeaderFailureSendsNothing` | src/krpcChannel.cc:93-100 | a header that fails to serialise sends nothing and fails with "serialize rpc header error!" |
| `ChannelProperties.SendFailureKeepsStaleFd` | src/krpcChannel.cc:114-120 | a failed send closes the socket and fails with its text, and `m_clientfd` keeps the closed descriptor |
| `ChannelProperties.RecvFailureKeepsSocketOpen` | src/krpcChannel.cc:125-131 | a failed receive fails the call with its text and closes nothing |
| `ChannelProperties.ReplyHandling` | src/krpcChannel.cc:123-140 | at most 1024 bytes are read. A parse failure closes the socket and fails the call. A successful parse, zero bytes included, leaves the status as the request serialisation left it |
| `ChannelProperties.SuccessLeavesStatus` | src/krpcChannel.cc:34-144 | a call that succeeds end to end leaves the controller exactly as it was |
| `ChannelProperties.ClosedSocketReused` | src/krpcChannel.cc:41-140 | after a call that leaves `m_clientfd` set and closes that descriptor, whether the channel was connected before the call or connected during it, the next call makes no lookup and no connect, changes no field, and uses the closed descriptor |
| `Varint.EncodeVarint` | src/krpcChannel.cc:107 | at least one byte. The last byte is below 128 and every other byte has its high bit set. Values below 128 are one equal byte. The length bounds follow the 7-bit groups |
| `Varint.EncodeVarint32` | src/krpcChannel.cc:107 | a `uint32_t` takes one to five bytes |
| `Varint.DecodeEncodeWithin` | src/krpcChannel.cc:107 | decoding an encoding, followed by any bytes, gives back the value and the encoding's length |
| `Varint.DecodeEncode32` | src/krpcChannel.cc:107 | the same for a `uint32_t`, whose encoding fits the five bytes a 32-bit varint reader accepts |
| `Varint.Frame` | src/krpcChannel.cc:102-110 | the bytes sent: the varint32 of the header length, the header, then the arguments. A definition: `SplitFrameOfFrame` and `FrameSent` describe it |
| `Varint.SplitFrameOfFrame` | src/krpcChannel.cc:102-110 | a frame splits back into exactly the header and the arguments it was built from |
| `StdString.Find` | src/krpcChannel.cc:207 | -1 exactly when the character is absent. Otherwise it is the index of its first occurrence |
| `StdString.FindFrom` | src/krpcConfig.cc:38 | -1 exactly when the character does not occur from the start position on. Otherwise it is the first such index |
| `StdString.FindFirstNotOf` | src/krpcConfig.cc:66 | -1 exactly when every character is the given one. Otherwise it is the first index holding another |
| `StdString.FindLastNotOf` | src/krpcConfig.cc:70 | -1 exactly when every character is the given one. Otherwise it is the last index holding another |
| `StdString.Substr` | src/krpcChannel.cc:52-54 | throws exactly when the start is past the end. Otherwise it gives the requested characters, clamped at the end, and everything from the start for a negative (wrapped) count |
| `StdString.Atoi` | src/krpcChannel.cc:54 | C `atoi`: skip white space, read an optional sign, then as many digits as follow; no digits gives 0. The body is the definition; the three lemmas below describe it |
| `StdString.AtoiOfDecimal` | src/krpcChannel.cc:54 | `atoi` reads a decimal rendering back, whatever non-digit text follows it |
| `StdString.AtoiOfSignedDecimal` | src/krpcChannel.cc:54 | after any white space, a decimal rendering reads back as itself, after `+` as itself and after `-` as its negation |
| `StdString.AtoiOfNoDigits` | src/krpcChannel.cc:54 | text with no digit after the white space and the optional sign reads as 0 |
| `Config.Trim` | src/krpcConfig.cc:63-72 | `find_first_not_of(' ')` then `find_last_not_of(' ')` and the two cuts. A definition: the four lemmas below describe it |
| `Config.TrimShape` | src/krpcConfig.cc:63-72 | an all-space string is returned unchanged. Otherwise the result is the contiguous part from the first to the last non-space, with only spaces cut on either side |
| `Config.TrimOfTrimmed` | src/krpcConfig.cc:63-72 | a string with no space at either end is left unchanged |
| `Config.TrimIdempotent` | src/krpcConfig.cc:63-72 | trimming twice is trimming once |
| `Config.TrimKeepsNonBlank` | src/krpcConfig.cc:63-72 | only spaces are removed: every other character, newline and tab included, is in the result exactly when it is in the input |
| `Config.ParseLine` | src/krpcConfig.cc:22-40 | the pair one line of the loop adds, or None when it adds nothing. A definition: `ParseLineSkips`, `KeyHasNoEquals`, `ParseLineFields`, `ParseRenderedLine` and `BlankValueKept` describe it |
| `Config.ParseLineSkips` | src/krpcConfig.cc:22-30 | a line adds nothing exactly when, trimmed, it is empty, starts with `#` or has no `=` |
| `Config.KeyHasNoEquals` | src/krpcConfig.cc:29-34 | a key never contains `=` |
| `Config.ParseLineFields` | src/krpcConfig.cc:29-40 | the key is the trimmed text before the first `=`. The value is the trimmed text after it, up to the first newline after it or the end |
| `Config.ParseRenderedLine` | src/krpcConfig.cc:22-40 | a line `key=value` reads back as that pair, `=` in the value included |
| `Config.BlankValueKept` | src/krpcConfig.cc:36-40 | a value of only spaces on a newline-terminated line stays spaces |
| `Config.LoadEntriesFirstWins` | src/krpcConfig.cc:43 | after loading, a key is present exactly when it was already or some line defines it. An existing key keeps its value, and a new key gets the value of its first line |
| `Config.KrpcConfig.constructor` | src/include/krpcConfig.h:7-17 | the map starts empty |
| `Config.KrpcConfig.LoadConfigFile` | src/krpcConfig.cc:8-47 | the map after the read loop is `LoadLines` of the map before and the file's lines, one `LoadLine` per line |
| `Config.KrpcConfig.LoadLine` | src/krpcConfig.cc:22-43 | one pass of the loop body inserts the pair `ParseLine` reads from the line, and only when its key is absent. A skipped line leaves the map as it was |
| `Config.KrpcConfig.Load` | src/krpcConfig.cc:52-58 | the stored value for a present key, `""` for an absent one, and the map is not changed |
| `Controller.Apply` | src/krpcController.cc:10-40 | the status after one controller call: `Reaset` gives the initial status, `SetFailed` a failed one with its reason, the reads and stubs the same status. A definition: `KrpcController`'s methods are proved equal to it, and the lemmas below describe runs of it |
| `Controller.StaysFailedUntilReaset` | src/krpcController.cc:10-40 | once failed, a controller stays failed through any calls but `Reaset` |
| `Controller.ReasetForgets` | src/krpcController.cc:10-14 | after `Reaset`, whatever came before, the state is the initial one until the next `SetFailed` |
| `Controller.LastReasonWins` | src/krpcController.cc:29-33 | the last `SetFailed` decides the reason |
| `Controller.ReadsChangeNothing` | src/krpcController.cc:17-40 | the reads and the cancellation stubs change nothing |
| `Controller.KrpcController.constructor` | src/krpcController.cc:3-7 | a new controller is not failed and has an empty error text |
| `Controller.KrpcController.Reaset` | src/krpcController.cc:10-14 | back to the initial state from any state |
| `Controller.KrpcController.Failed` | src/krpcController.cc:17-20 | returns the flag and changes nothing |
| `Controller.KrpcController.ErrorText` | src/krpcController.cc:23-26 | returns the reason and changes nothing |
| `Controller.KrpcController.SetFailed` | src/krpcController.cc:29-33 | failed, with the new reason replacing any earlier one |
| `Controller.KrpcController.StartChannel` | src/krpcController.cc:38 | changes nothing |
| `Controller.KrpcController.IsCanceled` | src/krpcController.cc:39 | always false |
| `Controller.KrpcController.NotifyOnCancel` | src/krpcController.cc:40 | changes neither the controller nor the callback: the callback is never run |

## Left out

- ZooKeeper: `ZkClient::Start` (a watcher thread and a condition variable) and the global mutex around the registry read are concurrency. `GetData` is a foreign call with a 64-byte buffer. The registry is an input function from node path to value, `""` on failure. `src/zookeeperutil.cc` is not part of this model.
- Sockets: `socket`, `connect`, `send`, `recv`, `inet_addr`, `htons` and `close` are inputs or events. No network is modelled.
- `send` is taken to write the whole frame or fail. A partial send is not modelled.
- `send` is called without `MSG_NOSIGNAL` and `SIGPIPE` is never ignored, so a send to a peer that reset the connection ends the process instead of returning -1. Signals are not modelled: a failed send always reaches the `SetFailed` path.
- Bytes beyond the first 1024 stay unread in the socket. The next call would read them, and the model does not carry them over.
- Protocol Buffers: the serialised bytes of the request and of the header, and the response parser, are opaque inputs. Only the varint prefix and the frame layout are concrete.
- `strerror_r` texts are opaque strings. The GNU variant may leave the buffer empty, and the model does not decide which text is stored.
- Logging and `std::cout` output are not modelled.
- The `done` closure of `CallMethod` is never invoked by the source, so it is not an input.
- `Channel.KrpcChannel.constructor`: with `connectNow`, the port passed to the connects is the uninitialised `m_port`. Here it is an arbitrary 16-bit value the contract does not fix.
- `StdString.Atoi`: `int` overflow on very long digit strings is not modelled. The value is the mathematical one, and the port is that value modulo 2^16.
- `Varint.DecodeEncode32`: the round trip is stated for headers shorter than 2^32 bytes. Longer headers have their length truncated by the `uint32_t` cast, and no lemma covers them.
- `Config.KrpcConfig.LoadConfigFile`: lines are given as the strings `fgets` produced. The `exit` on a file that cannot be opened is left out. So are splitting lines longer than 1023 characters and cutting a line at an embedded NUL.
- `src/krpcApplication.cc`: argument parsing and the singleton are process start-up. `src/include/krpcLogger.h` and the example server and client are also out of scope.
