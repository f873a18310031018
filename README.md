# SlimeBalancer serial link, scores and board firmware

SlimeBalancer is a balance-board game. The ESP32 firmware reads an
MPU-6050 sensor and classifies the board's tilt. The Unity client scans the
serial (Bluetooth) ports for the board, splits the incoming stream into
`>>`-terminated frames, extracts pitch, roll and temperature from
`Mpu_Values: P: <p>, R: <r>, T: <t>` frames, and sends lighting commands
back. A score manager keeps the session score and a persistent high score per scene.

This project models three parts of that system:

- **The client's serial-link protocol** (`BluetoothClient.cs`).
  - `Text` gives the .NET string operations the client relies on: `IndexOf`, `Contains`, `StartsWith`, `Trim` and `int.ToString`.
  - `Framing` holds the frame splitter as a pure specification.
  - `Telemetry` covers `ExtractValue` and `ParseMessage`.
  - `Commands` is the outbound command encoder, together with a decoder that serves as its partner.
  - `Link` is the connection state machine, including the port-probing handshake.
  - `Bluetooth` holds the `BluetoothClient` class. Each of its methods updates its fields and is proved against the pure definitions above.
- **`ScoreManager.cs`** (`Scores`): the `Score` and `HighScore` properties and `AddScore`, `RemoveScore` and `ResetScore`. The class updates its fields in place and is proved against the pure `Apply`. `Run`, the fold of `Apply` over a sequence of operations, carries the lemmas about many operations.
- **`ESP32/src/main.cpp`** (`Firmware`):
  - the I2C read loop and `readMPU`'s big-endian decode of the 14-byte register block into seven signed 16-bit readings;
  - `printBalance`'s direction classification and its temperature message.

The main results:

- **Frame splitting.** After `ProcessIncomingData` the buffer holds no `>>`. Messages are handed on in arrival order, each one the trimmed text before a terminator. The buffer keeps exactly the unterminated rest.
- **Chunk independence.** Receiving `a` and then `b` gives the same messages, readings and buffer as receiving `a + b` at once.
- **Field extraction.** A telemetry frame in that layout sets pitch, roll and temperature to its three fields, however the frame is cut into reads. A missing key or a failed parse gives 0.
- **Commands.** Every command is read back from the frame `SendColor` and the fixed senders write, and distinct commands give distinct frames.
- **Connection.** At most one port is held at a time: of several claims on a free link the first wins and every later claimant's port is closed. The connection invariant holds across every transition.
- **Scores.** The high score never falls, ends at least the score, and only the current scene's high score changes.
- **Firmware.** The decode and its inverse are a round trip. The balance classification yields exactly one label for every tilt.

Number parsing (`float.TryParse`) is a parameter of the client (`NumberParser`), so the telemetry results hold for any parser. C# `int` arithmetic in `ScoreManager` wraps around at 32 bits, and the model says so explicitly (`Wrap32`).

## Model

| member | source | states |
|---|---|---|
| `Text.TrimStart` | SlimeBalancer/Assets/Scripts/Bluetooth/BluetoothClient.cs:258 | The result is a suffix of the input and does not start with white space. |
| `Text.TrimEnd` | SlimeBalancer/Assets/Scripts/Bluetooth/BluetoothClient.cs:258 | The result is a prefix of the input and does not end with white space. |
| `Text.TrimShape` | SlimeBalancer/Assets/Scripts/Bluetooth/BluetoothClient.cs:258 | `Trim` returns an infix of its input, and everything it cut off on either side is .NET white space. |
| `Text.TrimEnds` | SlimeBalancer/Assets/Scripts/Bluetooth/BluetoothClient.cs:285 | A trimmed string is empty or starts and ends with a non-white-space character. |
| `Text.TrimIdempotent` | SlimeBalancer/Assets/Scripts/Bluetooth/BluetoothClient.cs:258 | Trimming twice is the same as trimming once. |
| `Text.Trim` | SlimeBalancer/Assets/Scripts/Bluetooth/BluetoothClient.cs:258 | `String.Trim()`: white space removed at both ends. `TrimShape`, `TrimEnds` and `TrimIdempotent` state what it returns. |
| `Text.IndexOfFrom` | SlimeBalancer/Assets/Scripts/Bluetooth/BluetoothClient.cs:283 | The search returns -1 or an index at or after the start where the pattern occurs. |
| `Text.IndexOfFromFound` | SlimeBalancer/Assets/Scripts/Bluetooth/BluetoothClient.cs:256 | A found index is the leftmost occurrence at or after the start. |
| `Text.IndexOfFromNone` | SlimeBalancer/Assets/Scripts/Bluetooth/BluetoothClient.cs:284 | -1 means the pattern occurs nowhere from the start on. |
| `Text.IndexOfFromIsFirst` | SlimeBalancer/Assets/Scripts/Bluetooth/BluetoothClient.cs:280 | Conversely, the leftmost occurrence is exactly what the search returns. |
| `Text.IndexOf` | SlimeBalancer/Assets/Scripts/Bluetooth/BluetoothClient.cs:256 | `IndexOf(pat)` is the search from index 0: -1 or the leftmost occurrence, by the `IndexOfFrom` lemmas. |
| `Text.Contains` | SlimeBalancer/Assets/Scripts/Bluetooth/BluetoothClient.cs:148 | `Contains(pat)` is a successful `IndexOf`. `ContainsIff` says it holds exactly when the pattern occurs. |
| `Text.StartsWith` | SlimeBalancer/Assets/Scripts/Bluetooth/BluetoothClient.cs:266 | `StartsWith(p)`: the text begins with `p`. `Telemetry.ApplyMessage` and `Commands.ColorBodyStart` use it. |
| `Text.ContainsIff` | SlimeBalancer/Assets/Scripts/Bluetooth/BluetoothClient.cs:148 | `Contains` holds exactly when the pattern occurs at some index. |
| `Text.IndexOfExtend` | SlimeBalancer/Assets/Scripts/Bluetooth/BluetoothClient.cs:146-148 | Appending text keeps the leftmost occurrence of a pattern that was already there. |
| `Text.NatToString` | SlimeBalancer/Assets/Scripts/Bluetooth/BluetoothClient.cs:234 | Rendering a natural number gives decimal digits with no leading zero. |
| `Text.IntToString` | SlimeBalancer/Assets/Scripts/Bluetooth/BluetoothClient.cs:234 | `int.ToString()` in the invariant culture. `IntToStringRoundTrip` reads it back and `IntToStringInjective` makes it one-to-one. |
| `Text.IntToStringRoundTrip` | SlimeBalancer/Assets/Scripts/Bluetooth/BluetoothClient.cs:234 | Reading back a rendered integer gives that integer. |
| `Text.IntToStringInjective` | SlimeBalancer/Assets/Scripts/Bluetooth/BluetoothClient.cs:234 | Distinct integers render as distinct strings. |
| `Framing.SplitAt` | SlimeBalancer/Assets/Scripts/Bluetooth/BluetoothClient.cs:256-259 | One turn of the receive loop: the first frame is the text before the leftmost `>>`, and the rest is split from just after it. |
| `Framing.Split` | SlimeBalancer/Assets/Scripts/Bluetooth/BluetoothClient.cs:255-261 | The receive loop as a function: cut at the leftmost `>>` until none is left. `SplitDecomposes` and `SplitCharacterised` characterise it in both directions, and `SplitRest` bounds the leftover. |
| `Framing.Feed` | SlimeBalancer/Assets/Scripts/Bluetooth/BluetoothClient.cs:254-261 | One call of `ProcessIncomingData`: append the chunk, then split. `FeedTwice` and `FeedAllIsFeedConcat` state that chunking does not matter. |
| `Framing.SplitNone` | SlimeBalancer/Assets/Scripts/Bluetooth/BluetoothClient.cs:256 | With no `>>` in the buffer, no frame is cut and the buffer stays as it is. |
| `Framing.SplitRest` | SlimeBalancer/Assets/Scripts/Bluetooth/BluetoothClient.cs:254-261 | The leftover holds no `>>` and is a suffix of the buffer. |
| `Framing.SplitDecomposes` | SlimeBalancer/Assets/Scripts/Bluetooth/BluetoothClient.cs:256-259 | The buffer is exactly the cut frames, each followed by `>>`, and then the leftover. No frame holds a terminator. |
| `Framing.SplitCharacterised` | SlimeBalancer/Assets/Scripts/Bluetooth/BluetoothClient.cs:256-259 | Conversely, frames without terminators, joined with `>>` and followed by a terminator-free rest, split back into exactly those frames and that rest. |
| `Framing.SplitAppend` | SlimeBalancer/Assets/Scripts/Bluetooth/BluetoothClient.cs:254-261 | Splitting `x + y` is splitting `x`, then splitting its leftover followed by `y`. |
| `Framing.FeedTwice` | SlimeBalancer/Assets/Scripts/Bluetooth/BluetoothClient.cs:254-261 | Receiving `a` then `b` hands on the same messages and leaves the same buffer as receiving `a + b`. |
| `Framing.FeedAllIsFeedConcat` | SlimeBalancer/Assets/Scripts/Bluetooth/BluetoothClient.cs:238-250 | Any sequence of reads gives the same frames as the concatenation of the reads received at once. |
| `Framing.TrimAllAppend` | SlimeBalancer/Assets/Scripts/Bluetooth/BluetoothClient.cs:258 | Trimming the messages of two runs separately equals trimming their concatenation. |
| `Telemetry.FieldText` | SlimeBalancer/Assets/Scripts/Bluetooth/BluetoothClient.cs:280-284 | There is a field slice exactly when the key occurs in the message. |
| `Telemetry.ExtractValue` | SlimeBalancer/Assets/Scripts/Bluetooth/BluetoothClient.cs:278-286 | A message without the key reads as 0. |
| `Telemetry.FieldTextBetween` | SlimeBalancer/Assets/Scripts/Bluetooth/BluetoothClient.cs:280-285 | The slice runs from just after the key's first occurrence up to the first end marker after it. |
| `Telemetry.FieldTextToEnd` | SlimeBalancer/Assets/Scripts/Bluetooth/BluetoothClient.cs:283-285 | With an empty or absent end marker, the slice runs to the end of the message. |
| `Telemetry.ApplyMessage` | SlimeBalancer/Assets/Scripts/Bluetooth/BluetoothClient.cs:264-276 | A message not starting with `Mpu_Values:` leaves pitch, roll and temperature unchanged. |
| `Telemetry.ApplyAll` | SlimeBalancer/Assets/Scripts/Bluetooth/BluetoothClient.cs:256-260 | The readings after messages are handed to `ParseMessage` in order. `ApplyAllAppend`, `ApplyAllIgnoresOthers` and `LastTelemetryWins` state its properties. |
| `Telemetry.ApplyAllAppend` | SlimeBalancer/Assets/Scripts/Bluetooth/BluetoothClient.cs:256-260 | Parsing two runs of messages one after the other is the same as parsing their concatenation. |
| `Telemetry.ApplyAllIgnoresOthers` | SlimeBalancer/Assets/Scripts/Bluetooth/BluetoothClient.cs:266 | A run of non-telemetry messages leaves the readings unchanged. |
| `Telemetry.LastTelemetryWins` | SlimeBalancer/Assets/Scripts/Bluetooth/BluetoothClient.cs:266-273 | A telemetry message overwrites all three readings, whatever came before it. |
| `Telemetry.PitchField` | SlimeBalancer/Assets/Scripts/Bluetooth/BluetoothClient.cs:270 | In a telemetry frame, the `P: ` field reads back as the pitch text. |
| `Telemetry.RollField` | SlimeBalancer/Assets/Scripts/Bluetooth/BluetoothClient.cs:271 | The `R: ` field reads back as the roll text. |
| `Telemetry.TemperatureField` | SlimeBalancer/Assets/Scripts/Bluetooth/BluetoothClient.cs:272 | The `T: ` field, read to the end, reads back as the temperature text. |
| `Telemetry.MpuMessageDecodes` | SlimeBalancer/Assets/Scripts/Bluetooth/BluetoothClient.cs:264-285 | A telemetry message sets the three readings to the parsed values of its three fields, or 0 where a parse fails. |
| `Telemetry.MalformedFieldDefaultsToZero` | SlimeBalancer/Assets/Scripts/Bluetooth/BluetoothClient.cs:285 | A field that does not parse sets its reading to 0 and leaves the others to their own fields. |
| `Commands.SideCode` | SlimeBalancer/Assets/Scripts/Bluetooth/BluetoothClient.cs:33 | Every side's code lies in 0..4. |
| `Commands.SideOfCode` | SlimeBalancer/Assets/Scripts/Bluetooth/BluetoothClient.cs:33 | A code names a side exactly when it lies in 0..4. |
| `Commands.SideCodeRoundTrip` | SlimeBalancer/Assets/Scripts/Bluetooth/BluetoothClient.cs:33 | Every side is recovered from its code, so the codes are pairwise distinct. |
| `Commands.SideOfCodeRoundTrip` | SlimeBalancer/Assets/Scripts/Bluetooth/BluetoothClient.cs:33 | Every valid code is the code of the side it names. |
| `Commands.FixedFrames` | SlimeBalancer/Assets/Scripts/Bluetooth/BluetoothClient.cs:226-228 | The fixed effects are written as exactly `Off>>`, `Rainbow>>` and `Idle>>`. |
| `Commands.Body` | SlimeBalancer/Assets/Scripts/Bluetooth/BluetoothClient.cs:226-234 | The text of each command before its terminator. `BodyLacksAngle` says it holds no `>`. |
| `Commands.Encode` | SlimeBalancer/Assets/Scripts/Bluetooth/BluetoothClient.cs:226-234 | The frame each sender hands to `SendString`: the body, then `>>`. `DecodeEncode` and `EncodeInjective` are its properties. |
| `Commands.Decode` | SlimeBalancer/Assets/Scripts/Bluetooth/BluetoothClient.cs:225-234 | An independent reader of frames, the partner of `Encode`. It gives `None` unless the text ends with `>>` and reads as a command. `DecodeEncode` proves it inverts `Encode`. |
| `Commands.ColorFields` | SlimeBalancer/Assets/Scripts/Bluetooth/BluetoothClient.cs:234 | Each of the four fields of a colour frame reads back as the integer written into it. |
| `Commands.DecodeEncode` | SlimeBalancer/Assets/Scripts/Bluetooth/BluetoothClient.cs:226-234 | Every command is decoded back from the frame it is sent as. |
| `Commands.EncodeInjective` | SlimeBalancer/Assets/Scripts/Bluetooth/BluetoothClient.cs:226-234 | Distinct commands are sent as distinct frames. |
| `Commands.BodyLacksAngle` | SlimeBalancer/Assets/Scripts/Bluetooth/BluetoothClient.cs:226-234 | No command body holds a `>`, so no body can end its frame early. |
| `Commands.EncodeAllIsJoin` | SlimeBalancer/Assets/Scripts/Bluetooth/BluetoothClient.cs:225-234 | A run of commands is sent as its bodies, each followed by `>>`. |
| `Commands.CommandStreamSplits` | SlimeBalancer/Assets/Scripts/Bluetooth/BluetoothClient.cs:225-234 | Splitting a run of sent commands gives back exactly their bodies, with nothing left over. |
| `Link.StartGuard` | SlimeBalancer/Assets/Scripts/Bluetooth/BluetoothClient.cs:61-70 | `StartAutoConnection` changes nothing exactly when a scan runs or a port is held. Otherwise it starts scanning with the scanning status. |
| `Link.RetryOutcome` | SlimeBalancer/Assets/Scripts/Bluetooth/BluetoothClient.cs:201-208 | A retry starts a new scan when no port is held. While one is held, it only clears the scan flag and sets the retry status. |
| `Link.ConnectSuccessOutcome` | SlimeBalancer/Assets/Scripts/Bluetooth/BluetoothClient.cs:172-199 | A claim on a free link adopts the port, records its name and status, cancels the scan and starts reading. A claim on a held link only closes the offered port. |
| `Link.DisconnectResets` | SlimeBalancer/Assets/Scripts/Bluetooth/BluetoothClient.cs:210-222 | After `Disconnect`, nothing is connected, scanned for or read, the status is `Disconnected`, and any scan token is cancelled. |
| `Link.DisconnectIdempotent` | SlimeBalancer/Assets/Scripts/Bluetooth/BluetoothClient.cs:210-222 | A second `Disconnect` changes nothing and closes no port twice. |
| `Link.InvPreserved` | SlimeBalancer/Assets/Scripts/Bluetooth/BluetoothClient.cs:61-222 | Every transition keeps the invariant: the scan steps, a claim, `Disconnect`, an abandoned probe, and both the as-written and the corrected probe read. Connected means a port adopted and open, the reader running and no scan. |
| `Link.ConnectedMeansUsable` | SlimeBalancer/Assets/Scripts/Bluetooth/BluetoothClient.cs:225-240 | Under the invariant, the send guard holds exactly when connected, and the read loop runs whenever connected. |
| `Link.Inv` | SlimeBalancer/Assets/Scripts/Bluetooth/BluetoothClient.cs:183-197 | The invariant: connected means a port adopted and open, the reader running and no scan. `InvPreserved` shows every transition keeps it. |
| `Link.StartAutoConnectionStep` | SlimeBalancer/Assets/Scripts/Bluetooth/BluetoothClient.cs:61-70 | `StartAutoConnection` as a transition. `StartGuard` states when it is a no-op. |
| `Link.RetryScanStep` | SlimeBalancer/Assets/Scripts/Bluetooth/BluetoothClient.cs:201-208 | `RetryScan` as a transition. `RetryOutcome` unfolds it, and `InvPreserved` covers it. |
| `Link.ScanBeginStep` | SlimeBalancer/Assets/Scripts/Bluetooth/BluetoothClient.cs:72-84 | The start of `ScanAllPortsParallel`: retry with no ports, else a fresh token. `InvPreserved` covers it. |
| `Link.ScanEndStep` | SlimeBalancer/Assets/Scripts/Bluetooth/BluetoothClient.cs:104-107 | The end of `ScanAllPortsParallel`: retry unless a port was adopted. `InvPreserved` covers it. |
| `Link.ConnectSuccessStep` | SlimeBalancer/Assets/Scripts/Bluetooth/BluetoothClient.cs:172-199 | `ConnectSuccess` as one atomic transition. `FirstClaimWins` and `ClaimAllWhileConnected` state its effect over several claims. |
| `Link.DisconnectStep` | SlimeBalancer/Assets/Scripts/Bluetooth/BluetoothClient.cs:210-222 | `Disconnect` as a transition. `DisconnectIdempotent` and `InvPreserved` state its properties. |
| `Link.ClaimAllWhileConnected` | SlimeBalancer/Assets/Scripts/Bluetooth/BluetoothClient.cs:177-181 | On a held link, every further claim only closes its port, in order. |
| `Link.FirstClaimWins` | SlimeBalancer/Assets/Scripts/Bluetooth/BluetoothClient.cs:172-199 | Of several claims on a free link, the first adopts its port and every later claimant's port is closed. |
| `Link.SignatureStays` | SlimeBalancer/Assets/Scripts/Bluetooth/BluetoothClient.cs:146-148 | Once the accumulated text holds the signature, it keeps holding it. |
| `Link.IsSignature` | SlimeBalancer/Assets/Scripts/Bluetooth/BluetoothClient.cs:148 | The handshake test: the text holds `Mpu_Values` or `>>`. `SignatureStays` says it is kept once it holds. |
| `Link.ProbeRead` | SlimeBalancer/Assets/Scripts/Bluetooth/BluetoothClient.cs:143-156 | One read of the listening loop, as written. `ProbeClaimsOnlyOnSignature` says it acts only on the signature, and `ProbeLeaksPort` exhibits the unclosed port. |
| `Link.ProbeAbandon` | SlimeBalancer/Assets/Scripts/Bluetooth/BluetoothClient.cs:129-164 | A probe that is cancelled or times out closes its port. `InvPreserved` covers it. |
| `Link.ProbeReadClosing` | SlimeBalancer/Assets/Scripts/Bluetooth/BluetoothClient.cs:148-155 | The corrected read: on the signature the port always goes to `ConnectSuccess`. `ProbeReadClosingAgrees` and `ProbeEndsAccounted` state its properties. |
| `Link.ProbeClaimsOnlyOnSignature` | SlimeBalancer/Assets/Scripts/Bluetooth/BluetoothClient.cs:143-156 | A probe changes the link only after hearing `Mpu_Values` or `>>`, and it ends exactly then. |
| `Link.ProbeLeaksPort` | SlimeBalancer/Assets/Scripts/Bluetooth/BluetoothClient.cs:151-155 | As written, a probe that hears the signature while another port is held returns with its own port neither adopted nor closed. |
| `Link.ProbeReadClosingAgrees` | SlimeBalancer/Assets/Scripts/Bluetooth/BluetoothClient.cs:148-155 | The corrected read matches the original everywhere except on the losing path, where it also closes the probe's port. |
| `Link.ProbeEndsAccounted` | SlimeBalancer/Assets/Scripts/Bluetooth/BluetoothClient.cs:148-155 | With the correction, a probe that ends has its port either adopted or closed, and the invariant holds. |
| `Bluetooth.BluetoothClient.constructor` | SlimeBalancer/Assets/Scripts/Bluetooth/BluetoothClient.cs:14-31 | The field initialisers: disconnected with status `Disconnected`, port name `None`, zero readings and an empty buffer. |
| `Bluetooth.BluetoothClient.StartAutoConnection` | SlimeBalancer/Assets/Scripts/Bluetooth/BluetoothClient.cs:61-70 | The new state is the `StartAutoConnection` transition of the old one. |
| `Bluetooth.BluetoothClient.RetryScan` | SlimeBalancer/Assets/Scripts/Bluetooth/BluetoothClient.cs:201-208 | The new state is the retry transition of the old one. |
| `Bluetooth.BluetoothClient.ScanBegin` | SlimeBalancer/Assets/Scripts/Bluetooth/BluetoothClient.cs:72-84 | With no ports, the scan retries. Otherwise a fresh, uncancelled scan token is made. |
| `Bluetooth.BluetoothClient.ScanEnd` | SlimeBalancer/Assets/Scripts/Bluetooth/BluetoothClient.cs:104-107 | After all probes finish, the scan retries unless a port was adopted. |
| `Bluetooth.BluetoothClient.ConnectSuccess` | SlimeBalancer/Assets/Scripts/Bluetooth/BluetoothClient.cs:172-199 | The new state is the claim transition of the old one. |
| `Bluetooth.BluetoothClient.ProbeRead` | SlimeBalancer/Assets/Scripts/Bluetooth/BluetoothClient.cs:143-156 | The new state and the continuing probe are those of the corrected probe read. |
| `Bluetooth.BluetoothClient.Disconnect` | SlimeBalancer/Assets/Scripts/Bluetooth/BluetoothClient.cs:210-222 | The new state is the `Disconnect` transition of the old one. |
| `Bluetooth.BluetoothClient.SendString` | SlimeBalancer/Assets/Scripts/Bluetooth/BluetoothClient.cs:225 | The message is written exactly when connected with the port open and the write succeeds. Otherwise nothing is written. |
| `Bluetooth.BluetoothClient.SendOff` | SlimeBalancer/Assets/Scripts/Bluetooth/BluetoothClient.cs:226 | Writes exactly `Off>>`, under the send guard. |
| `Bluetooth.BluetoothClient.SendRainbow` | SlimeBalancer/Assets/Scripts/Bluetooth/BluetoothClient.cs:227 | Writes exactly `Rainbow>>`, under the send guard. |
| `Bluetooth.BluetoothClient.SendIdle` | SlimeBalancer/Assets/Scripts/Bluetooth/BluetoothClient.cs:228 | Writes exactly `Idle>>`, under the send guard. |
| `Bluetooth.BluetoothClient.SendColor` | SlimeBalancer/Assets/Scripts/Bluetooth/BluetoothClient.cs:229-235 | Writes the colour frame under the send guard, and the written frame decodes back to that colour and side. |
| `Bluetooth.BluetoothClient.ParseMessage` | SlimeBalancer/Assets/Scripts/Bluetooth/BluetoothClient.cs:264-276 | The new readings are those the message specification gives for the old readings and the message. |
| `Bluetooth.BluetoothClient.ProcessIncomingData` | SlimeBalancer/Assets/Scripts/Bluetooth/BluetoothClient.cs:252-262 | Afterwards the buffer holds no `>>` and is the unterminated rest. The trimmed frames were handed to `ParseMessage` in order, and the readings are the result of parsing them. |
| `Bluetooth.BluetoothClient.ReadOnce` | SlimeBalancer/Assets/Scripts/Bluetooth/BluetoothClient.cs:238-250 | A failed read disconnects and keeps buffer and readings. Otherwise the read is processed and the connection state is unchanged. |
| `Bluetooth.ReceiveTwice` | SlimeBalancer/Assets/Scripts/Bluetooth/BluetoothClient.cs:244-261 | Receiving `a` then `b` leaves the same readings and buffer as receiving `a + b`. |
| `Bluetooth.TelemetryFrameSetsReadings` | SlimeBalancer/Assets/Scripts/Bluetooth/BluetoothClient.cs:252-285 | End to end, a telemetry frame from an empty buffer is split into one message that sets pitch, roll and temperature to its three fields. |
| `Bluetooth.TelemetryChunksSetReadings` | SlimeBalancer/Assets/Scripts/Bluetooth/BluetoothClient.cs:244-262 | However a telemetry frame is cut into successive reads, the reads deliver exactly that one message, and parsing it sets pitch, roll and temperature to its three fields. |
| `Scores.Wrap32` | SlimeBalancer/Assets/Scripts/Managers/ScoreManager.cs:43 | The result is congruent to the exact sum modulo 2^32, and equals it when it fits in an `int`. |
| `Scores.HighScoreKeyInjective` | SlimeBalancer/Assets/Scripts/Managers/ScoreManager.cs:21-24 | Distinct scene names give distinct preference keys. |
| `Scores.StoredHighScore` | SlimeBalancer/Assets/Scripts/Managers/ScoreManager.cs:20-22 | The `HighScore` getter: the scene's stored value, default 0. `StoreHighScoreOthers` relates it to the setter. |
| `Scores.StoreHighScore` | SlimeBalancer/Assets/Scripts/Managers/ScoreManager.cs:23-25 | The `HighScore` setter: writes only the scene's key, by `StoreHighScoreOthers`. |
| `Scores.AssignScore` | SlimeBalancer/Assets/Scripts/Managers/ScoreManager.cs:11-15 | The preferences after the `Score` setter. `AssignScoreHighScore` states how the high score moves. |
| `Scores.StoreHighScoreOthers` | SlimeBalancer/Assets/Scripts/Managers/ScoreManager.cs:18-26 | The `HighScore` setter's value is what the getter reads back, and other scenes' high scores are untouched. |
| `Scores.AssignScoreHighScore` | SlimeBalancer/Assets/Scripts/Managers/ScoreManager.cs:9-16 | Assigning a score never lowers the high score. It raises it to the score exactly when the score is larger. Afterwards the high score is at least the score, and other scenes are untouched. |
| `Scores.TargetArithmetic` | SlimeBalancer/Assets/Scripts/Managers/ScoreManager.cs:40-58 | Add and remove move the score by exactly the points when the result fits in an `int`. Reset gives 0. |
| `Scores.Target` | SlimeBalancer/Assets/Scripts/Managers/ScoreManager.cs:43-56 | The value each operation assigns through the setter. `TargetArithmetic` states it short of overflow. |
| `Scores.Apply` | SlimeBalancer/Assets/Scripts/Managers/ScoreManager.cs:40-58 | One operation on the session: assign its target through the setter. The class's methods are proved equal to it. |
| `Scores.Run` | SlimeBalancer/Assets/Scripts/Managers/ScoreManager.cs:40-58 | Several operations in one scene, in order. `RunHighScore` states the high-score properties over any run. |
| `Scores.RemoveKeepsHighScore` | SlimeBalancer/Assets/Scripts/Managers/ScoreManager.cs:53-58 | Removing non-negative points from a score at most the high score leaves the preferences unchanged and lowers the score by the points. |
| `Scores.RemoveWrapsAround` | SlimeBalancer/Assets/Scripts/Managers/ScoreManager.cs:56 | Removing 1 from the least `int` wraps to the greatest and makes it the new high score. |
| `Scores.ResetKeepsHighScore` | SlimeBalancer/Assets/Scripts/Managers/ScoreManager.cs:46-51 | A reset sets the score to 0 and never lowers the high score. |
| `Scores.RunHighScore` | SlimeBalancer/Assets/Scripts/Managers/ScoreManager.cs:5-58 | Over any run of operations, the high score never falls and ends at least the final score. Other scenes' high scores are unchanged. |
| `Scores.RunHighScoreNonNegative` | SlimeBalancer/Assets/Scripts/Managers/ScoreManager.cs:20-22 | A high score that starts non-negative, as the default 0 is, stays non-negative. |
| `Scores.ScoreManager.constructor` | SlimeBalancer/Assets/Scripts/Managers/ScoreManager.cs:5 | The score starts at 0 over the given preferences. |
| `Scores.ScoreManager.SetHighScore` | SlimeBalancer/Assets/Scripts/Managers/ScoreManager.cs:23-25 | Writes the scene's key and nothing else. |
| `Scores.ScoreManager.SetScore` | SlimeBalancer/Assets/Scripts/Managers/ScoreManager.cs:9-16 | The new state is the assignment's. The score is the value, and the high score is at least it and no lower than before. |
| `Scores.ScoreManager.AddScore` | SlimeBalancer/Assets/Scripts/Managers/ScoreManager.cs:40-45 | The new state is the old one after adding the points with 32-bit wrap-around. |
| `Scores.ScoreManager.RemoveScore` | SlimeBalancer/Assets/Scripts/Managers/ScoreManager.cs:53-58 | The new state is the old one after removing the points with 32-bit wrap-around. |
| `Scores.ScoreManager.ResetScore` | SlimeBalancer/Assets/Scripts/Managers/ScoreManager.cs:46-51 | The new state is the old one after assigning 0. |
| `Firmware.Word` | ESP32/src/main.cpp:36-42 | The combined bytes lie in 0..0xFFFF. |
| `Firmware.ToInt16` | ESP32/src/main.cpp:36-42 | Storing into an `int16_t` keeps the value modulo 2^16. |
| `Firmware.DecodeReadingValue` | ESP32/src/main.cpp:36-42 | A reading is `hi*256 + lo` reduced to signed 16 bits, and it is negative exactly when the high byte is at least 0x80. |
| `Firmware.DecodeEncode` | ESP32/src/main.cpp:36-42 | Every 16-bit reading is decoded back from its two register bytes. |
| `Firmware.EncodeDecode` | ESP32/src/main.cpp:36-42 | Every pair of register bytes is the encoding of what it decodes to. |
| `Firmware.DecodeExamples` | ESP32/src/main.cpp:36-42 | `FF FF` is -1, `80 00` is -32768, `7F FF` is 32767 and `00 01` is 1. |
| `Firmware.DecodeReading` | ESP32/src/main.cpp:36-42 | One reading from its high and low bytes. `DecodeReadingValue`, `DecodeEncode` and `EncodeDecode` state what it is. |
| `Firmware.DecodeBlock` | ESP32/src/main.cpp:32-42 | Reading i, in the order AcX, AcY, AcZ, temp, GyX, GyY, GyZ, is decoded from bytes 2i and 2i+1 of the block. |
| `Firmware.DecodeEncodeBlock` | ESP32/src/main.cpp:30-43 | Every set of readings is decoded back from its register block. |
| `Firmware.EncodeDecodeBlock` | ESP32/src/main.cpp:30-43 | Every 14-byte block is the encoding of the readings it decodes to. |
| `Firmware.BusBytes` | ESP32/src/main.cpp:23-27 | The bytes read are the received bytes in order, with 0xFF once the bus runs dry. |
| `Firmware.MpuReadBytes` | ESP32/src/main.cpp:18-28 | The read loop fills the first `count` cells of the buffer with the bus bytes and leaves the other cells as they were. |
| `Firmware.Mpu.constructor` | ESP32/src/main.cpp:5-7 | The readings start at 0. |
| `Firmware.Mpu.ReadMpu` | ESP32/src/main.cpp:30-43 | The seven globals become the decode of the 14 bytes read from the bus. |
| `Firmware.LabelsDistinct` | ESP32/src/main.cpp:70-86 | The five direction labels are pairwise distinct. |
| `Firmware.Classify` | ESP32/src/main.cpp:64-87 | The direction `printBalance` reports. `ClassifyTotal` gives exactly one label per tilt, with each label's condition. |
| `Firmware.ClassifyTotal` | ESP32/src/main.cpp:64-87 | Exactly one label is produced for every tilt. BALANCED iff both angles are within 5. FORWARD iff pitch >= 5, and BACKWARD iff pitch <= -5. RIGHT and LEFT apply only with pitch within 5, by the sign of a roll of at least 5. |
| `Firmware.ReportTemperature` | ESP32/src/main.cpp:89-94 | The temperature message `printBalance` prints. `HotIff` says it is hot exactly above 30. |
| `Firmware.HotIff` | ESP32/src/main.cpp:89-94 | The hot message is chosen exactly when the temperature exceeds 30. |

## Left out

- Serial I/O is not modelled: opening ports, `ReadExisting`, `WriteLine`, timeouts, baud and DTR/RTS settings. Ports are abstract numbers, a closed port is recorded in `closed`, and each read's text and whether a write or read fails are parameters.
- Concurrency is not modelled: `Task.Run`, `Task.WhenAll`, the read thread and the `lock`. Each transition is one sequential step, and the locked check-and-set in `ConnectSuccess` is one atomic step.
- Timing is not modelled: `Thread.Sleep`, the 2-second reboot wait and 2.5-second listening window, `readThread.Join(500)` and `RetryScan`'s three-second pause. A probe's timeout or cancellation is the abstract `Link.ProbeAbandon`.
- `RetryScan`'s re-entry into the scan after the pause is modelled only as the state change of `StartAutoConnection`. The new scan is begun by a separate `ScanBegin`.
- `Bluetooth.BluetoothClient.ConnectSuccess`: `scanTokenSource.Cancel()` on a token that was never made would throw. The model requires a token, which the scan always makes before any probe runs.
- `Bluetooth.BluetoothClient.ProbeRead` follows the corrected handshake, `Link.ProbeReadClosing`. The read as written is `Link.ProbeRead` (see Findings).
- `float.TryParse` is the abstract `NumberParser`. `Mathf.RoundToInt(color * 255)` is not modelled: `SendColor` takes the rounded channel values as integers.
- `Bluetooth.TelemetryFrameSetsReadings` and the field lemmas of `Telemetry` are proved for field texts made of characters other than white space, `,`, `:`, `>`, `P`, `R` and `T` (`IsWireField`). Texts containing those characters are not covered. Decimal numbers, the intended contents, satisfy this.
- `WriteLine` appends the port's newline after each frame. The written frames are recorded without it.
- .NET's culture-sensitive `IndexOf(string)` and `StartsWith(string)` are modelled as ordinal. The patterns are plain ASCII, but the searched text is whatever arrives on the port. The model assumes that text holds no characters the culture's comparison ignores, such as NUL under ICU. With such a character, `>\0>` is a terminator to the client and not to the model. `int.ToString()` is modelled for the invariant culture.
- `Debug.Log`, `Blink`, `Start`, `OnDestroy` and `OnApplicationQuit` are not modelled. The last two only call `Disconnect`.
- PlayerPrefs is a map from keys to `int`. The current scene name (`GameManager.Instance.CurrentGameData.SceneName`) is a parameter. The score UI updates and `ShowPoints`/`HidePoints` are not modelled.
- `Scores.RemoveKeepsHighScore` holds only when no 32-bit overflow occurs. `Scores.RemoveWrapsAround` shows what the unchecked subtraction does otherwise.
- Firmware I2C setup (`mpuWrite`, `setup`, `loop`) and the serial output are not modelled. The 14 bytes the bus returns are a parameter.
- `computeAngles` (floating-point `atan2`, `sqrt` and scaling) is not modelled. Pitch, roll and temperature are taken as given reals, so NaN is not modelled either.
- `Wire.read()` returning -1 when nothing is available is modelled as the byte 0xFF that the `uint8_t` store gives.

## Findings

| source | as written | input that shows it | evidently intended | confidence | as-written member | corrected member |
|---|---|---|---|---|---|---|
| SlimeBalancer/Assets/Scripts/Bluetooth/BluetoothClient.cs:151-155 | A probe that hears the signature while another port is already adopted returns without closing its own port. `ConnectSuccess`, whose already-connected branch would close it, is called only when not connected. | Port 0 adopted and open; a probe on port 1 ("COM4") reads `>>`: it ends, port 1 is neither adopted nor closed | Every probe that ends has its port adopted or closed, as `ConnectSuccess` does for a late claimant | not executed; medium (a race between two probes) | `Link.ProbeLeaksPort` | `Link.ProbeEndsAccounted` |
