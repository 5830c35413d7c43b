# ESPHome client: a verified model

This project models the parts of a host-side ESPHome API client that carry its protocol:
X25519 on sixteen 16-bit limbs, Poly1305 on five 26-bit limbs and the AEAD built on it,
SHA-256, HMAC and HKDF, the Noise NNpsk0 handshake and its ciphers, the protobuf codec that
`protogen` emits, the two frame codecs, the connection's state machine with its timers, and
three smaller algorithms (the glob matcher, the DNS record reader, the one-shot GATT callback
tables). `dafny verify dfyconfig.toml` checks all of it.

Each component has a specification on plain values and, where the source updates state in
place, methods or classes proved against it:

| component | specification | laws | code |
|---|---|---|---|
| X25519 | `X25519.RfcX25519`, `Limbs` | `Limbs`, `X25519` | `Field25519`, `Pack25519`, `X25519` |
| Poly1305 and AEAD | `Poly1305Spec`, `ChaCha20`, `Aead` | `Aead` | `PolyLoad`, `PolyLimbs`, `PolyFinish`, `Poly1305`, `Aead` |
| SHA-256, HMAC, HKDF, base64 | `Sha256Spec`, `Primitives`, `Base64` | `Base64` | `Sha256`, `Primitives`, `Base64` |
| protobuf | `Wire`, `Proto` | `ProtoScalars`, `ProtoMerge`, `ProtoRoundTrip`, `ProtoLaws` | `ProtoCode` |
| Noise | `NoiseSpec` | `NoiseLaws` | `NoiseCode` |
| frames | `BudgetVarint`, `FrameSpec` | `FrameLaws`, `SessionLaws` | `FrameCode`, `NoiseFrames` |
| connection | `ConnectionSpec` | `ConnectionLaws`, `ConnectionRuns` | `ConnectionCode` |
| connection over bytes | `ConnectionBytes`, `Registry` | `ConnectionBytes`, `ConnectionSession`, `Registry` | `ConnectionDrive`, `ByteSessions` |
| glob, DNS messages | `Glob`, `DnsName`, `DnsPacket` | same | same |
| GATT callbacks | `GattSpec` | `GattLaws`, `GattTables` | `GattCode` |

Machine words are integers with their range in the type (`Arith.U32`, `Arith.I64`, ...), so
a store that could overflow does not verify; wrap-around is written out as a remainder.
Bitwise operators are functions on binary digits (`Bits`). The connection and the GATT
tables run user callbacks: what a callback does is a function of its number (and, for GATT,
of its result), so a theorem over every such function holds for every user.

Where the code and its documentation differ the model follows the code:

- `start` documents exactly one call of the connect handler; a disconnect before the
  device's hello is answered closes without one (`ConnectionRuns.ClosedUnanswered`; the exact
  condition is in `ConnectionRuns.ConnectHandler`).
- `next` documents that nothing is consumed while more bytes are needed; a handshake frame
  is consumed all the same (`FrameLaws.HelloConsumed`; the exact condition is
  `FrameLaws.WaitLeaves`), and so is any frame once the handshake was rejected
  (`NoiseFrames.NoiseFrameHelper.Next`).
- The plaintext type is written in up to five bytes and read in at most four
  (`FrameLaws.PlaintextDelivery`).
- A star in the pattern facing a star in the text is compared as a character
  (`Glob.UsualMeaning`).
- A major version above 2 is meant to be fatal; from 2^31 on it is read as negative and passes
  (`ConnectionLaws.MajorVersion`, `ConnectionRuns.WrappedVersion`).
- `get_services` promises its callback the full table. What came before the first callback or
  handler was registered is missing from it (`GattLaws.Truncated`), and so is what an error for
  the address threw away (`GattTables.CutShort`); a list whose end never came is put in front of
  the next one (`GattTables.Prepended`). The exact condition is `GattTables.TableComplete`, and
  since the last end `GattTables.ListedComplete`.
- A services callback is refused by an error about another request of the same address
  (`GattTables.CutShort`).
- The Noise framework keeps the counter value 2^64-1 back and wants an error there; the counter
  starts over at zero (`NoiseSpec.CounterWraps`).
- The encrypted codec writes in clear until the handshake has ended, and nothing in it or in
  `send` stops a message before that (`FrameLaws.ClearText`).
- GATT callbacks are kept under 48 bits of address and 16 bits of handle
  (`GattSpec.KeyCollision`, `GattLaws.Misdelivered`).

## Model

| member | source | states |
|---|---|---|
| `X25519.Scalarmult` | src/crypto/detail/x25519.cpp:136-187 | For every scalar and u-coordinate the 32 bytes written are the value of the ladder of section 5 of RFC 7748 over the integers modulo 2^255-19, on the clamped scalar and the masked coordinate; every limb stored on the way is an int64. |
| `X25519.Ladder` | src/crypto/detail/x25519.cpp:152-176 | 255 rounds of swap, step and swap back leave the RFC ladder's state (with its one swap still owed), and the limb bound `mul` needs holds after every round. |
| `X25519.SwappedStep` | src/crypto/detail/x25519.cpp:154-175 | One round is the RFC step between two conditional swaps, within the bound. |
| `X25519.Step` | src/crypto/detail/x25519.cpp:156-173 | The chain of field operations in aliased buffers is the RFC's differential addition and doubling. |
| `X25519.OwedSwap` | src/crypto/detail/x25519.cpp:153-175 | Swapping before and after each rung equals the RFC's single carried-over swap. |
| `X25519.BitOfBytes` | src/crypto/detail/x25519.cpp:153 | The scalar bit picked by byte index and shift is the bit of the little-endian integer. |
| `X25519.Unpack25519` | src/crypto/detail/x25519.cpp:75-80 | Sixteen limbs in range whose value is the coordinate with its top bit dropped. |
| `X25519.Inv25519` | src/crypto/detail/x25519.cpp:118-132 | The result is the input to the power p-2 (2^255-21) modulo p. |
| `X25519.InvExpFinal` | src/crypto/detail/x25519.cpp:123-128 | The exponent built by squaring 254 times and skipping the multiplication at 2 and 4 is p-2. |
| `X25519.RfcRange` | src/crypto/detail/x25519.cpp:183-185 | The ladder's value is a canonical residue, so the 32 bytes determine it. |
| `Field25519.Car25519` | src/crypto/detail/x25519.cpp:25-37 | The carry loop computes the carry function limb by limb with no overflow from limbs up to the product bound. |
| `Limbs.CarValue` | src/crypto/detail/x25519.cpp:25-37 | One carry pass changes the value by an exact multiple of 2p, so the residue stays. |
| `Limbs.FirstPass` | src/crypto/detail/x25519.cpp:25-37 | The first pass brings product-sized limbs under a settled bound. |
| `Limbs.SecondPass` | src/crypto/detail/x25519.cpp:25-37 | The second pass leaves limbs within the bound that add, sub and mul start from. |
| `Limbs.ThirdPass` | src/crypto/detail/x25519.cpp:25-37 | The third pass leaves every limb in 0..65535. |
| `Field25519.Add` | src/crypto/detail/x25519.cpp:82-86 | Limbwise sum is the field sum and stays within what `mul` accepts. |
| `Field25519.Sub` | src/crypto/detail/x25519.cpp:88-92 | Limbwise difference is the field difference and stays within what `mul` accepts. |
| `Field25519.Product` | src/crypto/detail/x25519.cpp:95-103 | The 31-cell schoolbook table has the product as its value, each cell an int64. |
| `Field25519.Mul` | src/crypto/detail/x25519.cpp:94-112 | The field product, for any aliasing of the three arguments, back within the bound. |
| `Field25519.Sqr` | src/crypto/detail/x25519.cpp:114-116 | The field square. |
| `Field25519.CarryTwice` | src/crypto/detail/x25519.cpp:110-111 | Two passes keep the residue and restore the bound. |
| `Pack25519.Sel25519` | src/crypto/detail/x25519.cpp:39-47 | The masked exclusive-or swap exchanges both arrays when the bit is set and changes nothing otherwise. |
| `Pack25519.Normalize` | src/crypto/detail/x25519.cpp:55-57 | Three carry passes give limbs in 0..65535 with the same residue. |
| `Pack25519.SubtractP` | src/crypto/detail/x25519.cpp:59-66 | The borrow chain is t minus p digit by digit, with the borrow out of the top. |
| `Pack25519.ReduceOnce` | src/crypto/detail/x25519.cpp:58-67 | One trial subtraction takes p away exactly when the value reaches p. |
| `Pack25519.Pack` | src/crypto/detail/x25519.cpp:49-73 | The bytes are the unique little-endian representative below p of every limb vector within the bound. |
| `PolyLoad.BlockLimbs` | src/crypto/detail/chacha20poly1305.cpp:174-178 | Overlapping 32-bit loads, shifts and masks are the radix 2^26 digits of a 16-byte block. |
| `PolyLoad.KeyLimbs` | src/crypto/detail/chacha20poly1305.cpp:131-136 | The five masked key words are the limbs of the clamped key (section 2.5 of RFC 8439). |
| `PolyLimbs.Multiply` | src/crypto/detail/chacha20poly1305.cpp:162-195 | The five column sums are congruent to the product modulo 2^130-5 and none wraps in 64 bits. |
| `PolyLimbs.CarryBlock` | src/crypto/detail/chacha20poly1305.cpp:197-215 | The partial carry keeps the residue and leaves h1 below 2^26+64 and the other limbs below 2^26; no carry or c*5 wraps. |
| `Poly1305.OneBlock` | src/crypto/detail/chacha20poly1305.cpp:173-218 | One turn of the loop is the RFC's accumulator step, and the limb bound is kept. |
| `Poly1305.BlockLoop` | src/crypto/detail/chacha20poly1305.cpp:157-219 | Over every number of blocks the limbs stay in bound and congruent to the accumulator. |
| `Poly1305.State.constructor` | src/crypto/detail/chacha20poly1305.cpp:130-147 | A fresh state holds the clamped r, the pad s and the empty accumulator. |
| `Poly1305.State.Blocks` | src/crypto/detail/chacha20poly1305.cpp:149-226 | The h field after any run of full blocks. |
| `Poly1305.State.Update` | src/crypto/detail/chacha20poly1305.cpp:228-263 | However the input is split, the state afterwards stands for everything absorbed so far. |
| `Poly1305.State.Finish` | src/crypto/detail/chacha20poly1305.cpp:265-357 | The tag is (accumulator mod 2^130-5, plus s) mod 2^128 of all bytes absorbed, section 2.5 of RFC 8439. |
| `PolyFinish.FullCarry` | src/crypto/detail/chacha20poly1305.cpp:282-303 | The carry chain keeps the residue and leaves every limb below 2^26. |
| `PolyFinish.Reduce` | src/crypto/detail/chacha20poly1305.cpp:305-332 | Adding 5, testing bit 130 and the masked select are the full reduction. |
| `PolyFinish.Repack` | src/crypto/detail/chacha20poly1305.cpp:334-338 | Packing with shifts and OR is the value modulo 2^128. |
| `PolyFinish.AddPad` | src/crypto/detail/chacha20poly1305.cpp:340-348 | The 64-bit carry chain adds the pad modulo 2^128. |
| `Poly1305Spec.AccumulateAppend` | src/crypto/detail/chacha20poly1305.cpp:149-226 | The accumulator over whole blocks and then the rest is the accumulator over the whole. |
| `ChaCha20.Apply` | src/crypto/detail/chacha20poly1305.cpp:93-113 | The keystream loop writes the stream cipher of the message, 64 bytes a block, counter modulo 2^32. |
| `ChaCha20.StreamTwice` | src/crypto/detail/chacha20poly1305.cpp:93-113 | Applying the stream twice gives the message back. |
| `Aead.ComputeMac` | src/crypto/detail/chacha20poly1305.cpp:384-413 | The tag over separately fed parts and padding is the one-shot tag of section 2.8 of RFC 8439. |
| `Aead.Verify` | src/crypto/detail/chacha20poly1305.cpp:360-367 | The constant-time comparison is 1 exactly on equal tags. |
| `Aead.Encrypt` | src/crypto/detail/chacha20poly1305.cpp:417-428 | Ciphertext and tag of the construction, for every key, nonce, associated data and length. |
| `Aead.Decrypt` | src/crypto/detail/chacha20poly1305.cpp:430-445 | The plaintext exactly when the tag is right; nothing is written otherwise. |
| `Aead.OpenSeal` | src/crypto/detail/chacha20poly1305.cpp:417-445 | Decrypting an encryption gives the plaintext back. |
| `Aead.SealOpen` | src/crypto/detail/chacha20poly1305.cpp:430-445 | A ciphertext and tag decrypt to a plaintext if and only if they are its encryption. |
| `Sha256.Context.constructor` | src/crypto/detail/sha256.cpp:81-92 | The initial hash value and an empty buffer. |
| `Sha256.Context.Transform` | src/crypto/detail/sha256.cpp:32-77 | The in-place rounds are the compression function of section 6.2.2 of FIPS 180-4. |
| `Sha256.Schedule` | src/crypto/detail/sha256.cpp:35-45 | Words loaded with shifts and disjunctions and extended in place are the message schedule. |
| `Sha256.RunRounds` | src/crypto/detail/sha256.cpp:47-67 | Eight registers shifted along 64 times are the rounds of the standard. |
| `Sha256.Context.Update` | src/crypto/detail/sha256.cpp:94-104 | The context stands for all bytes absorbed, whatever the split into calls. |
| `Sha256.Context.Final` | src/crypto/detail/sha256.cpp:106-149 | The digest is the fold of the compression over the padded message, with the bit count modulo 2^64. |
| `Sha256.PaddedBlocks` | src/crypto/detail/sha256.cpp:106-136 | The one- and two-block endings are the padding of section 5.1.1 of FIPS 180-4. |
| `Primitives.HmacSha256` | src/crypto/primitives.cpp:56-92 | Section 2 of RFC 2104 over SHA-256, for keys of every length. |
| `Primitives.HkdfOutputs` | src/crypto/primitives.cpp:94-122 | The outputs asked for of the Noise HKDF (section 4.3 of the Noise Protocol Framework). |
| `Primitives.AeadEncryptBytes` | src/crypto/primitives.cpp:151-168 | Ciphertext followed by tag under the counter nonce. |
| `Primitives.AeadDecryptBytes` | src/crypto/primitives.cpp:170-196 | The plaintext exactly when the tag is right; an input too short for a tag leaves the output as it was, a wrong tag empties it. |
| `Primitives.AeadInverse` | src/crypto/primitives.cpp:151-196 | The wrapper decrypts to a plaintext if and only if the input is its encryption under the same key, counter and data. |
| `Primitives.SharedSecret` | src/crypto/primitives.cpp:130-144 | The X25519 result, refused exactly when it is all zero. |
| `Primitives.ScalarmultBytes` | src/crypto/primitives.cpp:124-128 | The public key or shared secret as the bytes of the RFC 7748 function. |
| `Base64.DecodeText` | src/crypto/primitives.cpp:198-251 | Succeeds exactly on canonical encodings (section 4 of RFC 4648) and then returns the bytes encoded; on refusal the output is empty. |
| `Base64.DecodeInverse` | src/crypto/primitives.cpp:198-251 | A text decodes to some bytes if and only if it is their encoding. |
| `NoiseCode.CipherState.EncryptWithAd` | src/crypto/cipher_state.cpp:12-19 | Ciphertext and the counter moved on; without a key the text passes through. |
| `NoiseCode.CipherState.DecryptWithAd` | src/crypto/cipher_state.cpp:21-31 | On success the counter moves on; on failure nothing changes. |
| `NoiseSpec.CounterWraps` | src/crypto/cipher_state.cpp:12-19 | The counter moves on exactly below 2^64-1 and from there starts over at zero under the same key. |
| `NoiseSpec.CipherInStep` | src/crypto/cipher_state.cpp:12-31 | Two ciphers in one state: what one encrypts the other decrypts, and they stay in one state. |
| `NoiseCode.SymmetricState.Initialize` | src/crypto/symmetric_state.cpp:7-18 | h is the padded name or its hash, ck equals h, no key. |
| `NoiseCode.SymmetricState.MixKey` | src/crypto/symmetric_state.cpp:20-27 | Section 5.2 of the Noise Protocol Framework. |
| `NoiseCode.SymmetricState.MixHash` | src/crypto/symmetric_state.cpp:29-33 | Section 5.2 of the Noise Protocol Framework. |
| `NoiseCode.SymmetricState.MixKeyAndHash` | src/crypto/symmetric_state.cpp:35-43 | Section 5.2 of the Noise Protocol Framework. |
| `NoiseCode.SymmetricState.EncryptAndHash` | src/crypto/symmetric_state.cpp:45-49 | The ciphertext enters the hash. |
| `NoiseCode.SymmetricState.DecryptAndHash` | src/crypto/symmetric_state.cpp:51-55 | The ciphertext enters the hash on success; on failure nothing changes. |
| `NoiseCode.SymmetricState.Split` | src/crypto/symmetric_state.cpp:57-64 | Two fresh ciphers from the chaining key. |
| `NoiseSpec.SymmetricInStep` | src/crypto/symmetric_state.cpp:45-55 | Equal symmetric states stay equal over an encryption and its decryption. |
| `NoiseCode.NoiseHandshake.constructor` | src/crypto/noise_handshake.cpp:16-23 | Both roles start from the protocol name and the prologue. |
| `NoiseCode.NoiseHandshake.WriteMessage` | src/crypto/noise_handshake.cpp:38-62 | The message pattern NNpsk0 for either role, with the refusal of a degenerate secret. |
| `NoiseCode.NoiseHandshake.ReadMessage` | src/crypto/noise_handshake.cpp:64-93 | The reading side for either role, with every refusal. |
| `NoiseCode.NoiseHandshake.Split` | src/crypto/noise_handshake.cpp:95-106 | Sending and receiving ciphers by role. |
| `NoiseLaws.HandshakeAgrees` | src/crypto/noise_handshake.cpp:38-106 | For every key, prologue, ephemerals and payloads the handshake completes if and only if the shared secret is not degenerate, and then ck and h agree, the payloads arrive, and the ciphers are crossed, equal and at counter zero. |
| `FrameCode.VarintSize` | src/bytes.cpp:5-12 | The length of the encoding. |
| `FrameCode.AppendVarint` | src/bytes.cpp:14-20 | Appends the base-128 encoding. |
| `FrameCode.DecodeVarint` | src/bytes.cpp:22-52 | Value and length, incomplete or overflow as the byte budget says, gathered in a 64-bit word. |
| `BudgetVarint.DecodeExtend` | src/bytes.cpp:22-52 | A result other than incomplete is kept on every longer input. |
| `BudgetVarint.DecodeVarint` | src/bytes.cpp:14-52 | A 32-bit value is read back if and only if its encoding fits the budget. |
| `FrameCode.PlaintextFrameHelper.Encode` | src/frame/plaintext_frame_helper.cpp:14-21 | Appends indicator, length, type and payload. |
| `FrameCode.PlaintextFrameHelper.Feed` | src/frame/plaintext_frame_helper.cpp:23-25 | The pending bytes grow by the chunk. |
| `FrameCode.PlaintextFrameHelper.Compact` | src/frame/plaintext_frame_helper.cpp:27-37 | Consumed bytes go, pending bytes stay. |
| `FrameCode.PlaintextFrameHelper.Next` | src/frame/plaintext_frame_helper.cpp:39-92 | The next message, a wait or the error that the pending bytes decide, and what is left pending. |
| `FrameCode.PlaintextFrameHelper.Receive` | src/frame/plaintext_frame_helper.cpp:23-92 | A chunk fed and next called until it gives no message: exactly what the stream so far decides. |
| `NoiseFrames.FromConfig` | src/frame/noise_frame_helper.cpp:26-34 | A helper exists exactly for the base64 form of a 32-byte key. |
| `NoiseFrames.NoiseFrameHelper.ConnectBytes` | src/frame/noise_frame_helper.cpp:36-53 | The empty frame and the framed first handshake message. |
| `NoiseFrames.NoiseFrameHelper.Encode` | src/frame/noise_frame_helper.cpp:60-73 | Inner header and payload passed through the sending cipher and framed, with the cipher moved on. |
| `FrameLaws.ClearText` | src/frame/noise_frame_helper.cpp:60-73 | A message goes out in clear if and only if the sending cipher has no key, which is so until the handshake ends. |
| `NoiseFrames.NoiseFrameHelper.Feed` | src/frame/noise_frame_helper.cpp:75-77 | The pending bytes grow by the chunk. |
| `NoiseFrames.NoiseFrameHelper.Compact` | src/frame/noise_frame_helper.cpp:79-89 | Consumed bytes go, pending bytes stay. |
| `NoiseFrames.NoiseFrameHelper.NextRaw` | src/frame/noise_frame_helper.cpp:91-115 | One raw frame, a wait, or an error. |
| `NoiseFrames.ReadServerName` | src/frame/noise_frame_helper.cpp:167-172 | The server name runs to the first zero byte or the end. |
| `NoiseFrames.NoiseFrameHelper.HandleServerHello` | src/frame/noise_frame_helper.cpp:158-178 | The hello is accepted exactly when protocol and expected name agree; the error callback is made exactly otherwise. |
| `NoiseFrames.NoiseFrameHelper.HandleServerHandshake` | src/frame/noise_frame_helper.cpp:180-201 | The answer is accepted exactly when the handshake reads it; then both ciphers are split and the ready callback is made, otherwise the error callback. |
| `NoiseFrames.NoiseFrameHelper.OpenRecord` | src/frame/noise_frame_helper.cpp:133-153 | The message of a record, or the error, with the cipher moved on only on success. |
| `NoiseFrames.NoiseFrameHelper.TakeFailed` | src/frame/noise_frame_helper.cpp:118-132 | A failed helper takes one raw frame out of the buffer and asks for more, or throws on a broken one. |
| `NoiseFrames.NoiseFrameHelper.Next` | src/frame/noise_frame_helper.cpp:117-156 | The next message past any handshake frames, with the bytes left, the callbacks made and every error; after a rejection no message is ever returned and each call takes one raw frame. |
| `FrameLaws.WaitLeaves` | include/esphome/api/frame/frame_helper.hpp:49-51 | A call that asks for more has consumed nothing if and only if the first frame in the buffer is incomplete; for plaintext always. |
| `FrameLaws.HelloConsumed` | include/esphome/api/frame/frame_helper.hpp:49-51 | A complete server hello alone is consumed, and more is asked for. |
| `NoiseFrames.NoiseFrameHelper.Receive` | src/frame/noise_frame_helper.cpp:75-156 | A chunk fed and next called until it gives no message: exactly what the stream so far decides. |
| `FrameLaws.DecideExtend` | src/frame/plaintext_frame_helper.cpp:39-92 | For both codecs, a decision other than to wait is kept on every longer buffer. |
| `FrameLaws.DrainAppend` | src/connection/connection.cpp:152-161 | Draining a prefix and then the rest is draining the whole. |
| `FrameLaws.ChunkIndependence` | src/connection/connection.cpp:133-161 | For arbitrary bytes the messages delivered and the first error do not depend on how the stream is cut. |
| `FrameLaws.PlaintextDelivery` | src/frame/plaintext_frame_helper.cpp:14-92 | A list of messages arrives unchanged, in order and with nothing left over if and only if every type is below 2^28 and every payload at most 2^24 bytes. |
| `FrameLaws.EncryptedDelivery` | src/frame/noise_frame_helper.cpp:60-156 | With sender and receiver in step, a list arrives unchanged and both stay in step if and only if every type is below 2^16 and every payload at most 65515 bytes. |
| `SessionLaws.SessionDelivery` | src/frame/noise_frame_helper.cpp:36-208 | From the handshake to the last message, cut anywhere: a device that answers the first flight and then sends is understood, exactly when its messages fit a record. |
| `Wire.VarintRoundTrip` | include/esphome/api/proto/wire.hpp:80-163 | A 64-bit value is read back and the rest is left. |
| `Wire.ZigzagRoundTrip` | include/esphome/api/proto/wire.hpp:32-43 | Zigzag of both widths is undone, and its image fits the word. |
| `Wire.TagLength` | include/esphome/api/proto/wire.hpp:61-63 | The size helper is the length of the tag for every wire type. |
| `Wire.SkipExtend` | include/esphome/api/proto/wire.hpp:214-239 | A skip does not look past what it skips. |
| `ProtoScalars.ScalarRoundTrip` | tools/protogen/emit_messages.cpp:90-181 | Every numeric field type is recovered from its wire word. |
| `ProtoScalars.EncodedSize` | tools/protogen/emit_messages.cpp:355-402 | The calculated size is the encoded length, at every nesting level. |
| `ProtoMerge.DecodeAppend` | tools/protogen/emit_messages.cpp:506-529 | Decoding continues: decoding a concatenation is decoding the second part into the result of the first. |
| `ProtoRoundTrip.DecodeEncode` | tools/protogen/emit_messages.cpp:291-529 | Decoding an encoding into any message, under any schema with the same or fewer fields, is the recursive merge into that message. |
| `ProtoLaws.RoundTrip` | tools/protogen/emit_messages.cpp:291-461 | For every schema and well-formed message, decoding the encoding into a default message succeeds, and gives the message back if and only if no singular float or double in it is -0.0. |
| `ProtoLaws.DecodeUnderOldSchema` | tools/protogen/emit_messages.cpp:506-529 | Under a schema with fields removed the result is the projection, under the same exact condition. |
| `ProtoLaws.DecodeConcatenation` | tools/protogen/emit_messages.cpp:406-461 | Decoding two encodings in a row is the merge: last non-default scalar wins, repeated fields concatenate, sub-messages merge. |
| `ProtoLaws.NegativeZeroIsLost` | tools/protogen/emit_messages.cpp:138-146 | A singular -0.0 is not written and does not come back. |
| `ProtoCode.Writer.WriteVarint` | include/esphome/api/proto/wire.hpp:80-87 | Appends the varint. |
| `ProtoCode.Writer.WriteFieldTag` | include/esphome/api/proto/wire.hpp:88-91 | Appends the tag. |
| `ProtoCode.Writer.WriteFixed` | include/esphome/api/proto/wire.hpp:92-105 | Appends little-endian bytes. |
| `ProtoCode.Writer.LengthDelimited` | include/esphome/api/proto/wire.hpp:106-112 | Appends length and bytes. |
| `ProtoCode.Reader.ReadVarintValue` | include/esphome/api/proto/wire.hpp:147-163 | The value and the advanced position, or the latched error; ten bytes at most, bits past the 64th dropped. |
| `ProtoCode.Reader.ReadFieldTag` | include/esphome/api/proto/wire.hpp:136-146 | The tag, the clean end, or the latched error. |
| `ProtoCode.Reader.LengthDelimited` | include/esphome/api/proto/wire.hpp:189-201 | The bytes, or the latched error. |
| `ProtoCode.Reader.SubReader` | include/esphome/api/proto/wire.hpp:202-213 | A reader over exactly the delimited region. |
| `ProtoCode.Reader.SkipField` | include/esphome/api/proto/wire.hpp:214-239 | The position past the field, or the latched error. |
| `ProtoCode.EncodeMessage` | tools/protogen/emit_messages.cpp:488-497 | The emitted encode appends the interpreter's encoding. |
| `ProtoCode.EncodeMember` | tools/protogen/emit_messages.cpp:291-351 | Every field category of the emitted encode. |
| `ProtoCode.DecodeMessage` | tools/protogen/emit_messages.cpp:506-529 | The emitted decode loop is the interpreter's decode, including every failure. |
| `ProtoCode.DecodeMember` | tools/protogen/emit_messages.cpp:406-461 | Every field category of the emitted decode, packed and unpacked. |
| `ProtoCode.DecodePacked` | tools/protogen/emit_messages.cpp:441-449 | A packed region is read to its end or refused. |
| `ConnectionCode.Executor.ScheduleAfter` | include/esphome/api/transport/executor.hpp:28 | A fresh id armed for the delay. |
| `ConnectionCode.Executor.Cancel` | include/esphome/api/transport/executor.hpp:30-31 | The timer is gone; nothing happens to one that fired. |
| `ConnectionCode.Connection.Start` | src/connection/connection.cpp:65-78 | The start event of the state machine. |
| `ConnectionCode.Connection.SetState` | src/connection/connection.cpp:55-63 | A change is recorded and the state handler runs, which may disconnect. |
| `ConnectionCode.Connection.OnConnectedTransport` | src/connection/connection.cpp:80-110 | The connect result. |
| `ConnectionCode.Connection.OnBytes` | src/connection/connection.cpp:152-161 | The drain loop over what the frame helper brings up, in order, ending once the connection has ended. |
| `ConnectionCode.Connection.OnFrame` | src/connection/connection.cpp:163-188 | One message with the three user callbacks around it. |
| `ConnectionCode.Connection.HandleMessage` | src/connection/connection.cpp:190-264 | The protocol's own messages. |
| `ConnectionCode.Connection.HandleHello` | src/connection/connection.cpp:192-224 | The version and name checks, the connection made, the handler called. |
| `ConnectionCode.Connection.Disconnect` | src/connection/connection.cpp:299-313 | A graceful disconnect from an active connection, nothing otherwise. |
| `ConnectionCode.Connection.OnDisconnectWritten` | src/connection/connection.cpp:309-312 | The write callback closes. |
| `ConnectionCode.Connection.FinishConnect` | src/connection/connection.cpp:315-321 | The handler is taken out before it is called. |
| `ConnectionCode.Connection.Fail` | src/connection/connection.cpp:323-342 | Timers stopped, transport closed, Failed entered, handler or error handler called; nothing once ended. |
| `ConnectionCode.Connection.StartKeepalive` | src/connection/connection.cpp:344-349 | The first ping timer, when keepalive is on. |
| `ConnectionCode.Connection.StopKeepalive` | src/connection/connection.cpp:351-361 | Both keepalive timers cancelled. |
| `ConnectionCode.Connection.SendPing` | src/connection/connection.cpp:363-380 | A ping, the pong timer only if none is awaited, and the next ping timer. |
| `ConnectionCode.Connection.TimerFired` | src/connection/connection.cpp:70-74 | The three timer callbacks (this one, and those set at 348 and 371-379). |
| `ConnectionCode.Connection.OnReadFailure` | src/connection/connection.cpp:134-140 | A read error fails the connection unless it is going down. |
| `ConnectionLaws.MajorVersion` | src/connection/connection.cpp:197-220 | From HelloSent with a fitting name, a HelloResponse ends the attempt if and only if its major version is above 2 and below 2^31; otherwise the handler has success. |
| `ConnectionRuns.WrappedVersion` | src/connection/connection.cpp:197-220 | A run in which a device that announces major version 2^31 is connected to. |
| `ConnectionLaws.StepKeeps` | src/connection/connection.cpp:55-380 | Every enabled event keeps the invariant over timers, handler, history and transport. |
| `ConnectionRuns.ConnectHandler` | src/connection/connection.cpp:65-110 | Over every run: the connect handler is called at most once; while connecting it is owed, its timer is armed and the timeout has not passed; Connected and Failed mean it was called; success means the version and name checks passed; and it has been called if and only if Connected or Failed was entered or a DisconnectRequest answered. |
| `ConnectionRuns.NeverReturns` | src/connection/connection.cpp:55-63 | Over every run the state only moves forward, so nothing that was left is entered again. |
| `ConnectionRuns.StatesSeen` | include/esphome/api/connection/connection_state.hpp:8-19 | The states reported are strictly forward and end in the present one. |
| `ConnectionRuns.Keepalive` | src/connection/connection.cpp:344-380 | Over every timed run with keepalive on, a connection up at some time was made or had a PingResponse within the last interval plus timeout. |
| `ConnectionRuns.AwaitingPong` | src/connection/connection.cpp:253-260 | A pong is awaited exactly while a pong timer is armed. |
| `ConnectionRuns.PongDeadlineStays` | src/connection/connection.cpp:369-378 | Later pings never move the deadline of an awaited pong. |
| `ConnectionRuns.ClosedUnanswered` | src/connection/connection.cpp:299-321 | From every run in HelloSent a disconnect closes the connection with the handler never called, against the documented exactly once. |
| `ConnectionRuns.HelloReached` | src/connection/connection.cpp:65-110 | Such runs exist. |
| `ConnectionCode.Session.Handle` | src/connection/connection.cpp:55-380 | Whatever events reach the object, between them it is where the run of those events has brought it. |
| `ConnectionCode.ObjectHandler` | src/connection/connection.cpp:65-110 | So the promises about the connect handler hold of the object. |
| `ConnectionBytes.SurfaceSensible` | src/frame/noise_frame_helper.cpp:117-208 | Whatever the bytes, the frame codec brings up the end of the handshake at most once and messages only after it, and stops at the first refusal. |
| `ConnectionBytes.BytesAreEvents` | src/connection/connection.cpp:133-161 | Every run over raw chunks, timers and calls is a run of the state machine. |
| `ConnectionBytes.HandlerOverBytes` | src/connection/connection.cpp:65-161 | Over every run of chunks with any bytes in them, the promises about the connect handler hold. |
| `ConnectionBytes.KeepaliveOverBytes` | src/connection/connection.cpp:344-380 | Over every run of chunks with keepalive on, a connection that is up was made, or had a pong completed by a chunk, within the last interval plus timeout. |
| `ConnectionSession.ChunksAreOne` | src/connection/connection.cpp:133-161 | For arbitrary bytes, what becomes of the connection does not depend on how they are cut into chunks. |
| `ConnectionSession.WaitingReached` | src/connection/connection.cpp:65-104 | The state in which the first flight has been written is reached by start and a connect result. |
| `ConnectionSession.Connects` | src/connection/connection.cpp:65-264 | End to end: a device that answers the handshake and announces an acceptable version and name is connected to and the handler has success, however its bytes are cut. |
| `ConnectionDrive.OnNoiseBytes` | src/connection/connection.cpp:133-161 | Feeding the encrypted helper and draining it into the connection object, callbacks and exceptions included, does what the codec decides about the bytes. |
| `ConnectionDrive.OnPlainBytes` | src/connection/connection.cpp:133-161 | The same with the plaintext helper. |
| `ByteSessions.EncryptedSession.Handle` | src/connection/connection.cpp:55-380 | Whatever chunks, timers and calls reach a connection object and its encrypted helper, between them both are where the run of those events has brought them. |
| `ByteSessions.PlaintextSession.Handle` | src/connection/connection.cpp:55-380 | The same with the plaintext helper. |
| `ByteSessions.EncryptedHandler` | src/connection/connection.cpp:65-161 | So the promises about the connect handler hold of the two objects. |
| `ByteSessions.EncryptedKeepalive` | src/connection/connection.cpp:344-380 | So does the keepalive bound. |
| `ByteSessions.PlaintextHandler` | src/connection/connection.cpp:65-161 | The promises about the connect handler, with the plaintext helper. |
| `ByteSessions.PlaintextKeepalive` | src/connection/connection.cpp:344-380 | The keepalive bound, with the plaintext helper. |
| `Registry.HelloUnderstood` | src/connection/connection.cpp:163-200 | A hello encoded by the device is decoded to its version and name. |
| `Registry.AuthenticationUnderstood` | src/connection/connection.cpp:223-229 | An authentication answer encoded by the device is decoded to its flag. |
| `Registry.ConnectsToBytes` | src/connection/connection.cpp:65-264 | End to end down to the bytes of the hello: a device that answers the handshake and encodes an acceptable hello is connected to, however its bytes are cut. |
| `Glob.Wildcard` | bin/commands/glob.cpp:9-31 | Terminates and accepts, on all patterns and texts, exactly what the recursive reading accepts in which a star facing a star in the text stands for that one character. |
| `Glob.NoEarlier` | bin/commands/glob.cpp:18-24 | Remembering only the last star loses no match: a later try cannot end earlier. |
| `Glob.AcceptsSound` | bin/commands/glob.cpp:9-31 | What the loop accepts the usual meaning of * and ? accepts, on all texts. |
| `Glob.UsualMeaning` | bin/commands/glob.cpp:9-31 | For a text, the loop has the usual meaning on every pattern if and only if the text has no *. |
| `Glob.GlobMatch` | bin/commands/glob.cpp:35-42 | The bare star, the stem of "x.*", or a wildcard match. |
| `Glob.GlobMeaning` | bin/commands/glob.cpp:35-42 | On a text without *, a match is the usual meaning or the bare stem. |
| `Glob.GlobMatchAny` | bin/commands/glob.cpp:44-50 | No patterns select everything; otherwise one has to match. |
| `DnsName.ReadName` | src/discovery.cpp:30-68 | For every buffer and start: terminates, reads in range, and returns the dotted labels readable through at most 128 pointers and the position after the name, between start and the length. |
| `DnsName.NameRead` | src/discovery.cpp:30-68 | Every name valid under section 4.1.4 of RFC 1035 with at most 128 pointers is read as its dotted labels. |
| `DnsName.WriteRead` | src/discovery.cpp:30-68 | A name written in full is read back, whatever surrounds it. |
| `DnsName.CompressedName` | src/discovery.cpp:39-54 | Labels followed by a pointer are read with the name pointed to, and the record goes on past the pointer. |
| `DnsPacket.ParseTxt` | src/discovery.cpp:77-95 | For every record data and map: reads in range, and puts the readable entries into the map in order. |
| `DnsPacket.EntriesRead` | src/discovery.cpp:77-95 | Entries written one after the other are read back. |
| `DnsPacket.ParsePacket` | src/discovery.cpp:97-162 | For every message: terminates, reads in range, and adds what each readable record after the questions adds. |
| `DnsPacket.Take` | src/discovery.cpp:127-159 | The switch over the record type. |
| `DnsPacket.RecordsRead` | src/discovery.cpp:110-125 | Records written one after the other are read back with their names, types and data. |
| `GattSpec.KeyCollision` | include/esphome/api/subsystems/bluetooth_proxy.hpp:283-285 | Two requests share a key if and only if they agree in 48 bits of address and 16 bits of handle. |
| `GattCode.BluetoothProxy.EnsureGattHandlers` | src/subsystems/bluetooth_proxy.cpp:195-199 | The dispatchers are installed, once. |
| `GattCode.BluetoothProxy.Read` | src/subsystems/bluetooth_proxy.cpp:315-323 | The dispatchers are installed and the callback waits under its key, last in line. |
| `GattCode.BluetoothProxy.Write` | src/subsystems/bluetooth_proxy.cpp:325-335 | The dispatchers are installed and the callback waits under its key, last in line. |
| `GattCode.BluetoothProxy.GetServices` | src/subsystems/bluetooth_proxy.cpp:337-343 | The dispatchers are installed and the callback waits for its address, last in line. |
| `GattCode.BluetoothProxy.OnReadResponse` | src/subsystems/bluetooth_proxy.cpp:201-217 | The waiting callbacks are taken out and run, and may register more. |
| `GattCode.BluetoothProxy.OnWriteResponse` | src/subsystems/bluetooth_proxy.cpp:219-232 | The waiting callbacks are taken out and run, and may register more. |
| `GattCode.BluetoothProxy.OnServices` | src/subsystems/bluetooth_proxy.cpp:243-260 | Once the dispatchers are installed the batch is appended for its address; before, nobody hears it. |
| `GattCode.BluetoothProxy.OnServicesDone` | src/subsystems/bluetooth_proxy.cpp:261-277 | The callbacks run with everything gathered. |
| `GattCode.BluetoothProxy.OnError` | src/subsystems/bluetooth_proxy.cpp:279-312 | Reads, writes and services of the address and handle are refused, in that order. |
| `GattLaws.OnceEach` | src/subsystems/bluetooth_proxy.cpp:195-343 | Over every run of calls and responses, with callbacks that register more: each registered callback waits in its own place or has run, never both and never twice, and ran with its own kind of result for its own address and handle. |
| `GattLaws.ServicesComplete` | src/subsystems/bluetooth_proxy.cpp:195-277 | Over every run, a services result is the concatenation of all batches heard since the previous end or error for that address, given to the waiting callbacks in order; before the dispatchers are installed nothing happens. |
| `GattLaws.NoneMissed` | src/subsystems/bluetooth_proxy.cpp:195-277 | The batches heard are all those sent since the previous end or error if and only if no service among them came before the dispatchers were installed. |
| `GattTables.TableComplete` | src/subsystems/bluetooth_proxy.cpp:243-312 | Of a list the device is sending, a callback will be given exactly the services sent if and only if none of them came before the dispatchers were installed, none was thrown away by a later error for the address, and nothing of an earlier unended list is held in front of them. |
| `GattTables.ListedComplete` | src/subsystems/bluetooth_proxy.cpp:243-312 | For every run, what is gathered is all that was sent since the last end if and only if none of it was cut in those two ways. |
| `GattTables.CutShort` | src/subsystems/bluetooth_proxy.cpp:279-312 | An error for the address, about any request, refuses the services callback and throws away what it had; the next callback is given the rest of the list as a whole table. |
| `GattTables.Prepended` | src/subsystems/bluetooth_proxy.cpp:243-277 | A list whose end never came is put in front of the next one. |
| `GattLaws.Truncated` | src/subsystems/bluetooth_proxy.cpp:374-378 | A list asked for without a callback and still coming when the first callback is registered: that callback gets it without its beginning. |
| `GattCode.Handle` | src/subsystems/bluetooth_proxy.cpp:195-343 | Whatever calls and responses reach the object, between them its tables are those of the run so far. |
| `GattCode.ObjectOnceEach` | src/subsystems/bluetooth_proxy.cpp:195-343 | So each callback the object took waits or has run exactly once. |
| `GattLaws.Misdelivered` | include/esphome/api/subsystems/bluetooth_proxy.hpp:283-285 | Past 48 bits of address a callback can be run for another device's response. |

## Left out

- The elliptic-curve group law: that two parties compute the same shared secret is the one assumption of `NoiseLaws.HandshakeAgrees` and `SessionLaws.SessionDelivery` (`NoiseLaws.Agrees`), and nothing is claimed about secrecy or forgery.
- The ChaCha20 block is written as a function of key, counter and nonce; nothing is proved about its rounds.
- The one 80-limb scratch array of the X25519 ladder is five separate arrays, so overlap between them is not modelled.
- Random bytes (`src/crypto/detail/random.cpp`) are a parameter of the handshake; the wiping of secrets at the end of a call is modelled only for Poly1305.
- Message objects are values: the emitted accessors, clear and presence helpers, and the lexer, parser and other emitters of `protogen`, are not modelled; which fields are packed is part of the schema.
- Floats and doubles are their bit patterns; no arithmetic is done on them.
- Texts of exceptions and error messages, and `last_error`, are not modelled; errors are told apart by kind.
- A payload handed out by `next` is a value, so its validity only until the next call is not modelled.
- What message a frame carries is a parameter of the connection (any function of type and payload); `Registry` gives it for the messages the connection itself handles. Serialising its own messages is not part of it.
- FrameCode.PlaintextFrameHelper.Receive: drains to the end; stopping when handling a message has ended the connection is in `ConnectionDrive.OnPlainBytes`.
- NoiseFrames.NoiseFrameHelper.Receive: drains to the end; stopping when handling a message has ended the connection is in `ConnectionDrive.OnNoiseBytes`.
- ConnectionCode.Connection.OnBytes: takes what the frame helper brings up as a list; feeding and draining the helper is in `ConnectionDrive`.
- ConnectionDrive.OnNoiseBytes: the handshake callbacks, which the helper makes inside `next`, are run on the connection right after the call, before its result is used.
- The executor fires timers on time and never skips one; the transport delivers no success or data once closed; `start` is called once. Timeouts are not negative.
- A user callback of the connection may disconnect or do something without effect on the state machine; destroying the connection inside a callback is not modelled.
- The device list built from the records (`src/discovery.cpp:171-219`), and the socket that receives them.
- The client has one handler slot per message id: a later `on` for one of the GATT ids would replace the dispatcher and silence it; the model assumes none.
- GATT requests without a callback (they change no table and install nothing), notifications and advertisements, and the messages sent for each request, are not modelled.
- FrameCode.DecodeVarint: for budgets up to ten bytes, past which the source's shift by 70 is undefined; the program uses four and five.
- `src/transport/*`, `src/client.cpp`, `src/sync_client.cpp`: event-loop plumbing.
- `src/model/*`, the other subsystems and the rest of `bin/`: field copies, argument handling and output.
