# CorfuDB client core: a Dafny model

This project models the client-side core of CorfuDB, a shared log that is written once and read by many clients. It covers four parts:

- **The write-once address space.** A global log address routes through segment 0 of the current view. It goes to replica group `address % n` at mapped address `address / n`, using Java's truncating operators.
  - Writes go down the group's replication chain, head to tail. Reads come from the tail.
  - After a NetworkException the client invalidates the view and retries.
  - The plain variant (`WriteOnceAddressSpace`) reads the address back after a failed write. The cached variant (`ObjectCachedWriteOnceAddressSpace`) writes only the head of the chain, never reads back, and memoises decoded objects.
- **A stream cursor** (`SimpleStream` and the default methods of `IStream`).
  - Appending takes a sequencer token and writes a tagged entry there.
  - Reading scans from a stream pointer up to the sequencer's current value. It skips entries of other streams and entries it cannot decode, and stops at a hole.
- **Timestamps.** They are ordered by their signed 64-bit address, with the sentinels MIN, MAX and INVALID.
- **The local transaction's choice of SMR engine.**

How the model is built:
- **Log units** are write-once maps from mapped address to bytes. Each holds an epoch.
  - `LogUnits.ServeWrite` and `LogUnits.ServeRead` give the server's assumed answers, because the unit's own program is not part of this model.
  - The client protocol turns the error codes into exceptions, and that mapping is modelled exactly.
- **Everything outside the address space** is a value `Cluster.Env` that each address-space method takes and returns. That covers the units, the views the topology provider will hand out, and the transport.
  - The topology provider is a fixed sequence of views. Invalidating moves to the next one. When there is none, the operation ends with `Blocked`; the source would wait forever.
  - The transport is a sequence of link outcomes, one per request: delivered, request lost, or reply lost after the unit acted.
- **The stream** sees the address space as a map from global addresses to slots (`Streams.LogStore`). The sequencer is a counter (`Streams.Sequencer`). Deserialization is a parameter, or is already applied in the stored items.

Files, one module each: `base.dfy`, `timestamps.dfy`, `logunits.dfy`, `views.dfy`, `cluster.dfy`, `writeonce.dfy`, `objectcached.dfy`, `streams.dfy`, `holes.dfy`, `transactions.dfy`.

## Model

| member | source | states |
|---|---|---|
| Timestamps.CompareTo | src/test/java/org/corfudb/runtime/stream/SimpleTimestampTest.java:32-63 | Comparison fails exactly when either side is INVALID or null. Real timestamps compare as their addresses, in all three outcomes. MIN is below and MAX above everything else, and each equals itself. |
| Timestamps.CompareAntisymmetric | src/test/java/org/corfudb/runtime/stream/SimpleTimestampTest.java:32-54 | Any two comparable timestamps compare, and swapping them flips the result. |
| Timestamps.CompareEqualIffSame | src/test/java/org/corfudb/runtime/stream/SimpleTimestampTest.java:40-42 | Comparison says Equal exactly of equal timestamps. |
| Timestamps.CompareTransitive | src/test/java/org/corfudb/runtime/stream/SimpleTimestampTest.java:32-54 | Less is transitive, so the comparable timestamps are totally ordered. |
| Timestamps.ComparisonTestCases | src/test/java/org/corfudb/runtime/stream/SimpleTimestampTest.java:32-63 | Every assertion of the comparison test holds. This includes Long.MIN_VALUE and Long.MAX_VALUE against MIN and MAX, and the three ClassCastException cases. |
| Timestamps.NatDigits | src/test/java/org/corfudb/runtime/stream/SimpleTimestampTest.java:13-20 | The decimal form of a natural is non-empty, all digits, and has no leading zero. |
| Timestamps.AddressString | src/test/java/org/corfudb/runtime/stream/SimpleTimestampTest.java:15-19 | `toString` of a real timestamp: non-empty, and it starts with a minus sign exactly for a negative address. |
| Timestamps.NatDigitsRoundTrip | src/test/java/org/corfudb/runtime/stream/SimpleTimestampTest.java:13-20 | Parsing the decimal digits of n gives back n. |
| Timestamps.AddressStringRoundTrip | src/test/java/org/corfudb/runtime/stream/SimpleTimestampTest.java:13-20 | The string form of a real timestamp is an optional minus sign followed by digits, and it parses back to the address. So distinct timestamps print differently. |
| Timestamps.StringTestCases | src/test/java/org/corfudb/runtime/stream/SimpleTimestampTest.java:15-19 | 0 prints as "0" and 100 prints as "100". |
| Timestamps.Wrap64 | src/main/java/org/corfudb/runtime/stream/SimpleStream.java:129 | Java `long` wrap-around: the result is congruent to the input modulo 2^64, and it equals the input when the input is in range. |
| LogUnits.ServeWrite | src/main/java/org/corfudb/runtime/protocols/logunits/CorfuDBSimpleLogUnitProtocol.java:138-152 | Assumed server behaviour. It answers OK exactly for a current epoch and a free address, and then fills that address. It answers OVERWRITE for a filled address, TRIMMED for a trimmed one, and otherwise leaves the unit unchanged. |
| LogUnits.ServeRead | src/main/java/org/corfudb/runtime/protocols/logunits/CorfuDBSimpleLogUnitProtocol.java:178-186 | Assumed server behaviour. It answers UNWRITTEN exactly for a free address, TRIMMED exactly for a trimmed one, and otherwise OK with the stored bytes. |
| LogUnits.WriteCodeOutcome | src/main/java/org/corfudb/runtime/protocols/logunits/CorfuDBSimpleLogUnitProtocol.java:141-152 | OVERWRITE raises an OverwriteException and TRIMMED a TrimmedException, each carrying the unit's address. A stale epoch raises NetworkException. Every other code counts as success. |
| LogUnits.ReadReplyOutcome | src/main/java/org/corfudb/runtime/protocols/logunits/CorfuDBSimpleLogUnitProtocol.java:179-186 | UNWRITTEN and TRIMMED raise the matching exception, carrying the unit's address. Any other code returns the content. |
| LogUnits.ClientWrite | src/main/java/org/corfudb/runtime/protocols/logunits/CorfuDBSimpleLogUnitProtocol.java:127-153 | The protocol's `write`: the unit keeps its epoch, a raised exception leaves the unit unchanged, and success leaves the data at the address. |
| LogUnits.ClientRead | src/main/java/org/corfudb/runtime/protocols/logunits/CorfuDBSimpleLogUnitProtocol.java:168-191 | The protocol's `read`: the only exceptions it raises from a reply are UNWRITTEN and TRIMMED, each carrying the address asked for. |
| LogUnits.ClientWriteOutcomes | src/main/java/org/corfudb/runtime/protocols/logunits/CorfuDBSimpleLogUnitProtocol.java:138-152 | A client write succeeds exactly when the epoch is current and the address is free, and it then fills the address. NetworkException comes exactly from a stale epoch. OVERWRITE and TRIMMED correspond exactly to the cell's state. A failed write changes nothing. |
| LogUnits.ClientReadOutcomes | src/main/java/org/corfudb/runtime/protocols/logunits/CorfuDBSimpleLogUnitProtocol.java:178-186 | A client read fails with UNWRITTEN exactly for a free address and with TRIMMED exactly for a trimmed one. Otherwise it returns exactly the stored bytes. |
| LogUnits.WriteOnce | src/main/java/org/corfudb/runtime/protocols/logunits/CorfuDBSimpleLogUnitProtocol.java:141-144 | After a successful write the address reads back as the data. Any second write there, with the same data or not, raises OVERWRITE and changes nothing. |
| LogUnits.ReadUnwritten | src/main/java/org/corfudb/runtime/protocols/logunits/CorfuDBSimpleLogUnitProtocol.java:179-182 | Reading a never-written address raises UNWRITTEN at that address. |
| Views.GroupCount | src/main/java/org/corfudb/runtime/view/WriteOnceAddressSpace.java:106 | The modulus of the routing is the positive number of groups in segment 0. |
| Views.ChainOf | src/main/java/org/corfudb/runtime/view/WriteOnceAddressSpace.java:108 | A group's chain is never empty. |
| Views.JavaRem | src/main/java/org/corfudb/runtime/view/WriteOnceAddressSpace.java:107 | Java's `%`: Euclidean for a non-negative address, strictly between -n and n, and never positive for a negative address, so it is negative exactly where Java's is. |
| Views.JavaDiv | src/main/java/org/corfudb/runtime/view/WriteOnceAddressSpace.java:110 | Java's `/`: Euclidean for non-negative operands, and `q * n + JavaRem(a, n) == a`. |
| Views.Locate | src/main/java/org/corfudb/runtime/view/WriteOnceAddressSpace.java:105-110 | Routing. The group is `JavaRem(address, n)` and the mapped address is `JavaDiv(address, n)`, so `mapped * n + group == address`. For a non-negative address these are `address % n` and `address / n`. Routing fails, with IndexOutOfBounds at that remainder, exactly when the remainder is negative. So -n routes to group 0 at -1, and -1 fails. |
| Views.LocateAdvance | src/main/java/org/corfudb/runtime/view/WriteOnceAddressSpace.java:107-110 | The addresses a and a + n share a group, and their mapped addresses differ by 1. |
| Views.LocateSpreads | src/main/java/org/corfudb/runtime/view/WriteOnceAddressSpace.java:107-110 | The addresses 0 .. n-1 go to distinct groups. |
| Views.LocateInjective | src/main/java/org/corfudb/runtime/view/WriteOnceAddressSpace.java:107-110 | Two addresses never share a (group, mapped address) slot. |
| Views.LocateUsesSegmentZero | src/main/java/org/corfudb/runtime/view/WriteOnceAddressSpace.java:105 | Routing depends only on segment 0. |
| Cluster.CurrentView | src/main/java/org/corfudb/runtime/view/WriteOnceAddressSpace.java:105 | The view in use names only existing units and has non-empty chains. |
| Cluster.SendWrite | src/main/java/org/corfudb/runtime/view/WriteOnceAddressSpace.java:113 | A unit write under the current view's epoch over the next link. It succeeds exactly when delivered with a current epoch and a free cell, and then the unit holds the data. It raises NetworkException exactly when the request or reply is lost or the unit's epoch is past the view's. OVERWRITE and TRIMMED leave every unit unchanged. Only the addressed cell of the addressed unit can change, and only from free to the data. A lost request changes no unit. Otherwise a current epoch and a free cell leave the data at the unit, even when the reply is lost. |
| Cluster.SendRead | src/main/java/org/corfudb/runtime/view/WriteOnceAddressSpace.java:151 | A unit read changes only the transport. When delivered, it returns exactly the client read. Otherwise it raises NetworkException. |
| Cluster.ReliableRest | src/main/java/org/corfudb/runtime/view/WriteOnceAddressSpace.java:113 | Over a reliable transport the next request is delivered, and the transport stays reliable. |
| Cluster.SendWriteKeepsHolds | src/main/java/org/corfudb/runtime/view/WriteOnceAddressSpace.java:111-114 | A unit write never empties or changes a filled cell of any unit. |
| Cluster.ChainSendReliable | src/main/java/org/corfudb/runtime/view/WriteOnceAddressSpace.java:111-114 | Over a reliable transport, writing a unit of a chain whose units are all at the view's epoch or below raises no NetworkException. It keeps both the transport reliable and the chain current. |
| Cluster.SendWriteKeepsCurrent | src/main/java/org/corfudb/runtime/view/WriteOnceAddressSpace.java:111-114 | A unit write changes no epoch, so a chain whose units are at the view's epoch or below stays so. |
| Cluster.InvalidateViewAndWait | src/main/java/org/corfudb/runtime/view/WriteOnceAddressSpace.java:120 | Moves to the next view exactly when there is one, and changes nothing else. |
| Cluster.TailOf | src/main/java/org/corfudb/runtime/view/WriteOnceAddressSpace.java:149 | The last unit of the routed chain is an existing unit. |
| Cluster.HeadOf | src/main/java/org/corfudb/runtime/view/ObjectCachedWriteOnceAddressSpace.java:118-121 | The first unit of the routed chain is an existing unit. |
| Cluster.ConfinedSendWrite | src/main/java/org/corfudb/runtime/view/WriteOnceAddressSpace.java:111-114 | Writing a unit on the route of `address` keeps the write confined: no filled cell changes, and only free slots that `address` routes to gain the data. |
| Cluster.ConfinedTrans | src/main/java/org/corfudb/runtime/view/WriteOnceAddressSpace.java:101-132 | Two confined stretches of a write, across successive views, make one confined stretch. |
| Cluster.ConfinedLater | src/main/java/org/corfudb/runtime/view/WriteOnceAddressSpace.java:120 | A write stays confined when later views are allowed. |
| Cluster.ReadAfterChainHolds | src/main/java/org/corfudb/runtime/view/WriteOnceAddressSpace.java:111-115 | Once every unit of the chain holds the data, a fault-free read of the address returns it. |
| Cluster.ChainHoldsNextView | src/main/java/org/corfudb/runtime/view/WriteOnceAddressSpace.java:120-124 | A chain that holds the data still holds it under the next view, when that view keeps segment 0. |
| Cluster.WriteLeavesOtherReads | src/main/java/org/corfudb/runtime/view/WriteOnceAddressSpace.java:98-133 | Nothing else changes. Suppose every view the write used routes like view w, and no unit serves two groups of w. Then a confined write at one address leaves the read of every other address under w as it was. |
| Cluster.GainedSlotBelongsToAddress | src/main/java/org/corfudb/runtime/view/WriteOnceAddressSpace.java:107-114 | Under those conditions, a slot that a confined write filled belongs to the written address. |
| WriteOnceAddressSpace.Read | src/main/java/org/corfudb/runtime/view/WriteOnceAddressSpace.java:135-159 | No unit changes and the view never moves back. Unless it ends `Blocked` at the last view, the result is exactly the tail read under the final view: the bytes, UNWRITTEN, TRIMMED, or IndexOutOfBounds for a bad route. Over a reliable transport the view does not change, the transport stays reliable, and the result is the tail read under the initial view. A routed read then sends exactly one request, and an unroutable one sends none. So `Blocked` and retries come only from lost messages. |
| WriteOnceAddressSpace.ChainStep | src/main/java/org/corfudb/runtime/view/WriteOnceAddressSpace.java:111-114 | One unit of the chain loop. Success extends the chain invariant to the next unit. OVERWRITE or TRIMMED is a refusal at that unit, and every unit not yet written is left as it was. A reliable transport stays reliable. Over a reliable transport to a current chain, there is no NetworkException. |
| WriteOnceAddressSpace.SendStep | src/main/java/org/corfudb/runtime/view/WriteOnceAddressSpace.java:111-114 | Sending the write to unit k of the chain. Success leaves units 0..k holding the data and every other unit as it was. OVERWRITE or TRIMMED is that unit's refusal and changes no unit. Over a reliable transport to a current chain there is no NetworkException, the transport stays reliable and the chain stays current. The write stays confined. |
| WriteOnceAddressSpace.HeadTakesFirst | src/main/java/org/corfudb/runtime/view/WriteOnceAddressSpace.java:111-113 | The head accepts the first write of the chain loop only when the mapped address was free at the head when the write began. |
| WriteOnceAddressSpace.FreeStep | src/main/java/org/corfudb/runtime/view/WriteOnceAddressSpace.java:111-114 | One unit of the chain loop on a chain of distinct free units at the view's epoch. Before the tail, every request is delivered and accepted. The tail's request fails only with NetworkException, exactly when it is not delivered. Unless the request is lost, the unit takes the write. |
| WriteOnceAddressSpace.ChainEnds | src/main/java/org/corfudb/runtime/view/WriteOnceAddressSpace.java:111-115 | How the chain loop ends, at the unit that raised or past the tail. It carries the outcomes of `WriteChain`: the whole chain written, a refusal with nothing after it touched, or a NetworkException. |
| WriteOnceAddressSpace.WriteChain | src/main/java/org/corfudb/runtime/view/WriteOnceAddressSpace.java:111-114 | Units are written down the chain in order. With no exception, every unit of the chain holds the data. On OVERWRITE or TRIMMED from unit k, every unit before k holds the data, unit k refused, and no unit after k was touched. A NetworkException comes only from a lost message or a unit past the view's epoch. A reliable transport stays reliable. On a current chain of distinct free units whose requests before the tail's are delivered, one request goes to each unit, the only possible exception is a NetworkException exactly when the tail's request is not delivered, and unless that request is lost every unit holds the data. The write stays confined. |
| WriteOnceAddressSpace.LostReplyRetry | src/main/java/org/corfudb/runtime/view/WriteOnceAddressSpace.java:117-126 | In the view-change retry, the chain write ends in NetworkException with the chain written. Under the next view, which keeps segment 0, the transport is reliable and the address reads back as the data. |
| WriteOnceAddressSpace.ReadBack | src/main/java/org/corfudb/runtime/view/WriteOnceAddressSpace.java:117-131 | The NetworkException handler. It moves to the next view and reads the address back, changing no unit. It reports success only when the read under the new view returns the data. It blocks only at the last view, and otherwise the view has moved on. A reliable transport stays reliable. When the next view routes the address and its tail read returns the data over a reliable transport, it succeeds one view later after exactly one read request. |
| WriteOnceAddressSpace.WriteAttempt | src/main/java/org/corfudb/runtime/view/WriteOnceAddressSpace.java:101-131 | One pass of the retry loop: the chain write under the view in use, then the read-back after a NetworkException. It carries each outcome of `Write` for a single pass. A pass that asks for a retry has moved the view on. |
| WriteOnceAddressSpace.Write | src/main/java/org/corfudb/runtime/view/WriteOnceAddressSpace.java:98-133 | The write stays confined. On success the address reads back as the data under the final view. Unless success was concluded from a read-back, every chain unit holds the data. A read-back success happens only after the view has moved on. OVERWRITE and TRIMMED end the write and come from a unit of the chain that refused, with every unit before it holding the data. A bad route is surfaced, and `Blocked` happens only at the last view. A reliable transport stays reliable. Over a reliable transport to a chain of current units, the write neither blocks nor reads back nor changes the view. So it lands on the whole chain unless a unit refuses it, and a refusal leaves every unit after the refusing one untouched. Success there also means the head had the mapped address free when the write began, so rewriting a filled address never succeeds. The read-verify: when the reply to the tail's write is lost from a free, current chain of n units, and the next view keeps segment 0, the write ends in success by read-back, one view later. Exactly n + 1 requests are used (the n unit writes and one read), so there is no further write. |
| WriteOnceAddressSpace.WriteThenRead | src/main/java/org/corfudb/runtime/view/WriteOnceAddressSpace.java:98-159 | Read after write. Over a reliable transport to a chain of current units, a successful write is followed by a read that returns the data. A failed write fails with a refusal or a bad route, never `Blocked`. The view does not change. |
| WriteOnceAddressSpace.ReadObject | src/main/java/org/corfudb/runtime/view/WriteOnceAddressSpace.java:161-172 | Unless `Blocked`, the result is the tail read decoded. A decoding failure is reported as such, and no unit changes. Over a reliable transport the view stays put, the transport stays reliable, and the result is the decoded tail read under the initial view. |
| ObjectCachedAddressSpace.ObjectCachedWriteOnceAddressSpace.Write | src/main/java/org/corfudb/runtime/view/ObjectCachedWriteOnceAddressSpace.java:105-130 | Only the head of the routed chain is ever written. On success the head holds the data. OVERWRITE and TRIMMED come from the head. A NetworkException only moves to the next view, with no read-back. The write stays confined to head slots. A reliable transport stays reliable. Over a reliable transport to a current head, it neither blocks nor changes the view. There it succeeds exactly when the head had the mapped address free. A refusal there leaves every unit unchanged and is the head's refusal in the initial state. |
| ObjectCachedAddressSpace.HeadStep | src/main/java/org/corfudb/runtime/view/ObjectCachedWriteOnceAddressSpace.java:112-128 | One attempt of the cached write. Success leaves the data at the head, and OVERWRITE or TRIMMED is the head's refusal. Over a reliable transport to a current head there is no NetworkException. A reliable transport stays reliable. After a NetworkException the next view carries the invariant on. |
| ObjectCachedAddressSpace.ObjectCachedWriteOnceAddressSpace.Read | src/main/java/org/corfudb/runtime/view/ObjectCachedWriteOnceAddressSpace.java:132-167 | Same as the plain read. Unless `Blocked`, the result is the tail read under the final view, and no unit changes. Over a reliable transport, it is the tail read under the initial view, and the transport stays reliable. |
| ObjectCachedAddressSpace.ObjectCachedWriteOnceAddressSpace.ReadObject | src/main/java/org/corfudb/runtime/view/ObjectCachedWriteOnceAddressSpace.java:169-179 | On a cache hit it returns the cached object and touches neither storage nor cache. On a miss the result is the decoded tail read, a decoded object is cached under (log, address), and no other cache key changes. A failure caches nothing. Over a reliable transport, a miss does not block, reads under the initial view, and leaves the transport reliable. |
| Streams.Sequencer.GetNext | src/main/java/org/corfudb/runtime/stream/SimpleStream.java:56 | Hands out the current counter value and advances by one. At Long.MAX_VALUE it fails with OutOfSpace. |
| Streams.LogStore.Write | src/main/java/org/corfudb/runtime/stream/SimpleStream.java:58 | Fills a free address. A written or trimmed address is left alone and raises OVERWRITE or TRIMMED. |
| Streams.LogStore.ReadObject | src/main/java/org/corfudb/runtime/stream/SimpleStream.java:77 | Returns exactly the stored item, or UNWRITTEN for absent addresses, or TRIMMED for trimmed ones. |
| Streams.SimpleStream.constructor | src/main/java/org/corfudb/runtime/stream/SimpleStream.java:30-36 | A new stream uses the given stream id, sequencer and address space, and its pointer starts at address 0. |
| Streams.SimpleStream.Append | src/main/java/org/corfudb/runtime/stream/SimpleStream.java:55-60 | Writes an entry tagged with exactly this stream, at the sequencer's token, and returns the timestamp of that token, which is then `check(false)`. A taken address surfaces OVERWRITE or TRIMMED with nothing written. If every written address was issued by the sequencer, that stays true and only OutOfSpace can fail. |
| Streams.SimpleStream.AppendToStreams | src/main/java/org/corfudb/runtime/stream/IStream.java:66-69 | The multi-stream append always fails and writes nothing. |
| Streams.SimpleStream.ReadEntry | src/main/java/org/corfudb/runtime/stream/SimpleStream.java:103-119 | It succeeds exactly when the address holds an entry of this stream, and returns that entry with its timestamp set. A trimmed address raises TRIMMED. A foreign, undecodable or unwritten address is a hole at the timestamp's address. A non-simple timestamp fails the cast. |
| Streams.SimpleStream.ReadNextEntry | src/main/java/org/corfudb/runtime/stream/SimpleStream.java:71-94 | The scan between the pointer and the sequencer's current value stops at the first address it cannot pass, and every address before it holds a foreign or undecodable entry. At the bound it returns none. Otherwise it returns what `readEntry` gives for that address. The pointer ends just past a returned entry, or else just past the last entry decoded. The pointer never decreases, and after a match the current position is the entry's timestamp. |
| Streams.SimpleStream.ReadNextObject | src/main/java/org/corfudb/runtime/stream/IStream.java:86-91 | The same scan outcome as `readNextEntry`, and the result is none exactly when the entry is none, otherwise the entry's payload. |
| Streams.SimpleStream.ReadObject | src/main/java/org/corfudb/runtime/stream/IStream.java:107-112 | Succeeds exactly when `readEntry` does, with its payload, and otherwise fails the same way. |
| Streams.PayloadOf | src/main/java/org/corfudb/runtime/stream/IStream.java:90 | Null exactly for a null entry, otherwise the entry's payload; failures pass through. |
| Streams.SimpleStream.NextTimestamp | src/main/java/org/corfudb/runtime/stream/SimpleStream.java:128-130 | The address plus one, wrapping from Long.MAX_VALUE to Long.MIN_VALUE. A sentinel fails the cast. |
| Streams.SimpleStream.PreviousTimestamp | src/main/java/org/corfudb/runtime/stream/SimpleStream.java:139-141 | The address minus one, wrapping from Long.MIN_VALUE to Long.MAX_VALUE. A sentinel fails the cast. |
| Streams.SimpleStream.NextPreviousInverse | src/main/java/org/corfudb/runtime/stream/SimpleStream.java:128-141 | Next and previous undo each other on every real timestamp, wrap-around included. |
| Streams.SimpleStream.NextIsLater | src/main/java/org/corfudb/runtime/stream/SimpleStream.java:128-130 | The next timestamp compares greater, except at Long.MAX_VALUE, where it wraps to the least one. |
| Streams.SimpleStream.Check | src/main/java/org/corfudb/runtime/stream/SimpleStream.java:153-155 | One below the sequencer's current value, whatever `cached` says. |
| Streams.SimpleStream.CheckDefault | src/main/java/org/corfudb/runtime/stream/IStream.java:135-137 | `check()` equals `check(false)`, and also `check(true)`. |
| Streams.SimpleStream.CurrentPosition | src/main/java/org/corfudb/runtime/stream/SimpleStream.java:164-166 | One below the stream pointer: the last address consumed. |
| Streams.PointerAfterBounds | src/main/java/org/corfudb/runtime/stream/SimpleStream.java:75-91 | The pointer a scan leaves lies between where it started and where the scan stopped. |
| Streams.PointerAfterUndecodable | src/main/java/org/corfudb/runtime/stream/SimpleStream.java:77-85 | Undecodable addresses alone do not move the pointer. |
| Streams.PointerAfterPassesDecoded | src/main/java/org/corfudb/runtime/stream/SimpleStream.java:77-80 | The pointer ends past every entry the scan decoded, foreign ones included. |
| Streams.ScanStopUnique | src/main/java/org/corfudb/runtime/stream/SimpleStream.java:75-91 | Where a scan stops is determined by the log. |
| Streams.ScanFindsFirstOwn | src/main/java/org/corfudb/runtime/stream/SimpleStream.java:75-82 | A returned entry is the first entry of the stream at or after the pointer. |
| Streams.ScanExhaustedHasNone | src/main/java/org/corfudb/runtime/stream/SimpleStream.java:75-93 | A scan that returns none found every address in range written and none of them the stream's. |
| Streams.AppendThenReadBack | src/main/java/org/corfudb/runtime/stream/SimpleStream.java:55-94 | On a fresh log, appending a, b and c returns timestamps 0, 1 and 2. Reading back returns a, b, c and then none, and leaves the position at the third timestamp. |
| StreamHoles.HoleAsWritten | src/main/java/org/corfudb/runtime/stream/SimpleStream.java:86-90 | As written, the hole exception carries the address the UnwrittenException carried. |
| StreamHoles.UnwrittenCarriesMappedAddress | src/main/java/org/corfudb/runtime/protocols/logunits/CorfuDBSimpleLogUnitProtocol.java:179-182 | Through the write-once address space, UNWRITTEN carries the mapped address `address / n`, not the global one. |
| StreamHoles.HoleAsWrittenMisplaced | src/main/java/org/corfudb/runtime/stream/SimpleStream.java:89 | With two or more groups, the hole at any global address other than 0 is reported, as written, at a different address. |
| StreamHoles.TwoGroupCluster | src/main/java/org/corfudb/runtime/view/WriteOnceAddressSpace.java:105-108 | A valid cluster of two single-unit groups. |
| StreamHoles.HoleAddressCounterexample | src/main/java/org/corfudb/runtime/stream/SimpleStream.java:89 | With two groups and global address 5 unwritten, the read raises UNWRITTEN at 2, and the stream as written reports the hole at 2 instead of 5. |
| Transactions.Sync | src/main/java/org/corfudb/runtime/smr/LocalTransaction.java:45 | Syncing a one-shot engine records the target timestamp and keeps its stream, class and timestamp. A pass-through engine is unaffected. |
| Transactions.SnapshotOf | src/main/java/org/corfudb/runtime/smr/LocalTransaction.java:39-46 | A pass-through engine shows its handed timestamp. A one-shot engine shows the timestamp it was synced to. |
| Transactions.LocalTransaction.constructor | src/main/java/org/corfudb/runtime/smr/LocalTransaction.java:20-25 | The executing engine and the timestamp are those given. |
| Transactions.LocalTransaction.GetEngine | src/main/java/org/corfudb/runtime/smr/LocalTransaction.java:36-48 | On the executing stream: a pass-through engine with the executing engine's object and the transaction timestamp, opening no stream. On any other stream: that stream is opened, and the result is a one-shot engine on it with the given class and the transaction timestamp. Either way the engine shows the state at the transaction's timestamp. |
| Transactions.LocalTransaction.RegisterStream | src/main/java/org/corfudb/runtime/smr/LocalTransaction.java:56-58 | Changes nothing. |
| Transactions.LocalTransaction.SetCorfuDBRuntime | src/main/java/org/corfudb/runtime/smr/LocalTransaction.java:67-69 | Changes nothing; the runtime is not stored. |
| Transactions.LocalTransaction.SetTransaction | src/main/java/org/corfudb/runtime/smr/LocalTransaction.java:89-91 | Changes nothing. |
| Transactions.LocalTransaction.ExecuteTransaction | src/main/java/org/corfudb/runtime/smr/LocalTransaction.java:99-101 | Changes nothing. |
| Transactions.LocalTransaction.Propose | src/main/java/org/corfudb/runtime/smr/LocalTransaction.java:122-124 | Always fails as unsupported and changes nothing. |

## Left out

- Serialization (`ObjectOutputStream`, `Serializer.serialize_compressed` and its inverse) is opaque. The address space takes `decode` as a parameter, and the stream store holds items already decoded. The `write(long, Serializable)` overloads are therefore not modelled separately.
- An IOException while deserializing during a stream scan (as distinct from ClassNotFound or ClassCast) would propagate. The model has no such outcome.
- Thrift, the connection pool, and the units' `ping`, `setEpoch`, `reset` and `simulateFailure` are left out. So is `trim` on the unit or stream, and `close`, all of which are no-ops. So is the truncation of the epoch to a Java `int`.
- The log unit's server program is not part of this model. Its behaviour is assumed: a stale epoch is refused, and any occupied address answers OVERWRITE, including a rewrite of identical bytes.
- Reads are assumed to ignore epochs. The unit's read answer never depends on its epoch, and the client does not check for ERR_STALEEPOCH on a read (CorfuDBSimpleLogUnitProtocol.java:179-186).
- The topology provider is a fixed sequence of views. Where the source waits forever for a new view, the model returns `Blocked`.
- Concurrency is not modelled: `synchronized`, `AtomicLong`, and the process-wide object cache shared between threads. The cache is a field of the cached address space, and its initial contents are given to the constructor.
- The stream reads and writes a map from global addresses, not the routed address space of `Cluster`. So its TRIMMED (on a read or an append) and its OVERWRITE (`OverwriteAt` on an append) name the global address. The source propagates the unit's exception unchanged, and that carries the mapped address (CorfuDBSimpleLogUnitProtocol.java:143, WriteOnceAddressSpace.java:113).
- The sequencer's own program is not part of this model. It is a counter starting at 0, and running out of tokens at Long.MAX_VALUE is a modelling choice.
- The constructors of `SimpleStream` that build their own sequencer and address space are not modelled. The model takes both as given.
- `check(cached)` ignores `cached` in the code, and the model follows the code. No cached value is modelled, even though the Javadoc of `check` speaks of a fresh or cached timestamp (SimpleStream.java:144-151, IStream.java:139-148).
- The accessors `getRuntime` and `getTransaction`, which return null, are not modelled. Neither are `getStreamID` and the stored runtime.
- SimpleTimestamp's source is not part of this model. Equality is value equality, and the hash code is not modelled. The sentinels are taken not to be SimpleTimestamp instances, so casting them fails.
- The SMR engines are not part of this model. An engine is recorded by what it was built from, and `sync` only records its target.
- ObjectCachedAddressSpace.ObjectCachedWriteOnceAddressSpace.Write: the contract permits the outcome the missing read-back causes but does not single it out. After a lost reply, the retry meets the head's own earlier write and ends in OVERWRITE.
- WriteOnceAddressSpace.Write: the read-verify is stated for the view-change retry after a lost reply to the tail's write. Other sequences of lost messages are covered only by the general clauses. For example, a lost reply from the head of a longer chain leaves the tail unwritten, so the read-back fails and the retry ends in OVERWRITE from the head.
- WriteOnceAddressSpace.Write: after a read-back success, the contract states only that the tail returns the data, not that every chain member holds it. The source promises no more.

## Findings

| source | as written | input that shows it | evidently intended | confidence | as-written member | corrected member |
|---|---|---|---|---|---|---|
| src/main/java/org/corfudb/runtime/stream/SimpleStream.java:86-90 | `readNextEntry` throws `HoleEncounteredException(ue.address)`. That address is the one the log unit received, the mapped address `i / n`. | Two replica groups, global address 5 unwritten: the read raises UNWRITTEN at 2, so the hole is reported at 2. | The hole is the global address `i` being scanned. | not executed | StreamHoles.HoleAsWritten | Streams.SimpleStream.ReadNextEntry |
| src/main/java/org/corfudb/runtime/stream/SimpleStream.java:113-117 | `readEntry` throws the same `HoleEncounteredException(ue.address)`. | The same cluster, `readEntry` at timestamp 5: the hole is reported at 2. | The hole is the timestamp's address. | not executed | StreamHoles.HoleAsWritten | Streams.SimpleStream.ReadEntry |
