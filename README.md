# plus-protocol core, modelled in Dafny

This project models three modules of the `rust-core` crate:

- **Packet codec** (`rust-core/src/packet.rs`). It covers the eight packet types, the flags
  byte, and the constructors of data, ACK, NACK, heartbeat and connect packets. It also
  covers the big-endian wire format written by `serialize` and read back by `deserialize`.
- **UDP transport bookkeeping** (`rust-core/src/transport.rs`). This is the wrapping sequence
  counter and the table of packets awaiting an ACK. It also covers the send-side transforms
  (compress, then encrypt), the receive-side transforms (decrypt, then decompress), ACK and
  NACK handling, and one tick of the retransmission task.
- **Background job queue** (`rust-core/src/jobs.rs`). This covers job creation, the
  `BinaryHeap` order (priority, then creation time), and one tick of the scheduler, which
  promotes due jobs. It also covers one worker turn: pop the best eligible job, start it, run
  its handler, then settle it as Completed, Scheduled for retry, or Failed. Finally it covers
  `get_job`, `clear_completed`, registration and shutdown.

Files and modules:

| file | module | contents |
|---|---|---|
| `constants.dfy` | `Constants` | protocol version, ACK timeout and retransmit limit (`rust-core/src/lib.rs`) |
| `errors.dfy` | `Errors` | the error kinds the core raises; `Result`, `Option` |
| `byte_order.dfy` | `ByteOrder` | fixed-width big-endian integers, as written by `put_u16/32/64` and read by `get_u16/32/64` |
| `utf8.dfy` | `Utf8` | well-formed UTF-8, the check `String::from_utf8` makes |
| `packet.dfy` | `Packets` | packet types, flags, packets and the wire codec |
| `transport.dfy` | `Transport` | `class Transport` and the functions its contracts use |
| `jobs.dfy` | `Jobs` | job records, the heap order, promotion, settlement and run counting |
| `queue.dfy` | `Queue` | `class JobQueue` and the worker's selection loop |

### How the model represents the source

- **Mutable state.**
  - `Transport` and `JobQueue` are classes, and their methods `modify` the fields the source
    mutates behind its locks.
  - The `BinaryHeap` is modelled as a sequence of its elements. The order of that sequence
    is not the heap's sift layout: pushing appends, and a pop loop puts the remaining jobs
    back in the order it visited them. Contracts speak only of its multiset, so no property
    depends on that order, and `GetJob`'s scan of the heap does not follow the source's
    iteration order.
  - `pop` takes an element that no other element outranks.
- **Clocks.** Clock readings are parameters: `now` in milliseconds, plus the wall-clock
  `timestamp` written into packets. One step of the model reads the clock once, where the
  source may read it several times (see "Left out").
- **Job ids.** A job id is supplied by the caller instead of a fresh UUID.
- **Providers and handlers.**
  - Encryption and compression providers are values that hold possibly failing functions.
  - A job handler is a function from the job to a result.
  - Whether the job's timeout fired first is a parameter.
- **Sockets.**
  - Sending and receiving are replaced by their data. `SendReliable` returns the datagram
    it would send, and takes whether the socket accepted it.
  - `Recv` takes the datagram and returns the ACK it would answer with.

### Notes on the code's behaviour

The following behaviours of the code are easy to misread. The model keeps each one:

- **Tie order.** The comment in `Ord for Job` (rust-core/src/jobs.rs:130) says "Higher
  priority jobs come first". Within one priority, `cmp` orders `created_at` ascending
  (rust-core/src/jobs.rs:132), and `BinaryHeap` is a max-heap. So among jobs of equal
  priority, the most recently created one pops first.
- **Number of runs.** `attempts` is incremented when a job starts (rust-core/src/jobs.rs:343).
  The retry check `attempts < max_retries` (rust-core/src/jobs.rs:364) runs after that. So
  with `max_retries` = N a job runs at most max(1, N) times.
- **Retrying.** The status is set to Retrying (rust-core/src/jobs.rs:365) and then overwritten
  by Scheduled (rust-core/src/jobs.rs:372) before the job is stored anywhere. A retry is a new
  `scheduled_at`, not a sleep on the worker.
- **Clearing the history.** `clear_completed` (rust-core/src/jobs.rs:415-417) empties the whole
  history. That history also holds Failed jobs and the copies of jobs awaiting a retry.
- **Handler results.** The `Ok(_)` arm at rust-core/src/jobs.rs:354 ignores the handler's bytes;
  nothing stores a result.
- **Errors.** The success arm (rust-core/src/jobs.rs:354-358) leaves `error` alone, so a job
  that succeeds after a failure keeps the old error. The failure arm sets no completion time.

## Model

| member | source | states |
|---|---|---|
| Packets.TypeCode | rust-core/src/packet.rs:10-28 | every packet type's discriminant is below 8 |
| Packets.PacketTypeFromByte | rust-core/src/packet.rs:30-49 | a byte decodes exactly when it is below 8. The result's discriminant is that byte; any other byte is refused as an unknown packet type carrying the byte |
| Packets.TypeCodeRoundTrip | rust-core/src/packet.rs:30-49 | decoding a type's discriminant gives the type back |
| Packets.ToByte | rust-core/src/packet.rs:60-72 | ORing in bits 0x01, 0x02 and 0x04 yields the sum of the set flags' weights |
| Packets.FlagsRoundTrip | rust-core/src/packet.rs:59-81 | the flags byte never exceeds 7, and decoding it gives the same flags |
| Packets.FlagsFromByte | rust-core/src/packet.rs:74-80 | only bits 0-2 are read: the decoded flags encode back to the byte's low three bits |
| Packets.FlagsIgnoreHighBits | rust-core/src/packet.rs:74-80 | decoding ignores bits 3-7, so decoding then re-encoding clears them |
| Packets.NewData | rust-core/src/packet.rs:97-110 | a version-1 data packet (type code 0) whose flags byte is 4, asking for an ACK and nothing else. It carries the caller's route, payload, sequence and timestamp, and its image is 21 + route + payload bytes |
| Packets.NewAck | rust-core/src/packet.rs:113-123 | a version-1 ACK (type code 1) with flags byte 0 and the given sequence, whose image is the 21-byte header |
| Packets.NewNack | rust-core/src/packet.rs:126-136 | a version-1 NACK (type code 2) with flags byte 0 and the given sequence, whose image is the 21-byte header |
| Packets.NewHeartbeat | rust-core/src/packet.rs:139-149 | a version-1 heartbeat (type code 3) with flags byte 0 and sequence 0, whose image is the 21-byte header |
| Packets.NewConnect | rust-core/src/packet.rs:152-162 | a version-1 connect (type code 4) with flags byte 0 and sequence 0, whose image is the 21-byte header |
| Packets.Serialized | rust-core/src/packet.rs:173-207 | the image is 21 + route + payload bytes and starts with the version, type code and flags byte |
| Packets.Serialize | rust-core/src/packet.rs:173-207 | appending the fields to a growing buffer always succeeds. The result is the documented wire image, with the route length truncated to 16 bits and the payload length to 32 bits |
| Packets.SerializedLayout | rust-core/src/packet.rs:179-204 | the image is 21 + route + payload bytes long, and each field sits at its fixed offset |
| Packets.Deserialized | rust-core/src/packet.rs:210-265 | fewer than 20 bytes is TooSmall. An accepted packet has version 1, the type whose code is byte 1, the flags of byte 2 and a UTF-8 route, and its 21 fixed bytes, route and payload fit in the input |
| Packets.Deserialize | rust-core/src/packet.rs:210-265 | the cursor-based reader returns the same verdict as the declarative decoder, error for error |
| Packets.RoundTrip | rust-core/src/packet.rs:173-265 | any packet of version 1 whose route is UTF-8 and whose lengths fit their fields is read back unchanged from its image, even with trailing bytes after it |
| Packets.DataPacketRoundTrip | rust-core/src/packet.rs:97-110 | a data packet sets only requires-ack (flags byte 4) and survives the round trip |
| Packets.AcceptedFields | rust-core/src/packet.rs:217-264 | an accepted input has every field at its offset, with both lengths inside the input |
| Packets.ReserializeAccepted | rust-core/src/packet.rs:210-265 | whatever is accepted is a serialized packet followed by ignored bytes, apart from flag bits 3-7, which are dropped |
| Packets.DeserializeRejects | rust-core/src/packet.rs:211-253 | each refusal, in the order the code checks them. An accepted input has at least 21 bytes |
| Packets.BareHeader | rust-core/src/packet.rs:112-162 | a flagless packet with empty route and payload is a 21-byte image that reads back unchanged |
| Packets.ControlPacketsAreBareHeaders | rust-core/src/packet.rs:112-162 | ACK, NACK, heartbeat and connect are bare headers. ACK and NACK carry the given sequence, heartbeat and connect carry 0 |
| ByteOrder.FromBigEndianOfBigEndian | rust-core/src/packet.rs:195-199 | reading back an n-byte big-endian write of a value below 256^n gives the value |
| ByteOrder.BigEndianOfFromBigEndian | rust-core/src/packet.rs:228-232 | writing back the value read from n bytes gives the same bytes |
| Utf8.AsciiIsValid | rust-core/src/packet.rs:239-240 | every ASCII route passes the UTF-8 check |
| Transport.DefaultConfig | rust-core/src/transport.rs:37-47 | the crate's ACK timeout (1000 ms) and retransmit limit (3), a 30 s heartbeat, and both transforms off |
| Transport.Sealed | rust-core/src/transport.rs:102-116 | sending changes only the payload and the flags. The compressed flag ends up set exactly when it was set or compression is enabled with a provider installed, and likewise the encrypted flag; requires-ack is kept |
| Transport.DefaultSealsNothing | rust-core/src/transport.rs:102-116 | with transforms off, a packet is sent as built, whatever providers are installed |
| Transport.OpenUndoesSeal | rust-core/src/transport.rs:102-116 | with inverse providers, the receive transforms recover the original payload. Each flag is set exactly when its transform ran, and nothing else changes |
| Transport.Opened | rust-core/src/transport.rs:150-170 | receiving fails only for a packet with a flag set, and leaves the flags as they arrived |
| Transport.SealedChecks | rust-core/src/transport.rs:102-116 | sending compresses before it encrypts. A transform that runs and fails makes sending fail with that provider's error, also when encryption fails after a successful compression, and sending succeeds whenever every transform that runs succeeds |
| Transport.OpenedChecks | rust-core/src/transport.rs:150-170 | receiving decrypts before decompressing. A set flag with no provider gives that transform's error, also when the compressed flag follows a successful decryption. A decryption failure wins, and a decompression failure, with or without a decryption before it, gives the provider's error. An unflagged packet passes unchanged, and only the payload ever changes |
| Transport.SendThenReceive | rust-core/src/transport.rs:93-180 | end to end, a data packet sealed and serialized on send is parsed and opened on receive, giving the caller's payload |
| Transport.Swept | rust-core/src/transport.rs:209-225 | a sweep only removes entries, and every entry it keeps has the same packet and destination |
| Transport.SweptEntry | rust-core/src/transport.rs:209-225 | after one sweep an exhausted entry is gone. A due entry is bumped and restamped without passing the limit; any other entry is untouched |
| Transport.ResendsBounded | rust-core/src/transport.rs:211-218 | over any number of sweeps, an entry is resent at most `max_retransmit` minus its attempts times, and never once its limit is reached |
| Transport.ResendsUntilDropped | rust-core/src/transport.rs:209-225 | an entry never acknowledged, swept by sweeps that each find it timed out, is resent exactly `max_retransmit` minus its attempts times before it is dropped |
| Transport.DefaultLimitResendsThrice | rust-core/src/transport.rs:211-218 | with the default configuration, a fresh packet never acknowledged is resent exactly three times by such sweeps |
| Transport.NackPostpones | rust-core/src/transport.rs:188-194 | after a NACK, a sweep at the same instant neither resends nor drops that entry |
| Transport.Transport.Bind | rust-core/src/transport.rs:61-73 | a new transport has sequence 0, an empty pending table and no providers |
| Transport.Transport.SetCrypto | rust-core/src/transport.rs:75-78 | installs the encryption provider and changes nothing else |
| Transport.Transport.SetCompression | rust-core/src/transport.rs:80-83 | installs the compression provider and changes nothing else |
| Transport.Transport.NextSequence | rust-core/src/transport.rs:85-90 | returns the counter and advances it modulo 2^32 |
| Transport.Transport.SendReliable | rust-core/src/transport.rs:93-134 | sends the image of the sealed data packet. The packet is recorded with no attempts only when sealing and sending succeed; a transform error or send error is returned. The sequence number is spent either way |
| Transport.Transport.Recv | rust-core/src/transport.rs:143-180 | returns the parsed and opened packet, or the first error. An ACK of its sequence is produced exactly for a data packet that requires one |
| Transport.Transport.HandleAck | rust-core/src/transport.rs:182-185 | removes that sequence from the pending table |
| Transport.Transport.HandleNack | rust-core/src/transport.rs:188-194 | for a pending sequence, counts an attempt (wrapping at 256) and restamps it; otherwise nothing changes |
| Transport.Transport.RetransmitSweep | rust-core/src/transport.rs:197-225 | the table becomes its swept image. The resend list holds exactly the due entries' packets and destinations, each once |
| Jobs.Rank | rust-core/src/jobs.rs:31-37 | priorities rank 0-3 |
| Jobs.DefaultJobConfig | rust-core/src/jobs.rs:54-64 | 3 retries, 1000 ms retry delay, 30000 ms timeout, Normal priority, not scheduled |
| Jobs.NewJob | rust-core/src/jobs.rs:83-102 | a job with a scheduled time starts Scheduled, any other starts Pending. It has no attempts, times or error |
| Jobs.ShouldExecute | rust-core/src/jobs.rs:105-111 | a job with no scheduled time may always run; a scheduled job may run exactly from its scheduled time on |
| Jobs.Cmp | rust-core/src/jobs.rs:128-134 | two jobs compare Equal exactly when priority and creation time agree. One is Greater exactly when its priority is higher, or the priority is equal and it was created later |
| Jobs.OutranksMeans | rust-core/src/jobs.rs:128-134 | a higher priority pops first, and within a priority the newer job pops first |
| Jobs.CmpIsTotalOrder | rust-core/src/jobs.rs:128-134 | the comparison is antisymmetric and transitive, and equal exactly when priority and creation time agree |
| Jobs.TopIndex | rust-core/src/jobs.rs:320 | `pop` takes an element that no other element in the heap outranks |
| Jobs.RemoveAt | rust-core/src/jobs.rs:320 | the popped element leaves the heap, and only it |
| Jobs.TopOrder | rust-core/src/jobs.rs:314-335 | the job taken has the highest priority among eligible jobs and is the newest within that priority |
| Jobs.Promote | rust-core/src/jobs.rs:281-289 | the scheduler changes only a job's status. Afterwards the job is not due; a due job becomes eligible, and any other job is untouched |
| Jobs.Promoted | rust-core/src/jobs.rs:281-300 | promoting a heap keeps its size and its job ids in order |
| Jobs.ScheduledJobTiming | rust-core/src/jobs.rs:105-111 | a job scheduled for t is neither eligible nor promoted before t, and a tick at or after t makes it eligible |
| Jobs.PromotedSettlesDue | rust-core/src/jobs.rs:281-289 | after a tick nothing is due. What was due is now eligible, and every other job is unchanged |
| Jobs.PromotedKeepsJobs | rust-core/src/jobs.rs:281-300 | a tick changes only statuses, keeps the ids, and a second tick at the same time changes nothing |
| Jobs.Started | rust-core/src/jobs.rs:341-343 | the taken job becomes Processing, gets a start time and one more attempt, and nothing else changes |
| Jobs.RunHandler | rust-core/src/jobs.rs:392-406 | a missing handler gives the "No handler for job" error, a fired timer gives Timeout, and otherwise the handler's result |
| Jobs.Settled | rust-core/src/jobs.rs:353-380 | a settled job is Completed, Scheduled or Failed, Completed exactly on success, and keeps its id, name, payload and attempts |
| Jobs.SettledCases | rust-core/src/jobs.rs:353-380 | Completed exactly on success; Scheduled exactly on failure with attempts left, with `scheduled_at` set to exactly `retry_delay` after now and not due before then; Failed otherwise. Never Retrying; the old error is kept on success; a failure sets no completion time; identity, attempts and the rest of the configuration are kept |
| Jobs.SettledIgnoresResultBytes | rust-core/src/jobs.rs:353-357 | the handler's result bytes do not affect the settled job |
| Jobs.RunsBounded | rust-core/src/jobs.rs:343-378 | a job runs at most max(1, `max_retries` − attempts) times, with one attempt per run. If it stops early it is Completed or Failed |
| Jobs.RunsWhenAlwaysFailing | rust-core/src/jobs.rs:343-378 | with a handler that always fails, it runs exactly that many times and ends Failed with the last error |
| Jobs.TwoRetriesRunTwice | rust-core/src/jobs.rs:364-377 | `max_retries` = 2 with a failing handler runs twice and ends Failed |
| Jobs.NoRetriesStillRunsOnce | rust-core/src/jobs.rs:364-377 | `max_retries` = 0 still runs once |
| Queue.JobQueue.constructor | rust-core/src/jobs.rs:157-166 | empty heap, tables and registry, and not shut down |
| Queue.JobQueue.Register | rust-core/src/jobs.rs:169-176 | the last handler registered under a name wins |
| Queue.JobQueue.AddJob | rust-core/src/jobs.rs:178-184 | the job joins the heap whatever its status, and its id is returned |
| Queue.JobQueue.Enqueue | rust-core/src/jobs.rs:187-190 | a new job built from the arguments joins the heap |
| Queue.JobQueue.Schedule | rust-core/src/jobs.rs:193-206 | a default-configured job due `delay_ms` from now joins the heap |
| Queue.JobQueue.GetJob | rust-core/src/jobs.rs:209-228 | the processing table wins over the history, which wins over the heap. A heap match has that id, and there is none exactly when no heap job has it |
| Queue.JobQueue.Shutdown | rust-core/src/jobs.rs:409-412 | raises the flag and changes nothing else |
| Queue.JobQueue.ClearCompleted | rust-core/src/jobs.rs:415-417 | empties the whole history |
| Queue.JobQueue.SchedulerTick | rust-core/src/jobs.rs:266-302 | unless shut down, the heap's multiset becomes its promoted image |
| Queue.SelectNext | rust-core/src/jobs.rs:313-335 | the job found is eligible and no eligible job outranks it, and the others stay. None means nothing in the heap was eligible |
| Queue.JobQueue.StartNext | rust-core/src/jobs.rs:305-345 | the best eligible job leaves the heap and enters the processing table, started; with none, or when shut down, nothing changes. Both tables stay keyed by their jobs' ids |
| Queue.JobQueue.Finish | rust-core/src/jobs.rs:348-383 | the job leaves the processing table and its settled form enters the history. It rejoins the heap exactly when a retry was scheduled, and both tables stay keyed by their jobs' ids |
| Queue.JobQueue.WorkerTurn | rust-core/src/jobs.rs:305-388 | the job run is the best eligible one in the heap, and it settles to the result of starting it and running its handler. It is out of the processing table, its settled form is the history's entry, and the heap loses it and regains the settled job exactly when a retry was scheduled. With no eligible job, or when shut down, nothing changes. Both tables stay keyed by their jobs' ids |

## Left out

- Sockets, async tasks, locks and timers: the 100 ms ticks of the scheduler and the retransmission task, the worker loops, and `start`. Each tick or turn is modelled as one step; concurrency between workers is not modelled. `JobQueue.workerCount` is kept only as a copy of `worker_count`, which only `start` reads.
- Transport.Transport.RetransmitSweep: sending the resend list is returned rather than performed, and the order of that list follows the map's iteration order, which is unspecified.
- `Transport::send`, `local_addr` and the heartbeat task: `send` is `Serialize` followed by the socket, and the heartbeat task sends `NewHeartbeat` on a timer.
- The 65536-byte receive buffer of `recv`: the model takes the datagram as given.
- AES-256-GCM, ChaCha20-Poly1305, zstd and LZ4 (`rust-core/src/crypto.rs`, `rust-core/src/compression.rs`): only providers whose inverse undoes them are assumed, in the lemmas that need it. A provider is a deterministic function of the payload, whereas the source's `encrypt` draws a fresh random nonce on every call; no contract depends on the ciphertext being the same twice.
- Jobs.RunHandler: the timeout is a parameter. The handler is synchronous, so its future is ready on the first poll and the timer cannot win in practice.
- Job errors: the error is kept as the error value, not its display string. Error display strings and the `InvalidPacket` message texts are represented by their kinds.
- Each scheduler tick, worker turn and `schedule` call happens at a single instant. The source
  reads the clock for every job it pops (`should_execute`, rust-core/src/jobs.rs:107, called at
  282 and 321) and again for `started_at` (rust-core/src/jobs.rs:342). `schedule` reads it at
  rust-core/src/jobs.rs:199 and again in `Job::new` (rust-core/src/jobs.rs:84). So the model has
  `created_at + delay_ms == scheduled_at`, where the source only guarantees
  `created_at >= scheduled_at - delay_ms`. Settling likewise uses one `finishedAt` for both the
  completion time (rust-core/src/jobs.rs:356) and the retry time (rust-core/src/jobs.rs:370).
- The `u64` millisecond clocks and `u32` attempt counters of jobs are unbounded naturals; overflow of `current_timestamp() + delay` is not modelled.
- Transport.Transport.HandleNack: wraps the `u8` attempt counter at 256 as a release build does; a debug build would panic instead.
- `get_pending_count`, `get_processing_count`, `get_completed_count`: these only read the lengths of the modelled fields.
- The server, client, middleware, protocol and language bindings are not part of this model.
