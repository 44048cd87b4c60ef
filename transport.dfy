/** The reliability bookkeeping of the UDP transport (rust-core/src/transport.rs): the
    wrapping sequence counter, the table of packets awaiting an ACK, the retransmission
    sweep, and the payload transforms applied on send and on receive.

    The socket is not modelled: what `send_reliable` hands to it is returned, whether the
    send succeeded is a parameter, and a received datagram is a parameter. Encryption and
    compression are abstract, possibly failing, functions held by provider values. Both
    clocks are parameters: `now` (milliseconds of `Instant`) and `timestamp` (the wall-clock
    milliseconds written into packets). */
module Transport {
  import opened Constants
  import opened Errors
  import opened ByteOrder
  import opened Utf8
  import opened Packets

  datatype TransportConfig = TransportConfig(
    ackTimeoutMs: nat,
    maxRetransmit: byte,
    heartbeatIntervalMs: nat,
    enableEncryption: bool,
    enableCompression: bool)

  /** `TransportConfig::default`: the crate's default ACK timeout and retransmission limit,
      a 30 s heartbeat, encryption and compression off. */
  function DefaultConfig(): (c: TransportConfig)
    ensures c.ackTimeoutMs == DEFAULT_ACK_TIMEOUT_MS && c.maxRetransmit == MAX_RETRANSMIT_ATTEMPTS
    ensures c.heartbeatIntervalMs == 30 * 1000
    ensures !c.enableEncryption && !c.enableCompression
  {
    TransportConfig(DEFAULT_ACK_TIMEOUT_MS, MAX_RETRANSMIT_ATTEMPTS, 30 * 1000, false, false)
  }

  /** An encryption provider (AES-256-GCM or ChaCha20-Poly1305 in the source), seen only
      through what it does to a payload. */
  datatype CryptoProvider = CryptoProvider(
    encrypt: seq<byte> -> Result<seq<byte>>,
    decrypt: seq<byte> -> Result<seq<byte>>)

  /** A compression provider (zstd or LZ4 in the source), seen the same way. */
  datatype CompressionProvider = CompressionProvider(
    compress: seq<byte> -> Result<seq<byte>>,
    decompress: seq<byte> -> Result<seq<byte>>)

  datatype SocketAddr = SocketAddr(ip: seq<byte>, port: u16)

  /** A sent packet waiting for its ACK. */
  datatype PendingPacket = PendingPacket(packet: Packet, dest: SocketAddr, sentAt: nat, attempts: byte)

  /** The send-side transforms: compression first, then encryption. Each runs only when the
      configuration enables it and a provider is installed, and each sets its flag. */
  function Sealed(config: TransportConfig, compression: Option<CompressionProvider>,
                  crypto: Option<CryptoProvider>, p: Packet): (r: Result<Packet>)
    ensures r.Ok? ==> r.value == p.(payload := r.value.payload, flags := r.value.flags)
    ensures r.Ok? ==>
      && r.value.flags.compressed == (p.flags.compressed || (config.enableCompression && compression.Some?))
      && r.value.flags.encrypted == (p.flags.encrypted || (config.enableEncryption && crypto.Some?))
      && r.value.flags.requiresAck == p.flags.requiresAck
  {
    var compressed :=
      if config.enableCompression && compression.Some? then
        match compression.value.compress(p.payload)
        case Err(e) => Err(e)
        case Ok(c) => Ok(p.(payload := c, flags := p.flags.(compressed := true)))
      else Ok(p);
    match compressed
    case Err(e) => Err(e)
    case Ok(q) =>
      if config.enableEncryption && crypto.Some? then
        match crypto.value.encrypt(q.payload)
        case Err(e) => Err(e)
        case Ok(c) => Ok(q.(payload := c, flags := q.flags.(encrypted := true)))
      else Ok(q)
  }

  /** The receive-side transforms: decryption first, then decompression, each driven by the
      packet's flag; a flag with no provider to undo it is an error. The flags are left as
      they arrived. */
  function Opened(compression: Option<CompressionProvider>, crypto: Option<CryptoProvider>,
                  p: Packet): (r: Result<Packet>)
    ensures r.Err? ==> p.flags.encrypted || p.flags.compressed
    ensures r.Ok? ==> r.value.flags == p.flags
  {
    var decrypted :=
      if !p.flags.encrypted then Ok(p)
      else if crypto.None? then Err(Encryption("Received encrypted packet but no crypto provider"))
      else match crypto.value.decrypt(p.payload)
        case Err(e) => Err(e)
        case Ok(d) => Ok(p.(payload := d));
    match decrypted
    case Err(e) => Err(e)
    case Ok(q) =>
      if !q.flags.compressed then Ok(q)
      else if compression.None? then Err(Compression("Received compressed packet but no compression provider"))
      else match compression.value.decompress(q.payload)
        case Err(e) => Err(e)
        case Ok(d) => Ok(q.(payload := d))
  }

  /** What `recv` makes of a datagram: parse it, then undo the transforms. */
  function Received(compression: Option<CompressionProvider>, crypto: Option<CryptoProvider>,
                    datagram: seq<byte>): Result<Packet>
  {
    match Deserialized(datagram)
    case Err(e) => Err(e)
    case Ok(p) => Opened(compression, crypto, p)
  }

  /** g undoes every successful application of f. */
  ghost predicate Undoes(g: seq<byte> -> Result<seq<byte>>, f: seq<byte> -> Result<seq<byte>>)
  {
    forall x :: f(x).Ok? ==> g(f(x).value) == Ok(x)
  }

  /** Milliseconds since `since`; `Instant::duration_since` saturates at zero. */
  function Elapsed(now: nat, since: nat): nat
  {
    if now >= since then now - since else 0
  }

  predicate TimedOut(e: PendingPacket, config: TransportConfig, now: nat)
  {
    Elapsed(now, e.sentAt) > config.ackTimeoutMs
  }

  /** Timed out with retransmissions left: the sweep resends it. */
  predicate DueForResend(e: PendingPacket, config: TransportConfig, now: nat)
  {
    TimedOut(e, config, now) && e.attempts < config.maxRetransmit
  }

  /** Timed out with no retransmission left: the sweep drops it. */
  predicate Exhausted(e: PendingPacket, config: TransportConfig, now: nat)
  {
    TimedOut(e, config, now) && e.attempts >= config.maxRetransmit
  }

  /** An entry after the sweep has visited it (exhausted entries are removed afterwards). */
  function Visited(e: PendingPacket, config: TransportConfig, now: nat): PendingPacket
  {
    if DueForResend(e, config, now) then e.(attempts := e.attempts + 1, sentAt := now) else e
  }

  /** The table after one sweep at `now`. */
  function Swept(m: map<u32, PendingPacket>, config: TransportConfig, now: nat): (r: map<u32, PendingPacket>)
    ensures r.Keys <= m.Keys
    ensures forall k :: k in r ==> r[k].packet == m[k].packet && r[k].dest == m[k].dest
  {
    map k | k in m && !Exhausted(m[k], config, now) :: Visited(m[k], config, now)
  }

  /** Removing the exhausted entries from the visited table gives the swept table. */
  lemma SweptAfterRemoval(m0: map<u32, PendingPacket>, m1: map<u32, PendingPacket>,
                          m2: map<u32, PendingPacket>, config: TransportConfig, now: nat)
    requires m1.Keys == m0.Keys
    requires forall k :: k in m0 ==> m1[k] == Visited(m0[k], config, now)
    requires forall k :: k in m2 <==> k in m0 && !Exhausted(m0[k], config, now)
    requires forall k :: k in m2 ==> m2[k] == m1[k]
    ensures m2 == Swept(m0, config, now)
  {
  }

  /** The table part-way through a sweep: the keys in `unvisited` are still untouched. */
  function Progress(m0: map<u32, PendingPacket>, unvisited: set<u32>, config: TransportConfig, now: nat): (m: map<u32, PendingPacket>)
    ensures m.Keys == m0.Keys
  {
    map k | k in m0 :: if k in unvisited then m0[k] else Visited(m0[k], config, now)
  }

  lemma ProgressStart(m0: map<u32, PendingPacket>, config: TransportConfig, now: nat)
    ensures Progress(m0, m0.Keys, config, now) == m0
  {
  }

  /** Visiting one more key updates exactly that key. */
  lemma ProgressStep(m0: map<u32, PendingPacket>, unvisited: set<u32>, k: u32, config: TransportConfig, now: nat)
    requires k in unvisited && k in m0
    ensures Progress(m0, unvisited - {k}, config, now) == Progress(m0, unvisited, config, now)[k := Visited(m0[k], config, now)]
  {
  }

  /** `toRemove` lists exactly the visited exhausted keys. */
  ghost predicate Collected(m0: map<u32, PendingPacket>, unvisited: set<u32>, toRemove: seq<u32>,
                            config: TransportConfig, now: nat)
  {
    forall k :: k in toRemove <==> k in m0 && k !in unvisited && Exhausted(m0[k], config, now)
  }

  /** `order` lists each visited due key once, and `resend` holds their packets in that order. */
  ghost predicate Queued(m0: map<u32, PendingPacket>, unvisited: set<u32>, order: seq<u32>,
                         resend: seq<(Packet, SocketAddr)>, config: TransportConfig, now: nat)
  {
    && |order| == |resend|
    && (forall i, j :: 0 <= i < j < |order| ==> order[i] != order[j])
    && (forall k :: k in order <==> k in m0 && k !in unvisited && DueForResend(m0[k], config, now))
    && (forall i :: 0 <= i < |order| ==>
          order[i] in m0 && resend[i] == (m0[order[i]].packet, m0[order[i]].dest))
  }

  lemma CollectStep(m0: map<u32, PendingPacket>, unvisited: set<u32>, k: u32, toRemove: seq<u32>,
                    config: TransportConfig, now: nat)
    requires k in unvisited && k in m0 && Collected(m0, unvisited, toRemove, config, now)
    ensures Exhausted(m0[k], config, now) ==> Collected(m0, unvisited - {k}, toRemove + [k], config, now)
    ensures !Exhausted(m0[k], config, now) ==> Collected(m0, unvisited - {k}, toRemove, config, now)
  {
  }

  lemma QueueStep(m0: map<u32, PendingPacket>, unvisited: set<u32>, k: u32, order: seq<u32>,
                  resend: seq<(Packet, SocketAddr)>, config: TransportConfig, now: nat)
    requires k in unvisited && k in m0 && Queued(m0, unvisited, order, resend, config, now)
    ensures DueForResend(m0[k], config, now) ==>
      Queued(m0, unvisited - {k}, order + [k], resend + [(m0[k].packet, m0[k].dest)], config, now)
    ensures !DueForResend(m0[k], config, now) ==> Queued(m0, unvisited - {k}, order, resend, config, now)
  {
  }

  /** The sequences that one sweep at `now` resends. */
  function ResendKeys(m: map<u32, PendingPacket>, config: TransportConfig, now: nat): set<u32>
  {
    set k | k in m && DueForResend(m[k], config, now)
  }

  /** With both transforms switched off, as in the default configuration, a packet goes out
      as built whatever providers are installed. */
  lemma DefaultSealsNothing(compression: Option<CompressionProvider>, crypto: Option<CryptoProvider>, p: Packet)
    ensures Sealed(DefaultConfig(), compression, crypto, p) == Ok(p)
  {
  }

  /** When each installed provider's inverse undoes it, opening a sealed packet recovers the
      original payload; sealing changes only the payload and the flags of the transforms
      that ran. */
  lemma OpenUndoesSeal(config: TransportConfig, compression: Option<CompressionProvider>,
                       crypto: Option<CryptoProvider>, p: Packet)
    requires !p.flags.compressed && !p.flags.encrypted
    requires compression.Some? ==> Undoes(compression.value.decompress, compression.value.compress)
    requires crypto.Some? ==> Undoes(crypto.value.decrypt, crypto.value.encrypt)
    requires Sealed(config, compression, crypto, p).Ok?
    ensures var s := Sealed(config, compression, crypto, p).value;
      && Opened(compression, crypto, s) == Ok(s.(payload := p.payload))
      && s.flags.compressed == (config.enableCompression && compression.Some?)
      && s.flags.encrypted == (config.enableEncryption && crypto.Some?)
      && s.(payload := p.payload, flags := p.flags) == p
  {
    var q := if config.enableCompression && compression.Some? then
      p.(payload := compression.value.compress(p.payload).value, flags := p.flags.(compressed := true))
      else p;
    if config.enableCompression && compression.Some? {
      assert compression.value.compress(p.payload).Ok?;
      assert compression.value.decompress(q.payload) == Ok(p.payload);
    }
    if config.enableEncryption && crypto.Some? {
      assert crypto.value.encrypt(q.payload).Ok?;
      assert crypto.value.decrypt(crypto.value.encrypt(q.payload).value) == Ok(q.payload);
    }
  }

  /** Sending compresses before it encrypts: a transform that runs and fails makes sending
      fail with that transform's error, and sending succeeds exactly when every transform
      that runs succeeds. */
  lemma SealedChecks(config: TransportConfig, compression: Option<CompressionProvider>,
                     crypto: Option<CryptoProvider>, p: Packet)
    ensures var compresses := config.enableCompression && compression.Some?;
      var encrypts := config.enableEncryption && crypto.Some?;
      && (compresses && compression.value.compress(p.payload).Err? ==>
            Sealed(config, compression, crypto, p) == Err(compression.value.compress(p.payload).error))
      && (!compresses && encrypts && crypto.value.encrypt(p.payload).Err? ==>
            Sealed(config, compression, crypto, p) == Err(crypto.value.encrypt(p.payload).error))
      && (compresses && compression.value.compress(p.payload).Ok? && encrypts &&
          crypto.value.encrypt(compression.value.compress(p.payload).value).Err? ==>
            Sealed(config, compression, crypto, p) ==
              Err(crypto.value.encrypt(compression.value.compress(p.payload).value).error))
      && ((!compresses || compression.value.compress(p.payload).Ok?) &&
          (!encrypts || crypto.value.encrypt(
             if compresses then compression.value.compress(p.payload).value else p.payload).Ok?) ==>
            Sealed(config, compression, crypto, p).Ok?)
  {
  }

  /** Receiving decrypts before it decompresses: a set flag with no provider to undo it is an
      error of that transform's kind, and a decryption failure is reported even when the
      compression provider is missing too. An unflagged packet passes through unchanged. */
  lemma OpenedChecks(compression: Option<CompressionProvider>, crypto: Option<CryptoProvider>, p: Packet)
    ensures p.flags.encrypted && crypto.None? ==>
      Opened(compression, crypto, p) == Err(Encryption("Received encrypted packet but no crypto provider"))
    ensures p.flags.encrypted && crypto.Some? && crypto.value.decrypt(p.payload).Err? ==>
      Opened(compression, crypto, p) == Err(crypto.value.decrypt(p.payload).error)
    ensures !p.flags.encrypted && p.flags.compressed && compression.None? ==>
      Opened(compression, crypto, p) == Err(Compression("Received compressed packet but no compression provider"))
    ensures (p.flags.encrypted && crypto.Some? && crypto.value.decrypt(p.payload).Ok? &&
             p.flags.compressed && compression.None?) ==>
      Opened(compression, crypto, p) == Err(Compression("Received compressed packet but no compression provider"))
    ensures (!p.flags.encrypted && p.flags.compressed && compression.Some? &&
             compression.value.decompress(p.payload).Err?) ==>
      Opened(compression, crypto, p) == Err(compression.value.decompress(p.payload).error)
    ensures (p.flags.encrypted && crypto.Some? && crypto.value.decrypt(p.payload).Ok? &&
             p.flags.compressed && compression.Some? &&
             compression.value.decompress(crypto.value.decrypt(p.payload).value).Err?) ==>
      Opened(compression, crypto, p) == Err(compression.value.decompress(crypto.value.decrypt(p.payload).value).error)
    ensures !p.flags.encrypted && !p.flags.compressed ==> Opened(compression, crypto, p) == Ok(p)
    ensures Opened(compression, crypto, p).Ok? ==>
      Opened(compression, crypto, p).value == p.(payload := Opened(compression, crypto, p).value.payload)
  {
  }

  /** End to end: a data packet sealed and serialized by `send_reliable` is parsed and opened
      by `recv` into the same packet with the caller's payload, provided the route is UTF-8,
      the lengths fit their fields and the peer's providers invert the sender's. */
  lemma SendThenReceive(config: TransportConfig, compression: Option<CompressionProvider>,
                        crypto: Option<CryptoProvider>, route: seq<byte>, payload: seq<byte>,
                        sequence: u32, timestamp: u64)
    requires compression.Some? ==> Undoes(compression.value.decompress, compression.value.compress)
    requires crypto.Some? ==> Undoes(crypto.value.decrypt, crypto.value.encrypt)
    requires |route| < 0x1_0000 && ValidUtf8(route)
    requires Sealed(config, compression, crypto, NewData(route, payload, sequence, timestamp)).Ok?
    requires |Sealed(config, compression, crypto, NewData(route, payload, sequence, timestamp)).value.payload| < 0x1_0000_0000
    ensures var s := Sealed(config, compression, crypto, NewData(route, payload, sequence, timestamp)).value;
      Received(compression, crypto, Serialized(s)) == Ok(s.(payload := payload))
  {
    var p := NewData(route, payload, sequence, timestamp);
    var s := Sealed(config, compression, crypto, p).value;
    OpenUndoesSeal(config, compression, crypto, p);
    RoundTrip(s, []);
    assert Serialized(s) + [] == Serialized(s);
  }

  /** What one sweep does to one entry: an exhausted entry is dropped, a due one is bumped
      and restamped without passing the limit, any other is left alone. */
  lemma SweptEntry(m: map<u32, PendingPacket>, config: TransportConfig, now: nat, k: u32)
    requires k in m
    ensures k in Swept(m, config, now) <==> !Exhausted(m[k], config, now)
    ensures !TimedOut(m[k], config, now) ==> Swept(m, config, now)[k] == m[k]
    ensures DueForResend(m[k], config, now) ==>
      && Swept(m, config, now)[k] == m[k].(attempts := m[k].attempts + 1, sentAt := now)
      && Swept(m, config, now)[k].attempts <= config.maxRetransmit
  {
  }

  /** How many times the sweeps at the instants `nows` resend entry `e` before dropping it,
      with no ACK or NACK in between. */
  function Resends(e: PendingPacket, config: TransportConfig, nows: seq<nat>): nat
    decreases |nows|
  {
    if nows == [] || Exhausted(e, config, nows[0]) then 0
    else if DueForResend(e, config, nows[0]) then 1 + Resends(Visited(e, config, nows[0]), config, nows[1..])
    else Resends(e, config, nows[1..])
  }

  /** However many sweeps run, an entry is resent at most as many times as it has
      retransmissions left: `max_retransmit` minus its attempts so far. */
  lemma {:induction false} ResendsBounded(e: PendingPacket, config: TransportConfig, nows: seq<nat>)
    ensures e.attempts < config.maxRetransmit ==> Resends(e, config, nows) <= config.maxRetransmit - e.attempts
    ensures e.attempts >= config.maxRetransmit ==> Resends(e, config, nows) == 0
    decreases |nows|
  {
    if nows == [] || Exhausted(e, config, nows[0]) {
    } else if DueForResend(e, config, nows[0]) {
      ResendsBounded(Visited(e, config, nows[0]), config, nows[1..]);
    } else {
      ResendsBounded(e, config, nows[1..]);
    }
  }

  /** Sweeps that each find the entry timed out: the first is past the timeout of the last
      send, and each later one is more than the timeout after the one before. */
  predicate SpacedSweeps(e: PendingPacket, config: TransportConfig, nows: seq<nat>)
  {
    && nows != []
    && TimedOut(e, config, nows[0])
    && forall i :: 0 < i < |nows| ==> nows[i] > nows[i - 1] + config.ackTimeoutMs
  }

  /** An entry never acknowledged is resent exactly as many times as it has retransmissions
      left, provided each sweep finds it timed out and there are enough sweeps to drop it. */
  lemma {:induction false} ResendsUntilDropped(e: PendingPacket, config: TransportConfig, nows: seq<nat>)
    requires e.attempts <= config.maxRetransmit
    requires |nows| > config.maxRetransmit - e.attempts
    requires SpacedSweeps(e, config, nows)
    ensures Resends(e, config, nows) == config.maxRetransmit - e.attempts
    decreases |nows|
  {
    if e.attempts < config.maxRetransmit {
      var v := Visited(e, config, nows[0]);
      var rest := nows[1..];
      assert rest[0] == nows[1];
      forall i | 0 < i < |rest|
        ensures rest[i] > rest[i - 1] + config.ackTimeoutMs
      {
        assert rest[i] == nows[i + 1] && rest[i - 1] == nows[i];
      }
      ResendsUntilDropped(v, config, rest);
    }
  }

  /** With the default configuration, a packet never acknowledged is resent exactly three
      times by sweeps that each find it timed out. */
  lemma DefaultLimitResendsThrice(e: PendingPacket, nows: seq<nat>)
    requires e.attempts == 0
    requires |nows| > 3 && SpacedSweeps(e, DefaultConfig(), nows)
    ensures Resends(e, DefaultConfig(), nows) == 3
  {
    ResendsUntilDropped(e, DefaultConfig(), nows);
  }

  /** A NACK restamps its entry, so a sweep at the same instant neither resends nor drops it. */
  lemma NackPostpones(m: map<u32, PendingPacket>, config: TransportConfig, now: nat, k: u32)
    requires k in m
    ensures var n := m[k := m[k].(attempts := (m[k].attempts + 1) % 0x100, sentAt := now)];
      k in Swept(n, config, now) && Swept(n, config, now)[k] == n[k] && k !in ResendKeys(n, config, now)
  {
  }

  class Transport {
    const config: TransportConfig
    var sequence: u32
    var pendingAcks: map<u32, PendingPacket>
    var crypto: Option<CryptoProvider>
    var compression: Option<CompressionProvider>

    /** `Transport::bind`, without the socket. */
    constructor Bind(config: TransportConfig)
      ensures this.config == config && sequence == 0 && pendingAcks == map[]
      ensures crypto.None? && compression.None?
    {
      this.config := config;
      sequence := 0;
      pendingAcks := map[];
      crypto := None;
      compression := None;
    }

    method SetCrypto(provider: CryptoProvider)
      modifies this
      ensures crypto == Some(provider)
      ensures sequence == old(sequence) && pendingAcks == old(pendingAcks) && compression == old(compression)
    {
      crypto := Some(provider);
    }

    method SetCompression(provider: CompressionProvider)
      modifies this
      ensures compression == Some(provider)
      ensures sequence == old(sequence) && pendingAcks == old(pendingAcks) && crypto == old(crypto)
    {
      compression := Some(provider);
    }

    /** `next_sequence`: returns the counter and advances it with `wrapping_add(1)`. */
    method NextSequence() returns (s: u32)
      modifies this
      ensures s == old(sequence)
      ensures sequence == (old(sequence) + 1) % 0x1_0000_0000
      ensures pendingAcks == old(pendingAcks) && crypto == old(crypto) && compression == old(compression)
    {
      s := sequence;
      sequence := (sequence + 1) % 0x1_0000_0000;
    }

    /** `send_reliable`: takes a sequence number, builds a data packet, compresses then
        encrypts its payload, serializes it for the socket and records it under its sequence
        with no attempts yet. `delivered` is whether the socket accepted the datagram; `wire`
        is the datagram. A failing transform or send leaves the table alone, but the
        sequence number is spent either way. */
    method SendReliable(route: seq<byte>, payload: seq<byte>, dest: SocketAddr,
                        timestamp: u64, now: nat, delivered: bool)
      returns (r: Result<u32>, wire: seq<byte>)
      modifies this
      ensures sequence == (old(sequence) + 1) % 0x1_0000_0000
      ensures crypto == old(crypto) && compression == old(compression)
      ensures var sealed := Sealed(config, compression, crypto, NewData(route, payload, old(sequence), timestamp));
        && (sealed.Ok? ==> wire == Serialized(sealed.value))
        && (r.Ok? <==> sealed.Ok? && delivered)
        && (r.Ok? ==>
              r.value == old(sequence)
              && pendingAcks == old(pendingAcks)[old(sequence) := PendingPacket(sealed.value, dest, now, 0)])
        && (r.Err? ==> pendingAcks == old(pendingAcks))
        && (sealed.Err? ==> r == Err(sealed.error))
        && (sealed.Ok? && !delivered ==> r == Err(Io))
    {
      wire := [];
      var s := NextSequence();
      var packet := NewData(route, payload, s, timestamp);
      if config.enableCompression && compression.Some? {
        var compressed := compression.value.compress(packet.payload);
        if compressed.Err? {
          return Err(compressed.error), wire;
        }
        packet := packet.(payload := compressed.value, flags := packet.flags.(compressed := true));
      }
      if config.enableEncryption && crypto.Some? {
        var encrypted := crypto.value.encrypt(packet.payload);
        if encrypted.Err? {
          return Err(encrypted.error), wire;
        }
        packet := packet.(payload := encrypted.value, flags := packet.flags.(encrypted := true));
      }
      var data := Serialize(packet);
      wire := data.value;
      if !delivered {
        return Err(Io), wire;
      }
      pendingAcks := pendingAcks[s := PendingPacket(packet, dest, now, 0)];
      r := Ok(s);
    }

    /** `recv`, after the datagram has arrived: parse it, decrypt then decompress as its
        flags say, and answer a data packet that asks for it with an ACK of its sequence
        (returned in `ack`; the send is not modelled). It changes nothing in the transport. */
    method Recv(datagram: seq<byte>, timestamp: u64) returns (r: Result<Packet>, ack: Option<Packet>)
      ensures r == Received(compression, crypto, datagram)
      ensures ack.Some? <==> r.Ok? && r.value.packetType == Data && r.value.flags.requiresAck
      ensures ack.Some? ==> ack.value == NewAck(r.value.sequence, timestamp)
    {
      ack := None;
      var parsed := Deserialize(datagram);
      if parsed.Err? {
        return Err(parsed.error), ack;
      }
      var packet := parsed.value;
      if packet.flags.encrypted {
        if crypto.Some? {
          var decrypted := crypto.value.decrypt(packet.payload);
          if decrypted.Err? {
            return Err(decrypted.error), ack;
          }
          packet := packet.(payload := decrypted.value);
        } else {
          return Err(Encryption("Received encrypted packet but no crypto provider")), ack;
        }
      }
      if packet.flags.compressed {
        if compression.Some? {
          var decompressed := compression.value.decompress(packet.payload);
          if decompressed.Err? {
            return Err(decompressed.error), ack;
          }
          packet := packet.(payload := decompressed.value);
        } else {
          return Err(Compression("Received compressed packet but no compression provider")), ack;
        }
      }
      if packet.flags.requiresAck && packet.packetType == Data {
        ack := Some(NewAck(packet.sequence, timestamp));
      }
      r := Ok(packet);
    }

    /** `handle_ack`: forgets the acknowledged sequence and nothing else. */
    method HandleAck(s: u32)
      modifies this
      ensures pendingAcks == old(pendingAcks) - {s}
      ensures sequence == old(sequence) && crypto == old(crypto) && compression == old(compression)
    {
      pendingAcks := pendingAcks - {s};
    }

    /** `handle_nack`: counts an attempt and restarts the entry's timer; an unknown sequence
        changes nothing. The u8 counter wraps as `+=` does in a release build. */
    method HandleNack(s: u32, now: nat)
      modifies this
      ensures s in old(pendingAcks) ==>
        pendingAcks == old(pendingAcks)[s := old(pendingAcks)[s].(
          attempts := (old(pendingAcks)[s].attempts + 1) % 0x100, sentAt := now)]
      ensures s !in old(pendingAcks) ==> pendingAcks == old(pendingAcks)
      ensures sequence == old(sequence) && crypto == old(crypto) && compression == old(compression)
    {
      if s in pendingAcks {
        var e := pendingAcks[s];
        pendingAcks := pendingAcks[s := e.(attempts := (e.attempts + 1) % 0x100, sentAt := now)];
      }
    }

    /** One tick of the retransmission task: visits every entry once, bumps and restamps
        those that are due and queues them for resending, collects the exhausted ones and
        removes them afterwards. `resend[i]` is the packet and destination of the entry
        `order[i]`; the order is the map's, which the source leaves unspecified. */
    method RetransmitSweep(now: nat) returns (resend: seq<(Packet, SocketAddr)>, ghost order: seq<u32>)
      modifies this
      ensures pendingAcks == Swept(old(pendingAcks), config, now)
      ensures |order| == |resend|
      ensures forall i, j :: 0 <= i < j < |order| ==> order[i] != order[j]
      ensures forall k :: k in order <==> k in ResendKeys(old(pendingAcks), config, now)
      ensures forall i :: 0 <= i < |order| ==>
        order[i] in old(pendingAcks) && resend[i] == (old(pendingAcks)[order[i]].packet, old(pendingAcks)[order[i]].dest)
      ensures sequence == old(sequence) && crypto == old(crypto) && compression == old(compression)
    {
      // The source works through the lock guard; the model through a local copy.
      var pending := pendingAcks;
      ghost var m0 := pending;
      var unvisited := pending.Keys;
      var toRemove: seq<u32> := [];
      resend, order := [], [];
      ProgressStart(m0, config, now);
      while unvisited != {}
        invariant unvisited <= m0.Keys
        invariant pending == Progress(m0, unvisited, config, now)
        invariant Collected(m0, unvisited, toRemove, config, now)
        invariant Queued(m0, unvisited, order, resend, config, now)
        modifies {}
        decreases unvisited
      {
        var k :| k in unvisited;
        var e := pending[k];
        assert e == m0[k];
        ProgressStep(m0, unvisited, k, config, now);
        CollectStep(m0, unvisited, k, toRemove, config, now);
        QueueStep(m0, unvisited, k, order, resend, config, now);
        if Elapsed(now, e.sentAt) > config.ackTimeoutMs {
          if e.attempts >= config.maxRetransmit {
            toRemove := toRemove + [k];
          } else {
            pending := pending[k := e.(attempts := e.attempts + 1, sentAt := now)];
            resend := resend + [(e.packet, e.dest)];
            order := order + [k];
          }
        }
        unvisited := unvisited - {k};
      }
      ghost var m1 := pending;
      for i := 0 to |toRemove|
        invariant forall k :: k in pending <==> k in m1 && k !in toRemove[..i]
        invariant forall k :: k in pending ==> pending[k] == m1[k]
        modifies {}
      {
        pending := pending - {toRemove[i]};
      }
      assert toRemove[..|toRemove|] == toRemove;
      pendingAcks := pending;
      SweptAfterRemoval(m0, m1, pendingAcks, config, now);
    }
  }
}
