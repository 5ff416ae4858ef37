/** The online protocol as an interleaved step system: the server's audio source pulls samples out of the client,
    and sends it results in between.  Each stream of bytes may be cut into pieces anywhere. */
module AudioPulls {
  import opened Basics
  import opened Packets
  import opened AudioSources

  datatype Server =
    | Idle                                // between two reads
    | Reading(n: nat, got: seq<Byte>)     // in `Read`: the request is sent, `got` has been received of the answer
    | WrongPacket                         // exited, since the answer was of another type
    | PeerClosed                          // exited, since the stream ended

  datatype Client =
    | Running(got: seq<Byte>)   // in the loop; `got` has been received of the next packet
    | Done                      // the last sample is sent
    | Crashed                   // exited, since it was asked for a negative number of samples

  /** A completed read: the number of samples asked for and those returned. */
  datatype Read = Read(n: nat, samples: seq<Word>)

  /** Both ends, the client's position, the bytes in flight and the reads completed.  `unread` lists the messages
      that the client has not read to their end; no step depends on it. */
  datatype State = State(server: Server, client: Client, pos: nat, toServer: seq<Byte>, toClient: seq<Byte>,
                         log: seq<Read>, unread: seq<Message>)

  datatype Event =
    | StartRead(n: nat)
    | SendOutput(endUtterance: bool, text: seq<Byte>)
    | ServerRecv(k: nat)
    | ClientRecv(k: nat)
    | EndOfStream

  /** The wave fits a packet. */
  predicate Sendable(wave: seq<Word>) {
    Fits(Wave(wave))
  }

  function Init(wave: seq<Word>): (s: State) {
    State(Idle, if wave == [] then Done else Running([]), 0, [], [], [], [])
  }

  function Answer(wave: seq<Word>, pos: nat, n: nat): (m: Message)
    requires Sendable(wave) && pos <= |wave|
    ensures Fits(m) && m.Wave?
  {
    Wave(wave[pos..pos + Next(|wave|, pos, n)])
  }

  // ----- What each end does with the bytes it receives -----

  /** How many bytes the client takes before it acts, as far as it can tell. */
  function ClientNeeds(got: seq<Byte>): (n: nat) {
    if |got| < HEADER_SIZE then HEADER_SIZE
    else if TypeIn(got) == DATA_WAVE_REQUEST then HEADER_SIZE + REQUEST_SIZE
    else if TypeIn(got) == DECODE_OUTPUT then HEADER_SIZE + (if 1 <= LengthIn(got) <= MAX_INT then LengthIn(got) else 1)
    else HEADER_SIZE
  }

  function ServerNeeds(got: seq<Byte>): (n: nat) {
    if |got| < HEADER_SIZE then HEADER_SIZE
    else HEADER_SIZE + (if LengthIn(got) <= MAX_INT then LengthIn(got) else 0)
  }

  function ClientTakes(wave: seq<Word>, s: State, got: seq<Byte>): (s': State)
    requires Sendable(wave) && s.pos <= |wave|
  {
    var unread := if s.unread == [] then [] else s.unread[1..];
    if |got| < HEADER_SIZE || |got| < ClientNeeds(got) then s.(client := Running(got))
    else if TypeIn(got) != DATA_WAVE_REQUEST then s.(client := Running([]), unread := unread)
    else if DecodeWord(got[8..12]) > MAX_INT then s.(client := Crashed, unread := unread)
    else
      var n := DecodeWord(got[8..12]);
      s.(client := if s.pos + n < |wave| then Running([]) else Done,
         pos := s.pos + n,
         toServer := s.toServer + Encode(Answer(wave, s.pos, n)),
         unread := unread)
  }

  function ServerTakes(s: State, got: seq<Byte>): (s': State)
    requires s.server.Reading?
  {
    if |got| < HEADER_SIZE then s.(server := Reading(s.server.n, got))
    else if TypeIn(got) != DATA_WAVE then s.(server := WrongPacket)
    else if |got| < ServerNeeds(got) then s.(server := Reading(s.server.n, got))
    else s.(server := Idle, log := s.log + [Read(s.server.n, SamplesIn(got[HEADER_SIZE..]))])
  }

  // ----- Steps -----

  /** The number of samples asked for leaves the client's position within an int. */
  predicate Enabled(wave: seq<Word>, s: State, e: Event) {
    match e
    case StartRead(n) => s.server == Idle && n + |wave| <= MAX_INT
    case SendOutput(end, text) => s.server == Idle && Fits(Result(end, text))
    case ServerRecv(k) =>
      && s.server.Reading? && 0 < k <= |s.toServer|
      && |s.server.got| + k <= ServerNeeds(s.server.got)
    case ClientRecv(k) =>
      && s.client.Running? && s.pos <= |wave| && 0 < k <= |s.toClient|
      && |s.client.got| + k <= ClientNeeds(s.client.got)
    case EndOfStream => s.server.Reading? && s.client == Done && s.toServer == []
  }

  function Apply(wave: seq<Word>, s: State, e: Event): (s': State)
    requires Sendable(wave) && Enabled(wave, s, e)
  {
    match e
    case StartRead(n) => Sent(s.(server := Reading(n, [])), Request(n))
    case SendOutput(end, text) => Sent(s, Result(end, text))
    case ServerRecv(k) => ServerTakes(s.(toServer := s.toServer[k..]), s.server.got + s.toServer[..k])
    case ClientRecv(k) => ClientTakes(wave, s.(toClient := s.toClient[k..]), s.client.got + s.toClient[..k])
    case EndOfStream => s.(server := PeerClosed)
  }

  function Sent(s: State, m: Message): (s': State)
    requires Fits(m)
  {
    s.(toClient := s.toClient + Encode(m), unread := s.unread + [m])
  }

  ghost predicate IsRun(wave: seq<Word>, s: State, events: seq<Event>)
    requires Sendable(wave)
    decreases |events|
  {
    events == [] || (Enabled(wave, s, events[0]) && IsRun(wave, Apply(wave, s, events[0]), events[1..]))
  }

  ghost function After(wave: seq<Word>, s: State, events: seq<Event>): (s': State)
    requires Sendable(wave) && IsRun(wave, s, events)
    decreases |events|
  {
    if events == [] then s else After(wave, Apply(wave, s, events[0]), events[1..])
  }

  // ----- The local source -----

  /** Where a local source of `length` samples stands after these reads. */
  function Position(length: nat, log: seq<Read>): (pos: nat)
    ensures pos <= length
  {
    if log == [] then 0
    else
      var pos := Position(length, log[..|log| - 1]);
      pos + Next(length, pos, log[|log| - 1].n)
  }

  /** Each read returned what it would have returned from a local source. */
  ghost predicate AsLocal(wave: seq<Word>, log: seq<Read>) {
    log == [] ||
    var before, last := log[..|log| - 1], log[|log| - 1];
    && AsLocal(wave, before)
    && last.samples == wave[Position(|wave|, before)..Position(|wave|, log)]
  }

  lemma AsLocalOneMore(wave: seq<Word>, log: seq<Read>, last: Read)
    requires AsLocal(wave, log)
    requires var pos := Position(|wave|, log);
             last.samples == wave[pos..pos + Next(|wave|, pos, last.n)]
    ensures AsLocal(wave, log + [last])
    ensures var pos := Position(|wave|, log);
            Position(|wave|, log + [last]) == pos + Next(|wave|, pos, last.n)
  {
    var more := log + [last];
    assert more[..|log|] == log;
  }

  function Samples(log: seq<Read>): (samples: seq<Word>) {
    if log == [] then [] else Samples(log[..|log| - 1]) + log[|log| - 1].samples
  }

  /** The samples read, one read after the other, are the beginning of the wave. */
  lemma {:induction false} SamplesAreThePrefix(wave: seq<Word>, log: seq<Read>)
    requires AsLocal(wave, log)
    ensures Samples(log) == wave[..Position(|wave|, log)]
  {
    if log != [] {
      SamplesAreThePrefix(wave, log[..|log| - 1]);
    }
  }

  /** Reads from a local source, one after the other. */
  method ReadLocally(wave: seq<Word>, ns: seq<nat>) returns (log: seq<Read>)
    ensures AsLocal(wave, log) && |log| == |ns|
    ensures forall i :: 0 <= i < |ns| ==> log[i].n == ns[i]
  {
    var source := new OnlineVectorSource(wave);
    log := [];
    for i := 0 to |ns|
      invariant source.Valid() && source.src == wave && fresh(source)
      invariant |log| == i && AsLocal(wave, log) && source.pos == Position(|wave|, log)
      invariant forall j :: 0 <= j < i ==> log[j].n == ns[j]
    {
      var data := new Word[ns[i]];
      var nElem := source.Read(data, 0, ns[i]);
      assert data[..nElem] == wave[source.pos - nElem..source.pos];
      AsLocalOneMore(wave, log, Read(ns[i], data[..nElem]));
      log := log + [Read(ns[i], data[..nElem])];
    }
  }

  /** What a sequence of reads returns is determined by the numbers asked for. */
  lemma {:induction false} AsLocalDetermines(wave: seq<Word>, a: seq<Read>, b: seq<Read>)
    requires AsLocal(wave, a) && AsLocal(wave, b) && |a| == |b|
    requires forall i :: 0 <= i < |a| ==> a[i].n == b[i].n
    ensures a == b
  {
    if a != [] {
      AsLocalDetermines(wave, a[..|a| - 1], b[..|b| - 1]);
      assert a == a[..|a| - 1] + [a[|a| - 1]];
      assert b == b[..|b| - 1] + [b[|b| - 1]];
    }
  }

  // ----- The invariant -----

  ghost predicate Outputs(ms: seq<Message>) {
    forall i :: 0 <= i < |ms| ==> ms[i].Result? && Fits(ms[i])
  }

  ghost predicate FromServer(ms: seq<Message>) {
    forall i :: 0 <= i < |ms| ==> !ms[i].Wave? && Fits(ms[i])
  }

  function Min(a: nat, b: nat): (c: nat)
    ensures c == a || c == b
  {
    if a < b then a else b
  }

  /** The client is aligned with the packets, and the request it reads last is one the server waits for. */
  ghost predicate ClientInv(wave: seq<Word>, client: Client, pos: nat, toClient: seq<Byte>, unread: seq<Message>) {
    match client
    case Running(got) =>
      && pos < |wave| && FromServer(unread)
      && got + toClient == EncodeAll(unread)
      && (if unread == [] then got == [] else |got| < |Encode(unread[0])|)
    case Done => |wave| <= pos <= MAX_INT
    case Crashed => false
  }

  /** The request is on its way, or will never be read. */
  ghost predicate Asked(wave: seq<Word>, s: State) {
    && s.server.Reading? && s.server.got == [] && s.toServer == []
    && var at := Position(|wave|, s.log);
    if s.client.Running?
    then
      && s.pos == at && s.unread != []
      && Outputs(s.unread[..|s.unread| - 1]) && s.unread[|s.unread| - 1] == Request(s.server.n)
    else at == |wave|
  }

  /** The answer is on its way. */
  ghost predicate Answered(wave: seq<Word>, s: State)
    requires Sendable(wave)
  {
    && s.server.Reading?
    && var at := Position(|wave|, s.log);
    && at < |wave| && Min(s.pos, |wave|) == at + Next(|wave|, at, s.server.n)
    && var answer := Encode(Answer(wave, at, s.server.n));
    && s.server.got + s.toServer == answer && |s.server.got| < |answer|
    && (s.client.Running? ==> s.unread == [])
  }

  ghost predicate ServerInv(wave: seq<Word>, s: State)
    requires Sendable(wave)
  {
    match s.server
    case Idle =>
      && s.toServer == [] && Min(s.pos, |wave|) == Position(|wave|, s.log)
      && (s.client.Running? ==> Outputs(s.unread))
    case Reading(n, _) => n + |wave| <= MAX_INT && (Asked(wave, s) || Answered(wave, s))
    case WrongPacket => false
    case PeerClosed => s.client == Done && Position(|wave|, s.log) == |wave|
  }

  ghost predicate Inv(wave: seq<Word>, s: State)
    requires Sendable(wave)
  {
    AsLocal(wave, s.log) && ClientInv(wave, s.client, s.pos, s.toClient, s.unread) && ServerInv(wave, s)
  }

  // ----- Every step keeps it -----

  /** The client reads a packet to its end, and no further. */
  lemma ClientReadsWholePackets(m: Message, got: seq<Byte>)
    requires Fits(m) && !m.Wave? && |got| <= |Encode(m)| && got == Encode(m)[..|got|]
    ensures |got| < ClientNeeds(got) <==> |got| < |Encode(m)|
    ensures ClientNeeds(got) <= |Encode(m)|
    ensures |got| == |Encode(m)| ==> TypeIn(got) == TypeOf(m) && (m.Request? ==> DecodeWord(got[8..12]) == m.numSamples)
  {
    if |got| >= HEADER_SIZE {
      HeaderRead(m, got);
      PayloadRead(m);
    }
  }

  lemma ServerReadsWholePackets(m: Message, got: seq<Byte>)
    requires Fits(m) && m.Wave? && |got| <= |Encode(m)| && got == Encode(m)[..|got|]
    ensures |got| < ServerNeeds(got) <==> |got| < |Encode(m)| || |got| < HEADER_SIZE
    ensures ServerNeeds(got) <= |Encode(m)|
    ensures |got| >= HEADER_SIZE ==> TypeIn(got) == DATA_WAVE && ServerNeeds(got) == |Encode(m)|
  {
    if |got| >= HEADER_SIZE {
      HeaderRead(m, got);
    }
  }

  lemma Moved(a: seq<Byte>, b: seq<Byte>, k: nat)
    requires k <= |b|
    ensures (a + b[..k]) + b[k..] == a + b
  {
  }

  lemma SendKeepsClient(wave: seq<Word>, s: State, m: Message)
    requires ClientInv(wave, s.client, s.pos, s.toClient, s.unread) && Fits(m) && !m.Wave?
    ensures ClientInv(wave, s.client, s.pos, s.toClient + Encode(m), s.unread + [m])
  {
    if s.client.Running? {
      var unread := s.unread + [m];
      assert FromServer(unread);
      EncodeAllAppend(s.unread, m);
      Associative(s.client.got, s.toClient, Encode(m));
      assert unread[0] == if s.unread == [] then m else s.unread[0];
      assert |s.client.got| < |Encode(unread[0])|;
    }
  }

  /** The client's step, in terms of messages: it reads on in its first unread message, or reads it to its end
      and answers it if it is a request. */
  ghost predicate ClientStepped(wave: seq<Word>, s: State, s': State)
    requires Sendable(wave)
  {
    && s.unread != [] && s.pos <= |wave| && s'.server == s.server && s'.log == s.log
    && if s'.unread == s.unread
       then s'.pos == s.pos && s'.toServer == s.toServer && s'.client.Running?
       else
         && s'.unread == s.unread[1..]
         && if s.unread[0].Request?
            then && s'.pos == s.pos + s.unread[0].numSamples
                && s'.client == (if s'.pos < |wave| then Running([]) else Done)
                 && s'.toServer == s.toServer + Encode(Answer(wave, s.pos, s.unread[0].numSamples))
            else s'.pos == s.pos && s'.toServer == s.toServer && s'.client.Running?
  }

  lemma ClientTakesMessages(wave: seq<Word>, s: State, k: nat)
    requires Sendable(wave) && Enabled(wave, s, ClientRecv(k))
    requires ClientInv(wave, s.client, s.pos, s.toClient, s.unread)
    requires s.unread != [] && s.unread[0].Request? ==> s.unread[0].numSamples + |wave| <= MAX_INT
    ensures var s' := Apply(wave, s, ClientRecv(k));
            && ClientInv(wave, s'.client, s'.pos, s'.toClient, s'.unread)
            && ClientStepped(wave, s, s') && s'.toClient == s.toClient[k..]
  {
    var got, rest := s.client.got + s.toClient[..k], s.toClient[k..];
    Moved(s.client.got, s.toClient, k);
    var m := s.unread[0];
    FirstMessage(s.unread, s.client.got, s.toClient);
    ClientReadsWholePackets(m, s.client.got);
    FirstMessage(s.unread, got, rest);
    ClientReadsWholePackets(m, got);
  }

  /** The requested answer is sent when the request is the last message the client reads. */
  lemma LastIsRequest(s: State, n: nat)
    requires s.unread != [] && Outputs(s.unread[..|s.unread| - 1]) && s.unread[|s.unread| - 1] == Request(n)
    ensures s.unread[0].Request? <==> |s.unread| == 1
    ensures |s.unread| > 1 ==>
              var later := s.unread[1..];
              Outputs(later[..|later| - 1]) && later[|later| - 1] == Request(n)
  {
    if |s.unread| > 1 {
      assert s.unread[0] == s.unread[..|s.unread| - 1][0];
      assert s.unread[1..][..|s.unread| - 2] == s.unread[..|s.unread| - 1][1..];
    }
  }

  lemma ClientStepKeepsServer(wave: seq<Word>, s: State, s': State)
    requires Sendable(wave) && ServerInv(wave, s) && s.client.Running? && s.pos < |wave| && ClientStepped(wave, s, s')
    ensures ServerInv(wave, s')
  {
    if s.server.Idle? {
      assert s'.unread == s.unread || !s.unread[0].Request?;
    } else if Asked(wave, s) {
      LastIsRequest(s, s.server.n);
      if s'.unread != s.unread && |s.unread| == 1 {
        assert [] + s'.toServer == s'.toServer;
        assert Answered(wave, s');
      } else {
        assert Asked(wave, s');
      }
    }
  }

  lemma ClientRecvKeepsInv(wave: seq<Word>, s: State, k: nat)
    requires Sendable(wave) && Inv(wave, s) && Enabled(wave, s, ClientRecv(k))
    ensures Inv(wave, Apply(wave, s, ClientRecv(k)))
  {
    if s.server.Reading? && Asked(wave, s) {
      LastIsRequest(s, s.server.n);
    }
    ClientTakesMessages(wave, s, k);
    ClientStepKeepsServer(wave, s, Apply(wave, s, ClientRecv(k)));
  }

  /** The server's step, in terms of messages: it reads on in the answer, or reads it to its end. */
  lemma ServerTakesMessages(wave: seq<Word>, s: State, k: nat, answer: Message)
    requires s.server.Reading? && 0 < k <= |s.toServer| && |s.server.got| + k <= ServerNeeds(s.server.got)
    requires Fits(answer) && answer.Wave? && s.server.got + s.toServer == Encode(answer)
    requires |s.server.got| < |Encode(answer)|
    ensures var got, rest := s.server.got + s.toServer[..k], s.toServer[k..];
            var s' := ServerTakes(s.(toServer := rest), got);
            if |got| < |Encode(answer)|
            then got + rest == Encode(answer) && s' == s.(server := Reading(s.server.n, got), toServer := rest)
            else s' == s.(server := Idle, toServer := [], log := s.log + [Read(s.server.n, answer.samples)])
  {
    var got, rest := s.server.got + s.toServer[..k], s.toServer[k..];
    Moved(s.server.got, s.toServer, k);
    assert s.server.got == Encode(answer)[..|s.server.got|];
    ServerReadsWholePackets(answer, s.server.got);
    assert got == Encode(answer)[..|got|];
    ServerReadsWholePackets(answer, got);
    if |got| == |Encode(answer)| {
      PayloadRead(answer);
      assert got == Encode(answer) && rest == [];
    }
  }

  lemma ServerStepKeepsServer(wave: seq<Word>, s: State, k: nat)
    requires Sendable(wave) && AsLocal(wave, s.log) && ServerInv(wave, s) && Enabled(wave, s, ServerRecv(k))
    ensures var s' := Apply(wave, s, ServerRecv(k));
            && AsLocal(wave, s'.log) && ServerInv(wave, s')
            && s'.client == s.client && s'.pos == s.pos && s'.toClient == s.toClient && s'.unread == s.unread
  {
    assert Answered(wave, s);
    var at := Position(|wave|, s.log);
    var answer := Answer(wave, at, s.server.n);
    ServerTakesMessages(wave, s, k, answer);
    AsLocalOneMore(wave, s.log, Read(s.server.n, answer.samples));
    var s' := Apply(wave, s, ServerRecv(k));
    if s'.server.Reading? {
      assert Answered(wave, s');
    }
  }

  lemma ServerRecvKeepsInv(wave: seq<Word>, s: State, k: nat)
    requires Sendable(wave) && Inv(wave, s) && Enabled(wave, s, ServerRecv(k))
    ensures Inv(wave, Apply(wave, s, ServerRecv(k)))
  {
    ServerStepKeepsServer(wave, s, k);
  }

  lemma StepKeepsInv(wave: seq<Word>, s: State, e: Event)
    requires Sendable(wave) && Inv(wave, s) && Enabled(wave, s, e)
    ensures Inv(wave, Apply(wave, s, e))
  {
    match e
    case StartRead(n) => SendKeepsClient(wave, s, Request(n));
    case SendOutput(end, text) => SendKeepsClient(wave, s, Result(end, text));
    case ServerRecv(k) => ServerRecvKeepsInv(wave, s, k);
    case ClientRecv(k) => ClientRecvKeepsInv(wave, s, k);
    case EndOfStream =>
  }

  lemma {:induction false} RunKeepsInv(wave: seq<Word>, s: State, events: seq<Event>)
    requires Sendable(wave) && Inv(wave, s) && IsRun(wave, s, events)
    ensures Inv(wave, After(wave, s, events))
    decreases |events|
  {
    if events != [] {
      StepKeepsInv(wave, s, events[0]);
      RunKeepsInv(wave, Apply(wave, s, events[0]), events[1..]);
    }
  }
}
