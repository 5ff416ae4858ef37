/** What holds over every run of the online protocol. */
module AudioPullRuns {
  import opened Basics
  import opened Packets
  import opened AudioPulls

  ghost predicate Reachable(wave: seq<Word>, s: State)
    requires Sendable(wave)
  {
    exists events :: IsRun(wave, Init(wave), events) && After(wave, Init(wave), events) == s
  }

  lemma ReachableMeansInv(wave: seq<Word>, s: State)
    requires Sendable(wave) && Reachable(wave, s)
    ensures Inv(wave, s)
  {
    var events :| IsRun(wave, Init(wave), events) && After(wave, Init(wave), events) == s;
    RunKeepsInv(wave, Init(wave), events);
  }

  /** However the streams are cut and whatever results are sent in between, no end ever meets a packet it does not
      expect, and the reads completed are those that a local source of the same wave would have made: they return
      the wave from its beginning, without a gap or a repetition, and never more than was asked for. */
  lemma RemoteReadsAreLocal(wave: seq<Word>, s: State, local: seq<Read>)
    requires Sendable(wave) && Reachable(wave, s)
    requires AsLocal(wave, local) && |local| == |s.log| && forall i :: 0 <= i < |local| ==> local[i].n == s.log[i].n
    ensures s.log == local && Samples(s.log) == wave[..Position(|wave|, s.log)]
    ensures forall i :: 0 <= i < |s.log| ==> |s.log[i].samples| <= s.log[i].n
    ensures s.server != WrongPacket && s.client != Crashed && s.pos <= MAX_INT
  {
    ReachableMeansInv(wave, s);
    AsLocalDetermines(wave, s.log, local);
    SamplesAreThePrefix(wave, s.log);
    NeverMoreThanAsked(wave, s.log);
  }

  lemma {:induction false} NeverMoreThanAsked(wave: seq<Word>, log: seq<Read>)
    requires AsLocal(wave, log)
    ensures forall i :: 0 <= i < |log| ==> |log[i].samples| <= log[i].n
  {
    if log != [] {
      var before := log[..|log| - 1];
      NeverMoreThanAsked(wave, before);
      forall i | 0 <= i < |log|
        ensures |log[i].samples| <= log[i].n
      {
        assert i < |before| ==> log[i] == before[i];
      }
    }
  }

  // ----- A read completes as long as there are samples left -----

  ghost predicate Pending(wave: seq<Word>, s: State) {
    s.server.Reading? && Position(|wave|, s.log) < |wave|
  }

  /** The bytes that are still to be received before the pending read completes, at most. */
  function InFlight(s: State): (n: nat) {
    |s.toServer| + |s.toClient| +
    (if s.server.Reading? && s.server.got == [] && s.toServer == [] then HEADER_SIZE + SAMPLE_SIZE * s.server.n else 0)
  }

  /** While a read is pending one of the ends can receive. */
  lemma NeverStuck(wave: seq<Word>, s: State)
    requires Sendable(wave) && Inv(wave, s) && Pending(wave, s)
    ensures Enabled(wave, s, ServerRecv(1)) || Enabled(wave, s, ClientRecv(1))
  {
    if Asked(wave, s) {
      FirstMessage(s.unread, s.client.got, s.toClient);
      ClientReadsWholePackets(s.unread[0], s.client.got);
    } else {
      var answer := Answer(wave, Position(|wave|, s.log), s.server.n);
      assert s.server.got == Encode(answer)[..|s.server.got|];
      ServerReadsWholePackets(answer, s.server.got);
    }
  }

  lemma PendingClientStep(wave: seq<Word>, s: State, k: nat)
    requires Sendable(wave) && Inv(wave, s) && Pending(wave, s) && Enabled(wave, s, ClientRecv(k))
    ensures var s' := Apply(wave, s, ClientRecv(k));
            InFlight(s') < InFlight(s) && s'.server == s.server && s'.log == s.log
  {
    if Asked(wave, s) {
      LastIsRequest(s, s.server.n);
    }
    ClientTakesMessages(wave, s, k);
  }

  lemma PendingServerStep(wave: seq<Word>, s: State, k: nat)
    requires Sendable(wave) && Inv(wave, s) && Pending(wave, s) && Enabled(wave, s, ServerRecv(k))
    ensures var s' := Apply(wave, s, ServerRecv(k));
            if s'.server.Reading? then InFlight(s') < InFlight(s) && s'.log == s.log
            else |s'.log| == |s.log| + 1
  {
    ServerTakesMessages(wave, s, k, Answer(wave, Position(|wave|, s.log), s.server.n));
  }

  lemma PendingStep(wave: seq<Word>, s: State, e: Event)
    requires Sendable(wave) && Inv(wave, s) && Pending(wave, s) && Enabled(wave, s, e)
    ensures var s' := Apply(wave, s, e);
            if Pending(wave, s') then InFlight(s') < InFlight(s) && s'.log == s.log
            else |s'.log| == |s.log| + 1
  {
    match e
    case ClientRecv(k) => PendingClientStep(wave, s, k);
    case ServerRecv(k) => PendingServerStep(wave, s, k);
    case EndOfStream =>
    case StartRead(_) =>
    case SendOutput(_, _) =>
  }

  lemma {:induction false} LogGrows(wave: seq<Word>, s: State, events: seq<Event>)
    requires Sendable(wave) && IsRun(wave, s, events)
    ensures |s.log| <= |After(wave, s, events).log|
    decreases |events|
  {
    if events != [] {
      LogGrows(wave, Apply(wave, s, events[0]), events[1..]);
    }
  }

  /** In whatever order the bytes arrive: a run that is longer than the bytes in flight has completed the read. */
  lemma {:induction false} PendingReadCompletes(wave: seq<Word>, s: State, events: seq<Event>)
    requires Sendable(wave) && Inv(wave, s) && Pending(wave, s) && IsRun(wave, s, events)
    ensures |events| > InFlight(s) ==> |s.log| < |After(wave, s, events).log|
    decreases |events|
  {
    if events != [] {
      var s' := Apply(wave, s, events[0]);
      StepKeepsInv(wave, s, events[0]);
      PendingStep(wave, s, events[0]);
      if Pending(wave, s') {
        PendingReadCompletes(wave, s', events[1..]);
      } else {
        LogGrows(wave, s', events[1..]);
      }
    }
  }

  /** A run that completes the pending read. */
  lemma CompletingRun(wave: seq<Word>, s: State) returns (events: seq<Event>)
    requires Sendable(wave) && Inv(wave, s) && Pending(wave, s)
    ensures IsRun(wave, s, events) && |s.log| < |After(wave, s, events).log|
    decreases InFlight(s)
  {
    NeverStuck(wave, s);
    var e := if Enabled(wave, s, ServerRecv(1)) then ServerRecv(1) else ClientRecv(1);
    var s' := Apply(wave, s, e);
    StepKeepsInv(wave, s, e);
    PendingStep(wave, s, e);
    var later := [];
    if Pending(wave, s') {
      later := CompletingRun(wave, s');
    }
    events := [e] + later;
    assert events[1..] == later;
  }

  // ----- The read that exhausts the wave is the last -----

  lemma {:induction false} NothingAfterExhaustion(wave: seq<Word>, s: State, events: seq<Event>)
    requires Sendable(wave) && Inv(wave, s) && Position(|wave|, s.log) == |wave| && IsRun(wave, s, events)
    ensures After(wave, s, events).log == s.log
    decreases |events|
  {
    if events != [] {
      var s' := Apply(wave, s, events[0]);
      StepKeepsInv(wave, s, events[0]);
      NothingAfterExhaustion(wave, s', events[1..]);
    }
  }

  /** A read that has been started can complete exactly as long as the reads before it have left samples.  A local
      source would return at once, without samples, in the other case. */
  lemma ReadCompletesWhileSamplesAreLeft(wave: seq<Word>, s: State)
    requires Sendable(wave) && Reachable(wave, s) && s.server.Reading?
    ensures (exists events :: IsRun(wave, s, events) && |s.log| < |After(wave, s, events).log|)
            <==> Position(|wave|, s.log) < |wave|
  {
    ReachableMeansInv(wave, s);
    if Position(|wave|, s.log) < |wave| {
      var events := CompletingRun(wave, s);
    } else {
      forall events | IsRun(wave, s, events)
        ensures After(wave, s, events).log == s.log
      {
        NothingAfterExhaustion(wave, s, events);
      }
    }
  }

  // ----- The two ends as code -----

  class RemoteAudioSource {
    const socket: Socket

    constructor (socket: Socket)
      ensures this.socket == socket
    {
      this.socket := socket;
    }

    /** Asks for as many samples as `data` holds and waits for the answer.  It gives up, as the program exits, if
        the answer is of another type or the stream ends; otherwise the answer's samples replace the first ones of
        `data`.  The client must not send more than was asked for. */
    method Read(data: array<Word>) returns (nElem: nat, ok: bool)
      requires data.Length <= MAX_INT
      requires |socket.incoming| >= HEADER_SIZE && TypeIn(socket.incoming) == DATA_WAVE ==>
                 LengthIn(socket.incoming) <= SAMPLE_SIZE * data.Length
      modifies socket, data
      ensures socket.outgoing == old(socket.outgoing) + Encode(Request(data.Length))
      ensures ok <==> && HEADER_SIZE <= |old(socket.incoming)| && TypeIn(old(socket.incoming)) == DATA_WAVE
                      && HEADER_SIZE + LengthIn(old(socket.incoming)) <= |old(socket.incoming)|
      ensures ok ==>
                && var total := HEADER_SIZE + LengthIn(old(socket.incoming));
                && socket.incoming == old(socket.incoming)[total..]
                && var samples := SamplesIn(old(socket.incoming)[HEADER_SIZE..total]);
                nElem == |samples| <= data.Length && data[..] == samples + old(data[..])[nElem..]
    {
      socket.SendPacket(Request(data.Length));
      ghost var stream := socket.incoming;
      var header, received := socket.Receive(HEADER_SIZE);
      if !received || TypeIn(header) != DATA_WAVE {
        return 0, false;
      }
      var length := LengthIn(header);
      var payload;
      payload, received := socket.Receive(length);
      if !received {
        return 0, false;
      }
      assert payload == stream[HEADER_SIZE..HEADER_SIZE + length];
      var samples := SamplesIn(payload);
      ghost var before := data[..];
      forall i | 0 <= i < |samples| {
        data[i] := samples[i];
      }
      assert data[..] == samples + before[|samples|..];
      nElem, ok := length / SAMPLE_SIZE, true;
    }
  }

  /** What the client sends in reply to a stream of messages: to each request the next samples of the wave, up to
      and including the request that takes it to the wave's end. */
  function Replies(wave: seq<Word>, pos: nat, ms: seq<Message>): (replies: seq<Message>)
    requires Sendable(wave) && forall i :: 0 <= i < |ms| ==> Fits(ms[i])
    ensures forall i :: 0 <= i < |replies| ==> Fits(replies[i])
    decreases |ms|
  {
    if pos >= |wave| || ms == [] then []
    else if ms[0].Request? then [Answer(wave, pos, ms[0].numSamples)] + Replies(wave, pos + ms[0].numSamples, ms[1..])
    else Replies(wave, pos, ms[1..])
  }

  function SamplesAskedFor(ms: seq<Message>): (n: nat) {
    if ms == [] then 0 else (if ms[0].Request? then ms[0].numSamples else 0) + SamplesAskedFor(ms[1..])
  }

  /** The samples in a list of messages, one wave after the other. */
  function SamplesOf(ms: seq<Message>): (samples: seq<Word>) {
    if ms == [] then [] else (if ms[0].Wave? then ms[0].samples else []) + SamplesOf(ms[1..])
  }

  lemma FirstWave(m: Message, ms: seq<Message>)
    requires m.Wave?
    ensures SamplesOf([m] + ms) == m.samples + SamplesOf(ms)
  {
    assert ([m] + ms)[1..] == ms;
  }

  lemma ReplyAndLater(wave: seq<Word>, pos: nat, n: nat, later: seq<Message>, asked: nat)
    requires Sendable(wave) && pos < |wave|
    requires if pos + n <= |wave| then SamplesOf(later) == wave[pos + n..Min(pos + n + asked, |wave|)] else later == []
    ensures SamplesOf([Answer(wave, pos, n)] + later) == wave[pos..Min(pos + n + asked, |wave|)]
  {
    FirstWave(Answer(wave, pos, n), later);
    if pos + n <= |wave| {
      SlicesJoin(wave, pos, pos + n, Min(pos + n + asked, |wave|));
    }
  }

  /** The replies hold the samples of the wave from `pos` on, as many as are asked for and left. */
  lemma {:induction false} RepliesAreTheWave(wave: seq<Word>, pos: nat, ms: seq<Message>)
    requires Sendable(wave) && pos <= |wave| && forall i :: 0 <= i < |ms| ==> Fits(ms[i])
    ensures SamplesOf(Replies(wave, pos, ms)) == wave[pos..Min(pos + SamplesAskedFor(ms), |wave|)]
    decreases |ms|
  {
    if pos < |wave| && ms != [] {
      if ms[0].Request? {
        var n := ms[0].numSamples;
        if pos + n <= |wave| {
          RepliesAreTheWave(wave, pos + n, ms[1..]);
        }
        ReplyAndLater(wave, pos, n, Replies(wave, pos + n, ms[1..]), SamplesAskedFor(ms[1..]));
      } else {
        RepliesAreTheWave(wave, pos, ms[1..]);
      }
    }
  }

  /** What one turn adds. */
  function ReplyTo(wave: seq<Word>, pos: nat, m: Message): (bytes: seq<Byte>)
    requires Sendable(wave) && pos <= |wave|
  {
    if m.Request? then Encode(Answer(wave, pos, m.numSamples)) else []
  }

  function Advanced(pos: nat, m: Message): (pos': nat) {
    if m.Request? then pos + m.numSamples else pos
  }

  lemma RepliesOneTurn(wave: seq<Word>, pos: nat, ms: seq<Message>)
    requires Sendable(wave) && pos < |wave| && ms != [] && FromServer(ms)
    ensures EncodeAll(Replies(wave, pos, ms))
            == ReplyTo(wave, pos, ms[0]) + EncodeAll(Replies(wave, Advanced(pos, ms[0]), ms[1..]))
    ensures pos + SamplesAskedFor(ms) == Advanced(pos, ms[0]) + SamplesAskedFor(ms[1..])
  {
    var later := Replies(wave, Advanced(pos, ms[0]), ms[1..]);
    if ms[0].Request? {
      assert Replies(wave, pos, ms)[1..] == later;
    } else {
      assert [] + EncodeAll(later) == EncodeAll(later);
    }
  }

  /** A message received in the pieces the client asks for. */
  lemma ReceivedInPieces(m: Message, rest: seq<Byte>)
    requires Fits(m) && !m.Wave?
    ensures var stream := Encode(m) + rest;
            && TypeIn(stream[..HEADER_SIZE]) == TypeOf(m) && LengthIn(stream[..HEADER_SIZE]) == PayloadLength(m)
            && (m.Request? ==> DecodeWord(stream[HEADER_SIZE..][..4]) == m.numSamples)
            && stream[HEADER_SIZE..][PayloadLength(m)..] == rest
            && (m.Result? ==> stream[HEADER_SIZE..][1..][PayloadLength(m) - 1..] == rest)
  {
    var stream := Encode(m) + rest;
    assert stream[..HEADER_SIZE] == Encode(m)[..HEADER_SIZE];
    HeaderRead(m, stream[..HEADER_SIZE]);
    PayloadRead(m);
    if m.Request? {
      assert stream[HEADER_SIZE..][..4] == Encode(m)[8..12];
    }
  }

  /** One turn of the client's loop: it receives a message and replies to it, if it is a request. */
  method AnswerOne(socket: Socket, wave: seq<Word>, pos: nat, ghost ms: seq<Message>)
    returns (pos': nat, received: bool)
    requires Sendable(wave) && pos < |wave| && FromServer(ms) && socket.incoming == EncodeAll(ms)
    modifies socket
    ensures received <==> ms != []
    ensures received ==> socket.incoming == EncodeAll(ms[1..])
    ensures received ==>
              pos' == Advanced(pos, ms[0]) && socket.outgoing == old(socket.outgoing) + ReplyTo(wave, pos, ms[0])
    ensures !received ==> socket.outgoing == old(socket.outgoing)
  {
    pos' := pos;
    var header;
    header, received := socket.Receive(HEADER_SIZE);
    if !received {
      return;
    }
    ReceivedInPieces(ms[0], EncodeAll(ms[1..]));
    if TypeIn(header) == DATA_WAVE_REQUEST {
      var request, _ := socket.Receive(REQUEST_SIZE);
      var numSamples := DecodeWord(request[..4]);
      socket.SendPacket(Answer(wave, pos, numSamples));
      pos' := pos + numSamples;
    } else if TypeIn(header) == DECODE_OUTPUT {
      var endUtterance, _ := socket.Receive(1);
      var output, _ := socket.Receive(LengthIn(header) - 1);
    }
  }

  /** The client's loop, over all that the server will send.  It replies to the requests in turn and is done when
      the last sample is sent; if the server asks for less than the whole wave, the stream ends first. */
  method AnswerRequests(socket: Socket, wave: seq<Word>, ghost ms: seq<Message>) returns (ok: bool)
    requires Sendable(wave) && FromServer(ms) && socket.incoming == EncodeAll(ms)
    modifies socket
    ensures socket.outgoing == old(socket.outgoing) + EncodeAll(Replies(wave, 0, ms))
    ensures ok <==> SamplesAskedFor(ms) >= |wave|
  {
    var pos: nat := 0;
    ghost var unread := ms;
    while pos < |wave|
      invariant FromServer(unread) && socket.incoming == EncodeAll(unread)
      invariant pos + SamplesAskedFor(unread) == SamplesAskedFor(ms)
      invariant socket.outgoing + EncodeAll(Replies(wave, pos, unread))
                == old(socket.outgoing) + EncodeAll(Replies(wave, 0, ms))
      decreases |unread|
    {
      ghost var sent, rest := socket.outgoing, if unread == [] then [] else ReplyTo(wave, pos, unread[0]);
      if unread != [] {
        RepliesOneTurn(wave, pos, unread);
        Associative(sent, rest, EncodeAll(Replies(wave, Advanced(pos, unread[0]), unread[1..])));
      }
      var received;
      pos, received := AnswerOne(socket, wave, pos, unread);
      if !received {
        return false;
      }
      unread := unread[1..];
    }
    ok := true;
  }
}
