/** The packets of the online protocol as bytes: a header of two 32-bit words, then the payload. */
module Packets {

  type Byte = x: int | 0 <= x < 256

  /** The bits of a 32-bit int or float. */
  type Word = x: int | 0 <= x < 0x1_0000_0000

  const DATA_WAVE: Word := 2
  const DATA_WAVE_REQUEST: Word := 3
  const DECODE_OUTPUT: Word := 5

  const HEADER_SIZE := 8
  const REQUEST_SIZE := 8
  const SAMPLE_SIZE := 4

  /** Lengths and counts are ints. */
  const MAX_INT := 0x7fff_ffff

  datatype Message =
    | Request(numSamples: nat)
    | Wave(samples: seq<Word>)
    | Result(endUtterance: bool, text: seq<Byte>)

  predicate Fits(m: Message) {
    match m
    case Request(n) => n <= MAX_INT
    case Wave(samples) => SAMPLE_SIZE * |samples| <= MAX_INT
    case Result(_, text) => 1 + |text| <= MAX_INT
  }

  // ----- Words -----

  function EncodeWord(w: Word): (bytes: seq<Byte>)
    ensures |bytes| == 4
  {
    [w % 256, w / 256 % 256, w / 65536 % 256, w / 16777216]
  }

  function DecodeWord(bytes: seq<Byte>): (w: Word)
    requires |bytes| == 4
  {
    var b0: int, b1: int, b2: int, b3: int := bytes[0], bytes[1], bytes[2], bytes[3];
    b0 + 256 * b1 + 65536 * b2 + 16777216 * b3
  }

  lemma WordRoundTrip(w: Word)
    ensures DecodeWord(EncodeWord(w)) == w
  {
    assert w == w % 256 + 256 * (w / 256);
    assert w / 256 == w / 256 % 256 + 256 * (w / 65536);
    assert w / 65536 == w / 65536 % 256 + 256 * (w / 16777216);
  }

  function EncodeWords(ws: seq<Word>): (bytes: seq<Byte>)
    ensures |bytes| == 4 * |ws|
  {
    if ws == [] then [] else EncodeWords(ws[..|ws| - 1]) + EncodeWord(ws[|ws| - 1])
  }

  function DecodeWords(bytes: seq<Byte>, n: nat): (ws: seq<Word>)
    requires |bytes| == 4 * n
    ensures |ws| == n
  {
    if n == 0 then [] else DecodeWords(bytes[..4 * n - 4], n - 1) + [DecodeWord(bytes[4 * n - 4..])]
  }

  lemma DecodeLastWord(bytes: seq<Byte>, n: nat, w: Word)
    requires |bytes| == 4 * n
    ensures DecodeWords(bytes + EncodeWord(w), n + 1) == DecodeWords(bytes, n) + [w]
  {
    var all := bytes + EncodeWord(w);
    assert all[..4 * n] == bytes;
    assert all[4 * n..] == EncodeWord(w);
    WordRoundTrip(w);
  }

  lemma {:induction false} WordsRoundTrip(ws: seq<Word>)
    ensures DecodeWords(EncodeWords(ws), |ws|) == ws
  {
    if ws != [] {
      var before, last := ws[..|ws| - 1], ws[|ws| - 1];
      WordsRoundTrip(before);
      DecodeLastWord(EncodeWords(before), |before|, last);
      assert ws == before + [last];
    }
  }

  // ----- Messages -----

  function PayloadLength(m: Message): (n: nat) {
    match m
    case Request(_) => REQUEST_SIZE
    case Wave(samples) => SAMPLE_SIZE * |samples|
    case Result(_, text) => 1 + |text|
  }

  function TypeOf(m: Message): (t: Word) {
    match m
    case Request(_) => DATA_WAVE_REQUEST
    case Wave(_) => DATA_WAVE
    case Result(_, _) => DECODE_OUTPUT
  }

  function Payload(m: Message): (bytes: seq<Byte>)
    requires Fits(m)
    ensures |bytes| == PayloadLength(m)
  {
    match m
    case Request(n) => EncodeWord(n) + EncodeWord(SAMPLE_SIZE)
    case Wave(samples) => EncodeWords(samples)
    case Result(end, text) => [if end then 1 else 0] + text
  }

  function Header(m: Message): (bytes: seq<Byte>)
    requires Fits(m)
    ensures |bytes| == HEADER_SIZE
  {
    EncodeWord(PayloadLength(m)) + EncodeWord(TypeOf(m))
  }

  function Encode(m: Message): (bytes: seq<Byte>)
    requires Fits(m)
    ensures |bytes| == HEADER_SIZE + PayloadLength(m)
  {
    Header(m) + Payload(m)
  }

  /** What a reader makes of the first eight bytes. */
  function LengthIn(bytes: seq<Byte>): (n: Word)
    requires |bytes| >= HEADER_SIZE
  {
    DecodeWord(bytes[..4])
  }

  function TypeIn(bytes: seq<Byte>): (t: Word)
    requires |bytes| >= HEADER_SIZE
  {
    DecodeWord(bytes[4..8])
  }

  /** The samples of a payload, as many as fit. */
  function SamplesIn(payload: seq<Byte>): (samples: seq<Word>)
    ensures |samples| == |payload| / SAMPLE_SIZE
  {
    var count := |payload| / SAMPLE_SIZE;
    DecodeWords(payload[..SAMPLE_SIZE * count], count)
  }

  /** The first bytes of a message tell its type and its length. */
  lemma HeaderRead(m: Message, bytes: seq<Byte>)
    requires Fits(m) && HEADER_SIZE <= |bytes| <= |Encode(m)| && bytes == Encode(m)[..|bytes|]
    ensures LengthIn(bytes) == PayloadLength(m) == |Encode(m)| - HEADER_SIZE
    ensures DecodeWord(bytes[..4]) == PayloadLength(m)
    ensures DecodeWord(bytes[4..8]) == TypeIn(bytes) == TypeOf(m)
    ensures TypeOf(m) == match m case Wave(_) => 2 case Request(_) => 3 case Result(_, _) => 5
  {
    var length, t := EncodeWord(PayloadLength(m)), EncodeWord(TypeOf(m));
    assert bytes[..HEADER_SIZE] == length + t;
    assert bytes[..4] == length;
    assert bytes[4..8] == t;
    WordRoundTrip(PayloadLength(m));
    WordRoundTrip(TypeOf(m));
  }

  /** A complete request yields the number of samples asked for and their size, a complete wave its samples, and a
      complete result its end mark and its text. */
  lemma PayloadRead(m: Message)
    requires Fits(m)
    ensures m.Request? ==> DecodeWord(Encode(m)[8..12]) == m.numSamples
    ensures m.Request? ==> DecodeWord(Encode(m)[12..16]) == 4
    ensures m.Wave? ==> SamplesIn(Encode(m)[8..]) == m.samples
    ensures m.Result? ==> (Encode(m)[8] == if m.endUtterance then 1 else 0) && Encode(m)[9..] == m.text
  {
    if m.Request? {
      assert Encode(m)[8..12] == EncodeWord(m.numSamples);
      assert Encode(m)[12..16] == EncodeWord(SAMPLE_SIZE);
      WordRoundTrip(m.numSamples);
      WordRoundTrip(SAMPLE_SIZE);
    }
    if m.Wave? {
      var payload := EncodeWords(m.samples);
      assert Encode(m)[8..] == payload;
      assert payload[..4 * |m.samples|] == payload;
      WordsRoundTrip(m.samples);
    }
  }

  /** No two messages have the same bytes. */
  lemma EncodeIsInjective(m: Message, other: Message)
    requires Fits(m) && Fits(other) && Encode(m) == Encode(other)
    ensures m == other
  {
    HeaderRead(m, Encode(m));
    HeaderRead(other, Encode(other));
    PayloadRead(m);
    PayloadRead(other);
  }

  function EncodeAll(ms: seq<Message>): (bytes: seq<Byte>)
    requires forall i :: 0 <= i < |ms| ==> Fits(ms[i])
  {
    if ms == [] then [] else Encode(ms[0]) + EncodeAll(ms[1..])
  }

  lemma {:induction false} EncodeAllAppend(ms: seq<Message>, m: Message)
    requires (forall i :: 0 <= i < |ms| ==> Fits(ms[i])) && Fits(m)
    ensures EncodeAll(ms + [m]) == EncodeAll(ms) + Encode(m)
  {
    if ms == [] {
      assert (ms + [m])[1..] == [];
    } else {
      EncodeAllAppend(ms[1..], m);
      assert (ms + [m])[1..] == ms[1..] + [m];
    }
  }

  /** Bytes read off a stream of messages are the beginning of its first message, as long as they are no more
      than that. */
  lemma FirstMessage(ms: seq<Message>, got: seq<Byte>, rest: seq<Byte>)
    requires ms != [] && forall i :: 0 <= i < |ms| ==> Fits(ms[i])
    requires got + rest == EncodeAll(ms) && |got| <= |Encode(ms[0])|
    ensures got == Encode(ms[0])[..|got|]
    ensures |got| == |Encode(ms[0])| ==> got == Encode(ms[0]) && rest == EncodeAll(ms[1..])
  {
    var first := Encode(ms[0]);
    assert got == (got + rest)[..|got|];
    assert first[..|got|] == EncodeAll(ms)[..|got|];
    if |got| == |first| {
      assert rest == (got + rest)[|got|..];
      assert EncodeAll(ms[1..]) == EncodeAll(ms)[|first|..];
    }
  }

  // ----- Sending and receiving -----

  class Socket {
    /** The bytes that will still arrive, and those that have been sent. */
    var incoming: seq<Byte>
    var outgoing: seq<Byte>

    constructor (incoming: seq<Byte>)
      ensures this.incoming == incoming && outgoing == []
    {
      this.incoming, outgoing := incoming, [];
    }

    /** One call of `recv`: any number of bytes, at least one if any is left. */
    method Recv(length: nat) returns (bytes: seq<Byte>)
      requires length > 0
      modifies this`incoming
      ensures bytes + incoming == old(incoming) && |bytes| <= length
      ensures bytes == [] ==> incoming == []
    {
      if incoming == [] {
        return [];
      }
      var n: nat :| 0 < n <= length && n <= |incoming|;
      bytes := incoming[..n];
      incoming := incoming[n..];
    }

    /** Collects `length` bytes, however the stream is cut into pieces; it fails only if the stream ends before. */
    method Receive(length: nat) returns (data: seq<Byte>, ok: bool)
      modifies this`incoming
      ensures ok <==> length <= |old(incoming)|
      ensures ok ==> data == old(incoming)[..length] && incoming == old(incoming)[length..]
    {
      data := [];
      while |data| < length
        invariant |data| <= length && data + incoming == old(incoming)
        decreases length - |data|
      {
        var bytes := Recv(length - |data|);
        if |bytes| < 1 {
          return data, false;
        }
        data := data + bytes;
      }
      ok := true;
    }

    method Send(data: seq<Byte>)
      modifies this`outgoing
      ensures outgoing == old(outgoing) + data
    {
      outgoing := outgoing + data;
    }

    /** A header, then the payload. */
    method SendPacket(m: Message)
      requires Fits(m)
      modifies this`outgoing
      ensures outgoing == old(outgoing) + Encode(m)
    {
      Send(Header(m));
      Send(Payload(m));
    }
  }
}
