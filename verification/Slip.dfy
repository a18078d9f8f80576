/** SLIP octet stuffing, as in the PROTOCOL section of RFC 1055: FRAME delimits frames, and FRAME or ESCAPE
    inside a frame travels as a two-octet sequence. */
module Slip {
  import opened Crc

  const FRAME: Octet := 0xC0
  const ESCAPE: Octet := 0xDB
  const ESCAPE_FRAME: Octet := 0xDC
  const ESCAPE_ESCAPE: Octet := 0xDD

  // ---------- sending ----------

  function EncodeOctet(ch: Octet): seq<Octet> {
    if ch == FRAME then [ESCAPE, ESCAPE_FRAME]
    else if ch == ESCAPE then [ESCAPE, ESCAPE_ESCAPE]
    else [ch]
  }

  function Encode(s: seq<Octet>): seq<Octet> {
    if s == [] then [] else EncodeOctet(s[0]) + Encode(s[1..])
  }

  // ---------- receiving ----------

  /** One octet read from the UART. The receiver undoes an escape through a two-entry table which it indexes
      without a range check, so for any octet other than the two valid ones it reads whatever lies around the
      table: stray is that unspecified octet. */
  datatype Reading = Reading(value: Octet, stray: Octet)

  /** What an octet means to the receiver. */
  datatype Token = Plain(ch: Octet) | Boundary | Escaping

  function Deslip(r: Reading): Octet {
    if r.value == ESCAPE_FRAME then FRAME
    else if r.value == ESCAPE_ESCAPE then ESCAPE
    else r.stray
  }

  function Decode(escaped: bool, r: Reading): Token {
    if escaped then Plain(Deslip(r))
    else if r.value == FRAME then Boundary
    else if r.value == ESCAPE then Escaping
    else Plain(r.value)
  }

  /** What a receiver knows of the current frame: its escape flag, and the octets recovered since the last FRAME. */
  datatype Decoded = Decoded(escaped: bool, octets: seq<Octet>)

  function DecodeNext(d: Decoded, r: Reading): Decoded {
    match Decode(d.escaped, r)
    case Plain(ch) => Decoded(false, d.octets + [ch])
    case Boundary => Decoded(false, [])
    case Escaping => d.(escaped := true)
  }

  function DecodeAll(d: Decoded, input: seq<Reading>): Decoded
    decreases input
  {
    if input == [] then d else DecodeAll(DecodeNext(d, input[0]), input[1..])
  }

  /** The readings carry exactly these octets; what the stray octets are does not matter. */
  ghost predicate Carries(input: seq<Reading>, wire: seq<Octet>) {
    |input| == |wire| && forall i :: 0 <= i < |input| ==> input[i].value == wire[i]
  }

  // ---------- the codec ----------

  /** No FRAME octet is emitted inside a frame, and every ESCAPE is followed by one of the two escape codes. */
  lemma {:induction false} EncodeIsTransparent(s: seq<Octet>)
    ensures FRAME !in Encode(s)
    ensures forall i :: 0 <= i < |Encode(s)| && Encode(s)[i] == ESCAPE ==>
              i + 1 < |Encode(s)| && Encode(s)[i + 1] in {ESCAPE_FRAME, ESCAPE_ESCAPE}
  {
    if s != [] {
      EncodeIsTransparent(s[1..]);
      var e, t := EncodeOctet(s[0]), Encode(s[1..]);
      assert forall i :: |e| <= i < |Encode(s)| ==> Encode(s)[i] == t[i - |e|];
    }
  }

  /** Reading in two goes is the same as reading in one: the flag carries everything over. */
  lemma {:induction false} DecodeSplit(d: Decoded, a: seq<Reading>, b: seq<Reading>)
    ensures DecodeAll(d, a + b) == DecodeAll(DecodeAll(d, a), b)
    decreases a
  {
    hide DecodeNext;
    if a == [] {
      assert a + b == b;
    } else {
      DecodeSplit(DecodeNext(d, a[0]), a[1..], b);
      assert (a + b)[0] == a[0] && (a + b)[1..] == a[1..] + b;
    }
  }

  lemma CarriesSplit(input: seq<Reading>, a: seq<Octet>, b: seq<Octet>)
    requires Carries(input, a + b)
    ensures Carries(input[..|a|], a) && Carries(input[|a|..], b)
    ensures input == input[..|a|] + input[|a|..]
  {
    forall i | 0 <= i < |b| ensures input[|a|..][i].value == b[i] {
      assert input[|a| + i].value == (a + b)[|a| + i];
    }
  }

  lemma DecodeOctet(octets: seq<Octet>, ch: Octet, input: seq<Reading>)
    requires Carries(input, EncodeOctet(ch))
    ensures DecodeAll(Decoded(false, octets), input) == Decoded(false, octets + [ch])
  {
    if |input| == 2 {
      assert input[1..][1..] == [] && DecodeAll(Decoded(true, octets), input[1..]) == Decoded(false, octets + [ch]);
    }
  }

  /** The decoder recovers exactly the octets that were encoded, and ends with no escape pending. */
  lemma {:induction false} DecodeEncode(octets: seq<Octet>, s: seq<Octet>, input: seq<Reading>)
    requires Carries(input, Encode(s))
    ensures DecodeAll(Decoded(false, octets), input) == Decoded(false, octets + s)
    decreases s
  {
    hide EncodeOctet, DecodeNext, DecodeAll, Carries;
    if s == [] {
      assert Encode(s) == [];
      DecodeNothing(Decoded(false, octets), input);
      assert octets + s == octets;
    } else {
      var n := |EncodeOctet(s[0])|;
      CarriesSplit(input, EncodeOctet(s[0]), Encode(s[1..]));
      DecodeOctet(octets, s[0], input[..n]);
      DecodeEncode(octets + [s[0]], s[1..], input[n..]);
      DecodeSplit(Decoded(false, octets), input[..n], input[n..]);
      assert octets + [s[0]] + s[1..] == octets + s;
    }
  }

  lemma DecodeNothing(d: Decoded, input: seq<Reading>)
    requires Carries(input, [])
    ensures DecodeAll(d, input) == d
  {
  }

  /** Different octets have different encodings. */
  lemma EncodeInjective(s: seq<Octet>, t: seq<Octet>)
    requires Encode(s) == Encode(t)
    ensures s == t
  {
    var input := seq(|Encode(s)|, i requires 0 <= i < |Encode(s)| => Reading(Encode(s)[i], 0));
    DecodeEncode([], s, input);
    DecodeEncode([], t, input);
    assert [] + s == s && [] + t == t;
  }

  /** However the octets of a frame are split across polls, the pieces add up to the frame. */
  lemma DecodeEncodeInPieces(s: seq<Octet>, first: seq<Reading>, second: seq<Reading>)
    requires Carries(first + second, Encode(s))
    ensures DecodeAll(DecodeAll(Decoded(false, []), first), second) == Decoded(false, s)
  {
    DecodeEncode([], s, first + second);
    DecodeSplit(Decoded(false, []), first, second);
    assert [] + s == s;
  }
}
