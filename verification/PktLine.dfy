/** Reading the `main` revision out of a smart-HTTP `info/refs` body
    (src/upstream.rs), a stream of pkt-lines as gitprotocol-common defines them
    in its section "pkt-line Format". */
module PktLine {
  import opened Basics

  datatype UpstreamError = InvalidResponse | NoMainRef

  const SHA1_HEX_LEN := 40
  const SPACE: byte := 0x20
  const NEWLINE: byte := 0x0A
  const PLUS: byte := 0x2B

  /** " refs/heads/main" */
  const MAIN_REF: Bytes :=
    [0x20, 0x72, 0x65, 0x66, 0x73, 0x2F, 0x68, 0x65, 0x61, 0x64, 0x73, 0x2F, 0x6D, 0x61, 0x69, 0x6E]

  // ------------------------------------------------------------ hexadecimal

  predicate IsHexDigit(b: byte) {
    0x30 <= b <= 0x39 || 0x41 <= b <= 0x46 || 0x61 <= b <= 0x66
  }

  function HexValue(b: byte): (v: nat)
    requires IsHexDigit(b)
    ensures v < 16
  {
    if b <= 0x39 then b as nat - 0x30
    else if b <= 0x46 then b as nat - 0x41 + 10
    else b as nat - 0x61 + 10
  }

  /** Digits and letters of both cases, each worth its place among the sixteen. */
  lemma HexValueMeans(b: byte, i: nat)
    requires i < 16
    ensures IsHexDigit(b) <==> (b as int) as char in "0123456789abcdefABCDEF"
    ensures (b as int) as char == "0123456789abcdef"[i] ==> IsHexDigit(b) && HexValue(b) == i
    ensures (b as int) as char == "0123456789ABCDEF"[i] ==> IsHexDigit(b) && HexValue(b) == i
  {
    var c, all := (b as int) as char, "0123456789abcdefABCDEF";
    if IsHexDigit(b) {
      assert c == all[if b <= 0x39 then b as int - 0x30 else if b <= 0x46 then b as int - 0x41 + 16 else b as int - 0x61 + 10];
    }
  }

  function HexDigit(v: nat): (b: byte)
    requires v < 16
    ensures IsHexDigit(b) && HexValue(b) == v && b != PLUS
  {
    if v < 10 then (v + 0x30) as byte else (v - 10 + 0x61) as byte
  }

  function DigitsValue(s: Bytes): Option<nat> {
    if s == [] then Some(0)
    else if !IsHexDigit(s[|s| - 1]) then None
    else match DigitsValue(s[..|s| - 1])
      case None => None
      case Some(v) => Some(v * 16 + HexValue(s[|s| - 1]))
  }

  /** `u32::from_str_radix(_, 16)` on four bytes: one leading plus sign is let
      through, anything but hex digits after it is not. */
  function ParseLength(s: Bytes): Option<nat>
    requires |s| == 4
  {
    if s[0] == PLUS then DigitsValue(s[1..]) else DigitsValue(s)
  }

  /** Four hex digits are read as a number, most significant first, and so are
      three after a plus sign; nothing else is a length. */
  lemma LengthMeans(s: Bytes)
    requires |s| == 4
    ensures
      if IsHexDigit(s[1]) && IsHexDigit(s[2]) && IsHexDigit(s[3]) && (IsHexDigit(s[0]) || s[0] == 0x2B) then
        ParseLength(s) == Some((if s[0] == 0x2B then 0 else 0x1000 * HexValue(s[0]))
          + 0x100 * HexValue(s[1]) + 0x10 * HexValue(s[2]) + HexValue(s[3]))
      else ParseLength(s) == None
  {
    hide IsHexDigit, HexValue;
    var t := if s[0] == PLUS then s[1..] else s;
    var n := |t|;
    assert t[..n - 1][..n - 2] == t[..n - 2] && t[..n - 2][..n - 3] == t[..n - 3];
    DigitsOf(t);
    DigitsOf(t[..n - 1]);
    DigitsOf(t[..n - 2]);
    if s[0] == PLUS {
      assert t[..n - 3] == [];
    } else {
      DigitsOf(t[..n - 3]);
      assert t[..n - 3][..0] == [];
    }
  }

  lemma DigitsOf(s: Bytes)
    requires s != []
    ensures DigitsValue([]) == Some(0)
    ensures var rest := DigitsValue(s[..|s| - 1]);
      DigitsValue(s) == if IsHexDigit(s[|s| - 1]) && rest.Some? then Some(rest.value * 16 + HexValue(s[|s| - 1])) else None
  {
  }

  lemma MainRefMeans()
    ensures |MAIN_REF| == |" refs/heads/main"|
    ensures forall i :: 0 <= i < |MAIN_REF| ==> (MAIN_REF[i] as int) as char == " refs/heads/main"[i]
  {
  }

  function EncodeLength(n: nat): (s: Bytes)
    requires n < 0x1_0000
    ensures |s| == 4
  {
    [HexDigit(n / 0x1000), HexDigit(n / 0x100 % 16), HexDigit(n / 16 % 16), HexDigit(n % 16)]
  }

  lemma ParseEncodedLength(n: nat)
    requires n < 0x1_0000
    ensures ParseLength(EncodeLength(n)) == Some(n)
  {
    var a, b, c, d := n / 0x1000, n / 0x100 % 16, n / 16 % 16, n % 16;
    var one, two, three := [HexDigit(a)], [HexDigit(a), HexDigit(b)], [HexDigit(a), HexDigit(b), HexDigit(c)];
    DigitsAppend([], a);
    assert [] + [HexDigit(a)] == one;
    DigitsAppend(one, b);
    assert one + [HexDigit(b)] == two;
    DigitsAppend(two, c);
    assert two + [HexDigit(c)] == three;
    DigitsAppend(three, d);
    assert three + [HexDigit(d)] == EncodeLength(n);
    DigitsOfNumber(n);
  }

  lemma DigitsOfNumber(n: nat)
    ensures ((n / 0x1000 * 16 + n / 0x100 % 16) * 16 + n / 16 % 16) * 16 + n % 16 == n
  {
    assert n / 0x1000 == n / 0x100 / 16 && n / 0x100 == n / 16 / 16;
  }

  lemma DigitsAppend(s: Bytes, v: nat)
    requires v < 16 && DigitsValue(s).Some?
    ensures DigitsValue(s + [HexDigit(v)]) == Some(DigitsValue(s).value * 16 + v)
  {
    assert (s + [HexDigit(v)])[..|s|] == s;
  }

  // ---------------------------------------------------------------- packets

  /** A flush packet or a pkt-line with its payload. */
  datatype Pkt = Flush | Line(payload: Bytes)

  predicate Encodable(p: Pkt) {
    p.Line? ==> |p.payload| + 4 < 0x1_0000
  }

  function Encode(p: Pkt): Bytes
    requires Encodable(p)
  {
    match p
    case Flush => EncodeLength(0)
    case Line(payload) => EncodeLength(|payload| + 4) + payload
  }

  function EncodeAll(pkts: seq<Pkt>): Bytes
    requires forall p <- pkts :: Encodable(p)
  {
    if pkts == [] then [] else Encode(pkts[0]) + EncodeAll(pkts[1..])
  }

  // ------------------------------------------------------------------- refs

  function StripNewline(payload: Bytes): Bytes {
    if payload != [] && payload[|payload| - 1] == NEWLINE then payload[..|payload| - 1] else payload
  }

  /** The index of the first space, or the length. */
  function FirstSpace(s: Bytes): (i: nat)
    ensures i <= |s|
    ensures i < |s| ==> s[i] == SPACE
    ensures forall j :: 0 <= j < i ==> s[j] != SPACE
  {
    if s == [] then 0 else if s[0] == SPACE then 0 else FirstSpace(s[1..]) + 1
  }

  predicate IsSha1(revision: Bytes) {
    |revision| == SHA1_HEX_LEN && forall b <- revision :: IsHexDigit(b)
  }

  /** What one payload says: nothing, or the revision of `main`, or garbage. */
  function RefOf(payload: Bytes): Option<Result<Bytes, UpstreamError>> {
    var line := StripNewline(payload);
    var space := FirstSpace(line);
    if space == |line| || line[space..] != MAIN_REF then None
    else if !IsSha1(line[..space]) then Some(Err(InvalidResponse))
    else Some(Ok(line[..space]))
  }

  /** The payload is `revision`, then " refs/heads/main", then a newline or
      nothing; a revision has no space. */
  predicate NamesMain(payload: Bytes, revision: Bytes) {
    0x20 !in revision && (payload == revision + MAIN_REF || payload == revision + MAIN_REF + [0x0A])
  }

  lemma NamedIsRead(payload: Bytes, revision: Bytes)
    requires NamesMain(payload, revision)
    ensures RefOf(payload) == Some(if IsSha1(revision) then Ok(revision) else Err(InvalidResponse))
  {
    var line := revision + MAIN_REF;
    assert line[|revision|] == SPACE && line[|line| - 1] == 0x6E;
    forall j | 0 <= j < |revision| ensures revision[j] != SPACE {
      assert revision[j] in revision;
    }
    SpaceAt(line, |revision|);
    assert line[|revision|..] == MAIN_REF && line[..|revision|] == revision;
    assert (line + [NEWLINE])[..|line|] == line;
    hide IsSha1;
    assert StripNewline(payload) == line;
  }

  lemma ReadIsNamed(payload: Bytes)
    requires RefOf(payload).Some?
    ensures exists revision :: NamesMain(payload, revision)
  {
    hide IsSha1;
    var line := StripNewline(payload);
    var space := FirstSpace(line);
    var revision := line[..space];
    assert line == revision + MAIN_REF;
    assert payload == line || payload == line + [NEWLINE];
    assert NamesMain(payload, revision);
  }

  /** A payload that names `main` gives its revision when that is forty hex
      digits and the error when it is not; no other payload gives anything. */
  lemma RefOfIff(payload: Bytes)
    ensures forall revision :: RefOf(payload) == Some(Ok(revision)) <==>
      NamesMain(payload, revision) && |revision| == 40 && forall b <- revision :: IsHexDigit(b)
    ensures RefOf(payload) == Some(Err(InvalidResponse)) <==>
      exists revision :: NamesMain(payload, revision) && !(|revision| == 40 && forall b <- revision :: IsHexDigit(b))
    ensures RefOf(payload) == None <==> forall revision :: !NamesMain(payload, revision)
  {
    hide RefOf, NamesMain;
    forall revision | NamesMain(payload, revision)
      ensures RefOf(payload) == Some(if IsSha1(revision) then Ok(revision) else Err(InvalidResponse))
    {
      NamedIsRead(payload, revision);
    }
    if RefOf(payload).Some? {
      ReadIsNamed(payload);
    }
  }

  lemma SpaceAt(s: Bytes, i: nat)
    requires i < |s| && s[i] == SPACE && forall j :: 0 <= j < i ==> s[j] != SPACE
    ensures FirstSpace(s) == i
  {
    var k := FirstSpace(s);
    assert k < |s| ==> s[k] == SPACE;
  }

  /** The revision named by the first packet that names `main` at all. */
  function FirstMain(pkts: seq<Pkt>): Result<Bytes, UpstreamError> {
    if pkts == [] then Err(NoMainRef)
    else if pkts[0].Flush? || RefOf(pkts[0].payload).None? then FirstMain(pkts[1..])
    else RefOf(pkts[0].payload).value
  }

  /** A packet that names `main` with this revision. */
  predicate PktNames(p: Pkt, revision: Bytes) {
    p.Line? && NamesMain(p.payload, revision)
  }

  /** The first packet that names `main` decides, by its revision. */
  lemma {:induction false} FirstMainMeans(pkts: seq<Pkt>, k: nat, revision: Bytes)
    requires k < |pkts| && PktNames(pkts[k], revision)
    requires forall i, other :: 0 <= i < k ==> !PktNames(pkts[i], other)
    ensures FirstMain(pkts) ==
      if |revision| == 40 && forall b <- revision :: IsHexDigit(b) then Ok(revision) else Err(InvalidResponse)
    decreases k
  {
    hide RefOf, NamesMain;
    if k == 0 {
      NamedIsRead(pkts[0].payload, revision);
    } else {
      NotNamedIsSkipped(pkts);
      forall i, other | 0 <= i < k - 1 ensures !PktNames(pkts[1..][i], other) {
        assert !PktNames(pkts[i + 1], other);
      }
      FirstMainMeans(pkts[1..], k - 1, revision);
    }
  }

  lemma NotNamedIsSkipped(pkts: seq<Pkt>)
    requires pkts != [] && forall other :: !PktNames(pkts[0], other)
    ensures FirstMain(pkts) == FirstMain(pkts[1..])
  {
    hide RefOf, NamesMain;
    if pkts[0].Line? {
      RefOfIff(pkts[0].payload);
      forall other ensures !NamesMain(pkts[0].payload, other) {
        assert !PktNames(pkts[0], other);
      }
    }
  }

  lemma {:induction false} NoMainMeans(pkts: seq<Pkt>)
    requires forall i, other :: 0 <= i < |pkts| ==> !PktNames(pkts[i], other)
    ensures FirstMain(pkts) == Err(NoMainRef)
    decreases |pkts|
  {
    if pkts != [] {
      NotNamedIsSkipped(pkts);
      forall i, other | 0 <= i < |pkts[1..]| ensures !PktNames(pkts[1..][i], other) {
        assert !PktNames(pkts[i + 1], other);
      }
      NoMainMeans(pkts[1..]);
    }
  }

  // ----------------------------------------------------------------- reader

  /** One turn of the reader: the body is garbage here, the next packet starts
      at `next`, or the revision is decided. */
  datatype Turn = Garbage | Next(next: nat) | Decided(result: Result<Bytes, UpstreamError>)

  function TurnAt(body: Bytes, offset: nat): (t: Turn)
    requires offset < |body|
    ensures t.Next? ==> offset + 4 <= t.next <= |body|
  {
    if |body| - offset < 4 then Garbage
    else match ParseLength(body[offset..offset + 4])
      case None => Garbage
      case Some(length) =>
        if length == 0 then Next(offset + 4)
        else if length < 4 || offset + length > |body| then Garbage
        else PayloadTurn(body[offset + 4..offset + length], offset + length)
  }

  function PayloadTurn(payload: Bytes, next: nat): Turn {
    match RefOf(payload)
    case None => Next(next)
    case Some(r) => Decided(r)
  }

  /** What the reader makes of the body from an offset on. */
  function ReadAt(body: Bytes, offset: nat): Result<Bytes, UpstreamError>
    requires offset <= |body|
    decreases |body| - offset
  {
    if offset == |body| then Err(NoMainRef)
    else match TurnAt(body, offset)
      case Garbage => Err(InvalidResponse)
      case Next(next) => ReadAt(body, next)
      case Decided(r) => r
  }

  /** A stretch of a body with a length that fits it, in whatever digits. */
  datatype Frame = Frame(header: Bytes, payload: Bytes)

  predicate Fits(f: Frame) {
    && |f.header| == 4
    && match ParseLength(f.header)
       case None => false
       case Some(n) => (n == 0 && f.payload == []) || n == |f.payload| + 4
  }

  function PktOf(f: Frame): Pkt
    requires Fits(f)
  {
    if ParseLength(f.header) == Some(0) then Flush else Line(f.payload)
  }

  lemma TurnOfFrame(before: Bytes, f: Frame, rest: Bytes)
    requires Fits(f)
    ensures var body, at, next := before + (f.header + f.payload) + rest, |before|, |before| + 4 + |f.payload|;
      TurnAt(body, at) == if PktOf(f).Flush? then Next(next) else PayloadTurn(f.payload, next)
  {
    hide PayloadTurn, ParseLength;
    var body, at := before + (f.header + f.payload) + rest, |before|;
    assert body[at..at + 4] == f.header;
    assert body[at + 4..at + 4 + |f.payload|] == f.payload;
  }

  lemma TurnOfEncoded(before: Bytes, p: Pkt, rest: Bytes)
    requires Encodable(p)
    ensures var body, at, next := before + Encode(p) + rest, |before|, |before| + |Encode(p)|;
      TurnAt(body, at) == if p.Flush? then Next(next) else PayloadTurn(p.payload, next)
  {
    hide PayloadTurn, DigitsValue, ParseLength, EncodeLength, TurnAt;
    var n := if p.Flush? then 0 else |p.payload| + 4;
    var f := Frame(EncodeLength(n), if p.Flush? then [] else p.payload);
    ParseEncodedLength(n);
    assert Fits(f) && f.header + f.payload == Encode(p);
    TurnOfFrame(before, f, rest);
  }

  /** One turn of the reader over the encoding of a packet. */
  lemma ReadOnePacket(before: Bytes, p: Pkt, rest: Bytes)
    requires Encodable(p)
    ensures var body, next := before + Encode(p) + rest, |before + Encode(p)|;
      ReadAt(body, |before|) ==
        if p.Flush? || RefOf(p.payload).None? then ReadAt(body, next) else RefOf(p.payload).value
  {
    hide RefOf, ParseLength, TurnAt;
    TurnOfEncoded(before, p, rest);
  }

  /** After anything that was read before, the reader finds in the encoding of
      any packets what the packets say. */
  lemma {:induction false} ReadEncodedAt(before: Bytes, pkts: seq<Pkt>)
    requires forall p <- pkts :: Encodable(p)
    ensures ReadAt(before + EncodeAll(pkts), |before|) == FirstMain(pkts)
    decreases |pkts|
  {
    hide RefOf, TurnAt, Encode;
    if pkts != [] {
      var first, rest := Encode(pkts[0]), EncodeAll(pkts[1..]);
      assert before + (first + rest) == before + first + rest;
      ReadOnePacket(before, pkts[0], rest);
      ReadEncodedAt(before + first, pkts[1..]);
    }
  }

  /** The reader inverts the encoding: of the body made of any packets it gives
      the revision of the first payload named `main`, the error when that
      revision is none, and `NoMainRef` when there is no such payload. */
  lemma ReadEncoded(pkts: seq<Pkt>)
    requires forall p <- pkts :: Encodable(p)
    ensures ReadAt(EncodeAll(pkts), 0) == FirstMain(pkts)
  {
    ReadEncodedAt([], pkts);
    assert [] + EncodeAll(pkts) == EncodeAll(pkts);
  }

  // ------------------------------------------------------------ every body

  function PktsOf(frames: seq<Frame>): (r: seq<Pkt>)
    requires forall f <- frames :: Fits(f)
    ensures |r| == |frames| && forall i :: 0 <= i < |r| ==> r[i] == PktOf(frames[i])
  {
    seq(|frames|, i requires 0 <= i < |frames| && Fits(frames[i]) => PktOf(frames[i]))
  }

  function Body(frames: seq<Frame>): Bytes {
    if frames == [] then [] else frames[0].header + frames[0].payload + Body(frames[1..])
  }

  /** What no packet can start with: less than four bytes, no length, a length
      that does not cover itself, or one beyond the end. */
  predicate Malformed(rest: Bytes) {
    && rest != []
    && (|| |rest| < 4
        || (match ParseLength(rest[..4])
            case None => true
            case Some(n) => 1 <= n <= 3 || n > |rest|))
  }

  lemma TurnOfMalformed(before: Bytes, rest: Bytes)
    requires Malformed(rest)
    ensures TurnAt(before + rest, |before|) == Garbage
  {
    hide ParseLength;
    var body, at := before + rest, |before|;
    if |rest| >= 4 {
      assert body[at..at + 4] == rest[..4];
    }
  }

  /** Of every body: the first packet that names `main` decides; without one the
      end of the body gives `NoMainRef`, and what is no packet gives the error. */
  lemma {:induction false} ReadFramesAt(before: Bytes, frames: seq<Frame>, rest: Bytes)
    requires (forall f <- frames :: Fits(f)) && (rest == [] || Malformed(rest))
    ensures var first := FirstMain(PktsOf(frames));
      ReadAt(before + Body(frames) + rest, |before|) ==
        if first != Err(NoMainRef) then first else if rest == [] then Err(NoMainRef) else Err(InvalidResponse)
    decreases |frames|
  {
    hide RefOf, TurnAt, Fits, PktOf, Malformed;
    if frames == [] {
      assert before + Body(frames) + rest == before + rest;
      if rest != [] {
        RestIsThere(rest);
        TurnOfMalformed(before, rest);
      }
    } else {
      var f, tail := frames[0], frames[1..];
      var whole := f.header + f.payload;
      assert Fits(f);
      assert before + Body(frames) + rest == before + whole + (Body(tail) + rest);
      assert before + Body(frames) + rest == (before + whole) + Body(tail) + rest;
      TurnOfFrame(before, f, Body(tail) + rest);
      FrameLength(f);
      ReadFramesAt(before + whole, tail, rest);
      assert PktsOf(frames)[1..] == PktsOf(tail);
      NoRefIsNoMain(f);
    }
  }

  lemma RestIsThere(rest: Bytes)
    requires Malformed(rest)
    ensures |rest| > 0
  {
  }

  lemma FrameLength(f: Frame)
    requires Fits(f)
    ensures |f.header| == 4 && (PktOf(f).Line? ==> PktOf(f).payload == f.payload)
  {
  }

  lemma NoRefIsNoMain(f: Frame)
    requires Fits(f)
    ensures forall r :: RefOf(f.payload) == Some(r) ==> r != Err(NoMainRef)
  {
  }

  lemma ReadFrames(frames: seq<Frame>, rest: Bytes)
    requires (forall f <- frames :: Fits(f)) && (rest == [] || Malformed(rest))
    ensures var first := FirstMain(PktsOf(frames));
      ReadAt(Body(frames) + rest, 0) ==
        if first != Err(NoMainRef) then first else if rest == [] then Err(NoMainRef) else Err(InvalidResponse)
  {
    ReadFramesAt([], frames, rest);
    assert [] + Body(frames) == Body(frames);
  }

  /** Every body is of this kind. */
  lemma {:induction false} EveryBodySplits(body: Bytes) returns (frames: seq<Frame>, rest: Bytes)
    ensures body == Body(frames) + rest && (forall f <- frames :: Fits(f)) && (rest == [] || Malformed(rest))
    decreases |body|
  {
    if body == [] || Malformed(body) {
      return [], body;
    }
    var n := ParseLength(body[..4]).value;
    var end := if n == 0 then 4 else n;
    var f := Frame(body[..4], body[4..end]);
    frames, rest := EveryBodySplits(body[end..]);
    assert body == f.header + f.payload + body[end..];
    var more := frames;
    frames := [f] + frames;
    assert frames[1..] == more;
  }

  /** The program's loop: an offset into the body that strictly grows. */
  method ParseMainRevFromInfoRefs(body: Bytes) returns (r: Result<Bytes, UpstreamError>)
    ensures r == ReadAt(body, 0)
  {
    var offset := 0;
    while offset < |body|
      invariant 0 <= offset <= |body|
      invariant ReadAt(body, offset) == ReadAt(body, 0)
      decreases |body| - offset
    {
      var turn := TakeTurn(body, offset);
      match turn {
        case Garbage => return Err(InvalidResponse);
        case Next(next) => offset := next;
        case Decided(result) => return result;
      }
    }
    return Err(NoMainRef);
  }

  method TakeTurn(body: Bytes, offset: nat) returns (turn: Turn)
    requires offset < |body|
    ensures turn == TurnAt(body, offset)
  {
    hide PayloadTurn, ParseLength;
    if |body| - offset < 4 {
      return Garbage;
    }
    var parsed := ParseLength(body[offset..offset + 4]);
    if parsed.None? {
      return Garbage;
    }
    var length := parsed.value;
    if length == 0 {
      return Next(offset + 4);
    }
    if length < 4 || offset + length > |body| {
      return Garbage;
    }
    return PayloadTurn(body[offset + 4..offset + length], offset + length);
  }

  lemma {:induction false} RevisionsAreSha1(body: Bytes, offset: nat)
    requires offset <= |body|
    ensures ReadAt(body, offset).Ok? ==>
      |ReadAt(body, offset).value| == 40 && forall b <- ReadAt(body, offset).value :: IsHexDigit(b)
    decreases |body| - offset
  {
    if offset < |body| && TurnAt(body, offset).Next? {
      RevisionsAreSha1(body, TurnAt(body, offset).next);
    }
  }
}
