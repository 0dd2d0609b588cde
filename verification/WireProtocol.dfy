/**
  The matchmaking frames: what the server parses and builds, and what the command-line client builds and
  takes apart.
 */
module WireProtocol {
  import opened Options
  import opened Bits
  import opened Sequences
  import opened QueueEntry
  import opened Utf8

  const MATCHMAKING_ENTER: byte := 0xfa
  const MATCHMAKING_STATUS: byte := 0xf8
  const MATCHMAKING_FOUND: byte := 0xf7
  const MAX_TICKET_BYTES := 64
  const MAX_OPPONENT_NAME_BYTES := 32
  const MAX_MATCH_ID_BYTES := 64

  datatype RejectionReason =
    | InvalidTicket | NotAuthenticated | AlreadyAuthenticated | UnknownFormat | UnsupportedMode | MalformedFrame
    | RateLimited | ReplacedByNewConnection | MissingPlayerInfo | Banned | InternalError | CancelTooLate
    | AlreadyQueued | VersionMismatch | UnknownMatch | Declined | AcceptTimeout

  datatype StatusState = Searching | Cancelled | Rejected | Replaced | Authenticated

  datatype ParseResult<T> = Parsed(value: T) | Refused(reason: RejectionReason)

  // ---- code tables -----------------------------------------------------------------------------------

  function FormatCode(f: Format): byte { match f case Tcg => 0 case Jtp => 1 case Edison => 2 }
  function FormatByCode(code: byte): Option<Format> {
    if code == 0 then Some(Tcg) else if code == 1 then Some(Jtp) else if code == 2 then Some(Edison) else None
  }
  function ModeByCode(code: byte): Option<Mode> { if code == 0 then Some(Ranked) else None }

  function StateCode(s: StatusState): byte {
    match s
    case Searching => 0
    case Cancelled => 1
    case Rejected => 2
    case Replaced => 3
    case Authenticated => 4
  }

  function ReasonCode(r: Option<RejectionReason>): byte {
    match r
    case None => 0
    case Some(InvalidTicket) => 1
    case Some(NotAuthenticated) => 2
    case Some(AlreadyAuthenticated) => 3
    case Some(UnknownFormat) => 4
    case Some(UnsupportedMode) => 5
    case Some(MalformedFrame) => 6
    case Some(RateLimited) => 7
    case Some(ReplacedByNewConnection) => 8
    case Some(MissingPlayerInfo) => 9
    case Some(Banned) => 10
    case Some(InternalError) => 11
    case Some(CancelTooLate) => 12
    case Some(AlreadyQueued) => 13
    case Some(VersionMismatch) => 14
    case Some(UnknownMatch) => 15
    case Some(Declined) => 16
    case Some(AcceptTimeout) => 17
  }

  function OpponentCode(o: Opponent): byte { match o case Human => 0 case Bot => 1 }

  const STATES := [Searching, Cancelled, Rejected, Replaced, Authenticated]
  const REASONS := [None, Some(InvalidTicket), Some(NotAuthenticated), Some(AlreadyAuthenticated), Some(UnknownFormat),
                    Some(UnsupportedMode), Some(MalformedFrame), Some(RateLimited), Some(ReplacedByNewConnection),
                    Some(MissingPlayerInfo), Some(Banned), Some(InternalError), Some(CancelTooLate), Some(AlreadyQueued),
                    Some(VersionMismatch), Some(UnknownMatch), Some(Declined), Some(AcceptTimeout)]

  /** What the client reads back from a code: the name it inverts to, or the code itself. */
  datatype Named<T> = Known(value: T) | Unknown(code: byte)

  function StateByCode(code: byte): Named<StatusState> {
    if code < 5 then Known(STATES[code]) else Unknown(code)
  }

  function ReasonByCode(code: byte): Named<Option<RejectionReason>> {
    if code < 18 then Known(REASONS[code]) else Unknown(code)
  }

  function OpponentByCode(code: byte): Named<Opponent> {
    if code == 0 then Known(Human) else if code == 1 then Known(Bot) else Unknown(code)
  }

  lemma CodesInvert(s: StatusState, r: Option<RejectionReason>, o: Opponent)
    ensures StateByCode(StateCode(s)) == Known(s)
    ensures ReasonByCode(ReasonCode(r)) == Known(r)
    ensures OpponentByCode(OpponentCode(o)) == Known(o)
  {
    match r {
      case None =>
      case Some(reason) => match reason { case InvalidTicket => case _ => }
    }
  }

  // ---- numbers -----------------------------------------------------------------------------------------

  function U16(v: nat): (r: seq<byte>)
    requires v < 0x1_0000
    ensures |r| == 2
  {
    [v % 256, v / 256]
  }

  function U32(v: nat): (r: seq<byte>)
    requires v < TWO_32
    ensures |r| == 4
  {
    U16(v % 0x1_0000) + U16(v / 0x1_0000)
  }

  lemma NumbersRecovered(v: nat, rest: seq<byte>)
    ensures v < 0x1_0000 ==> Unsigned16(U16(v) + rest) == v
    ensures v < TWO_32 ==> Unsigned32(U32(v) + rest) == v
  {
    if v < TWO_32 {
      var low, high := v % 0x1_0000, v / 0x1_0000;
      var b := U32(v) + rest;
      assert b[2..] == U16(high) + rest;
      assert b[0] == U16(low)[0] && b[1] == U16(low)[1];
      assert Unsigned16(b) == low && Unsigned16(b[2..]) == high;
    }
  }

  /** Reading two or four bytes and writing them gives them back. */
  lemma BytesRecovered(b: seq<byte>)
    ensures |b| == 2 ==> Unsigned16(b) < 0x1_0000 && U16(Unsigned16(b)) == b
    ensures |b| == 4 ==> Unsigned32(b) < TWO_32 && U32(Unsigned32(b)) == b
  {
    if |b| == 4 {
      var low, high := Unsigned16(b[..2]), Unsigned16(b[2..]);
      assert Unsigned16(b) == low && Unsigned32(b) == low + 0x1_0000 * high;
      assert low < 0x1_0000 && high < 0x1_0000;
      assert Unsigned32(b) % 0x1_0000 == low && Unsigned32(b) / 0x1_0000 == high;
      assert U16(low) == b[..2] && U16(high) == b[2..];
      assert b == b[..2] + b[2..];
    }
  }

  // ---- frames --------------------------------------------------------------------------------------------

  datatype WireFrame = WireFrame(opcode: byte, body: seq<byte>)

  /** A size that does not fit two bytes cannot be written. */
  predicate FrameFits(body: seq<byte>) {
    1 + |body| < 0x1_0000
  }

  function BuildFrame(opcode: byte, body: seq<byte>): seq<byte>
    requires FrameFits(body)
  {
    U16(1 + |body|) + [opcode] + body
  }

  function BuildAll(frames: seq<WireFrame>): seq<byte>
    requires forall f :: f in frames ==> FrameFits(f.body)
  {
    if frames == [] then [] else BuildFrame(frames[0].opcode, frames[0].body) + BuildAll(frames[1..])
  }

  /** No whole frame starts here: too few bytes, or a size no frame has. */
  predicate Stops(b: seq<byte>) {
    |b| < 2 || Unsigned16(b) < 1 || |b| < 2 + Unsigned16(b)
  }

  datatype Taken = Taken(frames: seq<WireFrame>, rest: seq<byte>)

  function TakenFrom(b: seq<byte>): Taken
    decreases |b|
  {
    if Stops(b) then Taken([], b)
    else
      var size := Unsigned16(b);
      var later := TakenFrom(b[2 + size..]);
      Taken([WireFrame(b[2], b[3..2 + size])] + later.frames, later.rest)
  }

  method TakeFrames(buffer: seq<byte>) returns (frames: seq<WireFrame>, consumed: nat)
    ensures consumed <= |buffer| && Taken(frames, buffer[consumed..]) == TakenFrom(buffer)
  {
    hide TakenFrom, Unsigned16, Stops;
    frames := [];
    var offset := 0;
    assert buffer[0..] == buffer;
    while |buffer| - offset >= 2
      invariant offset <= |buffer|
      invariant var later := TakenFrom(buffer[offset..]);
                Taken(frames + later.frames, later.rest) == TakenFrom(buffer)
      decreases |buffer| - offset
    {
      var size := Unsigned16(buffer[offset..]);
      StopsExactly(buffer[offset..]);
      if size < 1 || |buffer| - offset < 2 + size {
        break;
      }
      NextFrame(buffer, offset, frames);
      frames := frames + [WireFrame(buffer[offset + 2], buffer[offset + 3..offset + 2 + size])];
      offset := offset + 2 + size;
    }
    StopsExactly(buffer[offset..]);
    assert frames + [] == frames;
    consumed := offset;
  }

  lemma StopsExactly(b: seq<byte>)
    ensures Stops(b) <==> |b| < 2 || Unsigned16(b) < 1 || |b| < 2 + Unsigned16(b)
    ensures Stops(b) ==> TakenFrom(b) == Taken([], b)
  {
  }

  lemma NextFrame(buffer: seq<byte>, offset: nat, frames: seq<WireFrame>)
    requires offset <= |buffer| && !Stops(buffer[offset..])
    ensures var b := buffer[offset..];
            var size := Unsigned16(b);
            var f := WireFrame(buffer[offset + 2], buffer[offset + 3..offset + 2 + size]);
            var later := TakenFrom(buffer[offset + 2 + size..]);
            frames + TakenFrom(b).frames == frames + [f] + later.frames && TakenFrom(b).rest == later.rest
  {
    var b := buffer[offset..];
    var size := Unsigned16(b);
    assert b[2 + size..] == buffer[offset + 2 + size..];
    assert b[3..2 + size] == buffer[offset + 3..offset + 2 + size];
  }

  lemma FrameHead(f: WireFrame, rest: seq<byte>)
    requires FrameFits(f.body)
    ensures var b, size := BuildFrame(f.opcode, f.body) + rest, 1 + |f.body|;
            && !Stops(b) && Unsigned16(b) == size && 2 + size <= |b|
            && b[2] == f.opcode && b[3..2 + size] == f.body && b[2 + size..] == rest
  {
    var b, size := BuildFrame(f.opcode, f.body) + rest, 1 + |f.body|;
    NumbersRecovered(size, [f.opcode] + f.body + rest);
    assert b == U16(size) + ([f.opcode] + f.body + rest);
    hide U16, Unsigned16;
    assert |BuildFrame(f.opcode, f.body)| == 2 + size;
    assert b[2 + size..] == rest;
    assert b[3..2 + size] == f.body;
  }

  /** Frames in, frames out, and what is not a whole frame stays. */
  lemma {:induction false} FramesRecovered(frames: seq<WireFrame>, rest: seq<byte>)
    requires (forall f :: f in frames ==> FrameFits(f.body)) && Stops(rest)
    ensures TakenFrom(BuildAll(frames) + rest) == Taken(frames, rest)
  {
    if frames == [] {
      assert BuildAll(frames) + rest == rest;
    } else {
      var later := BuildAll(frames[1..]) + rest;
      assert BuildAll(frames) + rest == BuildFrame(frames[0].opcode, frames[0].body) + later;
      FrameHead(frames[0], later);
      FramesRecovered(frames[1..], rest);
      assert frames == [frames[0]] + frames[1..];
      hide Stops, BuildFrame, Unsigned16, BuildAll;
    }
  }

  // ---- STATUS -----------------------------------------------------------------------------------------------

  function StatusBody(s: StatusState, waitedMs: nat, reason: Option<RejectionReason>): (r: seq<byte>)
    requires waitedMs < TWO_32
    ensures |r| == 6
  {
    [StateCode(s)] + U32(waitedMs) + [ReasonCode(reason)]
  }

  datatype Status = Status(state: Named<StatusState>, waitedMs: nat, reason: Named<Option<RejectionReason>>) | MalformedStatus(size: nat)

  function DescribeStatus(body: seq<byte>): Status {
    if |body| != 6 then MalformedStatus(|body|)
    else Status(StateByCode(body[0]), Unsigned32(body[1..]), ReasonByCode(body[5]))
  }

  /** Any STATUS the server builds, the client takes off the stream and reads as it was meant. */
  lemma StatusRecovered(s: StatusState, waitedMs: nat, reason: Option<RejectionReason>, rest: seq<byte>)
    requires waitedMs < TWO_32 && Stops(rest)
    ensures var body := StatusBody(s, waitedMs, reason);
            && TakenFrom(BuildFrame(MATCHMAKING_STATUS, body) + rest) == Taken([WireFrame(MATCHMAKING_STATUS, body)], rest)
            && DescribeStatus(body) == Status(Known(s), waitedMs, Known(reason))
  {
    var body := StatusBody(s, waitedMs, reason);
    var f := WireFrame(MATCHMAKING_STATUS, body);
    assert BuildAll([f]) == BuildFrame(f.opcode, f.body) + [] == BuildFrame(f.opcode, f.body);
    FramesRecovered([f], rest);
    CodesInvert(s, reason, Human);
    NumbersRecovered(waitedMs, [ReasonCode(reason)]);
    assert body[1..] == U32(waitedMs) + [ReasonCode(reason)];
    hide U32, Unsigned32, TakenFrom, BuildFrame, BuildAll, Stops;
  }

  // ---- FOUND ------------------------------------------------------------------------------------------------

  /** Length bytes are written modulo 256. */
  function FoundBody(o: Opponent, rated: bool, roomId: nat, matchId: seq<byte>, name: seq<byte>): seq<byte>
    requires roomId < 0x1_0000
  {
    [OpponentCode(o), if rated then 1 else 0] + U16(roomId) + [|matchId| % 256] + matchId + [|name| % 256] + name
  }

  datatype Found =
    | Found(opponent: Named<Opponent>, rated: bool, roomId: nat, matchId: seq<byte>, opponentName: seq<byte>)
    | MalformedFound(size: nat)

  function DescribeFound(body: seq<byte>): Found {
    if |body| < 5 then MalformedFound(|body|)
    else
      var nameOffset := 5 + body[4] as nat;
      var nameLength := if |body| > nameOffset then body[nameOffset] as nat else 0;
      Found(OpponentByCode(body[0]), body[1] == 1, Unsigned16(body[2..]),
            Slice(body, 5, nameOffset), Slice(body, nameOffset + 1, nameOffset + 1 + nameLength))
  }

  lemma FoundFront(o: Opponent, rated: bool, roomId: nat, matchId: seq<byte>, name: seq<byte>)
    requires roomId < 0x1_0000
    ensures var body := FoundBody(o, rated, roomId, matchId, name);
            && |body| == 6 + |matchId| + |name|
            && body[0] == OpponentCode(o) && body[1] == (if rated then 1 else 0) && Unsigned16(body[2..]) == roomId
            && body[4] as nat == |matchId| % 256 && body[5..5 + |matchId|] == matchId
            && body[5 + |matchId|] as nat == |name| % 256 && body[6 + |matchId|..] == name
  {
    var body := FoundBody(o, rated, roomId, matchId, name);
    var head: seq<byte> := [OpponentCode(o), if rated then 1 else 0];
    var tail: seq<byte> := [|matchId| % 256] + matchId + [|name| % 256] + name;
    assert body == head + U16(roomId) + tail;
    assert body[2..] == U16(roomId) + tail;
    NumbersRecovered(roomId, tail);
    hide U16, Unsigned16;
    assert body[4..] == tail;
    assert body[5..5 + |matchId|] == matchId;
    assert body[6 + |matchId|..] == name;
  }

  /** The client reads a FOUND as it was meant if and only if the match id's length fits its byte. */
  lemma FoundRecovered(o: Opponent, rated: bool, roomId: nat, matchId: seq<byte>, name: seq<byte>)
    requires roomId < 0x1_0000 && |name| <= MAX_OPPONENT_NAME_BYTES
    ensures DescribeFound(FoundBody(o, rated, roomId, matchId, name)) == Found(Known(o), rated, roomId, matchId, name)
            <==> |matchId| < 256
  {
    hide FoundBody, Unsigned16, OpponentByCode, OpponentCode, DescribeFound, Slice;
    FoundFront(o, rated, roomId, matchId, name);
    CodesInvert(Searching, None, o);
    var body := FoundBody(o, rated, roomId, matchId, name);
    DescribedIs(body);
    if |matchId| < 256 {
      SlicesAre(body, matchId, name);
    }
  }

  lemma DescribedIs(body: seq<byte>)
    requires |body| >= 5
    ensures var r := DescribeFound(body);
            var nameOffset := 5 + body[4] as nat;
            var nameLength := if |body| > nameOffset then body[nameOffset] as nat else 0;
            && r == Found(OpponentByCode(body[0]), body[1] == 1, Unsigned16(body[2..]),
                          Slice(body, 5, nameOffset), Slice(body, nameOffset + 1, nameOffset + 1 + nameLength))
            && |r.matchId| < 256
  {
    hide OpponentByCode, Unsigned16;
  }

  lemma SlicesAre(body: seq<byte>, matchId: seq<byte>, name: seq<byte>)
    requires |body| == 6 + |matchId| + |name|
    requires body[5..5 + |matchId|] == matchId && body[6 + |matchId|..] == name
    ensures Slice(body, 5, 5 + |matchId|) == matchId
    ensures Slice(body, 6 + |matchId|, 6 + |matchId| + |name|) == name
  {
    assert body[6 + |matchId|..6 + |matchId| + |name|] == name;
  }

  /** The name a FOUND frame shows: as much of it as fits, or nothing when there is none. */
  ghost function Shown(name: Option<seq<CodePoint>>): (r: seq<byte>)
    ensures |r| <= MAX_OPPONENT_NAME_BYTES
  {
    if name.Some? then Encode(name.value[..Fitting(name.value, MAX_OPPONENT_NAME_BYTES)]) else []
  }

  /** A FOUND frame says what the notice says, with the longest prefix of the opponent's name that fits. */
  method BuildFound(o: Opponent, rated: bool, roomId: nat, matchId: seq<CodePoint>, name: Option<seq<CodePoint>>)
    returns (frame: seq<byte>)
    requires roomId < 0x1_0000 && FrameFits(FoundBody(o, rated, roomId, Encode(matchId), Shown(name)))
    ensures var body := FoundBody(o, rated, roomId, Encode(matchId), Shown(name));
            && frame == BuildFrame(MATCHMAKING_FOUND, body)
            && (DescribeFound(body) == Found(Known(o), rated, roomId, Encode(matchId), Shown(name))
                <==> |Encode(matchId)| < 256)
  {
    var matchIdBytes := Encode(matchId);
    var nameBytes: seq<byte> := [];
    if name.Some? {
      nameBytes := TruncateUtf8(name.value, MAX_OPPONENT_NAME_BYTES);
    }
    hide Encode, Fitting;
    FoundRecovered(o, rated, roomId, matchIdBytes, nameBytes);
    hide FoundBody, DescribeFound;
    frame := BuildFrame(MATCHMAKING_FOUND, FoundBody(o, rated, roomId, matchIdBytes, nameBytes));
  }

  // ---- ENTER -------------------------------------------------------------------------------------------------

  datatype EnterRequest = EnterRequest(
    format: Format,
    mode: Mode,
    clientVersion: nat,
    botFallbackAfterMs: Option<nat>,
    supportsAcceptStep: Option<bool>)

  predicate Writable(e: EnterRequest) {
    e.clientVersion < 0x1_0000 && (e.botFallbackAfterMs.Some? ==> e.botFallbackAfterMs.value < TWO_32)
  }

  function FallbackBytes(e: EnterRequest): seq<byte>
    requires Writable(e)
  {
    if e.botFallbackAfterMs.Some? then U32(e.botFallbackAfterMs.value) else []
  }

  function AcceptBytes(e: EnterRequest): seq<byte> {
    if e.supportsAcceptStep.Some? then [if e.supportsAcceptStep.value then 1 else 0] else []
  }

  /** The four layouts: with or without a fallback delay, with or without the accept-step byte. */
  function EnterBody(e: EnterRequest): seq<byte>
    requires Writable(e)
  {
    [FormatCode(e.format), 0] + U16(e.clientVersion) + FallbackBytes(e) + AcceptBytes(e)
  }

  function ParseEnter(body: seq<byte>): ParseResult<EnterRequest> {
    var hasAcceptStep := |body| == 5 || |body| == 9;
    var optionsLength := |body| - (if hasAcceptStep then 1 else 0);
    if optionsLength != 4 && optionsLength != 8 then Refused(MalformedFrame)
    else if FormatByCode(body[0]).None? then Refused(UnknownFormat)
    else if ModeByCode(body[1]).None? then Refused(UnsupportedMode)
    else
      var fallback := if optionsLength == 8 then Some(Unsigned32(body[4..])) else None;
      var accept := if hasAcceptStep then Some(body[optionsLength]) else None;
      if accept.Some? && accept.value > 1 then Refused(MalformedFrame)
      else
        Parsed(EnterRequest(FormatByCode(body[0]).value, ModeByCode(body[1]).value, Unsigned16(body[2..]), fallback,
                            if accept.Some? then Some(accept.value == 1) else None))
  }

  lemma EnterBodyParts(e: EnterRequest)
    requires Writable(e)
    ensures var body := EnterBody(e);
            var options := FallbackBytes(e) + AcceptBytes(e);
            && |body| == 4 + |options| && body[0] == FormatCode(e.format) && body[1] == 0
            && Unsigned16(body[2..]) == e.clientVersion && body[4..] == options
            && (e.botFallbackAfterMs.Some? ==> Unsigned32(body[4..]) == e.botFallbackAfterMs.value)
            && |FallbackBytes(e)| == (if e.botFallbackAfterMs.Some? then 4 else 0)
            && |AcceptBytes(e)| == (if e.supportsAcceptStep.Some? then 1 else 0)
            && (e.supportsAcceptStep.Some? ==> body[|body| - 1] == AcceptBytes(e)[0])
  {
    var body := EnterBody(e);
    var options := FallbackBytes(e) + AcceptBytes(e);
    assert body == [FormatCode(e.format), 0] + U16(e.clientVersion) + options;
    assert body[2..] == U16(e.clientVersion) + options;
    assert body[4..] == options;
    NumbersRecovered(e.clientVersion, options);
    if e.botFallbackAfterMs.Some? {
      NumbersRecovered(e.botFallbackAfterMs.value, AcceptBytes(e));
    }
    hide U16, U32, Unsigned16, Unsigned32;
  }

  lemma ParsesWhatWasWritten(e: EnterRequest)
    requires Writable(e)
    ensures ParseEnter(EnterBody(e)) == Parsed(e)
  {
    EnterBodyParts(e);
    hide EnterBody, FallbackBytes, U16, U32, Unsigned16, Unsigned32;
    var body := EnterBody(e);
    match e.mode case Ranked => {}
    assert FormatByCode(body[0]) == Some(e.format) && ModeByCode(body[1]) == Some(e.mode);
    assert |body| == 4 + (if e.botFallbackAfterMs.Some? then 4 else 0) + (if e.supportsAcceptStep.Some? then 1 else 0);
  }

  lemma WritesWhatWasParsed(body: seq<byte>)
    requires ParseEnter(body).Parsed?
    ensures Writable(ParseEnter(body).value) && EnterBody(ParseEnter(body).value) == body
  {
    var e := ParseEnter(body).value;
    BytesRecovered(body[2..4]);
    assert Unsigned16(body[2..]) == Unsigned16(body[2..4]);
    assert [FormatCode(e.format), 0] == body[..2];
    if |body| >= 8 {
      BytesRecovered(body[4..8]);
      FourOf(body[4..], body[4..8]);
      assert body[4..][..4] == body[4..8];
    }
    hide U16, U32, Unsigned16, Unsigned32;
    if |body| == 4 {
      assert body == body[..2] + body[2..4];
    } else if |body| == 5 {
      assert body == body[..2] + body[2..4] + [body[4]];
    } else if |body| == 8 {
      assert body == body[..2] + body[2..4] + body[4..8];
    } else {
      assert body == body[..2] + body[2..4] + body[4..8] + [body[8]];
    }
  }

  lemma FourOf(b: seq<byte>, four: seq<byte>)
    requires |b| >= 4 && four == b[..4]
    ensures Unsigned32(b) == Unsigned32(four)
  {
    assert four[2..][0] == b[2..][0] && four[2..][1] == b[2..][1];
  }

  /** A body parses to a request if and only if it is that request written down: no two layouts are confused. */
  lemma EnterIsUnambiguous(body: seq<byte>, e: EnterRequest)
    ensures ParseEnter(body) == Parsed(e) <==> Writable(e) && body == EnterBody(e)
  {
    if ParseEnter(body) == Parsed(e) {
      WritesWhatWasParsed(body);
    }
    if Writable(e) {
      ParsesWhatWasWritten(e);
    }
    hide ParseEnter, EnterBody;
  }

  /** The client's ENTER, without an accept-step byte, reaches the server's parser intact. */
  lemma ClientEnters(format: Format, version: nat, fallback: Option<nat>, rest: seq<byte>)
    requires version < 0x1_0000 && (fallback.Some? ==> fallback.value < TWO_32) && Stops(rest)
    ensures var e := EnterRequest(format, Ranked, version, fallback, None);
            && FrameFits(EnterBody(e))
            && TakenFrom(BuildFrame(MATCHMAKING_ENTER, EnterBody(e)) + rest) == Taken([WireFrame(MATCHMAKING_ENTER, EnterBody(e))], rest)
            && ParseEnter(EnterBody(e)) == Parsed(e)
  {
    var e := EnterRequest(format, Ranked, version, fallback, None);
    var f := WireFrame(MATCHMAKING_ENTER, EnterBody(e));
    assert BuildAll([f]) == BuildFrame(f.opcode, f.body) + [] == BuildFrame(f.opcode, f.body);
    hide TakenFrom, BuildFrame, BuildAll, Stops, ParseEnter;
    FramesRecovered([f], rest);
    EnterIsUnambiguous(EnterBody(e), e);
  }

  // ---- AUTH, ACCEPT and DECLINE ---------------------------------------------------------------------------------

  function ParseAuth(body: seq<byte>): ParseResult<seq<byte>> {
    if |body| < 1 then Refused(MalformedFrame)
    else
      var n := body[0] as nat;
      if n > MAX_TICKET_BYTES || |body| != 1 + n then Refused(MalformedFrame) else Parsed(body[1..1 + n])
  }

  function ParseMatchResponse(body: seq<byte>): ParseResult<seq<byte>> {
    if |body| < 1 then Refused(MalformedFrame)
    else
      var n := body[0] as nat;
      if n == 0 || n > MAX_MATCH_ID_BYTES || |body| != 1 + n then Refused(MalformedFrame) else Parsed(body[1..])
  }

  function Prefixed(text: seq<byte>): seq<byte>
    requires |text| < 256
  {
    var n: byte := |text|;
    [n] + text
  }

  /** Exactly the length-prefixed tickets and match ids within their limits are taken. */
  lemma PrefixedTexts(body: seq<byte>, text: seq<byte>)
    ensures ParseAuth(body) == Parsed(text) <==> |text| <= MAX_TICKET_BYTES && body == Prefixed(text)
    ensures ParseMatchResponse(body) == Parsed(text) <==> 0 < |text| <= MAX_MATCH_ID_BYTES && body == Prefixed(text)
    ensures ParseAuth(body).Parsed? || ParseAuth(body) == Refused(MalformedFrame)
  {
    if 1 <= |body| == 1 + body[0] as nat {
      assert body[1..1 + body[0] as nat] == body[1..];
      assert body == Prefixed(body[1..]);
    }
    if |text| < 256 {
      assert Prefixed(text)[1..] == text;
    }
  }
}
