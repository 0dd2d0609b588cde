/**
  Writing a recorded duel into buffers allocated at the announced sizes: every write fits, and the buffers
  end up exactly full of the bytes `ReplayFormat` describes.
 */
module ReplayBuffers {
  import opened Options
  import opened Bits
  import opened ReplayFormat
  import opened ReplayReader
  import opened ReplayResponses
  import opened Sequences

  class ReplayBuffer {
    const data: array<byte>
    var offset: nat

    ghost predicate Valid()
      reads this
    {
      offset <= data.Length
    }

    ghost function Written(): seq<byte>
      requires Valid()
      reads this, data
    {
      data[..offset]
    }

    constructor (size: nat)
      ensures Valid() && offset == 0 && data.Length == size && fresh(data)
    {
      data := new byte[size](_ => 0);
      offset := 0;
    }

    method WriteBuffer(value: seq<byte>)
      requires Valid() && offset + |value| <= data.Length
      modifies this, data
      ensures Valid() && Written() == old(Written()) + value
      ensures offset == old(offset) + |value|
    {
      ghost var was := Written();
      var start := offset;
      for i := 0 to |value|
        invariant offset == start && data[..start + i] == was + value[..i]
      {
        data[start + i] := value[i];
        assert data[..start + i + 1] == data[..start + i] + [value[i]];
        assert was + value[..i] + [value[i]] == was + value[..i + 1];
      }
      assert value[..|value|] == value;
      offset := offset + |value|;
    }

    method WriteUInt8(value: byte)
      requires Valid() && offset + 1 <= data.Length
      modifies this, data
      ensures Valid() && Written() == old(Written()) + [value]
      ensures offset == old(offset) + |[value]|
    {
      WriteBuffer([value]);
    }

    method WriteUInt32(value: nat)
      requires Valid() && value < TWO_32 && offset + 4 <= data.Length
      modifies this, data
      ensures Valid() && Written() == old(Written()) + LE(value, 4)
      ensures offset == old(offset) + |LE(value, 4)|
    {
      WriteBuffer(LE(value, 4));
    }

    method WriteUInt64(value: nat)
      requires Valid() && value < Limit(8) && offset + 8 <= data.Length
      modifies this, data
      ensures Valid() && Written() == old(Written()) + LE(value, 8)
      ensures offset == old(offset) + |LE(value, 8)|
    {
      WriteBuffer(LE(value, 8));
    }

    // ---- the writers ---------------------------------------------------------------------------------

    method WriteNames(players: seq<Player>)
      requires Valid() && offset + |Names(players)| <= data.Length
      modifies this, data
      ensures Valid() && Written() == old(Written()) + Names(players)
      ensures offset == old(offset) + |Names(players)|
    {
      ghost var was := Written();
      NamesLength(players);
      Nothing(was);
      assert players[..0] == [];
      for i := 0 to |players|
        invariant Valid() && Written() == was + Names(players[..i]) && offset == |was| + 40 * i
      {
        hide NameField;
        assert players[..i + 1][..i] == players[..i];
        WriteBuffer(NameField(players[i].name));
        Associates(was, Names(players[..i]), NameField(players[i].name));
        NamesLength(players[..i + 1]);
      }
      assert players[..|players|] == players;
    }

    method WritePlayers(players: seq<Player>)
      requires Valid() && |players| < TWO_32 && offset + |PlayersBytes(players)| <= data.Length
      modifies this, data
      ensures Valid() && Written() == old(Written()) + PlayersBytes(players)
      ensures offset == old(offset) + |PlayersBytes(players)|
    {
      ghost var was := Written();
      var t0, t1 := Team(players, 0), Team(players, 1);
      TeamNotMore(players, 0);
      TeamNotMore(players, 1);
      hide Names, Team, LE;
      WriteUInt32(|t0|);
      WriteNames(t0);
      WriteUInt32(|t1|);
      WriteNames(t1);
      InARow(was, LE(|t0|, 4), Names(t0), LE(|t1|, 4), Names(t1));
    }

    method WriteCodes(codes: seq<uint32>)
      requires Valid() && offset + |CodesBytes(codes)| <= data.Length
      modifies this, data
      ensures Valid() && Written() == old(Written()) + CodesBytes(codes)
      ensures offset == old(offset) + |CodesBytes(codes)|
    {
      ghost var was := Written();
      CodesLength(codes);
      Nothing(was);
      assert codes[..0] == [];
      for i := 0 to |codes|
        invariant Valid() && Written() == was + CodesBytes(codes[..i]) && offset == |was| + 4 * i
      {
        hide LE;
        assert codes[..i + 1][..i] == codes[..i];
        WriteUInt32(codes[i]);
        Associates(was, CodesBytes(codes[..i]), LE(codes[i], 4));
        CodesLength(codes[..i + 1]);
      }
      assert codes[..|codes|] == codes;
    }

    method WriteDeck(p: Player)
      requires Valid() && |p.main| < TWO_32 && |p.extra| < TWO_32 && offset + |DeckBytes(p)| <= data.Length
      modifies this, data
      ensures Valid() && Written() == old(Written()) + DeckBytes(p)
      ensures offset == old(offset) + |DeckBytes(p)|
    {
      ghost var was := Written();
      hide CodesBytes, LE;
      WriteUInt32(|p.main|);
      WriteCodes(p.main);
      WriteUInt32(|p.extra|);
      WriteCodes(p.extra);
      InARow(was, LE(|p.main|, 4), CodesBytes(p.main), LE(|p.extra|, 4), CodesBytes(p.extra));
    }

    /** The decks of one team. */
    method WriteDecks(players: seq<Player>)
      requires Valid() && forall p :: p in players ==> |p.main| < TWO_32 && |p.extra| < TWO_32
      requires offset + |DecksBytes(players)| <= data.Length
      modifies this, data
      ensures Valid() && Written() == old(Written()) + DecksBytes(players)
      ensures offset == old(offset) + |DecksBytes(players)|
    {
      ghost var was := Written();
      Nothing(was);
      assert players[..0] == [];
      for i := 0 to |players|
        invariant Valid() && Written() == was + DecksBytes(players[..i])
      {
        hide DecksBytes, DeckBytes;
        DecksSoFar(players, i);
        WriteDeck(players[i]);
        Associates(was, DecksBytes(players[..i]), DeckBytes(players[i]));
      }
      assert players[..|players|] == players;
    }

    method WriteResponses(responses: seq<seq<byte>>)
      requires Valid() && forall r :: r in responses ==> |r| < 256
      requires offset + |ResponsesBytes(responses)| <= data.Length
      modifies this, data
      ensures Valid() && Written() == old(Written()) + ResponsesBytes(responses)
      ensures offset == old(offset) + |ResponsesBytes(responses)|
    {
      ghost var was := Written();
      Nothing(was);
      ResponsesLast([]);
      assert responses[..0] == [];
      hide ResponsesBytes;
      for i := 0 to |responses|
        invariant Valid() && Written() == was + ResponsesBytes(responses[..i])
      {
        ResponsesSoFar(responses, i);
        WriteUInt8(|responses[i]|);
        WriteBuffer(responses[i]);
        Associates(was, ResponsesBytes(responses[..i]), [|responses[i]| as byte]);
        Associates(was + ResponsesBytes(responses[..i]), [|responses[i]| as byte], responses[i]);
        Associates(was, ResponsesBytes(responses[..i]), ResponseBytes(responses[i]));
      }
      assert responses[..|responses|] == responses;
    }

    method WriteMessages(messages: seq<seq<byte>>)
      requires Valid() && forall m :: m in messages ==> 0 < |m| <= 0x1_0000_0000
      requires offset + |MessagesBytes(messages)| <= data.Length
      modifies this, data
      ensures Valid() && Written() == old(Written()) + MessagesBytes(messages)
      ensures offset == old(offset) + |MessagesBytes(messages)|
    {
      ghost var was := Written();
      Nothing(was);
      MessagesLast([]);
      assert messages[..0] == [];
      hide MessagesBytes;
      for i := 0 to |messages|
        invariant Valid() && Written() == was + MessagesBytes(messages[..i])
      {
        MessagesSoFar(messages, i);
        WriteMessage(messages[i]);
        Associates(was, MessagesBytes(messages[..i]), MessageBytes(messages[i]));
      }
      assert messages[..|messages|] == messages;
    }

    method WriteMessage(message: seq<byte>)
      requires Valid() && 0 < |message| <= TWO_32 && offset + |MessageBytes(message)| <= data.Length
      modifies this, data
      ensures Valid() && Written() == old(Written()) + MessageBytes(message)
      ensures offset == old(offset) + |MessageBytes(message)|
    {
      ghost var was := Written();
      hide LE;
      WriteUInt8(message[0]);
      WriteUInt32(|message| - 1);
      WriteBuffer(message[1..]);
      InARow(was, [message[0]], LE(|message| - 1, 4), message[1..], []);
    }

    method WriteFour32(a: nat, b: nat, c: nat, d: nat)
      requires Valid() && a < TWO_32 && b < TWO_32 && c < TWO_32 && d < TWO_32 && offset + 16 <= data.Length
      modifies this, data
      ensures Valid() && Written() == old(Written()) + (LE(a, 4) + LE(b, 4) + LE(c, 4) + LE(d, 4))
      ensures offset == old(offset) + |LE(a, 4) + LE(b, 4) + LE(c, 4) + LE(d, 4)|
    {
      ghost var was := Written();
      hide LE;
      WriteUInt32(a);
      WriteUInt32(b);
      WriteUInt32(c);
      WriteUInt32(d);
      InARow(was, LE(a, 4), LE(b, 4), LE(c, 4), LE(d, 4));
    }

    method WriteSeed(seed: seq<nat>)
      requires Valid() && |seed| == 4 && (forall i :: 0 <= i < 4 ==> seed[i] < Limit(8)) && offset + 32 <= data.Length
      modifies this, data
      ensures Valid() && Written() == old(Written()) + SeedBytes(seed)
      ensures offset == old(offset) + |SeedBytes(seed)|
    {
      ghost var was := Written();
      hide LE, Limit;
      WriteUInt64(seed[0]);
      WriteUInt64(seed[1]);
      WriteUInt64(seed[2]);
      WriteUInt64(seed[3]);
      InARow(was, LE(seed[0], 8), LE(seed[1], 8), LE(seed[2], 8), LE(seed[3], 8));
    }

    method WriteHeader(size: nat, seed: seq<nat>)
      requires Valid() && size < TWO_32 && |seed| == 4 && (forall i :: 0 <= i < 4 ==> seed[i] < Limit(8))
      requires offset + HEADER_BYTES <= data.Length
      modifies this, data
      ensures Valid() && Written() == old(Written()) + HeaderBytes(size, seed)
      ensures offset == old(offset) + |HeaderBytes(size, seed)|
    {
      ghost var was := Written();
      Limits();
      hide LE, Limit, SeedBytes, HeaderBytes;
      WriteFour32(REPLAY_YRP1, REPLAY_VERSION, REPLAY_FLAGS, 0);
      WriteUInt32(size);
      WriteUInt32(0);
      WriteUInt64(0);
      WriteUInt64(1);
      WriteSeed(seed);
      HeaderInARow(was, size, seed);
    }
  }

  // ---- facts the writers lean on -----------------------------------------------------------------------

  lemma Nothing(was: seq<byte>)
    ensures was + [] == was
  {
  }

  lemma HeaderInARow(was: seq<byte>, size: nat, seed: seq<nat>)
    requires |seed| == 4
    ensures was + (LE(REPLAY_YRP1, 4) + LE(REPLAY_VERSION, 4) + LE(REPLAY_FLAGS, 4) + LE(0, 4))
            + LE(size, 4) + LE(0, 4) + LE(0, 8) + LE(1, 8) + SeedBytes(seed)
            == was + HeaderBytes(size, seed)
  {
    hide LE, SeedBytes;
    var first := LE(REPLAY_YRP1, 4) + LE(REPLAY_VERSION, 4) + LE(REPLAY_FLAGS, 4) + LE(0, 4);
    var second := LE(size, 4) + LE(0, 4) + LE(0, 8) + LE(1, 8);
    InARow(was + first, LE(size, 4), LE(0, 4), LE(0, 8), LE(1, 8));
    InARow(first, LE(size, 4), LE(0, 4), LE(0, 8), LE(1, 8));
    InARow(was, first, second, SeedBytes(seed), []);
  }

  lemma DecksSoFar(players: seq<Player>, i: nat)
    requires i < |players|
    ensures DecksBytes(players[..i + 1]) == DecksBytes(players[..i]) + DeckBytes(players[i])
    ensures |DecksBytes(players[..i + 1])| <= |DecksBytes(players)|
  {
    assert players[..i + 1][..i] == players[..i];
    hide DeckBytes;
    DecksGrow(players, i + 1);
  }

  lemma {:induction false} DecksGrow(players: seq<Player>, i: nat)
    requires i <= |players|
    ensures |DecksBytes(players[..i])| <= |DecksBytes(players)|
  {
    hide DeckBytes;
    if i < |players| {
      var front := players[..|players| - 1];
      assert front[..i] == players[..i];
      DecksGrow(front, i);
    } else {
      assert players[..i] == players;
    }
  }

  lemma ResponsesSoFar(responses: seq<seq<byte>>, i: nat)
    requires i < |responses| && forall r :: r in responses ==> |r| < 256
    ensures ResponsesBytes(responses[..i + 1]) == ResponsesBytes(responses[..i]) + ResponseBytes(responses[i])
    ensures |ResponsesBytes(responses[..i + 1])| <= |ResponsesBytes(responses)|
  {
    ResponsesLast(responses[..i + 1]);
    assert responses[..i + 1][..i] == responses[..i];
    hide ResponseBytes;
    ResponsesGrow(responses, i + 1);
  }

  lemma {:induction false} ResponsesGrow(responses: seq<seq<byte>>, i: nat)
    requires i <= |responses| && forall r :: r in responses ==> |r| < 256
    ensures |ResponsesBytes(responses[..i])| <= |ResponsesBytes(responses)|
  {
    hide ResponseBytes;
    if i < |responses| {
      var front := responses[..|responses| - 1];
      assert front[..i] == responses[..i];
      ResponsesGrow(front, i);
    } else {
      assert responses[..i] == responses;
    }
  }

  lemma MessagesSoFar(messages: seq<seq<byte>>, i: nat)
    requires i < |messages| && forall m :: m in messages ==> |m| > 0
    ensures MessagesBytes(messages[..i + 1]) == MessagesBytes(messages[..i]) + MessageBytes(messages[i])
    ensures |MessagesBytes(messages[..i + 1])| <= |MessagesBytes(messages)|
  {
    MessagesLast(messages[..i + 1]);
    assert messages[..i + 1][..i] == messages[..i];
    hide MessageBytes;
    MessagesGrow(messages, i + 1);
  }

  lemma {:induction false} MessagesGrow(messages: seq<seq<byte>>, i: nat)
    requires i <= |messages| && forall m :: m in messages ==> |m| > 0
    ensures |MessagesBytes(messages[..i])| <= |MessagesBytes(messages)|
  {
    hide MessageBytes;
    if i < |messages| {
      var front := messages[..|messages| - 1];
      assert front[..i] == messages[..i];
      MessagesGrow(front, i);
    } else {
      assert messages[..i] == messages;
    }
  }

  // ---- the recorder ---------------------------------------------------------------------------------------

  class Replay {
    var seed: seq<nat>
    var messages: seq<seq<byte>>
    var responses: seq<seq<byte>>
    var players: seq<Player>
    const startingLp: nat
    const startingDrawCount: nat
    const drawCountPerTurn: nat
    const flags: nat

    function State(): Duel
      reads this
    {
      Duel(seed, messages, responses, players, startingLp, startingDrawCount, drawCountPerTurn, flags)
    }

    constructor (startingLp: nat, startingDrawCount: nat, drawCountPerTurn: nat, flags: nat)
      ensures State() == Duel([0, 0, 0, 0], [], [], [], startingLp, startingDrawCount, drawCountPerTurn, flags)
    {
      seed, messages, responses, players := [0, 0, 0, 0], [], [], [];
      this.startingLp, this.startingDrawCount := startingLp, startingDrawCount;
      this.drawCountPerTurn, this.flags := drawCountPerTurn, flags;
    }

    method AddMessage(message: seq<byte>)
      modifies this`messages
      ensures State() == old(State()).(messages := old(messages) + [message])
    {
      messages := messages + [message];
    }

    method AddResponse(message: string)
      modifies this`responses
      ensures State() == old(State()).(responses := old(responses) + [ParsedResponse(message)])
    {
      responses := responses + [ParsedResponse(message)];
    }

    method SetSeed(seed: seq<nat>)
      modifies this`seed
      ensures State() == old(State()).(seed := seed)
    {
      this.seed := seed;
    }

    method AddPlayers(players: seq<Player>)
      modifies this`players
      ensures State() == old(State()).(players := players)
    {
      this.players := players;
    }

    /**
      The old-style replay fills its buffer and becomes the last message of the stream, which fills the
      other.
     */
    method Serialize() returns (decoded: seq<byte>)
      requires Encodable(State())
      modifies this`messages
      ensures messages == old(messages) + [YrpBytes(old(State()))]
      ensures decoded == YrpxBytes(old(State()), messages)
    {
      var d := State();
      MessagesFit(d);
      hide Encodable, YrpBytes, YrpxBytes;
      var yrp := BuildYrp(d);
      messages := messages + [yrp];
      decoded := BuildYrpx(d, messages);
    }
  }

  function RulesBytes(d: Duel): (r: seq<byte>)
    ensures |r| == 20
  {
    LE(d.startingLp, 4) + LE(d.startingDrawCount, 4) + LE(d.drawCountPerTurn, 4) + LE(d.flags, 8)
  }

  /** Everything up to the decks, and everything from the decks on. */
  function YrpFront(d: Duel): seq<byte>
    requires |d.seed| == 4
  {
    [OLD_REPLAY_MODE] + HeaderBytes(YrppHeaderSize(d), d.seed) + PlayersBytes(d.players) + RulesBytes(d)
  }

  function YrpRest(d: Duel): seq<byte>
    requires forall r :: r in d.responses ==> |r| < 256
  {
    DecksBytes(Team(d.players, 0)) + DecksBytes(Team(d.players, 1)) + LE(0, 4) + ResponsesBytes(d.responses)
  }

  lemma YrpHalves(d: Duel)
    requires |d.seed| == 4 && forall r :: r in d.responses ==> |r| < 256
    ensures YrpBytes(d) == YrpFront(d) + YrpRest(d)
    ensures |YrpFront(d)| + |YrpRest(d)| == YrppHeaderSize(d) + HEADER_BYTES + 1
    ensures |YrpFront(d)| == 1 + HEADER_BYTES + |PlayersBytes(d.players)| + 20
  {
    hide LE, HeaderBytes, PlayersBytes, DecksBytes, ResponsesBytes, YrppHeaderSize, Team;
    var front := [OLD_REPLAY_MODE] + HeaderBytes(YrppHeaderSize(d), d.seed) + PlayersBytes(d.players);
    InARow(front, LE(d.startingLp, 4), LE(d.startingDrawCount, 4), LE(d.drawCountPerTurn, 4), LE(d.flags, 8));
    InARow(YrpFront(d), DecksBytes(Team(d.players, 0)), DecksBytes(Team(d.players, 1)), LE(0, 4), ResponsesBytes(d.responses));
    SizesAreExact(d, []);
  }

  lemma EncodableNumbers(d: Duel)
    requires Encodable(d)
    ensures YrppHeaderSize(d) < TWO_32 && (forall i :: 0 <= i < 4 ==> d.seed[i] < Limit(8))
    ensures d.startingLp < TWO_32 && d.startingDrawCount < TWO_32 && d.drawCountPerTurn < TWO_32 && d.flags < Limit(8)
  {
    hide YrppHeaderSize;
  }

  method BuildYrp(d: Duel) returns (yrp: seq<byte>)
    requires Encodable(d)
    ensures yrp == YrpBytes(d)
  {
    EncodableParts(d);
    YrpHalves(d);
    var size := YrppHeaderSize(d) + HEADER_BYTES + 1;
    hide *;
    var buffer := new ReplayBuffer(size);
    Length(buffer);
    BuildFront(buffer, d);
    Length(buffer);
    BuildRest(buffer, d);
    Length(buffer);
    Full(buffer);
    yrp := buffer.data[..];
  }

  method BuildFront(buffer: ReplayBuffer, d: Duel)
    requires Encodable(d) && buffer.Valid() && buffer.Written() == [] && |YrpFront(d)| <= buffer.data.Length
    modifies buffer, buffer.data
    ensures buffer.Valid() && buffer.Written() == YrpFront(d)
  {
    EncodableParts(d);
    EncodableNumbers(d);
    YrpHalves(d);
    assert YrpFront(d) == [OLD_REPLAY_MODE] + HeaderBytes(YrppHeaderSize(d), d.seed) + PlayersBytes(d.players) + RulesBytes(d);
    hide *;
    Length(buffer);
    assert [] + [OLD_REPLAY_MODE] == [OLD_REPLAY_MODE];
    buffer.WriteUInt8(OLD_REPLAY_MODE);
    buffer.WriteHeader(YrppHeaderSize(d), d.seed);
    buffer.WritePlayers(d.players);
    BuildRules(buffer, d);
  }

  lemma Length(buffer: ReplayBuffer)
    requires buffer.Valid()
    ensures |buffer.Written()| == buffer.offset <= buffer.data.Length
  {
  }

  method BuildRules(buffer: ReplayBuffer, d: Duel)
    requires Encodable(d) && buffer.Valid() && buffer.offset + 20 <= buffer.data.Length
    modifies buffer, buffer.data
    ensures buffer.Valid() && buffer.Written() == old(buffer.Written()) + RulesBytes(d)
  {
    ghost var was := buffer.Written();
    EncodableNumbers(d);
    hide Encodable, LE, Limit, YrppHeaderSize;
    buffer.WriteUInt32(d.startingLp);
    buffer.WriteUInt32(d.startingDrawCount);
    buffer.WriteUInt32(d.drawCountPerTurn);
    buffer.WriteUInt64(d.flags);
    InARow(was, LE(d.startingLp, 4), LE(d.startingDrawCount, 4), LE(d.drawCountPerTurn, 4), LE(d.flags, 8));
  }

  method BuildRest(buffer: ReplayBuffer, d: Duel)
    requires Encodable(d) && buffer.Valid() && buffer.offset + |YrpRest(d)| <= buffer.data.Length
    modifies buffer, buffer.data
    ensures buffer.Valid() && buffer.Written() == old(buffer.Written()) + YrpRest(d)
  {
    ghost var was := buffer.Written();
    EncodableParts(d);
    TeamNotMore(d.players, 0);
    TeamNotMore(d.players, 1);
    hide Encodable, DecksBytes, ResponsesBytes, LE, Team;
    buffer.WriteDecks(Team(d.players, 0));
    buffer.WriteDecks(Team(d.players, 1));
    buffer.WriteUInt32(0);
    buffer.WriteResponses(d.responses);
    InARow(was, DecksBytes(Team(d.players, 0)), DecksBytes(Team(d.players, 1)), LE(0, 4), ResponsesBytes(d.responses));
  }

  method BuildYrpx(d: Duel, messages: seq<seq<byte>>) returns (decoded: seq<byte>)
    requires Encodable(d) && forall m :: m in messages ==> 0 < |m| <= 0x1_0000_0000
    ensures decoded == YrpxBytes(d, messages)
  {
    EncodableParts(d);
    EncodableNumbers(d);
    SizesAreExact(d, messages);
    assert YrpxBytes(d, messages) == PlayersBytes(d.players) + LE(d.flags, 8) + MessagesBytes(messages);
    var size := YrpxHeaderSize(d.players, messages);
    hide *;
    var buffer := new ReplayBuffer(size);
    Length(buffer);
    Nothing(PlayersBytes(d.players));
    assert [] + PlayersBytes(d.players) == PlayersBytes(d.players);
    buffer.WritePlayers(d.players);
    buffer.WriteUInt64(d.flags);
    buffer.WriteMessages(messages);
    Full(buffer);
    decoded := buffer.data[..];
  }

  lemma Full(buffer: ReplayBuffer)
    requires buffer.Valid() && buffer.offset == buffer.data.Length
    ensures buffer.data[..] == buffer.Written()
  {
  }

  /** A reader of what `Serialize` decodes to gets every message back, and everything else out of the last one. */
  lemma RecordingRecovered(d: Duel)
    requires Encodable(d)
    ensures var messages := d.messages + [YrpBytes(d)];
            && ReadYrpx(YrpxBytes(d, messages)) == Some(Stream(TeamsOf(d.players), d.flags, messages))
            && ReadYrp(messages[|messages| - 1]) == Some(OldReplayOf(d))
  {
    SizesAreExact(d, []);
    EncodableParts(d);
    MessagesFit(d);
    assert d.flags < Limit(8);
    hide YrpBytes, YrpxBytes, ReadYrpx, ReadYrp, Encodable, YrppHeaderSize;
    YrpxRecovered(d, d.messages + [YrpBytes(d)]);
    YrpRecovered(d);
  }

  lemma MessagesFit(d: Duel)
    requires Encodable(d)
    ensures forall m :: m in d.messages + [YrpBytes(d)] ==> 0 < |m| <= 0x1_0000_0000
  {
    SizesAreExact(d, []);
    hide YrpBytes, YrppHeaderSize;
  }

  // ---- a duel from its first message to its replay ---------------------------------------------------------

  /** What the recorder is given while a duel runs: a message of the core, or a response of a player. */
  datatype Recorded = Message(payload: seq<byte>) | Response(data: seq<byte>)

  /** A response without bytes is passed over. */
  function AfterOne(d: Duel, event: Recorded): Duel {
    match event
    case Message(payload) => d.(messages := d.messages + [payload])
    case Response(data) => if data == [] then d else d.(responses := d.responses + [data])
  }

  function Recording(d: Duel, events: seq<Recorded>): Duel {
    if events == [] then d else AfterOne(Recording(d, events[..|events| - 1]), events[|events| - 1])
  }

  function MessagesIn(events: seq<Recorded>): seq<seq<byte>> {
    if events == [] then []
    else
      MessagesIn(events[..|events| - 1])
      + (if events[|events| - 1].Message? then [events[|events| - 1].payload] else [])
  }

  function ResponsesIn(events: seq<Recorded>): seq<seq<byte>> {
    if events == [] then []
    else
      var last := events[|events| - 1];
      ResponsesIn(events[..|events| - 1]) + (if last.Response? && last.data != [] then [last.data] else [])
  }

  lemma {:induction false} RecordingIs(d: Duel, events: seq<Recorded>)
    ensures Recording(d, events) == d.(messages := d.messages + MessagesIn(events), responses := d.responses + ResponsesIn(events))
  {
    if events != [] {
      RecordingIs(d, events[..|events| - 1]);
    }
  }

  /**
    A whole duel: the seed when it starts, every message and response as it comes, the players when it ends.
    A reader of the stream gets back the messages, and out of the last one the responses that had bytes.
   */
  method RecordDuel(d: Duel, events: seq<Recorded>) returns (decoded: seq<byte>)
    requires d.messages == [] && d.responses == [] && Encodable(Recording(d, events))
    ensures ReadYrpx(decoded) == Some(Stream(TeamsOf(d.players), d.flags, MessagesIn(events) + [YrpBytes(Recording(d, events))]))
    ensures ReadYrp(YrpBytes(Recording(d, events))) == Some(OldReplayOf(d.(messages := MessagesIn(events), responses := ResponsesIn(events))))
  {
    hide Encodable, YrpBytes, YrpxBytes, ReadYrpx, ReadYrp, OldReplayOf, TeamsOf, AfterOne;
    var replay := new Replay(d.startingLp, d.startingDrawCount, d.drawCountPerTurn, d.flags);
    replay.SetSeed(d.seed);
    var i := 0;
    while i < |events|
      invariant 0 <= i <= |events|
      invariant replay.State() == Recording(d.(players := []), events[..i])
    {
      assert events[..i + 1][..i] == events[..i];
      RecordOne(replay, events[i]);
      i := i + 1;
    }
    assert events[..i] == events;
    RecordingIs(d, events);
    RecordingIs(d.(players := []), events);
    replay.AddPlayers(d.players);
    assert replay.State() == Recording(d, events);
    assert [] + MessagesIn(events) == MessagesIn(events) && [] + ResponsesIn(events) == ResponsesIn(events);
    RecordingRecovered(Recording(d, events));
    decoded := replay.Serialize();
  }

  method RecordOne(replay: Replay, event: Recorded)
    modifies replay`messages, replay`responses
    ensures replay.State() == AfterOne(old(replay.State()), event)
  {
    match event {
      case Message(payload) => replay.AddMessage(payload);
      case Response(data) =>
        if data != [] {
          ResponseRecovered(data);
          hide ParsedResponse, ResponseText;
          replay.AddResponse(ResponseText(data));
        }
    }
  }
}
