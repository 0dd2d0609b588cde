/**
  The bytes of a recorded duel: what is written and how long it is.
 */
module ReplayFormat {
  import opened Options
  import opened Bits
  import opened Sequences

  // ---- little-endian numbers ------------------------------------------------------------------------

  function LE(v: nat, n: nat): (r: seq<byte>)
    ensures |r| == n
  {
    if n == 0 then [] else [v % 256] + LE(v / 256, n - 1)
  }

  function FromLE(b: seq<byte>): nat {
    if b == [] then 0 else (b[0] as nat) + 256 * FromLE(b[1..])
  }

  function Limit(n: nat): (r: nat)
    ensures r >= 1
  {
    if n == 0 then 1 else 256 * Limit(n - 1)
  }

  lemma {:induction false} NumberRecovered(v: nat, n: nat)
    requires v < Limit(n)
    ensures FromLE(LE(v, n)) == v
  {
    if n > 0 {
      NumberRecovered(v / 256, n - 1);
      assert LE(v, n)[1..] == LE(v / 256, n - 1);
    }
  }

  lemma Limits()
    ensures Limit(4) == TWO_32 && Limit(8) == 0x1_0000_0000_0000_0000
  {
  }

  // ---- the duel -------------------------------------------------------------------------------------------

  const NAME_BYTES := 40
  const HEADER_BYTES := 72
  const REPLAY_YRP1 := 0x3170_7279
  const REPLAY_VERSION := 655656
  /** LUA64, NEWREPLAY, 64BIT_DUELFLAG and EXTENDED_HEADER. */
  const REPLAY_FLAGS := 0x330
  const OLD_REPLAY_MODE: byte := 231

  /** `name` is the player's name in UTF-8. */
  datatype Player = Player(team: int, name: seq<byte>, main: seq<uint32>, extra: seq<uint32>)

  datatype Duel = Duel(
    seed: seq<nat>,
    messages: seq<seq<byte>>,
    responses: seq<seq<byte>>,
    players: seq<Player>,
    startingLp: nat,
    startingDrawCount: nat,
    drawCountPerTurn: nat,
    flags: nat)

  function Team(players: seq<Player>, team: int): seq<Player> {
    if players == [] then []
    else Team(players[..|players| - 1], team) + (if players[|players| - 1].team == team then [players[|players| - 1]] else [])
  }

  /** The name widened byte by byte, cut or padded to its field. */
  function NameField(name: seq<byte>): (r: seq<byte>)
    ensures |r| == NAME_BYTES
  {
    seq(NAME_BYTES, i requires 0 <= i < NAME_BYTES => if i % 2 == 0 && i / 2 < |name| then name[i / 2] else 0)
  }

  // ---- what is written ---------------------------------------------------------------------------------

  function Names(players: seq<Player>): seq<byte> {
    if players == [] then [] else Names(players[..|players| - 1]) + NameField(players[|players| - 1].name)
  }

  function PlayersBytes(players: seq<Player>): seq<byte> {
    var t0, t1 := Team(players, 0), Team(players, 1);
    LE(|t0|, 4) + Names(t0) + LE(|t1|, 4) + Names(t1)
  }

  function CodesBytes(codes: seq<uint32>): seq<byte> {
    if codes == [] then [] else CodesBytes(codes[..|codes| - 1]) + LE(codes[|codes| - 1], 4)
  }

  function DeckBytes(p: Player): seq<byte> {
    LE(|p.main|, 4) + CodesBytes(p.main) + LE(|p.extra|, 4) + CodesBytes(p.extra)
  }

  function DecksBytes(players: seq<Player>): seq<byte> {
    if players == [] then [] else DecksBytes(players[..|players| - 1]) + DeckBytes(players[|players| - 1])
  }

  function ResponseBytes(response: seq<byte>): seq<byte>
    requires |response| < 256
  {
    var length: byte := |response|;
    [length] + response
  }

  function ResponsesBytes(responses: seq<seq<byte>>): seq<byte>
    requires forall r :: r in responses ==> |r| < 256
  {
    if responses == [] then []
    else ResponsesBytes(responses[..|responses| - 1]) + ResponseBytes(responses[|responses| - 1])
  }

  /** Its first byte, the length of the rest, the rest. */
  function MessageBytes(message: seq<byte>): seq<byte>
    requires |message| > 0
  {
    [message[0]] + LE(|message| - 1, 4) + message[1..]
  }

  function MessagesBytes(messages: seq<seq<byte>>): seq<byte>
    requires forall m :: m in messages ==> |m| > 0
  {
    if messages == [] then []
    else MessagesBytes(messages[..|messages| - 1]) + MessageBytes(messages[|messages| - 1])
  }

  function SeedBytes(seed: seq<nat>): seq<byte>
    requires |seed| == 4
  {
    LE(seed[0], 8) + LE(seed[1], 8) + LE(seed[2], 8) + LE(seed[3], 8)
  }

  /** The extended header; properties it does not have are written as zeros. */
  function HeaderBytes(size: nat, seed: seq<nat>): (r: seq<byte>)
    requires |seed| == 4
    ensures |r| == HEADER_BYTES
  {
    LE(REPLAY_YRP1, 4) + LE(REPLAY_VERSION, 4) + LE(REPLAY_FLAGS, 4) + LE(0, 4) + LE(size, 4) + LE(0, 4)
    + LE(0, 8) + LE(1, 8) + SeedBytes(seed)
  }

  /** Values the byte writers take without failing. */
  ghost predicate Encodable(d: Duel) {
    && |d.seed| == 4 && (forall i :: 0 <= i < 4 ==> d.seed[i] < Limit(8))
    && (forall r :: r in d.responses ==> |r| < 256)
    && (forall m :: m in d.messages ==> 0 < |m| <= TWO_32)
    && (forall p :: p in d.players ==> |p.main| < TWO_32 && |p.extra| < TWO_32)
    && |d.players| < TWO_32
    && d.startingLp < TWO_32 && d.startingDrawCount < TWO_32 && d.drawCountPerTurn < TWO_32 && d.flags < Limit(8)
    && YrppHeaderSize(d) + HEADER_BYTES + 1 < TWO_32
  }

  function YrpBytes(d: Duel): seq<byte>
    requires |d.seed| == 4 && forall r :: r in d.responses ==> |r| < 256
  {
    [OLD_REPLAY_MODE] + HeaderBytes(YrppHeaderSize(d), d.seed) + PlayersBytes(d.players)
    + LE(d.startingLp, 4) + LE(d.startingDrawCount, 4) + LE(d.drawCountPerTurn, 4) + LE(d.flags, 8)
    + DecksBytes(Team(d.players, 0)) + DecksBytes(Team(d.players, 1))
    + LE(0, 4) + ResponsesBytes(d.responses)
  }

  function YrpxBytes(d: Duel, messages: seq<seq<byte>>): seq<byte>
    requires forall m :: m in messages ==> |m| > 0
  {
    PlayersBytes(d.players) + LE(d.flags, 8) + MessagesBytes(messages)
  }

  // ---- how long it is --------------------------------------------------------------------------------------

  function DecksSize(players: seq<Player>): nat {
    if players == [] then 0
    else
      var p := players[|players| - 1];
      DecksSize(players[..|players| - 1]) + 40 + 8 + |p.main| * 4 + |p.extra| * 4
  }

  function ResponsesSize(responses: seq<seq<byte>>): nat {
    if responses == [] then 0 else ResponsesSize(responses[..|responses| - 1]) + |responses[|responses| - 1]| + 1
  }

  function MessagesSize(messages: seq<seq<byte>>): nat {
    if messages == [] then 0 else MessagesSize(messages[..|messages| - 1]) + |messages[|messages| - 1]| + 4
  }

  /** The sizes announced before anything is written. */
  function YrppHeaderSize(d: Duel): nat {
    8 + 8 + 4 + 8 + DecksSize(Team(d.players, 0)) + DecksSize(Team(d.players, 1)) + 4 + ResponsesSize(d.responses)
  }

  function YrpxHeaderSize(players: seq<Player>, messages: seq<seq<byte>>): nat {
    8 + 8 + 40 * (|Team(players, 0)| + |Team(players, 1)|) + MessagesSize(messages)
  }

  lemma {:induction false} CodesLength(codes: seq<uint32>)
    ensures |CodesBytes(codes)| == 4 * |codes|
  {
    if codes != [] {
      CodesLength(codes[..|codes| - 1]);
    }
  }

  lemma {:induction false} NamesLength(players: seq<Player>)
    ensures |Names(players)| == 40 * |players|
  {
    if players != [] {
      NamesLength(players[..|players| - 1]);
    }
  }

  lemma {:induction false} DecksLength(players: seq<Player>)
    ensures DecksSize(players) == |DecksBytes(players)| + 40 * |players|
  {
    if players != [] {
      var p := players[|players| - 1];
      DecksLength(players[..|players| - 1]);
      CodesLength(p.main);
      CodesLength(p.extra);
    }
  }

  lemma {:induction false} ResponsesLength(responses: seq<seq<byte>>)
    requires forall r :: r in responses ==> |r| < 256
    ensures |ResponsesBytes(responses)| == ResponsesSize(responses)
  {
    if responses != [] {
      ResponsesLength(responses[..|responses| - 1]);
    }
  }

  lemma {:induction false} MessagesLength(messages: seq<seq<byte>>)
    requires forall m :: m in messages ==> |m| > 0
    ensures |MessagesBytes(messages)| == MessagesSize(messages)
  {
    if messages != [] {
      MessagesLength(messages[..|messages| - 1]);
    }
  }

  lemma PlayersLength(players: seq<Player>)
    ensures |PlayersBytes(players)| == 8 + 40 * (|Team(players, 0)| + |Team(players, 1)|)
  {
    NamesLength(Team(players, 0));
    NamesLength(Team(players, 1));
    hide LE, Names, Team;
  }

  /** The sizes computed in advance are exactly the lengths written. */
  lemma SizesAreExact(d: Duel, messages: seq<seq<byte>>)
    requires |d.seed| == 4 && (forall r :: r in d.responses ==> |r| < 256) && forall m :: m in messages ==> |m| > 0
    ensures |YrpBytes(d)| == YrppHeaderSize(d) + HEADER_BYTES + 1
    ensures |YrpxBytes(d, messages)| == YrpxHeaderSize(d.players, messages)
  {
    PlayersLength(d.players);
    DecksLength(Team(d.players, 0));
    DecksLength(Team(d.players, 1));
    ResponsesLength(d.responses);
    MessagesLength(messages);
    hide LE, PlayersBytes, DecksBytes, ResponsesBytes, MessagesBytes, HeaderBytes, Team, DecksSize, ResponsesSize, MessagesSize;
  }

  // ---- facts the writers and the reader share ------------------------------------------------------------------

  lemma {:induction false} TeamNotMore(players: seq<Player>, team: int)
    ensures |Team(players, team)| <= |players|
    ensures forall p :: p in Team(players, team) ==> p in players
  {
    if players != [] {
      TeamNotMore(players[..|players| - 1], team);
    }
  }

  lemma EncodableParts(d: Duel)
    requires Encodable(d)
    ensures |d.seed| == 4 && |d.players| < TWO_32
    ensures forall r :: r in d.responses ==> |r| < 256
    ensures forall p :: p in d.players ==> |p.main| < TWO_32 && |p.extra| < TWO_32
  {
  }

  lemma InARow(was: seq<byte>, a: seq<byte>, b: seq<byte>, c: seq<byte>, d: seq<byte>)
    ensures was + a + b + c + d == was + (a + b + c + d) && was + a + b + c + [] == was + a + b + c
  {
  }

  lemma ResponsesLast(responses: seq<seq<byte>>)
    requires forall r :: r in responses ==> |r| < 256
    ensures ResponsesBytes([]) == []
    ensures responses != [] ==>
              ResponsesBytes(responses)
              == ResponsesBytes(responses[..|responses| - 1]) + ResponseBytes(responses[|responses| - 1])
  {
    hide ResponseBytes;
  }

  lemma MessagesLast(messages: seq<seq<byte>>)
    requires forall m :: m in messages ==> |m| > 0
    ensures MessagesBytes([]) == []
    ensures messages != [] ==>
              MessagesBytes(messages) == MessagesBytes(messages[..|messages| - 1]) + MessageBytes(messages[|messages| - 1])
  {
    hide MessageBytes;
  }
}
