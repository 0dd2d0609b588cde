/**
  A reader of recorded duels. It follows the counts and length prefixes and knows nothing else of how the bytes
  came about; every value that was recorded comes back.
 */
module ReplayReader {
  import opened Options
  import opened Bits
  import opened Sequences
  import opened ReplayFormat

  // ---- reading it back ------------------------------------------------------------------------------------------

  function ReadResponses(b: seq<byte>): Option<seq<seq<byte>>>
    decreases |b|
  {
    if b == [] then Some([])
    else
      var n := b[0] as nat;
      if 1 + n > |b| then None
      else
        var rest := ReadResponses(b[1 + n..]);
        if rest.None? then None else Some([b[1..1 + n]] + rest.value)
  }

  function ReadMessages(b: seq<byte>): Option<seq<seq<byte>>>
    decreases |b|
  {
    if b == [] then Some([])
    else if |b| < 5 then None
    else
      var n := FromLE(b[1..5]);
      if 5 + n > |b| then None
      else
        var rest := ReadMessages(b[5 + n..]);
        if rest.None? then None else Some([[b[0]] + b[5..5 + n]] + rest.value)
  }

  lemma Rotated<T>(xs: seq<T>)
    requires |xs| > 1
    ensures var n := |xs| - 1;
            && xs[..n] != [] && xs[1..] != [] && xs[..n][0] == xs[0] && xs[1..][|xs[1..]| - 1] == xs[n]
            && xs[..n][1..] == xs[1..][..|xs[1..]| - 1]
            && forall x :: x in xs[..n] || x in xs[1..] ==> x in xs
  {
  }

  lemma {:induction false} ResponsesFirst(responses: seq<seq<byte>>)
    requires responses != [] && forall r :: r in responses ==> |r| < 256
    ensures ResponsesBytes(responses) == ResponseBytes(responses[0]) + ResponsesBytes(responses[1..])
  {
    hide *;
    var n := |responses| - 1;
    ResponsesLast(responses);
    if n == 0 {
      assert responses[..0] == [] && responses[1..] == [];
      Associates(ResponseBytes(responses[0]), [], []);
    } else {
      Rotated(responses);
      ResponsesLast(responses[1..]);
      ResponsesFirst(responses[..n]);
      Associates(ResponseBytes(responses[0]), ResponsesBytes(responses[..n][1..]), ResponseBytes(responses[n]));
    }
  }

  lemma ResponseHead(response: seq<byte>, rest: seq<byte>)
    requires |response| < 256
    ensures var b, n := ResponseBytes(response) + rest, |response|;
            b != [] && b[0] as nat == n && 1 + n <= |b| && b[1..1 + n] == response && b[1 + n..] == rest
  {
    var b, n := ResponseBytes(response) + rest, |response|;
    assert b[1..1 + n] == response;
    assert b[1 + n..] == rest;
  }

  lemma {:induction false} ResponsesRecovered(responses: seq<seq<byte>>)
    requires forall r :: r in responses ==> |r| < 256
    ensures ReadResponses(ResponsesBytes(responses)) == Some(responses)
  {
    hide ResponsesBytes, ResponseBytes;
    ResponsesLast([]);
    if responses != [] {
      ResponsesFirst(responses);
      ResponsesRecovered(responses[1..]);
      ResponseHead(responses[0], ResponsesBytes(responses[1..]));
      assert responses == [responses[0]] + responses[1..];
    }
  }

  lemma {:induction false} MessagesFirst(messages: seq<seq<byte>>)
    requires messages != [] && forall m :: m in messages ==> |m| > 0
    ensures MessagesBytes(messages) == MessageBytes(messages[0]) + MessagesBytes(messages[1..])
  {
    hide *;
    var n := |messages| - 1;
    MessagesLast(messages);
    if n == 0 {
      assert messages[..0] == [] && messages[1..] == [];
      Associates(MessageBytes(messages[0]), [], []);
    } else {
      Rotated(messages);
      MessagesLast(messages[1..]);
      MessagesFirst(messages[..n]);
      Associates(MessageBytes(messages[0]), MessagesBytes(messages[..n][1..]), MessageBytes(messages[n]));
    }
  }

  lemma MessageHead(message: seq<byte>, rest: seq<byte>)
    requires 0 < |message| <= TWO_32
    ensures var b, n := MessageBytes(message) + rest, |message| - 1;
            && |b| >= 5 && b[0] == message[0] && FromLE(b[1..5]) == n && 5 + n <= |b|
            && b[5..5 + n] == message[1..] && b[5 + n..] == rest
  {
    var b, n := MessageBytes(message) + rest, |message| - 1;
    Limits();
    NumberRecovered(n, 4);
    hide LE, FromLE, Limit;
    assert |MessageBytes(message)| == 5 + n;
    assert b[1..5] == LE(n, 4);
    assert b[5..5 + n] == message[1..];
    assert b[5 + n..] == rest;
  }

  lemma {:induction false} MessagesRecovered(messages: seq<seq<byte>>)
    requires forall m :: m in messages ==> 0 < |m| <= 0x1_0000_0000
    ensures ReadMessages(MessagesBytes(messages)) == Some(messages)
  {
    hide MessagesBytes, MessageBytes, FromLE;
    MessagesLast([]);
    if messages != [] {
      MessagesFirst(messages);
      MessagesRecovered(messages[1..]);
      MessageHead(messages[0], MessagesBytes(messages[1..]));
      assert messages[0] == [messages[0][0]] + messages[0][1..];
      assert messages == [messages[0]] + messages[1..];
    }
  }

  // ---- numbers -----------------------------------------------------------------------------------------------

  function Number(b: seq<byte>, n: nat): Option<(nat, seq<byte>)> {
    if |b| < n then None else Some((FromLE(b[..n]), b[n..]))
  }

  lemma NumberRead(v: nat, n: nat, rest: seq<byte>)
    requires v < Limit(n)
    ensures Number(LE(v, n) + rest, n) == Some((v, rest))
  {
    NumberRecovered(v, n);
    hide LE, FromLE, Limit;
    assert (LE(v, n) + rest)[..n] == LE(v, n) && (LE(v, n) + rest)[n..] == rest;
  }

  function Numbers(b: seq<byte>, count: nat, n: nat): Option<(seq<nat>, seq<byte>)>
    decreases count
  {
    if count == 0 then Some(([], b))
    else
      var first := Number(b, n);
      if first.None? then None
      else
        var more := Numbers(first.value.1, count - 1, n);
        if more.None? then None else Some(([first.value.0] + more.value.0, more.value.1))
  }

  function NumbersBytes(values: seq<nat>, n: nat): seq<byte> {
    if values == [] then [] else LE(values[0], n) + NumbersBytes(values[1..], n)
  }

  lemma {:induction false} NumbersRead(values: seq<nat>, n: nat, rest: seq<byte>)
    requires forall v :: v in values ==> v < Limit(n)
    ensures Numbers(NumbersBytes(values, n) + rest, |values|, n) == Some((values, rest))
  {
    hide Number, LE, Limit;
    if values == [] {
      assert NumbersBytes(values, n) + rest == rest;
    } else {
      var more := NumbersBytes(values[1..], n) + rest;
      assert NumbersBytes(values, n) + rest == LE(values[0], n) + more;
      assert values[0] in values && forall v :: v in values[1..] ==> v in values;
      NumberRead(values[0], n, more);
      NumbersRead(values[1..], n, rest);
      assert values == [values[0]] + values[1..];
    }
  }

  // ---- decks -------------------------------------------------------------------------------------------------

  datatype DeckRead = DeckRead(main: seq<nat>, extra: seq<nat>)

  function Codes(b: seq<byte>): Option<(seq<nat>, seq<byte>)> {
    var count := Number(b, 4);
    if count.None? then None else Numbers(count.value.1, count.value.0, 4)
  }

  function Deck(b: seq<byte>): Option<(DeckRead, seq<byte>)> {
    var main := Codes(b);
    if main.None? then None
    else
      var extra := Codes(main.value.1);
      if extra.None? then None else Some((DeckRead(main.value.0, extra.value.0), extra.value.1))
  }

  function Decks(b: seq<byte>, count: nat): Option<(seq<DeckRead>, seq<byte>)>
    decreases count
  {
    if count == 0 then Some(([], b))
    else
      var first := Deck(b);
      if first.None? then None
      else
        var more := Decks(first.value.1, count - 1);
        if more.None? then None else Some(([first.value.0] + more.value.0, more.value.1))
  }

  function DecksOf(players: seq<Player>): (r: seq<DeckRead>)
    ensures |r| == |players|
  {
    seq(|players|, i requires 0 <= i < |players| => DeckRead(players[i].main, players[i].extra))
  }

  lemma {:induction false} CodesAreNumbers(codes: seq<uint32>)
    ensures CodesBytes(codes) == NumbersBytes(codes, 4)
    decreases |codes|
  {
    if codes != [] {
      var n := |codes| - 1;
      hide LE;
      CodesAreNumbers(codes[..n]);
      NumbersLast(codes, 4);
    }
  }

  lemma {:induction false} NumbersLast(values: seq<nat>, n: nat)
    requires values != []
    ensures NumbersBytes(values, n) == NumbersBytes(values[..|values| - 1], n) + LE(values[|values| - 1], n)
  {
    hide LE;
    if |values| == 1 {
      assert values[1..] == [] && values[..0] == [];
    } else {
      var rest := values[1..];
      NumbersLast(rest, n);
      assert values[..|values| - 1][1..] == rest[..|rest| - 1];
      Associates(LE(values[0], n), NumbersBytes(rest[..|rest| - 1], n), LE(values[|values| - 1], n));
    }
  }

  lemma CodesRead(codes: seq<uint32>, rest: seq<byte>)
    requires |codes| < TWO_32
    ensures Codes(LE(|codes|, 4) + CodesBytes(codes) + rest) == Some((codes, rest))
  {
    Limits();
    CodesAreNumbers(codes);
    hide LE, Limit, CodesBytes, NumbersBytes, Number, Numbers;
    Associates(LE(|codes|, 4), CodesBytes(codes), rest);
    NumberRead(|codes|, 4, CodesBytes(codes) + rest);
    NumbersRead(codes, 4, rest);
  }

  lemma OneDeckRead(p: Player, rest: seq<byte>)
    requires |p.main| < TWO_32 && |p.extra| < TWO_32
    ensures Deck(DeckBytes(p) + rest) == Some((DeckRead(p.main, p.extra), rest))
  {
    var second := LE(|p.extra|, 4) + CodesBytes(p.extra) + rest;
    assert DeckBytes(p) + rest == LE(|p.main|, 4) + CodesBytes(p.main) + second;
    hide Codes, LE, CodesBytes, DeckBytes;
    CodesRead(p.main, second);
    CodesRead(p.extra, rest);
  }

  lemma DecksLast(players: seq<Player>)
    ensures DecksBytes([]) == []
    ensures players != [] ==>
              DecksBytes(players) == DecksBytes(players[..|players| - 1]) + DeckBytes(players[|players| - 1])
  {
    hide DeckBytes;
  }

  lemma {:induction false} DecksFirst(players: seq<Player>)
    requires players != []
    ensures DecksBytes(players) == DeckBytes(players[0]) + DecksBytes(players[1..])
  {
    hide *;
    var n := |players| - 1;
    DecksLast(players);
    if n == 0 {
      assert players[..0] == [] && players[1..] == [];
      Associates(DeckBytes(players[0]), [], []);
    } else {
      Rotated(players);
      DecksLast(players[1..]);
      DecksFirst(players[..n]);
      Associates(DeckBytes(players[0]), DecksBytes(players[..n][1..]), DeckBytes(players[n]));
    }
  }

  lemma {:induction false} DecksRead(players: seq<Player>, rest: seq<byte>)
    requires forall p :: p in players ==> |p.main| < TWO_32 && |p.extra| < TWO_32
    ensures Decks(DecksBytes(players) + rest, |players|) == Some((DecksOf(players), rest))
  {
    hide Deck, DeckBytes, DecksBytes;
    if players == [] {
      DecksLast(players);
      assert DecksBytes(players) + rest == rest;
    } else {
      DecksFirst(players);
      var more := DecksBytes(players[1..]) + rest;
      assert DecksBytes(players) + rest == DeckBytes(players[0]) + more;
      OneDeckRead(players[0], more);
      DecksRead(players[1..], rest);
      assert DecksOf(players) == [DeckRead(players[0].main, players[0].extra)] + DecksOf(players[1..]);
    }
  }

  // ---- names --------------------------------------------------------------------------------------------------

  /** A name as its field shows it: twenty characters of sixteen bits. */
  function Units(field: seq<byte>): seq<nat>
    requires |field| == NAME_BYTES
  {
    seq(20, i requires 0 <= i < 20 => (field[2 * i] as nat) + 256 * (field[2 * i + 1] as nat))
  }

  /** The first twenty bytes of a name, filled up with zeros. */
  function ShownName(name: seq<byte>): seq<nat> {
    seq(20, i requires 0 <= i < 20 => if i < |name| then name[i] else 0)
  }

  function Fields(b: seq<byte>, count: nat): Option<(seq<seq<nat>>, seq<byte>)>
    decreases count
  {
    if count == 0 then Some(([], b))
    else if |b| < NAME_BYTES then None
    else
      var more := Fields(b[NAME_BYTES..], count - 1);
      if more.None? then None else Some(([Units(b[..NAME_BYTES])] + more.value.0, more.value.1))
  }

  function NamesRead(b: seq<byte>): Option<(seq<seq<nat>>, seq<byte>)> {
    var count := Number(b, 4);
    if count.None? then None else Fields(count.value.1, count.value.0)
  }

  function NamesOf(players: seq<Player>): (r: seq<seq<nat>>)
    ensures |r| == |players|
  {
    seq(|players|, i requires 0 <= i < |players| => ShownName(players[i].name))
  }

  lemma NameShown(name: seq<byte>)
    ensures Units(NameField(name)) == ShownName(name)
  {
  }

  lemma NamesLast(players: seq<Player>)
    ensures Names([]) == []
    ensures players != [] ==> Names(players) == Names(players[..|players| - 1]) + NameField(players[|players| - 1].name)
  {
    hide NameField;
  }

  lemma {:induction false} NamesFirst(players: seq<Player>)
    requires players != []
    ensures Names(players) == NameField(players[0].name) + Names(players[1..])
  {
    hide *;
    var n := |players| - 1;
    NamesLast(players);
    if n == 0 {
      assert players[..0] == [] && players[1..] == [];
      Associates(NameField(players[0].name), [], []);
    } else {
      Rotated(players);
      NamesLast(players[1..]);
      NamesFirst(players[..n]);
      Associates(NameField(players[0].name), Names(players[..n][1..]), NameField(players[n].name));
    }
  }

  lemma {:induction false} FieldsRead(players: seq<Player>, rest: seq<byte>)
    ensures Fields(Names(players) + rest, |players|) == Some((NamesOf(players), rest))
  {
    hide NameField, Names, Units, ShownName;
    NamesLast(players);
    if players == [] {
      assert Names(players) + rest == rest;
    } else {
      NamesFirst(players);
      var field, more := NameField(players[0].name), Names(players[1..]) + rest;
      assert Names(players) + rest == field + more;
      assert (field + more)[..NAME_BYTES] == field && (field + more)[NAME_BYTES..] == more;
      NameShown(players[0].name);
      FieldsRead(players[1..], rest);
      assert NamesOf(players) == [ShownName(players[0].name)] + NamesOf(players[1..]);
    }
  }

  lemma TeamNamesRead(players: seq<Player>, rest: seq<byte>)
    requires |players| < TWO_32
    ensures NamesRead(LE(|players|, 4) + Names(players) + rest) == Some((NamesOf(players), rest))
  {
    Limits();
    hide LE, Limit, Names, Number, Fields;
    Associates(LE(|players|, 4), Names(players), rest);
    NumberRead(|players|, 4, Names(players) + rest);
    FieldsRead(players, rest);
  }

  datatype Teams = Teams(first: seq<seq<nat>>, second: seq<seq<nat>>)

  /** Both teams' names. */
  function Players(b: seq<byte>): Option<(Teams, seq<byte>)> {
    var first := NamesRead(b);
    if first.None? then None
    else
      var second := NamesRead(first.value.1);
      if second.None? then None else Some((Teams(first.value.0, second.value.0), second.value.1))
  }

  function TeamsOf(players: seq<Player>): Teams {
    Teams(NamesOf(Team(players, 0)), NamesOf(Team(players, 1)))
  }

  lemma PlayersRead(players: seq<Player>, rest: seq<byte>)
    requires |players| < TWO_32
    ensures Players(PlayersBytes(players) + rest) == Some((TeamsOf(players), rest))
  {
    var t0, t1 := Team(players, 0), Team(players, 1);
    var second := LE(|t1|, 4) + Names(t1) + rest;
    TeamNotMore(players, 0);
    TeamNotMore(players, 1);
    hide LE, Names, Team, NamesRead, NamesOf;
    assert PlayersBytes(players) + rest == LE(|t0|, 4) + Names(t0) + second;
    hide PlayersBytes;
    TeamNamesRead(t0, second);
    TeamNamesRead(t1, rest);
  }

  /** A team is the players of that number, in the order they sit. */
  lemma {:induction false} TeamIs(before: seq<Player>, p: Player, after: seq<Player>, team: int)
    ensures Team(before + [p] + after, team) == Team(before, team) + (if p.team == team then [p] else []) + Team(after, team)
    decreases |after|
  {
    var all := before + [p] + after;
    if after == [] {
      assert all[..|all| - 1] == before;
      assert Team(before, team) + (if p.team == team then [p] else []) + [] == Team(before, team) + (if p.team == team then [p] else []);
    } else {
      assert all[..|all| - 1] == before + [p] + after[..|after| - 1];
      TeamIs(before, p, after[..|after| - 1], team);
    }
  }

  // ---- whole replays ------------------------------------------------------------------------------------------

  /** The fields of the extended header; its eight property bytes are read as one number. */
  datatype Header = Header(
    kind: nat,
    version: nat,
    flags: nat,
    timestamp: nat,
    size: nat,
    hash: nat,
    properties: nat,
    extendedVersion: nat,
    seed: seq<nat>)

  function ReadHeader(b: seq<byte>): Option<(Header, seq<byte>)> {
    var words := Numbers(b, 6, 4);
    if words.None? then None
    else
      var longs := Numbers(words.value.1, 6, 8);
      if longs.None? || |words.value.0| != 6 || |longs.value.0| != 6 then None
      else
        var w, l := words.value.0, longs.value.0;
        Some((Header(w[0], w[1], w[2], w[3], w[4], w[5], l[0], l[1], l[2..]), longs.value.1))
  }

  function HeaderOf(d: Duel): Header {
    Header(REPLAY_YRP1, 655656, 0x330, 0, YrppHeaderSize(d), 0, 0, 1, d.seed)
  }

  datatype Rules = Rules(startingLp: nat, startingDrawCount: nat, drawCountPerTurn: nat, flags: nat)

  function ReadRules(b: seq<byte>): Option<(Rules, seq<byte>)> {
    var words := Numbers(b, 3, 4);
    if words.None? || |words.value.0| != 3 then None
    else
      var flags := Number(words.value.1, 8);
      if flags.None? then None
      else Some((Rules(words.value.0[0], words.value.0[1], words.value.0[2], flags.value.0), flags.value.1))
  }

  function RulesOf(d: Duel): Rules {
    Rules(d.startingLp, d.startingDrawCount, d.drawCountPerTurn, d.flags)
  }

  lemma Six(a: nat, b: nat, c: nat, d: nat, e: nat, f: nat, n: nat)
    ensures NumbersBytes([a, b, c, d, e, f], n) == LE(a, n) + LE(b, n) + LE(c, n) + LE(d, n) + LE(e, n) + LE(f, n)
  {
    hide LE;
    NumbersLast([a, b, c, d, e, f], n);
    Five(a, b, c, d, e, n);
    assert [a, b, c, d, e, f][..5] == [a, b, c, d, e];
  }

  lemma Five(a: nat, b: nat, c: nat, d: nat, e: nat, n: nat)
    ensures NumbersBytes([a, b, c, d, e], n) == LE(a, n) + LE(b, n) + LE(c, n) + LE(d, n) + LE(e, n)
  {
    hide LE;
    NumbersLast([a, b, c, d, e], n);
    NumbersLast([a, b, c, d], n);
    Three(a, b, c, n);
    assert [a, b, c, d, e][..4] == [a, b, c, d] && [a, b, c, d][..3] == [a, b, c];
  }

  lemma Three(a: nat, b: nat, c: nat, n: nat)
    ensures NumbersBytes([a, b, c], n) == LE(a, n) + LE(b, n) + LE(c, n)
  {
    hide LE;
    NumbersLast([a, b, c], n);
    NumbersLast([a, b], n);
    NumbersLast([a], n);
    assert [a, b, c][..2] == [a, b] && [a, b][..1] == [a] && [a][..0] == [];
    assert [] + LE(a, n) == LE(a, n);
  }

  lemma HeaderWritten(size: nat, seed: seq<nat>)
    requires |seed| == 4
    ensures HeaderBytes(size, seed) ==
            NumbersBytes([REPLAY_YRP1, REPLAY_VERSION, REPLAY_FLAGS, 0, size, 0], 4)
            + NumbersBytes([0, 1, seed[0], seed[1], seed[2], seed[3]], 8)
  {
    Six(REPLAY_YRP1, REPLAY_VERSION, REPLAY_FLAGS, 0, size, 0, 4);
    Six(0, 1, seed[0], seed[1], seed[2], seed[3], 8);
    hide LE, NumbersBytes, REPLAY_YRP1, REPLAY_VERSION, REPLAY_FLAGS;
    var words := LE(REPLAY_YRP1, 4) + LE(REPLAY_VERSION, 4) + LE(REPLAY_FLAGS, 4) + LE(0, 4) + LE(size, 4) + LE(0, 4);
    InARow(words, LE(0, 8), LE(1, 8), SeedBytes(seed), []);
    InARow(LE(0, 8) + LE(1, 8), LE(seed[0], 8), LE(seed[1], 8), LE(seed[2], 8), LE(seed[3], 8));
  }

  lemma HeaderRead(d: Duel, rest: seq<byte>)
    requires Encodable(d)
    ensures ReadHeader(HeaderBytes(YrppHeaderSize(d), d.seed) + rest) == Some((HeaderOf(d), rest))
  {
    hide *;
    HeaderFits(d);
    var size, seed := YrppHeaderSize(d), d.seed;
    HeaderWritten(size, seed);
    HeaderValuesRead(size, seed[0], seed[1], seed[2], seed[3], rest);
    HeaderIs(d);
  }

  lemma HeaderFits(d: Duel)
    requires Encodable(d)
    ensures |d.seed| == 4 && d.seed[0] < Limit(8) && d.seed[1] < Limit(8) && d.seed[2] < Limit(8) && d.seed[3] < Limit(8)
    ensures YrppHeaderSize(d) < Limit(4)
  {
    Limits();
    hide YrppHeaderSize, Limit;
  }

  lemma HeaderIs(d: Duel)
    requires |d.seed| == 4
    ensures HeaderOf(d) == Header(REPLAY_YRP1, REPLAY_VERSION, REPLAY_FLAGS, 0, YrppHeaderSize(d), 0, 0, 1,
                                  [d.seed[0], d.seed[1], d.seed[2], d.seed[3]])
    ensures REPLAY_YRP1 < Limit(4) && REPLAY_VERSION < Limit(4) && REPLAY_FLAGS < Limit(4)
  {
    Limits();
    hide YrppHeaderSize;
  }

  lemma HeaderValuesRead(size: nat, s0: nat, s1: nat, s2: nat, s3: nat, rest: seq<byte>)
    requires size < Limit(4) && s0 < Limit(8) && s1 < Limit(8) && s2 < Limit(8) && s3 < Limit(8)
    ensures ReadHeader(NumbersBytes([REPLAY_YRP1, REPLAY_VERSION, REPLAY_FLAGS, 0, size, 0], 4)
                       + NumbersBytes([0, 1, s0, s1, s2, s3], 8) + rest)
            == Some((Header(REPLAY_YRP1, REPLAY_VERSION, REPLAY_FLAGS, 0, size, 0, 0, 1, [s0, s1, s2, s3]), rest))
  {
    Limits();
    assert REPLAY_YRP1 < Limit(4) && REPLAY_VERSION < Limit(4) && REPLAY_FLAGS < Limit(4);
    hide *;
    var words: seq<nat>, longs: seq<nat> := [REPLAY_YRP1, REPLAY_VERSION, REPLAY_FLAGS, 0, size, 0], [0, 1, s0, s1, s2, s3];
    Associates(NumbersBytes(words, 4), NumbersBytes(longs, 8), rest);
    SixRead(REPLAY_YRP1, REPLAY_VERSION, REPLAY_FLAGS, 0, size, 0, 4, NumbersBytes(longs, 8) + rest);
    SixRead(0, 1, s0, s1, s2, s3, 8, rest);
    assert longs[2..] == [s0, s1, s2, s3];
    HeaderStages(NumbersBytes(words, 4) + (NumbersBytes(longs, 8) + rest), words, NumbersBytes(longs, 8) + rest, longs, rest);
  }

  lemma SixRead(a: nat, b: nat, c: nat, d: nat, e: nat, f: nat, n: nat, rest: seq<byte>)
    requires a < Limit(n) && b < Limit(n) && c < Limit(n) && d < Limit(n) && e < Limit(n) && f < Limit(n)
    ensures Numbers(NumbersBytes([a, b, c, d, e, f], n) + rest, 6, n) == Some(([a, b, c, d, e, f], rest))
  {
    hide *;
    NumbersRead([a, b, c, d, e, f], n, rest);
  }

  lemma HeaderStages(b: seq<byte>, w: seq<nat>, b1: seq<byte>, l: seq<nat>, b2: seq<byte>)
    requires |w| == 6 && |l| == 6 && Numbers(b, 6, 4) == Some((w, b1)) && Numbers(b1, 6, 8) == Some((l, b2))
    ensures ReadHeader(b) == Some((Header(w[0], w[1], w[2], w[3], w[4], w[5], l[0], l[1], l[2..]), b2))
  {
    hide Numbers;
  }

  lemma RulesRead(d: Duel, rest: seq<byte>)
    requires Encodable(d)
    ensures ReadRules(LE(d.startingLp, 4) + LE(d.startingDrawCount, 4) + LE(d.drawCountPerTurn, 4) + LE(d.flags, 8) + rest)
            == Some((RulesOf(d), rest))
  {
    var words := [d.startingLp, d.startingDrawCount, d.drawCountPerTurn];
    Limits();
    Three(d.startingLp, d.startingDrawCount, d.drawCountPerTurn, 4);
    hide LE, NumbersBytes, Numbers, Number, Limit, YrppHeaderSize;
    Associates(NumbersBytes(words, 4), LE(d.flags, 8), rest);
    NumbersRead(words, 4, LE(d.flags, 8) + rest);
    NumberRead(d.flags, 8, rest);
  }

  /** What a reader makes of an old-style replay. */
  datatype OldReplay = OldReplay(
    mode: byte,
    header: Header,
    teams: Teams,
    rules: Rules,
    decks: seq<DeckRead>,
    extraCards: seq<nat>,
    responses: seq<seq<byte>>)

  /** A duel as an old-style replay shows it: decks and names team 0 first, no extra cards. */
  function OldReplayOf(d: Duel): OldReplay {
    OldReplay(231, HeaderOf(d), TeamsOf(d.players), RulesOf(d), DecksOf(Team(d.players, 0)) + DecksOf(Team(d.players, 1)), [], d.responses)
  }

  /** The decks of both teams, the extra cards, and the responses to the end. */
  function ReadCards(b: seq<byte>, count: nat): Option<(seq<DeckRead>, seq<nat>, seq<seq<byte>>)> {
    var decks := Decks(b, count);
    if decks.None? then None
    else
      var extras := Codes(decks.value.1);
      if extras.None? then None
      else
        var responses := ReadResponses(extras.value.1);
        if responses.None? then None else Some((decks.value.0, extras.value.0, responses.value))
  }

  function ReadYrp(b: seq<byte>): Option<OldReplay> {
    if b == [] then None
    else
      var header := ReadHeader(b[1..]);
      if header.None? then None
      else
        var teams := Players(header.value.1);
        if teams.None? then None
        else
          var rules := ReadRules(teams.value.1);
          if rules.None? then None
          else
            var cards := ReadCards(rules.value.1, |teams.value.0.first| + |teams.value.0.second|);
            if cards.None? then None
            else
              Some(OldReplay(b[0], header.value.0, teams.value.0, rules.value.0, cards.value.0, cards.value.1, cards.value.2))
  }

  datatype Stream = Stream(teams: Teams, flags: nat, messages: seq<seq<byte>>)

  function ReadYrpx(b: seq<byte>): Option<Stream> {
    var teams := Players(b);
    if teams.None? then None
    else
      var flags := Number(teams.value.1, 8);
      if flags.None? then None
      else
        var messages := ReadMessages(flags.value.1);
        if messages.None? then None else Some(Stream(teams.value.0, flags.value.0, messages.value))
  }

  lemma TwoTeamsRead(t0: seq<Player>, t1: seq<Player>, rest: seq<byte>)
    requires forall p :: p in t0 || p in t1 ==> |p.main| < TWO_32 && |p.extra| < TWO_32
    ensures Decks(DecksBytes(t0) + (DecksBytes(t1) + rest), |t0| + |t1|) == Some((DecksOf(t0) + DecksOf(t1), rest))
  {
    hide DecksBytes, Decks, DecksOf;
    DecksRead(t0, DecksBytes(t1) + rest);
    DecksRead(t1, rest);
    DecksGoOn(DecksBytes(t0) + (DecksBytes(t1) + rest), |t0|, |t1|);
  }

  /** Reading some decks and then more is reading them all. */
  lemma {:induction false} DecksGoOn(b: seq<byte>, count: nat, more: nat)
    requires Decks(b, count).Some? && Decks(Decks(b, count).value.1, more).Some?
    ensures var first := Decks(b, count).value;
            Decks(b, count + more) == Some((first.0 + Decks(first.1, more).value.0, Decks(first.1, more).value.1))
    decreases count
  {
    hide Deck;
    if count == 0 {
      assert [] + Decks(b, more).value.0 == Decks(b, more).value.0;
    } else {
      var first, rest := Deck(b).value.0, Deck(b).value.1;
      DecksGoOn(rest, count - 1, more);
      var second := Decks(rest, count - 1).value;
      Associates([first], second.0, Decks(second.1, more).value.0);
    }
  }

  lemma CardsRead(d: Duel)
    requires Encodable(d)
    ensures var t0, t1 := Team(d.players, 0), Team(d.players, 1);
            ReadCards(DecksBytes(t0) + (DecksBytes(t1) + (LE(0, 4) + [] + ResponsesBytes(d.responses))), |t0| + |t1|)
            == Some((DecksOf(t0) + DecksOf(t1), [], d.responses))
  {
    var t0, t1 := Team(d.players, 0), Team(d.players, 1);
    hide *;
    EncodableParts(d);
    TeamNotMore(d.players, 0);
    TeamNotMore(d.players, 1);
    NoCodes();
    var extras := LE(0, 4) + [] + ResponsesBytes(d.responses);
    TwoTeamsRead(t0, t1, extras);
    CodesRead([], ResponsesBytes(d.responses));
    ResponsesRecovered(d.responses);
    CardsStages(DecksBytes(t0) + (DecksBytes(t1) + extras), |t0| + |t1|, DecksOf(t0) + DecksOf(t1), extras,
                ResponsesBytes(d.responses), d.responses);
  }

  lemma NoCodes()
    ensures CodesBytes([]) == []
  {
  }

  lemma CardsStages(b: seq<byte>, count: nat, decks: seq<DeckRead>, b1: seq<byte>, b2: seq<byte>, responses: seq<seq<byte>>)
    requires Decks(b, count) == Some((decks, b1)) && Codes(b1) == Some(([], b2)) && ReadResponses(b2) == Some(responses)
    ensures ReadCards(b, count) == Some((decks, [], responses))
  {
    hide Decks, Codes, ReadResponses;
  }

  /**
    A reader of an old-style replay gets back the seed, both teams' names, the rules of the duel, each player's main
    and extra deck card by card, team 0 before team 1, and the responses.
   */
  lemma YrpRecovered(d: Duel)
    requires Encodable(d)
    ensures ReadYrp(YrpBytes(d)) == Some(OldReplayOf(d))
  {
    hide *;
    EncodableParts(d);
    var t0, t1 := Team(d.players, 0), Team(d.players, 1);
    var header := HeaderBytes(YrppHeaderSize(d), d.seed);
    var rules := LE(d.startingLp, 4) + LE(d.startingDrawCount, 4) + LE(d.drawCountPerTurn, 4) + LE(d.flags, 8);
    var cards := DecksBytes(t0) + (DecksBytes(t1) + (LE(0, 4) + [] + ResponsesBytes(d.responses)));
    YrpParts(d);
    HeaderRead(d, PlayersBytes(d.players) + (rules + cards));
    PlayersRead(d.players, rules + cards);
    RulesRead(d, cards);
    CardsRead(d);
    OldReplayIs(d);
    YrpStages(YrpBytes(d), header + (PlayersBytes(d.players) + (rules + cards)), HeaderOf(d),
              PlayersBytes(d.players) + (rules + cards), TeamsOf(d.players), rules + cards, RulesOf(d), cards,
              DecksOf(t0) + DecksOf(t1), [], d.responses);
  }

  lemma OldReplayIs(d: Duel)
    ensures OldReplayOf(d) ==
            OldReplay(231, HeaderOf(d), TeamsOf(d.players), RulesOf(d), DecksOf(Team(d.players, 0)) + DecksOf(Team(d.players, 1)),
                      [], d.responses)
    ensures |TeamsOf(d.players).first| + |TeamsOf(d.players).second| == |Team(d.players, 0)| + |Team(d.players, 1)|
  {
    hide HeaderOf, RulesOf, DecksOf, Team;
  }

  lemma YrpParts(d: Duel)
    requires |d.seed| == 4 && forall r :: r in d.responses ==> |r| < 256
    ensures var t0, t1 := Team(d.players, 0), Team(d.players, 1);
            var header := HeaderBytes(YrppHeaderSize(d), d.seed);
            var rules := LE(d.startingLp, 4) + LE(d.startingDrawCount, 4) + LE(d.drawCountPerTurn, 4) + LE(d.flags, 8);
            var cards := DecksBytes(t0) + (DecksBytes(t1) + (LE(0, 4) + [] + ResponsesBytes(d.responses)));
            YrpBytes(d) == [231] + (header + (PlayersBytes(d.players) + (rules + cards)))
  {
    hide PlayersBytes, DecksBytes, ResponsesBytes, LE, HeaderBytes, Team, YrppHeaderSize;
    var front := [OLD_REPLAY_MODE] + HeaderBytes(YrppHeaderSize(d), d.seed);
    var rules := LE(d.startingLp, 4) + LE(d.startingDrawCount, 4) + LE(d.drawCountPerTurn, 4) + LE(d.flags, 8);
    InARow(front + PlayersBytes(d.players), LE(d.startingLp, 4), LE(d.startingDrawCount, 4), LE(d.drawCountPerTurn, 4), LE(d.flags, 8));
    Nested(front, PlayersBytes(d.players), rules, DecksBytes(Team(d.players, 0)), DecksBytes(Team(d.players, 1)), LE(0, 4),
           ResponsesBytes(d.responses));
    Associates([OLD_REPLAY_MODE], HeaderBytes(YrppHeaderSize(d), d.seed),
               PlayersBytes(d.players)
               + (rules + (DecksBytes(Team(d.players, 0)) + (DecksBytes(Team(d.players, 1))
                                                             + (LE(0, 4) + [] + ResponsesBytes(d.responses))))));
  }

  lemma Nested(x: seq<byte>, p: seq<byte>, r: seq<byte>, d0: seq<byte>, d1: seq<byte>, e: seq<byte>, z: seq<byte>)
    ensures x + p + r + d0 + d1 + e + z == x + (p + (r + (d0 + (d1 + (e + [] + z)))))
  {
    Associates(x + p + r + d0 + d1, e, z);
    Associates(x + p + r + d0, d1, e + z);
    Associates(x + p + r, d0, d1 + (e + z));
    Associates(x + p, r, d0 + (d1 + (e + z)));
    Associates(x, p, r + (d0 + (d1 + (e + z))));
    Associates(e, [], []);
  }

  lemma YrpStages(b: seq<byte>, b1: seq<byte>, header: Header, b2: seq<byte>, teams: Teams, b3: seq<byte>, rules: Rules,
                  b4: seq<byte>, decks: seq<DeckRead>, extras: seq<nat>, responses: seq<seq<byte>>)
    requires b == [231] + b1 && ReadHeader(b1) == Some((header, b2)) && Players(b2) == Some((teams, b3))
    requires ReadRules(b3) == Some((rules, b4))
    requires ReadCards(b4, |teams.first| + |teams.second|) == Some((decks, extras, responses))
    ensures ReadYrp(b) == Some(OldReplay(231, header, teams, rules, decks, extras, responses))
  {
    hide ReadHeader, Players, ReadRules, ReadCards;
    assert b[1..] == b1 && b[0] == 231;
  }

  /** A reader of the decoded stream gets back both teams' names, the flags, and every message, in order. */
  lemma YrpxRecovered(d: Duel, messages: seq<seq<byte>>)
    requires |d.players| < TWO_32 && d.flags < Limit(8) && forall m :: m in messages ==> 0 < |m| <= 0x1_0000_0000
    ensures ReadYrpx(YrpxBytes(d, messages)) == Some(Stream(TeamsOf(d.players), d.flags, messages))
  {
    hide PlayersBytes, MessagesBytes, LE, Limit, Players, TeamsOf, Number, ReadMessages;
    Associates(PlayersBytes(d.players), LE(d.flags, 8), MessagesBytes(messages));
    PlayersRead(d.players, LE(d.flags, 8) + MessagesBytes(messages));
    NumberRead(d.flags, 8, MessagesBytes(messages));
    MessagesRecovered(messages);
  }
}
