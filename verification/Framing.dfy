/**
  Reassembling the client protocol's frames, each behind a 16-bit length, from a byte stream that arrives
  in arbitrary chunks.
 */
module Framing {
  import opened Options
  import opened Bits
  import opened Sequences

  // ---- one reader ---------------------------------------------------------------------------------

  /** The fields of the processor. `previous` is what the last non-empty payload but one left behind. */
  datatype Reader = Reader(
    buffer: seq<byte>,
    size: nat,
    command: byte,
    data: seq<byte>,
    raw: seq<byte>,
    previous: Option<seq<byte>>,
    previousRaw: Option<seq<byte>>)

  const START := Reader([], 0, 0, [], [], None, None)

  /** What listeners are handed for one frame. */
  datatype Payload = Payload(
    size: nat,
    command: byte,
    data: seq<byte>,
    raw: seq<byte>,
    previous: Option<seq<byte>>,
    previousRaw: Option<seq<byte>>)

  function PayloadOf(r: Reader): Payload {
    Payload(r.size, r.command, r.data, r.raw, r.previous, r.previousRaw)
  }

  function Signed16(b: seq<byte>): int
    requires |b| >= 2
  {
    var u := Unsigned16(b);
    if u >= 0x8000 then u - 0x1_0000 else u
  }

  /** Readiness is judged by the prefix read as a signed number. */
  predicate Ready(b: seq<byte>) {
    |b| >= 2 && |b| - 2 >= Signed16(b)
  }

  datatype Step = Took(reader: Reader) | Crashed(reader: Reader)

  /** Takes one frame by the prefix read as an unsigned number; a buffer without a command byte cannot be read. */
  function Process(r: Reader): Step
    requires Ready(r.buffer)
  {
    var b, u := r.buffer, Unsigned16(r.buffer);
    var kept := if r.data != [] then r.(previous := Some(r.data), previousRaw := Some(r.raw), size := u) else r.(size := u);
    if |b| == 2 then Crashed(kept)
    else Took(kept.(command := b[2], data := Slice(b, 3, u + 2), raw := Slice(b, 0, u + 2), buffer := Slice(b, u + 2, |b|)))
  }

  lemma ProcessShrinks(r: Reader)
    requires Ready(r.buffer)
    ensures Process(r).Took? ==> |Process(r).reader.buffer| < |r.buffer|
  {
  }

  datatype Run = Run(delivered: seq<Payload>, reader: Reader, crashed: bool)

  /** Frame after frame until the buffer holds no more. */
  function Drain(r: Reader): Run
    decreases |r.buffer|
  {
    if !Ready(r.buffer) then Run([], r, false)
    else
      match Process(r)
      case Crashed(after) => Run([], after, true)
      case Took(after) =>
        ProcessShrinks(r);
        var rest := Drain(after);
        Run([PayloadOf(after)] + rest.delivered, rest.reader, rest.crashed)
  }

  function Receive(r: Reader, chunk: seq<byte>): Run {
    Drain(r.(buffer := r.buffer + chunk))
  }

  /** Chunk after chunk, until a read fails. */
  function Feed(r: Reader, chunks: seq<seq<byte>>): Run
    decreases |chunks|
  {
    if chunks == [] then Run([], r, false)
    else
      var first := Receive(r, chunks[0]);
      if first.crashed then first
      else
        var rest := Feed(first.reader, chunks[1..]);
        Run(first.delivered + rest.delivered, rest.reader, rest.crashed)
  }

  function Concat(chunks: seq<seq<byte>>): seq<byte> {
    if chunks == [] then [] else chunks[0] + Concat(chunks[1..])
  }

  // ---- chunks do not matter ---------------------------------------------------------------------------

  /** Sizes on which the signed and the unsigned reading agree and a command byte fits. */
  predicate GoodSize(u: nat) {
    1 <= u <= 0x7fff
  }

  /** Reading comes to a prefix of size 0 or 0x8000 and above with more bytes behind it. */
  predicate MeetsBadPrefix(b: seq<byte>)
    decreases |b|
  {
    |b| >= 2 &&
    var u := Unsigned16(b);
    if !GoodSize(u) then |b| > 2 else u + 2 <= |b| && MeetsBadPrefix(b[u + 2..])
  }

  lemma GoodFrame(r: Reader, y: seq<byte>)
    requires |r.buffer| >= 2 && GoodSize(Unsigned16(r.buffer)) && Unsigned16(r.buffer) + 2 <= |r.buffer|
    ensures Ready(r.buffer) && Process(r).Took?
    ensures Process(r).reader.buffer == r.buffer[Unsigned16(r.buffer) + 2..]
    ensures var longer := r.(buffer := r.buffer + y);
            && Unsigned16(longer.buffer) == Unsigned16(r.buffer)
            && Ready(longer.buffer)
            && Process(longer) == Took(Process(r).reader.(buffer := Process(r).reader.buffer + y))
  {
    var u := Unsigned16(r.buffer);
    assert (r.buffer + y)[u + 2..] == r.buffer[u + 2..] + y;
    assert (r.buffer + y)[..u + 2] == r.buffer[..u + 2];
    assert (r.buffer + y)[3..u + 2] == r.buffer[3..u + 2];
  }

  function Front(p: Payload, run: Run): Run {
    Run([p] + run.delivered, run.reader, run.crashed)
  }

  lemma DrainTakes(r: Reader)
    requires Ready(r.buffer) && Process(r).Took?
    ensures Drain(r) == Front(PayloadOf(Process(r).reader), Drain(Process(r).reader))
  {
  }

  lemma DrainRests(r: Reader)
    requires !Ready(r.buffer)
    ensures Drain(r) == Run([], r, false)
  {
  }

  lemma DrainCrashes(r: Reader)
    requires |r.buffer| == 2 && !GoodSize(Unsigned16(r.buffer))
    ensures Drain(r).crashed && Drain(r).delivered == []
  {
  }

  /** Nothing is taken from a prefix whose frame is not all there yet. */
  lemma NotYet(b: seq<byte>)
    requires |b| < 2 || (GoodSize(Unsigned16(b)) && |b| < Unsigned16(b) + 2)
    ensures !Ready(b)
  {
  }

  function Then(first: Run, y: seq<byte>): Run {
    if first.crashed then first
    else
      var rest := Receive(first.reader, y);
      Run(first.delivered + rest.delivered, rest.reader, rest.crashed)
  }

  lemma FrontThen(p: Payload, run: Run, y: seq<byte>)
    ensures Then(Front(p, run), y) == Front(p, Then(run, y))
  {
    hide Receive;
    if !run.crashed {
      var rest := Receive(run.reader, y);
      assert [p] + run.delivered + rest.delivered == [p] + (run.delivered + rest.delivered);
    }
  }

  lemma ThenNothingTaken(r: Reader, y: seq<byte>)
    requires !Ready(r.buffer)
    ensures Then(Drain(r), y) == Receive(r, y)
  {
    DrainRests(r);
    hide Drain;
  }

  lemma SamePayload(r: Reader, buffer: seq<byte>)
    ensures PayloadOf(r.(buffer := buffer)) == PayloadOf(r)
  {
  }

  /** Two pieces read one after the other give what their join gives. */
  lemma {:induction false} DrainSplits(r: Reader, y: seq<byte>)
    requires !MeetsBadPrefix(r.buffer + y)
    ensures Receive(r, y) == Then(Drain(r), y)
    decreases |r.buffer|
  {
    hide Drain, Slice, Process;
    var b := r.buffer;
    if |b| < 2 {
      ThenNothingTaken(r, y);
    } else {
      assert Unsigned16(b + y) == Unsigned16(b);
      var u := Unsigned16(b);
      if !GoodSize(u) {
        assert y == [] && b + y == b;
        DrainCrashes(r);
      } else if |b| < u + 2 {
        NotYet(b);
        ThenNothingTaken(r, y);
      } else {
        GoodFrame(r, y);
        var longer, after := r.(buffer := b + y), Process(r).reader;
        assert (b + y)[u + 2..] == after.buffer + y;
        assert Receive(r, y) == Drain(longer) && Receive(after, y) == Drain(after.(buffer := after.buffer + y));
        assert Unsigned16(longer.buffer) == u && !MeetsBadPrefix(after.buffer + y);
        hide *;
        DrainTakes(r);
        DrainTakes(longer);
        SamePayload(after, after.buffer + y);
        DrainSplits(after, y);
        FrontThen(PayloadOf(after), Drain(after), y);
      }
    }
  }

  lemma {:induction false} Shorter(b: seq<byte>, y: seq<byte>)
    requires !MeetsBadPrefix(b + y)
    ensures !MeetsBadPrefix(b)
    decreases |b|
  {
    if |b| >= 2 && GoodSize(Unsigned16(b)) && Unsigned16(b) + 2 <= |b| {
      var u := Unsigned16(b);
      assert (b + y)[u + 2..] == b[u + 2..] + y;
      Shorter(b[u + 2..], y);
    }
  }

  /** What is left of a stream is as harmless as the stream was. */
  lemma {:induction false} LeftoverHarmless(r: Reader, y: seq<byte>)
    requires !MeetsBadPrefix(r.buffer + y)
    ensures !Drain(r).crashed ==> !MeetsBadPrefix(Drain(r).reader.buffer + y)
    decreases |r.buffer|
  {
    var b := r.buffer;
    if |b| < 2 {
      DrainRests(r);
    } else {
      var u := Unsigned16(b);
      assert Unsigned16(b + y) == u;
      if GoodSize(u) && u + 2 <= |b| {
        GoodFrame(r, y);
        var after := Process(r).reader;
        assert (b + y)[u + 2..] == after.buffer + y;
        DrainTakes(r);
        hide Process, Ready, PayloadOf;
        LeftoverHarmless(after, y);
      } else if GoodSize(u) {
        NotYet(b);
        DrainRests(r);
      } else {
        assert |b + y| == 2;
        DrainCrashes(r);
      }
    }
  }

  lemma {:induction false} ChunksDoNotMatter(r: Reader, chunks: seq<seq<byte>>)
    requires chunks != [] && !MeetsBadPrefix(r.buffer + Concat(chunks))
    ensures Feed(r, chunks) == Receive(r, Concat(chunks))
    decreases |chunks|
  {
    var first, rest := chunks[0], Concat(chunks[1..]);
    var joined := r.(buffer := r.buffer + first);
    assert r.buffer + Concat(chunks) == joined.buffer + rest;
    DrainSplits(joined, rest);
    var run := Receive(r, first);
    assert run == Drain(joined);
    if !run.crashed {
      LeftoverHarmless(joined, rest);
      hide Drain;
      if chunks[1..] == [] {
        assert rest == [] && joined.buffer + rest == joined.buffer;
        assert Feed(r, chunks) == Run(run.delivered + [], run.reader, false);
        assert run.delivered + [] == run.delivered;
      } else {
        ChunksDoNotMatter(run.reader, chunks[1..]);
      }
    }
  }

  /** Where a bad prefix ends: stopping there fails, going on does not. */
  lemma {:induction false} StopAtBadPrefix(r: Reader) returns (p: nat)
    requires MeetsBadPrefix(r.buffer)
    ensures p < |r.buffer|
    ensures var stopped := Drain(r.(buffer := r.buffer[..p]));
            stopped.crashed && |stopped.delivered| < |Drain(r).delivered|
    decreases |r.buffer|
  {
    hide Drain, Slice, Process, Ready;
    var b, u := r.buffer, Unsigned16(r.buffer);
    if !GoodSize(u) {
      p := 2;
      StopsAtOnce(r);
    } else {
      GoodFrame(r, []);
      var after := Process(r).reader;
      var q := StopAtBadPrefix(after);
      p := u + 2 + q;
      LaterCutFails(r, after, q);
    }
  }

  lemma StopsAtOnce(r: Reader)
    requires |r.buffer| > 2 && !GoodSize(Unsigned16(r.buffer))
    ensures var stopped := Drain(r.(buffer := r.buffer[..2]));
            stopped.crashed && |stopped.delivered| < |Drain(r).delivered|
  {
    assert Ready(r.buffer) && Process(r).Took?;
    hide Drain, Slice, Process;
    assert Unsigned16(r.buffer[..2]) == Unsigned16(r.buffer);
    DrainCrashes(r.(buffer := r.buffer[..2]));
    DrainTakes(r);
  }

  /** Cutting behind a good frame fails when cutting what follows the frame does. */
  lemma LaterCutFails(r: Reader, after: Reader, q: nat)
    requires |r.buffer| >= 2 && GoodSize(Unsigned16(r.buffer)) && Ready(r.buffer)
    requires Process(r) == Took(after) && q < |after.buffer| && after.buffer == r.buffer[Unsigned16(r.buffer) + 2..]
    requires var stopped := Drain(after.(buffer := after.buffer[..q]));
             stopped.crashed && |stopped.delivered| < |Drain(after).delivered|
    ensures var cut := r.(buffer := r.buffer[..Unsigned16(r.buffer) + 2 + q]);
            Drain(cut).crashed && |Drain(cut).delivered| < |Drain(r).delivered|
  {
    hide Drain, Slice, Process;
    var b, u := r.buffer, Unsigned16(r.buffer);
    var p := u + 2 + q;
    var cut := r.(buffer := b[..p]);
    assert Unsigned16(cut.buffer) == u;
    assert cut.buffer + b[p..] == b;
    assert cut.buffer[u + 2..] == after.buffer[..q];
    SameTake(cut, r, b[p..]);
    DrainTakes(r);
    DrainTakes(cut);
  }

  lemma SameTake(cut: Reader, r: Reader, y: seq<byte>)
    requires |cut.buffer| >= 2 && GoodSize(Unsigned16(cut.buffer)) && Unsigned16(cut.buffer) + 2 <= |cut.buffer|
    requires r == cut.(buffer := cut.buffer + y)
    ensures Ready(cut.buffer) && Ready(r.buffer) && Process(cut).Took? && Process(r).Took?
    ensures Process(cut).reader == Process(r).reader.(buffer := cut.buffer[Unsigned16(cut.buffer) + 2..])
  {
    GoodFrame(cut, y);
  }

  /**
    How a stream is cut into chunks never matters, neither to what is delivered nor to what is left nor
    to whether reading fails, if and only if reading it whole never comes to a prefix of size 0 or
    0x8000 and above with more bytes behind it.
   */
  lemma ChunkingLaw(b: seq<byte>)
    ensures (forall chunks :: chunks != [] && Concat(chunks) == b ==> Feed(START, chunks) == Feed(START, [b]))
            <==> !MeetsBadPrefix(b)
  {
    assert [b][1..] == [] && Concat([b]) == b + [] == b && START.buffer + b == b;
    if !MeetsBadPrefix(b) {
      forall chunks | chunks != [] && Concat(chunks) == b ensures Feed(START, chunks) == Feed(START, [b]) {
        ChunksDoNotMatter(START, chunks);
        ChunksDoNotMatter(START, [b]);
      }
    } else {
      var p := StopAtBadPrefix(START.(buffer := b));
      TwoChunksDiffer(b, p);
    }
  }

  lemma FeedOne(b: seq<byte>)
    ensures Feed(START, [b]).delivered == Drain(START.(buffer := b)).delivered
  {
    assert START.buffer + b == b;
    hide Drain;
    var run := Drain(START.(buffer := b));
    assert [b][1..] == [];
    assert run.delivered + [] == run.delivered;
  }

  lemma FeedStops(chunks: seq<seq<byte>>)
    requires chunks != [] && Drain(START.(buffer := chunks[0])).crashed
    ensures Feed(START, chunks) == Drain(START.(buffer := chunks[0]))
  {
    assert START.buffer + chunks[0] == chunks[0];
    hide Drain;
  }

  lemma TwoChunksDiffer(b: seq<byte>, p: nat)
    requires p < |b|
    requires var stopped := Drain(START.(buffer := b[..p]));
             stopped.crashed && |stopped.delivered| < |Drain(START.(buffer := b)).delivered|
    ensures exists chunks :: chunks != [] && Concat(chunks) == b && Feed(START, chunks) != Feed(START, [b])
  {
    hide Drain, Feed;
    var chunks: seq<seq<byte>> := [b[..p], b[p..]];
    assert chunks[1..] == [b[p..]] && |chunks[1..][1..]| == 0;
    assert Concat(chunks[1..]) == b[p..];
    assert Concat(chunks) == b[..p] + b[p..] == b;
    hide *;
    FeedStops(chunks);
    FeedOne(b);
  }

  /** The bytes 00 00 05: read together they are an empty frame and a leftover; read as 00 00 and 05 they fail. */
  lemma ZeroSizeDependsOnChunks()
    ensures !Feed(START, [[0, 0, 5]]).crashed && Feed(START, [[0, 0], [5]]).crashed
  {
    var whole: seq<byte>, half: seq<byte> := [0, 0, 5], [0, 0];
    var chunks: seq<seq<byte>> := [whole];
    assert START.buffer + whole == whole && START.buffer + half == half;
    assert chunks[1..] == [];
    var r := START.(buffer := whole);
    DrainTakes(r);
    DrainRests(Process(r).reader);
    DrainCrashes(START.(buffer := half));
  }

  // ---- frames in, frames out ----------------------------------------------------------------------------

  datatype Frame = Frame(command: byte, payload: seq<byte>)

  predicate Fits(f: Frame) {
    |f.payload| + 1 <= 0x7fff
  }

  function Encode(f: Frame): seq<byte>
    requires Fits(f)
  {
    var u := |f.payload| + 1;
    var prefix: seq<byte> := [u % 256, u / 256, f.command];
    prefix + f.payload
  }

  function EncodeAll(fs: seq<Frame>): seq<byte>
    requires forall f :: f in fs ==> Fits(f)
  {
    if fs == [] then [] else Encode(fs[0]) + EncodeAll(fs[1..])
  }

  /** The beginning of a frame whose rest is still to come. */
  predicate Incomplete(b: seq<byte>) {
    |b| < 2 || (GoodSize(Unsigned16(b)) && |b| < Unsigned16(b) + 2)
  }

  lemma {:induction false} EncodedHarmless(fs: seq<Frame>, tail: seq<byte>)
    requires (forall f :: f in fs ==> Fits(f)) && Incomplete(tail)
    ensures !MeetsBadPrefix(EncodeAll(fs) + tail)
  {
    if fs == [] {
      assert EncodeAll(fs) + tail == tail;
    } else {
      var rest := EncodeAll(fs[1..]) + tail;
      HeadOfStream(fs[0], rest);
      assert EncodeAll(fs) + tail == Encode(fs[0]) + rest;
      EncodedHarmless(fs[1..], tail);
    }
  }

  lemma HeadOfStream(f: Frame, rest: seq<byte>)
    requires Fits(f)
    ensures var b := Encode(f) + rest;
            && |b| >= 2 && Unsigned16(b) == |f.payload| + 1 && GoodSize(Unsigned16(b))
            && Unsigned16(b) + 2 == |Encode(f)| <= |b|
            && b[Unsigned16(b) + 2..] == rest
            && b[..Unsigned16(b) + 2] == Encode(f) && b[2] == f.command && b[3..Unsigned16(b) + 2] == f.payload
  {
    var b := Encode(f) + rest;
    assert b[..|Encode(f)|] == Encode(f);
    assert b[3..|Encode(f)|] == Encode(f)[3..] == f.payload;
  }

  /** The last frame that carried any payload. */
  function LatestWithPayload(fs: seq<Frame>): Option<Frame> {
    if fs == [] then None
    else if fs[|fs| - 1].payload != [] then Some(fs[|fs| - 1])
    else LatestWithPayload(fs[..|fs| - 1])
  }

  /** The reader's fields once it has taken `done`. */
  ghost predicate HasTaken(r: Reader, done: seq<Frame>)
    requires forall f :: f in done ==> Fits(f)
  {
    if done == [] then r.data == [] && r.previous == None && r.previousRaw == None
    else
      var last := done[|done| - 1];
      r.data == last.payload && r.raw == Encode(last) && Remembers(r, done[..|done| - 1])
  }

  ghost predicate Remembers(r: Reader, done: seq<Frame>)
    requires forall f :: f in done ==> Fits(f)
  {
    var latest := LatestWithPayload(done);
    LatestIsOneOf(done);
    if latest.None? then r.previous == None && r.previousRaw == None
    else r.previous == Some(latest.value.payload) && r.previousRaw == Some(Encode(latest.value))
  }

  lemma {:induction false} LatestIsOneOf(done: seq<Frame>)
    ensures LatestWithPayload(done).Some? ==> LatestWithPayload(done).value in done
  {
    if done != [] {
      LatestIsOneOf(done[..|done| - 1]);
    }
  }

  /** What listeners are handed for `f` after `done`. */
  ghost predicate Delivers(p: Payload, done: seq<Frame>, f: Frame)
    requires Fits(f) && forall g :: g in done ==> Fits(g)
  {
    LatestIsOneOf(done);
    var latest := LatestWithPayload(done);
    && p.size == |f.payload| + 1 && p.command == f.command && p.data == f.payload && p.raw == Encode(f)
    && p.previous == (if latest.None? then None else Some(latest.value.payload))
    && p.previousRaw == (if latest.None? then None else Some(Encode(latest.value)))
  }

  lemma TakesFrame(r: Reader, done: seq<Frame>, f: Frame, rest: seq<byte>)
    requires Fits(f) && (forall g :: g in done ==> Fits(g)) && HasTaken(r, done) && r.buffer == Encode(f) + rest
    ensures Ready(r.buffer) && Process(r).Took?
    ensures var after := Process(r).reader;
            && after.buffer == rest && HasTaken(after, done + [f]) && Delivers(PayloadOf(after), done, f)
  {
    HeadOfStream(f, rest);
    GoodFrame(r, []);
    LatestIsOneOf(done);
    assert (done + [f])[..|done + [f]| - 1] == done;
    if done != [] {
      LatestIsOneOf(done[..|done| - 1]);
    }
    hide Encode;
  }

  ghost predicate AllDelivered(ps: seq<Payload>, done: seq<Frame>, fs: seq<Frame>)
    requires forall f :: f in done + fs ==> Fits(f)
  {
    |ps| == |fs| && forall k :: 0 <= k < |fs| ==> DeliveredAt(ps[k], done + fs, |done| + k)
  }

  ghost predicate DeliveredAt(p: Payload, all: seq<Frame>, k: nat)
    requires forall f :: f in all ==> Fits(f)
  {
    k < |all| && Delivers(p, all[..k], all[k])
  }

  lemma {:induction false} DrainDelivers(r: Reader, done: seq<Frame>, fs: seq<Frame>, tail: seq<byte>)
    requires (forall f :: f in done + fs ==> Fits(f)) && Incomplete(tail) && HasTaken(r, done)
    requires (forall f :: f in fs ==> Fits(f)) && r.buffer == EncodeAll(fs) + tail
    ensures var run := Drain(r);
            !run.crashed && run.reader.buffer == tail && AllDelivered(run.delivered, done, fs)
    decreases |fs|
  {
    if fs == [] {
      assert r.buffer == tail;
      NotYet(tail);
      DrainRests(r);
    } else {
      var f, rest := fs[0], EncodeAll(fs[1..]) + tail;
      assert r.buffer == Encode(f) + rest;
      TakesFrame(r, done, f, rest);
      var after := Process(r).reader;
      assert done + fs == (done + [f]) + fs[1..];
      DrainTakes(r);
      hide Drain, Process, HasTaken, Delivers, Encode, EncodeAll, PayloadOf, Ready, Incomplete;
      DrainDelivers(after, done + [f], fs[1..], tail);
      assert (done + fs)[..|done|] == done && (done + fs)[|done|] == f;
      AddDelivered(PayloadOf(after), Drain(after).delivered, done, fs);
    }
  }

  lemma AddDelivered(p: Payload, ps: seq<Payload>, done: seq<Frame>, fs: seq<Frame>)
    requires fs != [] && (forall f :: f in done + fs ==> Fits(f)) && done + fs == (done + [fs[0]]) + fs[1..]
    requires DeliveredAt(p, done + fs, |done|) && AllDelivered(ps, done + [fs[0]], fs[1..])
    ensures AllDelivered([p] + ps, done, fs)
  {
    hide DeliveredAt;
    var all := [p] + ps;
    forall k | 0 <= k < |fs| ensures DeliveredAt(all[k], done + fs, |done| + k) {
      if k > 0 {
        assert all[k] == ps[k - 1];
        assert DeliveredAt(ps[k - 1], (done + [fs[0]]) + fs[1..], |done + [fs[0]]| + (k - 1));
      }
    }
  }

  /**
    However a stream of frames is cut, exactly the frames come out, in order, each with the latest earlier
    non-empty payload beside it, and what stays in the buffer is the incomplete tail.
   */
  lemma ReframingLaw(fs: seq<Frame>, tail: seq<byte>, chunks: seq<seq<byte>>)
    requires (forall f :: f in fs ==> Fits(f)) && Incomplete(tail)
    requires chunks != [] && Concat(chunks) == EncodeAll(fs) + tail
    ensures var run := Feed(START, chunks);
            !run.crashed && run.reader.buffer == tail && AllDelivered(run.delivered, [], fs)
  {
    var b := EncodeAll(fs) + tail;
    assert START.buffer + b == b;
    assert [] + fs == fs;
    EncodedHarmless(fs, tail);
    hide Drain, MeetsBadPrefix, Encode;
    ChunksDoNotMatter(START, chunks);
    DrainDelivers(START.(buffer := b), [], fs, tail);
  }

  // ---- the program's reader ---------------------------------------------------------------------------------

  const CREATE_GAME: byte := 17
  const JOIN_GAME: byte := 18
  const LISTENED: set<byte> := {16, CREATE_GAME, JOIN_GAME, 0xfd, 0xfb, 0xfa, 0xf9, 0xf5, 0xf4}

  /** What leaves the emitter: a call of one of its two listeners, or a frame. */
  datatype Notice = GameAsked | JoinAsked | Emitted(payload: Payload)

  /** Two commands reach a listener before their frame; frames of unknown commands are read and dropped. */
  function NoticesFor(p: Payload): seq<Notice> {
    (if p.command == CREATE_GAME then [GameAsked] else if p.command == JOIN_GAME then [JoinAsked] else [])
    + (if p.command in LISTENED then [Emitted(p)] else [])
  }

  /**
    A frame is emitted for player info (16), creating (17) and joining a game (18), reconnecting (253) and the
    matchmaking commands AUTH, ENTER, CANCEL, ACCEPT and DECLINE, behind the call that 17 and 18 make.
   */
  lemma NoticesMean(p: Payload)
    ensures Emitted(p) in NoticesFor(p) <==> p.command in [16, 17, 18, 253, 251, 250, 249, 245, 244]
    ensures NoticesFor(p)[..|NoticesFor(p)| - (if Emitted(p) in NoticesFor(p) then 1 else 0)] ==
            if p.command == 17 then [GameAsked] else if p.command == 18 then [JoinAsked] else []
  {
  }

  function Announced(ps: seq<Payload>): seq<Notice> {
    if ps == [] then [] else NoticesFor(ps[0]) + Announced(ps[1..])
  }

  datatype Turn = AtRest | Failed | Taken

  lemma FrontParts(p: Payload, run: Run)
    ensures Front(p, run) == Run([p] + run.delivered, run.reader, run.crashed)
  {
  }

  lemma AnnouncedFirst(p: Payload, rest: seq<Payload>)
    ensures Announced([p] + rest) == Announced([p]) + Announced(rest)
  {
    assert [p][1..] == [] && ([p] + rest)[1..] == rest;
  }

  lemma DrainIs(r: Reader)
    ensures Drain(r) ==
            if !Ready(r.buffer) then Run([], r, false)
            else if Process(r).Crashed? then Run([], Process(r).reader, true)
            else Front(PayloadOf(Process(r).reader), Drain(Process(r).reader))
  {
    hide Process, Ready, PayloadOf;
  }

  class MessageProcessor {
    var buffer: seq<byte>
    var size: nat
    var command: byte
    var data: seq<byte>
    var raw: seq<byte>
    var previousMessage: Option<seq<byte>>
    var previousRawMessage: Option<seq<byte>>

    function State(): Reader
      reads this
    {
      Reader(buffer, size, command, data, raw, previousMessage, previousRawMessage)
    }

    constructor ()
      ensures State() == START
    {
      buffer, size, command, data, raw := [], 0, 0, [], [];
      previousMessage, previousRawMessage := None, None;
    }

    method Read(chunk: seq<byte>)
      modifies this
      ensures State() == old(State()).(buffer := old(buffer) + chunk)
    {
      buffer := buffer + chunk;
    }

    method IsMessageReady() returns (ready: bool)
      ensures ready == Ready(buffer)
    {
      if |buffer| < 2 {
        return false;
      }
      ready := |buffer| - 2 >= Signed16(buffer);
    }

    /** Takes one frame; `ok` is false when reading the command byte fails. */
    method Take() returns (ok: bool)
      requires Ready(buffer)
      modifies this
      ensures Process(old(State())) == if ok then Took(State()) else Crashed(State())
    {
      if data != [] {
        previousMessage := Some(data);
        previousRawMessage := Some(raw);
      }
      size := Unsigned16(buffer);
      if |buffer| == 2 {
        return false;
      }
      command := buffer[2];
      data := Slice(buffer, 3, size + 2);
      raw := Slice(buffer, 0, size + 2);
      buffer := Slice(buffer, size + 2, |buffer|);
      ok := true;
    }
  }

  class MessageEmitter {
    const processor: MessageProcessor
    var emitted: seq<Notice>

    constructor ()
      ensures fresh(processor) && processor.State() == START && emitted == []
    {
      processor := new MessageProcessor();
      emitted := [];
    }

    method HandleMessage(chunk: seq<byte>) returns (ok: bool)
      modifies this, processor
      ensures var run := Receive(old(processor.State()), chunk);
              processor.State() == run.reader && ok == !run.crashed && emitted == old(emitted) + Announced(run.delivered)
    {
      hide Drain;
      processor.Read(chunk);
      ok := ProcessMessage();
    }

    /** Takes one frame, announces it and starts over; every turn shortens the buffer. */
    method ProcessMessage() returns (ok: bool)
      modifies this, processor
      ensures var run := Drain(old(processor.State()));
              processor.State() == run.reader && ok == !run.crashed && emitted == old(emitted) + Announced(run.delivered)
      decreases |processor.buffer|
    {
      ghost var r, was := processor.State(), emitted;
      hide *;
      DrainIs(r);
      StateBuffer();
      var turn := TakeOne();
      if turn.AtRest? {
        return true;
      }
      if turn.Failed? {
        return false;
      }
      ghost var p, rest := PayloadOf(processor.State()), Drain(processor.State());
      ProcessShrinks(r);
      StateBuffer();
      ok := ProcessMessage();
      FrontParts(p, rest);
      AnnouncedFirst(p, rest.delivered);
      Associates(was, Announced([p]), Announced(rest.delivered));
    }

    /** Takes and announces one frame, if one is ready and can be read. */
    method TakeOne() returns (turn: Turn)
      modifies this, processor
      ensures turn.AtRest? <==> !Ready(old(processor.State()).buffer)
      ensures turn.AtRest? ==> processor.State() == old(processor.State()) && emitted == old(emitted)
      ensures turn.Failed? ==> Process(old(processor.State())) == Crashed(processor.State()) && emitted == old(emitted)
      ensures turn.Taken? ==> Process(old(processor.State())) == Took(processor.State())
                              && emitted == old(emitted) + Announced([PayloadOf(processor.State())])
    {
      hide *;
      StateBuffer();
      var ready := processor.IsMessageReady();
      if !ready {
        return AtRest;
      }
      var taken := processor.Take();
      if !taken {
        return Failed;
      }
      Announce();
      turn := Taken;
    }

    method Announce()
      modifies this
      ensures emitted == old(emitted) + Announced([PayloadOf(processor.State())])
    {
      var payload := PayloadOf(processor.State());
      ghost var was := emitted;
      assert [payload][1..] == [];
      if payload.command == CREATE_GAME {
        emitted := emitted + [GameAsked];
      }
      if payload.command == JOIN_GAME {
        emitted := emitted + [JoinAsked];
      }
      if payload.command in LISTENED {
        emitted := emitted + [Emitted(payload)];
      }
      assert emitted == was + NoticesFor(payload);
    }

    lemma StateBuffer()
      ensures processor.State().buffer == processor.buffer
    {
    }
  }
}
