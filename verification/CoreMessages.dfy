/**
  Reassembling the core's messages: a 32-bit length prefix, chunks as they come, and turns that handle
  a limited number of messages and leave the rest for later.
 */
module CoreMessages {
  import opened Bits
  import opened Sequences

  // ---- messages in a stream -----------------------------------------------------------------------

  predicate Ready32(b: seq<byte>) {
    |b| >= 4 && |b| >= Unsigned32(b) + 4
  }

  function First32(b: seq<byte>): seq<byte>
    requires Ready32(b)
  {
    b[4..Unsigned32(b) + 4]
  }

  function Rest32(b: seq<byte>): (rest: seq<byte>)
    requires Ready32(b)
    ensures |rest| < |b|
  {
    b[Unsigned32(b) + 4..]
  }

  /** The complete messages a stream starts with. */
  function MessagesIn(b: seq<byte>): seq<seq<byte>>
    decreases |b|
  {
    if !Ready32(b) then [] else [First32(b)] + MessagesIn(Rest32(b))
  }

  function TailOf(b: seq<byte>): seq<byte>
    decreases |b|
  {
    if !Ready32(b) then b else TailOf(Rest32(b))
  }

  lemma LongerStream(x: seq<byte>, y: seq<byte>)
    requires Ready32(x)
    ensures Ready32(x + y) && First32(x + y) == First32(x) && Rest32(x + y) == Rest32(x) + y
  {
    assert Unsigned32(x + y) == Unsigned32(x);
    hide Unsigned32;
    var end := Unsigned32(x) + 4;
    assert (x + y)[4..end] == x[4..end] && (x + y)[end..] == x[end..] + y;
  }

  /** Reading on from the tail of what came before loses and repeats nothing. */
  lemma {:induction false} MessagesSplit(x: seq<byte>, y: seq<byte>)
    ensures MessagesIn(x + y) == MessagesIn(x) + MessagesIn(TailOf(x) + y)
    ensures TailOf(x + y) == TailOf(TailOf(x) + y)
    decreases |x|
  {
    hide Ready32, First32, Rest32;
    if Ready32(x) {
      LongerStream(x, y);
      MessagesSplit(Rest32(x), y);
    }
  }

  function Encode32(m: seq<byte>): seq<byte>
    requires |m| < TWO_32
  {
    var n := |m|;
    var prefix: seq<byte> := [n % 0x100, n / 0x100 % 0x100, n / 0x100 / 0x100 % 0x100, n / 0x100 / 0x100 / 0x100];
    prefix + m
  }

  function EncodeAll32(ms: seq<seq<byte>>): seq<byte>
    requires forall m :: m in ms ==> |m| < TWO_32
  {
    if ms == [] then [] else Encode32(ms[0]) + EncodeAll32(ms[1..])
  }

  lemma DigitsOf(n: nat)
    requires n < TWO_32
    ensures var a, b := n / 0x100, n / 0x100 / 0x100;
            n % 0x100 + 0x100 * (a % 0x100) + 0x1_0000 * (b % 0x100) + 0x100_0000 * (b / 0x100) == n
    ensures n / 0x100 / 0x100 / 0x100 < 0x100
  {
    var a, b := n / 0x100, n / 0x100 / 0x100;
    assert n == 0x100 * a + n % 0x100;
    assert a == 0x100 * b + a % 0x100;
    assert b == 0x100 * (b / 0x100) + b % 0x100;
  }

  lemma HeadOfStream32(m: seq<byte>, rest: seq<byte>)
    requires |m| < TWO_32
    ensures var b := Encode32(m) + rest;
            Ready32(b) && First32(b) == m && Rest32(b) == rest
  {
    var b := Encode32(m) + rest;
    DigitsOf(|m|);
    assert Unsigned32(b) == |m|;
    hide Unsigned32;
    assert |Encode32(m)| == |m| + 4;
    assert b[|m| + 4..] == rest;
    assert b[4..|m| + 4] == m;
  }

  /** Messages in, messages out. */
  lemma {:induction false} MessagesRecovered(ms: seq<seq<byte>>, tail: seq<byte>)
    requires (forall m :: m in ms ==> |m| < TWO_32) && !Ready32(tail)
    ensures MessagesIn(EncodeAll32(ms) + tail) == ms && TailOf(EncodeAll32(ms) + tail) == tail
  {
    if ms == [] {
      assert EncodeAll32(ms) + tail == tail;
    } else {
      var rest := EncodeAll32(ms[1..]) + tail;
      assert EncodeAll32(ms) + tail == Encode32(ms[0]) + rest;
      HeadOfStream32(ms[0], rest);
      hide Encode32, Ready32, First32, Rest32;
      MessagesRecovered(ms[1..], tail);
    }
  }

  const MAX_MESSAGES_PER_TICK := 1000

  /** Data arrives and is worked on, or a deferred turn takes up what the last one left; each turn handles a limited number. */
  datatype CoreEvent = Arrives(chunk: seq<byte>) | DeferredTurn

  datatype CoreReader = CoreReader(buffer: seq<byte>, handled: seq<seq<byte>>)

  function Turn(c: CoreReader, limit: nat): CoreReader
    decreases limit
  {
    if limit == 0 || !Ready32(c.buffer) then c
    else
      Turn(CoreReader(Rest32(c.buffer), c.handled + [First32(c.buffer)]), limit - 1)
  }

  function OnEvent(c: CoreReader, e: CoreEvent): CoreReader {
    match e
    case Arrives(chunk) => Turn(c.(buffer := c.buffer + chunk), MAX_MESSAGES_PER_TICK)
    case DeferredTurn => Turn(c, MAX_MESSAGES_PER_TICK)
  }

  function OnEvents(c: CoreReader, events: seq<CoreEvent>): CoreReader
    decreases |events|
  {
    if events == [] then c else OnEvents(OnEvent(c, events[0]), events[1..])
  }

  function Arrived(events: seq<CoreEvent>): seq<byte> {
    if events == [] then []
    else (if events[0].Arrives? then events[0].chunk else []) + Arrived(events[1..])
  }

  lemma {:induction false} TurnConserves(c: CoreReader, limit: nat)
    ensures var after := Turn(c, limit);
            && after.handled + MessagesIn(after.buffer) == c.handled + MessagesIn(c.buffer)
            && TailOf(after.buffer) == TailOf(c.buffer)
    decreases limit
  {
    hide Ready32, First32, Rest32;
    if limit > 0 && Ready32(c.buffer) {
      var message, rest := First32(c.buffer), Rest32(c.buffer);
      TurnConserves(CoreReader(rest, c.handled + [message]), limit - 1);
      Associates(c.handled, [message], MessagesIn(rest));
    }
  }

  /**
    However chunks and deferred turns interleave, what was handled and what the buffer still holds are
    together exactly the messages of everything that arrived, in order.
   */
  lemma {:induction false} CoreConserves(c: CoreReader, events: seq<CoreEvent>)
    ensures var after := OnEvents(c, events);
            && after.handled + MessagesIn(after.buffer) == c.handled + MessagesIn(c.buffer + Arrived(events))
            && TailOf(after.buffer) == TailOf(c.buffer + Arrived(events))
    decreases |events|
  {
    if events == [] {
      assert c.buffer + [] == c.buffer;
    } else {
      var rest := Arrived(events[1..]);
      var fed := Fed(c, events[0]);
      var c1 := Turn(fed, MAX_MESSAGES_PER_TICK);
      EventIs(c, events);
      hide *;
      TurnConserves(fed, MAX_MESSAGES_PER_TICK);
      CoreConserves(c1, events[1..]);
      MessagesSplit(c1.buffer, rest);
      MessagesSplit(fed.buffer, rest);
      Associates(c1.handled, MessagesIn(c1.buffer), MessagesIn(TailOf(c1.buffer) + rest));
      Associates(c.handled, MessagesIn(fed.buffer), MessagesIn(TailOf(fed.buffer) + rest));
    }
  }

  function Fed(c: CoreReader, e: CoreEvent): CoreReader {
    if e.Arrives? then c.(buffer := c.buffer + e.chunk) else c
  }

  lemma EventIs(c: CoreReader, events: seq<CoreEvent>)
    requires events != []
    ensures OnEvents(c, events) == OnEvents(Turn(Fed(c, events[0]), MAX_MESSAGES_PER_TICK), events[1..])
    ensures c.buffer + Arrived(events) == Fed(c, events[0]).buffer + Arrived(events[1..])
    ensures Fed(c, events[0]).handled == c.handled
  {
    hide Turn;
    var chunk: seq<byte> := if events[0].Arrives? then events[0].chunk else [];
    Associates(c.buffer, chunk, Arrived(events[1..]));
    assert c.buffer + [] == c.buffer;
  }

  class JSONMessageProcessor {
    var buffer: seq<byte>
    var size: nat
    var data: seq<byte>

    constructor ()
      ensures buffer == [] && data == []
    {
      buffer, size, data := [], 0, [];
    }

    method Read(chunk: seq<byte>)
      modifies this`buffer
      ensures buffer == old(buffer) + chunk
    {
      buffer := buffer + chunk;
    }

    method IsMessageReady() returns (ready: bool)
      ensures ready == Ready32(buffer)
    {
      if |buffer| < 4 {
        return false;
      }
      ready := |buffer| >= Unsigned32(buffer) + 4;
    }

    method Process()
      modifies this
      ensures if Ready32(old(buffer))
              then data == First32(old(buffer)) && size == |data| && buffer == Rest32(old(buffer))
              else buffer == old(buffer) && data == old(data) && size == old(size)
    {
      var ready := IsMessageReady();
      if !ready {
        return;
      }
      size := Unsigned32(buffer);
      data := buffer[4..size + 4];
      buffer := buffer[size + 4..];
    }

    method Clear()
      modifies this
      ensures buffer == [] && size == 0 && data == []
    {
      buffer, size, data := [], 0, [];
    }
  }

  /** One turn of the duel's loop over the core's messages. */
  method ProcessMessages(processor: JSONMessageProcessor, ghost c: CoreReader) returns (messages: seq<seq<byte>>, more: bool)
    requires processor.buffer == c.buffer
    modifies processor
    ensures var after := Turn(c, MAX_MESSAGES_PER_TICK);
            processor.buffer == after.buffer && c.handled + messages == after.handled && more == Ready32(after.buffer)
  {
    messages := [];
    var processed := 0;
    var ready := processor.IsMessageReady();
    assert c.handled + [] == c.handled;
    hide Ready32, First32, Rest32;
    while processed < MAX_MESSAGES_PER_TICK && ready
      invariant processed <= MAX_MESSAGES_PER_TICK && ready == Ready32(processor.buffer)
      invariant Turn(CoreReader(processor.buffer, c.handled + messages), MAX_MESSAGES_PER_TICK - processed) == Turn(c, MAX_MESSAGES_PER_TICK)
    {
      ghost var b := processor.buffer;
      TurnNext(CoreReader(b, c.handled + messages), MAX_MESSAGES_PER_TICK - processed);
      hide Turn;
      processed := processed + 1;
      processor.Process();
      Associates(c.handled, messages, [processor.data]);
      messages := messages + [processor.data];
      ready := processor.IsMessageReady();
    }
    more := ready;
  }

  lemma TurnNext(c: CoreReader, limit: nat)
    requires limit > 0 && Ready32(c.buffer)
    ensures Turn(c, limit) == Turn(CoreReader(Rest32(c.buffer), c.handled + [First32(c.buffer)]), limit - 1)
  {
  }
}
