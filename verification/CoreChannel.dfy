/**
  The write channel to a duel's core process: lines queue behind a write the core asked to wait after, and
  go on at its "drain". Only the core attached last is listened to.
 */
module ChannelModel {
  import opened Options

  // ---- the channel as a value ----------------------------------------------------------------------

  /**
    `written` is what each core's stdin accepted, `listening` the cores whose next "drain" is waited for,
    `sent` what was sent since the current core was attached, when its stdin had accepted `base` lines.
   */
  datatype Channel = Channel(
    core: Option<nat>,
    pending: seq<string>,
    waitingDrain: bool,
    written: map<nat, seq<string>>,
    listening: seq<nat>,
    sent: seq<string>,
    base: nat,
    enqueued: nat,
    writes: nat,
    maxDepth: nat)

  function Start(core: Option<nat>): Channel {
    Channel(core, [], false, map[], [], [], 0, 0, 0, 0)
  }

  function On(written: map<nat, seq<string>>, core: nat): seq<string> {
    if core in written then written[core] else []
  }

  function Attach(c: Channel, core: nat): Channel {
    c.(core := Some(core), waitingDrain := false, pending := [], sent := [], base := |On(c.written, core)|)
  }

  /** Whether each write is accepted outright; writes beyond the list are. */
  function Answer(answers: seq<bool>): bool { answers == [] || answers[0] }
  function Later(answers: seq<bool>): seq<bool> { if answers == [] then [] else answers[1..] }

  function WriteFirst(c: Channel, core: nat): Channel
    requires c.pending != []
  {
    c.(pending := c.pending[1..], written := c.written[core := On(c.written, core) + [c.pending[0]]], writes := c.writes + 1)
  }

  function Flush(c: Channel, answers: seq<bool>): Channel
    decreases |c.pending|
  {
    if c.waitingDrain then c
    else if c.core.None? then c.(pending := [])
    else if c.pending == [] then c
    else
      var c1 := WriteFirst(c, c.core.value);
      if Answer(answers) then Flush(c1, Later(answers))
      else c1.(waitingDrain := true, listening := c.listening + [c.core.value])
  }

  function Line(message: string): string {
    message + "\n"
  }

  function Queue(c: Channel, message: string): Channel {
    var depth := |c.pending| + 1;
    c.(pending := c.pending + [Line(message)], sent := c.sent + [Line(message)], enqueued := c.enqueued + 1,
       maxDepth := if depth > c.maxDepth then depth else c.maxDepth)
  }

  function Send(c: Channel, message: string, answers: seq<bool>): Channel {
    Flush(Queue(c, message), answers)
  }

  function Times(cores: seq<nat>, core: nat): nat {
    if cores == [] then 0 else (if cores[0] == core then 1 else 0) + Times(cores[1..], core)
  }

  function Without(cores: seq<nat>, core: nat): seq<nat> {
    if cores == [] then [] else (if cores[0] == core then [] else [cores[0]]) + Without(cores[1..], core)
  }

  /** One listener is told; unless it belongs to the core attached last, nothing happens. */
  function Told(c: Channel, core: nat, answers: seq<bool>): Channel {
    if c.core != Some(core) then c else Flush(c.(waitingDrain := false), answers)
  }

  /** The listeners of one "drain" in turn, each with the answers its writes get. */
  function TellAll(c: Channel, core: nat, times: nat, answers: seq<seq<bool>>): Channel
    decreases times
  {
    if times == 0 then c
    else TellAll(Told(c, core, if answers == [] then [] else answers[0]), core, times - 1, if answers == [] then [] else answers[1..])
  }

  /** A core drained: all who listened so far are told, once. */
  function Drained(c: Channel, core: nat, answers: seq<seq<bool>>): Channel {
    TellAll(c.(listening := Without(c.listening, core)), core, Times(c.listening, core), answers)
  }

  // ---- what always holds ------------------------------------------------------------------------------

  /** The lines the current core accepted since it was attached. */
  function Accepted(c: Channel): seq<string> {
    if c.core.Some? && c.base <= |On(c.written, c.core.value)| then On(c.written, c.core.value)[c.base..] else []
  }

  ghost predicate Accounted(c: Channel) {
    c.core.Some? ==> c.base <= |On(c.written, c.core.value)| && Accepted(c) + c.pending == c.sent
  }

  /** A wait has its one listener, and without a wait there is neither listener nor queue. */
  ghost predicate Waits(c: Channel) {
    && (c.waitingDrain ==> c.core.Some? && Times(c.listening, c.core.value) == 1)
    && (!c.waitingDrain && c.core.Some? ==> Times(c.listening, c.core.value) == 0)
  }

  ghost predicate Valid(c: Channel) {
    Accounted(c) && Waits(c) && (!c.waitingDrain ==> c.pending == [])
  }

  /** Everything about other cores is as it was. */
  ghost predicate OthersSame(c: Channel, after: Channel) {
    forall other: nat :: c.core != Some(other) ==>
      On(after.written, other) == On(c.written, other) && Times(after.listening, other) == Times(c.listening, other)
  }

  lemma {:induction false} TimesAdd(cores: seq<nat>, added: nat, core: nat)
    ensures Times(cores + [added], core) == Times(cores, core) + (if added == core then 1 else 0)
  {
    if cores == [] {
      assert cores + [added] == [added] && [added][1..] == [];
    } else {
      assert (cores + [added])[1..] == cores[1..] + [added];
      TimesAdd(cores[1..], added, core);
    }
  }

  lemma {:induction false} TimesWithout(cores: seq<nat>, gone: nat, core: nat)
    ensures Times(Without(cores, gone), core) == if core == gone then 0 else Times(cores, core)
  {
    if cores != [] {
      var rest := Without(cores[1..], gone);
      TimesWithout(cores[1..], gone, core);
      assert ([cores[0]] + rest)[1..] == rest && [] + rest == rest;
    }
  }

  lemma ListenKeeps(c: Channel, core: nat)
    requires c.core == Some(core) && Times(c.listening, core) == 0
    ensures var after := c.(waitingDrain := true, listening := c.listening + [core]);
            Waits(after) && OthersSame(c, after) && (Accounted(c) ==> Accounted(after))
  {
    forall other: nat ensures Times(c.listening + [core], other) == Times(c.listening, other) + (if core == other then 1 else 0) {
      TimesAdd(c.listening, core, other);
    }
  }

  lemma WriteAccounts(c: Channel)
    requires c.core.Some? && c.pending != [] && Accounted(c)
    ensures Accounted(WriteFirst(c, c.core.value))
    ensures On(WriteFirst(c, c.core.value).written, c.core.value) == On(c.written, c.core.value) + [c.pending[0]]
  {
    var was, now := On(c.written, c.core.value), On(c.written, c.core.value) + [c.pending[0]];
    assert now[c.base..] == was[c.base..] + [c.pending[0]];
    assert was[c.base..] + [c.pending[0]] + c.pending[1..] == was[c.base..] + c.pending;
  }

  lemma {:induction false} FlushKeeps(c: Channel, answers: seq<bool>)
    requires Accounted(c) && Waits(c)
    ensures var after := Flush(c, answers);
            && Valid(after) && OthersSame(c, after)
            && after.sent == c.sent && after.core == c.core && after.enqueued == c.enqueued
            && (c.core.Some? ==> after.writes + |after.pending| == c.writes + |c.pending|)
    decreases |c.pending|
  {
    if !c.waitingDrain && c.core.Some? && c.pending != [] {
      var c1 := WriteFirst(c, c.core.value);
      WriteAccounts(c);
      hide Accounted;
      if Answer(answers) {
        FlushKeeps(c1, Later(answers));
      } else {
        ListenKeeps(c1, c.core.value);
      }
    }
  }

  lemma StartValid(core: Option<nat>)
    ensures Valid(Start(core))
  {
  }

  /** Attaching keeps the channel sound if and only if no "drain" of that very core is still awaited. */
  lemma AttachKeeps(c: Channel, core: nat)
    requires Valid(c)
    ensures Valid(Attach(c, core)) <==> Times(c.listening, core) == 0
    ensures Accepted(Attach(c, core)) == []
  {
  }

  /** Nothing is written while a "drain" is awaited. */
  lemma SendKeeps(c: Channel, message: string, answers: seq<bool>)
    requires Valid(c)
    ensures var after := Send(c, message, answers);
            && Valid(after) && after.core == c.core && after.sent == c.sent + [Line(message)]
            && (c.waitingDrain ==> after.written == c.written && after.pending == c.pending + [Line(message)])
  {
    var queued := Queue(c, message);
    hide Line;
    if c.core.Some? {
      assert Accepted(c) + (c.pending + [Line(message)]) == (Accepted(c) + c.pending) + [Line(message)];
    }
    assert Accounted(queued) && Waits(queued);
    FlushKeeps(queued, answers);
  }

  /** A replaced core's "drain" changes nothing but who listens. */
  lemma DrainedKeeps(c: Channel, core: nat, answers: seq<seq<bool>>)
    requires Valid(c)
    ensures var after := Drained(c, core, answers);
            && Valid(after) && after.sent == c.sent && after.core == c.core
            && (c.core != Some(core) ==> after == c.(listening := Without(c.listening, core)))
  {
    var c1 := c.(listening := Without(c.listening, core));
    forall other: nat ensures Times(c1.listening, other) == if other == core then 0 else Times(c.listening, other) {
      TimesWithout(c.listening, core, other);
    }
    if c.core != Some(core) {
      ToldNothing(c1, core, Times(c.listening, core), answers);
      assert Accepted(c1) == Accepted(c);
    } else if Times(c.listening, core) == 1 {
      var c2 := c1.(waitingDrain := false);
      assert Accepted(c2) == Accepted(c) && Accounted(c2) && Waits(c2);
      FlushKeeps(c2, if answers == [] then [] else answers[0]);
    }
  }

  lemma {:induction false} ToldNothing(c: Channel, core: nat, times: nat, answers: seq<seq<bool>>)
    requires c.core != Some(core)
    ensures TellAll(c, core, times, answers) == c
    decreases times
  {
    if times > 0 {
      ToldNothing(c, core, times - 1, if answers == [] then [] else answers[1..]);
    }
  }

  // ---- whole runs --------------------------------------------------------------------------------------

  datatype Event = AttachCore(core: nat) | SendLine(message: string, answers: seq<bool>) | CoreDrained(core: nat, answersTo: seq<seq<bool>>)

  function OnEvent(c: Channel, e: Event): Channel {
    match e
    case AttachCore(core) => Attach(c, core)
    case SendLine(message, answers) => Send(c, message, answers)
    case CoreDrained(core, answers) => Drained(c, core, answers)
  }

  function Run(c: Channel, events: seq<Event>): Channel
    decreases |events|
  {
    if events == [] then c else Run(OnEvent(c, events[0]), events[1..])
  }

  ghost predicate FreshCores(c: Channel, events: seq<Event>)
    decreases |events|
  {
    events == [] ||
    ((events[0].AttachCore? ==> Times(c.listening, events[0].core) == 0) && FreshCores(OnEvent(c, events[0]), events[1..]))
  }

  /** The lines sent since the last attachment, or since the start. */
  function SentSince(events: seq<Event>): seq<string> {
    if events == [] then []
    else
      var last := events[|events| - 1];
      match last
      case AttachCore(_) => []
      case SendLine(message, _) => SentSince(events[..|events| - 1]) + [message + "\n"]
      case CoreDrained(_, _) => SentSince(events[..|events| - 1])
  }

  lemma EventKeeps(c: Channel, e: Event)
    requires Valid(c) && (e.AttachCore? ==> Times(c.listening, e.core) == 0)
    ensures Valid(OnEvent(c, e))
    ensures OnEvent(c, e).sent ==
            match e { case AttachCore(_) => [] case SendLine(message, _) => c.sent + [Line(message)] case CoreDrained(_, _) => c.sent }
  {
    hide Valid, Send, Drained;
    match e {
      case AttachCore(core) => AttachKeeps(c, core);
      case SendLine(message, answers) => SendKeeps(c, message, answers);
      case CoreDrained(core, answers) => DrainedKeeps(c, core, answers);
    }
  }

  lemma {:induction false} RunSplits(c: Channel, events: seq<Event>)
    requires events != []
    ensures Run(c, events) == OnEvent(Run(c, events[..|events| - 1]), events[|events| - 1])
    ensures FreshCores(c, events) ==> FreshCores(c, events[..|events| - 1])
    ensures FreshCores(c, events) && events[|events| - 1].AttachCore? ==>
              Times(Run(c, events[..|events| - 1]).listening, events[|events| - 1].core) == 0
    decreases |events|
  {
    hide OnEvent;
    if |events| == 1 {
      assert events[1..] == [] && events[..0] == [];
    } else {
      var rest := events[1..];
      assert events[..|events| - 1][1..] == rest[..|rest| - 1];
      RunSplits(OnEvent(c, events[0]), rest);
    }
  }

  /**
    Over every run: what the current core accepted since it was attached, followed by what still waits, is
    what was sent since then, in order; and a channel that does not wait has nothing queued.
   */
  lemma {:induction false} NothingLostOrReordered(core: Option<nat>, events: seq<Event>)
    requires FreshCores(Start(core), events)
    ensures var c := Run(Start(core), events);
            && Valid(c) && c.sent == SentSince(events)
            && (c.core.Some? ==> Accepted(c) + c.pending == SentSince(events))
            && (!c.waitingDrain ==> c.pending == [])
    decreases |events|
  {
    if events == [] {
      StartValid(core);
    } else {
      RunSplits(Start(core), events);
      NothingLostOrReordered(core, events[..|events| - 1]);
      hide Run, OnEvent;
      EventKeeps(Run(Start(core), events[..|events| - 1]), events[|events| - 1]);
    }
  }

  // ---- runs that attach every core once ------------------------------------------------------------------

  /** No core is attached that was attached before. */
  ghost predicate EachOnce(seen: set<nat>, events: seq<Event>)
    decreases |events|
  {
    events == [] ||
    if events[0].AttachCore? then events[0].core !in seen && EachOnce(seen + {events[0].core}, events[1..])
    else EachOnce(seen, events[1..])
  }

  /** The current core is one of these, and nobody listens to any other. */
  ghost predicate KnownOnly(c: Channel, seen: set<nat>) {
    && (c.core.Some? ==> c.core.value in seen)
    && forall core: nat :: core !in seen ==> Times(c.listening, core) == 0
  }

  lemma {:induction false} FlushKnown(c: Channel, answers: seq<bool>, seen: set<nat>)
    requires KnownOnly(c, seen)
    ensures KnownOnly(Flush(c, answers), seen)
    decreases |c.pending|
  {
    if !c.waitingDrain && c.core.Some? && c.pending != [] {
      var c1 := WriteFirst(c, c.core.value);
      if Answer(answers) {
        FlushKnown(c1, Later(answers), seen);
      } else {
        forall core: nat ensures Times(c.listening + [c.core.value], core) == Times(c.listening, core) + (if c.core.value == core then 1 else 0) {
          TimesAdd(c.listening, c.core.value, core);
        }
      }
    }
  }

  lemma {:induction false} TellAllKnown(c: Channel, core: nat, times: nat, answers: seq<seq<bool>>, seen: set<nat>)
    requires KnownOnly(c, seen)
    ensures KnownOnly(TellAll(c, core, times, answers), seen)
    decreases times
  {
    if times > 0 {
      var first, later := if answers == [] then [] else answers[0], if answers == [] then [] else answers[1..];
      if c.core == Some(core) {
        FlushKnown(c.(waitingDrain := false), first, seen);
      }
      TellAllKnown(Told(c, core, first), core, times - 1, later, seen);
    }
  }

  lemma EventKnown(c: Channel, e: Event, seen: set<nat>)
    requires KnownOnly(c, seen)
    ensures KnownOnly(OnEvent(c, e), if e.AttachCore? then seen + {e.core} else seen)
  {
    hide Flush, TellAll;
    match e {
      case AttachCore(core) =>
      case SendLine(message, answers) => FlushKnown(Queue(c, message), answers, seen);
      case CoreDrained(core, answers) =>
        var c1 := c.(listening := Without(c.listening, core));
        forall other: nat ensures Times(c1.listening, other) == if other == core then 0 else Times(c.listening, other) {
          TimesWithout(c.listening, core, other);
        }
        TellAllKnown(c1, core, Times(c.listening, core), answers, seen);
    }
  }

  lemma {:induction false} EachOnceIsFresh(c: Channel, events: seq<Event>, seen: set<nat>)
    requires KnownOnly(c, seen) && EachOnce(seen, events)
    ensures FreshCores(c, events)
    decreases |events|
  {
    if events != [] {
      EventKnown(c, events[0], seen);
      hide OnEvent;
      EachOnceIsFresh(OnEvent(c, events[0]), events[1..], if events[0].AttachCore? then seen + {events[0].core} else seen);
    }
  }

  /** When only new processes are attached, nothing is ever lost, reordered or left behind. */
  lemma NewProcessesLoseNothing(core: Option<nat>, events: seq<Event>)
    requires EachOnce(if core.Some? then {core.value} else {}, events)
    ensures var c := Run(Start(core), events);
            && (c.core.Some? ==> Accepted(c) + c.pending == SentSince(events))
            && (!c.waitingDrain ==> c.pending == [])
  {
    var seen: set<nat> := if core.Some? then {core.value} else {};
    assert KnownOnly(Start(core), seen);
    hide *;
    EachOnceIsFresh(Start(core), events, seen);
    NothingLostOrReordered(core, events);
  }

  /** A core attached again while its "drain" is awaited is soon listened to twice. */
  lemma ReattachedListensTwice(c: Channel, core: nat, message: string)
    requires Valid(c) && c.core == Some(core) && c.waitingDrain
    ensures var after := Send(Attach(c, core), message, [false]);
            after.waitingDrain && Times(after.listening, core) == 2
  {
    var queued := Queue(Attach(c, core), message);
    var written := WriteFirst(queued, core);
    assert Flush(queued, [false]) == written.(waitingDrain := true, listening := c.listening + [core]);
    TimesAdd(c.listening, core, core);
  }

  /** Listened to twice, one "drain" writes a second line although the first write asked to wait. */
  lemma ListenedTwiceIsRushed(c: Channel, core: nat, first: string, second: string)
    requires c.core == Some(core) && c.waitingDrain && Times(c.listening, core) == 2 && c.pending == [first, second]
    ensures var once := Told(c.(listening := Without(c.listening, core)), core, [false]);
            once.waitingDrain && once.pending == [second]
    ensures On(Drained(c, core, [[false], []]).written, core) == On(c.written, core) + [first] + [second]
  {
    var c1 := c.(listening := Without(c.listening, core), waitingDrain := false);
    var c2 := WriteFirst(c1, core);
    var once := c2.(waitingDrain := true, listening := c1.listening + [core]);
    assert c.pending[1..] == [second] && [second][1..] == [];
    assert Flush(c1, [false]) == once;
    var c3 := WriteFirst(once.(waitingDrain := false), core);
    assert Flush(once.(waitingDrain := false), []) == c3;
    var answers: seq<seq<bool>> := [[false], []];
    assert answers[1..] == [[]] && answers[1..][1..] == [];
    assert TellAll(once, core, 1, answers[1..]) == c3;
  }

  lemma QueuesWhileWaiting(c: Channel, message: string)
    requires c.waitingDrain
    ensures Send(c, message, []) == Queue(c, message)
  {
  }

  /**
    One core from its re-attachment to its "drain": it is listened to twice, so the drain writes `second`
    although writing `first` asked to wait.
   */
  lemma ReattachedIsRushed(c: Channel, core: nat, asking: string, first: string, second: string)
    requires Valid(c) && c.core == Some(core) && c.waitingDrain
    ensures var queued := Send(Send(Send(Attach(c, core), asking, [false]), first, []), second, []);
            var once := Told(queued.(listening := Without(queued.listening, core)), core, [false]);
            && once.waitingDrain && once.pending == [Line(second)]
            && On(Drained(queued, core, [[false], []]).written, core) == On(queued.written, core) + [Line(first)] + [Line(second)]
  {
    var again := Send(Attach(c, core), asking, [false]);
    ReattachedListensTwice(c, core, asking);
    assert again.core == Some(core) && again.pending == [] by {
      AttachedAsks(c, core, asking);
    }
    hide Send, Attach, Told, Drained, On;
    QueuesWhileWaiting(again, first);
    QueuesWhileWaiting(Queue(again, first), second);
    assert [] + [Line(first)] == [Line(first)] && [Line(first)] + [Line(second)] == [Line(first), Line(second)];
    ListenedTwiceIsRushed(Queue(Queue(again, first), second), core, Line(first), Line(second));
  }

  lemma AttachedAsks(c: Channel, core: nat, asking: string)
    ensures var again := Send(Attach(c, core), asking, [false]);
            again.core == Some(core) && again.pending == [] && again.waitingDrain
  {
    assert [Line(asking)][1..] == [];
  }

  /** The same as a whole run: the core is attached again while it is awaited, and then drains once. */
  const RUSHED_RUN := [SendLine("a", [false]), AttachCore(0), SendLine("b", [false]), SendLine("c", []), SendLine("d", [])]

  lemma RushedRun()
    ensures var c := Run(Start(Some(0)), RUSHED_RUN);
            var once := Told(c.(listening := Without(c.listening, 0)), 0, [false]);
            && once.waitingDrain && once.pending == [Line("d")]
            && On(Drained(c, 0, [[false], []]).written, 0) == On(c.written, 0) + [Line("c")] + [Line("d")]
  {
    var start := Start(Some(0));
    var waiting := Send(start, "a", [false]);
    StartValid(Some(0));
    SendKeeps(start, "a", [false]);
    assert waiting.waitingDrain && waiting.core == Some(0) by {
      assert [Line("a")][1..] == [];
    }
    FiveEvents(start, RUSHED_RUN[0], RUSHED_RUN[1], RUSHED_RUN[2], RUSHED_RUN[3], RUSHED_RUN[4]);
    hide Send, Attach, Told, Drained, On, Run, Valid;
    ReattachedIsRushed(waiting, 0, "b", "c", "d");
  }

  lemma FiveEvents(c: Channel, a: Event, b: Event, d: Event, e: Event, f: Event)
    ensures Run(c, [a, b, d, e, f]) == OnEvent(OnEvent(OnEvent(OnEvent(OnEvent(c, a), b), d), e), f)
  {
    hide OnEvent;
    assert [a, b, d, e, f][1..] == [b, d, e, f] && [b, d, e, f][1..] == [d, e, f] && [d, e, f][1..] == [e, f] && [e, f][1..] == [f];
    assert [f][1..] == [];
    var c4 := OnEvent(OnEvent(OnEvent(OnEvent(c, a), b), d), e);
    assert Run(c4, [f]) == OnEvent(c4, f);
    assert Run(OnEvent(OnEvent(c, a), b), [d, e, f]) == Run(OnEvent(OnEvent(OnEvent(c, a), b), d), [e, f]) == Run(c4, [f]);
  }
}

/** The channel as the program holds it: every method does what `ChannelModel` says. */
module CoreChannels {
  import opened Options
  import opened ChannelModel

  lemma FlushIs(c: Channel, answers: seq<bool>)
    ensures ChannelModel.Flush(c, answers) ==
            if c.waitingDrain then c
            else if c.core.None? then c.(pending := [])
            else if c.pending == [] then c
            else
              var c1 := WriteFirst(c, c.core.value);
              if Answer(answers) then ChannelModel.Flush(c1, Later(answers))
              else c1.(waitingDrain := true, listening := c.listening + [c.core.value])
  {
  }

  class CoreChannel {
    var core: Option<nat>
    var pending: seq<string>
    var isWaitingDrain: bool
    var commandsEnqueued: nat
    var commandsWritten: nat
    var maxQueueDepth: nat
    /** The world around the channel: each core's stdin, and who listens for a "drain". */
    var written: map<nat, seq<string>>
    var listening: seq<nat>
    ghost var sent: seq<string>
    ghost var base: nat

    ghost function State(): Channel
      reads this
    {
      Channel(core, pending, isWaitingDrain, written, listening, sent, base, commandsEnqueued, commandsWritten, maxQueueDepth)
    }

    constructor (core: Option<nat>)
      ensures State() == Start(core)
    {
      this.core, pending, isWaitingDrain := core, [], false;
      commandsEnqueued, commandsWritten, maxQueueDepth := 0, 0, 0;
      written, listening, sent, base := map[], [], [], 0;
    }

    method Attach(core: nat)
      modifies this
      ensures State() == ChannelModel.Attach(old(State()), core)
    {
      this.core := Some(core);
      isWaitingDrain := false;
      pending := [];
      sent, base := [], |On(written, core)|;
    }

    method Send(message: string, answers: seq<bool>)
      modifies this
      ensures State() == ChannelModel.Send(old(State()), message, answers)
    {
      pending := pending + [Line(message)];
      sent := sent + [Line(message)];
      commandsEnqueued := commandsEnqueued + 1;
      if |pending| > maxQueueDepth {
        maxQueueDepth := |pending|;
      }
      Flush(answers);
    }

    method Flush(answers: seq<bool>)
      modifies this
      ensures State() == ChannelModel.Flush(old(State()), answers)
    {
      var left := answers;
      ghost var was := State();
      FlushIs(was, answers);
      hide ChannelModel.Flush;
      if isWaitingDrain {
        return;
      }
      if core.None? {
        pending := [];
        return;
      }
      while |pending| > 0
        invariant !isWaitingDrain && core == was.core
        invariant ChannelModel.Flush(State(), left) == ChannelModel.Flush(was, answers)
      {
        FlushIs(State(), left);
        var writeSuccess := Answer(left);
        WriteLine();
        left := Later(left);
        if !writeSuccess {
          isWaitingDrain := true;
          listening := listening + [core.value];
          return;
        }
      }
      FlushIs(State(), left);
    }

    /** Stdin takes the line whatever it answers. */
    method WriteLine()
      requires core.Some? && pending != []
      modifies this
      ensures State() == WriteFirst(old(State()), old(core).value)
    {
      var message := pending[0];
      pending := pending[1..];
      written := written[core.value := On(written, core.value) + [message]];
      commandsWritten := commandsWritten + 1;
    }

    /** The core's "drain": everyone who listened for it is told, in turn. */
    method OnDrain(drained: nat, answers: seq<seq<bool>>)
      modifies this
      ensures State() == Drained(old(State()), drained, answers)
    {
      var times := Times(listening, drained);
      var left := answers;
      listening := Without(listening, drained);
      ghost var was := State();
      hide ChannelModel.Flush;
      while times > 0
        invariant TellAll(State(), drained, times, left) == TellAll(was, drained, Times(old(listening), drained), answers)
      {
        TellListener(drained, if left == [] then [] else left[0]);
        left := if left == [] then [] else left[1..];
        times := times - 1;
      }
    }

    method TellListener(drained: nat, answers: seq<bool>)
      modifies this
      ensures State() == Told(old(State()), drained, answers)
    {
      hide ChannelModel.Flush;
      if core != Some(drained) {
        return;
      }
      isWaitingDrain := false;
      Flush(answers);
    }
  }
}
