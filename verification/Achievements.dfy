/**
  Gameplay achievements: the evaluator, the fold that replays a whole history through it, and the live
  awarder that reads a summary of the history before each match.
 */
module Achievements {
  import opened Options
  import opened Sequences

  // ---- ladders ------------------------------------------------------------------------------------

  /** What the rank groups say: the canonical name behind an alias, and the groups a list belongs to. */
  datatype Resolver = Resolver(aliases: map<string, string>, groups: map<string, seq<string>>)
  {
    function ResolveAlias(name: string): string { if name in aliases then aliases[name] else name }
    function GroupsFor(name: string): seq<string> { if name in groups then groups[name] else [] }
  }

  const NO_BAN_LIST := "N/A"

  function LaddersFor(r: Resolver, banListName: string): seq<string> {
    if banListName == "" || banListName == NO_BAN_LIST then []
    else
      var resolved := r.ResolveAlias(banListName);
      Dedup([resolved] + r.GroupsFor(resolved))
  }

  /**
    The ladders fed are the name the alias stands for, at the front, and the groups the resolver lists under that
    name; there are none when the name is empty or stands for no list.
   */
  lemma LaddersAre(r: Resolver, name: string)
    ensures var canonical := if name in r.aliases then r.aliases[name] else name;
            var ladders := LaddersFor(r, name);
            && (ladders == [] <==> name == "" || name == "N/A")
            && (ladders != [] ==> ladders[0] == canonical)
            && forall ladder :: ladder in ladders <==>
                 && name != "" && name != "N/A"
                 && (ladder == canonical || (canonical in r.groups && ladder in r.groups[canonical]))
  {
    var canonical := r.ResolveAlias(name);
    DedupFirst(canonical, r.GroupsFor(canonical));
  }

  // ---- the evaluator ---------------------------------------------------------------------------------

  const WIN_THRESHOLDS := [(10, "wins_10"), (50, "wins_50"), (100, "wins_100")]
  const STREAK_THRESHOLDS := [(3, "streak_3"), (5, "streak_5"), (10, "streak_10")]
  const MATCHES_THRESHOLD := 100

  function FormatFirstWinCode(ladder: string): string {
    "format_first_win:" + ladder
  }

  datatype Input = Input(
    rankedWinsBefore: nat,
    rankedMatchesBefore: nat,
    currentStreakBefore: nat,
    ladderWinsBefore: nat,
    ladder: Option<string>,
    won: bool)
  {
    function WinsAfter(): nat { rankedWinsBefore + (if won then 1 else 0) }
    function StreakAfter(): nat { if won then currentStreakBefore + 1 else 0 }
    function MatchesAfter(): nat { rankedMatchesBefore + 1 }
    function LadderWinsAfter(): nat { ladderWinsBefore + (if won then 1 else 0) }
  }

  /** The codes of a threshold table that a total reaches. */
  function Reached(total: nat, table: seq<(int, string)>): seq<string> {
    if table == [] then []
    else (if total >= table[0].0 then [table[0].1] else []) + Reached(total, table[1..])
  }

  function LadderCodes(input: Input): seq<string> {
    if input.ladder.Some? && input.LadderWinsAfter() >= 1 then [FormatFirstWinCode(input.ladder.value)] else []
  }

  function Evaluate(input: Input): seq<string> {
    (if input.WinsAfter() >= 1 then ["first_win"] else []) +
    Reached(input.WinsAfter(), WIN_THRESHOLDS) +
    Reached(input.StreakAfter(), STREAK_THRESHOLDS) +
    LadderCodes(input) +
    (if input.MatchesAfter() >= MATCHES_THRESHOLD then ["matches_100"] else [])
  }

  method PushReached(codes: seq<string>, total: nat, table: seq<(int, string)>) returns (pushed: seq<string>)
    ensures pushed == codes + Reached(total, table)
  {
    pushed := codes;
    assert table[0..] == table;
    for i := 0 to |table|
      invariant pushed + Reached(total, table[i..]) == codes + Reached(total, table)
    {
      assert table[i..][1..] == table[i + 1..];
      if total >= table[i].0 {
        pushed := pushed + [table[i].1];
      }
    }
    assert table[|table|..] == [];
  }

  method EvaluateAchievements(input: Input) returns (codes: seq<string>)
    ensures codes == Evaluate(input)
  {
    hide Reached;
    codes := [];
    if input.WinsAfter() >= 1 {
      codes := codes + ["first_win"];
    }
    codes := PushReached(codes, input.WinsAfter(), WIN_THRESHOLDS);
    codes := PushReached(codes, input.StreakAfter(), STREAK_THRESHOLDS);
    if input.ladder.Some? && input.LadderWinsAfter() >= 1 {
      codes := codes + [FormatFirstWinCode(input.ladder.value)];
    }
    if input.MatchesAfter() >= MATCHES_THRESHOLD {
      codes := codes + ["matches_100"];
    }
  }

  /** What each code stands for. */
  predicate Qualifies(code: string, input: Input) {
    || (code == "first_win" && input.WinsAfter() >= 1)
    || (code == "wins_10" && input.WinsAfter() >= 10)
    || (code == "wins_50" && input.WinsAfter() >= 50)
    || (code == "wins_100" && input.WinsAfter() >= 100)
    || (code == "streak_3" && input.StreakAfter() >= 3)
    || (code == "streak_5" && input.StreakAfter() >= 5)
    || (code == "streak_10" && input.StreakAfter() >= 10)
    || (input.ladder.Some? && code == FormatFirstWinCode(input.ladder.value) && input.LadderWinsAfter() >= 1)
    || (code == "matches_100" && input.MatchesAfter() >= 100)
  }

  lemma ReachedThree(total: nat, a: (int, string), b: (int, string), c: (int, string), code: string)
    ensures code in Reached(total, [a, b, c]) <==>
            (code == a.1 && total >= a.0) || (code == b.1 && total >= b.0) || (code == c.1 && total >= c.0)
  {
    assert [a, b, c][1..] == [b, c] && [b, c][1..] == [c] && [c][1..] == [];
    assert Reached(total, [c]) == if total >= c.0 then [c.1] else [];
    assert Reached(total, [b, c]) == (if total >= b.0 then [b.1] else []) + Reached(total, [c]);
  }

  /** A player gets exactly the codes whose totals this match reached or had passed. */
  lemma EvaluateMeans(input: Input, code: string)
    ensures code in Evaluate(input) <==> Qualifies(code, input)
  {
    ReachedThree(input.WinsAfter(), WIN_THRESHOLDS[0], WIN_THRESHOLDS[1], WIN_THRESHOLDS[2], code);
    ReachedThree(input.StreakAfter(), STREAK_THRESHOLDS[0], STREAK_THRESHOLDS[1], STREAK_THRESHOLDS[2], code);
    assert WIN_THRESHOLDS == [WIN_THRESHOLDS[0], WIN_THRESHOLDS[1], WIN_THRESHOLDS[2]];
    assert STREAK_THRESHOLDS == [STREAK_THRESHOLDS[0], STREAK_THRESHOLDS[1], STREAK_THRESHOLDS[2]];
    hide Reached;
  }

  /** The streak thresholds lie far below the window, so cutting a longer streak short changes nothing. */
  lemma StreakCutShort(input: Input, cut: nat)
    requires cut == input.currentStreakBefore || 10 <= cut <= input.currentStreakBefore
    ensures Evaluate(input.(currentStreakBefore := cut)) == Evaluate(input)
  {
    var a, b := input.StreakAfter(), input.(currentStreakBefore := cut).StreakAfter();
    ReachedSame(a, b, STREAK_THRESHOLDS);
    hide Reached;
  }

  lemma {:induction false} ReachedSame(a: nat, b: nat, table: seq<(int, string)>)
    requires forall i :: 0 <= i < |table| ==> (a >= table[i].0 <==> b >= table[i].0)
    ensures Reached(a, table) == Reached(b, table)
  {
    if table != [] {
      assert forall i :: 0 <= i < |table[1..]| ==> table[1..][i] == table[i + 1];
      ReachedSame(a, b, table[1..]);
    }
  }

  // ---- histories -------------------------------------------------------------------------------------

  datatype Played = Played(won: bool, banListName: string, season: int)

  const STREAK_WINDOW := 200

  /** How many wins precede the first loss. */
  function CurrentStreak(winnersLatestFirst: seq<bool>): nat {
    if winnersLatestFirst == [] || !winnersLatestFirst[0] then 0 else 1 + CurrentStreak(winnersLatestFirst[1..])
  }

  function LatestFirst(history: seq<Played>): (r: seq<bool>)
    ensures |r| == |history|
  {
    if history == [] then [] else [history[|history| - 1].won] + LatestFirst(history[..|history| - 1])
  }

  function Wins(history: seq<Played>): nat {
    if history == [] then 0 else Wins(history[..|history| - 1]) + (if history[|history| - 1].won then 1 else 0)
  }

  /** Wins of the matches that feed a ladder, counted match by match. */
  function LadderWins(history: seq<Played>, r: Resolver, ladder: string): nat {
    if history == [] then 0
    else
      var last := history[|history| - 1];
      LadderWins(history[..|history| - 1], r, ladder)
      + (if last.won && ladder in LaddersFor(r, last.banListName) then 1 else 0)
  }

  /** Wins under one ban list name, as the match rows store it. */
  function WinsUnder(history: seq<Played>, name: string): nat {
    if history == [] then 0
    else
      WinsUnder(history[..|history| - 1], name)
      + (if history[|history| - 1].won && history[|history| - 1].banListName == name then 1 else 0)
  }

  datatype BanListWins = BanListWins(name: string, wins: nat)

  /** The wins grouped by ban list name, in whatever order the rows come. */
  ghost predicate Grouped(entries: seq<BanListWins>, history: seq<Played>) {
    && (forall i, j :: 0 <= i < j < |entries| ==> entries[i].name != entries[j].name)
    && (forall e :: e in entries ==> e.wins == WinsUnder(history, e.name))
    && (forall p :: p in history && p.won ==> exists e :: e in entries && e.name == p.banListName)
  }

  datatype Summary = Summary(rankedWins: nat, rankedMatches: nat, currentStreak: nat, ladderWins: seq<BanListWins>)

  /** What the history reader reports before a match: totals, wins by ban list, and a streak seen through a window. */
  function SummaryOf(history: seq<Played>, entries: seq<BanListWins>): Summary {
    var latest := LatestFirst(history);
    Summary(Wins(history), |history|, CurrentStreak(if |latest| <= STREAK_WINDOW then latest else latest[..STREAK_WINDOW]), entries)
  }

  lemma {:induction false} WindowedStreak(latest: seq<bool>, window: nat)
    requires window <= |latest|
    ensures CurrentStreak(latest[..window]) == if CurrentStreak(latest) <= window then CurrentStreak(latest) else window
  {
    if window > 0 && latest[0] {
      assert latest[..window][1..] == latest[1..][..window - 1];
      WindowedStreak(latest[1..], window - 1);
    }
  }

  // ---- wins summed over the ban lists feeding a ladder ---------------------------------------------

  /** Folding wins stored by ban list into a ladder. */
  function LadderWinsIn(entries: seq<BanListWins>, r: Resolver, ladder: string): nat {
    if entries == [] then 0
    else (if ladder in LaddersFor(r, entries[0].name) then entries[0].wins else 0) + LadderWinsIn(entries[1..], r, ladder)
  }

  function Others(history: seq<Played>, name: string): seq<Played> {
    if history == [] then []
    else
      Others(history[..|history| - 1], name)
      + (if history[|history| - 1].banListName == name then [] else [history[|history| - 1]])
  }

  lemma {:induction false} OthersIn(history: seq<Played>, name: string)
    ensures forall p :: p in Others(history, name) <==> p in history && p.banListName != name
  {
    if history != [] {
      assert history == history[..|history| - 1] + [history[|history| - 1]];
      OthersIn(history[..|history| - 1], name);
    }
  }

  lemma {:induction false} SplitOffName(history: seq<Played>, r: Resolver, ladder: string, name: string)
    ensures LadderWins(history, r, ladder) ==
            LadderWins(Others(history, name), r, ladder) + (if ladder in LaddersFor(r, name) then WinsUnder(history, name) else 0)
  {
    if history != [] {
      var before, last := history[..|history| - 1], history[|history| - 1];
      hide LaddersFor;
      SplitOffName(before, r, ladder, name);
      if last.banListName != name {
        var rest := Others(history, name);
        assert rest == Others(before, name) + [last];
        assert rest[..|rest| - 1] == Others(before, name);
      } else {
        assert Others(history, name) == Others(before, name);
      }
    }
  }

  lemma {:induction false} OthersKeepWins(history: seq<Played>, name: string, other: string)
    requires name != other
    ensures WinsUnder(Others(history, name), other) == WinsUnder(history, other)
  {
    if history != [] {
      var before, last := history[..|history| - 1], history[|history| - 1];
      OthersKeepWins(before, name, other);
      if last.banListName != name {
        var rest := Others(history, name);
        assert rest == Others(before, name) + [last];
        assert rest[..|rest| - 1] == Others(before, name);
      } else {
        assert Others(history, name) == Others(before, name);
      }
    }
  }

  lemma {:induction false} NoWins(history: seq<Played>, r: Resolver, ladder: string)
    requires forall p :: p in history ==> !p.won
    ensures LadderWins(history, r, ladder) == 0
  {
    if history != [] {
      assert history[|history| - 1] in history;
      NoWins(history[..|history| - 1], r, ladder);
    }
  }

  /** Wins summed over the ban lists feeding a ladder are the wins of the matches feeding it. */
  lemma {:induction false} LadderWinsAgree(entries: seq<BanListWins>, history: seq<Played>, r: Resolver, ladder: string)
    requires Grouped(entries, history)
    ensures LadderWinsIn(entries, r, ladder) == LadderWins(history, r, ladder)
    decreases |entries|
  {
    if entries == [] {
      NoWins(history, r, ladder);
    } else {
      var name := entries[0].name;
      assert entries[0] in entries;
      SplitOffName(history, r, ladder, name);
      GroupedRest(entries, history);
      LadderWinsAgree(entries[1..], Others(history, name), r, ladder);
    }
  }

  lemma GroupedRest(entries: seq<BanListWins>, history: seq<Played>)
    requires Grouped(entries, history) && entries != []
    ensures Grouped(entries[1..], Others(history, entries[0].name))
  {
    var rest, others := entries[1..], Others(history, entries[0].name);
    OthersIn(history, entries[0].name);
    assert forall i :: 0 <= i < |rest| ==> rest[i] == entries[i + 1];
    hide WinsUnder, Others;
    forall e | e in rest ensures e.wins == WinsUnder(others, e.name) {
      assert e in entries;
      OthersKeepWins(history, entries[0].name, e.name);
    }
    assert entries == [entries[0]] + rest;
    forall p | p in others && p.won ensures exists e :: e in rest && e.name == p.banListName {
      assert p in history && p.banListName != entries[0].name;
      var e :| e in entries && e.name == p.banListName;
    }
  }

  // ---- awarding ----------------------------------------------------------------------------------------

  datatype Award = Award(season: int, labels: seq<string>)

  /** One evaluation of a match: the ladder it looks at, if any, and the wins in it so far. */
  datatype Evaluation = Evaluation(ladder: Option<string>, winsBefore: nat)

  function InputFor(s: Summary, e: Evaluation, won: bool): Input {
    Input(s.rankedWins, s.rankedMatches, s.currentStreak, e.winsBefore, e.ladder, won)
  }

  function CodesOf(s: Summary, evaluations: seq<Evaluation>, won: bool): seq<string> {
    if evaluations == [] then []
    else CodesOf(s, evaluations[..|evaluations| - 1], won) + Evaluate(InputFor(s, evaluations[|evaluations| - 1], won))
  }

  /** The ladder a code is labelled with when the whole match is looked at; an empty name counts as none. */
  function LabelsFor(code: string, ladders: seq<string>): seq<string> {
    if ladders == [] then []
    else if FormatFirstWinCode(ladders[0]) == code then (if ladders[0] != "" then [ladders[0]] else [])
    else LabelsFor(code, ladders[1..])
  }

  /** The label given while one ladder is looked at. */
  function LabelsUnder(code: string, ladder: Option<string>): seq<string> {
    if ladder.Some? && code == FormatFirstWinCode(ladder.value) then [ladder.value] else []
  }

  // ---- the live awarder -----------------------------------------------------------------------------------

  function LiveEvaluations(s: Summary, r: Resolver, ladders: seq<string>): seq<Evaluation> {
    if ladders == [] then [Evaluation(None, 0)]
    else seq(|ladders|, i requires 0 <= i < |ladders| => Evaluation(Some(ladders[i]), LadderWinsIn(s.ladderWins, r, ladders[i])))
  }

  function LiveGrant(held: map<string, Award>, codes: seq<string>, ladders: seq<string>, season: int, catalog: set<string>)
    : map<string, Award>
  {
    held + map c | c in codes && c in catalog && c !in held :: Award(season, LabelsFor(c, ladders))
  }

  /** One match as the awarder sees it: the catalogued codes the player reaches and does not hold. */
  function LiveMatch(held: map<string, Award>, s: Summary, m: Played, r: Resolver, catalog: set<string>): map<string, Award> {
    var ladders := LaddersFor(r, m.banListName);
    var codes := CodesOf(s, LiveEvaluations(s, r, ladders), m.won);
    LiveGrant(held, codes, ladders, m.season, catalog)
  }

  /** Match after match, each with a summary of the matches before it. */
  function LiveRun(history: seq<Played>, rows: seq<seq<BanListWins>>, r: Resolver, catalog: set<string>): map<string, Award>
    requires |rows| == |history|
  {
    if history == [] then map[]
    else
      var n := |history| - 1;
      LiveMatch(LiveRun(history[..n], rows[..n], r, catalog), SummaryOf(history[..n], rows[n]), history[n], r, catalog)
  }

  method AwardPlayer(held: map<string, Award>, s: Summary, m: Played, r: Resolver, catalog: set<string>)
    returns (after: map<string, Award>)
    ensures after == LiveMatch(held, s, m, r, catalog)
  {
    hide *;
    var ladders := LaddersFor(r, m.banListName);
    var evaluations := LiveEvaluations(s, r, ladders);
    var candidates: seq<string> := [];
    CodesOfNone(s, evaluations, m.won);
    for i := 0 to |evaluations|
      invariant candidates == CodesOf(s, evaluations[..i], m.won)
    {
      CodesOfNext(s, evaluations, i, m.won);
      var found := EvaluateAchievements(InputFor(s, evaluations[i], m.won));
      candidates := candidates + found;
    }
    assert evaluations[..|evaluations|] == evaluations;
    LiveMatchIs(held, s, m, r, catalog);
    after := AwardCodes(held, candidates, ladders, m.season, catalog);
  }

  lemma CodesOfNone(s: Summary, evaluations: seq<Evaluation>, won: bool)
    ensures CodesOf(s, evaluations[..0], won) == []
  {
  }

  lemma CodesOfNext(s: Summary, evaluations: seq<Evaluation>, i: nat, won: bool)
    requires i < |evaluations|
    ensures CodesOf(s, evaluations[..i + 1], won) == CodesOf(s, evaluations[..i], won) + Evaluate(InputFor(s, evaluations[i], won))
  {
    hide Evaluate;
    assert evaluations[..i + 1][..i] == evaluations[..i];
  }

  lemma LiveMatchIs(held: map<string, Award>, s: Summary, m: Played, r: Resolver, catalog: set<string>)
    ensures var ladders := LaddersFor(r, m.banListName);
            LiveMatch(held, s, m, r, catalog)
            == LiveGrant(held, CodesOf(s, LiveEvaluations(s, r, ladders), m.won), ladders, m.season, catalog)
  {
    hide LaddersFor, CodesOf, LiveEvaluations, LiveGrant;
  }

  /** Codes the catalog does not know or the player holds are passed over; the rest are awarded once each. */
  method AwardCodes(held: map<string, Award>, candidates: seq<string>, ladders: seq<string>, season: int, catalog: set<string>)
    returns (after: map<string, Award>)
    ensures after == LiveGrant(held, candidates, ladders, season, catalog)
  {
    var codes := Dedup(candidates);
    after := held;
    LiveGrantNone(held, ladders, season, catalog);
    assert codes[..0] == [];
    for i := 0 to |codes|
      invariant after == LiveGrant(held, codes[..i], ladders, season, catalog)
    {
      LiveGrantNext(held, codes, i, ladders, season, catalog);
      if codes[i] in catalog && codes[i] !in after {
        after := after[codes[i] := Award(season, LabelsFor(codes[i], ladders))];
      }
    }
    assert codes[..|codes|] == codes;
    LiveGrantSame(held, codes, candidates, ladders, season, catalog);
  }

  lemma LiveGrantNone(held: map<string, Award>, ladders: seq<string>, season: int, catalog: set<string>)
    ensures LiveGrant(held, [], ladders, season, catalog) == held
  {
  }

  lemma LiveGrantSame(held: map<string, Award>, a: seq<string>, b: seq<string>, ladders: seq<string>, season: int, catalog: set<string>)
    requires forall c :: c in a <==> c in b
    ensures LiveGrant(held, a, ladders, season, catalog) == LiveGrant(held, b, ladders, season, catalog)
  {
  }

  lemma LiveGrantNext(held: map<string, Award>, codes: seq<string>, i: nat, ladders: seq<string>, season: int, catalog: set<string>)
    requires i < |codes|
    ensures var so := LiveGrant(held, codes[..i], ladders, season, catalog);
            LiveGrant(held, codes[..i + 1], ladders, season, catalog) ==
            if codes[i] in catalog && codes[i] !in so then so[codes[i] := Award(season, LabelsFor(codes[i], ladders))] else so
  {
    hide LabelsFor;
    var so, next := LiveGrant(held, codes[..i], ladders, season, catalog), LiveGrant(held, codes[..i + 1], ladders, season, catalog);
    assert forall c :: c in codes[..i + 1] <==> c in codes[..i] || c == codes[i];
    assert next.Keys == so.Keys + (if codes[i] in catalog then {codes[i]} else {});
  }

  // ---- the replay -----------------------------------------------------------------------------------------

  datatype Tally = Tally(
    awarded: map<string, Award>,
    ladderWins: map<string, nat>,
    rankedWins: nat,
    rankedMatches: nat,
    currentStreak: nat)
  {
    function WinsIn(ladder: string): nat { if ladder in ladderWins then ladderWins[ladder] else 0 }
    function Totals(): Summary { Summary(rankedWins, rankedMatches, currentStreak, []) }
  }

  function ReplayEvaluations(t: Tally, ladders: seq<string>): seq<Evaluation> {
    if ladders == [] then [Evaluation(None, 0)]
    else seq(|ladders|, i requires 0 <= i < |ladders| => Evaluation(Some(ladders[i]), t.WinsIn(ladders[i])))
  }

  /** A code keeps the season and the label of whichever evaluation reached it first. */
  function GrantAll(awarded: map<string, Award>, codes: seq<string>, ladder: Option<string>, season: int): map<string, Award> {
    awarded + map c | c in codes && c !in awarded :: Award(season, LabelsUnder(c, ladder))
  }

  function GrantEach(awarded: map<string, Award>, s: Summary, evaluations: seq<Evaluation>, m: Played): map<string, Award> {
    if evaluations == [] then awarded
    else
      var last := evaluations[|evaluations| - 1];
      GrantAll(GrantEach(awarded, s, evaluations[..|evaluations| - 1], m), Evaluate(InputFor(s, last, m.won)), last.ladder, m.season)
  }

  function CountEach(ladderWins: map<string, nat>, ladders: seq<string>): map<string, nat> {
    if ladders == [] then ladderWins
    else
      var before := CountEach(ladderWins, ladders[..|ladders| - 1]);
      var last := ladders[|ladders| - 1];
      before[last := (if last in before then before[last] else 0) + 1]
  }

  function ReplayMatch(t: Tally, m: Played, r: Resolver): Tally {
    var ladders := LaddersFor(r, m.banListName);
    Tally(GrantEach(t.awarded, t.Totals(), ReplayEvaluations(t, ladders), m),
          if m.won then CountEach(t.ladderWins, ladders) else t.ladderWins,
          t.rankedWins + (if m.won then 1 else 0),
          t.rankedMatches + 1,
          if m.won then t.currentStreak + 1 else 0)
  }

  function Replay(history: seq<Played>, r: Resolver): Tally {
    if history == [] then Tally(map[], map[], 0, 0, 0)
    else ReplayMatch(Replay(history[..|history| - 1], r), history[|history| - 1], r)
  }

  method ReplayAchievements(history: seq<Played>, r: Resolver) returns (awarded: map<string, Award>)
    ensures awarded == Replay(history, r).awarded
  {
    var t := Tally(map[], map[], 0, 0, 0);
    assert history[..0] == [];
    for k := 0 to |history|
      invariant t == Replay(history[..k], r)
    {
      assert history[..k + 1][..k] == history[..k];
      var m := history[k];
      hide *;
      t := Count(t, m, r);
      ReplayNext(history, k, r);
    }
    assert history[..|history|] == history;
    awarded := t.awarded;
  }

  method Count(t: Tally, m: Played, r: Resolver) returns (after: Tally)
    ensures after == ReplayMatch(t, m, r)
  {
    hide LaddersFor, GrantEach, CountEach, ReplayEvaluations;
    var ladders := LaddersFor(r, m.banListName);
    var awarded := GrantMatch(t, m, ladders);
    after := t.(awarded := awarded,
                rankedMatches := t.rankedMatches + 1,
                currentStreak := if m.won then t.currentStreak + 1 else 0);
    if m.won {
      var ladderWins := CountMatch(t.ladderWins, ladders);
      after := after.(rankedWins := t.rankedWins + 1, ladderWins := ladderWins);
    }
  }

  lemma ReplayNext(history: seq<Played>, k: nat, r: Resolver)
    requires k < |history|
    ensures Replay(history[..k + 1], r) == ReplayMatch(Replay(history[..k], r), history[k], r)
  {
    assert history[..k + 1][..k] == history[..k];
    hide ReplayMatch;
  }

  method GrantMatch(t: Tally, m: Played, ladders: seq<string>) returns (awarded: map<string, Award>)
    ensures awarded == GrantEach(t.awarded, t.Totals(), ReplayEvaluations(t, ladders), m)
  {
    hide *;
    var evaluations := ReplayEvaluations(t, ladders);
    awarded := t.awarded;
    GrantNothing(t.awarded, t.Totals(), evaluations, m);
    for i := 0 to |evaluations|
      invariant awarded == GrantEach(t.awarded, t.Totals(), evaluations[..i], m)
    {
      GrantEachNext(t.awarded, t.Totals(), evaluations, i, m);
      var codes := EvaluateAchievements(InputFor(t.Totals(), evaluations[i], m.won));
      awarded := GrantCodes(awarded, codes, evaluations[i].ladder, m.season);
    }
    assert evaluations[..|evaluations|] == evaluations;
  }

  lemma GrantNothing(awarded: map<string, Award>, s: Summary, evaluations: seq<Evaluation>, m: Played)
    ensures GrantEach(awarded, s, evaluations[..0], m) == awarded
  {
  }

  lemma GrantEachNext(awarded: map<string, Award>, s: Summary, evaluations: seq<Evaluation>, i: nat, m: Played)
    requires i < |evaluations|
    ensures var e := evaluations[i];
            GrantEach(awarded, s, evaluations[..i + 1], m)
            == GrantAll(GrantEach(awarded, s, evaluations[..i], m), Evaluate(InputFor(s, e, m.won)), e.ladder, m.season)
  {
    hide Evaluate, GrantAll;
    assert evaluations[..i + 1][..i] == evaluations[..i];
  }

  method GrantCodes(was: map<string, Award>, codes: seq<string>, ladder: Option<string>, season: int)
    returns (awarded: map<string, Award>)
    ensures awarded == GrantAll(was, codes, ladder, season)
  {
    awarded := was;
    assert codes[..0] == [];
    for i := 0 to |codes|
      invariant awarded == GrantAll(was, codes[..i], ladder, season)
    {
      GrantAllNext(was, codes, i, ladder, season);
      if codes[i] !in awarded {
        awarded := awarded[codes[i] := Award(season, LabelsUnder(codes[i], ladder))];
      }
    }
    assert codes[..|codes|] == codes;
  }

  lemma GrantAllNext(was: map<string, Award>, codes: seq<string>, i: nat, ladder: Option<string>, season: int)
    requires i < |codes|
    ensures var so := GrantAll(was, codes[..i], ladder, season);
            GrantAll(was, codes[..i + 1], ladder, season) ==
            if codes[i] !in so then so[codes[i] := Award(season, LabelsUnder(codes[i], ladder))] else so
  {
    assert codes[..i + 1] == codes[..i] + [codes[i]];
    hide LabelsUnder;
  }

  method CountMatch(was: map<string, nat>, ladders: seq<string>) returns (ladderWins: map<string, nat>)
    ensures ladderWins == CountEach(was, ladders)
  {
    ladderWins := was;
    assert ladders[..0] == [];
    for i := 0 to |ladders|
      invariant ladderWins == CountEach(was, ladders[..i])
    {
      assert ladders[..i + 1][..i] == ladders[..i];
      ladderWins := ladderWins[ladders[i] := (if ladders[i] in ladderWins then ladderWins[ladders[i]] else 0) + 1];
    }
    assert ladders[..|ladders|] == ladders;
  }

  // ---- replaying a history is having been awarded live --------------------------------------------------

  lemma {:induction false} CountEachAdds(was: map<string, nat>, ladders: seq<string>, ladder: string)
    requires forall i, j :: 0 <= i < j < |ladders| ==> ladders[i] != ladders[j]
    ensures var after := CountEach(was, ladders);
            (if ladder in after then after[ladder] else 0)
            == (if ladder in was then was[ladder] else 0) + (if ladder in ladders then 1 else 0)
  {
    if ladders != [] {
      var front, last := ladders[..|ladders| - 1], ladders[|ladders| - 1];
      assert ladders == front + [last];
      CountEachAdds(was, front, ladder);
      CountEachAdds(was, front, last);
    }
  }

  /** A list feeds each of its ladders once. */
  lemma LaddersDistinct(r: Resolver, name: string)
    ensures forall i, j :: 0 <= i < j < |LaddersFor(r, name)| ==> LaddersFor(r, name)[i] != LaddersFor(r, name)[j]
  {
    DedupDistinct([r.ResolveAlias(name)] + r.GroupsFor(r.ResolveAlias(name)));
  }

  /** The running counters are the totals of the history so far. */
  lemma {:induction false} CountersAgree(history: seq<Played>, r: Resolver, ladder: string)
    ensures var t := Replay(history, r);
            && t.rankedWins == Wins(history) && t.rankedMatches == |history|
            && t.currentStreak == CurrentStreak(LatestFirst(history))
            && t.WinsIn(ladder) == LadderWins(history, r, ladder)
  {
    if history != [] {
      var before, last := history[..|history| - 1], history[|history| - 1];
      CountersAgree(before, r, ladder);
      LaddersDistinct(r, last.banListName);
      CountEachAdds(Replay(before, r).ladderWins, LaddersFor(r, last.banListName), ladder);
      assert LatestFirst(history)[1..] == LatestFirst(before);
      hide LaddersFor, GrantEach, CountEach;
    }
  }

  /** Both ways evaluate the same ladders with the same wins. */
  lemma SameEvaluations(history: seq<Played>, entries: seq<BanListWins>, r: Resolver, ladders: seq<string>)
    requires Grouped(entries, history)
    ensures LiveEvaluations(SummaryOf(history, entries), r, ladders) == ReplayEvaluations(Replay(history, r), ladders)
  {
    var live, replayed := LiveEvaluations(SummaryOf(history, entries), r, ladders), ReplayEvaluations(Replay(history, r), ladders);
    if ladders != [] {
      hide Grouped, LadderWinsIn, LadderWins, Replay;
      forall i | 0 <= i < |ladders| ensures live[i] == replayed[i] {
        LadderWinsAgree(entries, history, r, ladders[i]);
        CountersAgree(history, r, ladders[i]);
      }
    }
  }

  lemma {:induction false} SameCodes(history: seq<Played>, entries: seq<BanListWins>, r: Resolver, evaluations: seq<Evaluation>, won: bool)
    ensures CodesOf(SummaryOf(history, entries), evaluations, won) == CodesOf(Replay(history, r).Totals(), evaluations, won)
  {
    if evaluations != [] {
      var last := evaluations[|evaluations| - 1];
      hide Evaluate, Replay, CurrentStreak;
      SameCodes(history, entries, r, evaluations[..|evaluations| - 1], won);
      CountersAgree(history, r, "");
      var latest := LatestFirst(history);
      if |latest| > STREAK_WINDOW {
        WindowedStreak(latest, STREAK_WINDOW);
      }
      var full, cut := InputFor(Replay(history, r).Totals(), last, won), SummaryOf(history, entries).currentStreak;
      StreakCutShort(full, cut);
      assert InputFor(SummaryOf(history, entries), last, won) == full.(currentStreakBefore := cut);
    }
  }

  // ---- what a replay awards ----------------------------------------------------------------------------------

  /** What totals alone earn. */
  predicate TotalsEarn(code: string, wins: nat, matches: nat, streak: nat) {
    || (code == "first_win" && wins >= 1) || (code == "wins_10" && wins >= 10)
    || (code == "wins_50" && wins >= 50) || (code == "wins_100" && wins >= 100)
    || (code == "streak_3" && streak >= 3) || (code == "streak_5" && streak >= 5) || (code == "streak_10" && streak >= 10)
    || (code == "matches_100" && matches >= 100)
  }

  /** The last match of a history earns a code by the totals up to and with it, or by a win in a ladder it feeds. */
  ghost predicate Earned(code: string, history: seq<Played>, r: Resolver) {
    && history != []
    && (|| TotalsEarn(code, Wins(history), |history|, CurrentStreak(LatestFirst(history)))
        || exists ladder :: ladder in LaddersFor(r, history[|history| - 1].banListName)
             && code == "format_first_win:" + ladder && LadderWins(history, r, ladder) >= 1)
  }

  lemma QualifiesMeans(code: string, input: Input)
    ensures Qualifies(code, input) <==>
              || TotalsEarn(code, input.WinsAfter(), input.MatchesAfter(), input.StreakAfter())
              || (input.ladder.Some? && code == "format_first_win:" + input.ladder.value && input.LadderWinsAfter() >= 1)
  {
  }

  /** The totals an evaluation of the last match sees are those of the whole history. */
  lemma EvaluatedTotals(history: seq<Played>, r: Resolver, e: Evaluation)
    requires history != []
    requires var t, m := Replay(history[..|history| - 1], r), history[|history| - 1];
             e in ReplayEvaluations(t, LaddersFor(r, m.banListName))
    ensures var t, m := Replay(history[..|history| - 1], r), history[|history| - 1];
            var input := InputFor(t.Totals(), e, m.won);
            && input.WinsAfter() == Wins(history) && input.MatchesAfter() == |history|
            && input.StreakAfter() == CurrentStreak(LatestFirst(history)) && input.ladder == e.ladder
            && (e.ladder.Some? ==> e.ladder.value in LaddersFor(r, m.banListName)
                                   && input.LadderWinsAfter() == LadderWins(history, r, e.ladder.value))
  {
    var before, m := history[..|history| - 1], history[|history| - 1];
    hide LaddersFor, Replay, ReplayEvaluations, Wins, LadderWins, CurrentStreak, LatestFirst;
    WinsNext(history, r, if e.ladder.Some? then e.ladder.value else "");
    EvaluationIn(Replay(before, r), LaddersFor(r, m.banListName), e);
    CountersAgree(before, r, if e.ladder.Some? then e.ladder.value else "");
    StreakNext(history);
  }

  lemma WinsNext(history: seq<Played>, r: Resolver, ladder: string)
    requires history != []
    ensures var before, m := history[..|history| - 1], history[|history| - 1];
            && Wins(history) == Wins(before) + (if m.won then 1 else 0)
            && LadderWins(history, r, ladder) ==
               LadderWins(before, r, ladder) + (if m.won && ladder in LaddersFor(r, m.banListName) then 1 else 0)
  {
    hide LaddersFor;
  }

  lemma EvaluationIn(t: Tally, ladders: seq<string>, e: Evaluation)
    requires e in ReplayEvaluations(t, ladders)
    ensures e.ladder.Some? ==> e.ladder.value in ladders && e.winsBefore == t.WinsIn(e.ladder.value)
  {
  }

  lemma StreakNext(history: seq<Played>)
    requires history != []
    ensures CurrentStreak(LatestFirst(history)) ==
            if history[|history| - 1].won then CurrentStreak(LatestFirst(history[..|history| - 1])) + 1 else 0
  {
    assert LatestFirst(history)[1..] == LatestFirst(history[..|history| - 1]);
  }

  lemma EarnedMeans(history: seq<Played>, r: Resolver, code: string)
    requires history != []
    ensures var t, m := Replay(history[..|history| - 1], r), history[|history| - 1];
            code in CodesOf(t.Totals(), ReplayEvaluations(t, LaddersFor(r, m.banListName)), m.won) <==> Earned(code, history, r)
  {
    var t, m := Replay(history[..|history| - 1], r), history[|history| - 1];
    var ladders := LaddersFor(r, m.banListName);
    var evaluations := ReplayEvaluations(t, ladders);
    EvaluationsCover(t, ladders);
    hide Replay, LaddersFor, ReplayEvaluations, CodesOf, Evaluate, Wins, CurrentStreak, LatestFirst, LadderWins, TotalsEarn, InputFor;
    CodesOfIn(t.Totals(), evaluations, m.won, code);
    forall e | e in evaluations
      ensures code in Evaluate(InputFor(t.Totals(), e, m.won)) <==>
                || TotalsEarn(code, Wins(history), |history|, CurrentStreak(LatestFirst(history)))
                || (e.ladder.Some? && code == "format_first_win:" + e.ladder.value && LadderWins(history, r, e.ladder.value) >= 1)
    {
      EvaluateMeans(InputFor(t.Totals(), e, m.won), code);
      QualifiesMeans(code, InputFor(t.Totals(), e, m.won));
      EvaluatedTotals(history, r, e);
    }
    forall e | e in evaluations && e.ladder.Some? ensures e.ladder.value in ladders {
      EvaluatedTotals(history, r, e);
    }
  }

  lemma EvaluationsCover(t: Tally, ladders: seq<string>)
    ensures ReplayEvaluations(t, ladders) != []
    ensures forall ladder :: ladder in ladders ==> exists e :: e in ReplayEvaluations(t, ladders) && e.ladder == Some(ladder)
  {
    forall ladder | ladder in ladders ensures exists e :: e in ReplayEvaluations(t, ladders) && e.ladder == Some(ladder) {
      var i :| 0 <= i < |ladders| && ladders[i] == ladder;
      assert ReplayEvaluations(t, ladders)[i].ladder == Some(ladder);
    }
  }

  ghost predicate EarnedAt(code: string, history: seq<Played>, r: Resolver, k: nat) {
    0 < k <= |history| && Earned(code, history[..k], r)
  }

  /** Match `k`, counted from one, is the first to earn the code. */
  ghost predicate FirstEarned(code: string, history: seq<Played>, r: Resolver, k: nat) {
    EarnedAt(code, history, r, k) && forall j: nat :: j < k ==> !EarnedAt(code, history, r, j)
  }

  lemma EarnedStays(code: string, history: seq<Played>, r: Resolver, k: nat)
    requires history != []
    ensures EarnedAt(code, history, r, k) <==>
              if k == |history| then Earned(code, history, r) else EarnedAt(code, history[..|history| - 1], r, k)
  {
    hide Earned;
    if k == |history| {
      assert history[..k] == history;
    } else if k < |history| {
      assert history[..|history| - 1][..k] == history[..k];
    }
  }

  lemma GrantedLast(history: seq<Played>, r: Resolver, code: string)
    requires history != []
    ensures var was, awarded := Replay(history[..|history| - 1], r).awarded, Replay(history, r).awarded;
            && (code in awarded <==> code in was || Earned(code, history, r))
            && (code in awarded ==>
                  awarded[code].season == if code in was then was[code].season else history[|history| - 1].season)
  {
    var m := history[|history| - 1];
    var t, ladders := Replay(history[..|history| - 1], r), LaddersFor(r, m.banListName);
    hide *;
    ReplayedLast(history, r);
    EarnedMeans(history, r, code);
    ReplayCovers(t, ladders);
    GrantedAtOnce(t.awarded, t.Totals(), ReplayEvaluations(t, ladders), m, ladders);
  }

  /** A replay awards exactly the codes some match of the history earned, each dated by the earliest match to earn it. */
  lemma {:induction false} AwardedMeans(history: seq<Played>, r: Resolver, code: string)
    ensures var awarded := Replay(history, r).awarded;
            && (code in awarded <==> exists k: nat :: EarnedAt(code, history, r, k))
            && (code in awarded ==> exists k: nat ::
                  0 < k <= |history| && FirstEarned(code, history, r, k) && awarded[code].season == history[k - 1].season)
  {
    hide *;
    if history == [] {
      NothingEarned(code, r);
    } else {
      var n := |history|;
      var before := history[..n - 1];
      AwardedMeans(before, r, code);
      GrantedLast(history, r, code);
      forall k: nat
        ensures EarnedAt(code, history, r, k) <==> if k == n then Earned(code, history, r) else EarnedAt(code, before, r, k)
      {
        EarnedStays(code, history, r, k);
      }
      if code in Replay(before, r).awarded {
        var k: nat :| 0 < k <= |before| && FirstEarned(code, before, r, k) && Replay(before, r).awarded[code].season == before[k - 1].season;
        FirstStays(code, history, r, k);
        assert history[k - 1] == before[k - 1];
      } else if Earned(code, history, r) {
        assert EarnedAt(code, history, r, n);
        FirstNow(code, history, before, r);
      }
    }
  }

  lemma NothingEarned(code: string, r: Resolver)
    ensures code !in Replay([], r).awarded && forall k: nat :: !EarnedAt(code, [], r, k)
  {
  }

  lemma FirstStays(code: string, history: seq<Played>, r: Resolver, k: nat)
    requires history != [] && FirstEarned(code, history[..|history| - 1], r, k)
    ensures FirstEarned(code, history, r, k) && EarnedAt(code, history, r, k) && 0 < k < |history|
  {
    hide Earned;
    forall j: nat | j <= k ensures EarnedAt(code, history, r, j) <==> EarnedAt(code, history[..|history| - 1], r, j) {
      EarnedStays(code, history, r, j);
    }
  }

  lemma FirstNow(code: string, history: seq<Played>, before: seq<Played>, r: Resolver)
    requires history != [] && before == history[..|history| - 1]
    requires Earned(code, history, r) && forall k: nat :: !EarnedAt(code, before, r, k)
    ensures FirstEarned(code, history, r, |history|)
  {
    hide Earned, EarnedAt;
    forall j: nat | j <= |history| ensures EarnedAt(code, history, r, j) <==> j == |history| {
      EarnedStays(code, history, r, j);
    }
  }

  // ---- labels ------------------------------------------------------------------------------------------------

  /** The code of a ladder without a name, the one place where the two ways label differently. */
  const NAMELESS_CODE := "format_first_win:"

  lemma CodesOfLaddersDiffer(a: string, b: string)
    ensures FormatFirstWinCode(a) == FormatFirstWinCode(b) <==> a == b
    ensures FormatFirstWinCode(a) == NAMELESS_CODE <==> a == ""
    ensures FormatFirstWinCode(a) !in ["first_win", "wins_10", "wins_50", "wins_100", "streak_3", "streak_5", "streak_10", "matches_100"]
  {
    var prefix := "format_first_win:";
    assert FormatFirstWinCode(a)[|prefix|..] == a && FormatFirstWinCode(b)[|prefix|..] == b;
    assert FormatFirstWinCode(a)[..|prefix|] == prefix;
    assert FormatFirstWinCode(a)[0] == 'f' && FormatFirstWinCode(a)[1] == 'o';
  }

  /** The labels a code has when its ladder is named in full. */
  function FullLabels(code: string, ladders: seq<string>): seq<string> {
    if ladders == [] then []
    else if FormatFirstWinCode(ladders[0]) == code then [ladders[0]] else FullLabels(code, ladders[1..])
  }

  lemma {:induction false} LabelsAre(code: string, ladders: seq<string>)
    ensures LabelsFor(code, ladders) == if code == NAMELESS_CODE then [] else FullLabels(code, ladders)
    ensures forall ladder :: ladder in ladders && code == FormatFirstWinCode(ladder) ==> FullLabels(code, ladders) == [ladder]
    ensures (forall ladder :: ladder in ladders ==> code != FormatFirstWinCode(ladder)) ==> FullLabels(code, ladders) == []
  {
    if ladders != [] {
      hide FormatFirstWinCode;
      assert ladders == [ladders[0]] + ladders[1..];
      LabelsAre(code, ladders[1..]);
      CodesOfLaddersDiffer(ladders[0], "");
      forall ladder | ladder in ladders && code == FormatFirstWinCode(ladder) ensures FullLabels(code, ladders) == [ladder] {
        CodesOfLaddersDiffer(ladders[0], ladder);
      }
    }
  }

  /** A code reached while one ladder is looked at is labelled as it is when all are. */
  lemma LabelUnderIsFull(s: Summary, e: Evaluation, won: bool, code: string, ladders: seq<string>)
    requires code in Evaluate(InputFor(s, e, won))
    requires if ladders == [] then e.ladder.None? else e.ladder.Some? && e.ladder.value in ladders
    ensures LabelsUnder(code, e.ladder) == FullLabels(code, ladders)
  {
    EvaluateMeans(InputFor(s, e, won), code);
    LabelsAre(code, ladders);
    hide Evaluate, FullLabels, LabelsFor;
    forall ladder | ladder in ladders && code == FormatFirstWinCode(ladder)
      ensures e.ladder.Some? && code == FormatFirstWinCode(e.ladder.value)
    {
      CodesOfLaddersDiffer(ladder, ladder);
    }
  }

  ghost predicate Covers(evaluations: seq<Evaluation>, ladders: seq<string>) {
    forall e :: e in evaluations ==> if ladders == [] then e.ladder.None? else e.ladder.Some? && e.ladder.value in ladders
  }

  /** Granting evaluation by evaluation is granting all the codes of the match at once. */
  lemma {:induction false} GrantedAtOnce(awarded: map<string, Award>, s: Summary, evaluations: seq<Evaluation>, m: Played, ladders: seq<string>)
    requires Covers(evaluations, ladders)
    ensures var after := GrantEach(awarded, s, evaluations, m);
            && (forall c :: c in after <==> c in awarded || c in CodesOf(s, evaluations, m.won))
            && (forall c :: c in after ==> after[c] == if c in awarded then awarded[c] else Award(m.season, FullLabels(c, ladders)))
  {
    if evaluations != [] {
      var front, last := evaluations[..|evaluations| - 1], evaluations[|evaluations| - 1];
      var codes := Evaluate(InputFor(s, last, m.won));
      assert last in evaluations && forall e :: e in front ==> e in evaluations;
      hide Evaluate, FullLabels, LabelsUnder;
      GrantedAtOnce(awarded, s, front, m, ladders);
      forall c | c in codes ensures LabelsUnder(c, last.ladder) == FullLabels(c, ladders) {
        LabelUnderIsFull(s, last, m.won, c, ladders);
      }
    }
  }

  // ---- the equivalence ------------------------------------------------------------------------------------------

  /** The same codes, each from the same season, and the same label unless the ladder has no name. */
  ghost predicate SameAwards(live: map<string, Award>, replayed: map<string, Award>, catalog: set<string>) {
    && (forall c :: c in live <==> c in replayed && c in catalog)
    && (forall c :: c in live ==> live[c].season == replayed[c].season)
    && (forall c :: c in live ==>
          if c == NAMELESS_CODE then live[c].labels == [] && replayed[c].labels == [""] else live[c].labels == replayed[c].labels)
  }

  lemma NamelessLabel(s: Summary, evaluations: seq<Evaluation>, won: bool, ladders: seq<string>)
    requires Covers(evaluations, ladders) && NAMELESS_CODE in CodesOf(s, evaluations, won)
    ensures FullLabels(NAMELESS_CODE, ladders) == [""]
  {
    hide Evaluate, CodesOf, FullLabels, LabelsFor, FormatFirstWinCode, NAMELESS_CODE;
    var e := EvaluationOf(s, evaluations, won, NAMELESS_CODE);
    NamelessReached(s, e, won);
    LabelsAre(NAMELESS_CODE, ladders);
    CodesOfLaddersDiffer("", "");
  }

  lemma {:induction false} EvaluationOf(s: Summary, evaluations: seq<Evaluation>, won: bool, code: string) returns (e: Evaluation)
    requires code in CodesOf(s, evaluations, won)
    ensures e in evaluations && code in Evaluate(InputFor(s, e, won))
  {
    hide Evaluate;
    e := evaluations[|evaluations| - 1];
    if code !in Evaluate(InputFor(s, e, won)) {
      e := EvaluationOf(s, evaluations[..|evaluations| - 1], won, code);
    }
  }

  lemma ReplayCovers(t: Tally, ladders: seq<string>)
    ensures Covers(ReplayEvaluations(t, ladders), ladders)
  {
  }

  lemma MatchAgrees(live: map<string, Award>, history: seq<Played>, entries: seq<BanListWins>, m: Played, r: Resolver, catalog: set<string>)
    requires Grouped(entries, history) && SameAwards(live, Replay(history, r).awarded, catalog)
    ensures SameAwards(LiveMatch(live, SummaryOf(history, entries), m, r, catalog), ReplayMatch(Replay(history, r), m, r).awarded, catalog)
  {
    var t, ladders := Replay(history, r), LaddersFor(r, m.banListName);
    var evaluations := ReplayEvaluations(t, ladders);
    var codes := CodesOf(t.Totals(), evaluations, m.won);
    SameEvaluations(history, entries, r, ladders);
    SameCodes(history, entries, r, evaluations, m.won);
    ReplayCovers(t, ladders);
    MatchesUnfold(live, SummaryOf(history, entries), t, m, r, catalog);
    hide *;
    GrantedAtOnce(t.awarded, t.Totals(), evaluations, m, ladders);
    if NAMELESS_CODE in codes {
      NamelessLabel(t.Totals(), evaluations, m.won, ladders);
    }
    GrantsAgree(live, t.awarded, GrantEach(t.awarded, t.Totals(), evaluations, m), codes, ladders, m.season, catalog);
  }

  lemma MatchesUnfold(live: map<string, Award>, s: Summary, t: Tally, m: Played, r: Resolver, catalog: set<string>)
    ensures var ladders := LaddersFor(r, m.banListName);
            && LiveMatch(live, s, m, r, catalog) == LiveGrant(live, CodesOf(s, LiveEvaluations(s, r, ladders), m.won), ladders, m.season, catalog)
            && ReplayMatch(t, m, r).awarded == GrantEach(t.awarded, t.Totals(), ReplayEvaluations(t, ladders), m)
  {
    hide LaddersFor, CodesOf, LiveEvaluations, ReplayEvaluations, LiveGrant, GrantEach, CountEach;
  }

  lemma GrantsAgree(live: map<string, Award>, was: map<string, Award>, after: map<string, Award>,
                    codes: seq<string>, ladders: seq<string>, season: int, catalog: set<string>)
    requires SameAwards(live, was, catalog)
    requires forall c :: c in after <==> c in was || c in codes
    requires forall c :: c in after ==> after[c] == if c in was then was[c] else Award(season, FullLabels(c, ladders))
    requires NAMELESS_CODE in codes ==> FullLabels(NAMELESS_CODE, ladders) == [""]
    ensures SameAwards(LiveGrant(live, codes, ladders, season, catalog), after, catalog)
  {
    var granted := LiveGrant(live, codes, ladders, season, catalog);
    hide LabelsFor, FullLabels;
    forall c | c in granted ensures c in after && c in catalog && granted[c].season == after[c].season &&
        (if c == NAMELESS_CODE then granted[c].labels == [] && after[c].labels == [""] else granted[c].labels == after[c].labels)
    {
      LabelsAre(c, ladders);
    }
  }

  /**
    The fold over a history and the run of awards along it agree on every code of the catalog: held by both
    or by neither, with one season and, the nameless code apart, one label.
   */
  lemma {:induction false} ReplayIsLive(history: seq<Played>, rows: seq<seq<BanListWins>>, r: Resolver, catalog: set<string>)
    requires |rows| == |history| && forall k :: 0 <= k < |rows| ==> Grouped(rows[k], history[..k])
    ensures SameAwards(LiveRun(history, rows, r, catalog), Replay(history, r).awarded, catalog)
  {
    if history != [] {
      var n := |history| - 1;
      var before := history[..n];
      forall k | 0 <= k < n ensures Grouped(rows[..n][k], before[..k]) {
        assert before[..k] == history[..k] && Grouped(rows[k], history[..k]);
      }
      hide Grouped, SameAwards, LiveMatch, ReplayMatch;
      ReplayIsLive(before, rows[..n], r, catalog);
      MatchAgrees(LiveRun(before, rows[..n], r, catalog), before, rows[n], history[n], r, catalog);
    }
  }

  // ---- where the two differ ---------------------------------------------------------------------------------------

  /** Some match was won under a ban list that feeds a ladder without a name. */
  ghost predicate WonNameless(history: seq<Played>, r: Resolver) {
    exists m :: m in history && m.won && "" in LaddersFor(r, m.banListName)
  }

  lemma {:induction false} LadderWinsMean(history: seq<Played>, r: Resolver)
    ensures LadderWins(history, r, "") >= 1 <==> WonNameless(history, r)
  {
    if history != [] {
      var before, last := history[..|history| - 1], history[|history| - 1];
      assert history == before + [last];
      hide LaddersFor;
      LadderWinsMean(before, r);
    }
  }

  lemma {:induction false} CodesOfIn(s: Summary, evaluations: seq<Evaluation>, won: bool, code: string)
    ensures code in CodesOf(s, evaluations, won) <==> exists e :: e in evaluations && code in Evaluate(InputFor(s, e, won))
  {
    if evaluations != [] {
      var front, last := evaluations[..|evaluations| - 1], evaluations[|evaluations| - 1];
      assert evaluations == front + [last];
      hide Evaluate;
      CodesOfIn(s, front, won, code);
    }
  }

  /** One evaluation reaches the nameless code exactly when it looks at the nameless ladder and finds a win in it. */
  lemma NamelessReached(s: Summary, e: Evaluation, won: bool)
    ensures NAMELESS_CODE in Evaluate(InputFor(s, e, won)) <==> e.ladder == Some("") && (won || e.winsBefore >= 1)
  {
    EvaluateMeans(InputFor(s, e, won), NAMELESS_CODE);
    hide Evaluate, FormatFirstWinCode;
    assert NAMELESS_CODE[0] == 'f' && NAMELESS_CODE[1] == 'o';
    if e.ladder.Some? {
      CodesOfLaddersDiffer(e.ladder.value, "");
    }
  }

  lemma NamelessInMatch(history: seq<Played>, m: Played, r: Resolver)
    ensures var t := Replay(history, r);
            NAMELESS_CODE in CodesOf(t.Totals(), ReplayEvaluations(t, LaddersFor(r, m.banListName)), m.won)
            <==> "" in LaddersFor(r, m.banListName) && (m.won || WonNameless(history, r))
  {
    var t, ladders := Replay(history, r), LaddersFor(r, m.banListName);
    var evaluations := ReplayEvaluations(t, ladders);
    CountersAgree(history, r, "");
    LadderWinsMean(history, r);
    hide Replay, LaddersFor, WonNameless, LadderWins, CodesOf, Evaluate;
    CodesOfIn(t.Totals(), evaluations, m.won, NAMELESS_CODE);
    forall e | e in evaluations
      ensures NAMELESS_CODE in Evaluate(InputFor(t.Totals(), e, m.won)) <==> e.ladder == Some("") && (m.won || e.winsBefore >= 1)
    {
      NamelessReached(t.Totals(), e, m.won);
    }
    if "" in ladders {
      var i :| 0 <= i < |ladders| && ladders[i] == "";
      assert evaluations[i] == Evaluation(Some(""), t.WinsIn(""));
    }
  }

  lemma WonNamelessNext(history: seq<Played>, r: Resolver)
    requires history != []
    ensures var before, m := history[..|history| - 1], history[|history| - 1];
            WonNameless(history, r) <==> WonNameless(before, r) || (m.won && "" in LaddersFor(r, m.banListName))
  {
    hide LaddersFor;
    assert history == history[..|history| - 1] + [history[|history| - 1]];
  }

  lemma ReplayedLast(history: seq<Played>, r: Resolver)
    requires history != []
    ensures var t, m := Replay(history[..|history| - 1], r), history[|history| - 1];
            Replay(history, r).awarded == GrantEach(t.awarded, t.Totals(), ReplayEvaluations(t, LaddersFor(r, m.banListName)), m)
  {
    hide LaddersFor, GrantEach, ReplayEvaluations;
  }

  /** A replay awards the nameless code if and only if the history has a win that feeds the nameless ladder. */
  lemma {:induction false} NamelessExactly(history: seq<Played>, r: Resolver)
    ensures NAMELESS_CODE in Replay(history, r).awarded <==> WonNameless(history, r)
  {
    if history != [] {
      var before, m := history[..|history| - 1], history[|history| - 1];
      var t, ladders := Replay(before, r), LaddersFor(r, m.banListName);
      WonNamelessNext(history, r);
      ReplayedLast(history, r);
      hide *;
      NamelessExactly(before, r);
      NamelessInMatch(before, m, r);
      ReplayCovers(t, ladders);
      GrantedAtOnce(t.awarded, t.Totals(), ReplayEvaluations(t, ladders), m, ladders);
    }
  }

  /** The two are equal outright if and only if the nameless code is not in the catalog, or no win feeds the nameless ladder. */
  lemma ReplayEqualsLive(history: seq<Played>, rows: seq<seq<BanListWins>>, r: Resolver, catalog: set<string>)
    requires |rows| == |history| && forall k :: 0 <= k < |rows| ==> Grouped(rows[k], history[..k])
    ensures var replayed := Replay(history, r).awarded;
            LiveRun(history, rows, r, catalog) == (map c | c in replayed && c in catalog :: replayed[c])
            <==> !(NAMELESS_CODE in catalog && WonNameless(history, r))
  {
    hide Grouped, LiveRun, Replay, WonNameless;
    NamelessExactly(history, r);
    ReplayIsLive(history, rows, r, catalog);
  }

  /** What the configuration loader lets through: no alias leads to the empty name, and no group has it. */
  ghost predicate Loadable(r: Resolver) {
    && (forall alias :: alias in r.aliases ==> r.aliases[alias] != "")
    && (forall name :: name in r.groups ==> "" !in r.groups[name])
  }

  lemma LoadedFeedsNoNameless(history: seq<Played>, r: Resolver)
    requires Loadable(r)
    ensures !WonNameless(history, r)
  {
    forall m | m in history ensures "" !in LaddersFor(r, m.banListName) {
      var resolved := r.ResolveAlias(m.banListName);
      assert m.banListName != "" ==> resolved != "" && "" !in r.GroupsFor(resolved);
    }
  }

  /** With a configuration that was loaded, a replay is what was awarded live, whatever the history and the catalog. */
  lemma LoadedReplayEqualsLive(history: seq<Played>, rows: seq<seq<BanListWins>>, r: Resolver, catalog: set<string>)
    requires Loadable(r)
    requires |rows| == |history| && forall k :: 0 <= k < |rows| ==> Grouped(rows[k], history[..k])
    ensures var replayed := Replay(history, r).awarded;
            LiveRun(history, rows, r, catalog) == map c | c in replayed && c in catalog :: replayed[c]
  {
    hide *;
    LoadedFeedsNoNameless(history, r);
    ReplayEqualsLive(history, rows, r, catalog);
  }

  /** An alias of the empty name: such a resolver can be handed over, but no configuration file gives it. */
  const NAMELESS_RESOLVER := Resolver(map["Edison" := ""], map[])

  /** One match, won under that alias. */
  const NAMELESS_WIN := Played(true, "Edison", 1)

  lemma NamelessWinDiffers()
    ensures !Loadable(NAMELESS_RESOLVER)
    ensures var live := LiveRun([NAMELESS_WIN], [[]], NAMELESS_RESOLVER, {NAMELESS_CODE});
            var replayed := Replay([NAMELESS_WIN], NAMELESS_RESOLVER).awarded;
            && NAMELESS_CODE in live && live[NAMELESS_CODE] == Award(1, [])
            && NAMELESS_CODE in replayed && replayed[NAMELESS_CODE] == Award(1, [""])
  {
    var m, r := NAMELESS_WIN, NAMELESS_RESOLVER;
    assert m.won && m.season == 1;
    OneNamelessLadder();
    assert "Edison" in r.aliases && r.aliases["Edison"] == "";
    hide *;
    OneWinDiffers(m, r);
  }

  lemma OneNamelessLadder()
    ensures LaddersFor(NAMELESS_RESOLVER, NAMELESS_WIN.banListName) == [""]
  {
    assert [""] + [] == [""] && [""][..0] == [];
  }

  /** Any won match whose list feeds the nameless ladder alone. */
  lemma OneWinDiffers(m: Played, r: Resolver)
    requires m.won && LaddersFor(r, m.banListName) == [""]
    ensures var live := LiveRun([m], [[]], r, {NAMELESS_CODE});
            var replayed := Replay([m], r).awarded;
            && NAMELESS_CODE in live && live[NAMELESS_CODE] == Award(m.season, [])
            && NAMELESS_CODE in replayed && replayed[NAMELESS_CODE] == Award(m.season, [""])
  {
    assert [m][..0] == [] && Grouped([], []);
    assert WonNameless([m], r) by {
      assert m in [m];
    }
    hide *;
    NamelessExactly([m], r);
    ReplayIsLive([m], [[]], r, {NAMELESS_CODE});
    OneSeason(m, r);
    LabelledApart(LiveRun([m], [[]], r, {NAMELESS_CODE}), Replay([m], r).awarded, NAMELESS_CODE, m.season);
  }

  lemma OneSeason(m: Played, r: Resolver)
    ensures var awarded := Replay([m], r).awarded;
            forall c :: c in awarded ==> awarded[c].season == m.season
  {
    var t, ladders := Replay([], r), LaddersFor(r, m.banListName);
    assert [m][..0] == [] && t.awarded == map[];
    ReplayedLast([m], r);
    hide *;
    ReplayCovers(t, ladders);
    GrantedAtOnce(t.awarded, t.Totals(), ReplayEvaluations(t, ladders), m, ladders);
  }

  lemma LabelledApart(live: map<string, Award>, replayed: map<string, Award>, code: string, season: int)
    requires code == NAMELESS_CODE && SameAwards(live, replayed, {code}) && code in replayed && replayed[code].season == season
    ensures code in live && live[code] == Award(season, []) && replayed[code] == Award(season, [""])
  {
    hide NAMELESS_CODE;
  }
}
