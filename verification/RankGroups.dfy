/**
  Which rank groups a ban list feeds, and which lists feed a group right now: two computations of the same
  notion of currency.
 */
module RankGroups {
  import opened Options
  import opened Sequences
  import opened Texts

  datatype Date = Date(year: nat, month: nat, day: nat)

  datatype Group = Group(name: string, enabled: bool, onlyCurrent: bool, members: seq<string>)

  const NON_GROUPABLE_NAMES: set<string> := {"N/A", "Global"}

  // ---- names -----------------------------------------------------------------------------------------

  function StartsWith(s: string, prefix: string): bool {
    |prefix| <= |s| && s[..|prefix|] == prefix
  }

  function EndsWith(s: string, suffix: string): bool {
    |suffix| <= |s| && s[|s| - |suffix|..] == suffix
  }

  /** After a star and a space comes a last word to look for; without them the member is one name. */
  predicate MemberMatches(banListName: string, member: string) {
    if StartsWith(member, "* ") then EndsWith(banListName, " " + member[2..]) else banListName == member
  }

  predicate MatchesGroup(name: string, group: Group) {
    exists i :: 0 <= i < |group.members| && MemberMatches(name, group.members[i])
  }

  predicate IsDigit(c: char) { '0' <= c <= '9' }

  predicate DigitsAt(s: string, from: nat, count: nat) {
    from + count <= |s| && forall i :: from <= i < from + count ==> IsDigit(s[i])
  }

  function NumberAt(s: string, from: nat, count: nat): (n: nat)
    requires DigitsAt(s, from, count)
    ensures (count == 0 ==> n == 0) && (count == 1 ==> n < 10) && (count == 2 ==> n < 100)
  {
    if count == 0 then 0 else 10 * NumberAt(s, from, count - 1) + (s[from + count - 1] as int - '0' as int)
  }

  predicate EndsAt(s: string, at: nat) {
    at == |s| || (at < |s| && IsSpace(s[at]))
  }

  /** Year, month and maybe day, with dots between, before white space or the end; without a day it is the first. */
  function ParseDatePrefix(s: string): (r: Option<Date>)
    ensures r.Some? ==> r.value.month < 100 && r.value.day < 100 && s != ""
  {
    if DigitsAt(s, 0, 4) && |s| > 4 && s[4] == '.' && DigitsAt(s, 5, 2) then
      if |s| > 7 && s[7] == '.' && DigitsAt(s, 8, 2) && EndsAt(s, 10) then
        Some(Date(NumberAt(s, 0, 4), NumberAt(s, 5, 2), NumberAt(s, 8, 2)))
      else if EndsAt(s, 7) then Some(Date(NumberAt(s, 0, 4), NumberAt(s, 5, 2), 1))
      else None
    else None
  }

  function DateKey(d: Date): nat {
    d.year * 10000 + d.month * 100 + d.day
  }

  /** Keys order dates as calendars do. */
  lemma KeysOrderDates(a: Date, b: Date)
    requires a.month < 100 && a.day < 100 && b.month < 100 && b.day < 100
    ensures DateKey(a) < DateKey(b) <==>
            a.year < b.year || (a.year == b.year && (a.month < b.month || (a.month == b.month && a.day < b.day)))
    ensures DateKey(a) == DateKey(b) <==> a == b
  {
  }

  function KeyOf(name: string): Option<nat> {
    var date := ParseDatePrefix(name);
    if date.Some? then Some(DateKey(date.value)) else None
  }

  /** A starred member takes the names that end in a space and the rest of the member; any other takes its own name. */
  lemma MemberMeans(name: string, member: string)
    ensures MemberMatches(name, member) <==>
              if |member| >= 2 && member[0] == '*' && member[1] == ' ' then exists front :: name == front + (" " + member[2..])
              else name == member
  {
    assert StartsWith(member, "* ") <==> |member| >= 2 && member[0] == '*' && member[1] == ' ';
    hide EndsWith, StartsWith;
    if |member| >= 2 {
      EndMeans(name, " " + member[2..]);
    }
  }

  lemma EndMeans(s: string, suffix: string)
    ensures EndsWith(s, suffix) <==> exists front :: s == front + suffix
  {
    if EndsWith(s, suffix) {
      assert s == s[..|s| - |suffix|] + suffix;
    }
    forall front | s == front + suffix ensures EndsWith(s, suffix) {
      assert s[|front|..] == suffix;
    }
  }

  // ---- dates written out ---------------------------------------------------------------------------------

  function Power10(count: nat): (p: nat)
    ensures p >= 1
  {
    if count == 0 then 1 else 10 * Power10(count - 1)
  }

  /** The last `count` decimal digits of a number. */
  function Digits(n: nat, count: nat): (s: string)
    ensures |s| == count
  {
    if count == 0 then "" else Digits(n / 10, count - 1) + [('0' as int + n % 10) as char]
  }

  lemma {:induction false} DigitsRead(front: string, n: nat, count: nat, rest: string)
    requires n < Power10(count)
    ensures var s := front + Digits(n, count) + rest;
            DigitsAt(s, |front|, count) && NumberAt(s, |front|, count) == n
  {
    if count > 0 {
      var last := [('0' as int + n % 10) as char];
      assert front + Digits(n, count) + rest == front + Digits(n / 10, count - 1) + (last + rest);
      DigitsRead(front, n / 10, count - 1, last + rest);
    }
  }

  lemma {:induction false} NumberWritten(s: string, from: nat, count: nat)
    requires DigitsAt(s, from, count)
    ensures NumberAt(s, from, count) < Power10(count) && Digits(NumberAt(s, from, count), count) == s[from..from + count]
  {
    if count > 0 {
      NumberWritten(s, from, count - 1);
      assert s[from..from + count] == s[from..from + count - 1] + [s[from + count - 1]];
    }
  }

  function MonthText(year: nat, month: nat): (s: string)
    ensures |s| == 7
  {
    Digits(year, 4) + "." + Digits(month, 2)
  }

  function DayText(year: nat, month: nat, day: nat): (s: string)
    ensures |s| == 10
  {
    MonthText(year, month) + "." + Digits(day, 2)
  }

  ghost predicate Stands(rest: string) {
    rest == "" || IsSpace(rest[0])
  }

  /** The name is a date, with its day or as a whole month, and nothing or white space behind it. */
  ghost predicate Dated(name: string, d: Date, rest: string) {
    && d.year < 10000 && d.month < 100 && d.day < 100 && Stands(rest)
    && (name == DayText(d.year, d.month, d.day) + rest || (d.day == 1 && name == MonthText(d.year, d.month) + rest))
  }

  lemma MonthRead(year: nat, month: nat, rest: string)
    requires year < 10000 && month < 100
    ensures var s := MonthText(year, month) + rest;
            && DigitsAt(s, 0, 4) && NumberAt(s, 0, 4) == year && s[4] == '.'
            && DigitsAt(s, 5, 2) && NumberAt(s, 5, 2) == month
  {
    var s, y, m := MonthText(year, month) + rest, Digits(year, 4), Digits(month, 2);
    assert Power10(2) == 100 && Power10(4) == 100 * Power10(2);
    assert s == y + "." + m + rest;
    hide Digits, NumberAt, DigitsAt, Power10, MonthText;
    assert s == "" + y + ("." + m + rest) && s == (y + ".") + m + rest;
    DigitsRead("", year, 4, "." + m + rest);
    DigitsRead(y + ".", month, 2, rest);
  }

  lemma DayRead(d: Date, rest: string)
    requires d.year < 10000 && d.month < 100 && d.day < 100 && Stands(rest)
    ensures ParseDatePrefix(DayText(d.year, d.month, d.day) + rest) == Some(d)
  {
    var month, day := MonthText(d.year, d.month), Digits(d.day, 2);
    var s := DayText(d.year, d.month, d.day) + rest;
    assert Power10(2) == 100;
    hide Digits, NumberAt, MonthText, IsSpace;
    assert s == month + ("." + day + rest) && s == (month + ".") + day + rest;
    MonthRead(d.year, d.month, "." + day + rest);
    DigitsRead(month + ".", d.day, 2, rest);
    assert s[7] == '.' && s[10..] == rest;
  }

  lemma WholeMonthRead(d: Date, rest: string)
    requires d.year < 10000 && d.month < 100 && d.day == 1 && Stands(rest)
    ensures ParseDatePrefix(MonthText(d.year, d.month) + rest) == Some(d)
  {
    var s := MonthText(d.year, d.month) + rest;
    MonthRead(d.year, d.month, rest);
    hide NumberAt, MonthText;
    assert s[7..] == rest;
    assert !IsSpace('.');
  }

  lemma DateWritten(name: string) returns (rest: string)
    requires ParseDatePrefix(name).Some?
    ensures Dated(name, ParseDatePrefix(name).value, rest)
  {
    var d := ParseDatePrefix(name).value;
    NumberWritten(name, 0, 4);
    NumberWritten(name, 5, 2);
    assert Power10(2) == 100 && Power10(4) == 100 * Power10(2);
    hide Digits, Power10, IsSpace;
    assert name[..7] == name[0..4] + "." + name[5..7];
    if |name| > 7 && name[7] == '.' && DigitsAt(name, 8, 2) && EndsAt(name, 10) {
      NumberWritten(name, 8, 2);
      rest := name[10..];
      assert name == name[..7] + "." + name[8..10] + rest;
    } else {
      rest := name[7..];
      assert name == name[..7] + rest;
    }
  }

  /** A name has a date if and only if it starts with one written out that stands by itself, and then it is that date. */
  lemma DatesRead(name: string, d: Date)
    ensures ParseDatePrefix(name) == Some(d) <==> exists rest :: Dated(name, d, rest)
  {
    hide ParseDatePrefix, MonthText, DayText, Stands;
    if ParseDatePrefix(name) == Some(d) {
      var rest := DateWritten(name);
    } else if rest :| Dated(name, d, rest) {
      if name == DayText(d.year, d.month, d.day) + rest {
        DayRead(d, rest);
      } else {
        WholeMonthRead(d, rest);
      }
    }
  }

  // ---- the newest lists of each server -------------------------------------------------------------

  /** The greatest key not after `today` among the names of one server that match the group. */
  function MaxCurrentKey(group: Group, names: seq<string>, today: nat): Option<nat> {
    if names == [] then None
    else
      var before := MaxCurrentKey(group, names[..|names| - 1], today);
      var last := names[|names| - 1];
      var key := KeyOf(last);
      if MatchesGroup(last, group) && key.Some? && key.value <= today && (before.None? || before.value < key.value)
      then key
      else before
  }

  predicate Counts(group: Group, name: string, today: nat, key: nat) {
    MatchesGroup(name, group) && KeyOf(name) == Some(key) && key <= today
  }

  lemma {:induction false} MaxIsNewest(group: Group, names: seq<string>, today: nat)
    ensures var r := MaxCurrentKey(group, names, today);
            && (r.Some? ==> exists name :: name in names && Counts(group, name, today, r.value))
            && (forall name, key: nat :: name in names && Counts(group, name, today, key) ==> r.Some? && key <= r.value)
  {
    if names != [] {
      var before, last := names[..|names| - 1], names[|names| - 1];
      assert names == before + [last];
      MaxIsNewest(group, before, today);
      hide MatchesGroup, KeyOf;
      var r, m := MaxCurrentKey(group, names, today), MaxCurrentKey(group, before, today);
      if r.Some? && r == m {
        var name :| name in before && Counts(group, name, today, r.value);
        assert name in names;
      } else if r.Some? {
        assert Counts(group, last, today, r.value);
      }
    }
  }

  /** The least of the servers' `MaxCurrentKey`s, over those that have one. */
  function FloorKey(group: Group, servers: seq<seq<string>>, today: nat): Option<nat> {
    if servers == [] then None
    else
      var before := FloorKey(group, servers[..|servers| - 1], today);
      var last := MaxCurrentKey(group, servers[|servers| - 1], today);
      if last.Some? && (before.None? || last.value < before.value) then last else before
  }

  lemma {:induction false} FloorIsLowest(group: Group, servers: seq<seq<string>>, today: nat, k: nat)
    requires k < |servers| && MaxCurrentKey(group, servers[k], today).Some?
    ensures FloorKey(group, servers, today).Some?
    ensures FloorKey(group, servers, today).value <= MaxCurrentKey(group, servers[k], today).value
  {
    hide MaxCurrentKey;
    if k < |servers| - 1 {
      FloorIsLowest(group, servers[..|servers| - 1], today, k);
    }
  }

  /** The server has a list that counts, and none that counts is newer than this key. */
  ghost predicate NoneNewer(names: seq<string>, group: Group, today: nat, key: nat) {
    && (exists other, k: nat :: other in names && Counts(group, other, today, k))
    && (forall other, k: nat :: other in names && Counts(group, other, today, k) ==> k <= key)
  }

  ghost predicate NewestSomewhere(servers: seq<seq<string>>, group: Group, today: nat, key: nat) {
    exists i :: 0 <= i < |servers| && NoneNewer(servers[i], group, today, key)
  }

  ghost predicate NothingCounts(servers: seq<seq<string>>, group: Group, today: nat) {
    forall i, other, k: nat :: 0 <= i < |servers| && other in servers[i] ==> !Counts(group, other, today, k)
  }

  /** The floor is the newest key of some server. */
  lemma {:induction false} FloorIsReached(group: Group, servers: seq<seq<string>>, today: nat)
    ensures FloorKey(group, servers, today).Some? ==>
              exists k :: 0 <= k < |servers| && MaxCurrentKey(group, servers[k], today) == FloorKey(group, servers, today)
  {
    hide MaxCurrentKey;
    if servers != [] {
      var front := servers[..|servers| - 1];
      FloorIsReached(group, front, today);
      if FloorKey(group, servers, today).Some? && FloorKey(group, servers, today) == FloorKey(group, front, today) {
        var k :| 0 <= k < |front| && MaxCurrentKey(group, front[k], today) == FloorKey(group, front, today);
        assert servers[k] == front[k];
      }
    }
  }

  lemma NewestMeans(names: seq<string>, group: Group, today: nat, key: nat)
    ensures var newest := MaxCurrentKey(group, names, today);
            NoneNewer(names, group, today, key) <==> newest.Some? && newest.value <= key
  {
    MaxIsNewest(group, names, today);
    hide MaxCurrentKey, Counts;
  }

  /** Being at or above the floor is being no older than everything that counts on some server. */
  lemma FloorMeans(servers: seq<seq<string>>, group: Group, today: nat, key: nat)
    ensures var floor := FloorKey(group, servers, today);
            && (floor.Some? && floor.value <= key <==> NewestSomewhere(servers, group, today, key))
            && (floor.None? <==> NothingCounts(servers, group, today))
  {
    var floor := FloorKey(group, servers, today);
    FloorIsReached(group, servers, today);
    hide FloorKey, MaxCurrentKey, NoneNewer, Counts;
    if floor.Some? {
      var k :| 0 <= k < |servers| && MaxCurrentKey(group, servers[k], today) == floor;
      NewestMeans(servers[k], group, today, key);
      MaxIsNewest(group, servers[k], today);
    }
    if NewestSomewhere(servers, group, today, key) {
      var i :| 0 <= i < |servers| && NoneNewer(servers[i], group, today, key);
      NewestMeans(servers[i], group, today, key);
      FloorIsLowest(group, servers, today, i);
    }
    if floor.None? {
      forall i, other, k: nat | 0 <= i < |servers| && other in servers[i] ensures !Counts(group, other, today, k) {
        MaxIsNewest(group, servers[i], today);
        if Counts(group, other, today, k) {
          FloorIsLowest(group, servers, today, i);
        }
      }
    }
  }

  // ---- from a list to its groups -------------------------------------------------------------------------

  predicate IsCurrent(playedKey: Option<nat>, group: Group, servers: seq<seq<string>>, today: nat) {
    if playedKey.None? then true
    else if playedKey.value > today then false
    else
      var floor := FloorKey(group, servers, today);
      floor.None? || playedKey.value >= floor.value
  }

  predicate Feeds(name: string, group: Group, servers: seq<seq<string>>, today: nat) {
    group.enabled && MatchesGroup(name, group) && (!group.onlyCurrent || IsCurrent(KeyOf(name), group, servers, today))
  }

  function FedGroups(name: string, groups: seq<Group>, servers: seq<seq<string>>, today: nat): (r: seq<string>)
    ensures forall group :: group in groups && Feeds(name, group, servers, today) ==> group.name in r
    ensures forall n :: n in r ==> exists group :: group in groups && group.name == n && Feeds(name, group, servers, today)
  {
    if groups == [] then []
    else
      var before := FedGroups(name, groups[..|groups| - 1], servers, today);
      var last := groups[|groups| - 1];
      assert groups == groups[..|groups| - 1] + [last];
      if Feeds(name, last, servers, today) then before + [last.name] else before
  }

  function ResolveGroupsFor(name: string, groups: seq<Group>, servers: seq<seq<string>>, today: Date): seq<string> {
    if name == "" || name in NON_GROUPABLE_NAMES then [] else FedGroups(name, groups, servers, DateKey(today))
  }

  // ---- from a group to its lists --------------------------------------------------------------------------

  function Flat(servers: seq<seq<string>>): seq<string> {
    if servers == [] then [] else servers[0] + Flat(servers[1..])
  }

  function Matching(names: seq<string>, group: Group): seq<string> {
    if names == [] then []
    else Matching(names[..|names| - 1], group) + (if MatchesGroup(names[|names| - 1], group) then [names[|names| - 1]] else [])
  }

  predicate ListIsCurrent(name: string, floor: Option<nat>, today: nat) {
    if name in NON_GROUPABLE_NAMES then false
    else
      var key := KeyOf(name);
      key.None? || (floor.Some? && floor.value <= key.value <= today)
  }

  function Current(names: seq<string>, floor: Option<nat>, today: nat): seq<string> {
    if names == [] then []
    else Current(names[..|names| - 1], floor, today)
         + (if ListIsCurrent(names[|names| - 1], floor, today) then [names[|names| - 1]] else [])
  }

  datatype Lists = Lists(matched: seq<string>, current: seq<string>)

  function CurrentListsFor(group: Group, servers: seq<seq<string>>, today: Date): Lists {
    var matched := Matching(Dedup(Flat(servers)), group);
    Lists(matched, Current(matched, FloorKey(group, servers, DateKey(today)), DateKey(today)))
  }

  // ---- membership ----------------------------------------------------------------------------------------------

  ghost predicate Loaded(name: string, servers: seq<seq<string>>) {
    exists k :: 0 <= k < |servers| && name in servers[k]
  }

  lemma {:induction false} FlatIn(servers: seq<seq<string>>, name: string)
    ensures name in Flat(servers) <==> Loaded(name, servers)
  {
    if servers != [] {
      FlatIn(servers[1..], name);
      if name in servers[0] {
        assert Loaded(name, servers);
      }
      if Loaded(name, servers[1..]) {
        var k :| 0 <= k < |servers[1..]| && name in servers[1..][k];
        assert name in servers[k + 1];
      }
    }
  }

  lemma {:induction false} MatchingIn(names: seq<string>, group: Group, name: string)
    ensures name in Matching(names, group) <==> name in names && MatchesGroup(name, group)
  {
    if names != [] {
      assert names == names[..|names| - 1] + [names[|names| - 1]];
      hide MatchesGroup;
      MatchingIn(names[..|names| - 1], group, name);
    }
  }

  lemma {:induction false} CurrentIn(names: seq<string>, floor: Option<nat>, today: nat, name: string)
    ensures name in Current(names, floor, today) <==> name in names && ListIsCurrent(name, floor, today)
  {
    if names != [] {
      assert names == names[..|names| - 1] + [names[|names| - 1]];
      hide ListIsCurrent;
      CurrentIn(names[..|names| - 1], floor, today, name);
    }
  }

  lemma ListsAre(group: Group, servers: seq<seq<string>>, today: Date, name: string)
    ensures var lists := CurrentListsFor(group, servers, today);
            && (name in lists.matched <==> Loaded(name, servers) && MatchesGroup(name, group))
            && (name in lists.current <==>
                  && Loaded(name, servers) && MatchesGroup(name, group)
                  && ListIsCurrent(name, FloorKey(group, servers, DateKey(today)), DateKey(today)))
  {
    var matched := Matching(Dedup(Flat(servers)), group);
    FlatIn(servers, name);
    MatchingIn(Dedup(Flat(servers)), group, name);
    CurrentIn(matched, FloorKey(group, servers, DateKey(today)), DateKey(today), name);
    hide MatchesGroup, ListIsCurrent, FloorKey, Loaded;
  }

  /** Undated, or dated and not after today and no older than all that counts on some server. */
  ghost predicate CurrentNow(name: string, group: Group, servers: seq<seq<string>>, today: nat) {
    KeyOf(name).None? || (KeyOf(name).value <= today && NewestSomewhere(servers, group, today, KeyOf(name).value))
  }

  /** A list is current for a group if and only if it is loaded, matches, is groupable and current now. */
  lemma CurrentMeans(group: Group, servers: seq<seq<string>>, today: Date, name: string)
    ensures name in CurrentListsFor(group, servers, today).current <==>
              && Loaded(name, servers) && MatchesGroup(name, group) && name != "N/A" && name != "Global"
              && CurrentNow(name, group, servers, DateKey(today))
  {
    ListsAre(group, servers, today, name);
    hide FloorKey, Loaded, MatchesGroup, KeyOf, CurrentListsFor, NewestSomewhere, DateKey;
    if KeyOf(name).Some? {
      FloorMeans(servers, group, DateKey(today), KeyOf(name).value);
    }
  }

  /** A name feeds a current-only group in the same cases, and also when nothing counts on any server. */
  lemma ResolvesMeans(name: string, groups: seq<Group>, servers: seq<seq<string>>, today: Date, n: string)
    ensures n in ResolveGroupsFor(name, groups, servers, today) <==>
              && name != "" && name != "N/A" && name != "Global"
              && exists group :: group in groups && group.name == n && group.enabled && MatchesGroup(name, group)
                   && (group.onlyCurrent ==>
                         || CurrentNow(name, group, servers, DateKey(today))
                         || (KeyOf(name).value <= DateKey(today) && NothingCounts(servers, group, DateKey(today))))
  {
    var now := DateKey(today);
    hide FloorKey, MatchesGroup, KeyOf, DateKey, NewestSomewhere, NothingCounts;
    forall group: Group
      ensures Feeds(name, group, servers, now) <==>
                && group.enabled && MatchesGroup(name, group)
                && (group.onlyCurrent ==>
                      || CurrentNow(name, group, servers, now)
                      || (KeyOf(name).value <= now && NothingCounts(servers, group, now)))
    {
      if KeyOf(name).Some? {
        FloorMeans(servers, group, now, KeyOf(name).value);
      }
    }
    hide Feeds, CurrentNow;
    assert forall k :: k in FedGroups(name, groups, servers, now) <==>
                         exists group :: group in groups && group.name == k && Feeds(name, group, servers, now);
  }

  // ---- the two computations ---------------------------------------------------------------------------------------

  /** A loaded, matching list that is not after today makes its server count, so there is a floor. */
  lemma LoadedSetsFloor(name: string, group: Group, servers: seq<seq<string>>, today: nat, key: nat)
    requires Loaded(name, servers) && Counts(group, name, today, key)
    ensures FloorKey(group, servers, today).Some?
  {
    var k :| 0 <= k < |servers| && name in servers[k];
    MaxIsNewest(group, servers[k], today);
    hide *;
    assert MaxCurrentKey(group, servers[k], today).Some?;
    FloorIsLowest(group, servers, today, k);
  }

  lemma SameCurrency(name: string, group: Group, servers: seq<seq<string>>, today: nat)
    requires Loaded(name, servers) && MatchesGroup(name, group) && name !in NON_GROUPABLE_NAMES
    ensures ListIsCurrent(name, FloorKey(group, servers, today), today) <==> IsCurrent(KeyOf(name), group, servers, today)
  {
    var key := KeyOf(name);
    if key.Some? && key.value <= today {
      LoadedSetsFloor(name, group, servers, today, key.value);
    }
    hide FloorKey, KeyOf, MatchesGroup;
  }

  /** Another group of the same name takes the list. */
  ghost predicate FedByNamesake(name: string, group: Group, groups: seq<Group>, servers: seq<seq<string>>, today: nat) {
    exists other :: other in groups && other != group && other.name == group.name && Feeds(name, other, servers, today)
  }

  /**
    A loaded name is listed as feeding an enabled current-only group exactly when playing it feeds that
    group; its name alone could also come from another group that bears it.
   */
  lemma CurrencyAgrees(name: string, group: Group, groups: seq<Group>, servers: seq<seq<string>>, today: Date)
    requires name != "" && Loaded(name, servers) && group in groups && group.enabled && group.onlyCurrent
    ensures group.name in ResolveGroupsFor(name, groups, servers, today) <==>
              || name in CurrentListsFor(group, servers, today).current
              || (name !in NON_GROUPABLE_NAMES && FedByNamesake(name, group, groups, servers, DateKey(today)))
  {
    ListsAre(group, servers, today, name);
    if MatchesGroup(name, group) && name !in NON_GROUPABLE_NAMES {
      SameCurrency(name, group, servers, DateKey(today));
    }
    hide MatchesGroup, IsCurrent, FloorKey, KeyOf, DateKey, CurrentListsFor, Loaded;
  }

  /**
    Whatever newer lists other servers loaded, every server's newest matching list not after today feeds
    the group.
   */
  lemma NewestStaysCurrent(name: string, group: Group, servers: seq<seq<string>>, k: nat, today: Date)
    requires k < |servers| && name in servers[k] && MatchesGroup(name, group) && name !in NON_GROUPABLE_NAMES
    requires KeyOf(name).Some? && KeyOf(name).value <= DateKey(today)
    requires forall other, key: nat :: other in servers[k] && Counts(group, other, DateKey(today), key) ==> key <= KeyOf(name).value
    ensures name in CurrentListsFor(group, servers, today).current
  {
    var key, now := KeyOf(name).value, DateKey(today);
    ListsAre(group, servers, today, name);
    MaxIsNewest(group, servers[k], now);
    assert Counts(group, name, now, key) && Loaded(name, servers);
    assert ListIsCurrent(name, Some(key), now);
    var newest := MaxCurrentKey(group, servers[k], now);
    hide MaxCurrentKey, FloorKey, KeyOf, MatchesGroup, Counts, Loaded, CurrentListsFor;
    assert newest.Some? && newest.value <= key;
    FloorIsLowest(group, servers, now, k);
  }

  /** With a key above today's a list is left out; with no key it is in, unless its name is no list. */
  lemma FutureAndUndated(name: string, group: Group, servers: seq<seq<string>>, today: Date)
    requires Loaded(name, servers) && MatchesGroup(name, group)
    ensures KeyOf(name).Some? && KeyOf(name).value > DateKey(today) ==> name !in CurrentListsFor(group, servers, today).current
    ensures KeyOf(name).None? ==>
              (name in CurrentListsFor(group, servers, today).current <==> name !in NON_GROUPABLE_NAMES)
  {
    ListsAre(group, servers, today, name);
    hide MatchesGroup, FloorKey, KeyOf, CurrentListsFor;
  }
}
