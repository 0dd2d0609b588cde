/** Participants, matches, and the list vocabulary the pool is specified with. */
module Participants {
  import opened Options
  import opened QueueEntry

  /** `channel` names the participant's connection; what is sent on it is recorded in the pool's trace. */
  datatype Participant = Participant(
    id: string,
    userId: string,
    format: Format,
    mode: Mode,
    displayName: Option<string>,
    enqueuedAt: int,
    botFallbackAfterMs: Option<int>,
    supportsAcceptStep: bool,
    presence: Presence,
    channel: nat)
  {
    function Key(): PoolKey { PoolKey(format, mode) }
  }

  datatype Match = Match(
    id: nat,
    format: Format,
    mode: Mode,
    rated: bool,
    opponentKind: Opponent,
    participants: seq<Participant>)

  /** Human opponents, at least one of whom supports the accept step: only then are answers awaited. */
  predicate RequiresAcceptStep(m: Match) {
    m.opponentKind.Human? && exists p :: p in m.participants && p.supportsAcceptStep
  }

  // ---- lists of participants -------------------------------------------------

  function Ids(ps: seq<Participant>): set<string> {
    set p | p in ps :: p.id
  }

  function Keep(ps: seq<Participant>, ids: set<string>): seq<Participant>
  {
    if ps == [] then [] else (if ps[0].id in ids then [ps[0]] else []) + Keep(ps[1..], ids)
  }

  function Drop(ps: seq<Participant>, ids: set<string>): seq<Participant>
  {
    if ps == [] then [] else (if ps[0].id in ids then [] else [ps[0]]) + Drop(ps[1..], ids)
  }

  function Listed(ps: seq<Participant>, key: PoolKey): seq<Participant>
  {
    if ps == [] then [] else (if ps[0].Key() == key then [ps[0]] else []) + Listed(ps[1..], key)
  }

  lemma EveryKeyIsWalked(key: PoolKey)
    ensures key == POOL_KEYS[0] || key == POOL_KEYS[1] || key == POOL_KEYS[2]
  {
    match key.format { case Tcg => case Jtp => case Edison => }
    assert key.mode == Ranked;
  }

  /** Everyone, in the order the pool walks its keys. */
  function ByKey(ps: seq<Participant>): seq<Participant>
  {
    Listed(ps, POOL_KEYS[0]) + Listed(ps, POOL_KEYS[1]) + Listed(ps, POOL_KEYS[2])
  }

  function FindById(ps: seq<Participant>, id: string): (r: Option<Participant>)
    ensures r.Some? ==> r.value in ps && r.value.id == id
    ensures r.None? ==> forall p :: p in ps ==> p.id != id
  {
    if ps == [] then None else if ps[0].id == id then Some(ps[0]) else FindById(ps[1..], id)
  }

  function FindByUser(ps: seq<Participant>, userId: string): (r: Option<Participant>)
    ensures r.Some? ==> r.value in ps && r.value.userId == userId
    ensures r.None? ==> forall p :: p in ps ==> p.userId != userId
  {
    if ps == [] then None else if ps[0].userId == userId then Some(ps[0]) else FindByUser(ps[1..], userId)
  }

  // ---- identity ---------------------------------------------------------------

  /** Two participants that may be in the queue at the same time. */
  predicate Apart(p: Participant, q: Participant) {
    p.id != q.id && p.userId != q.userId && p.channel != q.channel
  }

  /** One place per participant, and so one per user, id and channel. */
  ghost predicate Unique(places: multiset<Participant>) {
    && (forall p :: p in places ==> places[p] == 1)
    && (forall p, q :: p in places && q in places && p != q ==> Apart(p, q))
  }

  lemma SubUnique(small: multiset<Participant>, big: multiset<Participant>)
    requires small <= big && Unique(big)
    ensures Unique(small)
  {
    forall p | p in small ensures small[p] == 1 {
      assert small[p] <= big[p];
      assert p in big;
    }
  }

  lemma TwoOccurrences<T>(xs: seq<T>, i: nat, j: nat)
    requires i < j < |xs| && xs[i] == xs[j]
    ensures multiset(xs)[xs[i]] >= 2
  {
    assert xs == xs[..j] + xs[j..];
    assert xs[i] in xs[..j] && xs[i] in xs[j..];
    assert xs[i] in multiset(xs[..j]) && xs[i] in multiset(xs[j..]);
  }

  lemma OneOccurrence(ps: seq<Participant>, i: nat, j: nat)
    requires i < j < |ps| && Unique(multiset(ps))
    ensures ps[i] != ps[j] && Apart(ps[i], ps[j])
  {
    assert ps[i] in multiset(ps) && ps[j] in multiset(ps);
    if ps[i] == ps[j] {
      TwoOccurrences(ps, i, j);
    }
  }

  // ---- how the list functions split and join -------------------------------------

  lemma {:induction false} KeepIn(ps: seq<Participant>, ids: set<string>)
    ensures forall p :: p in Keep(ps, ids) <==> p in ps && p.id in ids
  {
    if ps != [] {
      KeepIn(ps[1..], ids);
    }
  }

  lemma {:induction false} DropIn(ps: seq<Participant>, ids: set<string>)
    ensures forall p :: p in Drop(ps, ids) <==> p in ps && p.id !in ids
  {
    if ps != [] {
      DropIn(ps[1..], ids);
    }
  }

  lemma {:induction false} ListedIn(ps: seq<Participant>, key: PoolKey)
    ensures forall p :: p in Listed(ps, key) <==> p in ps && p.Key() == key
  {
    if ps != [] {
      ListedIn(ps[1..], key);
    }
  }

  lemma {:induction false} KeepDropSplit(ps: seq<Participant>, ids: set<string>)
    ensures multiset(Keep(ps, ids)) + multiset(Drop(ps, ids)) == multiset(ps)
  {
    if ps != [] {
      assert ps == [ps[0]] + ps[1..];
      KeepDropSplit(ps[1..], ids);
    }
  }

  lemma {:induction false} KeepAppend(ps: seq<Participant>, qs: seq<Participant>, ids: set<string>)
    ensures Keep(ps + qs, ids) == Keep(ps, ids) + Keep(qs, ids)
  {
    if ps == [] {
      assert ps + qs == qs;
    } else {
      assert (ps + qs)[0] == ps[0] && (ps + qs)[1..] == ps[1..] + qs;
      KeepAppend(ps[1..], qs, ids);
    }
  }

  lemma {:induction false} DropAppend(ps: seq<Participant>, qs: seq<Participant>, ids: set<string>)
    ensures Drop(ps + qs, ids) == Drop(ps, ids) + Drop(qs, ids)
  {
    if ps == [] {
      assert ps + qs == qs;
    } else {
      assert (ps + qs)[1..] == ps[1..] + qs;
      DropAppend(ps[1..], qs, ids);
    }
  }

  lemma {:induction false} ListedAppend(ps: seq<Participant>, qs: seq<Participant>, key: PoolKey)
    ensures Listed(ps + qs, key) == Listed(ps, key) + Listed(qs, key)
  {
    if ps == [] {
      assert ps + qs == qs;
    } else {
      assert (ps + qs)[1..] == ps[1..] + qs;
      ListedAppend(ps[1..], qs, key);
    }
  }

  lemma {:induction false} DropAll(ps: seq<Participant>, ids: set<string>)
    ensures (forall p :: p in ps ==> p.id !in ids) ==> Drop(ps, ids) == ps && Keep(ps, ids) == []
    ensures (forall p :: p in ps ==> p.id in ids) ==> Drop(ps, ids) == [] && Keep(ps, ids) == ps
  {
    if ps != [] {
      assert ps[0] in ps;
      assert forall p :: p in ps[1..] ==> p in ps;
      assert ps == [ps[0]] + ps[1..];
      DropAll(ps[1..], ids);
    }
  }

  lemma {:induction false} DropTwice(ps: seq<Participant>, a: set<string>, b: set<string>)
    ensures Drop(Drop(ps, a), b) == Drop(ps, a + b)
  {
    if ps != [] {
      DropTwice(ps[1..], a, b);
      DropAppend(if ps[0].id in a then [] else [ps[0]], Drop(ps[1..], a), b);
      assert Drop([], b) == [];
      assert [ps[0]][1..] == [];
    }
  }

  lemma {:induction false} ListedDrop(ps: seq<Participant>, ids: set<string>, key: PoolKey)
    ensures Listed(Drop(ps, ids), key) == Drop(Listed(ps, key), ids)
  {
    if ps != [] {
      ListedDrop(ps[1..], ids, key);
      var head := if ps[0].id in ids then [] else [ps[0]];
      ListedAppend(head, Drop(ps[1..], ids), key);
      var listed := if ps[0].Key() == key then [ps[0]] else [];
      DropAppend(listed, Listed(ps[1..], key), ids);
      assert [ps[0]][1..] == [];
    }
  }

  lemma {:induction false} ListedIsPart(ps: seq<Participant>, key: PoolKey)
    ensures multiset(Listed(ps, key)) <= multiset(ps)
  {
    if ps != [] {
      assert ps == [ps[0]] + ps[1..];
      ListedIsPart(ps[1..], key);
    }
  }

  lemma ByKeyIn(ps: seq<Participant>)
    ensures forall p :: p in ByKey(ps) <==> p in ps
  {
    ByKeyIsPermutation(ps);
    forall p ensures p in ByKey(ps) <==> p in ps {
      assert p in multiset(ByKey(ps)) <==> p in multiset(ps);
    }
  }

  /** Walking the keys visits everyone exactly once. */
  lemma {:induction false} ByKeyIsPermutation(ps: seq<Participant>)
    ensures multiset(ByKey(ps)) == multiset(ps)
  {
    if ps != [] {
      assert ps == [ps[0]] + ps[1..];
      ByKeyIsPermutation(ps[1..]);
      EveryKeyIsWalked(ps[0].Key());
    }
  }

  /** Selecting by id from a list without repeats selects exactly the participants named. */
  lemma KeepSelects(ps: seq<Participant>, some: seq<Participant>)
    requires Unique(multiset(ps)) && multiset(some) <= multiset(ps)
    ensures multiset(Keep(ps, Ids(some))) == multiset(some)
    ensures multiset(Drop(ps, Ids(some))) == multiset(ps) - multiset(some)
  {
    KeepDropSplit(ps, Ids(some));
    KeepUnique(ps, Ids(some));
    SubUnique(multiset(some), multiset(ps));
    KeepMembers(ps, some);
    SameMembers(multiset(Keep(ps, Ids(some))), multiset(some));
  }

  lemma KeepUnique(ps: seq<Participant>, ids: set<string>)
    requires Unique(multiset(ps))
    ensures Unique(multiset(Keep(ps, ids))) && Unique(multiset(Drop(ps, ids)))
  {
    KeepDropSplit(ps, ids);
    SubUnique(multiset(Keep(ps, ids)), multiset(ps));
    SubUnique(multiset(Drop(ps, ids)), multiset(ps));
  }

  lemma PartMembers(some: seq<Participant>, ps: seq<Participant>)
    requires multiset(some) <= multiset(ps)
    ensures forall p :: p in some ==> p in ps
  {
    forall p | p in some ensures p in ps {
      assert p in multiset(some);
    }
  }

  lemma KeepMembers(ps: seq<Participant>, some: seq<Participant>)
    requires Unique(multiset(ps)) && multiset(some) <= multiset(ps)
    ensures forall p :: p in multiset(Keep(ps, Ids(some))) <==> p in multiset(some)
  {
    hide Keep, Unique;
    PartMembers(some, ps);
    KeepIn(ps, Ids(some));
    forall p | p in ps && p.id in Ids(some) ensures p in some {
      var q :| q in some && q.id == p.id;
      SameIdSame(ps, p, q);
    }
    forall p ensures p in multiset(Keep(ps, Ids(some))) <==> p in multiset(some) {
      assert p in multiset(Keep(ps, Ids(some))) <==> p in Keep(ps, Ids(some));
      assert p in some ==> p.id in Ids(some);
    }
  }

  lemma SameIdSame(ps: seq<Participant>, p: Participant, q: Participant)
    requires Unique(multiset(ps)) && p in ps && q in ps
    requires p.id == q.id || p.userId == q.userId || p.channel == q.channel
    ensures p == q
  {
    assert p in multiset(ps) && q in multiset(ps);
  }

  lemma KeepOne(ps: seq<Participant>, p: Participant)
    requires Unique(multiset(ps)) && p in ps
    ensures multiset(Keep(ps, {p.id})) == multiset{p}
  {
    hide *;
    JustOne(ps, p);
    KeepSelects(ps, [p]);
  }

  lemma JustOne(ps: seq<Participant>, p: Participant)
    requires p in ps
    ensures multiset([p]) == multiset{p} && multiset{p} <= multiset(ps)
    ensures Ids([p]) == {p.id}
  {
    assert p in multiset(ps);
  }

  lemma SameMembers(a: multiset<Participant>, b: multiset<Participant>)
    requires Unique(a) && Unique(b)
    requires forall p :: p in a <==> p in b
    ensures a == b
  {
    forall p ensures a[p] == b[p] {
      if p in a {
        assert p in b;
      }
    }
  }
}
