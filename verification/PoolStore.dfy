/**
  The pool's in-process store: participants by id, ids by user, and for each pool key its ids in the
  order they came. `Indexes` is the store's value; `InMemoryPoolStore` updates it in place.
 */
module PoolStore {
  import opened Options
  import opened QueueEntry
  import opened Participants

  datatype Indexes = Indexes(
    byId: map<string, Participant>,
    byUserId: map<string, string>,
    idsByPoolKey: map<PoolKey, seq<string>>)
  {
    function IdsAt(key: PoolKey): seq<string> {
      if key in idsByPoolKey then idsByPoolKey[key] else []
    }

    function Put(p: Participant): Indexes {
      var ids := IdsAt(p.Key());
      Indexes(
        byId[p.id := p],
        byUserId[p.userId := p.id],
        idsByPoolKey[p.Key() := if p.id in ids then ids else ids + [p.id]])
    }

    function Take(id: string): Indexes
      requires id in byId
    {
      var p := byId[id];
      Indexes(
        byId - {id},
        if p.userId in byUserId && byUserId[p.userId] == id then byUserId - {p.userId} else byUserId,
        if p.Key() in idsByPoolKey then idsByPoolKey[p.Key() := WithoutId(IdsAt(p.Key()), id)] else idsByPoolKey)
    }

    /** The participants a list of ids names; an id the first index lost is skipped. */
    function Resolve(ids: seq<string>): (r: seq<Participant>)
      ensures forall p :: p in r ==> exists id :: id in ids && id in byId && byId[id] == p
    {
      if ids == [] then [] else
        (if ids[0] in byId then [byId[ids[0]]] else []) + Resolve(ids[1..])
    }

    /** The user index names, for each user, the one participant that user has. */
    ghost predicate UsersAgree() {
      && (forall id :: id in byId ==>
            byId[id].id == id && byId[id].userId in byUserId && byUserId[byId[id].userId] == id)
      && (forall u :: u in byUserId ==> byUserId[u] in byId && byId[byUserId[u]].userId == u)
    }

    /** Each key lists exactly its participants, each once. */
    ghost predicate KeysAgree() {
      && (forall key: PoolKey, id :: id in IdsAt(key) <==> id in byId && byId[id].Key() == key)
      && (forall key: PoolKey :: NoRepeats(IdsAt(key)))
    }

    /** The three indexes describe the same set of participants. */
    ghost predicate Agree() {
      UsersAgree() && KeysAgree()
    }

    /** What an arrival must satisfy for the indexes to go on agreeing. */
    predicate Fits(p: Participant) {
      && (p.id in byId ==> byId[p.id].userId == p.userId && byId[p.id].Key() == p.Key())
      && (p.userId in byUserId ==> byUserId[p.userId] == p.id)
    }
  }

  ghost predicate NoRepeats(ids: seq<string>) {
    forall i, j :: 0 <= i < j < |ids| ==> ids[i] != ids[j]
  }

  function WithoutId(ids: seq<string>, id: string): (r: seq<string>)
    ensures forall x :: x in r <==> x in ids && x != id
  {
    if ids == [] then [] else
      (if ids[0] == id then [] else [ids[0]]) + WithoutId(ids[1..], id)
  }

  lemma {:induction false} WithoutIdNoRepeats(ids: seq<string>, id: string)
    requires NoRepeats(ids)
    ensures NoRepeats(WithoutId(ids, id))
  {
    if ids != [] {
      assert forall i, j :: 0 <= i < j < |ids[1..]| ==> ids[1..][i] == ids[i + 1] && ids[1..][j] == ids[j + 1];
      WithoutIdNoRepeats(ids[1..], id);
      var rest := WithoutId(ids[1..], id);
      assert ids[0] !in ids[1..];
      assert forall i :: 0 <= i < |rest| ==> rest[i] in rest;
    }
  }

  // ---- agreement of the indexes ---------------------------------------------------

  /** Adding keeps the indexes in agreement exactly when the arrival fits them. */
  lemma PutAgrees(ix: Indexes, p: Participant)
    requires ix.Agree()
    ensures ix.Put(p).Agree() <==> ix.Fits(p)
  {
    if ix.Fits(p) {
      PutKeepsUsers(ix, p);
      PutKeepsKeys(ix, p);
    } else {
      PutBreaks(ix, p);
    }
  }

  lemma PutKeepsUsers(ix: Indexes, p: Participant)
    requires ix.Agree() && ix.Fits(p)
    ensures ix.Put(p).UsersAgree()
  {
  }

  lemma PutKeepsKeys(ix: Indexes, p: Participant)
    requires ix.Agree() && ix.Fits(p)
    ensures ix.Put(p).KeysAgree()
  {
    var after := ix.Put(p);
    forall key: PoolKey
      ensures NoRepeats(after.IdsAt(key))
      ensures forall id :: id in after.IdsAt(key) <==> id in after.byId && after.byId[id].Key() == key
    {
      var before := ix.IdsAt(key);
      assert NoRepeats(before);
      assert after.IdsAt(key) == if key == p.Key() && p.id !in before then before + [p.id] else before;
    }
  }

  lemma PutBreaks(ix: Indexes, p: Participant)
    requires ix.Agree() && !ix.Fits(p)
    ensures !ix.Put(p).Agree()
  {
    var after := ix.Put(p);
    if p.id in ix.byId {
      var was := ix.byId[p.id];
      if was.userId != p.userId {
        assert was.userId in after.byUserId && after.byUserId[was.userId] == p.id;
      } else {
        assert was.Key() != p.Key();
        assert p.id in ix.IdsAt(was.Key());
        assert after.IdsAt(was.Key()) == ix.IdsAt(was.Key());
      }
    } else {
      var other := ix.byUserId[p.userId];
      assert other in after.byId && after.byId[other].userId == p.userId && other != p.id;
    }
  }

  /** Removing never breaks the agreement. */
  lemma TakeAgrees(ix: Indexes, id: string)
    requires ix.Agree() && id in ix.byId
    ensures ix.Take(id).Agree()
  {
    TakeKeepsUsers(ix, id);
    TakeKeepsKeys(ix, id);
  }

  lemma TakeKeepsUsers(ix: Indexes, id: string)
    requires ix.Agree() && id in ix.byId
    ensures ix.Take(id).UsersAgree()
  {
  }

  lemma TakeKeepsKeys(ix: Indexes, id: string)
    requires ix.Agree() && id in ix.byId
    ensures ix.Take(id).KeysAgree()
  {
    var p, after := ix.byId[id], ix.Take(id);
    forall key: PoolKey
      ensures NoRepeats(after.IdsAt(key))
      ensures forall x :: x in after.IdsAt(key) <==> x in after.byId && after.byId[x].Key() == key
    {
      assert NoRepeats(ix.IdsAt(key));
      WithoutIdNoRepeats(ix.IdsAt(key), id);
      if key != p.Key() {
        NothingToRemove(ix.IdsAt(key), id);
      }
      assert after.IdsAt(key) == WithoutId(ix.IdsAt(key), id);
    }
  }

  lemma {:induction false} NothingToRemove(ids: seq<string>, id: string)
    requires id !in ids
    ensures WithoutId(ids, id) == ids
  {
    if ids != [] {
      NothingToRemove(ids[1..], id);
    }
  }

  /** The depth of a key is the number of participants listed under it, and those are all of them. */
  lemma {:induction false} DepthIsListing(ix: Indexes, key: PoolKey)
    requires ix.Agree()
    ensures |ix.Resolve(ix.IdsAt(key))| == |ix.IdsAt(key)|
    ensures forall p :: p in ix.Resolve(ix.IdsAt(key)) <==> p in ix.byId.Values && p.Key() == key
  {
    AllResolve(ix, ix.IdsAt(key));
    forall p | p in ix.byId.Values && p.Key() == key ensures p in ix.Resolve(ix.IdsAt(key)) {
      var id :| id in ix.byId && ix.byId[id] == p;
      assert id in ix.IdsAt(key);
    }
  }

  lemma {:induction false} AllResolve(ix: Indexes, ids: seq<string>)
    requires forall id :: id in ids ==> id in ix.byId
    ensures |ix.Resolve(ids)| == |ids|
    ensures forall i :: 0 <= i < |ids| ==> ix.Resolve(ids)[i] == ix.byId[ids[i]]
  {
    if ids != [] {
      AllResolve(ix, ids[1..]);
    }
  }

  // ---- the indexes as a representation of one list, oldest arrival first ---------------

  function IdList(ps: seq<Participant>): seq<string> {
    seq(|ps|, i requires 0 <= i < |ps| => ps[i].id)
  }

  ghost predicate MapsOf(ix: Indexes, waiting: seq<Participant>) {
    && (forall p :: p in waiting ==> p.id in ix.byId && ix.byId[p.id] == p)
    && (forall p :: p in waiting ==> p.userId in ix.byUserId && ix.byUserId[p.userId] == p.id)
    && (forall id :: id in ix.byId ==> ix.byId[id] in waiting && ix.byId[id].id == id)
    && (forall u :: u in ix.byUserId ==> ix.byUserId[u] in ix.byId && ix.byId[ix.byUserId[u]].userId == u)
  }

  ghost predicate Represents(ix: Indexes, waiting: seq<Participant>) {
    && MapsOf(ix, waiting)
    && (forall key: PoolKey :: ix.IdsAt(key) == IdList(Listed(waiting, key)))
  }

  lemma RepresentsEmpty()
    ensures Represents(Indexes(map[], map[], map[]), [])
  {
  }

  lemma RepresentsFind(ix: Indexes, waiting: seq<Participant>, id: string, userId: string)
    requires Represents(ix, waiting)
    ensures FindById(waiting, id) == if id in ix.byId then Some(ix.byId[id]) else None
    ensures FindByUser(waiting, userId) ==
            if userId in ix.byUserId && ix.byUserId[userId] in ix.byId
            then Some(ix.byId[ix.byUserId[userId]]) else None
  {
  }

  lemma RepresentsListing(ix: Indexes, waiting: seq<Participant>, key: PoolKey)
    requires Represents(ix, waiting)
    ensures ix.Resolve(ix.IdsAt(key)) == Listed(waiting, key)
  {
    var listed := Listed(waiting, key);
    ListedIn(waiting, key);
    assert forall i :: 0 <= i < |listed| ==> listed[i] in listed && IdList(listed)[i] == listed[i].id;
    AllResolve(ix, ix.IdsAt(key));
  }

  lemma RepresentsPut(ix: Indexes, waiting: seq<Participant>, p: Participant)
    requires Represents(ix, waiting) && Unique(multiset(waiting + [p]))
    ensures Represents(ix.Put(p), waiting + [p])
  {
    NewcomerApart(waiting, p);
    PutMaps(ix, waiting, p);
    forall key: PoolKey ensures ix.Put(p).IdsAt(key) == IdList(Listed(waiting + [p], key)) {
      PutListing(ix, waiting, p, key);
    }
  }

  lemma PutMaps(ix: Indexes, waiting: seq<Participant>, p: Participant)
    requires MapsOf(ix, waiting)
    requires forall q :: q in waiting ==> Apart(p, q)
    ensures MapsOf(ix.Put(p), waiting + [p])
  {
    assert forall q :: q in waiting + [p] <==> q in waiting || q == p;
  }

  lemma PutListing(ix: Indexes, waiting: seq<Participant>, p: Participant, key: PoolKey)
    requires ix.IdsAt(key) == IdList(Listed(waiting, key))
    requires forall q :: q in waiting ==> q.id != p.id
    ensures ix.Put(p).IdsAt(key) == IdList(Listed(waiting + [p], key))
  {
    ListedAppend(waiting, [p], key);
    assert [p][1..] == [];
    assert Listed([p], key) == if p.Key() == key then [p] else [];
    var listed := Listed(waiting, key);
    ListedIn(waiting, key);
    NotInIdList(listed, p.id);
    assert IdList(listed + [p]) == IdList(listed) + [p.id];
  }

  lemma NewcomerApart(waiting: seq<Participant>, p: Participant)
    requires Unique(multiset(waiting + [p]))
    ensures forall q :: q in waiting ==> Apart(p, q)
  {
    forall q | q in waiting ensures Apart(p, q) {
      var i :| 0 <= i < |waiting| && waiting[i] == q;
      var more := waiting + [p];
      assert more[i] == q && more[|waiting|] == p;
      OneOccurrence(more, i, |waiting|);
    }
  }

  lemma RepresentsTake(ix: Indexes, waiting: seq<Participant>, p: Participant)
    requires Represents(ix, waiting) && Unique(multiset(waiting)) && p in waiting
    ensures Represents(ix.Take(p.id), Drop(waiting, {p.id}))
  {
    OthersApart(waiting, p);
    DropIn(waiting, {p.id});
    TakeMaps(ix, waiting, Drop(waiting, {p.id}), p);
    forall key: PoolKey ensures ix.Take(p.id).IdsAt(key) == IdList(Listed(Drop(waiting, {p.id}), key)) {
      TakeListing(ix, waiting, p, key);
    }
  }

  lemma OthersApart(ps: seq<Participant>, p: Participant)
    requires Unique(multiset(ps)) && p in ps
    ensures forall q :: q in ps && q != p ==> Apart(p, q)
  {
    forall q | q in ps && q != p ensures Apart(p, q) {
      assert q in multiset(ps) && p in multiset(ps);
    }
  }

  lemma TakeMaps(ix: Indexes, waiting: seq<Participant>, less: seq<Participant>, p: Participant)
    requires MapsOf(ix, waiting) && p in waiting
    requires forall q :: q in waiting && q != p ==> Apart(p, q)
    requires forall q :: q in less <==> q in waiting && q != p
    ensures MapsOf(ix.Take(p.id), less)
  {
    assert ix.byId[p.id] == p && ix.byUserId[p.userId] == p.id;
  }

  lemma TakeListing(ix: Indexes, waiting: seq<Participant>, p: Participant, key: PoolKey)
    requires p.id in ix.byId && ix.byId[p.id] == p
    requires forall q :: q in waiting && q != p ==> q.id != p.id
    requires ix.IdsAt(key) == IdList(Listed(waiting, key))
    ensures ix.Take(p.id).IdsAt(key) == IdList(Listed(Drop(waiting, {p.id}), key))
  {
    ListedDrop(waiting, {p.id}, key);
    DropFromIdList(Listed(waiting, key), p.id);
    if key != p.Key() {
      ListedIn(waiting, key);
      NotInIdList(Listed(waiting, key), p.id);
      NothingToRemove(ix.IdsAt(key), p.id);
    }
  }

  lemma NotInIdList(ps: seq<Participant>, id: string)
    requires forall q :: q in ps ==> q.id != id
    ensures id !in IdList(ps)
  {
    forall i | 0 <= i < |ps| ensures IdList(ps)[i] != id {
      assert ps[i] in ps;
    }
  }

  lemma {:induction false} DropFromIdList(ps: seq<Participant>, id: string)
    ensures WithoutId(IdList(ps), id) == IdList(Drop(ps, {id}))
  {
    if ps != [] {
      DropFromIdList(ps[1..], id);
      assert IdList(ps)[1..] == IdList(ps[1..]);
      assert IdList(ps)[0] == ps[0].id;
    }
  }

  /** Indexes that represent a list of participants pairwise apart are in agreement. */
  lemma RepresentsAgrees(ix: Indexes, waiting: seq<Participant>)
    requires Represents(ix, waiting) && Unique(multiset(waiting))
    ensures ix.Agree()
  {
    forall key: PoolKey
      ensures NoRepeats(ix.IdsAt(key))
      ensures forall id :: id in ix.IdsAt(key) <==> id in ix.byId && ix.byId[id].Key() == key
    {
      ListedIn(waiting, key);
      IdListIsListing(ix, waiting, Listed(waiting, key), key);
      ListedIsPart(waiting, key);
      SubUnique(multiset(Listed(waiting, key)), multiset(waiting));
      IdListNoRepeats(Listed(waiting, key));
    }
  }

  lemma IdListIsListing(ix: Indexes, waiting: seq<Participant>, listed: seq<Participant>, key: PoolKey)
    requires MapsOf(ix, waiting) && forall p :: p in listed <==> p in waiting && p.Key() == key
    ensures forall id :: id in IdList(listed) <==> id in ix.byId && ix.byId[id].Key() == key
  {
    forall id | id in IdList(listed) ensures id in ix.byId && ix.byId[id].Key() == key {
      var i :| 0 <= i < |listed| && listed[i].id == id;
      assert listed[i] in listed;
    }
    forall id | id in ix.byId && ix.byId[id].Key() == key ensures id in IdList(listed) {
      var i :| 0 <= i < |listed| && listed[i] == ix.byId[id];
      assert IdList(listed)[i] == id;
    }
  }

  lemma IdListNoRepeats(ps: seq<Participant>)
    requires Unique(multiset(ps))
    ensures NoRepeats(IdList(ps))
  {
    forall i, j | 0 <= i < j < |ps| ensures IdList(ps)[i] != IdList(ps)[j] {
      OneOccurrence(ps, i, j);
    }
  }

  // ---- the store itself --------------------------------------------------------------

  class InMemoryPoolStore {
    var byId: map<string, Participant>
    var byUserId: map<string, string>
    var idsByPoolKey: map<PoolKey, seq<string>>

    ghost function Value(): Indexes
      reads this
    {
      Indexes(byId, byUserId, idsByPoolKey)
    }

    constructor ()
      ensures Value() == Indexes(map[], map[], map[])
    {
      byId, byUserId, idsByPoolKey := map[], map[], map[];
    }

    method Add(p: Participant)
      modifies this
      ensures Value() == old(Value()).Put(p)
    {
      byId := byId[p.id := p];
      byUserId := byUserId[p.userId := p.id];
      var key := p.Key();
      var ids := if key in idsByPoolKey then idsByPoolKey[key] else [];
      if p.id !in ids {
        ids := ids + [p.id];
      }
      idsByPoolKey := idsByPoolKey[key := ids];
    }

    method Get(id: string) returns (r: Option<Participant>)
      ensures r == if id in byId then Some(byId[id]) else None
    {
      r := if id in byId then Some(byId[id]) else None;
    }

    method FindByUserId(userId: string) returns (r: Option<Participant>)
      ensures r == if userId in byUserId && byUserId[userId] in byId then Some(byId[byUserId[userId]]) else None
    {
      if userId !in byUserId {
        return None;
      }
      r := Get(byUserId[userId]);
    }

    method Remove(id: string) returns (removed: bool)
      modifies this
      ensures removed == (id in old(byId))
      ensures Value() == if removed then old(Value()).Take(id) else old(Value())
    {
      if id !in byId {
        return false;
      }
      var p := byId[id];
      byId := byId - {id};
      // The user's entry may lead to another id by now, and then it stays.
      if p.userId in byUserId && byUserId[p.userId] == id {
        byUserId := byUserId - {p.userId};
      }
      if p.Key() in idsByPoolKey {
        idsByPoolKey := idsByPoolKey[p.Key() := WithoutId(idsByPoolKey[p.Key()], id)];
      }
      removed := true;
    }

    method All(key: PoolKey) returns (r: seq<Participant>)
      ensures r == Value().Resolve(Value().IdsAt(key))
    {
      if key !in idsByPoolKey {
        return [];
      }
      var ids := idsByPoolKey[key];
      r := [];
      for i := 0 to |ids|
        invariant r + Value().Resolve(ids[i..]) == Value().Resolve(ids)
      {
        assert ids[i..][1..] == ids[i + 1..];
        if ids[i] in byId {
          r := r + [byId[ids[i]]];
        }
      }
    }

    method Depth(key: PoolKey) returns (n: nat)
      ensures n == |Value().IdsAt(key)|
    {
      n := if key in idsByPoolKey then |idsByPoolKey[key]| else 0;
    }
  }
}
