/**
  The queue store the matcher calls (storage/redis.go), as an abstract in-memory
  state: the queue of entries ordered by rating, the players keyed by
  identifier, the saved matches keyed by player identifier, and a log of the
  match writes and queue removals made.
*/
module Store {
  import opened Wrappers
  import opened Models

  datatype StoreError = NotFound | Unavailable

  /** A write the matcher makes to the store. */
  datatype StoreOp = Save(m: Match) | Remove(id: string)

  datatype StoreState = StoreState(
    queue: seq<Player>,
    players: map<string, Player>,
    matches: map<string, Match>)

  predicate SortedByRating(q: seq<Player>) {
    forall a, b :: 0 <= a < b < |q| ==> q[a].rating <= q[b].rating
  }

  /** Every player record is stored under its own identifier. */
  predicate KeyedById(players: map<string, Player>) {
    forall id :: id in players ==> players[id].id == id
  }

  predicate WellFormed(s: StoreState) {
    SortedByRating(s.queue) && KeyedById(s.players)
  }

  /** The queue entries of one region and game mode, in queue order. */
  function Partition(q: seq<Player>, region: string, gameMode: string): (r: seq<Player>)
    ensures forall p :: p in r <==> p in q && p.region == region && p.gameMode == gameMode
    ensures SortedByRating(q) ==> SortedByRating(r)
  {
    if q == [] then []
    else if q[0].region == region && q[0].gameMode == gameMode then [q[0]] + Partition(q[1..], region, gameMode)
    else Partition(q[1..], region, gameMode)
  }

  /** The entries of `q` rated within `[minRating, maxRating]`, in queue order. */
  function RatedWithin(q: seq<Player>, minRating: int, maxRating: int): (r: seq<Player>)
    ensures forall p :: p in r <==> p in q && minRating <= p.rating <= maxRating
    ensures SortedByRating(q) ==> SortedByRating(r)
  {
    if q == [] then []
    else if minRating <= q[0].rating <= maxRating then [q[0]] + RatedWithin(q[1..], minRating, maxRating)
    else RatedWithin(q[1..], minRating, maxRating)
  }

  /**
    What a range query returns: at most `limit` entries of the partition rated
    within the inclusive range, lowest rating first.
  */
  function RangeQuery(q: seq<Player>, region: string, gameMode: string,
                      minRating: int, maxRating: int, limit: nat): (r: seq<Player>)
    ensures |r| <= limit
    ensures forall p :: p in r ==>
      p in q && p.region == region && p.gameMode == gameMode && minRating <= p.rating <= maxRating
    ensures SortedByRating(q) ==> SortedByRating(r)
    ensures r <= RatedWithin(Partition(q, region, gameMode), minRating, maxRating)
    ensures |r| < limit ==> r == RatedWithin(Partition(q, region, gameMode), minRating, maxRating)
  {
    var all := RatedWithin(Partition(q, region, gameMode), minRating, maxRating);
    var r := Take(all, limit);
    assert forall p :: p in r ==> p in all;
    r
  }

  /** A sorted sequence stays sorted with an entry rated no higher than all of it in front. */
  lemma SortedPrepend(x: Player, r: seq<Player>)
    ensures SortedByRating(r) && (forall y :: y in r ==> x.rating <= y.rating)
      ==> SortedByRating([x] + r)
  {
  }

  lemma SortedTail(q: seq<Player>)
    requires q != []
    ensures SortedByRating(q) ==> SortedByRating(q[1..]) && forall y :: y in q[1..] ==> q[0].rating <= y.rating
  {
  }

  /** `q` without the entries equal to `p`, in queue order. */
  function RemoveEntry(q: seq<Player>, p: Player): (r: seq<Player>)
    ensures forall x :: x in r <==> x in q && x != p
    ensures SortedByRating(q) ==> SortedByRating(r)
  {
    if q == [] then []
    else if q[0] == p then RemoveEntry(q[1..], p)
    else
      var rest := RemoveEntry(q[1..], p);
      SortedTail(q);
      SortedPrepend(q[0], rest);
      [q[0]] + rest
  }

  /** The partition keeps every entry of its region and mode as often as the queue holds it, and no other. */
  lemma {:induction false} PartitionCounts(q: seq<Player>, region: string, gameMode: string)
    ensures forall p :: multiset(Partition(q, region, gameMode))[p]
                     == if p.region == region && p.gameMode == gameMode then multiset(q)[p] else 0
  {
    if q != [] {
      PartitionCounts(q[1..], region, gameMode);
      assert q == [q[0]] + q[1..];
    }
  }

  /** The range filter keeps every entry inside the range as often as its input holds it, and no other. */
  lemma {:induction false} RatedWithinCounts(q: seq<Player>, minRating: int, maxRating: int)
    ensures forall p :: multiset(RatedWithin(q, minRating, maxRating))[p]
                     == if minRating <= p.rating <= maxRating then multiset(q)[p] else 0
  {
    if q != [] {
      RatedWithinCounts(q[1..], minRating, maxRating);
      assert q == [q[0]] + q[1..];
    }
  }

  /** Removing a record drops every entry equal to it and keeps every other entry as often as before. */
  lemma {:induction false} RemoveEntryCounts(q: seq<Player>, p: Player)
    ensures multiset(RemoveEntry(q, p)) == multiset(q)[p := 0]
  {
    if q != [] {
      RemoveEntryCounts(q[1..], p);
      assert q == [q[0]] + q[1..];
    }
  }

  /** `q` with `p` placed after every entry rated no higher than it. */
  function Insert(q: seq<Player>, p: Player): (r: seq<Player>)
    ensures multiset(r) == multiset(q) + multiset{p}
    ensures forall x :: x in r <==> x in q || x == p
    ensures SortedByRating(q) ==> SortedByRating(r)
  {
    if q == [] || p.rating < q[0].rating then
      SortedPrepend(p, q);
      [p] + q
    else
      var rest := Insert(q[1..], p);
      assert q == [q[0]] + q[1..];
      SortedTail(q);
      SortedPrepend(q[0], rest);
      [q[0]] + rest
  }

  /** The saved match of player `id`, if any. */
  function MatchOf(s: StoreState, id: string): Option<Match> {
    if id in s.matches then Some(s.matches[id]) else None
  }

  /** The stored record of player `id`, if any. */
  function PlayerOf(s: StoreState, id: string): Option<Player> {
    if id in s.players then Some(s.players[id]) else None
  }

  /** The effect of one write; a match write does nothing while match writes fail. */
  function Apply(s: StoreState, op: StoreOp, matchWritesFail: bool): StoreState {
    match op
    case Save(m) =>
      if matchWritesFail then s
      else s.(matches := s.matches + map p | p in m.players :: p.id := m)
    case Remove(id) =>
      if id in s.players
      then s.(queue := RemoveEntry(s.queue, s.players[id]), players := s.players - {id})
      else s
  }

  /** The effect of a sequence of writes, applied in order. */
  function ApplyAll(s: StoreState, ops: seq<StoreOp>, matchWritesFail: bool): StoreState
    decreases |ops|
  {
    if ops == [] then s
    else Apply(ApplyAll(s, ops[..|ops| - 1], matchWritesFail), ops[|ops| - 1], matchWritesFail)
  }

  /** One removal per player, in order. */
  function Removals(ps: seq<Player>): (r: seq<StoreOp>)
    ensures |r| == |ps|
    ensures forall t :: 0 <= t < |ps| ==> r[t] == Remove(ps[t].id)
  {
    seq(|ps|, t requires 0 <= t < |ps| => Remove(ps[t].id))
  }

  /** The removals for one more player of `ps` are the earlier removals followed by that one. */
  lemma RemovalsStep(ps: seq<Player>, t: nat)
    requires t < |ps|
    ensures Removals(ps[..t + 1]) == Removals(ps[..t]) + [Remove(ps[t].id)]
  {
    assert ps[..t + 1][..t] == ps[..t];
  }

  /** The writes that record a created match: save it, then remove each member from the queue. */
  function MatchOps(m: Match): seq<StoreOp> {
    [Save(m)] + Removals(m.players)
  }

  /** Every removal in `ops` is preceded by a save of a match that holds the removed player. */
  predicate SavedBeforeRemoved(ops: seq<StoreOp>) {
    forall k :: 0 <= k < |ops| && ops[k].Remove? ==>
      exists j :: 0 <= j < k && ops[j].Save? && ops[k].id in IdsOf(ops[j].m.players)
  }

  lemma MatchOpsSavedFirst(m: Match)
    ensures MatchOps(m)[0] == Save(m) && |MatchOps(m)| == |m.players| + 1
    ensures forall t :: 0 <= t < |m.players| ==> MatchOps(m)[t + 1] == Remove(m.players[t].id)
    ensures SavedBeforeRemoved(MatchOps(m))
  {
    var ops := MatchOps(m);
    var rs := Removals(m.players);
    assert ops == [Save(m)] + rs;
    forall t | 0 <= t < |m.players|
      ensures ops[t + 1] == Remove(m.players[t].id) && m.players[t].id in IdsOf(m.players)
    {
      assert ops[t + 1] == rs[t];
      assert m.players[t] in m.players;
    }
    forall k | 0 <= k < |ops| && ops[k].Remove?
      ensures exists j :: 0 <= j < k && ops[j].Save? && ops[k].id in IdsOf(ops[j].m.players)
    {
      assert k != 0;
      assert ops[(k - 1) + 1].id in IdsOf(ops[0].m.players);
    }
  }

  lemma {:induction false} SavedBeforeRemovedConcat(a: seq<StoreOp>, b: seq<StoreOp>)
    requires SavedBeforeRemoved(a) && SavedBeforeRemoved(b)
    ensures SavedBeforeRemoved(a + b)
  {
    var ab := a + b;
    forall k | 0 <= k < |ab| && ab[k].Remove?
      ensures exists j :: 0 <= j < k && ab[j].Save? && ab[k].id in IdsOf(ab[j].m.players)
    {
      if k < |a| {
        assert ab[k] == a[k];
        var j :| 0 <= j < k && a[j].Save? && a[k].id in IdsOf(a[j].m.players);
        assert ab[j] == a[j];
      } else {
        assert ab[k] == b[k - |a|];
        var j :| 0 <= j < k - |a| && b[j].Save? && b[k - |a|].id in IdsOf(b[j].m.players);
        assert ab[j + |a|] == b[j];
      }
    }
  }

  lemma {:induction false} ApplyAllAppend(s: StoreState, ops: seq<StoreOp>, op: StoreOp, fail: bool)
    ensures ApplyAll(s, ops + [op], fail) == Apply(ApplyAll(s, ops, fail), op, fail)
  {
    assert (ops + [op])[..|ops|] == ops;
  }

  lemma ApplyWellFormed(s: StoreState, op: StoreOp, fail: bool)
    requires WellFormed(s)
    ensures WellFormed(Apply(s, op, fail))
  {
  }

  lemma {:induction false} ApplyAllWellFormed(s: StoreState, ops: seq<StoreOp>, fail: bool)
    requires WellFormed(s)
    ensures WellFormed(ApplyAll(s, ops, fail))
    decreases |ops|
  {
    if ops != [] {
      ApplyAllWellFormed(s, ops[..|ops| - 1], fail);
      ApplyWellFormed(ApplyAll(s, ops[..|ops| - 1], fail), ops[|ops| - 1], fail);
    }
  }

  /** Queue removals never touch the saved matches. */
  lemma {:induction false} RemovalsKeepMatches(s: StoreState, ps: seq<Player>, fail: bool)
    ensures ApplyAll(s, Removals(ps), fail).matches == s.matches
    decreases |ps|
  {
    if ps != [] {
      var init := ps[..|ps| - 1];
      assert Removals(ps)[..|ps| - 1] == Removals(init);
      RemovalsKeepMatches(s, init, fail);
    }
  }

  /**
    After the writes of a created match, every member's saved match is that
    match, unless match writes fail.
  */
  lemma MatchOpsRecordMatch(s: StoreState, m: Match, fail: bool)
    requires !fail
    ensures forall p :: p in m.players ==> MatchOf(ApplyAll(s, MatchOps(m), fail), p.id) == Some(m)
  {
    var saved := Apply(s, Save(m), fail);
    assert ApplyAll(s, [Save(m)], fail) == saved by {
      assert [Save(m)][..0] == [];
    }
    ApplyAllConcat(s, [Save(m)], Removals(m.players), fail);
    RemovalsKeepMatches(saved, m.players, fail);
  }

  lemma {:induction false} ApplyAllConcat(s: StoreState, a: seq<StoreOp>, b: seq<StoreOp>, fail: bool)
    ensures ApplyAll(s, a + b, fail) == ApplyAll(ApplyAll(s, a, fail), b, fail)
    decreases |b|
  {
    if b == [] {
      assert a + b == a;
    } else {
      var init := b[..|b| - 1];
      assert (a + b)[..|a + b| - 1] == a + init;
      ApplyAllConcat(s, a, init, fail);
    }
  }

  /** A match's writes are its save followed by the removals of its members. */
  lemma SaveThenRemovals(s: StoreState, m: Match, fail: bool)
    ensures ApplyAll(s, MatchOps(m), fail) == ApplyAll(Apply(s, Save(m), fail), Removals(m.players), fail)
  {
    assert ApplyAll(s, [Save(m)], fail) == Apply(s, Save(m), fail) by {
      assert [Save(m)][..0] == [];
    }
    ApplyAllConcat(s, [Save(m)], Removals(m.players), fail);
  }

  /** A match's writes leave the saved match of anyone outside it as it was. */
  lemma MatchOpsKeepOthers(s: StoreState, m: Match, fail: bool, id: string)
    requires id !in IdsOf(m.players)
    ensures MatchOf(ApplyAll(s, MatchOps(m), fail), id) == MatchOf(s, id)
  {
    var saved := Apply(s, Save(m), fail);
    assert ApplyAll(s, [Save(m)], fail) == saved by {
      assert [Save(m)][..0] == [];
    }
    ApplyAllConcat(s, [Save(m)], Removals(m.players), fail);
    RemovalsKeepMatches(saved, m.players, fail);
    assert id in saved.matches <==> id in s.matches;
  }

  /** Writes never add a player record: the keys after are among the keys before. */
  /** When match writes fail, no sequence of writes changes the saved matches. */
  lemma {:induction false} FailedWritesKeepMatches(s: StoreState, ops: seq<StoreOp>)
    ensures ApplyAll(s, ops, true).matches == s.matches
    decreases |ops|
  {
    if ops != [] {
      FailedWritesKeepMatches(s, ops[..|ops| - 1]);
    }
  }

  lemma {:induction false} ApplyAllShrinksPlayers(s: StoreState, ops: seq<StoreOp>, fail: bool)
    ensures ApplyAll(s, ops, fail).players.Keys <= s.players.Keys
    decreases |ops|
  {
    if ops != [] {
      ApplyAllShrinksPlayers(s, ops[..|ops| - 1], fail);
    }
  }

  /** After the removals for `ps`, none of their identifiers has a player record left. */
  lemma {:induction false} RemovalsUnkey(s: StoreState, ps: seq<Player>, fail: bool)
    ensures forall p :: p in ps ==> p.id !in ApplyAll(s, Removals(ps), fail).players
    decreases |ps|
  {
    if ps != [] {
      var init := ps[..|ps| - 1];
      var last := ps[|ps| - 1];
      assert Removals(ps)[..|ps| - 1] == Removals(init);
      RemovalsUnkey(s, init, fail);
      var before := ApplyAll(s, Removals(init), fail);
      assert ApplyAll(s, Removals(ps), fail) == Apply(before, Remove(last.id), fail);
      forall p | p in ps ensures p.id !in Apply(before, Remove(last.id), fail).players {
        if p != last {
          assert p in init by {
            var t :| 0 <= t < |ps| && ps[t] == p;
            assert init[t] == p;
          }
        }
      }
    }
  }

  /** After a match's writes none of its members has a player record left. */
  lemma MatchOpsUnkeyMembers(s: StoreState, m: Match, fail: bool)
    ensures forall p :: p in m.players ==> p.id !in ApplyAll(s, MatchOps(m), fail).players
  {
    var saved := Apply(s, Save(m), fail);
    assert ApplyAll(s, [Save(m)], fail) == saved by {
      assert [Save(m)][..0] == [];
    }
    ApplyAllConcat(s, [Save(m)], Removals(m.players), fail);
    RemovalsUnkey(saved, m.players, fail);
  }

  /**
    The store object. Its fields are the state above; two fault flags stand for
    a backend that rejects range queries or match writes.
  */
  class QueueStore {
    var queue: seq<Player>
    var players: map<string, Player>
    var matches: map<string, Match>
    ghost var log: seq<StoreOp>
    const rangeReadsFail: bool
    const matchWritesFail: bool

    ghost predicate Valid()
      reads this
    {
      WellFormed(State())
    }

    function State(): StoreState
      reads this
    {
      StoreState(queue, players, matches)
    }

    constructor (rangeReadsFail: bool, matchWritesFail: bool)
      ensures Valid() && State() == StoreState([], map[], map[]) && log == []
      ensures this.rangeReadsFail == rangeReadsFail && this.matchWritesFail == matchWritesFail
    {
      queue, players, matches := [], map[], map[];
      log := [];
      this.rangeReadsFail, this.matchWritesFail := rangeReadsFail, matchWritesFail;
    }

    /** Enqueue the record under its rating (once) and store it under its identifier. */
    method AddPlayerToQueue(p: Player)
      requires Valid()
      modifies this
      ensures Valid() && log == old(log) && matches == old(matches)
      ensures queue == if p in old(queue) then old(queue) else Insert(old(queue), p)
      ensures players == old(players)[p.id := p]
    {
      if p !in queue {
        queue := Insert(queue, p);
      }
      players := players[p.id := p];
    }

    /** Fails with NotFound when no record is stored under `id`. */
    method RemovePlayerFromQueue(id: string) returns (r: Outcome<StoreError>)
      requires Valid()
      modifies this
      ensures Valid()
      ensures r == if id in old(players) then Pass else Fail(NotFound)
      ensures State() == Apply(old(State()), Remove(id), matchWritesFail)
      ensures log == old(log) + [Remove(id)]
    {
      log := log + [Remove(id)];
      if id !in players {
        return Fail(NotFound);
      }
      queue := RemoveEntry(queue, players[id]);
      players := players - {id};
      r := Pass;
    }

    method GetPlayersInRange(region: string, gameMode: string,
                             minRating: int, maxRating: int, limit: nat)
      returns (r: Result<seq<Player>, StoreError>)
      ensures r == if rangeReadsFail then Failure(Unavailable)
                   else Success(RangeQuery(queue, region, gameMode, minRating, maxRating, limit))
    {
      if rangeReadsFail {
        return Failure(Unavailable);
      }
      r := Success(RangeQuery(queue, region, gameMode, minRating, maxRating, limit));
    }

    method GetPlayerByID(id: string) returns (r: Option<Player>)
      ensures r == PlayerOf(State(), id)
    {
      if id in players {
        r := Some(players[id]);
      } else {
        r := None;
      }
    }

    method GetMatchByPlayerID(id: string) returns (r: Option<Match>)
      ensures r == MatchOf(State(), id)
    {
      if id in matches {
        r := Some(matches[id]);
      } else {
        r := None;
      }
    }

    /** Saves `m` under the identifier of each of its players. */
    method SaveMatch(m: Match) returns (r: Outcome<StoreError>)
      requires Valid()
      modifies this
      ensures Valid()
      ensures r == if matchWritesFail then Fail(Unavailable) else Pass
      ensures State() == Apply(old(State()), Save(m), matchWritesFail)
      ensures log == old(log) + [Save(m)]
    {
      log := log + [Save(m)];
      if matchWritesFail {
        return Fail(Unavailable);
      }
      matches := matches + map p | p in m.players :: p.id := m;
      r := Pass;
    }

    method GetQueueSize(region: string, gameMode: string) returns (n: nat)
      ensures n == |Partition(queue, region, gameMode)|
    {
      n := |Partition(queue, region, gameMode)|;
    }
  }
}
