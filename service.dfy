/**
  The matcher service (MatcherService in service/matcher.go): the two matching
  strategies as methods over the queue store, each proved to return what its
  plan function says and to leave the store in the state its writes produce.
*/
module Service {
  import opened Wrappers
  import opened Models
  import opened Policy
  import opened Store
  import opened OnDemand
  import opened Batch

  class MatcherService {
    const store: QueueStore
    const config: MatcherConfig

    /** Without a configuration the default one is used. */
    constructor (store: QueueStore, config: Option<MatcherConfig>)
      ensures this.store == store
      ensures this.config == if config.Some? then config.value else DefaultMatcherConfig()
    {
      this.store := store;
      this.config := if config.Some? then config.value else DefaultMatcherConfig();
    }

    /**
      Find a match for `playerId`, who has waited `waitTime` nanoseconds;
      `matchId` and `createdAt` stand for the clock readings a new match gets.
      A failed match write or removal is only logged: the result is the plan's
      either way.
    */
    method FindMatch(playerId: string, waitTime: nat, matchId: string, createdAt: int)
      returns (r: Result<Match, MatchError>)
      requires store.Valid()
      modifies store
      ensures store.Valid()
      ensures var plan := FindMatchPlan(config, old(store.State()), store.rangeReadsFail,
                                        playerId, waitTime, matchId, createdAt);
              && r == plan.result
              && store.log == old(store.log) + plan.ops
              && store.State() == ApplyAll(old(store.State()), plan.ops, store.matchWritesFail)
    {
      var savedMatch := store.GetMatchByPlayerID(playerId);
      if savedMatch.Some? {
        return Success(savedMatch.value);
      }
      var currentPlayer := store.GetPlayerByID(playerId);
      if currentPlayer.None? {
        return Failure(PlayerNotFound);
      }
      r := MatchQueuedPlayer(playerId, currentPlayer.value, waitTime, matchId, createdAt);
    }

    /** FindMatch once the requester's record `me` is loaded: query, scan, and record a full match. */
    method MatchQueuedPlayer(playerId: string, me: Player, waitTime: nat, matchId: string, createdAt: int)
      returns (r: Result<Match, MatchError>)
      requires store.Valid()
      modifies store
      ensures store.Valid()
      ensures var plan := QueuedPlan(config, old(store.State()), store.rangeReadsFail,
                                     playerId, me, waitTime, matchId, createdAt);
              && r == plan.result
              && store.log == old(store.log) + plan.ops
              && store.State() == ApplyAll(old(store.State()), plan.ops, store.matchWritesFail)
    {
      var ratingRange := CalculateRatingRange(config, waitTime);
      var fetched := FetchCandidates(me, ratingRange);
      if fetched.Failure? {
        return Failure(CandidatesUnavailable);
      }
      r := MatchCandidates(playerId, me, fetched.value, matchId, createdAt);
    }

    /** The range query for `me`: twice the match size of candidates within `ratingRange` of their rating. */
    method FetchCandidates(me: Player, ratingRange: int) returns (r: Result<seq<Player>, StoreError>)
      ensures r == if store.rangeReadsFail then Failure(Unavailable)
                   else Success(CandidatesWithin(store.State(), me, ratingRange))
    {
      r := store.GetPlayersInRange(me.region, me.gameMode, WindowLow(me, ratingRange),
                                   WindowHigh(me, ratingRange), CandidateLimit(me.gameMode));
    }

    /** The greedy scan over the returned candidates, then the save and removals of a full match. */
    method MatchCandidates(playerId: string, me: Player, candidates: seq<Player>, matchId: string, createdAt: int)
      returns (r: Result<Match, MatchError>)
      requires store.Valid()
      modifies store
      ensures store.Valid()
      ensures var plan := ScanPlan(config, playerId, me, candidates, matchId, createdAt);
              && r == plan.result
              && store.log == old(store.log) + plan.ops
              && store.State() == ApplyAll(old(store.State()), plan.ops, store.matchWritesFail)
    {
      var playersPerMatch := GetPlayersPerMatch(me.gameMode);
      var matchPlayers := SelectPlayers(playerId, me, candidates, playersPerMatch);
      if |matchPlayers| >= playersPerMatch {
        var m := Match(matchId, matchPlayers, createdAt);
        RecordMatch(m);
        return Success(m);
      }
      return Failure(NoSuitableMatch);
    }

    /**
      One batch pass over the queue of `region` and `gameMode`; `matchId(k)`
      and `createdAt(k)` stand for the clock readings the k-th match gets.
    */
    method ProcessQueue(region: string, gameMode: string, matchId: nat -> string, createdAt: nat -> int)
      returns (r: Outcome<StoreError>)
      requires store.Valid()
      modifies store
      ensures store.Valid()
      ensures var plan := ProcessPlan(config, old(store.State()), store.rangeReadsFail,
                                      region, gameMode, matchId, createdAt);
              && r == plan.result
              && store.log == old(store.log) + plan.ops
              && store.State() == ApplyAll(old(store.State()), plan.ops, store.matchWritesFail)
    {
      var playersPerMatch := GetPlayersPerMatch(gameMode);
      var fetched := store.GetPlayersInRange(region, gameMode, 0, MaxInt, FetchLimit);
      if fetched.Failure? {
        return Fail(fetched.error);
      }
      var players := fetched.value;
      if |players| < playersPerMatch {
        return Pass;
      }
      assert players == Fetched(old(store.State()), region, gameMode);
      GroupPlayers(players, playersPerMatch, matchId, createdAt);
      return Pass;
    }

    /**
      The outer scan of ProcessQueue over the fetched `players`: try each
      index in turn as an anchor, recording a match for every full group.
    */
    method GroupPlayers(players: seq<Player>, playersPerMatch: nat, matchId: nat -> string, createdAt: nat -> int)
      requires store.Valid()
      modifies store
      ensures store.Valid()
      ensures var ops := BatchOps(Cluster(config, players, playersPerMatch, 0, {}), matchId, createdAt);
              && store.log == old(store.log) + ops
              && store.State() == ApplyAll(old(store.State()), ops, store.matchWritesFail)
    {
      ghost var s0 := old(store.State());
      ghost var all := Cluster(config, players, playersPerMatch, 0, {});
      ghost var done: seq<Group> := [];
      ghost var ops: seq<StoreOp> := [];
      var used: set<string> := {};
      var made: nat := 0;
      var i := 0;
      while i < |players|
        invariant 0 <= i <= |players|
        invariant all == done + Cluster(config, players, playersPerMatch, i, used)
        invariant made == |done|
        invariant ops == BatchOps(done, matchId, createdAt)
        invariant store.Valid()
        invariant store.log == old(store.log) + ops
        invariant store.State() == ApplyAll(s0, ops, store.matchWritesFail)
      {
        used, made, done, ops := AnchorTurn(players, playersPerMatch, matchId, createdAt, i, used, made,
                                            all, done, s0, old(store.log), ops);
        i := i + 1;
      }
      assert done == all;
    }

    /**
      One turn of the outer scan of ProcessQueue at anchor index `i`: skip a
      used player; otherwise grow a group around it and keep it if it is
      full, else release its marks.
    */
    method ProcessAnchor(players: seq<Player>, used: set<string>, i: nat, size: nat)
      returns (group: seq<Player>, matched: bool, used': set<string>)
      requires i < |players|
      ensures matched ==> Cluster(config, players, size, i, used)
                          == [Group(i, group)] + Cluster(config, players, size, i + 1, used')
      ensures !matched ==> Cluster(config, players, size, i, used) == Cluster(config, players, size, i + 1, used')
    {
      if players[i].id in used {
        return [], false, used;
      }
      group, used' := GrowGroup(players, used, i, size);
      if |group| >= size {
        return group, true, used';
      }
      used' := ReleaseGroup(used', group);
      matched := false;
    }

    /**
      One turn of the outer scan together with the writes it makes: the
      groups formed so far, `done`, grow by the group anchored at `i` when it
      is full, and the store by that group's match writes.
    */
    method AnchorTurn(players: seq<Player>, size: nat, matchId: nat -> string, createdAt: nat -> int,
                      i: nat, used: set<string>, made: nat, ghost all: seq<Group>, ghost done: seq<Group>,
                      ghost s0: StoreState, ghost log0: seq<StoreOp>, ghost ops: seq<StoreOp>)
      returns (used': set<string>, made': nat, ghost done': seq<Group>, ghost ops': seq<StoreOp>)
      requires i < |players| && store.Valid()
      requires all == done + Cluster(config, players, size, i, used)
      requires made == |done| && ops == BatchOps(done, matchId, createdAt)
      requires store.log == log0 + ops && store.State() == ApplyAll(s0, ops, store.matchWritesFail)
      modifies store
      ensures store.Valid()
      ensures all == done' + Cluster(config, players, size, i + 1, used')
      ensures made' == |done'| && ops' == BatchOps(done', matchId, createdAt)
      ensures store.log == log0 + ops' && store.State() == ApplyAll(s0, ops', store.matchWritesFail)
    {
      var group, matched;
      group, matched, used' := ProcessAnchor(players, used, i, size);
      ghost var rest := Cluster(config, players, size, i + 1, used');
      if matched {
        ops' := RecordNext(Match(matchId(made), group, createdAt(made)), s0, log0, ops);
        assert all == (done + [Group(i, group)]) + rest;
        BatchOpsAppend(done, Group(i, group), matchId, createdAt);
        done' := done + [Group(i, group)];
        made' := made + 1;
      } else {
        done', made', ops' := done, made, ops;
      }
    }

    /** Record `m` after the writes `ops` already made since `s0`, extending them by the match's writes. */
    method RecordNext(m: Match, ghost s0: StoreState, ghost log0: seq<StoreOp>, ghost ops: seq<StoreOp>)
      returns (ghost ops': seq<StoreOp>)
      requires store.Valid()
      requires store.log == log0 + ops && store.State() == ApplyAll(s0, ops, store.matchWritesFail)
      modifies store
      ensures store.Valid()
      ensures ops' == ops + MatchOps(m)
      ensures store.log == log0 + ops' && store.State() == ApplyAll(s0, ops', store.matchWritesFail)
    {
      RecordMatch(m);
      ApplyAllConcat(s0, ops, MatchOps(m), store.matchWritesFail);
      ops' := ops + MatchOps(m);
    }

    /**
      The greedy candidate scan of FindMatch: starting from the requester,
      skip their own identifier, append compatible candidates, and stop once
      `size` players are gathered.
    */
    method SelectPlayers(playerId: string, me: Player, candidates: seq<Player>, size: nat)
      returns (matchPlayers: seq<Player>)
      requires size >= 2
      ensures matchPlayers == Gather(config, playerId, me, candidates, size, [me])
    {
      matchPlayers := [me];
      var k := 0;
      while k < |candidates|
        invariant 0 <= k <= |candidates|
        invariant 1 <= |matchPlayers| < size
        invariant Gather(config, playerId, me, candidates, size, [me])
               == Gather(config, playerId, me, candidates[k..], size, matchPlayers)
      {
        var candidate := candidates[k];
        assert candidates[k..] == [candidate] + candidates[k + 1..];
        if candidate.id == playerId {
          k := k + 1;
          continue;
        }
        if IsCompatible(config, me, candidate) {
          matchPlayers := matchPlayers + [candidate];
          if |matchPlayers| >= size {
            return;
          }
        }
        k := k + 1;
      }
    }

    /** Save `m`, then remove each of its players from the queue; failures are only logged. */
    method RecordMatch(m: Match)
      requires store.Valid()
      modifies store
      ensures store.Valid()
      ensures store.log == old(store.log) + MatchOps(m)
      ensures store.State() == ApplyAll(old(store.State()), MatchOps(m), store.matchWritesFail)
    {
      ghost var s0 := store.State();
      var saveResult := store.SaveMatch(m);
      RemoveMembers(m.players);
      SaveThenRemovals(s0, m, store.matchWritesFail);
    }

    /** Remove each of `ps` from the queue in order; a failed removal is only logged. */
    method RemoveMembers(ps: seq<Player>)
      requires store.Valid()
      modifies store
      ensures store.Valid()
      ensures store.log == old(store.log) + Removals(ps)
      ensures store.State() == ApplyAll(old(store.State()), Removals(ps), store.matchWritesFail)
    {
      ghost var s0 := store.State();
      var t := 0;
      while t < |ps|
        invariant 0 <= t <= |ps|
        invariant store.Valid()
        invariant store.log == old(store.log) + Removals(ps[..t])
        invariant store.State() == ApplyAll(s0, Removals(ps[..t]), store.matchWritesFail)
      {
        var removeResult := store.RemovePlayerFromQueue(ps[t].id);
        RemovalsStep(ps, t);
        ApplyAllAppend(s0, Removals(ps[..t]), Remove(ps[t].id), store.matchWritesFail);
        t := t + 1;
      }
      assert ps[..|ps|] == ps;
    }

    /**
      The inner scan of ProcessQueue around anchor `players[i]`: mark it, then
      append and mark every unused player compatible with it until the group
      is full.
    */
    method GrowGroup(players: seq<Player>, used: set<string>, i: nat, size: nat)
      returns (group: seq<Player>, used': set<string>)
      requires i < |players|
      ensures (group, used') == Grow(config, players, used + {players[i].id}, [players[i]], 0, size)
      ensures |group| >= 1 && group[0] == players[i]
    {
      group := [players[i]];
      used' := used + {players[i].id};
      var j := 0;
      while j < |players| && |group| < size
        invariant 0 <= j <= |players|
        invariant |group| >= 1 && group[0] == players[i]
        invariant Grow(config, players, used + {players[i].id}, [players[i]], 0, size)
               == Grow(config, players, used', group, j, size)
      {
        if players[j].id in used' {
          j := j + 1;
          continue;
        }
        if IsCompatible(config, group[0], players[j]) {
          group := group + [players[j]];
          used' := used' + {players[j].id};
        }
        j := j + 1;
      }
    }

    /** Unmark the members of a group that stayed short: the others first, then the anchor. */
    method ReleaseGroup(used: set<string>, group: seq<Player>) returns (used': set<string>)
      requires |group| >= 1
      ensures used' == used - IdsOf(group)
    {
      used' := used;
      var k := 1;
      while k < |group|
        invariant 1 <= k <= |group|
        invariant used' == used - IdsOf(group[1..k])
      {
        assert IdsOf(group[1..k + 1]) == IdsOf(group[1..k]) + {group[k].id} by {
          assert group[1..k + 1] == group[1..k] + [group[k]];
        }
        used' := used' - {group[k].id};
        k := k + 1;
      }
      used' := used' - {group[0].id};
      assert IdsOf(group) == {group[0].id} + IdsOf(group[1..]) by {
        forall p | p in group ensures p == group[0] || p in group[1..] { }
      }
      assert group[1..|group|] == group[1..];
    }

    method AddPlayerToQueue(p: Player)
      requires store.Valid()
      modifies store
      ensures store.Valid() && store.log == old(store.log) && store.matches == old(store.matches)
      ensures store.queue == if p in old(store.queue) then old(store.queue) else Insert(old(store.queue), p)
      ensures store.players == old(store.players)[p.id := p]
    {
      store.AddPlayerToQueue(p);
    }

    method RemovePlayerFromQueue(playerId: string) returns (r: Outcome<StoreError>)
      requires store.Valid()
      modifies store
      ensures store.Valid()
      ensures r == if playerId in old(store.players) then Pass else Fail(NotFound)
      ensures store.State() == Apply(old(store.State()), Remove(playerId), store.matchWritesFail)
      ensures store.log == old(store.log) + [Remove(playerId)]
    {
      r := store.RemovePlayerFromQueue(playerId);
    }

    method GetQueueSize(region: string, gameMode: string) returns (n: nat)
      ensures n == |Partition(store.queue, region, gameMode)|
    {
      n := store.GetQueueSize(region, gameMode);
    }
  }
}
