/**
  On-demand matching (FindMatch in service/matcher.go): return the player's
  saved match if there is one; otherwise query the store for candidates
  within the player's current rating window, take compatible candidates
  greedily in the order returned, and, once the group is full, save the match
  and remove its members from the queue.
*/
module OnDemand {
  import opened Wrappers
  import opened Models
  import opened Policy
  import opened Store

  datatype MatchError = PlayerNotFound | CandidatesUnavailable | NoSuitableMatch

  /** What one FindMatch call returns and the store writes it makes, in order. */
  datatype FindPlan = FindPlan(result: Result<Match, MatchError>, ops: seq<StoreOp>)

  /** A candidate the greedy scan accepts: not the requester, and compatible with them. */
  predicate Eligible(cfg: MatcherConfig, selfId: string, me: Player, c: Player) {
    c.id != selfId && IsCompatible(cfg, me, c)
  }

  /** Every eligible candidate, in the order the store returned them. */
  function EligibleCandidates(cfg: MatcherConfig, selfId: string, me: Player, cands: seq<Player>): (r: seq<Player>)
    ensures forall p :: p in r <==> p in cands && Eligible(cfg, selfId, me, p)
    ensures SortedByRating(cands) ==> SortedByRating(r)
  {
    if cands == [] then []
    else if Eligible(cfg, selfId, me, cands[0]) then
      var rest := EligibleCandidates(cfg, selfId, me, cands[1..]);
      SortedTail(cands);
      SortedPrepend(cands[0], rest);
      [cands[0]] + rest
    else EligibleCandidates(cfg, selfId, me, cands[1..])
  }

  /**
    The greedy scan of the candidates: skip the requester, append each
    compatible candidate to `acc`, and stop as soon as `acc` holds `size` players.
  */
  function Gather(cfg: MatcherConfig, selfId: string, me: Player, cands: seq<Player>,
                  size: nat, acc: seq<Player>): seq<Player>
    decreases |cands|
  {
    if cands == [] then acc
    else
      var c := cands[0];
      if c.id == selfId then Gather(cfg, selfId, me, cands[1..], size, acc)
      else if IsCompatible(cfg, me, c) then
        if |acc + [c]| >= size then acc + [c]
        else Gather(cfg, selfId, me, cands[1..], size, acc + [c])
      else Gather(cfg, selfId, me, cands[1..], size, acc)
  }

  /** The greedy scan keeps exactly the first eligible candidates that fit after `acc`. */
  lemma {:induction false} GatherTakesEligiblePrefix(cfg: MatcherConfig, selfId: string, me: Player,
                                                     cands: seq<Player>, size: nat, acc: seq<Player>)
    requires |acc| < size
    ensures Gather(cfg, selfId, me, cands, size, acc)
         == Take(acc + EligibleCandidates(cfg, selfId, me, cands), size)
    decreases |cands|
  {
    if cands == [] {
      assert acc + [] == acc;
    } else {
      var c := cands[0];
      var rest := EligibleCandidates(cfg, selfId, me, cands[1..]);
      if c.id == selfId || !IsCompatible(cfg, me, c) {
        GatherTakesEligiblePrefix(cfg, selfId, me, cands[1..], size, acc);
      } else {
        assert acc + EligibleCandidates(cfg, selfId, me, cands) == (acc + [c]) + rest;
        if |acc + [c]| < size {
          GatherTakesEligiblePrefix(cfg, selfId, me, cands[1..], size, acc + [c]);
        } else {
          assert ((acc + [c]) + rest)[..size] == acc + [c];
        }
      }
    }
  }

  /** The candidates the store returns for `me` after a wait of `waitTime` nanoseconds. */
  function CandidatesFor(cfg: MatcherConfig, s: StoreState, me: Player, waitTime: nat): seq<Player> {
    CandidatesWithin(s, me, CalculateRatingRange(cfg, waitTime))
  }

  /** Up to twice the match size of queued players of `me`'s region and mode, rated within `window` of `me`. */
  function CandidatesWithin(s: StoreState, me: Player, window: int): seq<Player> {
    RangeQuery(s.queue, me.region, me.gameMode, WindowLow(me, window), WindowHigh(me, window),
               CandidateLimit(me.gameMode))
  }

  /** The lowest rating the range query for `me` asks for. */
  function WindowLow(me: Player, window: int): int { me.rating - window }

  /** The highest rating the range query for `me` asks for. */
  function WindowHigh(me: Player, window: int): int { me.rating + window }

  /** How many candidates a range query asks for: twice the match size. */
  function CandidateLimit(gameMode: string): nat { 2 * GetPlayersPerMatch(gameMode) }

  /**
    One FindMatch call against store state `s`: its result and the writes it
    makes. The match identifier and creation time stand for the clock readings.
  */
  function FindMatchPlan(cfg: MatcherConfig, s: StoreState, rangeReadsFail: bool, playerId: string,
                         waitTime: nat, matchId: string, createdAt: int): FindPlan
  {
    match MatchOf(s, playerId)
    case Some(saved) => FindPlan(Success(saved), [])
    case None =>
      match PlayerOf(s, playerId)
      case None => FindPlan(Failure(PlayerNotFound), [])
      case Some(me) => QueuedPlan(cfg, s, rangeReadsFail, playerId, me, waitTime, matchId, createdAt)
  }

  /** The part of a FindMatch call after the requester's record `me` is loaded. */
  function QueuedPlan(cfg: MatcherConfig, s: StoreState, rangeReadsFail: bool, playerId: string, me: Player,
                      waitTime: nat, matchId: string, createdAt: int): FindPlan
  {
    if rangeReadsFail then FindPlan(Failure(CandidatesUnavailable), [])
    else ScanPlan(cfg, playerId, me, CandidatesFor(cfg, s, me, waitTime), matchId, createdAt)
  }

  /** The greedy scan over the returned candidates, and the match it creates when the group fills. */
  function ScanPlan(cfg: MatcherConfig, playerId: string, me: Player, cands: seq<Player>,
                    matchId: string, createdAt: int): FindPlan
  {
    var size := GetPlayersPerMatch(me.gameMode);
    var group := Gather(cfg, playerId, me, cands, size, [me]);
    if |group| >= size then
      var m := Match(matchId, group, createdAt);
      FindPlan(Success(m), MatchOps(m))
    else FindPlan(Failure(NoSuitableMatch), [])
  }

  /** A player who already has a saved match gets exactly that match back, and nothing is written. */
  lemma FindMatchReturnsSavedMatch(cfg: MatcherConfig, s: StoreState, rangeReadsFail: bool, playerId: string,
                                   waitTime: nat, matchId: string, createdAt: int)
    requires playerId in s.matches
    ensures FindMatchPlan(cfg, s, rangeReadsFail, playerId, waitTime, matchId, createdAt)
         == FindPlan(Success(s.matches[playerId]), [])
  {
  }

  /** A player with no saved match and no stored record gets PlayerNotFound, and nothing is written. */
  lemma FindMatchMissingPlayer(cfg: MatcherConfig, s: StoreState, rangeReadsFail: bool, playerId: string,
                               waitTime: nat, matchId: string, createdAt: int)
    requires playerId !in s.matches && playerId !in s.players
    ensures FindMatchPlan(cfg, s, rangeReadsFail, playerId, waitTime, matchId, createdAt)
         == FindPlan(Failure(PlayerNotFound), [])
  {
  }

  /**
    For a queued player without a saved match and with the range query
    answering, a match is created exactly when the returned candidates hold at
    least size - 1 eligible players; otherwise the call fails with
    NoSuitableMatch and writes nothing.
  */
  lemma FindMatchSucceedsIff(cfg: MatcherConfig, s: StoreState, playerId: string,
                             waitTime: nat, matchId: string, createdAt: int)
    requires playerId !in s.matches && playerId in s.players
    ensures var me := s.players[playerId];
            var plan := FindMatchPlan(cfg, s, false, playerId, waitTime, matchId, createdAt);
            var eligible := EligibleCandidates(cfg, playerId, me, CandidatesFor(cfg, s, me, waitTime));
            (plan.result.Success? <==> |eligible| >= GetPlayersPerMatch(me.gameMode) - 1)
            && (plan.result.Failure? ==> plan.result.error == NoSuitableMatch && plan.ops == [])
  {
    var me := s.players[playerId];
    ScanSucceedsIff(cfg, playerId, me, CandidatesFor(cfg, s, me, waitTime), matchId, createdAt);
  }

  /** The scan over any candidates creates a match exactly when at least size - 1 of them are eligible. */
  lemma ScanSucceedsIff(cfg: MatcherConfig, playerId: string, me: Player, cands: seq<Player>,
                        matchId: string, createdAt: int)
    ensures var plan := ScanPlan(cfg, playerId, me, cands, matchId, createdAt);
            (plan.result.Success? <==> |EligibleCandidates(cfg, playerId, me, cands)| >= GetPlayersPerMatch(me.gameMode) - 1)
            && (plan.result.Failure? ==> plan.result.error == NoSuitableMatch && plan.ops == [])
  {
    var size := GetPlayersPerMatch(me.gameMode);
    var eligible := EligibleCandidates(cfg, playerId, me, cands);
    GatherTakesEligiblePrefix(cfg, playerId, me, cands, size, [me]);
    TakeCons(me, eligible, size);
  }

  /**
    A newly created match is the requester followed by the first size - 1
    eligible candidates in the order the store returned them; it has exactly
    the group size of the requester's mode, and its writes are: save it, then
    remove each member.
  */
  lemma FindMatchCreatesMatch(cfg: MatcherConfig, s: StoreState, playerId: string,
                              waitTime: nat, matchId: string, createdAt: int)
    requires playerId !in s.matches
    requires FindMatchPlan(cfg, s, false, playerId, waitTime, matchId, createdAt).result.Success?
    ensures playerId in s.players
    ensures var me := s.players[playerId];
            var plan := FindMatchPlan(cfg, s, false, playerId, waitTime, matchId, createdAt);
            var m := plan.result.value;
            var size := GetPlayersPerMatch(me.gameMode);
            && m == Match(matchId, m.players, createdAt)
            && |m.players| == size
            && m.players == [me] + Take(EligibleCandidates(cfg, playerId, me, CandidatesFor(cfg, s, me, waitTime)), size - 1)
            && plan.ops == MatchOps(m)
  {
    var me := s.players[playerId];
    var size := GetPlayersPerMatch(me.gameMode);
    var eligible := EligibleCandidates(cfg, playerId, me, CandidatesFor(cfg, s, me, waitTime));
    GatherTakesEligiblePrefix(cfg, playerId, me, CandidatesFor(cfg, s, me, waitTime), size, [me]);
    TakeCons(me, eligible, size);
  }

  /**
    Every member of a newly created match other than the requester is a queue
    entry of the requester's region and mode with another identifier, rated
    within the base difference of the requester and inside the widened window;
    they come lowest rating first.
  */
  lemma FindMatchMembersCompatible(cfg: MatcherConfig, s: StoreState, playerId: string,
                                   waitTime: nat, matchId: string, createdAt: int)
    requires WellFormed(s)
    requires playerId !in s.matches
    requires FindMatchPlan(cfg, s, false, playerId, waitTime, matchId, createdAt).result.Success?
    ensures playerId in s.players
    ensures var me := s.players[playerId];
            var m := FindMatchPlan(cfg, s, false, playerId, waitTime, matchId, createdAt).result.value;
            && m.players[0] == me && me.id == playerId
            && SortedByRating(m.players[1..])
            && forall c :: c in m.players[1..] ==>
                 AcceptedCandidate(cfg, s, playerId, me, CalculateRatingRange(cfg, waitTime), c)
  {
    FindMatchCreatesMatch(cfg, s, playerId, waitTime, matchId, createdAt);
    var me := s.players[playerId];
    var window := CalculateRatingRange(cfg, waitTime);
    var eligible := EligibleCandidates(cfg, playerId, me, CandidatesWithin(s, me, window));
    var m := FindMatchPlan(cfg, s, false, playerId, waitTime, matchId, createdAt).result.value;
    var others := Take(eligible, GetPlayersPerMatch(me.gameMode) - 1);
    assert m.players[1..] == others;
    forall c | c in others
      ensures AcceptedCandidate(cfg, s, playerId, me, window, c)
    {
      PrefixMember(others, eligible, c);
      EligibleCandidateFacts(cfg, s, playerId, me, window, c);
    }
    assert SortedByRating(others) by {
      assert SortedByRating(eligible);
    }
  }

  /**
    What the on-demand path promises of a match member `c` other than the
    requester `me`: another identifier, a queue entry of the same region and
    mode, within the base difference of the requester and inside the window.
  */
  predicate AcceptedCandidate(cfg: MatcherConfig, s: StoreState, playerId: string, me: Player,
                              window: int, c: Player)
  {
    && c.id != playerId
    && c in s.queue
    && c.region == me.region && c.gameMode == me.gameMode
    && Abs(me.rating - c.rating) <= cfg.maxRatingDiff
    && me.rating - window <= c.rating <= me.rating + window
  }

  /** An eligible returned candidate is accepted. */
  lemma EligibleCandidateFacts(cfg: MatcherConfig, s: StoreState, playerId: string, me: Player,
                               window: int, c: Player)
    requires c in EligibleCandidates(cfg, playerId, me, CandidatesWithin(s, me, window))
    ensures AcceptedCandidate(cfg, s, playerId, me, window, c)
  {
    var cands := CandidatesWithin(s, me, window);
    assert c in cands && Eligible(cfg, playerId, me, c);
    assert WindowLow(me, window) <= c.rating <= WindowHigh(me, window);
  }

  /**
    When match writes fail the created match is lost: the save changes
    nothing, yet the members are still removed, so the requester's next call
    finds neither a saved match nor a record, gets PlayerNotFound, and writes
    nothing.
  */
  lemma FindMatchLostWhenWritesFail(cfg: MatcherConfig, s: StoreState, playerId: string,
                                    waitTime: nat, matchId: string, createdAt: int,
                                    rangeReadsFail': bool, waitTime': nat, matchId': string, createdAt': int)
    requires WellFormed(s)
    requires playerId !in s.matches
    requires FindMatchPlan(cfg, s, false, playerId, waitTime, matchId, createdAt).result.Success?
    ensures var first := FindMatchPlan(cfg, s, false, playerId, waitTime, matchId, createdAt);
            var s' := ApplyAll(s, first.ops, true);
            FindMatchPlan(cfg, s', rangeReadsFail', playerId, waitTime', matchId', createdAt')
              == FindPlan(Failure(PlayerNotFound), [])
  {
    var first := FindMatchPlan(cfg, s, false, playerId, waitTime, matchId, createdAt);
    var m := first.result.value;
    FindMatchCreatesMatch(cfg, s, playerId, waitTime, matchId, createdAt);
    assert m.players[0] == s.players[playerId] && m.players[0] in m.players;
    MatchOpsUnkeyMembers(s, m, true);
    FailedWritesKeepMatches(s, first.ops);
    FindMatchMissingPlayer(cfg, ApplyAll(s, first.ops, true), rangeReadsFail', playerId, waitTime', matchId', createdAt');
  }

  /** Every FindMatch call writes a match before any removal, and only a created match causes writes. */
  lemma FindMatchWritesOrdered(cfg: MatcherConfig, s: StoreState, rangeReadsFail: bool, playerId: string,
                               waitTime: nat, matchId: string, createdAt: int)
    ensures var plan := FindMatchPlan(cfg, s, rangeReadsFail, playerId, waitTime, matchId, createdAt);
            SavedBeforeRemoved(plan.ops)
            && (plan.ops != [] <==> plan.result.Success? && playerId !in s.matches)
  {
    var plan := FindMatchPlan(cfg, s, rangeReadsFail, playerId, waitTime, matchId, createdAt);
    if plan.ops != [] {
      MatchOpsSavedFirst(plan.result.value);
    }
  }

  /**
    Re-query is idempotent: after a call that returned a match, and unless
    match writes fail, a second call for the same player returns the identical
    match and writes nothing.
  */
  lemma FindMatchIdempotent(cfg: MatcherConfig, s: StoreState, rangeReadsFail: bool, playerId: string,
                            waitTime: nat, matchId: string, createdAt: int,
                            waitTime': nat, matchId': string, createdAt': int)
    requires WellFormed(s)
    requires FindMatchPlan(cfg, s, rangeReadsFail, playerId, waitTime, matchId, createdAt).result.Success?
    ensures var first := FindMatchPlan(cfg, s, rangeReadsFail, playerId, waitTime, matchId, createdAt);
            var s' := ApplyAll(s, first.ops, false);
            FindMatchPlan(cfg, s', rangeReadsFail, playerId, waitTime', matchId', createdAt')
              == FindPlan(first.result, [])
  {
    var first := FindMatchPlan(cfg, s, rangeReadsFail, playerId, waitTime, matchId, createdAt);
    if playerId !in s.matches {
      var m := first.result.value;
      FindMatchCreatesMatch(cfg, s, playerId, waitTime, matchId, createdAt);
      assert m.players[0] == s.players[playerId];
      MatchOpsRecordMatch(s, m, false);
      assert m.players[0] in m.players;
    }
  }

  /** Within the first 30 seconds the query for the 1500 player returns both queued "1v1" players. */
  lemma PairCandidates(s: StoreState, a: Player, b: Player, waitTime: nat)
    requires a == Player("a", 1500, "EU", "1v1", 0, 1) && b == Player("b", 1550, "EU", "1v1", 0, 1)
    requires s.queue == [a, b] && waitTime < 30 * NanosPerSecond
    ensures CandidatesFor(DefaultMatcherConfig(), s, a, waitTime) == [a, b]
  {
    assert CalculateRatingRange(DefaultMatcherConfig(), waitTime) == 200;
    assert [a, b][1..] == [b];
    assert [b][1..] == [];
    assert Partition([b], "EU", "1v1") == [b] + Partition([], "EU", "1v1");
    assert Partition([a, b], "EU", "1v1") == [a] + Partition([b], "EU", "1v1");
    assert RatedWithin([b], 1300, 1700) == [b] + RatedWithin([], 1300, 1700);
    assert RatedWithin([a, b], 1300, 1700) == [a] + RatedWithin([b], 1300, 1700);
    assert Take([a, b], 4) == [a, b];
    assert RatedWithin(Partition([a, b], "EU", "1v1"), 1300, 1700) == [a, b];
    assert RangeQuery([a, b], "EU", "1v1", 1300, 1700, 4) == [a, b];
  }

  /**
    With the defaults, an EU "1v1" player rated 1500 and another rated 1550
    asking within the first 30 seconds are matched together, the requester first.
  */
  lemma FindMatchPairsTwoQueuedPlayers(waitTime: nat, matchId: string, createdAt: int)
    requires waitTime < 30 * NanosPerSecond
    ensures var a := Player("a", 1500, "EU", "1v1", 0, 1);
            var b := Player("b", 1550, "EU", "1v1", 0, 1);
            var s := StoreState([a, b], map["a" := a, "b" := b], map[]);
            FindMatchPlan(DefaultMatcherConfig(), s, false, "a", waitTime, matchId, createdAt).result
              == Success(Match(matchId, [a, b], createdAt))
  {
    var cfg := DefaultMatcherConfig();
    var a := Player("a", 1500, "EU", "1v1", 0, 1);
    var b := Player("b", 1550, "EU", "1v1", 0, 1);
    var s := StoreState([a, b], map["a" := a, "b" := b], map[]);
    PairCandidates(s, a, b, waitTime);
    PairGathers(a, b);
  }

  /** The greedy scan for the player rated 1500 over both entries skips themself and takes 1550. */
  lemma PairGathers(a: Player, b: Player)
    requires a == Player("a", 1500, "EU", "1v1", 0, 1) && b == Player("b", 1550, "EU", "1v1", 0, 1)
    ensures Gather(DefaultMatcherConfig(), "a", a, [a, b], 2, [a]) == [a, b]
  {
    var cfg := DefaultMatcherConfig();
    assert [a, b][1..] == [b];
    assert IsCompatible(cfg, a, b) && [a] + [b] == [a, b];
    assert Gather(cfg, "a", a, [b], 2, [a]) == [a, b];
  }
}
