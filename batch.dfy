/**
  Batch matching (ProcessQueue in service/matcher.go): fetch up to 100 queued
  players of one region and mode, and grow a group around each player not yet
  used, taking in scan order every unused player compatible with that anchor
  until the group is full. A full group becomes a match that is saved and whose
  members are removed; a group that stays short releases every player it marked.
*/
module Batch {
  import opened Wrappers
  import opened Models
  import opened Policy
  import opened Store

  /** The most players one pass fetches. */
  const FetchLimit: nat := 100
  /** The upper rating bound of the fetch: the largest 64-bit integer. */
  const MaxInt: int := 0x7fff_ffff_ffff_ffff

  /** A full group: the index of its anchor in the fetched list, and its members, anchor first. */
  datatype Group = Group(anchor: nat, members: seq<Player>)

  /** What one ProcessQueue call returns and the store writes it makes, in order. */
  datatype BatchPlan = BatchPlan(result: Outcome<StoreError>, ops: seq<StoreOp>)

  /**
    The inner scan from index `j`: append each player whose identifier is not
    in `used` and who is compatible with the anchor `group[0]`, marking it
    used, until the group holds `size` players or the list ends. Yields the
    group and the marks.
  */
  function Grow(cfg: MatcherConfig, players: seq<Player>, used: set<string>,
                group: seq<Player>, j: nat, size: nat): (seq<Player>, set<string>)
    requires |group| > 0
    decreases |players| - j
  {
    if j >= |players| || |group| >= size then (group, used)
    else if players[j].id in used then Grow(cfg, players, used, group, j + 1, size)
    else if IsCompatible(cfg, group[0], players[j]) then
      Grow(cfg, players, used + {players[j].id}, group + [players[j]], j + 1, size)
    else Grow(cfg, players, used, group, j + 1, size)
  }

  /**
    The outer scan from anchor index `i` with marks `used`: the full groups it
    forms, in the order they are formed.
  */
  function Cluster(cfg: MatcherConfig, players: seq<Player>, size: nat, i: nat, used: set<string>): seq<Group>
    decreases |players| - i
  {
    if i >= |players| then []
    else if players[i].id in used then Cluster(cfg, players, size, i + 1, used)
    else
      var (g, u) := Grow(cfg, players, used + {players[i].id}, [players[i]], 0, size);
      if |g| >= size then [Group(i, g)] + Cluster(cfg, players, size, i + 1, u)
      else Cluster(cfg, players, size, i + 1, u - IdsOf(g))
  }

  /** The players one pass fetches for a region and mode: ratings 0 to MaxInt, at most 100. */
  function Fetched(s: StoreState, region: string, gameMode: string): seq<Player> {
    RangeQuery(s.queue, region, gameMode, 0, MaxInt, FetchLimit)
  }

  /** The groups one pass forms: none when fewer players are fetched than a match needs. */
  function BatchGroups(cfg: MatcherConfig, s: StoreState, region: string, gameMode: string): seq<Group> {
    var players := Fetched(s, region, gameMode);
    var size := GetPlayersPerMatch(gameMode);
    if |players| < size then [] else Cluster(cfg, players, size, 0, {})
  }

  /** The match made of group `k`; the identifier and creation time stand for the k-th clock reading. */
  function GroupMatch(gs: seq<Group>, k: nat, matchId: nat -> string, createdAt: nat -> int): Match
    requires k < |gs|
  {
    Match(matchId(k), gs[k].members, createdAt(k))
  }

  /** The writes for the groups, in order: for each, save its match, then remove its members. */
  function BatchOps(gs: seq<Group>, matchId: nat -> string, createdAt: nat -> int): seq<StoreOp>
    decreases |gs|
  {
    if gs == [] then []
    else BatchOps(gs[..|gs| - 1], matchId, createdAt) + MatchOps(GroupMatch(gs, |gs| - 1, matchId, createdAt))
  }

  lemma BatchOpsAppend(gs: seq<Group>, g: Group, matchId: nat -> string, createdAt: nat -> int)
    ensures BatchOps(gs + [g], matchId, createdAt)
         == BatchOps(gs, matchId, createdAt) + MatchOps(Match(matchId(|gs|), g.members, createdAt(|gs|)))
  {
    assert (gs + [g])[..|gs|] == gs;
  }

  /** One ProcessQueue call against store state `s`: its result and the writes it makes. */
  function ProcessPlan(cfg: MatcherConfig, s: StoreState, rangeReadsFail: bool, region: string,
                       gameMode: string, matchId: nat -> string, createdAt: nat -> int): BatchPlan
  {
    if rangeReadsFail then BatchPlan(Fail(Unavailable), [])
    else BatchPlan(Pass, BatchOps(BatchGroups(cfg, s, region, gameMode), matchId, createdAt))
  }

  /**
    The inner scan keeps the group it starts from, never grows it past `size`,
    and adds only unused players of the list, each compatible with the anchor
    and with an identifier of its own, marking exactly those.
  */
  lemma {:induction false} GrowShape(cfg: MatcherConfig, players: seq<Player>, used: set<string>,
                                     group: seq<Player>, j: nat, size: nat)
    requires 1 <= |group| <= size
    ensures var (g, u) := Grow(cfg, players, used, group, j, size);
            && |group| <= |g| <= size
            && g[..|group|] == group
            && u == used + IdsOf(g[|group|..])
            && DistinctIds(g[|group|..])
            && forall t :: |group| <= t < |g| ==>
                 g[t] in players && g[t].id !in used && IsCompatible(cfg, group[0], g[t])
    decreases |players| - j
  {
    if j >= |players| || |group| >= size {
      assert group[|group|..] == [];
    } else if players[j].id in used || !IsCompatible(cfg, group[0], players[j]) {
      GrowShape(cfg, players, used, group, j + 1, size);
    } else {
      var x := players[j];
      GrowShape(cfg, players, used + {x.id}, group + [x], j + 1, size);
      var (g, u) := Grow(cfg, players, used + {x.id}, group + [x], j + 1, size);
      ExtendFacts(group, x, g, used);
      assert g[|group|] == x by {
        assert g[..|group| + 1][|group|] == x;
      }
    }
  }

  /** Sequence facts for a group that grew by `x` and then by fresh players. */
  lemma ExtendFacts(group: seq<Player>, x: Player, g: seq<Player>, used: set<string>)
    requires |group| + 1 <= |g| && g[..|group| + 1] == group + [x]
    requires DistinctIds(g[|group| + 1..])
    requires forall t :: |group| + 1 <= t < |g| ==> g[t].id !in used + {x.id}
    ensures g[..|group|] == group
    ensures IdsOf(g[|group|..]) == {x.id} + IdsOf(g[|group| + 1..])
    ensures DistinctIds(g[|group|..])
  {
    assert g[..|group|] == g[..|group| + 1][..|group|];
    var tail := g[|group| + 1..];
    assert g[|group|..] == [x] + tail by {
      assert g[|group|] == g[..|group| + 1][|group|];
    }
    forall t | 0 <= t < |tail| ensures tail[t].id !in used + {x.id} {
      assert tail[t] == g[|group| + 1 + t];
    }
    IdsAvoid(tail, used + {x.id});
    ConsIds(x, tail);
  }

  /**
    A group attempt that stays short gives back every mark it made: after
    releasing its members the marks are exactly those before the attempt.
  */
  lemma ReleaseRestoresUsed(cfg: MatcherConfig, players: seq<Player>, used: set<string>, anchor: Player, size: nat)
    requires anchor.id !in used && size >= 1
    ensures var (g, u) := Grow(cfg, players, used + {anchor.id}, [anchor], 0, size);
            u - IdsOf(g) == used
  {
    GrowShape(cfg, players, used + {anchor.id}, [anchor], 0, size);
    var (g, u) := Grow(cfg, players, used + {anchor.id}, [anchor], 0, size);
    assert g == [anchor] + g[1..] by {
      assert g[..1] == [anchor];
    }
    assert IdsOf(g) == {anchor.id} + IdsOf(g[1..]) by {
      forall p | p in g ensures p == anchor || p in g[1..] { }
    }
    forall id | id in IdsOf(g[1..]) ensures id !in used {
      var p :| p in g[1..] && p.id == id;
      var t :| 0 <= t < |g[1..]| && g[1..][t] == p;
      assert g[t + 1] == p;
    }
  }

  /** A full group of the fetched list: anchored at its index, compatible with the anchor, no identifier twice. */
  predicate GroupOk(cfg: MatcherConfig, players: seq<Player>, size: nat, gr: Group) {
    && 0 < |gr.members| == size
    && gr.anchor < |players|
    && gr.members[0] == players[gr.anchor]
    && DistinctIds(gr.members)
    && (forall t :: 0 <= t < |gr.members| ==> gr.members[t] in players)
    && (forall t :: 1 <= t < |gr.members| ==> IsCompatible(cfg, gr.members[0], gr.members[t]))
  }

  /** No identifier appears in two groups, and the anchors come in increasing index order. */
  predicate GroupsDisjoint(gs: seq<Group>) {
    forall k1, k2 :: 0 <= k1 < k2 < |gs| ==>
      gs[k1].anchor < gs[k2].anchor && IdsOf(gs[k1].members) !! IdsOf(gs[k2].members)
  }

  /**
    One group attempt from an unmarked anchor: the group starts with the
    anchor, never exceeds `size`, marks exactly its members, none of them
    marked before; a group that fills is a valid group anchored there.
  */
  lemma {:induction false} FullGroupOk(cfg: MatcherConfig, players: seq<Player>, used: set<string>, i: nat, size: nat)
    requires i < |players| && players[i].id !in used && size >= 1
    ensures var (g, u) := Grow(cfg, players, used + {players[i].id}, [players[i]], 0, size);
            && 1 <= |g| <= size
            && g[0] == players[i]
            && u == used + IdsOf(g)
            && IdsOf(g) !! used
            && (|g| == size ==> GroupOk(cfg, players, size, Group(i, g)))
  {
    var a := players[i];
    var marked := used + {a.id};
    GrowShape(cfg, players, marked, [a], 0, size);
    var (g, u) := Grow(cfg, players, marked, [a], 0, size);
    var tail := g[1..];
    assert g == [a] + tail by {
      assert g[..1] == [a];
    }
    forall t | 0 <= t < |tail| ensures tail[t].id !in marked {
      assert tail[t] == g[t + 1];
    }
    IdsAvoid(tail, marked);
    ConsIds(a, tail);
  }

  /**
    Every group the outer scan forms from index `i` is full, anchored at an
    index from `i` on and disjoint from the marks it started with; the groups
    are pairwise disjoint with increasing anchors.
  */
  lemma {:induction false} ClusterShape(cfg: MatcherConfig, players: seq<Player>, size: nat, i: nat, used: set<string>)
    requires size >= 1
    ensures var gs := Cluster(cfg, players, size, i, used);
            && GroupsDisjoint(gs)
            && forall k :: 0 <= k < |gs| ==>
                 GroupOk(cfg, players, size, gs[k]) && i <= gs[k].anchor && IdsOf(gs[k].members) !! used
    decreases |players| - i
  {
    if i >= |players| {
    } else if players[i].id in used {
      ClusterShape(cfg, players, size, i + 1, used);
    } else {
      var a := players[i];
      FullGroupOk(cfg, players, used, i, size);
      var (g, u) := Grow(cfg, players, used + {a.id}, [a], 0, size);
      if |g| >= size {
        ClusterShape(cfg, players, size, i + 1, u);
        PrependGroup(cfg, players, size, i, used, Group(i, g), Cluster(cfg, players, size, i + 1, u));
      } else {
        ReleaseRestoresUsed(cfg, players, used, a, size);
        ClusterShape(cfg, players, size, i + 1, used);
      }
    }
  }

  /**
    A full group anchored at `i` whose members avoid `used`, in front of
    groups anchored after `i` whose members avoid `used` and the group's
    members: the combined groups keep the outer scan's shape.
  */
  lemma PrependGroup(cfg: MatcherConfig, players: seq<Player>, size: nat, i: nat, used: set<string>,
                     gr: Group, rest: seq<Group>)
    requires GroupOk(cfg, players, size, gr) && gr.anchor == i && IdsOf(gr.members) !! used
    requires GroupsDisjoint(rest)
    requires forall k :: 0 <= k < |rest| ==>
               GroupOk(cfg, players, size, rest[k]) && i + 1 <= rest[k].anchor
               && IdsOf(rest[k].members) !! used + IdsOf(gr.members)
    ensures var gs := [gr] + rest;
            && GroupsDisjoint(gs)
            && forall k :: 0 <= k < |gs| ==>
                 GroupOk(cfg, players, size, gs[k]) && i <= gs[k].anchor && IdsOf(gs[k].members) !! used
  {
    var gs := [gr] + rest;
    forall k | 0 <= k < |gs|
      ensures GroupOk(cfg, players, size, gs[k]) && i <= gs[k].anchor && IdsOf(gs[k].members) !! used
    {
      if k > 0 { assert gs[k] == rest[k - 1]; }
    }
    forall k1, k2 | 0 <= k1 < k2 < |gs|
      ensures gs[k1].anchor < gs[k2].anchor && IdsOf(gs[k1].members) !! IdsOf(gs[k2].members)
    {
      assert gs[k2] == rest[k2 - 1];
      if k1 > 0 { assert gs[k1] == rest[k1 - 1]; }
    }
  }

  /** Every removal in a pass comes after the save of a match holding that player. */
  lemma {:induction false} BatchOpsOrdered(gs: seq<Group>, matchId: nat -> string, createdAt: nat -> int)
    ensures SavedBeforeRemoved(BatchOps(gs, matchId, createdAt))
    decreases |gs|
  {
    if gs != [] {
      var init := gs[..|gs| - 1];
      var m := GroupMatch(gs, |gs| - 1, matchId, createdAt);
      BatchOpsOrdered(init, matchId, createdAt);
      MatchOpsSavedFirst(m);
      SavedBeforeRemovedConcat(BatchOps(init, matchId, createdAt), MatchOps(m));
    }
  }

  /**
    In state `after`, no member of any group keeps a player record, and,
    unless match writes fail, each member's saved match is the match of its
    own group.
  */
  predicate MembersRecorded(after: StoreState, gs: seq<Group>, matchId: nat -> string,
                            createdAt: nat -> int, fail: bool) {
    forall k, t :: 0 <= k < |gs| && 0 <= t < |gs[k].members| ==>
      && gs[k].members[t].id !in after.players
      && (!fail ==> MatchOf(after, gs[k].members[t].id) == Some(GroupMatch(gs, k, matchId, createdAt)))
  }

  /** The writes for disjoint groups leave every member recorded in the match of their group. */
  lemma {:induction false} BatchRecordsGroups(s: StoreState, gs: seq<Group>, matchId: nat -> string,
                                              createdAt: nat -> int, fail: bool)
    requires GroupsDisjoint(gs)
    ensures MembersRecorded(ApplyAll(s, BatchOps(gs, matchId, createdAt), fail), gs, matchId, createdAt, fail)
    decreases |gs|
  {
    if gs != [] {
      var init := gs[..|gs| - 1];
      var m := GroupMatch(gs, |gs| - 1, matchId, createdAt);
      assert GroupsDisjoint(init) by {
        forall k1, k2 | 0 <= k1 < k2 < |init|
          ensures init[k1].anchor < init[k2].anchor && IdsOf(init[k1].members) !! IdsOf(init[k2].members)
        {
          assert init[k1] == gs[k1] && init[k2] == gs[k2];
        }
      }
      BatchRecordsGroups(s, init, matchId, createdAt, fail);
      ApplyAllConcat(s, BatchOps(init, matchId, createdAt), MatchOps(m), fail);
      RecordLastGroup(ApplyAll(s, BatchOps(init, matchId, createdAt), fail), gs, matchId, createdAt, fail);
    }
  }

  /** Recording the last of disjoint groups keeps the earlier groups recorded and records the last. */
  lemma RecordLastGroup(mid: StoreState, gs: seq<Group>, matchId: nat -> string, createdAt: nat -> int, fail: bool)
    requires |gs| > 0 && GroupsDisjoint(gs)
    requires MembersRecorded(mid, gs[..|gs| - 1], matchId, createdAt, fail)
    ensures MembersRecorded(ApplyAll(mid, MatchOps(GroupMatch(gs, |gs| - 1, matchId, createdAt)), fail),
                            gs, matchId, createdAt, fail)
  {
    var n := |gs| - 1;
    var init := gs[..n];
    var m := GroupMatch(gs, n, matchId, createdAt);
    var after := ApplyAll(mid, MatchOps(m), fail);
    MatchOpsUnkeyMembers(mid, m, fail);
    if !fail {
      MatchOpsRecordMatch(mid, m, fail);
    }
    forall k, t | 0 <= k < |gs| && 0 <= t < |gs[k].members|
      ensures gs[k].members[t].id !in after.players
      ensures !fail ==> MatchOf(after, gs[k].members[t].id) == Some(GroupMatch(gs, k, matchId, createdAt))
    {
      var p := gs[k].members[t];
      if k < n {
        assert init[k] == gs[k];
        assert p.id in IdsOf(gs[k].members);
        LaterMatchKeeps(mid, m, fail, p.id, GroupMatch(init, k, matchId, createdAt));
      } else {
        assert p in m.players;
      }
    }
  }

  /** A later match's writes keep the state of a player outside it. */
  lemma LaterMatchKeeps(s: StoreState, m: Match, fail: bool, id: string, own: Match)
    requires id !in IdsOf(m.players) && id !in s.players
    requires !fail ==> MatchOf(s, id) == Some(own)
    ensures id !in ApplyAll(s, MatchOps(m), fail).players
    ensures !fail ==> MatchOf(ApplyAll(s, MatchOps(m), fail), id) == Some(own)
  {
    ApplyAllShrinksPlayers(s, MatchOps(m), fail);
    MatchOpsKeepOthers(s, m, fail, id);
  }

  /**
    A pass fails only when the range read fails, and then writes nothing; it
    also writes nothing when fewer players are fetched than a match needs.
  */
  lemma ProcessQueueOutcome(cfg: MatcherConfig, s: StoreState, rangeReadsFail: bool, region: string,
                            gameMode: string, matchId: nat -> string, createdAt: nat -> int)
    ensures var plan := ProcessPlan(cfg, s, rangeReadsFail, region, gameMode, matchId, createdAt);
            && (plan.result == Pass <==> !rangeReadsFail)
            && (rangeReadsFail ==> plan.result == Fail(Unavailable) && plan.ops == [])
            && (|Fetched(s, region, gameMode)| < GetPlayersPerMatch(gameMode) ==> plan.ops == [])
  {
  }

  /**
    Every group a pass forms has exactly the mode's match size, is anchored at
    a fetched player, holds queued players of the region and mode only, each
    compatible with the anchor and all with distinct identifiers; no player is
    in two groups and anchors come in fetch order.
  */
  lemma ProcessQueueGroupsValid(cfg: MatcherConfig, s: StoreState, region: string, gameMode: string)
    ensures var players := Fetched(s, region, gameMode);
            var gs := BatchGroups(cfg, s, region, gameMode);
            && GroupsDisjoint(gs)
            && forall k :: 0 <= k < |gs| ==>
                 && GroupOk(cfg, players, GetPlayersPerMatch(gameMode), gs[k])
                 && forall t :: 0 <= t < |gs[k].members| ==>
                      var p := gs[k].members[t];
                      p in s.queue && p.region == region && p.gameMode == gameMode && 0 <= p.rating <= MaxInt
  {
    var players := Fetched(s, region, gameMode);
    var size := GetPlayersPerMatch(gameMode);
    if |players| >= size {
      ClusterShape(cfg, players, size, 0, {});
    }
  }

  /**
    After a successful pass no member of a formed group is left with a player
    record, and, unless match writes fail, each member's saved match is the
    match made of their group.
  */
  lemma ProcessQueueRecordsMatches(cfg: MatcherConfig, s: StoreState, region: string, gameMode: string,
                                   matchId: nat -> string, createdAt: nat -> int, fail: bool)
    ensures var gs := BatchGroups(cfg, s, region, gameMode);
            var after := ApplyAll(s, ProcessPlan(cfg, s, false, region, gameMode, matchId, createdAt).ops, fail);
            forall k, t :: 0 <= k < |gs| && 0 <= t < |gs[k].members| ==>
              && gs[k].members[t].id !in after.players
              && (!fail ==> MatchOf(after, gs[k].members[t].id) == Some(GroupMatch(gs, k, matchId, createdAt)))
  {
    ProcessQueueGroupsValid(cfg, s, region, gameMode);
    BatchRecordsGroups(s, BatchGroups(cfg, s, region, gameMode), matchId, createdAt, fail);
  }

  /** The writes of a pass save each match before removing any of its players. */
  lemma ProcessQueueWritesOrdered(cfg: MatcherConfig, s: StoreState, rangeReadsFail: bool, region: string,
                                  gameMode: string, matchId: nat -> string, createdAt: nat -> int)
    ensures SavedBeforeRemoved(ProcessPlan(cfg, s, rangeReadsFail, region, gameMode, matchId, createdAt).ops)
  {
    BatchOpsOrdered(BatchGroups(cfg, s, region, gameMode), matchId, createdAt);
  }

  /** The EU "1v1" players of the scenario below: ratings 1500, 1550 and 1900. */
  function ScenarioQueue(): seq<Player> {
    [Player("a", 1500, "EU", "1v1", 0, 1), Player("b", 1550, "EU", "1v1", 0, 1), Player("c", 1900, "EU", "1v1", 0, 1)]
  }

  /** The scenario's fetch returns the whole queue. */
  lemma ScenarioFetch(s: StoreState)
    requires s.queue == ScenarioQueue()
    ensures Fetched(s, "EU", "1v1") == ScenarioQueue()
  {
    var ps := ScenarioQueue();
    var a, b, c := ps[0], ps[1], ps[2];
    assert ps[1..] == [b, c] && [b, c][1..] == [c] && [c][1..] == [];
    assert Partition([c], "EU", "1v1") == [c] + Partition([], "EU", "1v1");
    assert Partition([b, c], "EU", "1v1") == [b] + Partition([c], "EU", "1v1");
    assert Partition(ps, "EU", "1v1") == [a] + Partition([b, c], "EU", "1v1");
    assert Partition(ps, "EU", "1v1") == ps;
    assert RatedWithin([c], 0, MaxInt) == [c] + RatedWithin([], 0, MaxInt);
    assert RatedWithin([b, c], 0, MaxInt) == [b] + RatedWithin([c], 0, MaxInt);
    assert RatedWithin(ps, 0, MaxInt) == [a] + RatedWithin([b, c], 0, MaxInt);
    assert RatedWithin(ps, 0, MaxInt) == ps;
    assert Take(ps, FetchLimit) == ps;
  }

  /** In the scenario, the anchor rated 1500 is paired with 1550; the anchor rated 1900 stays short. */
  lemma ScenarioCluster()
    ensures var ps := ScenarioQueue();
            Cluster(DefaultMatcherConfig(), ps, 2, 0, {}) == [Group(0, [ps[0], ps[1]])]
  {
    var cfg := DefaultMatcherConfig();
    var ps := ScenarioQueue();
    var a, b, c := ps[0], ps[1], ps[2];
    assert IsCompatible(cfg, a, b);
    assert [a] + [b] == [a, b] && {"a"} + {"b"} == {"a", "b"} && "b" !in {"a"};
    assert Grow(cfg, ps, {"a", "b"}, [a, b], 2, 2) == ([a, b], {"a", "b"});
    assert Grow(cfg, ps, {"a"}, [a], 1, 2) == ([a, b], {"a", "b"});
    assert Grow(cfg, ps, {"a"}, [a], 0, 2) == ([a, b], {"a", "b"});
    var all := {"a", "b", "c"};
    assert Grow(cfg, ps, all, [c], 3, 2) == ([c], all);
    assert Grow(cfg, ps, all, [c], 2, 2) == ([c], all);
    assert Grow(cfg, ps, all, [c], 1, 2) == ([c], all);
    assert Grow(cfg, ps, all, [c], 0, 2) == ([c], all);
    assert IdsOf([c]) == {"c"};
    assert {"a", "b"} + {"c"} == all && all - {"c"} == {"a", "b"};
    assert Cluster(cfg, ps, 2, 3, {"a", "b"}) == [];
    assert Cluster(cfg, ps, 2, 2, {"a", "b"}) == [];
    assert Cluster(cfg, ps, 2, 1, {"a", "b"}) == [];
  }

  /**
    With the defaults, a "1v1" pass over EU players rated 1500, 1550 and 1900
    pairs the first two; the third finds no partner and stays queued. The
    pass saves the pair's match, then removes both.
  */
  lemma ProcessQueuePairsAndReleases(matchId: nat -> string, createdAt: nat -> int)
    ensures var a := Player("a", 1500, "EU", "1v1", 0, 1);
            var b := Player("b", 1550, "EU", "1v1", 0, 1);
            var c := Player("c", 1900, "EU", "1v1", 0, 1);
            var s := StoreState([a, b, c], map["a" := a, "b" := b, "c" := c], map[]);
            var m := Match(matchId(0), [a, b], createdAt(0));
            && BatchGroups(DefaultMatcherConfig(), s, "EU", "1v1") == [Group(0, [a, b])]
            && ProcessPlan(DefaultMatcherConfig(), s, false, "EU", "1v1", matchId, createdAt)
               == BatchPlan(Pass, [Save(m), Remove("a"), Remove("b")])
  {
    var a := Player("a", 1500, "EU", "1v1", 0, 1);
    var b := Player("b", 1550, "EU", "1v1", 0, 1);
    var c := Player("c", 1900, "EU", "1v1", 0, 1);
    var s := StoreState([a, b, c], map["a" := a, "b" := b, "c" := c], map[]);
    ScenarioGroups(s);
    ScenarioOps(a, b, matchId, createdAt);
  }

  /** The scenario's pass forms the one group of the players rated 1500 and 1550. */
  lemma ScenarioGroups(s: StoreState)
    requires s.queue == ScenarioQueue()
    ensures var ps := ScenarioQueue();
            BatchGroups(DefaultMatcherConfig(), s, "EU", "1v1") == [Group(0, [ps[0], ps[1]])]
  {
    ScenarioFetch(s);
    ScenarioCluster();
  }

  /** The writes for a single pair: save its match, then remove both players. */
  lemma ScenarioOps(a: Player, b: Player, matchId: nat -> string, createdAt: nat -> int)
    ensures var m := Match(matchId(0), [a, b], createdAt(0));
            BatchOps([Group(0, [a, b])], matchId, createdAt) == [Save(m), Remove(a.id), Remove(b.id)]
  {
    var m := Match(matchId(0), [a, b], createdAt(0));
    assert MatchOps(m) == [Save(m), Remove(a.id), Remove(b.id)];
    assert BatchOps([Group(0, [a, b])], matchId, createdAt) == BatchOps([], matchId, createdAt) + MatchOps(m);
  }
}
