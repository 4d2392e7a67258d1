/**
  The records the matcher works on (models/player.go): a queued player and a
  created match, with the sequence helpers both matchers share.
*/
module Models {

  /** A queued player; `joinedAt` is a timestamp in nanoseconds, `playerLevel` is informational. */
  datatype Player = Player(
    id: string,
    rating: int,
    region: string,
    gameMode: string,
    joinedAt: int,
    playerLevel: int)

  /** A created match: an identifier, snapshots of the grouped players, a creation timestamp. */
  datatype Match = Match(matchId: string, players: seq<Player>, createdAt: int)

  /** The first `n` elements of `s`, or all of `s` when it is shorter. */
  function Take<T>(s: seq<T>, n: nat): (r: seq<T>)
    ensures r <= s
    ensures |r| == if |s| <= n then |s| else n
  {
    if |s| <= n then s else s[..n]
  }

  /** Taking from a list with one element in front takes that element and one fewer of the rest. */
  lemma TakeCons<T>(x: T, s: seq<T>, n: nat)
    requires n >= 1
    ensures Take([x] + s, n) == [x] + Take(s, n - 1)
  {
    if |s| > n - 1 {
      assert ([x] + s)[..n] == [x] + s[..n - 1];
    }
  }

  /** An element of a prefix is an element of the whole. */
  lemma PrefixMember<T>(r: seq<T>, s: seq<T>, x: T)
    requires r <= s && x in r
    ensures x in s
  {
    var t :| 0 <= t < |r| && r[t] == x;
    assert s[t] == x;
  }

  /** The identifiers of a sequence of players. */
  function IdsOf(ps: seq<Player>): set<string> {
    set p | p in ps :: p.id
  }

  /** No identifier occurs twice in `ps`. */
  predicate DistinctIds(ps: seq<Player>) {
    forall a, b :: 0 <= a < b < |ps| ==> ps[a].id != ps[b].id
  }

  /** A player in front of a list that does not hold its identifier keeps the identifiers distinct. */
  lemma ConsIds(x: Player, tail: seq<Player>)
    requires DistinctIds(tail) && x.id !in IdsOf(tail)
    ensures IdsOf([x] + tail) == {x.id} + IdsOf(tail)
    ensures DistinctIds([x] + tail)
  {
    var xs := [x] + tail;
    forall p | p in xs ensures p == x || p in tail { }
    forall a, b | 0 <= a < b < |xs| ensures xs[a].id != xs[b].id {
      assert xs[b] == tail[b - 1];
      if a > 0 { assert xs[a] == tail[a - 1]; }
    }
  }

  /** When no entry's identifier is in `ids`, the identifiers of the list avoid `ids`. */
  lemma IdsAvoid(ps: seq<Player>, ids: set<string>)
    requires forall t :: 0 <= t < |ps| ==> ps[t].id !in ids
    ensures IdsOf(ps) !! ids
  {
    forall id | id in IdsOf(ps) ensures id !in ids {
      var p :| p in ps && p.id == id;
      var t :| 0 <= t < |ps| && ps[t] == p;
    }
  }
}
