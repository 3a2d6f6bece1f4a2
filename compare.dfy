/** Head-to-head comparison (cogs/compare.py): the two-sided vote, the per-metric winners
    and overall score of `versus_stats`, and the contestant count of `battle_royale`. */
module Compare {
  import opened Wrappers
  import opened Text
  import opened Slices

  // ---- Voting ----

  /** Both vote sets after `user` votes for the left item. */
  function VoteLeftSets(left: set<int>, right: set<int>, user: int): (set<int>, set<int>)
  {
    (left + {user}, right - {user})
  }

  /** Both vote sets after `user` votes for the right item. */
  function VoteRightSets(left: set<int>, right: set<int>, user: int): (set<int>, set<int>)
  {
    (left - {user}, right + {user})
  }

  /** A left vote puts the user on the left only, keeps the sides disjoint, changes no other
      user's vote, and is idempotent. */
  lemma VoteLeftProperties(left: set<int>, right: set<int>, user: int)
    requires left * right == {}
    ensures var (l, r) := VoteLeftSets(left, right, user);
      && user in l && user !in r
      && l * r == {}
      && (forall u :: u != user ==> (u in l <==> u in left) && (u in r <==> u in right))
      && VoteLeftSets(l, r, user) == (l, r)
  {
    var (l, r) := VoteLeftSets(left, right, user);
    assert l + {user} == l && r - {user} == r;
  }

  /** The two counts together are the distinct voters so far, this user included: a
      user who switches sides is not counted twice. */
  lemma VoteLeftCount(left: set<int>, right: set<int>, user: int)
    requires left * right == {}
    ensures var (l, r) := VoteLeftSets(left, right, user);
      |l| + |r| == |left + right + {user}|
  {
    var (l, r) := VoteLeftSets(left, right, user);
    assert l * r == {};
    DisjointCount(l, r);
    assert l + r == left + right + {user};
  }

  /** The mirror image for the right button. */
  lemma VoteRightProperties(left: set<int>, right: set<int>, user: int)
    requires left * right == {}
    ensures var (l, r) := VoteRightSets(left, right, user);
      && user in r && user !in l
      && l * r == {}
      && (forall u :: u != user ==> (u in l <==> u in left) && (u in r <==> u in right))
      && VoteRightSets(l, r, user) == (l, r)
  {
    var (l, r) := VoteRightSets(left, right, user);
    assert l - {user} == l && r + {user} == r;
  }

  lemma VoteRightCount(left: set<int>, right: set<int>, user: int)
    requires left * right == {}
    ensures var (l, r) := VoteRightSets(left, right, user);
      |l| + |r| == |left + right + {user}|
  {
    var (l, r) := VoteRightSets(left, right, user);
    assert l * r == {};
    DisjointCount(l, r);
    assert l + r == left + right + {user};
  }

  lemma DisjointCount(a: set<int>, b: set<int>)
    requires a * b == {}
    ensures |a + b| == |a| + |b|
  {
    assert |a * b| == 0;
  }

  function VoteLabel(side: string, count: nat): string
  {
    "Vote " + side + " (" + NatToString(count) + ")"
  }

  /** `CompareView`: the two vote sets and the two button labels. */
  class CompareView {
    var left: set<int>
    var right: set<int>
    var leftLabel: string
    var rightLabel: string
    var stopped: bool

    ghost predicate Valid()
      reads this
    {
      left * right == {}
    }

    constructor ()
      ensures Valid() && left == {} && right == {} && !stopped
      ensures leftLabel == "Vote Left" && rightLabel == "Vote Right"
    {
      left := {};
      right := {};
      leftLabel := "Vote Left";
      rightLabel := "Vote Right";
      stopped := false;
    }

    /** `vote_left`: the user leaves the right set and joins the left one; both labels show
        the new set sizes. */
    method VoteLeft(user: int)
      requires Valid()
      modifies this
      ensures Valid()
      ensures (left, right) == VoteLeftSets(old(left), old(right), user)
      ensures leftLabel == VoteLabel("Left", |left|) && rightLabel == VoteLabel("Right", |right|)
      ensures stopped == old(stopped)
    {
      right := right - {user};
      left := left + {user};
      leftLabel := VoteLabel("Left", |left|);
      rightLabel := VoteLabel("Right", |right|);
    }

    /** `vote_right`. */
    method VoteRight(user: int)
      requires Valid()
      modifies this
      ensures Valid()
      ensures (left, right) == VoteRightSets(old(left), old(right), user)
      ensures leftLabel == VoteLabel("Left", |left|) && rightLabel == VoteLabel("Right", |right|)
      ensures stopped == old(stopped)
    {
      left := left - {user};
      right := right + {user};
      leftLabel := VoteLabel("Left", |left|);
      rightLabel := VoteLabel("Right", |right|);
    }

    /** `end_poll`. */
    method EndPoll()
      modifies this
      ensures stopped && left == old(left) && right == old(right)
    {
      stopped := true;
    }
  }

  // ---- versus_stats ----

  datatype Side = LeftSide | RightSide | Tie

  /** `"LEFT" if a > b else "RIGHT" if b > a else "TIE"`. */
  function Winner(a: real, b: real): (w: Side)
    ensures w == LeftSide <==> a > b
    ensures w == RightSide <==> b > a
    ensures w == Tie <==> a == b
  {
    if a > b then LeftSide else if b > a then RightSide else Tie
  }

  /** The compared figures of one title; a missing field counts as 0. */
  datatype Stats = Stats(rating: real, popularity: real, voteCount: int)

  function Point(w: Side, s: Side): nat
  {
    if w == s then 1 else 0
  }

  /** The winners of rating, popularity and vote count. */
  function Winners(a: Stats, b: Stats): seq<Side>
  {
    [Winner(a.rating, b.rating), Winner(a.popularity, b.popularity),
     Winner(a.voteCount as real, b.voteCount as real)]
  }

  /** `score1` and `score2`: the metrics won by each side. */
  function Scores(a: Stats, b: Stats): (nat, nat)
  {
    var w := Winners(a, b);
    (Point(w[0], LeftSide) + Point(w[1], LeftSide) + Point(w[2], LeftSide),
     Point(w[0], RightSide) + Point(w[1], RightSide) + Point(w[2], RightSide))
  }

  /** The overall verdict. */
  function Overall(a: Stats, b: Stats): Side
  {
    var (s1, s2) := Scores(a, b);
    if s1 > s2 then LeftSide else if s2 > s1 then RightSide else Tie
  }

  /** The overall line of the embed. */
  function OverallText(a: Stats, b: Stats, title1: string, title2: string): string
  {
    match Overall(a, b)
    case LeftSide => "\U{1F3C6} **" + title1 + "** wins!"
    case RightSide => "\U{1F3C6} **" + title2 + "** wins!"
    case Tie => "\U{1F91D} It's a tie!"
  }

  /** The scores count the metrics each side wins strictly, so together they are at most 3,
      the left score is 3 exactly when the left title wins every metric, and then it wins
      overall. */
  lemma ScoresBounded(a: Stats, b: Stats)
    ensures Scores(a, b).0 + Scores(a, b).1 <= 3
    ensures Scores(a, b).0 == 3 <==> a.rating > b.rating && a.popularity > b.popularity && a.voteCount > b.voteCount
    ensures a.rating > b.rating && a.popularity > b.popularity && a.voteCount > b.voteCount ==>
      Overall(a, b) == LeftSide
  {
    var w := Winners(a, b);
    assert forall i :: 0 <= i < 3 ==> Point(w[i], LeftSide) + Point(w[i], RightSide) <= 1;
  }

  /** Swapping the two titles swaps the scores and mirrors the verdict. */
  lemma OverallSymmetric(a: Stats, b: Stats)
    ensures Scores(b, a) == (Scores(a, b).1, Scores(a, b).0)
    ensures Overall(a, b) == LeftSide <==> Overall(b, a) == RightSide
    ensures Overall(a, b) == Tie <==> Overall(b, a) == Tie
  {
  }

  // ---- battle_royale ----

  const BattleRoyaleError: string := "\U{274C} Count must be between 2 and 10."

  /** The count check and the contestants taken from the popular list. */
  function BattleRoyale<M>(count: int, popular: seq<M>): (r: Result<seq<M>, string>)
    ensures r.Err? <==> count < 2 || count > 10
    ensures r.Err? ==> r.error == BattleRoyaleError
    ensures r.Ok? ==> r.value <= popular && |r.value| == if |popular| < count then |popular| else count
  {
    if count < 2 || count > 10 then Err(BattleRoyaleError) else Ok(Take(popular, count))
  }

  /** The rejection does not depend on what the popular list would have held: it comes
      before the fetch. */
  lemma BattleRoyaleRejectsBeforeFetch<M>(count: int, p1: seq<M>, p2: seq<M>)
    requires count < 2 || count > 10
    ensures BattleRoyale(count, p1) == BattleRoyale(count, p2)
  {
  }
}
