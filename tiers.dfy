/**
 * The relative tier classifier shared, as two identical copies, by the
 * ranking route and the popular-tiers route: every item of a category goes
 * to S, A, B, C or D by where its vote count lies between the category's
 * minimum and maximum.
 *
 * The source divides `(votes - min) / range` in floating point and compares
 * with 0.8, 0.6, 0.4 and 0.2. Here the comparison is done on integers
 * (`5 * (votes - min) >= 4 * range`, ...), and `TierOfIsScoreTier` proves it
 * equal to the comparison of the exact rational score with the same cut-offs.
 */
module Tiers {
  import opened Entities
  import opened DataStore

  datatype Tier = S | A | B | C | D

  /** S is the top tier (4), D the bottom one (0). */
  function Rank(t: Tier): nat {
    match t
    case S => 4
    case A => 3
    case B => 2
    case C => 1
    case D => 0
  }

  /** The five buckets of `tieredItems`. */
  datatype Buckets = Buckets(s: seq<Item>, a: seq<Item>, b: seq<Item>, c: seq<Item>, d: seq<Item>)

  function Bucket(bs: Buckets, t: Tier): seq<Item> {
    match t
    case S => bs.s
    case A => bs.a
    case B => bs.b
    case C => bs.c
    case D => bs.d
  }

  const NoBuckets := Buckets([], [], [], [], [])

  /** Total number of items in the five buckets. */
  function Size(bs: Buckets): nat {
    |bs.s| + |bs.a| + |bs.b| + |bs.c| + |bs.d|
  }

  /** `Math.max(...items.map(item => item.votes))`. */
  function MaxVotes(items: seq<Item>): (m: int)
    requires |items| > 0
    ensures forall k :: 0 <= k < |items| ==> items[k].votes <= m
    ensures exists k :: 0 <= k < |items| && items[k].votes == m
  {
    if |items| == 1 then items[0].votes
    else
      var rest := MaxVotes(items[1..]);
      assert forall k :: 1 <= k < |items| ==> items[k] == items[1..][k - 1];
      if items[0].votes >= rest then items[0].votes else rest
  }

  /** `Math.min(...items.map(item => item.votes))`. */
  function MinVotes(items: seq<Item>): (m: int)
    requires |items| > 0
    ensures forall k :: 0 <= k < |items| ==> m <= items[k].votes
    ensures exists k :: 0 <= k < |items| && items[k].votes == m
  {
    if |items| == 1 then items[0].votes
    else
      var rest := MinVotes(items[1..]);
      assert forall k :: 1 <= k < |items| ==> items[k] == items[1..][k - 1];
      if items[0].votes <= rest then items[0].votes else rest
  }

  /** `maxVotes - minVotes || 1`: the spread, or 1 when every count is the same. */
  function Range(lo: int, hi: int): (r: int)
    requires lo <= hi
    ensures r > 0
    ensures lo < hi ==> r == hi - lo
  {
    if hi - lo == 0 then 1 else hi - lo
  }

  /** The normalized score `(votes - minVotes) / range`, as an exact rational. */
  function NormalizedScore(votes: int, lo: int, range: int): real
    requires range > 0
  {
    (votes - lo) as real / range as real
  }

  /** The cut-offs of the source, first match wins: >=0.8 S, >=0.6 A, >=0.4 B, >=0.2 C, else D. */
  function TierOfScore(score: real): Tier {
    if score >= 0.8 then S
    else if score >= 0.6 then A
    else if score >= 0.4 then B
    else if score >= 0.2 then C
    else D
  }

  /** The same cut-offs on integers: `score >= k/5` is `5 * (votes - lo) >= k * range`. */
  function TierOf(votes: int, lo: int, range: int): Tier
    requires range > 0
  {
    var n := 5 * (votes - lo);
    if n >= 4 * range then S
    else if n >= 3 * range then A
    else if n >= 2 * range then B
    else if n >= range then C
    else D
  }

  /** The integer comparison is the rational one. */
  lemma TierOfIsScoreTier(votes: int, lo: int, range: int)
    requires range > 0
    ensures TierOf(votes, lo, range) == TierOfScore(NormalizedScore(votes, lo, range))
  {
    var x := NormalizedScore(votes, lo, range);
    var d := (votes - lo) as real;
    var r := range as real;
    assert x * r == d;
    assert x >= 0.8 <==> 5 * (votes - lo) >= 4 * range by { ScaleCompare(x, r, d, 0.8); }
    assert x >= 0.6 <==> 5 * (votes - lo) >= 3 * range by { ScaleCompare(x, r, d, 0.6); }
    assert x >= 0.4 <==> 5 * (votes - lo) >= 2 * range by { ScaleCompare(x, r, d, 0.4); }
    assert x >= 0.2 <==> 5 * (votes - lo) >= range by { ScaleCompare(x, r, d, 0.2); }
  }

  lemma ScaleCompare(x: real, r: real, d: real, c: real)
    requires r > 0.0 && x * r == d
    ensures x >= c <==> d >= c * r
  {
    if x >= c {
      assert x * r >= c * r;
    } else {
      assert x * r < c * r;
    }
  }

  /** More votes never give a lower tier. */
  lemma TierOfMonotone(v1: int, v2: int, lo: int, range: int)
    requires range > 0 && v1 <= v2
    ensures Rank(TierOf(v1, lo, range)) <= Rank(TierOf(v2, lo, range))
  {
  }

  /** `tieredItems[t].push(item)`. */
  function Put(bs: Buckets, t: Tier, item: Item): Buckets {
    match t
    case S => bs.(s := bs.s + [item])
    case A => bs.(a := bs.a + [item])
    case B => bs.(b := bs.b + [item])
    case C => bs.(c := bs.c + [item])
    case D => bs.(d := bs.d + [item])
  }

  /** One step of the route's loop: append `item` to the bucket of its tier. */
  function Push(bs: Buckets, item: Item, lo: int, range: int): Buckets
    requires range > 0
  {
    Put(bs, TierOf(item.votes, lo, range), item)
  }

  /** Every item pushed, in order, starting from five empty buckets. */
  function Fill(items: seq<Item>, lo: int, range: int): Buckets
    requires range > 0
  {
    if |items| == 0 then NoBuckets
    else Push(Fill(items[..|items| - 1], lo, range), items[|items| - 1], lo, range)
  }

  /**
   * The classification the route computes: five empty buckets for no items,
   * otherwise the buckets filled with the category's own minimum and range.
   */
  function Classify(items: seq<Item>): Buckets {
    if |items| == 0 then NoBuckets
    else
      var lo := MinVotes(items);
      Fill(items, lo, Range(lo, MaxVotes(items)))
  }

  /** The tier `item` gets within `items`. */
  function TierIn(items: seq<Item>, item: Item): Tier
    requires |items| > 0
  {
    var lo := MinVotes(items);
    TierOf(item.votes, lo, Range(lo, MaxVotes(items)))
  }

  /**
   * The route's loop: `items.forEach(item => { ...; tieredItems[tier].push(item) })`
   * after computing `maxVotes`, `minVotes` and `range` when the list is non-empty.
   */
  method ClassifyItems(items: seq<Item>) returns (bs: Buckets)
    ensures bs == Classify(items)
  {
    bs := NoBuckets;
    if |items| > 0 {
      var maxVotes := MaxVotes(items);
      var minVotes := MinVotes(items);
      var range := Range(minVotes, maxVotes);
      var i := 0;
      while i < |items|
        invariant 0 <= i <= |items|
        invariant bs == Fill(items[..i], minVotes, range)
      {
        var item := items[i];
        assert items[..i + 1][..i] == items[..i];
        var n := 5 * (item.votes - minVotes);
        if n >= 4 * range {
          bs := bs.(s := bs.s + [item]);
        } else if n >= 3 * range {
          bs := bs.(a := bs.a + [item]);
        } else if n >= 2 * range {
          bs := bs.(b := bs.b + [item]);
        } else if n >= range {
          bs := bs.(c := bs.c + [item]);
        } else {
          bs := bs.(d := bs.d + [item]);
        }
        i := i + 1;
      }
      assert items[..i] == items;
    }
  }

  // ---------------------------------------------------------------------
  // Properties of the classification

  /** The multiset of all five buckets. */
  function Contents(bs: Buckets): multiset<Item> {
    multiset(bs.s) + multiset(bs.a) + multiset(bs.b) + multiset(bs.c) + multiset(bs.d)
  }

  /** A push adds exactly one item, to bucket `t` and no other. */
  lemma PutFacts(bs: Buckets, t: Tier, item: Item)
    ensures Contents(Put(bs, t, item)) == Contents(bs) + multiset{item}
    ensures Size(Put(bs, t, item)) == Size(bs) + 1
  {
    var x := multiset{item};
    UnionMoves(multiset(bs.s), multiset(bs.a), multiset(bs.b), multiset(bs.c), multiset(bs.d), x);
    match t
    case S => AppendMultiset(bs.s, item);
    case A => AppendMultiset(bs.a, item);
    case B => AppendMultiset(bs.b, item);
    case C => AppendMultiset(bs.c, item);
    case D => AppendMultiset(bs.d, item);
  }

  /** Adding `x` to any one of five multisets adds it to their union. */
  lemma UnionMoves(s: multiset<Item>, a: multiset<Item>, b: multiset<Item>, c: multiset<Item>, d: multiset<Item>,
                   x: multiset<Item>)
    ensures (s + x) + a + b + c + d == s + a + b + c + d + x
    ensures s + (a + x) + b + c + d == s + a + b + c + d + x
    ensures s + a + (b + x) + c + d == s + a + b + c + d + x
    ensures s + a + b + (c + x) + d == s + a + b + c + d + x
    ensures s + a + b + c + (d + x) == s + a + b + c + d + x
  {
  }

  lemma AppendMultiset(s: seq<Item>, x: Item)
    ensures multiset(s + [x]) == multiset(s) + multiset{x} && |s + [x]| == |s| + 1
  {
  }

  /** Bucket `u` after a push to bucket `t`. */
  lemma PutBucket(bs: Buckets, t: Tier, item: Item, u: Tier)
    ensures Bucket(Put(bs, t, item), u) == Bucket(bs, u) + (if u == t then [item] else [])
  {
  }

  /** Filling puts every item once into the buckets: the contents are the list's. */
  lemma {:induction false} FillContents(items: seq<Item>, lo: int, range: int)
    requires range > 0
    ensures Contents(Fill(items, lo, range)) == multiset(items)
    ensures Size(Fill(items, lo, range)) == |items|
  {
    if |items| > 0 {
      var init := items[..|items| - 1];
      var last := items[|items| - 1];
      var t := TierOf(last.votes, lo, range);
      FillContents(init, lo, range);
      FillLast(items, lo, range, t);
      PutFacts(Fill(init, lo, range), t, last);
      SplitLast(items);
    }
  }

  /** A non-empty list is its prefix followed by its last item. */
  lemma SplitLast(items: seq<Item>)
    requires |items| > 0
    ensures multiset(items) == multiset(items[..|items| - 1]) + multiset{items[|items| - 1]}
    ensures items == items[..|items| - 1] + [items[|items| - 1]]
  {
    assert items == items[..|items| - 1] + [items[|items| - 1]];
  }

  /** `x` is in bucket `t` exactly when it is one of the items and its tier is `t`. */
  lemma {:induction false} FillMembers(items: seq<Item>, lo: int, range: int, t: Tier, x: Item)
    requires range > 0
    ensures x in Bucket(Fill(items, lo, range), t) <==> x in items && TierOf(x.votes, lo, range) == t
  {
    if |items| > 0 {
      var init := items[..|items| - 1];
      FillMembers(init, lo, range, t, x);
      PutBucket(Fill(init, lo, range), TierOf(items[|items| - 1].votes, lo, range), items[|items| - 1], t);
      SplitLast(items);
    }
  }

  /**
   * Every item lands in exactly one bucket, the one of its tier; the
   * buckets together hold the items exactly as often as the list does, so
   * their sizes sum to the number of items.
   */
  lemma ClassifyPartitions(items: seq<Item>)
    ensures Contents(Classify(items)) == multiset(items)
    ensures Size(Classify(items)) == |items|
    ensures |items| > 0 ==> forall x, t :: x in Bucket(Classify(items), t) <==> x in items && TierIn(items, x) == t
  {
    if |items| > 0 {
      var lo := MinVotes(items);
      var range := Range(lo, MaxVotes(items));
      FillContents(items, lo, range);
      forall x, t ensures x in Bucket(Classify(items), t) <==> x in items && TierIn(items, x) == t {
        FillMembers(items, lo, range, t, x);
      }
    }
  }

  /** No items: five empty buckets. */
  lemma ClassifyEmpty()
    ensures Classify([]) == NoBuckets && Size(Classify([])) == 0
  {
  }

  /** When every item has the same count, the bucket of that count's tier is the whole list and the others are empty. */
  lemma {:induction false} FillAllInOneTier(items: seq<Item>, lo: int, range: int, v: int, u: Tier)
    requires range > 0
    requires forall k :: 0 <= k < |items| ==> items[k].votes == v
    ensures Bucket(Fill(items, lo, range), u) == (if u == TierOf(v, lo, range) then items else [])
  {
    if |items| > 0 {
      var init := items[..|items| - 1];
      var last := items[|items| - 1];
      var t := TierOf(v, lo, range);
      PrefixVotes(items, init, v);
      FillAllInOneTier(init, lo, range, v, u);
      FillLast(items, lo, range, t);
      PutBucket(Fill(init, lo, range), t, last, u);
      SplitLast(items);
    }
  }

  /** Every count of the prefix is `v` when every count of the list is. */
  lemma PrefixVotes(items: seq<Item>, init: seq<Item>, v: int)
    requires |items| > 0 && init == items[..|items| - 1]
    requires forall k :: 0 <= k < |items| ==> items[k].votes == v
    ensures forall k :: 0 <= k < |init| ==> init[k].votes == v
  {
  }

  /** The last step of `Fill`, when the last item's tier is `t`. */
  lemma FillLast(items: seq<Item>, lo: int, range: int, t: Tier)
    requires range > 0 && |items| > 0
    requires TierOf(items[|items| - 1].votes, lo, range) == t
    ensures Fill(items, lo, range) == Put(Fill(items[..|items| - 1], lo, range), t, items[|items| - 1])
  {
  }

  /** All counts equal: the range falls back to 1 and every item is in D. */
  lemma ClassifyTied(items: seq<Item>)
    requires forall i, j :: 0 <= i < |items| && 0 <= j < |items| ==> items[i].votes == items[j].votes
    ensures Classify(items) == Buckets([], [], [], [], items)
  {
    if |items| > 0 {
      var lo := MinVotes(items);
      assert lo == MaxVotes(items);
      var bs := Classify(items);
      FillAllInOneTier(items, lo, 1, lo, S);
      FillAllInOneTier(items, lo, 1, lo, A);
      FillAllInOneTier(items, lo, 1, lo, B);
      FillAllInOneTier(items, lo, 1, lo, C);
      FillAllInOneTier(items, lo, 1, lo, D);
      assert bs.s == Bucket(bs, S) && bs.a == Bucket(bs, A) && bs.b == Bucket(bs, B) && bs.c == Bucket(bs, C);
    }
  }

  /** With at least two distinct counts, the top items are in S and the bottom items in D. */
  lemma ClassifyExtremes(items: seq<Item>)
    requires |items| > 0 && MinVotes(items) < MaxVotes(items)
    ensures forall k :: 0 <= k < |items| && items[k].votes == MaxVotes(items) ==> items[k] in Classify(items).s
    ensures forall k :: 0 <= k < |items| && items[k].votes == MinVotes(items) ==> items[k] in Classify(items).d
    ensures |Classify(items).s| > 0 && |Classify(items).d| > 0
  {
    var lo := MinVotes(items);
    var range := Range(lo, MaxVotes(items));
    forall k | 0 <= k < |items|
      ensures items[k].votes == MaxVotes(items) ==> items[k] in Classify(items).s
      ensures items[k].votes == lo ==> items[k] in Classify(items).d
    {
      FillMembers(items, lo, range, S, items[k]);
      FillMembers(items, lo, range, D, items[k]);
    }
  }

  /** An item with more votes never gets a lower tier than one with fewer. */
  lemma ClassifyMonotone(items: seq<Item>, x: Item, y: Item)
    requires |items| > 0 && x.votes <= y.votes
    ensures Rank(TierIn(items, x)) <= Rank(TierIn(items, y))
  {
    var lo := MinVotes(items);
    TierOfMonotone(x.votes, y.votes, lo, Range(lo, MaxVotes(items)));
  }

  /** Each bucket keeps the input order, so a votes-descending input gives votes-descending buckets. */
  lemma {:induction false} FillKeepsOrder(items: seq<Item>, lo: int, range: int, t: Tier)
    requires range > 0
    requires SortedDesc(items, ItemVotes)
    ensures SortedDesc(Bucket(Fill(items, lo, range), t), ItemVotes)
  {
    if |items| > 0 {
      var init := items[..|items| - 1];
      var last := items[|items| - 1];
      FillKeepsOrder(init, lo, range, t);
      PutBucket(Fill(init, lo, range), TierOf(last.votes, lo, range), last, t);
      var r0 := Bucket(Fill(init, lo, range), t);
      forall k | 0 <= k < |r0| ensures r0[k].votes >= last.votes {
        FillMembers(init, lo, range, t, r0[k]);
        var j :| 0 <= j < |init| && init[j] == r0[k];
      }
    }
  }

  lemma ClassifyKeepsOrder(items: seq<Item>)
    requires SortedDesc(items, ItemVotes)
    ensures forall t :: SortedDesc(Bucket(Classify(items), t), ItemVotes)
  {
    if |items| > 0 {
      var lo := MinVotes(items);
      var range := Range(lo, MaxVotes(items));
      forall t ensures SortedDesc(Bucket(Classify(items), t), ItemVotes) {
        FillKeepsOrder(items, lo, range, t);
      }
    }
  }

  /** The two scenario seeds: [0, 25, 50, 75, 100] gives D, C, B, A, S; equal counts give D. */
  lemma ScoreExamples()
    ensures [TierOf(0, 0, 100), TierOf(25, 0, 100), TierOf(50, 0, 100), TierOf(75, 0, 100), TierOf(100, 0, 100)]
            == [D, C, B, A, S]
    ensures Range(10, 10) == 1 && TierOf(10, 10, 1) == D
  {
  }
}
