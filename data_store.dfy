/**
 * The relational store the routes talk to, as one object whose fields are
 * the tables, and the read queries the routes issue (equality filters,
 * `order(...)`, `limit(n)`, `maybeSingle()` lookups by key).
 *
 * Ids are handed out by per-table sequences (`next*Id`), as serial primary
 * keys are. `ORDER BY` is modelled as a stable sort: rows with equal keys
 * keep their table order, one of the orders the store may return.
 */
module DataStore {
  import opened Entities
  import opened Ledger

  // ---------------------------------------------------------------------
  // Queries

  /** `select * from items where category_id = categoryId`, in table order. */
  function ItemsInCategory(items: seq<Item>, categoryId: int): (r: seq<Item>)
    ensures forall x :: x in r <==> x in items && x.categoryId == categoryId
    ensures |r| <= |items|
  {
    if |items| == 0 then []
    else ItemsInCategory(items[..|items| - 1], categoryId)
         + (if items[|items| - 1].categoryId == categoryId then [items[|items| - 1]] else [])
  }

  /** `key` does not increase from left to right. */
  ghost predicate SortedDesc<T>(s: seq<T>, key: T -> int) {
    forall i, j :: 0 <= i < j < |s| ==> key(s[i]) >= key(s[j])
  }

  /** Insert `x` in front of the first element whose key is not above its own. */
  function InsertDesc<T>(x: T, s: seq<T>, key: T -> int): seq<T> {
    if |s| == 0 || key(x) >= key(s[0]) then [x] + s
    else [s[0]] + InsertDesc(x, s[1..], key)
  }

  /** `order(key, { ascending: false })`: a stable insertion sort. */
  function SortDesc<T>(s: seq<T>, key: T -> int): seq<T> {
    if |s| == 0 then [] else InsertDesc(s[0], SortDesc(s[1..], key), key)
  }

  /** No key in `s` is above `b`. */
  ghost predicate AllAtMost<T>(s: seq<T>, key: T -> int, b: int) {
    forall i :: 0 <= i < |s| ==> key(s[i]) <= b
  }

  lemma {:induction false} InsertDescMultiset<T>(x: T, s: seq<T>, key: T -> int)
    ensures multiset(InsertDesc(x, s, key)) == multiset(s) + multiset{x}
  {
    if |s| > 0 && key(x) < key(s[0]) {
      InsertDescMultiset(x, s[1..], key);
      assert s == [s[0]] + s[1..];
    }
  }

  lemma {:induction false} InsertDescAtMost<T>(x: T, s: seq<T>, key: T -> int, b: int)
    requires key(x) <= b && AllAtMost(s, key, b)
    ensures AllAtMost(InsertDesc(x, s, key), key, b)
  {
    if |s| > 0 && key(x) < key(s[0]) {
      InsertDescAtMost(x, s[1..], key, b);
      var r := InsertDesc(x, s, key);
      forall i | 0 <= i < |r| ensures key(r[i]) <= b {
        if i > 0 { assert r[i] == InsertDesc(x, s[1..], key)[i - 1]; }
      }
    }
  }

  lemma {:induction false} InsertDescSorted<T>(x: T, s: seq<T>, key: T -> int)
    requires SortedDesc(s, key)
    ensures SortedDesc(InsertDesc(x, s, key), key)
  {
    if |s| > 0 && key(x) < key(s[0]) {
      var rest := InsertDesc(x, s[1..], key);
      InsertDescSorted(x, s[1..], key);
      InsertDescAtMost(x, s[1..], key, key(s[0]));
      var r := [s[0]] + rest;
      forall i, j | 0 <= i < j < |r| ensures key(r[i]) >= key(r[j]) {
        assert r[j] == rest[j - 1];
        if i > 0 { assert r[i] == rest[i - 1]; }
      }
    }
  }

  /** The sort returns the same rows, ordered by key descending. */
  lemma SortDescFacts<T>(s: seq<T>, key: T -> int)
    ensures SortedDesc(SortDesc(s, key), key)
    ensures multiset(SortDesc(s, key)) == multiset(s)
    ensures |SortDesc(s, key)| == |s|
  {
    SortDescSorted(s, key);
    SortDescMultiset(s, key);
    assert |multiset(SortDesc(s, key))| == |multiset(s)|;
  }

  lemma {:induction false} SortDescSorted<T>(s: seq<T>, key: T -> int)
    ensures SortedDesc(SortDesc(s, key), key)
  {
    if |s| > 0 {
      SortDescSorted(s[1..], key);
      InsertDescSorted(s[0], SortDesc(s[1..], key), key);
    }
  }

  lemma {:induction false} SortDescMultiset<T>(s: seq<T>, key: T -> int)
    ensures multiset(SortDesc(s, key)) == multiset(s)
  {
    if |s| > 0 {
      SortDescMultiset(s[1..], key);
      InsertDescMultiset(s[0], SortDesc(s[1..], key), key);
      assert s == [s[0]] + s[1..];
    }
  }

  /** `limit(n)`. */
  function Take<T>(s: seq<T>, n: nat): (r: seq<T>)
    ensures |r| == if |s| <= n then |s| else n
    ensures r <= s
  {
    if |s| <= n then s else s[..n]
  }

  /** A descending order survives `limit(n)`. */
  lemma TakeKeepsSorted<T>(s: seq<T>, n: nat, key: T -> int)
    requires SortedDesc(s, key)
    ensures SortedDesc(Take(s, n), key)
  {
  }

  /**
   * `limit(n)` on rows in descending order keeps a sub-bag of them, and
   * nothing it drops ranks above anything it keeps.
   */
  lemma {:induction false} TakeDropsOnlyLower<T>(s: seq<T>, n: nat, key: T -> int)
    requires SortedDesc(s, key)
    ensures multiset(Take(s, n)) <= multiset(s)
    ensures forall x, y :: x in s && x !in Take(s, n) && y in Take(s, n) ==> key(x) <= key(y)
  {
    var r := Take(s, n);
    assert s == r + s[|r|..];
    forall x, y | x in s && x !in r && y in r
      ensures key(x) <= key(y)
    {
      var i :| 0 <= i < |s| && s[i] == x;
      var j :| 0 <= j < |r| && r[j] == y;
      assert forall k :: 0 <= k < |r| ==> s[k] == r[k];
      assert j < i && s[j] == y;
    }
  }

  /**
   * `order(key, desc).limit(n)` on the rows `s`: at most `n` of them in
   * descending order, and nothing left out ranks above anything kept.
   */
  function TopByKey<T>(s: seq<T>, key: T -> int, n: nat): (r: seq<T>)
    ensures |r| == if |s| <= n then |s| else n
    ensures SortedDesc(r, key)
    ensures multiset(r) <= multiset(s)
    ensures forall x :: x in r ==> x in s
    ensures |s| <= n ==> multiset(r) == multiset(s)
    ensures forall x, y :: x in s && x !in r && y in r ==> key(x) <= key(y)
  {
    var rows := SortDesc(s, key);
    SortDescFacts(s, key);
    TakeKeepsSorted(rows, n, key);
    TakeDropsOnlyLower(rows, n, key);
    assert forall x :: x in s ==> x in multiset(rows);
    assert forall x :: x in Take(rows, n) ==> x in multiset(rows);
    Take(rows, n)
  }

  /**
   * `from('items').select('*').eq('category_id', c).order('votes', desc).limit(n)`:
   * the rows of category `c`, votes descending, at most `n` of them, and no
   * row of `c` left out has more votes than a row kept.
   */
  function TopItems(items: seq<Item>, categoryId: int, n: nat): (r: seq<Item>)
    ensures |r| == if |ItemsInCategory(items, categoryId)| <= n then |ItemsInCategory(items, categoryId)| else n
    ensures SortedDesc(r, ItemVotes)
    ensures forall x :: x in r ==> x in items && x.categoryId == categoryId
    ensures multiset(r) <= multiset(ItemsInCategory(items, categoryId))
    ensures |ItemsInCategory(items, categoryId)| <= n ==>
              multiset(r) == multiset(ItemsInCategory(items, categoryId))
    ensures forall x, y :: x in ItemsInCategory(items, categoryId) && x !in r && y in r ==> x.votes <= y.votes
  {
    var rows := ItemsInCategory(items, categoryId);
    var r := TopByKey(rows, ItemVotes, n);
    forall x, y | x in rows && x !in r && y in r
      ensures x.votes <= y.votes
    {
      assert ItemVotes(x) <= ItemVotes(y);
    }
    r
  }

  /** The same query without a limit, as the ranking route issues it. */
  function CategoryItems(items: seq<Item>, categoryId: int): (r: seq<Item>)
    ensures SortedDesc(r, ItemVotes)
    ensures multiset(r) == multiset(ItemsInCategory(items, categoryId))
    ensures forall x :: x in r <==> x in items && x.categoryId == categoryId
  {
    SortDescFacts(ItemsInCategory(items, categoryId), ItemVotes);
    var r := SortDesc(ItemsInCategory(items, categoryId), ItemVotes);
    assert forall x :: x in r <==> x in multiset(r);
    r
  }

  /** The sort key of `order('id', { ascending: true })`. */
  function NegatedId(c: Category): int { -c.id }

  /**
   * `from('categories').select(...).order('id', { ascending: true }).limit(n)`.
   */
  function FirstCategories(categories: seq<Category>, n: nat): (r: seq<Category>)
    ensures |r| == if |categories| <= n then |categories| else n
    ensures forall i, j :: 0 <= i < j < |r| ==> r[i].id <= r[j].id
    ensures forall c :: c in r ==> c in categories
    ensures multiset(r) <= multiset(categories)
    ensures |categories| <= n ==> multiset(r) == multiset(categories)
    ensures forall c, d :: c in categories && c !in r && d in r ==> d.id <= c.id
  {
    var r := TopByKey(categories, NegatedId, n);
    assert forall i, j :: 0 <= i < j < |r| ==> NegatedId(r[i]) >= NegatedId(r[j]);
    forall c, d | c in categories && c !in r && d in r
      ensures d.id <= c.id
    {
      assert NegatedId(c) <= NegatedId(d);
    }
    r
  }

  /** `.eq('id', id).maybeSingle()` on `items`: the first row with that id. */
  function FindItem(items: seq<Item>, id: int): (r: Option<nat>)
    ensures r.Some? ==> r.value < |items| && items[r.value].id == id
    ensures r.None? ==> forall k :: 0 <= k < |items| ==> items[k].id != id
  {
    if |items| == 0 then None
    else if items[0].id == id then Some(0)
    else match FindItem(items[1..], id)
      case None => None
      case Some(k) => Some(k + 1)
  }

  /** `.eq('id', id).single()` on `categories`. */
  function FindCategory(categories: seq<Category>, id: int): (r: Option<Category>)
    ensures r.Some? ==> r.value in categories && r.value.id == id
    ensures r.None? ==> forall c :: c in categories ==> c.id != id
  {
    if |categories| == 0 then None
    else if categories[0].id == id then Some(categories[0])
    else FindCategory(categories[1..], id)
  }

  /** The primary key of `categories`. */
  ghost predicate DistinctCategoryIds(categories: seq<Category>) {
    forall i, j :: 0 <= i < |categories| && 0 <= j < |categories| && i != j ==> categories[i].id != categories[j].id
  }

  // ---------------------------------------------------------------------
  // The store

  class Store {
    var users: map<string, User>
    var categories: seq<Category>
    var items: seq<Item>
    var votes: set<Vote>
    var suggestions: map<int, Suggestion>
    var nextUserId: int
    var nextItemId: int
    var nextSuggestionId: int

    /**
     * What the tables' keys and foreign keys guarantee, plus the
     * per-category vote rule, which every route keeps.
     */
    ghost predicate WellFormed()
      reads this
    {
      && DistinctIds(items)
      && DistinctCategoryIds(categories)
      && 0 < nextItemId
      && (forall k :: 0 <= k < |items| ==> 0 < items[k].id < nextItemId)
      && VotesMatchItems(items, votes)
      && OneVotePerCategory(votes)
      && 0 < nextUserId
      && (forall e :: e in users ==> 0 < users[e].id < nextUserId)
      && 0 < nextSuggestionId
      && (forall id :: id in suggestions ==> 0 < id < nextSuggestionId && suggestions[id].id == id)
    }

    /** The cached counters agree with the vote rows. */
    ghost predicate Consistent()
      reads this
    {
      CountersMatch(items, votes)
    }

    /** An empty database. */
    constructor Empty(categories: seq<Category>)
      requires DistinctCategoryIds(categories)
      ensures WellFormed() && Consistent()
      ensures this.categories == categories
      ensures users == map[] && items == [] && votes == {} && suggestions == map[]
    {
      this.users := map[];
      this.categories := categories;
      this.items := [];
      this.votes := {};
      this.suggestions := map[];
      this.nextUserId := 1;
      this.nextItemId := 1;
      this.nextSuggestionId := 1;
    }
  }
}
