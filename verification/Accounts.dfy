/** Amounts posted under keys, and the insertion-ordered dictionary they add up to: the shape of the
    postmortem's time per event type and of the learner's statistics per runbook. */
module Accounts {
  datatype Post = Post(key: string, amount: int)

  function SumAll(posts: seq<Post>): int {
    if posts == [] then 0 else SumAll(posts[..|posts| - 1]) + posts[|posts| - 1].amount
  }

  function SumFor(posts: seq<Post>, key: string): int {
    if posts == [] then 0
    else
      var front, last := SumFor(posts[..|posts| - 1], key), posts[|posts| - 1];
      if last.key == key then front + last.amount else front
  }

  /** The keys in the order in which they first appear. */
  function Keys(posts: seq<Post>): seq<string> {
    if posts == [] then []
    else
      var front, last := Keys(posts[..|posts| - 1]), posts[|posts| - 1];
      if last.key in front then front else front + [last.key]
  }

  function SumOver(keys: seq<string>, posts: seq<Post>): int {
    if keys == [] then 0 else SumOver(keys[..|keys| - 1], posts) + SumFor(posts, keys[|keys| - 1])
  }

  /** The dictionary that the posts add up to. */
  function Totals(posts: seq<Post>): map<string, int> {
    map k | k in Keys(posts) :: SumFor(posts, k)
  }

  lemma {:induction false} Snoc(posts: seq<Post>, p: Post)
    ensures SumAll(posts + [p]) == SumAll(posts) + p.amount
    ensures Keys(posts + [p]) == if p.key in Keys(posts) then Keys(posts) else Keys(posts) + [p.key]
    ensures forall k :: SumFor(posts + [p], k) == if p.key == k then SumFor(posts, k) + p.amount else SumFor(posts, k)
  {
    assert (posts + [p])[..|posts|] == posts;
  }

  lemma {:induction false} KeysAreDistinct(posts: seq<Post>)
    ensures forall i, j :: 0 <= i < j < |Keys(posts)| ==> Keys(posts)[i] != Keys(posts)[j]
  {
    if posts != [] {
      KeysAreDistinct(posts[..|posts| - 1]);
    }
  }

  lemma {:induction false} KeysArePosted(posts: seq<Post>, k: string)
    ensures k in Keys(posts) <==> exists i :: 0 <= i < |posts| && posts[i].key == k
    ensures k !in Keys(posts) ==> SumFor(posts, k) == 0
  {
    if posts != [] {
      var front, last := posts[..|posts| - 1], posts[|posts| - 1];
      KeysArePosted(front, k);
      assert posts == front + [last];
      Snoc(front, last);
    }
  }

  /** `d[k] = d.get(k, 0) + amount` keeps the dictionary equal to the totals. */
  lemma {:induction false} PostKeepsTotals(posts: seq<Post>, p: Post)
    ensures Totals(posts + [p])
         == var d := Totals(posts); d[p.key := (if p.key in d then d[p.key] else 0) + p.amount]
  {
    Snoc(posts, p);
    KeysArePosted(posts, p.key);
  }

  lemma {:induction false} SumOverSnoc(keys: seq<string>, posts: seq<Post>, p: Post)
    requires forall i, j :: 0 <= i < j < |keys| ==> keys[i] != keys[j]
    ensures SumOver(keys, posts + [p]) == SumOver(keys, posts) + if p.key in keys then p.amount else 0
  {
    if keys != [] {
      var front, last := keys[..|keys| - 1], keys[|keys| - 1];
      SumOverSnoc(front, posts, p);
      Snoc(posts, p);
      assert keys == front + [last];
      assert last !in front;
    }
  }

  /** The entries of the dictionary together are everything that was posted. */
  lemma {:induction false} EntriesAddUp(posts: seq<Post>)
    ensures SumOver(Keys(posts), posts) == SumAll(posts)
  {
    if posts != [] {
      var front, last := posts[..|posts| - 1], posts[|posts| - 1];
      assert posts == front + [last];
      EntriesAddUp(front);
      KeysAreDistinct(front);
      SumOverSnoc(Keys(front), front, last);
      Snoc(front, last);
      KeysArePosted(front, last.key);
      var keys := Keys(front);
      assert (keys + [last.key])[..|keys|] == keys;
    }
  }

  lemma {:induction false} EntriesAreNonNegative(posts: seq<Post>, k: string)
    requires forall i :: 0 <= i < |posts| ==> posts[i].amount >= 0
    ensures SumFor(posts, k) >= 0
  {
    if posts != [] {
      EntriesAreNonNegative(posts[..|posts| - 1], k);
    }
  }
}
