/** Choosing the best-scored tables as seeds (retrieval/retriever.py). */
module Ranking {
  import opened Collections
  import opened Issues

  type Scores = map<string, real>

  /** Higher score first, ties by key. */
  predicate Better(scores: Scores, a: string, b: string)
    requires a in scores && b in scores
  {
    scores[a] > scores[b] || (scores[a] == scores[b] && Before(a, b))
  }

  /** What ranking promises: a higher score, or the same score and a key earlier in the alphabet. */
  ghost predicate RanksFirst(scores: Scores, a: string, b: string) {
    a in scores && b in scores && (scores[a] > scores[b] || (scores[a] == scores[b] && Alphabetical(a, b)))
  }

  ghost predicate Descending(scores: Scores, keys: seq<string>) {
    forall i, j :: 0 <= i < j < |keys| ==> RanksFirst(scores, keys[i], keys[j])
  }

  lemma BetterExactly(scores: Scores, a: string, b: string)
    requires a in scores && b in scores
    ensures Better(scores, a, b) <==> RanksFirst(scores, a, b)
  {
    BeforeExactly(a, b);
  }

  lemma RankedDescending(scores: Scores, keys: seq<string>)
    requires Ranked(scores, keys)
    ensures Descending(scores, keys)
  {
    forall i, j | 0 <= i < j < |keys|
      ensures RanksFirst(scores, keys[i], keys[j])
    {
      assert keys[i] in keys && keys[j] in keys;
      BetterExactly(scores, keys[i], keys[j]);
    }
  }

  ghost predicate Ranked(scores: Scores, keys: seq<string>) {
    && (forall k :: k in keys ==> k in scores)
    && forall i, j :: 0 <= i < j < |keys| ==> Better(scores, keys[i], keys[j])
  }

  lemma BetterOrder(scores: Scores, a: string, b: string, c: string)
    requires a in scores && b in scores && c in scores
    ensures !Better(scores, a, a)
    ensures Better(scores, a, b) && Better(scores, b, c) ==> Better(scores, a, c)
    ensures a != b ==> Better(scores, a, b) || Better(scores, b, a)
  {
    BeforeOrder(a, b, c);
  }

  function Place(scores: Scores, keys: seq<string>, key: string): seq<string>
    requires key in scores && forall k :: k in keys ==> k in scores
  {
    if |keys| == 0 then [key]
    else
      assert keys[0] in keys;
      if Better(scores, key, keys[0]) then [key] + keys
      else [keys[0]] + Place(scores, keys[1..], key)
  }

  lemma {:induction false} PlaceRanked(scores: Scores, keys: seq<string>, key: string)
    requires Ranked(scores, keys) && key in scores && key !in keys
    ensures Ranked(scores, Place(scores, keys, key))
    ensures forall k :: k in Place(scores, keys, key) <==> k in keys || k == key
    ensures |Place(scores, keys, key)| == |keys| + 1
  {
    if |keys| != 0 {
      var first, rest := keys[0], keys[1..];
      assert keys == [first] + rest;
      if Better(scores, key, first) {
        forall j | 0 <= j < |keys|
          ensures Better(scores, key, keys[j])
        {
          BetterOrder(scores, key, first, keys[j]);
        }
      } else {
        PlaceRanked(scores, rest, key);
        BetterOrder(scores, key, first, key);
        var placed := Place(scores, rest, key);
        forall j | 0 <= j < |placed|
          ensures Better(scores, first, placed[j])
        {
          assert placed[j] in placed;
        }
      }
    }
  }

  /** All scored keys, best first, whatever order the dictionary lists them in. */
  method Rank(scores: Scores) returns (keys: seq<string>)
    ensures Ranked(scores, keys) && Descending(scores, keys) && |keys| == |scores|
    ensures forall k :: k in keys <==> k in scores
  {
    keys := [];
    var left := scores.Keys;
    while left != {}
      invariant left <= scores.Keys && Ranked(scores, keys)
      invariant forall k :: k in keys <==> k in scores && k !in left
      invariant |keys| + |left| == |scores|
      decreases |left|
    {
      var key :| key in left;
      PlaceRanked(scores, keys, key);
      keys := Place(scores, keys, key);
      left := left - {key};
    }
    RankedDescending(scores, keys);
  }

  /** The ranking is unique, so seeds do not depend on the iteration order. */
  lemma {:induction false} RankUnique(scores: Scores, a: seq<string>, b: seq<string>)
    requires Ranked(scores, a) && Ranked(scores, b) && forall k :: k in a <==> k in b
    ensures a == b
  {
    assert |b| != 0 ==> b[0] in a;
    if |a| != 0 {
      FirstUnique(scores, a, b);
      forall k
        ensures k in a[1..] <==> k in b[1..]
      {
        RestMember(scores, a, k);
        RestMember(scores, b, k);
      }
      RankUnique(scores, a[1..], b[1..]);
    }
  }

  lemma RestMember(scores: Scores, keys: seq<string>, k: string)
    requires Ranked(scores, keys) && |keys| != 0
    ensures k in keys[1..] <==> k in keys && k != keys[0]
  {
    assert keys == [keys[0]] + keys[1..];
    BetterOrder(scores, keys[0], keys[0], keys[0]);
    forall j | 0 < j < |keys|
      ensures keys[j] != keys[0]
    {
    }
  }

  lemma FirstUnique(scores: Scores, a: seq<string>, b: seq<string>)
    requires Ranked(scores, a) && Ranked(scores, b) && (forall k :: k in a <==> k in b) && |a| != 0
    ensures |b| != 0 && a[0] == b[0]
  {
    assert a[0] in b && b[0] in a;
    var i :| 0 <= i < |b| && b[i] == a[0];
    var j :| 0 <= j < |a| && a[j] == b[0];
    BetterOrder(scores, a[0], b[0], a[0]);
  }

  /** The `topK` best-scored keys: every other scored key ranks behind every seed. */
  method ChooseSeeds(scores: Scores, topK: nat) returns (seeds: seq<string>)
    ensures Ranked(scores, seeds) && Descending(scores, seeds)
    ensures |seeds| == if topK < |scores| then topK else |scores|
    ensures forall s, k :: s in seeds && k in scores && k !in seeds ==> RanksFirst(scores, s, k)
  {
    var keys := Rank(scores);
    seeds := Take(keys, topK);
    assert forall x :: 0 <= x < |seeds| ==> keys[x] == seeds[x] && seeds[x] in seeds;
    forall s, k | s in seeds && k in scores && k !in seeds
      ensures RanksFirst(scores, s, k)
    {
      var i :| 0 <= i < |seeds| && seeds[i] == s;
      var j :| 0 <= j < |keys| && keys[j] == k;
      assert i < |seeds| <= j;
    }
  }
}
