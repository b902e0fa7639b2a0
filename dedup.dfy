/** `filter_results`: drops every result whose `cristin_result_id` was already
    seen, keeping a set of seen ids that grows as the stream is read. */
module Dedup {
  import opened Common

  /** A publication record; only its id and its contributors URL are read. */
  datatype ResultRecord = ResultRecord(cristinResultId: string, contributorsUrl: Url)

  function IdsOf(s: seq<ResultRecord>): set<string>
  {
    set i | 0 <= i < |s| :: s[i].cristinResultId
  }

  /** No id occurs twice. */
  predicate DistinctIds(s: seq<ResultRecord>)
  {
    forall i, j :: 0 <= i < j < |s| ==> s[i].cristinResultId != s[j].cristinResultId
  }

  /** Position `i` holds the first result with its id. */
  predicate IsFirstOccurrence(s: seq<ResultRecord>, i: nat)
    requires i < |s|
  {
    forall j :: 0 <= j < i ==> s[j].cristinResultId != s[i].cristinResultId
  }

  /** The results at first-occurrence positions among the first `n`, in input order. */
  function FirstOccurrences(s: seq<ResultRecord>, n: nat): seq<ResultRecord>
    requires n <= |s|
  {
    if n == 0 then []
    else FirstOccurrences(s, n - 1) + if IsFirstOccurrence(s, n - 1) then [s[n - 1]] else []
  }

  /** What `filter_results` yields for the whole stream. */
  function Deduplicated(s: seq<ResultRecord>): seq<ResultRecord>
  {
    FirstOccurrences(s, |s|)
  }

  /** The position of the first result carrying `id`. */
  function FirstIndex(s: seq<ResultRecord>, id: string): (i: nat)
    requires id in IdsOf(s)
    ensures i < |s| && s[i].cristinResultId == id
    ensures forall j :: 0 <= j < i ==> s[j].cristinResultId != id
  {
    if s[0].cristinResultId == id then 0
    else
      assert id in IdsOf(s[1..]) by {
        var k :| 0 <= k < |s| && s[k].cristinResultId == id;
        assert s[1..][k - 1].cristinResultId == id;
      }
      1 + FirstIndex(s[1..], id)
  }

  /** The generator as a loop: a result is emitted iff its id is not yet in `ids`. */
  method FilterResults(results: seq<ResultRecord>) returns (kept: seq<ResultRecord>)
    ensures kept == Deduplicated(results)
  {
    var ids: set<string> := {};
    kept := [];
    for i := 0 to |results|
      invariant ids == IdsOf(results[..i])
      invariant kept == FirstOccurrences(results, i)
    {
      var result := results[i];
      assert result.cristinResultId !in ids <==> IsFirstOccurrence(results, i) by {
        if result.cristinResultId in ids {
          var j :| 0 <= j < i && results[..i][j].cristinResultId == result.cristinResultId;
          assert results[j].cristinResultId == result.cristinResultId;
        }
      }
      if result.cristinResultId !in ids {
        ids := ids + {result.cristinResultId};
        kept := kept + [result];
      }
      assert results[..i + 1] == results[..i] + [result];
      IdsOfSnoc(results[..i], result);
    }
    assert results[..|results|] == results;
  }

  lemma IdsOfSnoc(s: seq<ResultRecord>, x: ResultRecord)
    ensures IdsOf(s + [x]) == IdsOf(s) + {x.cristinResultId}
  {
    var t := s + [x];
    forall id | id in IdsOf(t) ensures id in IdsOf(s) + {x.cristinResultId} {
      var j :| 0 <= j < |t| && t[j].cristinResultId == id;
      if j < |s| { assert s[j].cristinResultId == id; }
    }
    forall id | id in IdsOf(s) ensures id in IdsOf(t) {
      var j :| 0 <= j < |s| && s[j].cristinResultId == id;
      assert t[j].cristinResultId == id;
    }
    assert t[|s|] == x;
  }

  /** Each of `r` is the first occurrence in `s` of its id, at a position below `n`. */
  predicate FirstOccurrencesBelow(s: seq<ResultRecord>, r: seq<ResultRecord>, n: nat)
  {
    forall k :: 0 <= k < |r| ==>
      r[k].cristinResultId in IdsOf(s) &&
      FirstIndex(s, r[k].cristinResultId) < n &&
      r[k] == s[FirstIndex(s, r[k].cristinResultId)]
  }

  /** The ids of `r` first appear in `s` in the order `r` lists them. */
  predicate InFirstSeenOrder(s: seq<ResultRecord>, r: seq<ResultRecord>)
  {
    forall j, k :: 0 <= j < k < |r| ==>
      r[j].cristinResultId in IdsOf(s) && r[k].cristinResultId in IdsOf(s) &&
      FirstIndex(s, r[j].cristinResultId) < FirstIndex(s, r[k].cristinResultId)
  }

  /** Every kept result is the first occurrence of its id, the kept results appear
      in the order their ids were first seen, and exactly the ids of the first `n`
      inputs are kept. */
  lemma {:induction false} FirstOccurrencesShape(s: seq<ResultRecord>, n: nat)
    requires n <= |s|
    ensures FirstOccurrencesBelow(s, FirstOccurrences(s, n), n)
    ensures InFirstSeenOrder(s, FirstOccurrences(s, n))
    ensures IdsOf(FirstOccurrences(s, n)) == IdsOf(s[..n])
  {
    if n > 0 {
      FirstOccurrencesShape(s, n - 1);
      assert s[..n] == s[..n - 1] + [s[n - 1]];
      IdsOfSnoc(s[..n - 1], s[n - 1]);
      if IsFirstOccurrence(s, n - 1) {
        KeepNewId(s, FirstOccurrences(s, n - 1), n);
      } else {
        SkipSeenId(s, FirstOccurrences(s, n - 1), n);
        assert FirstOccurrences(s, n) == FirstOccurrences(s, n - 1);
      }
    }
  }

  /** Step of FirstOccurrencesShape for a result whose id is new. */
  lemma KeepNewId(s: seq<ResultRecord>, prev: seq<ResultRecord>, n: nat)
    requires 0 < n <= |s| && IsFirstOccurrence(s, n - 1)
    requires FirstOccurrencesBelow(s, prev, n - 1) && InFirstSeenOrder(s, prev)
    ensures FirstOccurrencesBelow(s, prev + [s[n - 1]], n)
    ensures InFirstSeenOrder(s, prev + [s[n - 1]])
    ensures IdsOf(prev + [s[n - 1]]) == IdsOf(prev) + {s[n - 1].cristinResultId}
  {
    var x := s[n - 1];
    assert x.cristinResultId in IdsOf(s);
    assert FirstIndex(s, x.cristinResultId) == n - 1;
    var cur := prev + [x];
    IdsOfSnoc(prev, x);
    forall k | 0 <= k < |cur|
      ensures cur[k].cristinResultId in IdsOf(s) && FirstIndex(s, cur[k].cristinResultId) < n
              && cur[k] == s[FirstIndex(s, cur[k].cristinResultId)]
    {
      if k < |prev| { assert cur[k] == prev[k]; }
    }
    forall j, k | 0 <= j < k < |cur|
      ensures cur[j].cristinResultId in IdsOf(s) && cur[k].cristinResultId in IdsOf(s)
              && FirstIndex(s, cur[j].cristinResultId) < FirstIndex(s, cur[k].cristinResultId)
    {
      assert cur[j] == prev[j];
      if k < |prev| { assert cur[k] == prev[k]; }
    }
  }

  /** Step of FirstOccurrencesShape for a result whose id was seen before. */
  lemma SkipSeenId(s: seq<ResultRecord>, prev: seq<ResultRecord>, n: nat)
    requires 0 < n <= |s| && !IsFirstOccurrence(s, n - 1)
    requires FirstOccurrencesBelow(s, prev, n - 1)
    ensures FirstOccurrencesBelow(s, prev, n)
    ensures s[n - 1].cristinResultId in IdsOf(s[..n - 1])
  {
    var x := s[n - 1];
    assert x.cristinResultId in IdsOf(s);
    var fx := FirstIndex(s, x.cristinResultId);
    assert fx < n - 1;
    assert s[..n - 1][fx].cristinResultId == x.cristinResultId;
  }

  /** `filter_results` never emits two results with the same id. */
  lemma DeduplicatedHasDistinctIds(s: seq<ResultRecord>)
    ensures DistinctIds(Deduplicated(s))
  {
    FirstOccurrencesShape(s, |s|);
    var r := Deduplicated(s);
    forall i, j | 0 <= i < j < |r| ensures r[i].cristinResultId != r[j].cristinResultId {
      assert InFirstSeenOrder(s, r);
    }
  }

  /** Every id of the input is emitted, and what is emitted for it is its first
      occurrence; the emitted results come in the order their ids first appear. */
  lemma DeduplicatedKeepsFirstOfEveryId(s: seq<ResultRecord>)
    ensures IdsOf(Deduplicated(s)) == IdsOf(s)
    ensures FirstOccurrencesBelow(s, Deduplicated(s), |s|)
    ensures InFirstSeenOrder(s, Deduplicated(s))
  {
    FirstOccurrencesShape(s, |s|);
    assert s[..|s|] == s;
  }

  /** `sub` is `s` with some elements left out, the rest in the same order:
      `sub[k]` stands at position `idx[k]` of `s`, the positions increasing. */
  ghost predicate IsSubsequence(sub: seq<ResultRecord>, s: seq<ResultRecord>)
  {
    exists idx: seq<nat> :: Embeds(sub, s, idx)
  }

  ghost predicate Embeds(sub: seq<ResultRecord>, s: seq<ResultRecord>, idx: seq<nat>)
  {
    && |idx| == |sub|
    && (forall k :: 0 <= k < |idx| ==> idx[k] < |s| && sub[k] == s[idx[k]])
    && (forall j, k :: 0 <= j < k < |idx| ==> idx[j] < idx[k])
  }

  /** The output of `filter_results` is a subsequence of its input. */
  lemma DeduplicatedIsSubsequence(s: seq<ResultRecord>)
    ensures IsSubsequence(Deduplicated(s), s)
  {
    var r := Deduplicated(s);
    FirstOccurrencesShape(s, |s|);
    var idx := seq(|r|, k requires 0 <= k < |r| => FirstIndex(s, r[k].cristinResultId));
    assert Embeds(r, s, idx);
  }

  /** A stream without repeated ids passes through unchanged. */
  lemma {:induction false} DistinctIdsPassThrough(s: seq<ResultRecord>, n: nat)
    requires DistinctIds(s) && n <= |s|
    ensures FirstOccurrences(s, n) == s[..n]
  {
    if n > 0 {
      DistinctIdsPassThrough(s, n - 1);
      assert IsFirstOccurrence(s, n - 1);
      assert s[..n] == s[..n - 1] + [s[n - 1]];
    }
  }

  /** `filter_results` is idempotent. */
  lemma DeduplicatedIsIdempotent(s: seq<ResultRecord>)
    ensures Deduplicated(Deduplicated(s)) == Deduplicated(s)
  {
    var r := Deduplicated(s);
    DeduplicatedHasDistinctIds(s);
    DistinctIdsPassThrough(r, |r|);
    assert r[..|r|] == r;
  }
}
