/** Progress analytics: statistics over a user's answers, weekly and
    per-category buckets, weakest-category-first recommendations, the
    running-mean mastery update and the study plan. */
module ProgressService {
  import opened Outcomes
  import opened Numbers
  import opened Dates
  import opened Seqs
  import opened Sorting
  import opened Schema
  import opened Text

  // ---------------------------------------------------------------------
  // Scores and the queries the statistics start from

  /** `if answer.confidence_score:` holds: the score is present and not 0.0. */
  predicate Truthy(score: Option<real>)
  {
    score.Some? && score.value != 0.0
  }

  /** The truthy confidence scores of `answers`, in order. */
  function TruthyScores(answers: seq<Answer>): seq<real>
    decreases |answers|
  {
    if answers == [] then []
    else
      var last := answers[|answers| - 1];
      TruthyScores(answers[..|answers| - 1])
        + (if Truthy(last.confidenceScore) then [last.confidenceScore.value] else [])
  }

  lemma {:induction false} TruthyScoresStep(answers: seq<Answer>, a: Answer)
    ensures TruthyScores(answers + [a])
         == TruthyScores(answers) + (if Truthy(a.confidenceScore) then [a.confidenceScore.value] else [])
  {
    assert (answers + [a])[..|answers|] == answers;
  }

  function AnswerOwnedBy(user: Uuid): Answer -> bool
  {
    (a: Answer) => a.userId == user
  }

  function ProgressOwnedBy(user: Uuid): ProgressRow -> bool
  {
    (p: ProgressRow) => p.userId == user
  }

  /** Sort key of `ORDER BY created_at DESC`. */
  function NewestFirst(a: Answer): real
  {
    -(Ticks(a.createdAt) as real)
  }

  /** `SELECT * FROM user_answers WHERE user_id = %s ORDER BY created_at DESC`. */
  function AnswersOf(table: seq<Answer>, user: Uuid): seq<Answer>
  {
    SortBy(Filter(table, AnswerOwnedBy(user)), NewestFirst)
  }

  /** `SELECT * FROM question_progress WHERE user_id = %s`. */
  function ProgressOf(table: seq<ProgressRow>, user: Uuid): seq<ProgressRow>
  {
    Filter(table, ProgressOwnedBy(user))
  }

  predicate IsCompleted(p: ProgressRow)
  {
    p.status == Completed
  }

  // ---------------------------------------------------------------------
  // Buckets: the defaultdicts of _get_weekly_progress and _get_category_performance

  /** A reported bucket. The raw `scores` list is deleted before output, so it
      is not part of this value. */
  datatype Bucket = Bucket(questionsAttempted: nat, averageScore: real)

  /** The value a defaultdict entry holds while answers are scanned. */
  datatype Acc = Acc(questionsAttempted: nat, scores: seq<real>)

  function KeyIs<K(==)>(keyOf: Answer -> Option<K>, k: K): Answer -> bool
  {
    a => keyOf(a) == Some(k)
  }

  function HasSomeKey<K>(keyOf: Answer -> Option<K>): Answer -> bool
  {
    a => keyOf(a).Some?
  }

  /** The answers that fall into bucket `k`, in order. */
  function KeyedWith<K(==)>(answers: seq<Answer>, keyOf: Answer -> Option<K>, k: K): seq<Answer>
  {
    Filter(answers, KeyIs(keyOf, k))
  }

  /** The answers that fall into some bucket. */
  function Keyed<K>(answers: seq<Answer>, keyOf: Answer -> Option<K>): seq<Answer>
  {
    Filter(answers, HasSomeKey(keyOf))
  }

  lemma {:induction false} KeyedWithStep<K>(answers: seq<Answer>, a: Answer, keyOf: Answer -> Option<K>, k: K)
    ensures KeyedWith(answers + [a], keyOf, k)
         == KeyedWith(answers, keyOf, k) + (if keyOf(a) == Some(k) then [a] else [])
  {
    assert (answers + [a])[..|answers|] == answers;
  }

  /** The bucket keys in the order a dict first sees them. */
  function FirstKeys<K(==)>(answers: seq<Answer>, keyOf: Answer -> Option<K>): seq<K>
    decreases |answers|
  {
    if answers == [] then []
    else
      var ks := FirstKeys(answers[..|answers| - 1], keyOf);
      match keyOf(answers[|answers| - 1])
      case None => ks
      case Some(k) => if k in ks then ks else ks + [k]
  }

  ghost predicate Distinct<K>(ks: seq<K>)
  {
    forall i, j :: 0 <= i < j < |ks| ==> ks[i] != ks[j]
  }

  /** The keys are distinct, every answer with a key contributes its key, and
      every key comes from some answer. */
  lemma {:induction false} FirstKeysExact<K>(answers: seq<Answer>, keyOf: Answer -> Option<K>)
    ensures Distinct(FirstKeys(answers, keyOf))
    ensures forall j :: 0 <= j < |answers| && keyOf(answers[j]).Some?
              ==> keyOf(answers[j]).value in FirstKeys(answers, keyOf)
    ensures forall k :: k in FirstKeys(answers, keyOf) ==> |KeyedWith(answers, keyOf, k)| > 0
    decreases |answers|
  {
    if answers != [] {
      var init := answers[..|answers| - 1];
      var a := answers[|answers| - 1];
      FirstKeysExact(init, keyOf);
      assert answers == init + [a];
      forall k | k in FirstKeys(answers, keyOf) ensures |KeyedWith(answers, keyOf, k)| > 0 {
        KeyedWithStep(init, a, keyOf, k);
      }
      forall j | 0 <= j < |answers| && keyOf(answers[j]).Some?
        ensures keyOf(answers[j]).value in FirstKeys(answers, keyOf)
      {
        if j < |init| {
          assert answers[j] == init[j];
        }
      }
    }
  }

  /** The reported value of one bucket: its answer count and the mean of its
      truthy scores (0.0 when it has none). */
  function BucketOf<K(==)>(answers: seq<Answer>, keyOf: Answer -> Option<K>, k: K): Bucket
  {
    var inBucket := KeyedWith(answers, keyOf, k);
    Bucket(|inBucket|, Mean(TruthyScores(inBucket)))
  }

  function BucketsOver<K(==)>(ks: seq<K>, answers: seq<Answer>, keyOf: Answer -> Option<K>): (r: seq<(K, Bucket)>)
    ensures |r| == |ks|
    ensures forall i :: 0 <= i < |ks| ==> r[i] == (ks[i], BucketOf(answers, keyOf, ks[i]))
    decreases |ks|
  {
    if ks == [] then []
    else BucketsOver(ks[..|ks| - 1], answers, keyOf) + [(ks[|ks| - 1], BucketOf(answers, keyOf, ks[|ks| - 1]))]
  }

  /** The dict (or list of dict items) a bucketing pass reports, in first-seen key order. */
  function Buckets<K(==)>(answers: seq<Answer>, keyOf: Answer -> Option<K>): seq<(K, Bucket)>
  {
    BucketsOver(FirstKeys(answers, keyOf), answers, keyOf)
  }

  /** The accumulator bucket `k` holds after the answers `seen`. */
  function AccOf<K(==)>(seen: seq<Answer>, keyOf: Answer -> Option<K>, k: K): Acc
  {
    var inBucket := KeyedWith(seen, keyOf, k);
    Acc(|inBucket|, TruthyScores(inBucket))
  }

  /** `keys` (the dict's insertion order) and `acc` (its contents) are those
      of the defaultdict after scanning `seen`. */
  ghost predicate AccsMatch<K>(keys: seq<K>, acc: map<K, Acc>, seen: seq<Answer>, keyOf: Answer -> Option<K>)
  {
    && keys == FirstKeys(seen, keyOf)
    && acc.Keys == (set k | k in keys)
    && (forall i :: 0 <= i < |keys| ==> acc[keys[i]] == AccOf(seen, keyOf, keys[i]))
  }

  /** An answer with another key leaves bucket `k` as it was. */
  lemma {:induction false} AccOfOtherKey<K>(seen: seq<Answer>, a: Answer, keyOf: Answer -> Option<K>, k: K)
    requires keyOf(a) != Some(k)
    ensures AccOf(seen + [a], keyOf, k) == AccOf(seen, keyOf, k)
  {
    var kw := KeyedWith(seen, keyOf, k);
    KeyedWithStep(seen, a, keyOf, k);
    assert KeyedWith(seen + [a], keyOf, k) == kw;
  }

  /** An answer with key `k` counts one more attempt and appends its score when truthy. */
  lemma {:induction false} AccOfSameKey<K>(seen: seq<Answer>, a: Answer, keyOf: Answer -> Option<K>, k: K)
    requires keyOf(a) == Some(k)
    ensures AccOf(seen + [a], keyOf, k).questionsAttempted == AccOf(seen, keyOf, k).questionsAttempted + 1
    ensures AccOf(seen + [a], keyOf, k).scores
         == AccOf(seen, keyOf, k).scores + (if Truthy(a.confidenceScore) then [a.confidenceScore.value] else [])
  {
    var kw := KeyedWith(seen, keyOf, k);
    KeyedWithStep(seen, a, keyOf, k);
    assert KeyedWith(seen + [a], keyOf, k) == kw + [a];
    TruthyScoresStep(kw, a);
  }

  /** A key the dict has not seen yet has no answers so far. */
  lemma {:induction false} UnseenKeyIsEmpty<K>(seen: seq<Answer>, keyOf: Answer -> Option<K>, k: K)
    requires k !in FirstKeys(seen, keyOf)
    ensures AccOf(seen, keyOf, k) == Acc(0, [])
  {
    FirstKeysExact(seen, keyOf);
  }

  lemma {:induction false} FirstKeysStep<K>(seen: seq<Answer>, a: Answer, keyOf: Answer -> Option<K>)
    ensures FirstKeys(seen + [a], keyOf)
         == match keyOf(a)
            case None => FirstKeys(seen, keyOf)
            case Some(k) => if k in FirstKeys(seen, keyOf) then FirstKeys(seen, keyOf) else FirstKeys(seen, keyOf) + [k]
  {
    assert (seen + [a])[..|seen|] == seen;
  }

  /** Scanning an answer without a key changes nothing. */
  lemma {:induction false} AccsMatchSkip<K>(keys: seq<K>, acc: map<K, Acc>, seen: seq<Answer>, a: Answer,
                                           keyOf: Answer -> Option<K>)
    requires AccsMatch(keys, acc, seen, keyOf)
    requires keyOf(a).None?
    ensures AccsMatch(keys, acc, seen + [a], keyOf)
  {
    FirstKeysStep(seen, a, keyOf);
    forall i | 0 <= i < |keys| ensures acc[keys[i]] == AccOf(seen + [a], keyOf, keys[i]) {
      AccOfOtherKey(seen, a, keyOf, keys[i]);
    }
  }

  /** The defaultdict entry for `k` is the accumulator of `k` so far. */
  lemma {:induction false} EntryIsAcc<K>(keys: seq<K>, acc: map<K, Acc>, seen: seq<Answer>,
                                        keyOf: Answer -> Option<K>, k: K)
    requires AccsMatch(keys, acc, seen, keyOf)
    ensures (if k in acc then acc[k] else Acc(0, [])) == AccOf(seen, keyOf, k)
  {
    if k !in keys {
      UnseenKeyIsEmpty(seen, keyOf, k);
    } else {
      var i :| 0 <= i < |keys| && keys[i] == k;
    }
  }

  /** Scanning an answer with key `k`: `k` is added at the end of the dict if it
      is new, its entry (zero attempts and no scores when new) counts one more
      attempt and gets the answer's score appended when truthy. */
  lemma {:induction false} AccsMatchAdd<K>(keys: seq<K>, acc: map<K, Acc>, seen: seq<Answer>, a: Answer,
                                          keyOf: Answer -> Option<K>, k: K, entry: Acc)
    requires AccsMatch(keys, acc, seen, keyOf)
    requires keyOf(a) == Some(k)
    requires entry == if k in acc then acc[k] else Acc(0, [])
    ensures AccsMatch(if k in keys then keys else keys + [k],
                      acc[k := Acc(entry.questionsAttempted + 1,
                                   entry.scores + (if Truthy(a.confidenceScore) then [a.confidenceScore.value] else []))],
                      seen + [a], keyOf)
  {
    var keys' := if k in keys then keys else keys + [k];
    var updated := Acc(entry.questionsAttempted + 1,
                       entry.scores + (if Truthy(a.confidenceScore) then [a.confidenceScore.value] else []));
    AccsMatchAddFirstKeys(keys, seen, a, keyOf, k);
    AccsMatchAddKeys(keys, keys', acc, k, updated);
    AccsMatchAddUpdated(keys, acc, seen, a, keyOf, k, entry);
    AccsMatchAddEntries(keys, acc, seen, a, keyOf, k, updated);
  }

  lemma {:induction false} AccsMatchAddFirstKeys<K>(keys: seq<K>, seen: seq<Answer>, a: Answer,
                                                   keyOf: Answer -> Option<K>, k: K)
    requires keys == FirstKeys(seen, keyOf)
    requires keyOf(a) == Some(k)
    ensures (if k in keys then keys else keys + [k]) == FirstKeys(seen + [a], keyOf)
  {
    FirstKeysStep(seen, a, keyOf);
  }

  lemma {:induction false} AccsMatchAddUpdated<K>(keys: seq<K>, acc: map<K, Acc>, seen: seq<Answer>, a: Answer,
                                                 keyOf: Answer -> Option<K>, k: K, entry: Acc)
    requires AccsMatch(keys, acc, seen, keyOf)
    requires keyOf(a) == Some(k)
    requires entry == if k in acc then acc[k] else Acc(0, [])
    ensures Acc(entry.questionsAttempted + 1,
                entry.scores + (if Truthy(a.confidenceScore) then [a.confidenceScore.value] else []))
         == AccOf(seen + [a], keyOf, k)
  {
    EntryIsAcc(keys, acc, seen, keyOf, k);
    AccOfSameKey(seen, a, keyOf, k);
  }

  /** The entries of the dict after an answer with key `k`: the entry of `k` is
      `updated`, the others are as they were. */
  lemma {:induction false} AccsMatchAddEntries<K>(keys: seq<K>, acc: map<K, Acc>, seen: seq<Answer>, a: Answer,
                                                 keyOf: Answer -> Option<K>, k: K, updated: Acc)
    requires acc.Keys == (set k' | k' in keys)
    requires forall i :: 0 <= i < |keys| ==> acc[keys[i]] == AccOf(seen, keyOf, keys[i])
    requires keyOf(a) == Some(k)
    requires updated == AccOf(seen + [a], keyOf, k)
    ensures var keys' := if k in keys then keys else keys + [k];
      forall i :: 0 <= i < |keys'| ==>
        keys'[i] in acc[k := updated] && acc[k := updated][keys'[i]] == AccOf(seen + [a], keyOf, keys'[i])
  {
    var keys' := if k in keys then keys else keys + [k];
    forall i | 0 <= i < |keys'|
      ensures keys'[i] in acc[k := updated] && acc[k := updated][keys'[i]] == AccOf(seen + [a], keyOf, keys'[i])
    {
      if keys'[i] != k {
        assert i < |keys| && keys'[i] == keys[i];
        assert keys[i] in acc.Keys;
        AccOfOtherKey(seen, a, keyOf, keys'[i]);
      }
    }
  }

  /** The dict's keys after an answer with key `k`. */
  lemma {:induction false} AccsMatchAddKeys<K>(keys: seq<K>, keys': seq<K>, acc: map<K, Acc>, k: K, updated: Acc)
    requires acc.Keys == (set k' | k' in keys)
    requires keys' == if k in keys then keys else keys + [k]
    ensures acc[k := updated].Keys == (set k' | k' in keys')
  {
    assert acc[k := updated].Keys == acc.Keys + {k};
    if k !in keys {
      assert (set k' | k' in keys') == (set k' | k' in keys) + {k};
    }
  }

  /** One iteration of the first loop: count `a` in its bucket, if it has one. */
  method AddAnswer<K(==)>(keys: seq<K>, acc: map<K, Acc>, a: Answer, keyOf: Answer -> Option<K>,
                          ghost seen: seq<Answer>)
    returns (keys': seq<K>, acc': map<K, Acc>)
    requires AccsMatch(keys, acc, seen, keyOf)
    ensures AccsMatch(keys', acc', seen + [a], keyOf)
  {
    keys', acc' := keys, acc;
    if keyOf(a).Some? {
      var k := keyOf(a).value;
      assert k in acc <==> k in keys;
      // a defaultdict entry starts at zero attempts and no scores
      var entry := if k in acc then acc[k] else Acc(0, []);
      AccsMatchAdd(keys, acc, seen, a, keyOf, k, entry);
      if k !in acc {
        keys' := keys + [k];
      }
      var scores := entry.scores;
      if Truthy(a.confidenceScore) {
        scores := scores + [a.confidenceScore.value];
      } else {
        assert scores == entry.scores + [];
      }
      acc' := acc[k := Acc(entry.questionsAttempted + 1, scores)];
    } else {
      AccsMatchSkip(keys, acc, seen, a, keyOf);
    }
  }

  /** The first loop of a bucketing pass: every answer with a key is counted in
      its bucket and its truthy score appended to the bucket's list. */
  method Accumulate<K(==)>(answers: seq<Answer>, keyOf: Answer -> Option<K>)
    returns (keys: seq<K>, acc: map<K, Acc>)
    ensures AccsMatch(keys, acc, answers, keyOf)
  {
    keys := [];
    acc := map[];
    var i := 0;
    while i < |answers|
      invariant 0 <= i <= |answers|
      invariant AccsMatch(keys, acc, answers[..i], keyOf)
    {
      assert answers[..i + 1] == answers[..i] + [answers[i]];
      keys, acc := AddAnswer(keys, acc, answers[i], keyOf, answers[..i]);
      i := i + 1;
    }
    assert answers[..i] == answers;
  }

  /** The two passes of a bucketing function: accumulate, then report each key's
      count and average in insertion order with the raw scores dropped. */
  method Bucketize<K(==)>(answers: seq<Answer>, keyOf: Answer -> Option<K>) returns (r: seq<(K, Bucket)>)
    ensures r == Buckets(answers, keyOf)
  {
    var keys, acc := Accumulate(answers, keyOf);
    r := [];
    var j := 0;
    while j < |keys|
      invariant 0 <= j <= |keys|
      invariant r == BucketsOver(keys[..j], answers, keyOf)
    {
      var data := acc[keys[j]];
      var average := 0.0;
      if |data.scores| > 0 {
        average := Sum(data.scores) / (|data.scores| as real);
      }
      assert keys[..j + 1][..j] == keys[..j];
      r := r + [(keys[j], Bucket(data.questionsAttempted, average))];
      j := j + 1;
    }
    assert keys[..j] == keys;
  }

  // ---------------------------------------------------------------------
  // Bucket totals

  /** The sum of `questions_attempted` over the reported buckets. */
  ghost function TotalAttempted<K>(bs: seq<(K, Bucket)>): nat
    decreases |bs|
  {
    if bs == [] then 0 else TotalAttempted(bs[..|bs| - 1]) + bs[|bs| - 1].1.questionsAttempted
  }

  /** The number of answers that fall into the buckets `ks`. */
  ghost function CountOver<K>(ks: seq<K>, answers: seq<Answer>, keyOf: Answer -> Option<K>): nat
    decreases |ks|
  {
    if ks == [] then 0
    else CountOver(ks[..|ks| - 1], answers, keyOf) + |KeyedWith(answers, keyOf, ks[|ks| - 1])|
  }

  lemma {:induction false} TotalIsCount<K>(ks: seq<K>, answers: seq<Answer>, keyOf: Answer -> Option<K>)
    ensures TotalAttempted(BucketsOver(ks, answers, keyOf)) == CountOver(ks, answers, keyOf)
    decreases |ks|
  {
    if ks != [] {
      var init := ks[..|ks| - 1];
      TotalIsCount(init, answers, keyOf);
      var bs := BucketsOver(ks, answers, keyOf);
      assert bs[..|bs| - 1] == BucketsOver(init, answers, keyOf);
    }
  }

  lemma {:induction false} CountOverStep<K>(ks: seq<K>, seen: seq<Answer>, a: Answer, keyOf: Answer -> Option<K>)
    requires Distinct(ks)
    ensures CountOver(ks, seen + [a], keyOf)
         == CountOver(ks, seen, keyOf) + (if keyOf(a).Some? && keyOf(a).value in ks then 1 else 0)
    decreases |ks|
  {
    if ks != [] {
      var init := ks[..|ks| - 1];
      var last := ks[|ks| - 1];
      assert ks == init + [last];
      assert Distinct(init);
      assert last !in init;
      CountOverStep(init, seen, a, keyOf);
      KeyedWithStep(seen, a, keyOf, last);
    }
  }

  lemma {:induction false} CountOverNewKey<K>(ks: seq<K>, k: K, answers: seq<Answer>, keyOf: Answer -> Option<K>)
    ensures CountOver(ks + [k], answers, keyOf) == CountOver(ks, answers, keyOf) + |KeyedWith(answers, keyOf, k)|
  {
    assert (ks + [k])[..|ks|] == ks;
  }

  lemma {:induction false} KeyedStep<K>(seen: seq<Answer>, a: Answer, keyOf: Answer -> Option<K>)
    ensures Keyed(seen + [a], keyOf) == Keyed(seen, keyOf) + (if keyOf(a).Some? then [a] else [])
  {
    assert (seen + [a])[..|seen|] == seen;
  }

  lemma {:induction false} CountAllKeys<K>(answers: seq<Answer>, keyOf: Answer -> Option<K>)
    ensures CountOver(FirstKeys(answers, keyOf), answers, keyOf) == |Keyed(answers, keyOf)|
    decreases |answers|
  {
    if answers != [] {
      var seen := answers[..|answers| - 1];
      var a := answers[|answers| - 1];
      assert answers == seen + [a];
      CountAllKeys(seen, keyOf);
      FirstKeysExact(seen, keyOf);
      var ks := FirstKeys(seen, keyOf);
      FirstKeysStep(seen, a, keyOf);
      KeyedStep(seen, a, keyOf);
      CountOverStep(ks, seen, a, keyOf);
      if keyOf(a).Some? && keyOf(a).value !in ks {
        var k := keyOf(a).value;
        CountOverNewKey(ks, k, answers, keyOf);
        UnseenKeyIsEmpty(seen, keyOf, k);
        KeyedWithStep(seen, a, keyOf, k);
      }
    }
  }

  /** The buckets' attempt counts add up to the number of answers that have a
      bucket: each of them is counted once, in one bucket. */
  lemma BucketsCountKeyed<K>(answers: seq<Answer>, keyOf: Answer -> Option<K>)
    ensures TotalAttempted(Buckets(answers, keyOf)) == |Keyed(answers, keyOf)|
  {
    CountAllKeys(answers, keyOf);
    TotalIsCount(FirstKeys(answers, keyOf), answers, keyOf);
  }

  /** Every truthy score drawn from answers with scores in [0, 1] is in [0, 1]. */
  lemma {:induction false} TruthyScoresInUnit(answers: seq<Answer>)
    requires forall j :: 0 <= j < |answers| && answers[j].confidenceScore.Some?
               ==> 0.0 <= answers[j].confidenceScore.value <= 1.0
    ensures forall i :: 0 <= i < |TruthyScores(answers)| ==> 0.0 <= TruthyScores(answers)[i] <= 1.0
    decreases |answers|
  {
    if answers != [] {
      TruthyScoresInUnit(answers[..|answers| - 1]);
    }
  }

  /** With confidence scores in [0, 1] every bucket's average lies in [0, 1]. */
  lemma BucketAverageInUnit<K>(answers: seq<Answer>, keyOf: Answer -> Option<K>, k: K)
    requires forall j :: 0 <= j < |answers| && answers[j].confidenceScore.Some?
               ==> 0.0 <= answers[j].confidenceScore.value <= 1.0
    ensures 0.0 <= BucketOf(answers, keyOf, k).averageScore <= 1.0
  {
    var inBucket := KeyedWith(answers, keyOf, k);
    TruthyScoresInUnit(inBucket);
    if |TruthyScores(inBucket)| > 0 {
      MeanBounds(TruthyScores(inBucket), 0.0, 1.0);
    }
  }

  // ---------------------------------------------------------------------
  // Weekly progress (_get_weekly_progress)

  /** `week_start` of an answer; every answer has one. */
  function WeekKey(a: Answer): Option<int>
  {
    Some(WeekStart(a.createdAt.day))
  }

  /** The answers dated in the Monday-to-Sunday week that starts on `monday`. */
  function InWeek(monday: int): Answer -> bool
  {
    (a: Answer) => monday <= a.createdAt.day < monday + 7
  }

  method WeeklyProgress(answers: seq<Answer>) returns (weeks: seq<(int, Bucket)>)
    ensures weeks == Buckets(answers, WeekKey)
  {
    weeks := Bucketize(answers, WeekKey);
  }

  /** The weekly counts add up to the number of answers: each answer is
      counted in exactly one week. */
  lemma {:induction false} WeeklyTotalIsAnswerCount(answers: seq<Answer>)
    ensures TotalAttempted(Buckets(answers, WeekKey)) == |answers|
  {
    BucketsCountKeyed(answers, WeekKey);
    FilterExt(answers, HasSomeKey(WeekKey), _ => true);
    FilterAll(answers);
  }

  /** Each weekly bucket is a distinct Monday and counts exactly the answers
      dated in the Monday-to-Sunday week it starts. */
  lemma {:induction false} WeeklyBucketsAreCalendarWeeks(answers: seq<Answer>)
    ensures var w := Buckets(answers, WeekKey);
      && (forall i, j :: 0 <= i < j < |w| ==> w[i].0 != w[j].0)
      && (forall i :: 0 <= i < |w| ==> Weekday(w[i].0) == 0)
      && (forall i :: 0 <= i < |w| ==> w[i].1.questionsAttempted == |Filter(answers, InWeek(w[i].0))|)
  {
    var w := Buckets(answers, WeekKey);
    var ks := FirstKeys(answers, WeekKey);
    FirstKeysExact(answers, WeekKey);
    forall i | 0 <= i < |w|
      ensures Weekday(w[i].0) == 0
      ensures w[i].1.questionsAttempted == |Filter(answers, InWeek(w[i].0))|
    {
      WeekBucketIsCalendarWeek(answers, ks[i]);
    }
  }

  lemma {:induction false} WeekBucketIsCalendarWeek(answers: seq<Answer>, monday: int)
    requires |KeyedWith(answers, WeekKey, monday)| > 0
    ensures Weekday(monday) == 0
    ensures KeyedWith(answers, WeekKey, monday) == Filter(answers, InWeek(monday))
  {
    var x := KeyedWith(answers, WeekKey, monday)[0];
    WeekStartIsMonday(x.createdAt.day);
    forall j | 0 <= j < |answers|
      ensures KeyIs(WeekKey, monday)(answers[j]) == InWeek(monday)(answers[j])
    {
      var d := answers[j].createdAt.day;
      WeekStartIsMonday(d);
      if monday <= d < monday + 7 {
        WeekStartUnique(d, monday);
      }
    }
    FilterExt(answers, KeyIs(WeekKey, monday), InWeek(monday));
  }

  /** Every answer falls in the week of some bucket. */
  lemma {:induction false} WeeklyBucketsCoverAnswers(answers: seq<Answer>)
    ensures var w := Buckets(answers, WeekKey);
      forall j :: 0 <= j < |answers| ==>
        exists i :: 0 <= i < |w| && w[i].0 <= answers[j].createdAt.day < w[i].0 + 7
  {
    var w := Buckets(answers, WeekKey);
    var ks := FirstKeys(answers, WeekKey);
    FirstKeysExact(answers, WeekKey);
    forall j | 0 <= j < |answers|
      ensures exists i :: 0 <= i < |w| && w[i].0 <= answers[j].createdAt.day < w[i].0 + 7
    {
      var d := answers[j].createdAt.day;
      WeekStartIsMonday(d);
      assert WeekKey(answers[j]).value in ks;
      var i :| 0 <= i < |ks| && ks[i] == WeekStart(d);
      assert w[i].0 == WeekStart(d);
    }
  }

  /** Filtering by a condition every element meets keeps everything. */
  lemma {:induction false} FilterAll(s: seq<Answer>)
    ensures Filter(s, _ => true) == s
    decreases |s|
  {
    if s != [] {
      FilterAll(s[..|s| - 1]);
    }
  }

  // ---------------------------------------------------------------------
  // Category performance (_get_category_performance)

  /** The category of the answer's question, looked up with `.one()`; None when
      no question has that id. */
  function CategoryOf(questions: seq<Question>, a: Answer): Option<string>
  {
    match FindQuestion(questions, a.questionId)
    case None => None
    case Some(q) => Some(q.category)
  }

  function CategoryKey(questions: seq<Question>): Answer -> Option<string>
  {
    (a: Answer) => CategoryOf(questions, a)
  }

  /** The answers whose question exists. */
  function QuestionKnown(questions: seq<Question>): Answer -> bool
  {
    (a: Answer) => exists i :: 0 <= i < |questions| && questions[i].id == a.questionId
  }

  method CategoryPerformance(answers: seq<Answer>, questions: seq<Question>) returns (categories: seq<(string, Bucket)>)
    ensures categories == Buckets(answers, CategoryKey(questions))
  {
    categories := Bucketize(answers, CategoryKey(questions));
  }

  /** The category counts add up to the number of answers whose question
      exists: those are counted once each, and the others are skipped. */
  lemma {:induction false} CategoryTotalIsKnownAnswerCount(answers: seq<Answer>, questions: seq<Question>)
    ensures TotalAttempted(Buckets(answers, CategoryKey(questions)))
         == |Filter(answers, QuestionKnown(questions))| <= |answers|
  {
    BucketsCountKeyed(answers, CategoryKey(questions));
    FilterExt(answers, HasSomeKey(CategoryKey(questions)), QuestionKnown(questions));
  }

  /** The category buckets are distinct categories of stored questions. */
  lemma {:induction false} CategoryBucketsAreCategories(answers: seq<Answer>, questions: seq<Question>)
    ensures var c := Buckets(answers, CategoryKey(questions));
      && (forall i, j :: 0 <= i < j < |c| ==> c[i].0 != c[j].0)
      && (forall i :: 0 <= i < |c| ==> exists q :: q in questions && q.category == c[i].0)
  {
    var key := CategoryKey(questions);
    var c := Buckets(answers, key);
    var ks := FirstKeys(answers, key);
    FirstKeysExact(answers, key);
    forall i | 0 <= i < |c| ensures exists q :: q in questions && q.category == c[i].0 {
      var x := KeyedWith(answers, key, ks[i])[0];
      assert CategoryOf(questions, x) == Some(ks[i]);
      var q := FindQuestion(questions, x.questionId).value;
      assert q in questions && q.category == c[i].0;
    }
  }

  /** Every answer whose question exists is counted under its question's category. */
  lemma {:induction false} CategoryBucketsCoverKnownAnswers(answers: seq<Answer>, questions: seq<Question>)
    ensures var c := Buckets(answers, CategoryKey(questions));
      forall j :: 0 <= j < |answers| && QuestionKnown(questions)(answers[j]) ==>
        exists i :: 0 <= i < |c| && Some(c[i].0) == CategoryOf(questions, answers[j])
  {
    var key := CategoryKey(questions);
    var c := Buckets(answers, key);
    var ks := FirstKeys(answers, key);
    FirstKeysExact(answers, key);
    forall j | 0 <= j < |answers| && QuestionKnown(questions)(answers[j])
      ensures exists i :: 0 <= i < |c| && Some(c[i].0) == CategoryOf(questions, answers[j])
    {
      assert key(answers[j]).Some?;
      var i :| 0 <= i < |ks| && ks[i] == CategoryOf(questions, answers[j]).value;
      assert c[i].0 == ks[i];
    }
  }

  // ---------------------------------------------------------------------
  // get_user_statistics

  /** The statistics dict. practice_sessions, total_practice_time and the three
      area lists are never filled in: they stay 0 and empty. */
  datatype Stats = Stats(
    totalQuestionsAttempted: nat,
    questionsCompleted: nat,
    averageConfidenceScore: real,
    practiceSessions: nat,
    totalPracticeTime: nat,
    strengthAreas: seq<string>,
    weakAreas: seq<string>,
    recentActivity: seq<Answer>,
    weeklyProgress: seq<(int, Bucket)>,
    categoryPerformance: seq<(string, Bucket)>)

  /** What get_user_statistics reports for `user` over the three tables. */
  function StatisticsOf(answerTable: seq<Answer>, progressTable: seq<ProgressRow>,
                        questions: seq<Question>, user: Uuid): Stats
  {
    var answers := AnswersOf(answerTable, user);
    Stats(|answers|, |Filter(ProgressOf(progressTable, user), IsCompleted)|, Mean(TruthyScores(answers)),
          0, 0, [], [], [], Buckets(answers, WeekKey), Buckets(answers, CategoryKey(questions)))
  }

  /** The first loop of get_user_statistics: count every answer and collect
      the truthy scores. */
  method CountAttempts(answers: seq<Answer>) returns (total: nat, scores: seq<real>)
    ensures total == |answers|
    ensures scores == TruthyScores(answers)
  {
    total := 0;
    scores := [];
    for i := 0 to |answers|
      invariant total == i
      invariant scores == TruthyScores(answers[..i])
    {
      assert answers[..i + 1] == answers[..i] + [answers[i]];
      TruthyScoresStep(answers[..i], answers[i]);
      total := total + 1;
      if Truthy(answers[i].confidenceScore) {
        scores := scores + [answers[i].confidenceScore.value];
      } else {
        assert scores == scores + [];
      }
    }
    assert answers[..|answers|] == answers;
  }

  /** The second loop: count the progress rows whose status is 'completed'. */
  method CountCompleted(progress: seq<ProgressRow>) returns (completed: nat)
    ensures completed == |Filter(progress, IsCompleted)|
  {
    completed := 0;
    for i := 0 to |progress|
      invariant completed == |Filter(progress[..i], IsCompleted)|
    {
      assert progress[..i + 1][..i] == progress[..i];
      if progress[i].status == Completed {
        completed := completed + 1;
      }
    }
    assert progress[..|progress|] == progress;
  }

  method GetUserStatistics(answerTable: seq<Answer>, progressTable: seq<ProgressRow>,
                           questions: seq<Question>, user: Uuid) returns (stats: Stats)
    ensures stats == StatisticsOf(answerTable, progressTable, questions, user)
  {
    var answers := AnswersOf(answerTable, user);
    var progress := ProgressOf(progressTable, user);
    var weekly := WeeklyProgress(answers);
    var categories := CategoryPerformance(answers, questions);
    var total, scores := CountAttempts(answers);
    var completed := CountCompleted(progress);
    var average := 0.0;
    if |scores| > 0 {
      average := Sum(scores) / (|scores| as real);
    }
    stats := Stats(total, completed, average, 0, 0, [], [], [], weekly, categories);
  }

  /** The answers of `user` as the statistics see them: exactly the user's rows. */
  lemma AnswersOfAreTheUsers(table: seq<Answer>, user: Uuid)
    ensures |AnswersOf(table, user)| == |Filter(table, AnswerOwnedBy(user))|
    ensures forall a :: a in AnswersOf(table, user) <==> a in table && a.userId == user
  {
    SortByMembers(Filter(table, AnswerOwnedBy(user)), NewestFirst);
    forall a | a in table && a.userId == user ensures a in Filter(table, AnswerOwnedBy(user)) {
      var j :| 0 <= j < |table| && table[j] == a;
    }
  }

  /** total_questions_attempted is the number of the user's answers and also the
      sum of the weekly counts; the category counts never exceed it, and
      questions_completed never exceeds the user's progress rows. */
  lemma StatisticsCounts(answerTable: seq<Answer>, progressTable: seq<ProgressRow>,
                         questions: seq<Question>, user: Uuid)
    ensures var st := StatisticsOf(answerTable, progressTable, questions, user);
      && st.totalQuestionsAttempted == |Filter(answerTable, AnswerOwnedBy(user))|
      && TotalAttempted(st.weeklyProgress) == st.totalQuestionsAttempted
      && TotalAttempted(st.categoryPerformance) <= st.totalQuestionsAttempted
      && st.questionsCompleted <= |ProgressOf(progressTable, user)|
  {
    var answers := AnswersOf(answerTable, user);
    AnswersOfAreTheUsers(answerTable, user);
    WeeklyTotalIsAnswerCount(answers);
    CategoryTotalIsKnownAnswerCount(answers, questions);
  }

  /** With confidence scores in [0, 1] the overall average and every weekly and
      category average lie in [0, 1]. */
  lemma {:induction false} StatisticsAveragesInUnit(answerTable: seq<Answer>, progressTable: seq<ProgressRow>,
                                 questions: seq<Question>, user: Uuid)
    requires forall j :: 0 <= j < |answerTable| && answerTable[j].confidenceScore.Some?
               ==> 0.0 <= answerTable[j].confidenceScore.value <= 1.0
    ensures var st := StatisticsOf(answerTable, progressTable, questions, user);
      && 0.0 <= st.averageConfidenceScore <= 1.0
      && (forall i :: 0 <= i < |st.weeklyProgress| ==> 0.0 <= st.weeklyProgress[i].1.averageScore <= 1.0)
      && (forall i :: 0 <= i < |st.categoryPerformance| ==> 0.0 <= st.categoryPerformance[i].1.averageScore <= 1.0)
  {
    var answers := AnswersOf(answerTable, user);
    AnswersOfAreTheUsers(answerTable, user);
    forall j | 0 <= j < |answers| && answers[j].confidenceScore.Some?
      ensures 0.0 <= answers[j].confidenceScore.value <= 1.0
    {
      assert answers[j] in answerTable;
    }
    TruthyScoresInUnit(answers);
    if |TruthyScores(answers)| > 0 {
      MeanBounds(TruthyScores(answers), 0.0, 1.0);
    }
    BucketsInUnit(answers, WeekKey);
    BucketsInUnit(answers, CategoryKey(questions));
  }

  lemma {:induction false} BucketsInUnit<K>(answers: seq<Answer>, keyOf: Answer -> Option<K>)
    requires forall j :: 0 <= j < |answers| && answers[j].confidenceScore.Some?
               ==> 0.0 <= answers[j].confidenceScore.value <= 1.0
    ensures forall i :: 0 <= i < |Buckets(answers, keyOf)| ==> 0.0 <= Buckets(answers, keyOf)[i].1.averageScore <= 1.0
  {
    var b := Buckets(answers, keyOf);
    forall i | 0 <= i < |b| ensures 0.0 <= b[i].1.averageScore <= 1.0 {
      BucketAverageInUnit(answers, keyOf, b[i].0);
    }
  }

  // ---------------------------------------------------------------------
  // get_recommended_questions

  /** The sort key `x[1]["average_score"]` of a category_performance item. */
  function AverageKey(e: (string, Bucket)): real
  {
    e.1.averageScore
  }

  /** The LEFT JOIN ... WHERE p.id IS NULL anti-join: `user` has no progress
      row for question `q`. */
  predicate Unattempted(progress: seq<ProgressRow>, user: Uuid, q: Question)
  {
    !HasKey(progress, ProgressKey, (user, q.id))
  }

  function UnattemptedIn(progress: seq<ProgressRow>, user: Uuid, category: string): Question -> bool
  {
    (q: Question) => q.category == category && Unattempted(progress, user, q)
  }

  /** The per-category query with its `LIMIT n`. */
  function FetchUnattempted(questions: seq<Question>, progress: seq<ProgressRow>, user: Uuid,
                            category: string, n: int): seq<Question>
  {
    PrefixSlice(Filter(questions, UnattemptedIn(progress, user, category)), n)
  }

  /** The loop over the sorted categories with `sofar` already recommended: it
      stops as soon as `limit` questions are collected. */
  function RecommendFrom(cats: seq<(string, Bucket)>, questions: seq<Question>, progress: seq<ProgressRow>,
                         user: Uuid, limit: int, sofar: seq<Question>): seq<Question>
    decreases |cats|
  {
    if cats == [] || |sofar| >= limit then sofar
    else RecommendFrom(cats[1..], questions, progress, user, limit,
                       sofar + FetchUnattempted(questions, progress, user, cats[0].0, limit - |sofar|))
  }

  /** What get_recommended_questions returns: the user's categories from the
      lowest average up, each contributing unattempted questions. */
  function Recommendations(answerTable: seq<Answer>, progressTable: seq<ProgressRow>,
                           questions: seq<Question>, user: Uuid, limit: int): seq<Question>
  {
    var perf := StatisticsOf(answerTable, progressTable, questions, user).categoryPerformance;
    RecommendFrom(SortBy(perf, AverageKey), questions, progressTable, user, limit, [])
  }

  method GetRecommendedQuestions(answerTable: seq<Answer>, progressTable: seq<ProgressRow>,
                                 questions: seq<Question>, user: Uuid, limit: int) returns (r: seq<Question>)
    ensures r == Recommendations(answerTable, progressTable, questions, user, limit)
  {
    var stats := GetUserStatistics(answerTable, progressTable, questions, user);
    var sorted := SortBy(stats.categoryPerformance, AverageKey);
    r := [];
    var i := 0;
    while i < |sorted|
      invariant 0 <= i <= |sorted|
      invariant RecommendFrom(sorted[i..], questions, progressTable, user, limit, r)
             == RecommendFrom(sorted, questions, progressTable, user, limit, [])
    {
      if |r| >= limit {
        break;
      }
      var fetched := FetchUnattempted(questions, progressTable, user, sorted[i].0, limit - |r|);
      assert sorted[i..][1..] == sorted[i + 1..];
      r := r + fetched;
      i := i + 1;
    }
  }

  /** The loop never collects more than `limit` questions. */
  lemma {:induction false} RecommendFromBound(cats: seq<(string, Bucket)>, questions: seq<Question>,
                                              progress: seq<ProgressRow>, user: Uuid, limit: int, sofar: seq<Question>)
    requires |sofar| <= limit
    ensures |RecommendFrom(cats, questions, progress, user, limit, sofar)| <= limit
    decreases |cats|
  {
    if cats != [] && |sofar| < limit {
      var fetched := FetchUnattempted(questions, progress, user, cats[0].0, limit - |sofar|);
      RecommendFromBound(cats[1..], questions, progress, user, limit, sofar + fetched);
    }
  }

  /** At most `limit` questions are recommended, and none when `limit <= 0`. */
  lemma RecommendationsAtMostLimit(answerTable: seq<Answer>, progressTable: seq<ProgressRow>,
                                   questions: seq<Question>, user: Uuid, limit: int)
    ensures |Recommendations(answerTable, progressTable, questions, user, limit)| <= if limit > 0 then limit else 0
  {
    var perf := StatisticsOf(answerTable, progressTable, questions, user).categoryPerformance;
    if limit > 0 {
      RecommendFromBound(SortBy(perf, AverageKey), questions, progressTable, user, limit, []);
    }
  }

  /** Every question the loop adds is stored, unattempted by the user and of
      one of the loop's categories. */
  lemma {:induction false} RecommendFromSound(cats: seq<(string, Bucket)>, questions: seq<Question>,
                                              progress: seq<ProgressRow>, user: Uuid, limit: int, sofar: seq<Question>)
    ensures forall q :: q in RecommendFrom(cats, questions, progress, user, limit, sofar) ==>
      q in sofar || (q in questions && Unattempted(progress, user, q)
                     && exists k :: 0 <= k < |cats| && cats[k].0 == q.category)
    decreases |cats|
  {
    if cats != [] && |sofar| < limit {
      var fetched := FetchUnattempted(questions, progress, user, cats[0].0, limit - |sofar|);
      RecommendFromSound(cats[1..], questions, progress, user, limit, sofar + fetched);
      forall q | q in fetched
        ensures q in questions && Unattempted(progress, user, q) && q.category == cats[0].0
      {
        var all := Filter(questions, UnattemptedIn(progress, user, cats[0].0));
        var j :| 0 <= j < |fetched| && fetched[j] == q;
        assert q == all[j];
      }
      forall q | q in RecommendFrom(cats, questions, progress, user, limit, sofar) && q !in sofar && q !in fetched
        ensures exists k :: 0 <= k < |cats| && cats[k].0 == q.category
      {
        var k :| 0 <= k < |cats[1..]| && cats[1..][k].0 == q.category;
        assert cats[k + 1].0 == q.category;
      }
    }
  }

  /** Every recommended question is stored, has no progress row of the user and
      belongs to a category the user has answered questions in. */
  lemma {:induction false} RecommendationsAreUnattempted(answerTable: seq<Answer>, progressTable: seq<ProgressRow>,
                                      questions: seq<Question>, user: Uuid, limit: int)
    ensures var perf := StatisticsOf(answerTable, progressTable, questions, user).categoryPerformance;
      forall q :: q in Recommendations(answerTable, progressTable, questions, user, limit) ==>
        && q in questions
        && Unattempted(progressTable, user, q)
        && exists k :: 0 <= k < |perf| && perf[k].0 == q.category
  {
    var perf := StatisticsOf(answerTable, progressTable, questions, user).categoryPerformance;
    RecommendFromSortedSound(perf, questions, progressTable, user, limit);
  }

  lemma {:induction false} RecommendFromSortedSound(perf: seq<(string, Bucket)>, questions: seq<Question>,
                                                    progress: seq<ProgressRow>, user: Uuid, limit: int)
    ensures forall q :: q in RecommendFrom(SortBy(perf, AverageKey), questions, progress, user, limit, []) ==>
        && q in questions
        && Unattempted(progress, user, q)
        && exists k :: 0 <= k < |perf| && perf[k].0 == q.category
  {
    var sorted := SortBy(perf, AverageKey);
    RecommendFromSound(sorted, questions, progress, user, limit, []);
    SortByMembers(perf, AverageKey);
    forall q | q in RecommendFrom(sorted, questions, progress, user, limit, [])
      ensures exists k :: 0 <= k < |perf| && perf[k].0 == q.category
    {
      var k :| 0 <= k < |sorted| && sorted[k].0 == q.category;
      assert sorted[k] in perf;
      var m :| 0 <= m < |perf| && perf[m] == sorted[k];
    }
  }

  /** The questions of a fetched chunk all have the chunk's category. */
  lemma FetchedCategory(questions: seq<Question>, progress: seq<ProgressRow>, user: Uuid, category: string, n: int)
    ensures forall i :: 0 <= i < |FetchUnattempted(questions, progress, user, category, n)|
              ==> FetchUnattempted(questions, progress, user, category, n)[i].category == category
  {
    var all := Filter(questions, UnattemptedIn(progress, user, category));
    var fetched := FetchUnattempted(questions, progress, user, category, n);
    forall i | 0 <= i < |fetched| ensures fetched[i].category == category {
      assert fetched[i] == all[i];
    }
  }

  /** Over categories sorted by average, with `avg` giving each category's
      average, the loop lists questions in non-decreasing category average. */
  lemma {:induction false} RecommendFromOrdered(cats: seq<(string, Bucket)>, questions: seq<Question>,
                                                progress: seq<ProgressRow>, user: Uuid, limit: int,
                                                sofar: seq<Question>, avg: string -> real)
    requires SortedBy(cats, AverageKey)
    requires forall k :: 0 <= k < |cats| ==> avg(cats[k].0) == cats[k].1.averageScore
    requires forall i, j :: 0 <= i < j < |sofar| ==> avg(sofar[i].category) <= avg(sofar[j].category)
    requires |cats| > 0 ==> forall i :: 0 <= i < |sofar| ==> avg(sofar[i].category) <= cats[0].1.averageScore
    ensures forall i, j :: 0 <= i < j < |RecommendFrom(cats, questions, progress, user, limit, sofar)| ==>
      avg(RecommendFrom(cats, questions, progress, user, limit, sofar)[i].category)
        <= avg(RecommendFrom(cats, questions, progress, user, limit, sofar)[j].category)
    decreases |cats|
  {
    if cats != [] && |sofar| < limit {
      var fetched := FetchUnattempted(questions, progress, user, cats[0].0, limit - |sofar|);
      FetchedCategory(questions, progress, user, cats[0].0, limit - |sofar|);
      var next := sofar + fetched;
      assert forall i :: |sofar| <= i < |next| ==> avg(next[i].category) == cats[0].1.averageScore;
      if |cats| > 1 {
        assert AverageKey(cats[0]) <= AverageKey(cats[1]);
      }
      RecommendFromOrdered(cats[1..], questions, progress, user, limit, next, avg);
    }
  }

  function NamedCategory(c: string): ((string, Bucket)) -> bool
  {
    (e: (string, Bucket)) => e.0 == c
  }

  /** The average score that category_performance reports for category `c`. */
  function CategoryAverage(perf: seq<(string, Bucket)>, c: string): real
  {
    match FirstMatch(perf, NamedCategory(c))
    case None => 0.0
    case Some(e) => e.1.averageScore
  }

  /** Weakest categories first: along the recommendations, the average score of
      the question's category never decreases. */
  lemma RecommendationsWeakestFirst(answerTable: seq<Answer>, progressTable: seq<ProgressRow>,
                                    questions: seq<Question>, user: Uuid, limit: int)
    ensures var perf := StatisticsOf(answerTable, progressTable, questions, user).categoryPerformance;
      var r := Recommendations(answerTable, progressTable, questions, user, limit);
      forall i, j :: 0 <= i < j < |r| ==> CategoryAverage(perf, r[i].category) <= CategoryAverage(perf, r[j].category)
  {
    var perf := StatisticsOf(answerTable, progressTable, questions, user).categoryPerformance;
    StatisticsCategoriesDistinct(answerTable, progressTable, questions, user);
    SortedCategoriesWeakestFirst(perf, questions, progressTable, user, limit);
    assert Recommendations(answerTable, progressTable, questions, user, limit)
        == RecommendFrom(SortBy(perf, AverageKey), questions, progressTable, user, limit, []);
  }

  /** category_performance is a dict: its category names are distinct. */
  lemma StatisticsCategoriesDistinct(answerTable: seq<Answer>, progressTable: seq<ProgressRow>,
                                     questions: seq<Question>, user: Uuid)
    ensures var perf := StatisticsOf(answerTable, progressTable, questions, user).categoryPerformance;
      forall i, j :: 0 <= i < j < |perf| ==> perf[i].0 != perf[j].0
  {
    CategoryBucketsAreCategories(AnswersOf(answerTable, user), questions);
  }

  lemma SortedCategoriesWeakestFirst(perf: seq<(string, Bucket)>, questions: seq<Question>,
                                     progress: seq<ProgressRow>, user: Uuid, limit: int)
    requires forall i, j :: 0 <= i < j < |perf| ==> perf[i].0 != perf[j].0
    ensures var r := RecommendFrom(SortBy(perf, AverageKey), questions, progress, user, limit, []);
      forall i, j :: 0 <= i < j < |r| ==> CategoryAverage(perf, r[i].category) <= CategoryAverage(perf, r[j].category)
  {
    var sorted := SortBy(perf, AverageKey);
    var avg := (c: string) => CategoryAverage(perf, c);
    SortByMembers(perf, AverageKey);
    forall k | 0 <= k < |sorted| ensures avg(sorted[k].0) == sorted[k].1.averageScore {
      assert sorted[k] in sorted;
      DistinctKeyLookup(perf, sorted[k]);
    }
    SortBySorted(perf, AverageKey);
    RecommendFromOrdered(sorted, questions, progress, user, limit, [], avg);
  }

  /** With distinct category names, looking up an entry's name finds that entry. */
  lemma DistinctKeyLookup(perf: seq<(string, Bucket)>, e: (string, Bucket))
    requires forall i, j :: 0 <= i < j < |perf| ==> perf[i].0 != perf[j].0
    requires e in perf
    ensures CategoryAverage(perf, e.0) == e.1.averageScore
  {
    var found := FirstMatch(perf, NamedCategory(e.0));
    var m :| 0 <= m < |perf| && perf[m] == e;
    assert NamedCategory(e.0)(perf[m]);
    var n :| 0 <= n < |perf| && perf[n] == found.value;
    assert m == n;
  }

  // ---------------------------------------------------------------------
  // update_mastery_level

  /** The new mastery of a row that exists: the running mean
      `(mastery_level * attempts + confidence_score) / (attempts + 1)`. */
  function NextMastery(mastery: real, attempts: int, score: real): real
    requires attempts + 1 != 0
  {
    (mastery * (attempts as real) + score) / ((attempts + 1) as real)
  }

  function ProgressFor(user: Uuid, question: Uuid): ProgressRow -> bool
  {
    (p: ProgressRow) => p.userId == user && p.questionId == question
  }

  /** `SET mastery_level = m, attempts = attempts + 1, last_attempt_date = now`. */
  function Attempted(mastery: real, now: DateTime): ProgressRow -> ProgressRow
  {
    (p: ProgressRow) => p.(masteryLevel := Some(mastery), attempts := p.attempts + 1, lastAttemptDate := Some(now))
  }

  /** The progress table after update_mastery_level, or None where Python
      raises: a NULL mastery_level makes `None * attempts` a TypeError, and
      `attempts == -1` would divide by zero. */
  function MasteryUpdated(rows: seq<ProgressRow>, user: Uuid, question: Uuid, score: real, now: DateTime)
    : Option<seq<ProgressRow>>
  {
    match FirstMatch(rows, ProgressFor(user, question))
    case None =>
      Some(rows + [ProgressRow(user, question, InProgress, 1, Some(score), Some(now))])
    case Some(row) =>
      if row.masteryLevel.None? || row.attempts + 1 == 0 then None
      else Some(UpdateWhere(rows, ProgressFor(user, question),
                            Attempted(NextMastery(row.masteryLevel.value, row.attempts, score), now)))
  }

  /** Returns false where the Python raises; the table is then left as it was. */
  method UpdateMasteryLevel(db: Store, user: Uuid, question: Uuid, score: real, now: DateTime) returns (ok: bool)
    requires db.Valid()
    modifies db`progress
    ensures ok == MasteryUpdated(old(db.progress), user, question, score, now).Some?
    ensures db.progress == if ok then MasteryUpdated(old(db.progress), user, question, score, now).value
                           else old(db.progress)
    ensures db.Valid()
  {
    MasteryUpdatedKeepsKeysUnique(db.progress, user, question, score, now);
    MasteryUpdatedKeepsAttemptsPositive(db.progress, user, question, score, now);
    var i := FirstIndex(db.progress, ProgressFor(user, question));
    if i.Some? {
      var current := db.progress[i.value];
      if current.masteryLevel.None? || current.attempts + 1 == 0 {
        ok := false;
        return;
      }
      var newMastery := NextMastery(current.masteryLevel.value, current.attempts, score);
      db.progress := UpdateWhere(db.progress, ProgressFor(user, question), Attempted(newMastery, now));
    } else {
      db.progress := db.progress + [ProgressRow(user, question, InProgress, 1, Some(score), Some(now))];
    }
    ok := true;
  }

  /** Every row of the updated table has at least one attempt. */
  lemma MasteryUpdatedKeepsAttemptsPositive(rows: seq<ProgressRow>, user: Uuid, question: Uuid, score: real,
                                            now: DateTime)
    requires AttemptsPositive(rows)
    ensures var r := MasteryUpdated(rows, user, question, score, now);
      r.Some? ==> AttemptsPositive(r.value)
  {
  }

  /** With one row per (user, question): no row gives an appended row with one
      attempt and the score as mastery; a row with a mastery gets the running
      mean, one more attempt and the new date, and no other row changes; a row
      with a NULL mastery makes the update fail. */
  lemma MasteryUpdatedEffect(rows: seq<ProgressRow>, user: Uuid, question: Uuid, score: real, now: DateTime)
    requires UniqueBy(rows, ProgressKey)
    ensures !HasKey(rows, ProgressKey, (user, question)) ==>
      MasteryUpdated(rows, user, question, score, now)
        == Some(rows + [ProgressRow(user, question, InProgress, 1, Some(score), Some(now))])
    ensures forall i :: 0 <= i < |rows| && ProgressKey(rows[i]) == (user, question) ==>
      if rows[i].masteryLevel.None? || rows[i].attempts + 1 == 0 then
        MasteryUpdated(rows, user, question, score, now).None?
      else
        MasteryUpdated(rows, user, question, score, now)
          == Some(rows[i := rows[i].(masteryLevel := Some(NextMastery(rows[i].masteryLevel.value, rows[i].attempts, score)),
                                    attempts := rows[i].attempts + 1,
                                    lastAttemptDate := Some(now))])
  {
    var p := ProgressFor(user, question);
    forall i | 0 <= i < |rows| && ProgressKey(rows[i]) == (user, question)
      ensures if rows[i].masteryLevel.None? || rows[i].attempts + 1 == 0 then
        MasteryUpdated(rows, user, question, score, now).None?
      else
        MasteryUpdated(rows, user, question, score, now)
          == Some(rows[i := rows[i].(masteryLevel := Some(NextMastery(rows[i].masteryLevel.value, rows[i].attempts, score)),
                                    attempts := rows[i].attempts + 1,
                                    lastAttemptDate := Some(now))])
    {
      assert p(rows[i]);
      var row := FirstMatch(rows, p).value;
      var m :| 0 <= m < |rows| && rows[m] == row;
      assert m == i;
      if row.masteryLevel.Some? && row.attempts + 1 != 0 {
        var r := UpdateWhere(rows, p, Attempted(NextMastery(row.masteryLevel.value, row.attempts, score), now));
        forall j | 0 <= j < |rows| && j != i ensures !p(rows[j]) {
          if j < i {
            assert ProgressKey(rows[j]) != ProgressKey(rows[i]);
          } else {
            assert ProgressKey(rows[i]) != ProgressKey(rows[j]);
          }
        }
        assert r == rows[i := Attempted(NextMastery(row.masteryLevel.value, row.attempts, score), now)(rows[i])];
      }
    }
  }

  /** The mastery after the scores `scores`, one update per score, starting
      with no row: the first score is inserted, each later one is averaged in. */
  ghost function MasteryAfter(scores: seq<real>): real
    requires |scores| > 0
    decreases |scores|
  {
    if |scores| == 1 then scores[0]
    else NextMastery(MasteryAfter(scores[..|scores| - 1]), |scores| - 1, scores[|scores| - 1])
  }

  /** The running-mean formula computes the plain mean of every score so far. */
  lemma {:induction false} MasteryIsMean(scores: seq<real>)
    requires |scores| > 0
    ensures MasteryAfter(scores) == Mean(scores)
    decreases |scores|
  {
    if |scores| == 1 {
      assert scores == [] + [scores[0]];
      SumAppend([], [scores[0]]);
    } else {
      var init := scores[..|scores| - 1];
      var x := scores[|scores| - 1];
      var n := |init| as real;
      MasteryIsMean(init);
      assert Mean(init) * n == Sum(init);
      assert scores == init + [x];
      SumAppend(init, [x]);
      assert Sum(scores) == Sum(init) + x;
    }
  }

  /** Scores in [0, 1] keep the running-mean mastery in [0, 1]. */
  lemma MasteryInUnit(mastery: real, attempts: int, score: real)
    requires 0.0 <= mastery <= 1.0 && 0.0 <= score <= 1.0 && attempts >= 0
    ensures 0.0 <= NextMastery(mastery, attempts, score) <= 1.0
  {
    var a := attempts as real;
    assert 0.0 <= mastery * a <= a;
    var n := (attempts + 1) as real;
    assert 0.0 <= mastery * a + score <= n;
    assert NextMastery(mastery, attempts, score) * n == mastery * a + score;
  }

  /** update_mastery_level applied once per score, in order. */
  function ApplyScores(rows: seq<ProgressRow>, user: Uuid, question: Uuid, scores: seq<real>, now: DateTime)
    : Option<seq<ProgressRow>>
    decreases |scores|
  {
    if scores == [] then Some(rows)
    else match ApplyScores(rows, user, question, scores[..|scores| - 1], now)
      case None => None
      case Some(t) => MasteryUpdated(t, user, question, scores[|scores| - 1], now)
  }

  /** Starting from no row for (user, question), a run of updates never fails,
      keeps the other rows, and leaves one row whose attempts count the scores
      and whose mastery is their mean. */
  lemma {:induction false} ApplyScoresTracksMean(rows: seq<ProgressRow>, user: Uuid, question: Uuid,
                                                 scores: seq<real>, now: DateTime)
    requires UniqueBy(rows, ProgressKey) && !HasKey(rows, ProgressKey, (user, question))
    requires |scores| > 0
    ensures ApplyScores(rows, user, question, scores, now).Some?
    ensures var t := ApplyScores(rows, user, question, scores, now).value;
      && |t| == |rows| + 1
      && t[..|rows|] == rows
      && ProgressKey(t[|rows|]) == (user, question)
      && t[|rows|].attempts == |scores|
      && t[|rows|].masteryLevel == Some(MasteryAfter(scores))
      && UniqueBy(t, ProgressKey)
    decreases |scores|
  {
    var init := scores[..|scores| - 1];
    var x := scores[|scores| - 1];
    if |scores| == 1 {
      assert init == [];
      MasteryUpdatedEffect(rows, user, question, x, now);
      MasteryUpdatedKeepsKeysUnique(rows, user, question, x, now);
    } else {
      ApplyScoresTracksMean(rows, user, question, init, now);
      var t := ApplyScores(rows, user, question, init, now).value;
      MasteryUpdatedEffect(t, user, question, x, now);
      MasteryUpdatedKeepsKeysUnique(t, user, question, x, now);
      var t' := MasteryUpdated(t, user, question, x, now).value;
      assert t'[..|rows|] == t[..|rows|];
    }
  }

  /** The update keeps one row per (user, question). */
  lemma MasteryUpdatedKeepsKeysUnique(rows: seq<ProgressRow>, user: Uuid, question: Uuid, score: real, now: DateTime)
    requires UniqueBy(rows, ProgressKey)
    ensures var r := MasteryUpdated(rows, user, question, score, now);
      r.Some? ==> UniqueBy(r.value, ProgressKey)
  {
    match FirstMatch(rows, ProgressFor(user, question))
    case None =>
      var r := rows + [ProgressRow(user, question, InProgress, 1, Some(score), Some(now))];
      forall i, j | 0 <= i < j < |r| ensures ProgressKey(r[i]) != ProgressKey(r[j]) {
        if j == |rows| {
          assert !ProgressFor(user, question)(rows[i]);
        }
      }
    case Some(row) =>
      if row.masteryLevel.Some? && row.attempts + 1 != 0 {
        var f := Attempted(NextMastery(row.masteryLevel.value, row.attempts, score), now);
        UpdateWhereKeepsUnique(rows, ProgressKey, ProgressFor(user, question), f);
      }
  }

  // ---------------------------------------------------------------------
  // get_study_plan and _calculate_improvement_time

  datatype FocusArea = FocusArea(category: string, currentScore: real, recommendedPracticeTime: string)

  datatype StudyPlan = StudyPlan(
    focusAreas: seq<FocusArea>,
    recommendedQuestions: seq<Question>,
    dailyGoals: seq<string>,
    estimatedImprovementTime: string)

  /** Half an hour for a category below 0.6, a quarter of an hour otherwise. */
  function PracticeTime(score: real): (t: string)
    ensures t == "30 minutes" <==> score < 0.6
    ensures t == "15 minutes" <==> score >= 0.6
  {
    if score < 0.6 then "30 minutes" else "15 minutes"
  }

  /** The three bands of _calculate_improvement_time; a score of exactly 0.8 or
      0.6 falls into the slower band. */
  function ImprovementTime(average: real): (t: string)
    ensures t == "1-2 weeks" <==> average > 0.8
    ensures t == "2-3 weeks" <==> 0.6 < average <= 0.8
    ensures t == "4-6 weeks" <==> average <= 0.6
  {
    if average > 0.8 then "1-2 weeks"
    else if average > 0.6 then "2-3 weeks"
    else "4-6 weeks"
  }

  /** `sorted(category_performance.items(), key=average_score)[:3]`. */
  function WeakCategories(perf: seq<(string, Bucket)>): seq<(string, Bucket)>
  {
    PrefixSlice(SortBy(perf, AverageKey), 3)
  }

  function FocusAreas(weak: seq<(string, Bucket)>): (r: seq<FocusArea>)
    ensures |r| == |weak|
  {
    seq(|weak|, i requires 0 <= i < |weak| =>
      FocusArea(weak[i].0, weak[i].1.averageScore, PracticeTime(weak[i].1.averageScore)))
  }

  function DailyGoals(weakCount: nat): seq<string>
  {
    ["Practice " + NatToString(weakCount) + " questions from your weak areas",
     "Review previous answers and feedback",
     "Update your progress tracking"]
  }

  /** What get_study_plan returns for `user`; its recommendations use limit 10. */
  function StudyPlanOf(answerTable: seq<Answer>, progressTable: seq<ProgressRow>,
                       questions: seq<Question>, user: Uuid): StudyPlan
  {
    var stats := StatisticsOf(answerTable, progressTable, questions, user);
    var weak := WeakCategories(stats.categoryPerformance);
    StudyPlan(FocusAreas(weak), Recommendations(answerTable, progressTable, questions, user, 10),
              DailyGoals(|weak|), ImprovementTime(stats.averageConfidenceScore))
  }

  method GetStudyPlan(answerTable: seq<Answer>, progressTable: seq<ProgressRow>,
                      questions: seq<Question>, user: Uuid) returns (plan: StudyPlan)
    ensures plan == StudyPlanOf(answerTable, progressTable, questions, user)
  {
    var stats := GetUserStatistics(answerTable, progressTable, questions, user);
    var weak := PrefixSlice(SortBy(stats.categoryPerformance, AverageKey), 3);
    var recommended := GetRecommendedQuestions(answerTable, progressTable, questions, user, 10);
    plan := StudyPlan(FocusAreas(weak), recommended, DailyGoals(|weak|),
                      ImprovementTime(stats.averageConfidenceScore));
  }

  /** The focus areas are the (at most three) lowest-scoring categories, lowest
      first: each is a reported category with its reported average, and every
      category left out scores at least as high as every one chosen. */
  lemma FocusAreasAreWeakest(perf: seq<(string, Bucket)>)
    ensures var f := FocusAreas(WeakCategories(perf));
      && |f| == (if |perf| < 3 then |perf| else 3)
      && (forall i, j :: 0 <= i < j < |f| ==> f[i].currentScore <= f[j].currentScore)
      && (forall i :: 0 <= i < |f| ==> f[i].recommendedPracticeTime == PracticeTime(f[i].currentScore))
      && (forall i :: 0 <= i < |f| ==>
            exists k :: 0 <= k < |perf| && perf[k].0 == f[i].category && perf[k].1.averageScore == f[i].currentScore)
  {
    var sorted := SortBy(perf, AverageKey);
    var weak := WeakCategories(perf);
    var f := FocusAreas(weak);
    SortByMembers(perf, AverageKey);
    SortBySorted(perf, AverageKey);
    forall i | 0 <= i < |f|
      ensures exists k :: 0 <= k < |perf| && perf[k].0 == f[i].category && perf[k].1.averageScore == f[i].currentScore
    {
      assert weak[i] == sorted[i];
      var k :| 0 <= k < |perf| && perf[k] == sorted[i];
    }
    forall i, j | 0 <= i < j < |f| ensures f[i].currentScore <= f[j].currentScore {
      assert weak[i] == sorted[i] && weak[j] == sorted[j];
      assert AverageKey(sorted[i]) <= AverageKey(sorted[j]);
    }
  }

  /** Every entry of the performance list that did not make the cut scores at
      least as high as every focus area. */
  lemma LeftOutCategoriesScoreHigher(perf: seq<(string, Bucket)>)
    ensures var weak := WeakCategories(perf);
      forall k, i :: 0 <= k < |perf| && perf[k] !in weak && 0 <= i < |weak| ==>
        weak[i].1.averageScore <= perf[k].1.averageScore
  {
    var sorted := SortBy(perf, AverageKey);
    var weak := WeakCategories(perf);
    SortByMembers(perf, AverageKey);
    SortBySorted(perf, AverageKey);
    forall k, i | 0 <= k < |perf| && perf[k] !in weak && 0 <= i < |weak|
      ensures weak[i].1.averageScore <= perf[k].1.averageScore
    {
      var m :| 0 <= m < |sorted| && sorted[m] == perf[k];
      assert m >= |weak|;
      assert weak[i] == sorted[i];
      assert AverageKey(sorted[i]) <= AverageKey(sorted[m]);
    }
  }

  /** The plan's first daily goal names the number of focus areas. */
  lemma StudyPlanShape(answerTable: seq<Answer>, progressTable: seq<ProgressRow>,
                       questions: seq<Question>, user: Uuid)
    ensures var plan := StudyPlanOf(answerTable, progressTable, questions, user);
      && |plan.dailyGoals| == 3
      && plan.dailyGoals[0] == "Practice " + NatToString(|plan.focusAreas|) + " questions from your weak areas"
      && |plan.focusAreas| <= 3
      && |plan.recommendedQuestions| <= 10
  {
    var perf := StatisticsOf(answerTable, progressTable, questions, user).categoryPerformance;
    FocusAreasAreWeakest(perf);
    RecommendationsAtMostLimit(answerTable, progressTable, questions, user, 10);
  }
}
