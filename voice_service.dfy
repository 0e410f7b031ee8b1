/** Keyword scoring of a spoken answer, the banded feedback text, saving a
    recording's metadata and the recordings query. */
module VoiceService {
  import opened Outcomes
  import opened Text
  import opened Seqs
  import opened Sorting
  import opened Dates
  import opened Schema

  // ---------------------------------------------------------------------
  // analyze_interview_response

  /** `keyword.lower() in transcript.lower()`. */
  predicate IsMentioned(keyword: string, transcript: string)
  {
    Contains(Lower(transcript), Lower(keyword))
  }

  function MentionedIn(transcript: string): string -> bool
  {
    (k: string) => IsMentioned(k, transcript)
  }

  function MissingFrom(transcript: string): string -> bool
  {
    (k: string) => !IsMentioned(k, transcript)
  }

  /** `len(keywords_mentioned) / len(question.keywords) if question.keywords else 0`. */
  function KeywordScore(mentioned: nat, total: nat): (score: real)
    ensures total == 0 ==> score == 0.0
    ensures mentioned <= total ==> 0.0 <= score <= 1.0
    ensures 0 < total && mentioned == total ==> score == 1.0
  {
    if total == 0 then 0.0 else (mentioned as real) / (total as real)
  }

  /** The dict analyze_interview_response returns. */
  datatype Analysis = Analysis(score: real, feedback: string, keywordsMentioned: seq<string>, missingKeywords: seq<string>)

  /** The loop over `question.keywords`: each keyword goes to one list or the other. */
  method PartitionKeywords(keywords: seq<string>, transcript: string)
    returns (mentioned: seq<string>, missing: seq<string>)
    ensures mentioned == Filter(keywords, MentionedIn(transcript))
    ensures missing == Filter(keywords, MissingFrom(transcript))
  {
    mentioned := [];
    missing := [];
    for i := 0 to |keywords|
      invariant mentioned == Filter(keywords[..i], MentionedIn(transcript))
      invariant missing == Filter(keywords[..i], MissingFrom(transcript))
    {
      assert keywords[..i + 1][..i] == keywords[..i];
      if IsMentioned(keywords[i], transcript) {
        mentioned := mentioned + [keywords[i]];
      } else {
        missing := missing + [keywords[i]];
      }
    }
    assert keywords[..|keywords|] == keywords;
  }

  /** The analysis of a question that exists. */
  function AnalysisOf(keywords: seq<string>, transcript: string): Analysis
  {
    var mentioned := Filter(keywords, MentionedIn(transcript));
    var missing := Filter(keywords, MissingFrom(transcript));
    var score := KeywordScore(|mentioned|, |keywords|);
    Analysis(score, Join(" ", FeedbackParts(score, mentioned, missing)), mentioned, missing)
  }

  method AnalyzeInterviewResponse(questions: seq<Question>, transcript: string, questionId: Uuid)
    returns (r: Analysis)
    ensures FindQuestion(questions, questionId).None? ==> r == Analysis(0.0, "Question not found", [], [])
    ensures FindQuestion(questions, questionId).Some? ==>
      r == AnalysisOf(FindQuestion(questions, questionId).value.keywords, transcript)
  {
    var question := FindQuestion(questions, questionId);
    if question.None? {
      return Analysis(0.0, "Question not found", [], []);
    }
    var keywords := question.value.keywords;
    var mentioned, missing := PartitionKeywords(keywords, transcript);
    var score := KeywordScore(|mentioned|, |keywords|);
    var feedback := GenerateFeedback(score, mentioned, missing);
    r := Analysis(score, feedback, mentioned, missing);
  }

  /** Every keyword lands in exactly one list, each list keeps the keywords'
      order, a keyword is mentioned iff its lower-case form occurs in the
      lower-cased transcript, and the score is in [0, 1]. */
  lemma AnalysisPartitionsKeywords(keywords: seq<string>, transcript: string)
    ensures var a := AnalysisOf(keywords, transcript);
      && multiset(a.keywordsMentioned) + multiset(a.missingKeywords) == multiset(keywords)
      && |a.keywordsMentioned| + |a.missingKeywords| == |keywords|
      && IsSubsequence(a.keywordsMentioned, keywords)
      && IsSubsequence(a.missingKeywords, keywords)
      && (forall k :: k in a.keywordsMentioned <==> k in keywords && IsMentioned(k, transcript))
      && (forall k :: k in a.missingKeywords <==> k in keywords && !IsMentioned(k, transcript))
      && 0.0 <= a.score <= 1.0
  {
    var a := AnalysisOf(keywords, transcript);
    FilterPartition(keywords, MentionedIn(transcript), MissingFrom(transcript));
    FilterIsSubsequence(keywords, MentionedIn(transcript));
    FilterIsSubsequence(keywords, MissingFrom(transcript));
    forall k | k in keywords && IsMentioned(k, transcript) ensures k in a.keywordsMentioned {
      var j :| 0 <= j < |keywords| && keywords[j] == k;
    }
    forall k | k in keywords && !IsMentioned(k, transcript) ensures k in a.missingKeywords {
      var j :| 0 <= j < |keywords| && keywords[j] == k;
    }
  }

  // ---------------------------------------------------------------------
  // _generate_feedback

  // The sentences of `_generate_feedback`, each written as two literals that
  // concatenate to the exact text. The verifier reads the letters of a short
  // literal but not those deep inside a long one, and `SentencesDiffer` needs
  // the first letters.
  const ExcellentSentence := "Excellent" + " response! You covered most of the key points."
  const GoodSentence := "Good" + " response, but there's room for improvement."
  const ReviewSentence := "You might" + " want to review this topic and try again."
  const MentionedPrefix := "You effectively" + " mentioned: "
  const MissingPrefix := "Consider" + " including these points in your answer: "

  /** The first sentence, chosen by score band. */
  function BandSentence(score: real): (s: string)
    ensures s == ExcellentSentence <==> score >= 0.8
    ensures s == GoodSentence <==> 0.6 <= score < 0.8
    ensures s == ReviewSentence <==> score < 0.6
  {
    if score >= 0.8 then ExcellentSentence
    else if score >= 0.6 then GoodSentence
    else ReviewSentence
  }

  /** The `feedback` list before `" ".join`. */
  function FeedbackParts(score: real, mentioned: seq<string>, missing: seq<string>): seq<string>
  {
    [BandSentence(score)]
      + (if mentioned != [] then [MentionedPrefix + Join(", ", mentioned)] else [])
      + (if missing != [] then [MissingPrefix + Join(", ", missing)] else [])
  }

  method GenerateFeedback(score: real, mentioned: seq<string>, missing: seq<string>) returns (feedback: string)
    ensures feedback == Join(" ", FeedbackParts(score, mentioned, missing))
  {
    var parts: seq<string> := [];
    if score >= 0.8 {
      parts := parts + [ExcellentSentence];
    } else if score >= 0.6 {
      parts := parts + [GoodSentence];
    } else {
      parts := parts + [ReviewSentence];
    }
    assert parts == [BandSentence(score)];
    if mentioned != [] {
      parts := parts + [MentionedPrefix + Join(", ", mentioned)];
    }
    if missing != [] {
      parts := parts + [MissingPrefix + Join(", ", missing)];
    }
    assert parts == FeedbackParts(score, mentioned, missing);
    feedback := Join(" ", parts);
  }

  /** The band sentence, the "mentioned" sentence and the "consider" sentence
      never coincide, whatever keywords follow the prefixes: their first
      letters differ, and "You might" and "You effectively" differ at the
      fifth. So the presence claims of `FeedbackStructure` are exact. */
  lemma SentencesDiffer(score: real, xs: seq<string>, ys: seq<string>)
    ensures MentionedPrefix + Join(", ", xs) != BandSentence(score)
    ensures MissingPrefix + Join(", ", ys) != BandSentence(score)
    ensures MentionedPrefix + Join(", ", xs) != MissingPrefix + Join(", ", ys)
  {
    var m := MentionedPrefix + Join(", ", xs);
    var c := MissingPrefix + Join(", ", ys);
    assert m[0] == MentionedPrefix[0] == 'Y' && m[4] == MentionedPrefix[4] == 'e';
    assert c[0] == MissingPrefix[0] == 'C';
    var b := BandSentence(score);
    if score >= 0.8 {
      assert b[0] == 'E';
    } else if score >= 0.6 {
      assert b[0] == 'G';
    } else {
      assert b[0] == 'Y' && b[4] == 'm';
    }
  }

  /** The feedback opens with the band sentence; the "mentioned" sentence is
      there iff some keyword was mentioned and the "consider" sentence iff some
      keyword is missing, in that order. */
  lemma FeedbackStructure(score: real, mentioned: seq<string>, missing: seq<string>)
    ensures var parts := FeedbackParts(score, mentioned, missing);
      && parts[0] == BandSentence(score)
      && |parts| == 1 + (if mentioned != [] then 1 else 0) + (if missing != [] then 1 else 0)
      && ((MentionedPrefix + Join(", ", mentioned)) in parts <==> mentioned != [])
      && ((MissingPrefix + Join(", ", missing)) in parts <==> missing != [])
      && StartsWith(Join(" ", parts), BandSentence(score))
  {
    var parts := FeedbackParts(score, mentioned, missing);
    SentencesDiffer(score, mentioned, missing);
    JoinStartsWithFirst(" ", parts);
  }

  lemma JoinStartsWithFirst(sep: string, parts: seq<string>)
    requires |parts| > 0
    ensures StartsWith(Join(sep, parts), parts[0])
  {
    if |parts| > 1 {
      assert Join(sep, parts) == parts[0] + (sep + Join(sep, parts[1..]));
    }
  }

  // ---------------------------------------------------------------------
  // save_voice_recording and get_user_recordings

  /** Inserts the recording with the supplied fresh id, clock reading and
      audio duration (the duration is read from the file by the speech library,
      which is not part of this model) and returns the id. */
  method SaveVoiceRecording(db: Store, userId: Uuid, questionId: Uuid, audioFilePath: string,
                            transcript: Option<string>, freshId: Uuid, now: DateTime, duration: real)
    returns (id: Uuid)
    requires db.Valid()
    modifies db`recordings
    ensures id == freshId
    ensures db.recordings == PutRow(old(db.recordings), RecordingKey,
                                    Recording(freshId, userId, questionId, audioFilePath, transcript, now, duration))
    ensures db.Valid()
  {
    var row := Recording(freshId, userId, questionId, audioFilePath, transcript, now, duration);
    db.recordings := PutRow(db.recordings, RecordingKey, row);
    id := freshId;
  }

  /** The WHERE conditions of the recordings query. */
  function RecordingMatches(userId: Uuid, questionId: Option<Uuid>): Recording -> bool
  {
    (r: Recording) => r.userId == userId && (questionId.Some? ==> r.questionId == questionId.value)
  }

  function NewestRecordingFirst(r: Recording): real
  {
    -(Ticks(r.createdAt) as real)
  }

  /** The rows the recordings query returns. */
  function RecordingsOf(table: seq<Recording>, userId: Uuid, questionId: Option<Uuid>): seq<Recording>
  {
    SortBy(Filter(table, RecordingMatches(userId, questionId)), NewestRecordingFirst)
  }

  /** Builds the query text and parameter list, then runs it. */
  method GetUserRecordings(table: seq<Recording>, userId: Uuid, questionId: Option<Uuid>)
    returns (query: string, params: seq<Uuid>, rows: seq<Recording>)
    ensures params == [userId] + (if questionId.Some? then [questionId.value] else [])
    ensures query == "SELECT * FROM voice_recordings WHERE user_id = %s"
                     + (if questionId.Some? then " AND question_id = %s" else "")
                     + " ORDER BY created_at DESC"
    ensures rows == RecordingsOf(table, userId, questionId)
  {
    query := "SELECT * FROM voice_recordings WHERE user_id = %s";
    params := [userId];
    if questionId.Some? {
      query := query + " AND question_id = %s";
      params := params + [questionId.value];
    }
    query := query + " ORDER BY created_at DESC";
    rows := RecordingsOf(table, userId, questionId);
  }

  /** The recordings returned are exactly the user's (for that question, when
      one is given), newest first. */
  lemma RecordingsAreTheUsers(table: seq<Recording>, userId: Uuid, questionId: Option<Uuid>)
    ensures var rows := RecordingsOf(table, userId, questionId);
      && (forall i :: 0 <= i < |rows| ==> rows[i] in table && rows[i].userId == userId)
      && (forall i :: 0 <= i < |rows| && questionId.Some? ==> rows[i].questionId == questionId.value)
      && (forall j :: 0 <= j < |table| && RecordingMatches(userId, questionId)(table[j]) ==> table[j] in rows)
      && (forall i, j :: 0 <= i < j < |rows| ==> Ticks(rows[i].createdAt) >= Ticks(rows[j].createdAt))
  {
    var matching := Filter(table, RecordingMatches(userId, questionId));
    SortByMembers(matching, NewestRecordingFirst);
    SortBySorted(matching, NewestRecordingFirst);
    var rows := RecordingsOf(table, userId, questionId);
    forall i, j | 0 <= i < j < |rows| ensures Ticks(rows[i].createdAt) >= Ticks(rows[j].createdAt) {
      assert NewestRecordingFirst(rows[i]) <= NewestRecordingFirst(rows[j]);
    }
  }
}
