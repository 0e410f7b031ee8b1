/** The `/interview` routes: storing a question, the filtered question query,
    answer submission with its progress upsert, and liking a question. */
module InterviewRoutes {
  import opened Outcomes
  import opened Text
  import opened Seqs
  import opened Dates
  import opened Schema
  import ProgressService

  // ---------------------------------------------------------------------
  // POST /interview/questions

  /** The question is stored as given (an INSERT replaces a row with the same
      id) and returned unchanged. */
  method CreateQuestion(db: Store, question: Question) returns (r: Question)
    requires db.Valid()
    modifies db`questions
    ensures r == question
    ensures db.questions == PutRow(old(db.questions), QuestionKey, question)
    ensures db.Valid()
  {
    db.questions := PutRow(db.questions, QuestionKey, question);
    r := question;
  }

  // ---------------------------------------------------------------------
  // GET /interview/questions

  const SelectQuestions := "SELECT * FROM interview_questions"
  const CategoryCondition := "category = %s"
  const DifficultyCondition := "difficulty = %s"
  const TagCondition := "%s = ANY(tags)"
  const CompanyCondition := "%s = ANY(company_tags)"

  function Given(filter: Option<string>): nat
  {
    if GivenText(filter) then 1 else 0
  }

  /** The WHERE clause, present only when there is a condition. */
  function WhereClause(conditions: seq<string>): string
  {
    if conditions == [] then "" else " WHERE " + Join(" AND ", conditions)
  }

  /** The (condition, parameter) pair a non-empty filter contributes. */
  function Clause(filter: Option<string>, condition: string): seq<(string, string)>
  {
    if GivenText(filter) then [(condition, filter.value)] else []
  }

  /** The conditions with their parameters, in the order the route tests the
      filters. */
  function Clauses(category: Option<string>, difficulty: Option<string>, tag: Option<string>,
                   company: Option<string>): seq<(string, string)>
  {
    Clause(category, CategoryCondition) + Clause(difficulty, DifficultyCondition)
    + Clause(tag, TagCondition) + Clause(company, CompanyCondition)
  }

  function ConditionsOf(clauses: seq<(string, string)>): (r: seq<string>)
    ensures |r| == |clauses| && forall i :: 0 <= i < |r| ==> r[i] == clauses[i].0
  {
    seq(|clauses|, i requires 0 <= i < |clauses| => clauses[i].0)
  }

  function ParamsOf(clauses: seq<(string, string)>): (r: seq<string>)
    ensures |r| == |clauses| && forall i :: 0 <= i < |r| ==> r[i] == clauses[i].1
  {
    seq(|clauses|, i requires 0 <= i < |clauses| => clauses[i].1)
  }

  /** `conditions` and `params` are the two columns of `clauses`. */
  ghost predicate Columns(conditions: seq<string>, params: seq<string>, clauses: seq<(string, string)>)
  {
    && |conditions| == |clauses| && |params| == |clauses|
    && forall i :: 0 <= i < |clauses| ==> conditions[i] == clauses[i].0 && params[i] == clauses[i].1
  }

  /** One `if filter:` step of the builder. */
  method AddClause(conditions: seq<string>, params: seq<string>, filter: Option<string>, condition: string,
                   ghost clauses: seq<(string, string)>)
    returns (conditions': seq<string>, params': seq<string>)
    requires Columns(conditions, params, clauses)
    ensures Columns(conditions', params', clauses + Clause(filter, condition))
  {
    conditions', params' := conditions, params;
    if GivenText(filter) {
      conditions', params' := conditions + [condition], params + [filter.value];
    }
  }

  /** Builds the conditions, the parameters and the query text. */
  method BuildQuestionQuery(category: Option<string>, difficulty: Option<string>, tag: Option<string>,
                            company: Option<string>, limit: int)
    returns (query: string, conditions: seq<string>, params: seq<string>)
    ensures Columns(conditions, params, Clauses(category, difficulty, tag, company))
    ensures conditions == ConditionsOf(Clauses(category, difficulty, tag, company))
    ensures params == ParamsOf(Clauses(category, difficulty, tag, company))
    ensures query == SelectQuestions + WhereClause(conditions) + " LIMIT " + IntToString(limit)
  {
    ghost var a := Clause(category, CategoryCondition);
    ghost var b := Clause(difficulty, DifficultyCondition);
    ghost var c := Clause(tag, TagCondition);
    ghost var d := Clause(company, CompanyCondition);
    conditions, params := AddClause([], [], category, CategoryCondition, []);
    assert [] + a == a;
    conditions, params := AddClause(conditions, params, difficulty, DifficultyCondition, a);
    conditions, params := AddClause(conditions, params, tag, TagCondition, a + b);
    conditions, params := AddClause(conditions, params, company, CompanyCondition, a + b + c);
    assert Clauses(category, difficulty, tag, company) == a + b + c + d;
    ColumnsAreConditions(conditions, params, a + b + c + d);
    query := RenderQuery(conditions, limit);
  }

  lemma ColumnsAreConditions(conditions: seq<string>, params: seq<string>, clauses: seq<(string, string)>)
    requires Columns(conditions, params, clauses)
    ensures conditions == ConditionsOf(clauses)
    ensures params == ParamsOf(clauses)
  {
  }

  /** The query text: the SELECT, the WHERE clause when there is a condition,
      and the LIMIT. */
  method RenderQuery(conditions: seq<string>, limit: int) returns (query: string)
    ensures query == SelectQuestions + WhereClause(conditions) + " LIMIT " + IntToString(limit)
  {
    query := SelectQuestions;
    if conditions != [] {
      query := query + " WHERE " + Join(" AND ", conditions);
    }
    query := query + " LIMIT " + IntToString(limit);
  }

  /** A condition's place in the order the route tests the filters. */
  function Rank(condition: string): nat
  {
    if condition == CategoryCondition then 0
    else if condition == DifficultyCondition then 1
    else if condition == TagCondition then 2
    else 3
  }

  /** Where each clause sits: the category clause first, then the difficulty,
      tag and company clauses, each present exactly when its filter is given;
      there is no other clause. */
  lemma ClausePositions(category: Option<string>, difficulty: Option<string>, tag: Option<string>,
                        company: Option<string>)
    ensures var cl := Clauses(category, difficulty, tag, company);
      var d0 := Given(category);
      var t0 := Given(category) + Given(difficulty);
      var c0 := Given(category) + Given(difficulty) + Given(tag);
      && |cl| == Given(category) + Given(difficulty) + Given(tag) + Given(company)
      && (GivenText(category) ==> cl[0] == (CategoryCondition, category.value))
      && (GivenText(difficulty) ==> cl[d0] == (DifficultyCondition, difficulty.value))
      && (GivenText(tag) ==> cl[t0] == (TagCondition, tag.value))
      && (GivenText(company) ==> cl[c0] == (CompanyCondition, company.value))
      && (forall i :: 0 <= i < |cl| ==>
            || (i == 0 && GivenText(category) && cl[i] == (CategoryCondition, category.value))
            || (i == d0 && GivenText(difficulty) && cl[i] == (DifficultyCondition, difficulty.value))
            || (i == t0 && GivenText(tag) && cl[i] == (TagCondition, tag.value))
            || (i == c0 && GivenText(company) && cl[i] == (CompanyCondition, company.value)))
  {
  }

  /** The clauses come in the fixed order category, difficulty, tag, company,
      one per non-empty filter; there is a WHERE clause exactly when some filter
      is given. */
  lemma ClausesOrdered(category: Option<string>, difficulty: Option<string>, tag: Option<string>,
                       company: Option<string>)
    ensures var cl := Clauses(category, difficulty, tag, company);
      && |cl| == Given(category) + Given(difficulty) + Given(tag) + Given(company)
      && (cl == [] <==> !GivenText(category) && !GivenText(difficulty) && !GivenText(tag) && !GivenText(company))
      && (forall i, j :: 0 <= i < j < |cl| ==> Rank(cl[i].0) < Rank(cl[j].0))
  {
    ClausePositions(category, difficulty, tag, company);
  }

  /** A condition is present exactly when its filter is given, and the
      parameter beside it is that filter's value. */
  lemma ClausesPaired(category: Option<string>, difficulty: Option<string>, tag: Option<string>,
                      company: Option<string>)
    ensures var cl := Clauses(category, difficulty, tag, company);
      && (GivenText(category) <==> exists i :: 0 <= i < |cl| && cl[i].0 == CategoryCondition)
      && (GivenText(difficulty) <==> exists i :: 0 <= i < |cl| && cl[i].0 == DifficultyCondition)
      && (GivenText(tag) <==> exists i :: 0 <= i < |cl| && cl[i].0 == TagCondition)
      && (GivenText(company) <==> exists i :: 0 <= i < |cl| && cl[i].0 == CompanyCondition)
      && (forall i :: 0 <= i < |cl| && cl[i].0 == CategoryCondition ==> cl[i].1 == category.value)
      && (forall i :: 0 <= i < |cl| && cl[i].0 == DifficultyCondition ==> cl[i].1 == difficulty.value)
      && (forall i :: 0 <= i < |cl| && cl[i].0 == TagCondition ==> cl[i].1 == tag.value)
      && (forall i :: 0 <= i < |cl| && cl[i].0 == CompanyCondition ==> cl[i].1 == company.value)
  {
    ClausePositions(category, difficulty, tag, company);
  }

  /** What the conditions select: every given filter must hold (a conjunction);
      tags and company tags are matched by membership. */
  function QuestionMatches(category: Option<string>, difficulty: Option<string>, tag: Option<string>,
                           company: Option<string>): Question -> bool
  {
    (q: Question) =>
      && (GivenText(category) ==> q.category == category.value)
      && (GivenText(difficulty) ==> q.difficulty == difficulty.value)
      && (GivenText(tag) ==> tag.value in q.tags)
      && (GivenText(company) ==> company.value in q.companyTags)
  }

  /** The route's result: 422 for a limit above 50, a database error for a
      negative LIMIT, otherwise the first `limit` matching rows in table order. */
  function QuestionsQuery(table: seq<Question>, category: Option<string>, difficulty: Option<string>,
                          tag: Option<string>, company: Option<string>, limit: Option<int>): Result<seq<Question>>
  {
    match ValidateLimit(limit)
    case Err(e) => Err(e)
    case Ok(l) =>
      if l < 0 then Err(HttpError(500, "LIMIT must not be negative"))
      else Ok(PrefixSlice(Filter(table, QuestionMatches(category, difficulty, tag, company)), l))
  }

  method GetQuestions(table: seq<Question>, category: Option<string>, difficulty: Option<string>,
                      tag: Option<string>, company: Option<string>, limit: Option<int>)
    returns (r: Result<seq<Question>>, query: string, params: seq<string>)
    ensures r == QuestionsQuery(table, category, difficulty, tag, company, limit)
    ensures ValidateLimit(limit).Ok? ==>
      query == SelectQuestions + WhereClause(ConditionsOf(Clauses(category, difficulty, tag, company)))
               + " LIMIT " + IntToString(ValidateLimit(limit).value)
    ensures ValidateLimit(limit).Ok? ==> params == ParamsOf(Clauses(category, difficulty, tag, company))
    ensures ValidateLimit(limit).Err? ==> query == "" && params == []
  {
    var l := ValidateLimit(limit);
    if l.Err? {
      return Err(l.error), "", [];
    }
    var conditions;
    query, conditions, params := BuildQuestionQuery(category, difficulty, tag, company, l.value);
    r := QuestionsQuery(table, category, difficulty, tag, company, limit);
  }

  /** The returned questions satisfy every given filter, come in table order,
      number at most `limit`, and are the first matching rows. */
  lemma QuestionsQueryRows(table: seq<Question>, category: Option<string>, difficulty: Option<string>,
                           tag: Option<string>, company: Option<string>, limit: Option<int>)
    ensures var r := QuestionsQuery(table, category, difficulty, tag, company, limit);
      var matching := Filter(table, QuestionMatches(category, difficulty, tag, company));
      && (r.Ok? <==> GetOr(limit, 10) <= 50 && GetOr(limit, 10) >= 0)
      && (r.Ok? ==>
            && |r.value| <= GetOr(limit, 10)
            && r.value == matching[..|r.value|]
            && IsSubsequence(r.value, table)
            && (|matching| <= GetOr(limit, 10) ==> r.value == matching)
            && (forall i :: 0 <= i < |r.value| ==>
                  && r.value[i] in table
                  && (GivenText(category) ==> r.value[i].category == category.value)
                  && (GivenText(difficulty) ==> r.value[i].difficulty == difficulty.value)
                  && (GivenText(tag) ==> tag.value in r.value[i].tags)
                  && (GivenText(company) ==> company.value in r.value[i].companyTags)))
  {
    var p := QuestionMatches(category, difficulty, tag, company);
    var matching := Filter(table, p);
    FilterIsSubsequence(table, p);
    var r := QuestionsQuery(table, category, difficulty, tag, company, limit);
    if r.Ok? {
      PrefixIsSubsequence(matching, |r.value|);
      SubsequenceTrans(r.value, matching, table);
      forall i | 0 <= i < |r.value| ensures r.value[i] in table && p(r.value[i]) {
        assert r.value[i] == matching[i];
      }
    }
  }

  lemma {:induction false} PrefixIsSubsequence<T>(s: seq<T>, n: nat)
    requires n <= |s|
    ensures IsSubsequence(s[..n], s)
    decreases |s|
  {
    if n == |s| {
      assert s[..n] == s;
      SubsequenceOfItself(s);
    } else {
      var init := s[..|s| - 1];
      PrefixIsSubsequence(init, n);
      assert init[..n] == s[..n];
    }
  }

  lemma {:induction false} SubsequenceTrans<T>(a: seq<T>, b: seq<T>, c: seq<T>)
    requires IsSubsequence(a, b) && IsSubsequence(b, c)
    ensures IsSubsequence(a, c)
    decreases |c|, |b|
  {
    if a != [] && c != [] {
      if b[|b| - 1] == c[|c| - 1] && IsSubsequence(b[..|b| - 1], c[..|c| - 1]) {
        if a[|a| - 1] == b[|b| - 1] && IsSubsequence(a[..|a| - 1], b[..|b| - 1]) {
          SubsequenceTrans(a[..|a| - 1], b[..|b| - 1], c[..|c| - 1]);
        } else {
          SubsequenceTrans(a, b[..|b| - 1], c[..|c| - 1]);
        }
      } else {
        SubsequenceTrans(a, b, c[..|c| - 1]);
      }
    }
  }

  // ---------------------------------------------------------------------
  // POST /interview/answers

  /** The row stored for a submitted answer: its user is the authenticated
      user, whatever the body says, and `updated_at` is not a column. */
  function StoredAnswer(answer: Answer, currentUserId: Uuid): Answer
  {
    answer.(userId := currentUserId, updatedAt := None)
  }

  /** `SET attempts = attempts + 1, last_attempt_date = %s`. */
  function Reattempted(at: DateTime): ProgressRow -> ProgressRow
  {
    (p: ProgressRow) => p.(attempts := p.attempts + 1, lastAttemptDate := Some(at))
  }

  /** The progress table after a submission: the user's row for the question
      is bumped, or a new in-progress row with one attempt and no mastery
      level is inserted. */
  function ProgressAfterSubmit(rows: seq<ProgressRow>, user: Uuid, question: Uuid, at: DateTime): seq<ProgressRow>
  {
    if HasKey(rows, ProgressKey, (user, question))
    then UpdateWhere(rows, ProgressService.ProgressFor(user, question), Reattempted(at))
    else rows + [ProgressRow(user, question, InProgress, 1, None, Some(at))]
  }

  /** A submission keeps one row per (user, question), leaves every other row
      as it was, and leaves the user's row for the question with one more
      attempt (or one attempt) dated at the answer's creation time. */
  lemma ProgressAfterSubmitEffect(rows: seq<ProgressRow>, user: Uuid, question: Uuid, at: DateTime)
    requires UniqueBy(rows, ProgressKey)
    requires AttemptsPositive(rows)
    ensures var r := ProgressAfterSubmit(rows, user, question, at);
      && UniqueBy(r, ProgressKey)
      && AttemptsPositive(r)
      && HasKey(r, ProgressKey, (user, question))
      && (!HasKey(rows, ProgressKey, (user, question)) ==>
            r == rows + [ProgressRow(user, question, InProgress, 1, None, Some(at))])
      && (HasKey(rows, ProgressKey, (user, question)) ==>
            && |r| == |rows|
            && (forall i :: 0 <= i < |rows| && ProgressKey(rows[i]) == (user, question) ==>
                  r[i] == rows[i].(attempts := rows[i].attempts + 1, lastAttemptDate := Some(at)))
            && (forall i :: 0 <= i < |rows| && ProgressKey(rows[i]) != (user, question) ==> r[i] == rows[i]))
  {
    var r := ProgressAfterSubmit(rows, user, question, at);
    if HasKey(rows, ProgressKey, (user, question)) {
      UpdateWhereKeepsUnique(rows, ProgressKey, ProgressService.ProgressFor(user, question), Reattempted(at));
      var i :| 0 <= i < |rows| && ProgressKey(rows[i]) == (user, question);
      assert ProgressKey(r[i]) == (user, question);
    } else {
      forall i, j | 0 <= i < j < |r| ensures ProgressKey(r[i]) != ProgressKey(r[j]) {
        if j == |rows| {
          assert !(ProgressKey(rows[i]) == (user, question));
        }
      }
      assert ProgressKey(r[|rows|]) == (user, question);
    }
  }

  /** 404 before any write when the question is unknown; otherwise the answer
      row is stored and the progress row upserted, and the answer is echoed. */
  method SubmitAnswer(db: Store, currentUserId: Uuid, answer: Answer) returns (r: Result<Answer>)
    requires db.Valid()
    modifies db`answers, db`progress
    ensures FindQuestion(db.questions, answer.questionId).None? ==>
      && r == Err(HttpError(404, "Question not found"))
      && db.answers == old(db.answers) && db.progress == old(db.progress)
    ensures FindQuestion(db.questions, answer.questionId).Some? ==>
      && r == Ok(answer)
      && db.answers == PutRow(old(db.answers), AnswerKey, StoredAnswer(answer, currentUserId))
      && db.progress == ProgressAfterSubmit(old(db.progress), currentUserId, answer.questionId, answer.createdAt)
    ensures db.Valid()
  {
    var question := FindQuestion(db.questions, answer.questionId);
    if question.None? {
      return Err(HttpError(404, "Question not found"));
    }
    db.answers := PutRow(db.answers, AnswerKey, StoredAnswer(answer, currentUserId));
    ProgressAfterSubmitEffect(db.progress, currentUserId, answer.questionId, answer.createdAt);
    var existing := FirstIndex(db.progress, ProgressService.ProgressFor(currentUserId, answer.questionId));
    if existing.Some? {
      assert HasKey(db.progress, ProgressKey, (currentUserId, answer.questionId)) by {
        assert ProgressKey(db.progress[existing.value]) == (currentUserId, answer.questionId);
      }
      db.progress := UpdateWhere(db.progress, ProgressService.ProgressFor(currentUserId, answer.questionId),
                                 Reattempted(answer.createdAt));
    } else {
      assert !HasKey(db.progress, ProgressKey, (currentUserId, answer.questionId)) by {
        forall i | 0 <= i < |db.progress| ensures ProgressKey(db.progress[i]) != (currentUserId, answer.questionId) {
          assert !ProgressService.ProgressFor(currentUserId, answer.questionId)(db.progress[i]);
        }
      }
      db.progress := db.progress + [ProgressRow(currentUserId, answer.questionId, InProgress, 1, None,
                                                Some(answer.createdAt))];
    }
    r := Ok(answer);
  }

  // ---------------------------------------------------------------------
  // POST /interview/questions/{question_id}/like

  function AddLike(q: Question): Question
  {
    q.(likes := q.likes + 1)
  }

  /** The likes of all questions together. */
  function TotalLikes(rows: seq<Question>): int
    decreases |rows|
  {
    if rows == [] then 0 else TotalLikes(rows[..|rows| - 1]) + rows[|rows| - 1].likes
  }

  /** `UPDATE interview_questions SET likes = likes + 1 WHERE id = %s`. */
  method LikeQuestion(db: Store, questionId: Uuid) returns (message: string)
    requires db.Valid()
    modifies db`questions
    ensures db.questions == UpdateWhere(old(db.questions), KeyEquals(QuestionKey, questionId), AddLike)
    ensures message == "Question liked successfully"
    ensures db.Valid()
  {
    UpdateWhereKeepsUnique(db.questions, QuestionKey, KeyEquals(QuestionKey, questionId), AddLike);
    db.questions := UpdateWhere(db.questions, KeyEquals(QuestionKey, questionId), AddLike);
    message := "Question liked successfully";
  }

  /** Adding a like to the selected rows raises the total by their number. */
  lemma {:induction false} LikesAddUp(rows: seq<Question>, p: Question -> bool)
    ensures TotalLikes(UpdateWhere(rows, p, AddLike)) == TotalLikes(rows) + |Filter(rows, p)|
    decreases |rows|
  {
    if rows != [] {
      var init := rows[..|rows| - 1];
      var u := UpdateWhere(rows, p, AddLike);
      assert u[..|u| - 1] == UpdateWhere(init, p, AddLike);
      LikesAddUp(init, p);
    }
  }

  /** A like changes only the liked question, whose count goes up by exactly
      one, so the total rises by one if the question exists and not at all
      otherwise. */
  lemma LikeAddsExactlyOne(rows: seq<Question>, questionId: Uuid)
    requires UniqueBy(rows, QuestionKey)
    ensures var r := UpdateWhere(rows, KeyEquals(QuestionKey, questionId), AddLike);
      && |r| == |rows|
      && (forall i :: 0 <= i < |rows| && rows[i].id == questionId ==> r[i] == rows[i].(likes := rows[i].likes + 1))
      && (forall i :: 0 <= i < |rows| && rows[i].id != questionId ==> r[i] == rows[i])
      && TotalLikes(r) == TotalLikes(rows) + (if HasKey(rows, QuestionKey, questionId) then 1 else 0)
  {
    LikesAddUp(rows, KeyEquals(QuestionKey, questionId));
    UniqueKeyCount(rows, QuestionKey, questionId);
  }
}
