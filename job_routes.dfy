/** The `/jobs` routes: recommendations with a validated limit, applying to a
    job, updating an application's status, and the job search with its
    keyword fallback and experience-level filter. */
module JobRoutes {
  import opened Outcomes
  import opened Text
  import opened Seqs
  import opened Dates
  import opened Schema
  import opened JobService

  // ---------------------------------------------------------------------
  // GET /jobs/recommendations

  /** `limit` is validated by the query declaration before the service runs. */
  function RecommendationsRoute(users: seq<UserRow>, currentUserId: Uuid, limit: Option<int>,
                                linkedin: Fetcher, indeed: Fetcher): (r: Result<seq<JobPosting>>)
    ensures limit.None? ==> r == Ok(RecommendedJobs(users, currentUserId, 10, linkedin, indeed))
    ensures limit.Some? && limit.value <= 50 ==> r == Ok(RecommendedJobs(users, currentUserId, limit.value, linkedin, indeed))
    ensures limit.Some? && limit.value > 50 ==> r.Err? && r.error.status == 422
  {
    match ValidateLimit(limit)
    case Err(e) => Err(e)
    case Ok(l) => Ok(RecommendedJobs(users, currentUserId, l, linkedin, indeed))
  }

  /** With the default or any limit from 0 to 50, at most that many jobs come
      back; a negative limit is let through and drops jobs from the end of the
      ranking instead. */
  lemma RecommendationsRouteBound(users: seq<UserRow>, currentUserId: Uuid, limit: Option<int>,
                                  linkedin: Fetcher, indeed: Fetcher)
    ensures var r := RecommendationsRoute(users, currentUserId, limit, linkedin, indeed);
      && (limit.None? ==> r.Ok? && |r.value| <= 10)
      && (limit.Some? && 0 <= limit.value <= 50 ==> r.Ok? && |r.value| <= limit.value)
      && (limit.Some? && limit.value < 0 && FindUser(users, currentUserId).Some? ==>
            var user := FindUser(users, currentUserId).value;
            var all := FetchedFor(user, linkedin, indeed);
            r.Ok? && |r.value| == if |all| + limit.value > 0 then |all| + limit.value else 0)
  {
    RecommendedJobsShape(users, currentUserId, GetOr(limit, 10), linkedin, indeed);
    if FindUser(users, currentUserId).Some? {
      var user := FindUser(users, currentUserId).value;
      RankedIsPermutation(FetchedFor(user, linkedin, indeed), user.skills);
    }
  }

  // ---------------------------------------------------------------------
  // POST /jobs/applications and PUT /jobs/applications/{application_id}

  /** Applying records an application of the current user with status "applied". */
  method ApplyToJob(db: Store, currentUserId: Uuid, jobId: Uuid,
                    freshId: Uuid, appliedAt: DateTime, updatedAt: DateTime)
    returns (message: string)
    requires db.Valid()
    modifies db`applications
    ensures db.applications == PutRow(old(db.applications), ApplicationKey,
                                      Application(freshId, currentUserId, jobId, "applied", appliedAt, updatedAt))
    ensures message == "Application submitted successfully"
    ensures db.Valid()
  {
    SaveJobApplication(db, currentUserId, jobId, "applied", freshId, appliedAt, updatedAt);
    message := "Application submitted successfully";
  }

  /** The status update is passed on as is: the route does not check that the
      application belongs to the current user. */
  method UpdateApplicationStatusRoute(db: Store, currentUserId: Uuid, applicationId: Uuid,
                                      status: string, now: DateTime)
    returns (message: string)
    requires db.Valid()
    modifies db`applications
    ensures db.applications == UpdateWhere(old(db.applications), HasApplicationId(applicationId),
                                           WithStatus(status, now))
    ensures message == "Application status updated successfully"
    ensures db.Valid()
  {
    UpdateApplicationStatus(db, applicationId, status, now);
    message := "Application status updated successfully";
  }

  // ---------------------------------------------------------------------
  // GET /jobs/search

  /** `if not keywords`: absent or empty keywords fall back to the current
      user's stored skills, or to none when the user row is missing. */
  function SearchKeywords(keywords: Option<seq<string>>, users: seq<UserRow>, currentUserId: Uuid): seq<string>
  {
    if keywords.Some? && keywords.value != [] then keywords.value
    else match FindUser(users, currentUserId)
      case Some(user) => user.skills
      case None => []
  }

  /** `job.experience_level.lower() == experience_level.lower()`. */
  function LevelMatches(level: string): JobPosting -> bool
  {
    (job: JobPosting) => Lower(job.experienceLevel) == Lower(level)
  }

  /** Both boards searched with the same keywords and location (`location or
      ''`), LinkedIn first, then filtered by a non-empty experience level. */
  function SearchJobs(keywords: Option<seq<string>>, location: Option<string>, experienceLevel: Option<string>,
                      users: seq<UserRow>, currentUserId: Uuid, linkedin: Fetcher, indeed: Fetcher): seq<JobPosting>
  {
    var kw := SearchKeywords(keywords, users, currentUserId);
    var all := linkedin(kw, GetOr(location, "")) + indeed(kw, GetOr(location, ""));
    if GivenText(experienceLevel) then Filter(all, LevelMatches(experienceLevel.value)) else all
  }

  /** The keywords searched are the given ones when there are any; otherwise
      the skills stored for the current user, or none without a user row. */
  lemma SearchKeywordFallback(keywords: Option<seq<string>>, users: seq<UserRow>, currentUserId: Uuid)
    requires UniqueBy(users, UserKey)
    ensures keywords.Some? && keywords.value != [] ==> SearchKeywords(keywords, users, currentUserId) == keywords.value
    ensures (keywords.None? || keywords.value == []) ==>
      forall i :: 0 <= i < |users| && users[i].id == currentUserId ==>
        SearchKeywords(keywords, users, currentUserId) == users[i].skills
    ensures (keywords.None? || keywords.value == []) && (forall i :: 0 <= i < |users| ==> users[i].id != currentUserId) ==>
      SearchKeywords(keywords, users, currentUserId) == []
  {
    FindUserUnique(users, currentUserId);
  }

  /** The search returns the LinkedIn results, then the Indeed ones, each in
      the board's order; with an experience level given, exactly the jobs at
      that level (ignoring case) are kept. */
  lemma SearchJobsResult(keywords: Option<seq<string>>, location: Option<string>, experienceLevel: Option<string>,
                         users: seq<UserRow>, currentUserId: Uuid, linkedin: Fetcher, indeed: Fetcher)
    ensures var kw := SearchKeywords(keywords, users, currentUserId);
      var li := linkedin(kw, GetOr(location, ""));
      var ind := indeed(kw, GetOr(location, ""));
      var r := SearchJobs(keywords, location, experienceLevel, users, currentUserId, linkedin, indeed);
      && IsSubsequence(r, li + ind)
      && (!GivenText(experienceLevel) ==> r == li + ind)
      && (GivenText(experienceLevel) ==>
            && r == Filter(li, LevelMatches(experienceLevel.value)) + Filter(ind, LevelMatches(experienceLevel.value))
            && (forall i :: 0 <= i < |r| ==>
                  r[i] in li + ind && Lower(r[i].experienceLevel) == Lower(experienceLevel.value))
            && (forall j :: 0 <= j < |li + ind| && Lower((li + ind)[j].experienceLevel) == Lower(experienceLevel.value) ==>
                  (li + ind)[j] in r))
  {
    var kw := SearchKeywords(keywords, users, currentUserId);
    var li := linkedin(kw, GetOr(location, ""));
    var ind := indeed(kw, GetOr(location, ""));
    if GivenText(experienceLevel) {
      var p := LevelMatches(experienceLevel.value);
      FilterAppend(li, ind, p);
      FilterIsSubsequence(li + ind, p);
      var r := Filter(li + ind, p);
      forall j | 0 <= j < |li + ind| && Lower((li + ind)[j].experienceLevel) == Lower(experienceLevel.value)
        ensures (li + ind)[j] in r
      {
        assert p((li + ind)[j]);
      }
    } else {
      SubsequenceOfItself(li + ind);
    }
  }
}
