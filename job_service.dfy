/** Job recommendations: the relevance count, the stable ranking by relevance,
    skill and seniority extraction from a description, and the
    `job_applications` table operations. The job-board fetches are oracles. */
module JobService {
  import opened Outcomes
  import opened Text
  import opened Seqs
  import opened Sorting
  import opened Dates
  import opened Schema

  /** The `JobPosting` model. */
  datatype JobPosting = JobPosting(
    id: Uuid,
    title: string,
    company: string,
    location: string,
    description: string,
    requirements: seq<string>,
    salaryRange: Option<string>,
    postingUrl: string,
    source: string,
    postedDate: DateTime,
    skillsRequired: seq<string>,
    experienceLevel: string)

  /** A job board searched with a keyword list and a location: the LinkedIn and
      Indeed fetches, HTTP and JSON mapping included, are such functions. */
  type Fetcher = (seq<string>, string) -> seq<JobPosting>

  // ---------------------------------------------------------------------
  // _sort_jobs_by_relevance

  /** `any(skill.lower() in req.lower() for req in job.skills_required)`. */
  predicate SkillInRequirements(skill: string, requirements: seq<string>)
  {
    exists i :: 0 <= i < |requirements| && Contains(Lower(requirements[i]), Lower(skill))
  }

  function MatchesJob(job: JobPosting): string -> bool
  {
    (skill: string) => SkillInRequirements(skill, job.skillsRequired)
  }

  /** `calculate_relevance`: the generator sum adds 1 per user skill that some
      required skill contains, case-insensitively. */
  function Relevance(userSkills: seq<string>, job: JobPosting): (n: nat)
    ensures n <= |userSkills|
    decreases |userSkills|
  {
    if userSkills == [] then 0
    else Relevance(userSkills[..|userSkills| - 1], job)
         + (if SkillInRequirements(userSkills[|userSkills| - 1], job.skillsRequired) then 1 else 0)
  }

  /** The relevance is the number of user skills, duplicates included, that
      match the job. */
  lemma {:induction false} RelevanceIsMatchCount(userSkills: seq<string>, job: JobPosting)
    ensures Relevance(userSkills, job) == |Filter(userSkills, MatchesJob(job))|
    decreases |userSkills|
  {
    if userSkills != [] {
      RelevanceIsMatchCount(userSkills[..|userSkills| - 1], job);
    }
  }

  /** A job has relevance 0 exactly when no user skill matches it. */
  lemma {:induction false} RelevanceZeroIffNoMatch(userSkills: seq<string>, job: JobPosting)
    ensures Relevance(userSkills, job) == 0
            <==> forall i :: 0 <= i < |userSkills| ==> !SkillInRequirements(userSkills[i], job.skillsRequired)
    decreases |userSkills|
  {
    if userSkills != [] {
      var init := userSkills[..|userSkills| - 1];
      RelevanceZeroIffNoMatch(init, job);
      assert forall i :: 0 <= i < |init| ==> init[i] == userSkills[i];
    }
  }

  /** A job has full relevance exactly when every user skill matches it. */
  lemma {:induction false} RelevanceFullIffAllMatch(userSkills: seq<string>, job: JobPosting)
    ensures Relevance(userSkills, job) == |userSkills|
            <==> forall i :: 0 <= i < |userSkills| ==> SkillInRequirements(userSkills[i], job.skillsRequired)
    decreases |userSkills|
  {
    if userSkills != [] {
      var init := userSkills[..|userSkills| - 1];
      RelevanceFullIffAllMatch(init, job);
      assert forall i :: 0 <= i < |init| ==> init[i] == userSkills[i];
    }
  }

  /** Relevance is additive over the user's skill list. */
  lemma {:induction false} RelevanceAppend(s: seq<string>, t: seq<string>, job: JobPosting)
    ensures Relevance(s + t, job) == Relevance(s, job) + Relevance(t, job)
    decreases |t|
  {
    var st := s + t;
    if t == [] {
      assert st == s;
    } else {
      assert st[..|st| - 1] == s + t[..|t| - 1];
      assert st[|st| - 1] == t[|t| - 1];
      RelevanceAppend(s, t[..|t| - 1], job);
    }
  }

  /** `sorted(..., reverse=True)` by relevance is the stable ascending sort on
      the negated relevance. */
  function RelevanceKey(userSkills: seq<string>): JobPosting -> real
  {
    (job: JobPosting) => -(Relevance(userSkills, job) as real)
  }

  function HasRelevance(userSkills: seq<string>, n: nat): JobPosting -> bool
  {
    (job: JobPosting) => Relevance(userSkills, job) == n
  }

  function RankJobs(jobs: seq<JobPosting>, userSkills: seq<string>): seq<JobPosting>
  {
    SortBy(jobs, RelevanceKey(userSkills))
  }

  /** The ranking reorders the jobs without adding or dropping any. */
  lemma RankedIsPermutation(jobs: seq<JobPosting>, userSkills: seq<string>)
    ensures multiset(RankJobs(jobs, userSkills)) == multiset(jobs)
    ensures |RankJobs(jobs, userSkills)| == |jobs|
  {
    SortByPermutation(jobs, RelevanceKey(userSkills));
  }

  /** The ranking has non-increasing relevance. */
  lemma RankedByRelevance(jobs: seq<JobPosting>, userSkills: seq<string>)
    ensures forall i, j :: 0 <= i < j < |RankJobs(jobs, userSkills)| ==>
      Relevance(userSkills, RankJobs(jobs, userSkills)[i]) >= Relevance(userSkills, RankJobs(jobs, userSkills)[j])
  {
    var key := RelevanceKey(userSkills);
    SortBySorted(jobs, key);
    var r := RankJobs(jobs, userSkills);
    forall i, j | 0 <= i < j < |r| ensures Relevance(userSkills, r[i]) >= Relevance(userSkills, r[j]) {
      assert key(r[i]) <= key(r[j]);
    }
  }

  /** The relevance classes: equally relevant jobs are exactly the sort key's class. */
  lemma {:induction false} RelevanceClass(s: seq<JobPosting>, userSkills: seq<string>, n: nat)
    ensures KeyClass(s, RelevanceKey(userSkills), -(n as real)) == Filter(s, HasRelevance(userSkills, n))
  {
    FilterExt(s, SameKey(RelevanceKey(userSkills), -(n as real)), HasRelevance(userSkills, n));
  }

  /** Jobs of equal relevance keep their relative order. */
  lemma {:induction false} RankedIsStable(jobs: seq<JobPosting>, userSkills: seq<string>, n: nat)
    ensures Filter(RankJobs(jobs, userSkills), HasRelevance(userSkills, n))
            == Filter(jobs, HasRelevance(userSkills, n))
  {
    var key := RelevanceKey(userSkills);
    var ranked := RankJobs(jobs, userSkills);
    assert KeyClass(ranked, key, -(n as real)) == KeyClass(jobs, key, -(n as real)) by {
      SortByStable(jobs, key, -(n as real));
    }
    RelevanceClass(jobs, userSkills, n);
    RelevanceClass(ranked, userSkills, n);
  }

  /** Every sort key is a whole number no greater than 0. */
  lemma KeyIsNonPositiveWhole(userSkills: seq<string>, job: JobPosting)
    ensures RelevanceKey(userSkills)(job) <= 0.0
    ensures RelevanceKey(userSkills)(job).Floor as real == RelevanceKey(userSkills)(job)
  {
    var n: int := Relevance(userSkills, job);
    assert (-n as real).Floor == -n;
  }

  /** A sort key value no job can have selects nothing. */
  lemma NoJobHasKey(s: seq<JobPosting>, userSkills: seq<string>, k: real)
    requires !(k <= 0.0 && k.Floor as real == k)
    ensures KeyClass(s, RelevanceKey(userSkills), k) == []
  {
    var c := KeyClass(s, RelevanceKey(userSkills), k);
    if c != [] {
      KeyIsNonPositiveWhole(userSkills, c[0]);
    }
  }

  /** Any ordering with non-increasing relevance that keeps equally relevant jobs
      in their input order is the ranking: these two properties determine it. */
  lemma RankIsTheOnlyStableOrder(jobs: seq<JobPosting>, t: seq<JobPosting>, userSkills: seq<string>)
    requires forall i, j :: 0 <= i < j < |t| ==> Relevance(userSkills, t[i]) >= Relevance(userSkills, t[j])
    requires forall n: nat :: Filter(t, HasRelevance(userSkills, n)) == Filter(jobs, HasRelevance(userSkills, n))
    ensures t == RankJobs(jobs, userSkills)
  {
    var key := RelevanceKey(userSkills);
    assert SortedBy(t, key) by {
      forall i, j | 0 <= i < j < |t| ensures key(t[i]) <= key(t[j]) {
        assert Relevance(userSkills, t[i]) >= Relevance(userSkills, t[j]);
      }
    }
    forall k ensures KeyClass(t, key, k) == KeyClass(jobs, key, k) {
      if k <= 0.0 && k.Floor as real == k {
        var n: nat := -k.Floor;
        assert k == -(n as real);
        RelevanceClass(t, userSkills, n);
        RelevanceClass(jobs, userSkills, n);
      } else {
        NoJobHasKey(t, userSkills, k);
        NoJobHasKey(jobs, userSkills, k);
      }
    }
    SortByIsTheStableSort(jobs, t, key);
  }

  // ---------------------------------------------------------------------
  // get_recommended_jobs

  /** `preferences.get('preferred_location', '')`. */
  function PreferredLocation(user: UserRow): string
  {
    if "preferred_location" in user.preferences then user.preferences["preferred_location"] else ""
  }

  /** Both boards searched with the user's skills and preferred location,
      LinkedIn first. */
  function FetchedFor(user: UserRow, linkedin: Fetcher, indeed: Fetcher): seq<JobPosting>
  {
    linkedin(user.skills, PreferredLocation(user)) + indeed(user.skills, PreferredLocation(user))
  }

  /** `get_recommended_jobs`: nothing for an unknown user, otherwise the first
      `limit` jobs of the ranking (Python's `[:limit]`, so a negative limit
      drops jobs from the end). */
  function RecommendedJobs(users: seq<UserRow>, userId: Uuid, limit: int,
                           linkedin: Fetcher, indeed: Fetcher): seq<JobPosting>
  {
    match FindUser(users, userId)
    case None => []
    case Some(user) => PrefixSlice(RankJobs(FetchedFor(user, linkedin, indeed), user.skills), limit)
  }

  /** The recommendations are empty for an unknown user; otherwise they are the
      most relevant fetched jobs, best first, and at most `limit` of them. */
  lemma RecommendedJobsShape(users: seq<UserRow>, userId: Uuid, limit: int,
                             linkedin: Fetcher, indeed: Fetcher)
    ensures FindUser(users, userId).None? ==> RecommendedJobs(users, userId, limit, linkedin, indeed) == []
    ensures FindUser(users, userId).Some? ==>
      var user := FindUser(users, userId).value;
      var all := FetchedFor(user, linkedin, indeed);
      var r := RecommendedJobs(users, userId, limit, linkedin, indeed);
      && r == RankJobs(all, user.skills)[..|r|]
      && (limit >= 0 ==> |r| == if limit < |all| then limit else |all|)
      && (forall i :: 0 <= i < |r| ==> r[i] in all)
      && (forall i, j :: 0 <= i < j < |r| ==> Relevance(user.skills, r[i]) >= Relevance(user.skills, r[j]))
  {
    if FindUser(users, userId).Some? {
      var user := FindUser(users, userId).value;
      var all := FetchedFor(user, linkedin, indeed);
      var ranked := RankJobs(all, user.skills);
      RankedIsPermutation(all, user.skills);
      RankedByRelevance(all, user.skills);
      SortByMembers(all, RelevanceKey(user.skills));
      var r := RecommendedJobs(users, userId, limit, linkedin, indeed);
      assert r == PrefixSlice(ranked, limit);
      forall i | 0 <= i < |r| ensures r[i] in all {
        assert r[i] == ranked[i];
      }
      forall i, j | 0 <= i < j < |r| ensures Relevance(user.skills, r[i]) >= Relevance(user.skills, r[j]) {
        assert r[i] == ranked[i] && r[j] == ranked[j];
      }
    }
  }

  // ---------------------------------------------------------------------
  // _extract_skills and _extract_experience_level

  const CommonSkills: seq<string> :=
    ["python", "java", "javascript", "react", "node.js", "sql",
     "aws", "docker", "kubernetes", "machine learning"]

  function InDescription(description: string): string -> bool
  {
    (skill: string) => Contains(Lower(description), Lower(skill))
  }

  /** The candidate skills the description mentions, in candidate order. */
  function SkillsIn(candidates: seq<string>, description: string): (skills: seq<string>)
    ensures |skills| <= |candidates|
    ensures forall i :: 0 <= i < |skills| ==>
      skills[i] in candidates && Contains(Lower(description), Lower(skills[i]))
    ensures forall i :: 0 <= i < |candidates| && Contains(Lower(description), Lower(candidates[i])) ==>
      candidates[i] in skills
  {
    Filter(candidates, InDescription(description))
  }

  /** `_extract_skills`. */
  function ExtractSkills(description: string): seq<string>
  {
    SkillsIn(CommonSkills, description)
  }

  /** The extracted skills keep the order of the common-skills list. */
  lemma ExtractSkillsInListOrder(description: string)
    ensures IsSubsequence(ExtractSkills(description), CommonSkills)
    ensures |ExtractSkills(description)| <= 10
  {
    FilterIsSubsequence(CommonSkills, InDescription(description));
  }

  /** The seniority of a description: "senior" wins over "junior", and a
      description mentioning neither is "mid-level". */
  function ExtractExperienceLevel(description: string): (level: string)
    ensures level == "senior" <==> Contains(Lower(description), "senior")
    ensures level == "junior" <==> !Contains(Lower(description), "senior") && Contains(Lower(description), "junior")
    ensures level == "mid-level" <==> !Contains(Lower(description), "senior") && !Contains(Lower(description), "junior")
  {
    if Contains(Lower(description), "senior") then "senior"
    else if Contains(Lower(description), "junior") then "junior"
    else "mid-level"
  }

  // ---------------------------------------------------------------------
  // save_job_application, update_application_status, get_user_applications

  /** The INSERT of a new application. `datetime.now()` is read twice, once for
      `applied_date` and once for `last_updated`. */
  method SaveJobApplication(db: Store, userId: Uuid, jobId: Uuid, status: string,
                            freshId: Uuid, appliedAt: DateTime, updatedAt: DateTime)
    requires db.Valid()
    modifies db`applications
    ensures db.applications == PutRow(old(db.applications), ApplicationKey,
                                      Application(freshId, userId, jobId, status, appliedAt, updatedAt))
    ensures !HasKey(old(db.applications), ApplicationKey, freshId) ==>
      db.applications == old(db.applications) + [Application(freshId, userId, jobId, status, appliedAt, updatedAt)]
    ensures db.Valid()
  {
    var row := Application(freshId, userId, jobId, status, appliedAt, updatedAt);
    db.applications := PutRow(db.applications, ApplicationKey, row);
  }

  function HasApplicationId(id: Uuid): Application -> bool
  {
    (a: Application) => a.id == id
  }

  function WithStatus(status: string, now: DateTime): Application -> Application
  {
    (a: Application) => a.(status := status, lastUpdated := now)
  }

  /** `UPDATE job_applications SET status, last_updated WHERE id`: the row with
      that id gets the new status and time, and every other row and field is kept. */
  method UpdateApplicationStatus(db: Store, applicationId: Uuid, newStatus: string, now: DateTime)
    requires db.Valid()
    modifies db`applications
    ensures db.applications == UpdateWhere(old(db.applications), HasApplicationId(applicationId),
                                           WithStatus(newStatus, now))
    ensures |db.applications| == |old(db.applications)|
    ensures forall i :: 0 <= i < |db.applications| && old(db.applications)[i].id == applicationId ==>
      db.applications[i] == old(db.applications)[i].(status := newStatus, lastUpdated := now)
    ensures forall i :: 0 <= i < |db.applications| && old(db.applications)[i].id != applicationId ==>
      db.applications[i] == old(db.applications)[i]
    ensures db.Valid()
  {
    UpdateWhereKeepsUnique(db.applications, ApplicationKey, HasApplicationId(applicationId),
                           WithStatus(newStatus, now));
    db.applications := UpdateWhere(db.applications, HasApplicationId(applicationId),
                                   WithStatus(newStatus, now));
  }

  function ApplicationOwnedBy(userId: Uuid): Application -> bool
  {
    (a: Application) => a.userId == userId
  }

  function NewestApplicationFirst(a: Application): real
  {
    -(Ticks(a.appliedDate) as real)
  }

  /** `SELECT * FROM job_applications WHERE user_id = %s ORDER BY applied_date DESC`. */
  function ApplicationsOf(table: seq<Application>, userId: Uuid): seq<Application>
  {
    SortBy(Filter(table, ApplicationOwnedBy(userId)), NewestApplicationFirst)
  }

  /** The applications listed are exactly the user's, most recent first. */
  lemma ApplicationsAreTheUsers(table: seq<Application>, userId: Uuid)
    ensures var rows := ApplicationsOf(table, userId);
      && (forall i :: 0 <= i < |rows| ==> rows[i] in table && rows[i].userId == userId)
      && (forall j :: 0 <= j < |table| && table[j].userId == userId ==> table[j] in rows)
      && (forall i, j :: 0 <= i < j < |rows| ==> Ticks(rows[i].appliedDate) >= Ticks(rows[j].appliedDate))
  {
    var mine := Filter(table, ApplicationOwnedBy(userId));
    SortByMembers(mine, NewestApplicationFirst);
    SortBySorted(mine, NewestApplicationFirst);
    var rows := ApplicationsOf(table, userId);
    forall j | 0 <= j < |table| && table[j].userId == userId ensures table[j] in rows {
      assert ApplicationOwnedBy(userId)(table[j]);
    }
    forall i, j | 0 <= i < j < |rows| ensures Ticks(rows[i].appliedDate) >= Ticks(rows[j].appliedDate) {
      assert NewestApplicationFirst(rows[i]) <= NewestApplicationFirst(rows[j]);
    }
  }
}
