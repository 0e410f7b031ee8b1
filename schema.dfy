/** The rows of every table the core reads or writes, and the store that holds
    the tables. Each table is a sequence of rows in storage order. */
module Schema {
  import opened Outcomes
  import opened Dates
  import opened Seqs

  /** UUIDs are handled through their canonical text. */
  type Uuid = string

  /** A row of `users`. `hashed_password` is only ever the output of the
      password hash. */
  datatype UserRow = UserRow(
    id: Uuid,
    email: string,
    username: string,
    fullName: string,
    hashedPassword: string,
    createdAt: DateTime,
    isActive: bool,
    skills: seq<string>,
    progress: map<string, string>,
    preferences: map<string, string>)

  /** A row of `interview_questions` (the `InterviewQuestion` model). */
  datatype Question = Question(
    id: Uuid,
    category: string,
    difficulty: string,
    title: string,
    description: string,
    sampleAnswer: string,
    keywords: seq<string>,
    createdAt: DateTime,
    tags: seq<string>,
    companyTags: seq<string>,
    likes: int,
    views: int)

  /** The `UserAnswer` model; as a row of `user_answers`, `updatedAt` is never stored. */
  datatype Answer = Answer(
    id: Uuid,
    userId: Uuid,
    questionId: Uuid,
    answerText: string,
    voiceRecordingUrl: Option<string>,
    feedback: Option<string>,
    confidenceScore: Option<real>,
    createdAt: DateTime,
    updatedAt: Option<DateTime>)

  datatype Status = NotStarted | InProgress | Completed

  /** A row of `question_progress`, keyed by (user, question). `masteryLevel`
      is NULL in rows that answer submission inserts. */
  datatype ProgressRow = ProgressRow(
    userId: Uuid,
    questionId: Uuid,
    status: Status,
    attempts: int,
    masteryLevel: Option<real>,
    lastAttemptDate: Option<DateTime>)

  /** A row of `job_applications`. */
  datatype Application = Application(
    id: Uuid,
    userId: Uuid,
    jobId: Uuid,
    status: string,
    appliedDate: DateTime,
    lastUpdated: DateTime)

  /** A row of `media_files`. */
  datatype MediaFile = MediaFile(
    id: Uuid,
    userId: Uuid,
    filename: string,
    originalFilename: string,
    category: Option<string>,
    tags: Option<seq<string>>,
    uploadDate: DateTime,
    fileType: Option<string>,
    fileSize: Option<int>)

  /** A row of `voice_recordings`. */
  datatype Recording = Recording(
    id: Uuid,
    userId: Uuid,
    questionId: Uuid,
    filePath: string,
    transcript: Option<string>,
    createdAt: DateTime,
    durationSeconds: real)

  function UserKey(u: UserRow): Uuid { u.id }
  function QuestionKey(q: Question): Uuid { q.id }
  function AnswerKey(a: Answer): Uuid { a.id }
  function ProgressKey(p: ProgressRow): (Uuid, Uuid) { (p.userId, p.questionId) }
  function ApplicationKey(a: Application): Uuid { a.id }
  function MediaKey(m: MediaFile): Uuid { m.id }
  function RecordingKey(r: Recording): Uuid { r.id }

  /** The question row with id `id`, as `SELECT ... WHERE id = %s` + `.one()` returns it. */
  function FindQuestion(questions: seq<Question>, id: Uuid): (r: Option<Question>)
    ensures r.Some? <==> exists i :: 0 <= i < |questions| && questions[i].id == id
    ensures r.Some? ==> r.value in questions && r.value.id == id
  {
    FirstMatch(questions, (q: Question) => q.id == id)
  }

  /** The user row with id `id`, as `SELECT ... FROM users WHERE id = %s` + `.one()` returns it. */
  function FindUser(users: seq<UserRow>, id: Uuid): (r: Option<UserRow>)
    ensures r.Some? <==> exists i :: 0 <= i < |users| && users[i].id == id
    ensures r.Some? ==> r.value in users && r.value.id == id
  {
    FirstMatch(users, (u: UserRow) => u.id == id)
  }

  /** With unique ids the lookup finds the one row that has the id. */
  lemma FindUserUnique(users: seq<UserRow>, id: Uuid)
    requires UniqueBy(users, UserKey)
    ensures forall i :: 0 <= i < |users| && users[i].id == id ==> FindUser(users, id) == Some(users[i])
  {
    forall i | 0 <= i < |users| && users[i].id == id ensures FindUser(users, id) == Some(users[i]) {
      var j := FirstIndex(users, (u: UserRow) => u.id == id).value;
      assert UserKey(users[i]) == UserKey(users[j]);
    }
  }

  /** Every progress row of this model was inserted with one attempt and only
      ever gained attempts. */
  ghost predicate AttemptsPositive(rows: seq<ProgressRow>)
  {
    forall i :: 0 <= i < |rows| ==> rows[i].attempts >= 1
  }

  /** The database session: one field per table. */
  class Store {
    var users: seq<UserRow>
    var questions: seq<Question>
    var answers: seq<Answer>
    var progress: seq<ProgressRow>
    var applications: seq<Application>
    var media: seq<MediaFile>
    var recordings: seq<Recording>

    /** Primary keys are unique in every table, and progress rows count at
        least one attempt. */
    ghost predicate Valid()
      reads this
    {
      && UniqueBy(users, UserKey)
      && UniqueBy(questions, QuestionKey)
      && UniqueBy(answers, AnswerKey)
      && UniqueBy(progress, ProgressKey)
      && UniqueBy(applications, ApplicationKey)
      && UniqueBy(media, MediaKey)
      && UniqueBy(recordings, RecordingKey)
      && AttemptsPositive(progress)
    }

    constructor ()
      ensures Valid()
      ensures users == [] && questions == [] && answers == [] && progress == []
      ensures applications == [] && media == [] && recordings == []
    {
      users, questions, answers, progress := [], [], [], [];
      applications, media, recordings := [], [], [];
    }
  }
}
