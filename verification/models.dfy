/**
 * The records of the job board's schema (myapp/models.py): accounts, the two
 * profile kinds, job postings, applications and saved jobs, with the choice
 * lists, the field defaults, the uniqueness constraints and the cascades.
 * Timestamps, file and image fields are not part of this model.
 */
module Models {
  import opened Wrappers
  import opened Query

  // ---------------------------------------------------------------- accounts

  /** UserMaster: the account. The password is kept and compared in clear text. */
  datatype UserMaster = UserMaster(
    email: string,
    password: string,
    otp: int,
    role: string,
    isActive: bool,
    isVerified: bool)

  const CandidateRole := "candidate"
  const CompanyRole := "company"

  /** `UserMaster(...)` with the schema's defaults for the two flags. */
  function NewUser(email: string, password: string, otp: int, role: string): (u: UserMaster)
    ensures u.isActive && !u.isVerified
    ensures u.email == email && u.password == password && u.otp == otp && u.role == role
  {
    UserMaster(email, password, otp, role, true, false)
  }

  /** Company profile; `userId` is the owning account's id. */
  datatype Company = Company(
    userId: nat,
    firstname: string,
    lastname: string,
    companyName: string,
    state: string,
    city: string,
    contact: string,
    address: string)

  /** Candidate profile; `userId` is the owning account's id. */
  datatype Candidate = Candidate(
    userId: nat,
    firstName: string,
    lastName: string,
    email: string)

  // -------------------------------------------------------------------- jobs

  datatype Date = Date(year: int, month: int, day: int)

  /** Calendar order of two dates. */
  predicate Before(a: Date, b: Date) {
    a.year < b.year
    || (a.year == b.year && a.month < b.month)
    || (a.year == b.year && a.month == b.month && a.day < b.day)
  }

  const ExperienceChoices: seq<(string, string)> := [
    ("0-1", "0-1 years"),
    ("1-3", "1-3 years"),
    ("3-5", "3-5 years"),
    ("5-10", "5-10 years"),
    ("10+", "10+ years")
  ]

  /** Job posting; `company` is the owning Company's id (nullable). */
  datatype Job = Job(
    company: Option<nat>,
    title: string,
    companyName: string,
    description: string,
    location: string,
    jobType: string,
    experienceRequired: string,
    salary: Option<string>,
    requirements: Option<string>,
    skillsRequired: Option<string>,
    responsibilities: Option<string>,
    benefits: Option<string>,
    applicationDeadline: Option<Date>,
    vacancies: int,
    isActive: bool,
    isFeatured: bool,
    viewsCount: int)

  /** `Job(...)` given only the fields without a default. */
  function NewJob(company: Option<nat>, title: string, companyName: string, description: string,
                  location: string, jobType: string): (j: Job)
    ensures j.experienceRequired == ExperienceChoices[0].0
    ensures j.vacancies == 1 && j.isActive && !j.isFeatured && j.viewsCount == 0
    ensures j.applicationDeadline == None && j.salary == None && j.benefits == None
    ensures j.company == company && j.title == title && j.companyName == companyName
    ensures j.description == description && j.location == location && j.jobType == jobType
  {
    Job(company, title, companyName, description, location, jobType, "0-1",
        None, None, None, None, None, None, 1, true, false, 0)
  }

  /** `Job.__str__`: "<title> at <company name>". */
  function JobToString(j: Job): (r: string)
    ensures |r| == |j.title| + 4 + |j.companyName|
    ensures r[..|j.title|] == j.title && r[|j.title| + 4..] == j.companyName
    ensures r[|j.title|..|j.title| + 4] == " at "
  {
    j.title + " at " + j.companyName
  }

  // ------------------------------------------------------------ applications

  datatype Status = Pending | Reviewed | Shortlisted | Interview | Rejected | Hired

  const StatusChoices: seq<(string, string)> := [
    ("pending", "Pending"),
    ("reviewed", "Reviewed"),
    ("shortlisted", "Shortlisted"),
    ("interview", "Interview Scheduled"),
    ("rejected", "Rejected"),
    ("hired", "Hired")
  ]

  /** The value a status is stored as. */
  function StatusCode(s: Status): (code: string)
    ensures exists i :: 0 <= i < |StatusChoices| && StatusChoices[i].0 == code
  {
    match s
    case Pending => assert StatusChoices[0].0 == "pending"; "pending"
    case Reviewed => assert StatusChoices[1].0 == "reviewed"; "reviewed"
    case Shortlisted => assert StatusChoices[2].0 == "shortlisted"; "shortlisted"
    case Interview => assert StatusChoices[3].0 == "interview"; "interview"
    case Rejected => assert StatusChoices[4].0 == "rejected"; "rejected"
    case Hired => assert StatusChoices[5].0 == "hired"; "hired"
  }

  /** A submitted status value checked against the closed enumeration. */
  function ParseStatus(code: string): (r: Option<Status>)
    ensures r.Some? <==> exists i :: 0 <= i < |StatusChoices| && StatusChoices[i].0 == code
    ensures r.Some? ==> StatusCode(r.value) == code
  {
    if code == "pending" then assert StatusChoices[0].0 == code; Some(Pending)
    else if code == "reviewed" then assert StatusChoices[1].0 == code; Some(Reviewed)
    else if code == "shortlisted" then assert StatusChoices[2].0 == code; Some(Shortlisted)
    else if code == "interview" then assert StatusChoices[3].0 == code; Some(Interview)
    else if code == "rejected" then assert StatusChoices[4].0 == code; Some(Rejected)
    else if code == "hired" then assert StatusChoices[5].0 == code; Some(Hired)
    else None
  }

  lemma ParseStatusCode(s: Status)
    ensures ParseStatus(StatusCode(s)) == Some(s)
  {
  }

  /** JobApplication; `job` and `candidate` are row ids. The status defaults to pending. */
  datatype JobApplication = JobApplication(
    job: nat,
    candidate: nat,
    coverLetter: string,
    status: Status)

  /** SavedJob: a candidate's bookmark on a job. */
  datatype SavedJob = SavedJob(candidate: nat, job: nat)

  // ------------------------------------------------------ key columns, lookups

  function Emails(users: seq<UserMaster>): (keys: seq<string>)
    ensures |keys| == |users| && forall i :: 0 <= i < |users| ==> keys[i] == users[i].email
  {
    seq(|users|, i requires 0 <= i < |users| => users[i].email)
  }

  function Logins(users: seq<UserMaster>): (keys: seq<(string, string)>)
    ensures |keys| == |users|
    ensures forall i :: 0 <= i < |users| ==> keys[i] == (users[i].email, users[i].password)
  {
    seq(|users|, i requires 0 <= i < |users| => (users[i].email, users[i].password))
  }

  function CandidateOwners(cs: seq<Candidate>): (keys: seq<nat>)
    ensures |keys| == |cs| && forall i :: 0 <= i < |cs| ==> keys[i] == cs[i].userId
  {
    seq(|cs|, i requires 0 <= i < |cs| => cs[i].userId)
  }

  function CompanyOwners(cs: seq<Company>): (keys: seq<nat>)
    ensures |keys| == |cs| && forall i :: 0 <= i < |cs| ==> keys[i] == cs[i].userId
  {
    seq(|cs|, i requires 0 <= i < |cs| => cs[i].userId)
  }

  /** No two accounts share an email. The schema does not enforce this. */
  predicate EmailsUnique(users: seq<UserMaster>) {
    forall i, j :: 0 <= i < j < |users| ==> users[i].email != users[j].email
  }

  /** With distinct emails, neither lookup by email nor by email and password finds several rows. */
  lemma UniqueEmailsSingleRow(users: seq<UserMaster>, email: string, password: string)
    requires EmailsUnique(users)
    ensures Get(Emails(users), email) != ManyRows
    ensures Get(Logins(users), (email, password)) != ManyRows
  {
  }

  // ------------------------------------------------ uniqueness and cascades

  /** `unique_together = ['job', 'candidate']` on JobApplication. */
  predicate ApplicationsUnique(apps: map<nat, JobApplication>) {
    forall a, b :: a in apps && b in apps && a != b ==>
      apps[a].job != apps[b].job || apps[a].candidate != apps[b].candidate
  }

  /** `unique_together = ['candidate', 'job']` on SavedJob. */
  predicate SavedUnique(saved: map<nat, SavedJob>) {
    forall a, b :: a in saved && b in saved && a != b ==> saved[a] != saved[b]
  }

  predicate HasApplied(apps: map<nat, JobApplication>, job: nat, candidate: nat) {
    exists k :: k in apps && apps[k].job == job && apps[k].candidate == candidate
  }

  /** The (candidate, job) pairs that are bookmarked. */
  function SavedPairs(saved: map<nat, SavedJob>): set<SavedJob> {
    set k | k in saved :: saved[k]
  }

  /** Bookmarking a pair that is not yet bookmarked adds exactly that pair. */
  lemma AddSaved(saved: map<nat, SavedJob>, k: nat, p: SavedJob)
    requires SavedUnique(saved) && k !in saved && p !in SavedPairs(saved)
    ensures SavedUnique(saved[k := p])
    ensures SavedPairs(saved[k := p]) == SavedPairs(saved) + {p}
  {
    assert forall q :: q in SavedPairs(saved[k := p]) <==> q in SavedPairs(saved) + {p} by {
      forall q ensures q in SavedPairs(saved[k := p]) ==> q in SavedPairs(saved) + {p} {
        if q in SavedPairs(saved[k := p]) {
          var j :| j in saved[k := p] && saved[k := p][j] == q;
          if j != k { assert saved[j] == q; }
        }
      }
      forall q ensures q in SavedPairs(saved) + {p} ==> q in SavedPairs(saved[k := p]) {
        if q == p {
          assert saved[k := p][k] == p;
        } else if q in SavedPairs(saved) {
          var j :| j in saved && saved[j] == q;
          assert saved[k := p][j] == q;
        }
      }
    }
  }

  /** Deleting one bookmark row removes exactly its pair, because no other row holds the same pair. */
  lemma RemoveSaved(saved: map<nat, SavedJob>, k: nat)
    requires SavedUnique(saved) && k in saved
    ensures SavedUnique(saved - {k})
    ensures SavedPairs(saved - {k}) == SavedPairs(saved) - {saved[k]}
  {
    var rest := saved - {k};
    forall q ensures q in SavedPairs(rest) <==> q in SavedPairs(saved) - {saved[k]} {
      if q in SavedPairs(rest) {
        var j :| j in rest && rest[j] == q;
        assert j != k && saved[j] == q;
      }
      if q in SavedPairs(saved) - {saved[k]} {
        var j :| j in saved && saved[j] == q;
        assert j in rest && rest[j] == q;
      }
    }
  }

  /** `Job.get_applications_count`: the applications made to one job. */
  function ApplicationsOf(apps: map<nat, JobApplication>, job: nat): set<nat> {
    set k | k in apps && apps[k].job == job
  }

  /** A fresh application for a pair that has none keeps the pair unique and adds one to the job's count. */
  lemma {:induction false} AddApplication(apps: map<nat, JobApplication>, id: nat, a: JobApplication)
    requires ApplicationsUnique(apps) && id !in apps && !HasApplied(apps, a.job, a.candidate)
    ensures ApplicationsUnique(apps[id := a])
    ensures |ApplicationsOf(apps[id := a], a.job)| == |ApplicationsOf(apps, a.job)| + 1
    ensures forall j :: j != a.job ==> ApplicationsOf(apps[id := a], j) == ApplicationsOf(apps, j)
  {
    assert ApplicationsOf(apps[id := a], a.job) == ApplicationsOf(apps, a.job) + {id};
  }

  /** Deleting a Job deletes its applications (on_delete=CASCADE). */
  function DropApplicationsOfJob(apps: map<nat, JobApplication>, job: nat): (r: map<nat, JobApplication>)
    ensures forall k :: k in r <==> k in apps && apps[k].job != job
    ensures forall k :: k in r ==> r[k] == apps[k]
  {
    map k | k in apps && apps[k].job != job :: apps[k]
  }

  /** Deleting a Job deletes the bookmarks on it (on_delete=CASCADE). */
  function DropSavedOfJob(saved: map<nat, SavedJob>, job: nat): (r: map<nat, SavedJob>)
    ensures forall k :: k in r <==> k in saved && saved[k].job != job
    ensures forall k :: k in r ==> r[k] == saved[k]
  {
    map k | k in saved && saved[k].job != job :: saved[k]
  }

  /** Deleting a Candidate deletes its applications (on_delete=CASCADE). */
  function DropApplicationsOfCandidate(apps: map<nat, JobApplication>, candidate: nat): (r: map<nat, JobApplication>)
    ensures forall k :: k in r <==> k in apps && apps[k].candidate != candidate
    ensures forall k :: k in r ==> r[k] == apps[k]
  {
    map k | k in apps && apps[k].candidate != candidate :: apps[k]
  }

  /** Deleting a Candidate deletes its bookmarks (on_delete=CASCADE). */
  function DropSavedOfCandidate(saved: map<nat, SavedJob>, candidate: nat): (r: map<nat, SavedJob>)
    ensures forall k :: k in r <==> k in saved && saved[k].candidate != candidate
    ensures forall k :: k in r ==> r[k] == saved[k]
  {
    map k | k in saved && saved[k].candidate != candidate :: saved[k]
  }

  /** After the cascade nothing refers to the deleted row, and the uniqueness constraints still hold. */
  lemma CascadeLeavesNoReference(apps: map<nat, JobApplication>, saved: map<nat, SavedJob>, job: nat, candidate: nat)
    requires ApplicationsUnique(apps) && SavedUnique(saved)
    ensures ApplicationsOf(DropApplicationsOfJob(apps, job), job) == {}
    ensures SavedJob(candidate, job) !in SavedPairs(DropSavedOfJob(saved, job))
    ensures !HasApplied(DropApplicationsOfCandidate(apps, candidate), job, candidate)
    ensures SavedJob(candidate, job) !in SavedPairs(DropSavedOfCandidate(saved, candidate))
    ensures ApplicationsUnique(DropApplicationsOfJob(apps, job))
    ensures ApplicationsUnique(DropApplicationsOfCandidate(apps, candidate))
    ensures SavedUnique(DropSavedOfJob(saved, job)) && SavedUnique(DropSavedOfCandidate(saved, candidate))
  {
  }
}
