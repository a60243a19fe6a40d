/**
 * The database the handlers read and write, as one object with a field per
 * table, and the shared pieces of every handler: the outcome a request ends
 * in and the "who is calling" guard that opens most of them.
 *
 * Accounts and profiles are never deleted by the handlers, so those tables
 * are sequences whose positions are the row ids. Jobs, applications and
 * bookmarks are deleted, so they are maps from row id to row, each with the
 * next id the database will hand out.
 */
module Store {
  import opened Wrappers
  import opened Query
  import opened Models
  import opened Forms

  class Db {
    var users: seq<UserMaster>
    var candidates: seq<Candidate>
    var companies: seq<Company>
    var jobs: map<nat, Job>
    var applications: map<nat, JobApplication>
    var saved: map<nat, SavedJob>
    var nextJobId: nat
    var nextApplicationId: nat
    var nextSavedId: nat

    /**
     * Every foreign key names an existing row, every key is below its
     * table's next id, and the two `unique_together` constraints hold.
     */
    ghost predicate Valid()
      reads this
    {
      && ProfilesValid(users, candidates, companies)
      && JobsValid(jobs, companies, nextJobId)
      && ApplicationsValid(applications, jobs, candidates, nextApplicationId)
      && SavedValid(saved, jobs, candidates, nextSavedId)
    }

    /** An empty database. */
    constructor ()
      ensures Valid()
      ensures users == [] && candidates == [] && companies == []
      ensures jobs == map[] && applications == map[] && saved == map[]
    {
      users := [];
      candidates := [];
      companies := [];
      jobs := map[];
      applications := map[];
      saved := map[];
      nextJobId := 0;
      nextApplicationId := 0;
      nextSavedId := 0;
    }
  }

  /** Every profile belongs to an existing account. */
  ghost predicate ProfilesValid(users: seq<UserMaster>, candidates: seq<Candidate>, companies: seq<Company>) {
    && (forall i :: 0 <= i < |candidates| ==> candidates[i].userId < |users|)
    && (forall i :: 0 <= i < |companies| ==> companies[i].userId < |users|)
  }

  /** Every job id was handed out, and a job's company exists. */
  ghost predicate JobsValid(jobs: map<nat, Job>, companies: seq<Company>, nextId: nat) {
    forall k :: k in jobs ==> k < nextId && (jobs[k].company.Some? ==> jobs[k].company.value < |companies|)
  }

  /** Every application id was handed out, refers to an existing job and candidate, and no pair applies twice. */
  ghost predicate ApplicationsValid(apps: map<nat, JobApplication>, jobs: map<nat, Job>, candidates: seq<Candidate>, nextId: nat) {
    && (forall k :: k in apps ==> k < nextId && apps[k].job in jobs && apps[k].candidate < |candidates|)
    && ApplicationsUnique(apps)
  }

  /** Every bookmark id was handed out, refers to an existing job and candidate, and no pair is bookmarked twice. */
  ghost predicate SavedValid(saved: map<nat, SavedJob>, jobs: map<nat, Job>, candidates: seq<Candidate>, nextId: nat) {
    && (forall k :: k in saved ==> k < nextId && saved[k].job in jobs && saved[k].candidate < |candidates|)
    && SavedUnique(saved)
  }

  /** Bookmarking a pair that is not bookmarked, under a fresh id, keeps the table valid and adds just that pair. */
  lemma BookmarkAdded(saved: map<nat, SavedJob>, jobs: map<nat, Job>, candidates: seq<Candidate>, nextId: nat, p: SavedJob)
    requires SavedValid(saved, jobs, candidates, nextId)
    requires p.job in jobs && p.candidate < |candidates| && p !in SavedPairs(saved)
    ensures SavedValid(saved[nextId := p], jobs, candidates, nextId + 1)
    ensures SavedPairs(saved[nextId := p]) == SavedPairs(saved) + {p}
  {
    AddSaved(saved, nextId, p);
  }

  /** Deleting a bookmark row keeps the table valid and removes just its pair. */
  lemma BookmarkRemoved(saved: map<nat, SavedJob>, jobs: map<nat, Job>, candidates: seq<Candidate>, nextId: nat, k: nat)
    requires SavedValid(saved, jobs, candidates, nextId) && k in saved
    ensures SavedValid(saved - {k}, jobs, candidates, nextId)
    ensures SavedPairs(saved - {k}) == SavedPairs(saved) - {saved[k]}
  {
    RemoveSaved(saved, k);
  }

  /** Deleting a job with its applications and bookmarks leaves no reference to it behind. */
  lemma JobDeleted(jobs: map<nat, Job>, apps: map<nat, JobApplication>, saved: map<nat, SavedJob>,
                   companies: seq<Company>, candidates: seq<Candidate>, nextJob: nat, nextApp: nat, nextSaved: nat, id: nat)
    requires JobsValid(jobs, companies, nextJob)
    requires ApplicationsValid(apps, jobs, candidates, nextApp)
    requires SavedValid(saved, jobs, candidates, nextSaved)
    ensures JobsValid(jobs - {id}, companies, nextJob)
    ensures ApplicationsValid(DropApplicationsOfJob(apps, id), jobs - {id}, candidates, nextApp)
    ensures SavedValid(DropSavedOfJob(saved, id), jobs - {id}, candidates, nextSaved)
  {
    CascadeLeavesNoReference(apps, saved, id, 0);
  }

  /** Changing an application's status keeps the table valid: the (job, candidate) pair is untouched. */
  lemma StatusChanged(apps: map<nat, JobApplication>, jobs: map<nat, Job>, candidates: seq<Candidate>, nextId: nat,
                      k: nat, status: Status)
    requires ApplicationsValid(apps, jobs, candidates, nextId) && k in apps
    ensures ApplicationsValid(apps[k := apps[k].(status := status)], jobs, candidates, nextId)
  {
    var next := apps[k := apps[k].(status := status)];
    forall a, b | a in next && b in next && a != b
      ensures next[a].job != next[b].job || next[a].candidate != next[b].candidate
    {
      assert next[a].job == apps[a].job && next[a].candidate == apps[a].candidate;
      assert next[b].job == apps[b].job && next[b].candidate == apps[b].candidate;
    }
  }

  /**
   * How a request ends, in place of the page or redirect and the flash
   * message the handler produces. `codeDisclosed` records that the code was
   * shown on the page because the mail could not be delivered.
   */
  datatype Outcome =
    | NotLoggedIn          // no email in the session
    | UnknownUser          // UserMaster.DoesNotExist for the session's email
    | WrongRole            // the account has the other role
    | NoProfile            // Candidate.DoesNotExist or Company.DoesNotExist
    | ServerError          // any other exception: several rows for a `.get()`
    | NotFound             // job_detail's get_object_or_404 found no row; in the guarded
                           // handlers a missing job takes the generic error branch
    | MissingFields
    | InvalidEmail
    | BadCodeFormat
    | PasswordMismatch
    | ShortPassword
    | NoAccount
    | AlreadyVerified
    | WrongCode
    | BadCredentials
    | Deactivated
    | NotVerified
    | RegistrationRefused(errors: seq<RegError>)
    | Registered(codeDisclosed: bool)
    | Verified
    | CodeIssued(codeDisclosed: bool)
    | PasswordChanged
    | LoggedIn
    | AlreadyApplied
    | MissingCoverLetter
    | Applied(id: nat)
    | Bookmarked
    | Unbookmarked
    | DeadlinePassed
    | Posted(id: nat)
    | Edited
    | Deleted
    | NotOwner
    | InvalidStatus
    | StatusSet
    | Viewed

  /** The account and the profile row of the caller. */
  datatype Actor = Actor(userId: nat, profileId: nat)

  /**
   * The opening of every logged-in handler: the session's email must be set,
   * `UserMaster.objects.get(email=...)` must find one account, the account
   * must have `role`, and the profile table (given by its `user_id` column,
   * `owners`) must hold exactly one row for it.
   */
  function CurrentActor(users: seq<UserMaster>, owners: seq<nat>, sessionEmail: string, role: string): (r: Result<Actor, Outcome>)
    ensures sessionEmail == "" ==> r == Err(NotLoggedIn)
    ensures sessionEmail != "" && sessionEmail !in Emails(users) ==> r == Err(UnknownUser)
    ensures r.Ok? <==>
      && sessionEmail != ""
      && Get(Emails(users), sessionEmail).OneRow?
      && users[Get(Emails(users), sessionEmail).index].role == role
      && Get(owners, Get(Emails(users), sessionEmail).index).OneRow?
    ensures r.Ok? ==>
      && r.value.userId < |users| && users[r.value.userId].email == sessionEmail
      && users[r.value.userId].role == role
      && r.value.profileId < |owners| && owners[r.value.profileId] == r.value.userId
      && (forall i :: 0 <= i < |users| && i != r.value.userId ==> users[i].email != sessionEmail)
      && (forall p :: 0 <= p < |owners| && p != r.value.profileId ==> owners[p] != r.value.userId)
    ensures r.Err? ==> r.error in {NotLoggedIn, UnknownUser, WrongRole, NoProfile, ServerError}
  {
    if sessionEmail == "" then Err(NotLoggedIn)
    else match Get(Emails(users), sessionEmail)
      case NoRow => Err(UnknownUser)
      case ManyRows => Err(ServerError)
      case OneRow(u) =>
        if users[u].role != role then Err(WrongRole)
        else match Get(owners, u)
          case NoRow => Err(NoProfile)
          case ManyRows => Err(ServerError)
          case OneRow(p) => Ok(Actor(u, p))
  }

  /**
   * The first name the mail greets an account by: the profile's first name,
   * "User" for an account of neither role, nothing when the profile lookup
   * raises.
   */
  function ProfileFirstName(users: seq<UserMaster>, candidates: seq<Candidate>, companies: seq<Company>, u: nat): (r: Option<string>)
    requires u < |users|
    ensures users[u].role == CandidateRole ==>
      (r.Some? <==> Get(CandidateOwners(candidates), u).OneRow?) &&
      (r.Some? ==> r.value == candidates[Get(CandidateOwners(candidates), u).index].firstName)
    ensures users[u].role == CompanyRole ==>
      (r.Some? <==> Get(CompanyOwners(companies), u).OneRow?) &&
      (r.Some? ==> r.value == companies[Get(CompanyOwners(companies), u).index].firstname)
    ensures users[u].role != CandidateRole && users[u].role != CompanyRole ==> r == Some("User")
  {
    if users[u].role == CandidateRole then
      match Get(CandidateOwners(candidates), u)
      case OneRow(p) => Some(candidates[p].firstName)
      case _ => None
    else if users[u].role == CompanyRole then
      match Get(CompanyOwners(companies), u)
      case OneRow(p) => Some(companies[p].firstname)
      case _ => None
    else Some("User")
  }
}
