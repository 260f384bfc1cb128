/** The store and the job handlers (src/controllers/jobController.js), with
    register's write (src/controllers/authController.js) and the route-level
    entry point that runs a job request through the router's guards. The
    database is three maps keyed by id and a clock; new ids and creation times
    are drawn from the clock, so a document's id is also its creation time. */
module Marketplace {
  import opened Common
  import opened UserModel
  import opened JobModel
  import opened ProposalModel
  import AuthHandlers
  import JobRoutes

  const TitleRequiredMessage := "Title and description are required"
  const CreateFailedMessage := "Create job failed"
  const JobNotFoundMessage := "Job not found"
  const GetFailedMessage := "Get job failed"
  const NotOwnerMessage := "Unauthorized"
  const UpdateFailedMessage := "Update failed"
  const InvalidIdMessage := "Invalid job ID"
  const NotOwnerDeleteMessage := "Not authorized to delete this job"
  const DeletedMessage := "Job deleted successfully"
  const MissingProposalFieldsMessage := "Missing required fields"
  const SubmitFailedMessage := "Submit failed"
  const RouteNotFoundMessage := "Route not found"

  /** What a successful reply carries. */
  datatype Payload =
    | JobOut(job: Job)
    | JobsOut(jobs: seq<Job>)
    | JobWithProposals(job: Job, proposals: seq<Proposal>)
    | ProposalOut(proposal: Proposal)
    | Account(account: AuthHandlers.AuthPayload)

  /** `User.findByIdAndUpdate(u, { $inc: { "clientProfile.postedJobs": delta } })`:
      the counter of user `u` moves by `delta`; with no such user nothing
      changes. */
  function Bump(users: map<Id, User>, u: Id, delta: int): (r: map<Id, User>)
    ensures r.Keys == users.Keys
    ensures forall k :: k in users && k != u ==> r[k] == users[k]
    ensures u in users ==> r[u].clientProfile.postedJobs == users[u].clientProfile.postedJobs + delta
    ensures u in users ==> r[u] == users[u].(clientProfile := r[u].clientProfile)
    ensures u in users ==> r[u].clientProfile == users[u].clientProfile.(postedJobs := r[u].clientProfile.postedJobs)
  {
    if u in users then
      var p := users[u].clientProfile;
      users[u := users[u].(clientProfile := p.(postedJobs := p.postedJobs + delta))]
    else users
  }

  /** The schemas' rules and the unique indexes hold for everything stored,
      and every id was drawn from the clock before its current value. */
  predicate StoreValid(users: map<Id, User>, jobs: map<Id, Job>, proposals: map<Id, Proposal>, clock: nat) {
    && UsersWellFormed(users, clock) && UniqueEmails(users)
    && JobsWellFormed(jobs, clock)
    && ProposalsKeyed(proposals, clock) && UniquePairs(proposals)
  }

  /** `$inc` touches only a counter, which no rule constrains. */
  lemma BumpKeepsUsers(users: map<Id, User>, u: Id, delta: int, clock: nat)
    requires UsersWellFormed(users, clock) && UniqueEmails(users)
    ensures UsersWellFormed(Bump(users, u, delta), clock) && UniqueEmails(Bump(users, u, delta))
  {
    var r := Bump(users, u, delta);
    assert forall k :: k in r ==> r[k].email == users[k].email;
  }

  /** createJob's writes keep the store valid. */
  lemma CreateKeepsStore(users: map<Id, User>, jobs: map<Id, Job>, proposals: map<Id, Proposal>, clock: nat, j: Job, owner: Id)
    requires StoreValid(users, jobs, proposals, clock)
    requires JobWellFormed(j, clock, clock + 1)
    ensures StoreValid(Bump(users, owner, 1), jobs[clock := j], proposals, clock + 1)
  {
    BumpKeepsUsers(users, owner, 1, clock + 1);
  }

  /** updateJob's write keeps the store valid. */
  lemma UpdateKeepsStore(users: map<Id, User>, jobs: map<Id, Job>, proposals: map<Id, Proposal>, clock: nat, k: Id, j: Job)
    requires StoreValid(users, jobs, proposals, clock)
    requires JobWellFormed(j, k, clock)
    ensures StoreValid(users, jobs[k := j], proposals, clock)
  {
  }

  /** deleteJob's three writes keep the store valid. */
  lemma DeleteKeepsStore(users: map<Id, User>, jobs: map<Id, Job>, proposals: map<Id, Proposal>, clock: nat, k: Id, owner: Id)
    requires StoreValid(users, jobs, proposals, clock)
    ensures StoreValid(Bump(users, owner, -1), jobs - {k}, WithoutJob(proposals, k), clock)
  {
    BumpKeepsUsers(users, owner, -1, clock);
    WithoutJobKeepsInvariants(proposals, k, clock);
  }

  /** submitProposal's writes keep the store valid. */
  lemma SubmitKeepsStore(users: map<Id, User>, jobs: map<Id, Job>, proposals: map<Id, Proposal>, clock: nat, p: Proposal, jobs': map<Id, Job>)
    requires StoreValid(users, jobs, proposals, clock)
    requires p.id == clock && p.createdAt == clock && !PairTaken(proposals, p.jobId, p.freelancerId)
    requires jobs'.Keys == jobs.Keys
    requires forall k :: k in jobs ==> jobs'[k] == jobs[k].(proposals := jobs'[k].proposals)
    ensures StoreValid(users, jobs', proposals[clock := p], clock + 1)
  {
    InsertKeepsUniquePairs(proposals, p);
    forall k | k in jobs'
      ensures JobWellFormed(jobs'[k], k, clock + 1)
    {
      assert JobWellFormed(jobs[k], k, clock);
    }
  }

  /** register's write keeps the store valid: a new user that passed the
      schema is well formed, and no stored user has its e-mail. */
  lemma RegisterKeepsStore(users: map<Id, User>, jobs: map<Id, Job>, proposals: map<Id, Proposal>, clock: nat,
                           u: User, stored: User)
    requires StoreValid(users, jobs, proposals, clock)
    requires WellFormed(u, clock, clock + 1)
    requires forall k :: k in users ==> users[k].email != u.email
    requires GetPublicProfile(stored) == GetPublicProfile(u)
    ensures StoreValid(users[clock := stored], jobs, proposals, clock + 1)
  {
    InsertKeepsUsers(users, clock, stored);
  }

  /** An e-mail FindByEmail does not find is no stored user's e-mail once
      normalized. */
  lemma UnfoundEmailIsFree(users: map<Id, User>, email: string)
    requires UniqueEmails(users)
    requires FindByEmail(users, email).None?
    ensures forall k :: k in users ==> users[k].email != Normalize(email)
  {
  }

  lemma InsertKeepsUsers(users: map<Id, User>, clock: nat, u: User)
    requires UsersWellFormed(users, clock) && UniqueEmails(users)
    requires WellFormed(u, clock, clock + 1)
    requires forall k :: k in users ==> users[k].email != u.email
    ensures UsersWellFormed(users[clock := u], clock + 1) && UniqueEmails(users[clock := u])
  {
  }

  /** Each stored user's posted-jobs counter equals the number of stored jobs
      it owns. */
  predicate CountersAgree(users: map<Id, User>, jobs: map<Id, Job>) {
    forall u :: u in users ==> users[u].clientProfile.postedJobs == |OwnedIds(jobs, u)|
  }

  /** Every stored job's owner is a stored user. */
  predicate OwnersStored(users: map<Id, User>, jobs: map<Id, Job>) {
    forall k :: k in jobs ==> jobs[k].clientId in users
  }

  /** createJob: storing a job owned by a stored user and bumping that user's
      counter by one keeps the counters in agreement. */
  lemma CreateKeepsCounters(users: map<Id, User>, jobs: map<Id, Job>, j: Job)
    requires CountersAgree(users, jobs) && OwnersStored(users, jobs)
    requires j.id !in jobs && j.clientId in users
    ensures CountersAgree(Bump(users, j.clientId, 1), jobs[j.id := j])
    ensures OwnersStored(Bump(users, j.clientId, 1), jobs[j.id := j])
  {
    var users' := Bump(users, j.clientId, 1);
    forall u | u in users'
      ensures users'[u].clientProfile.postedJobs == |OwnedIds(jobs[j.id := j], u)|
    {
      OwnedAfterInsert(jobs, j, u);
    }
  }

  /** deleteJob: removing a job and taking one from its owner's counter keeps
      the counters in agreement. */
  lemma DeleteKeepsCounters(users: map<Id, User>, jobs: map<Id, Job>, k: Id)
    requires CountersAgree(users, jobs) && OwnersStored(users, jobs)
    requires k in jobs
    ensures CountersAgree(Bump(users, jobs[k].clientId, -1), jobs - {k})
    ensures OwnersStored(Bump(users, jobs[k].clientId, -1), jobs - {k})
  {
    var users' := Bump(users, jobs[k].clientId, -1);
    forall u | u in users'
      ensures users'[u].clientProfile.postedJobs == |OwnedIds(jobs - {k}, u)|
    {
      OwnedAfterRemove(jobs, k, u);
    }
  }

  /** Replacing a job by one with the same owner keeps the counters in
      agreement (updateJob without a new clientId, submitProposal's append). */
  lemma ReplaceKeepsCounters(users: map<Id, User>, jobs: map<Id, Job>, k: Id, j: Job)
    requires CountersAgree(users, jobs) && OwnersStored(users, jobs)
    requires k in jobs && j.clientId == jobs[k].clientId
    ensures CountersAgree(users, jobs[k := j]) && OwnersStored(users, jobs[k := j])
  {
    forall u | u in users
      ensures users[u].clientProfile.postedJobs == |OwnedIds(jobs[k := j], u)|
    {
      OwnedAfterReplace(jobs, k, j, u);
    }
  }

  /** register: a new user with a zero counter, under an id no job's owner
      has, keeps the counters in agreement. */
  lemma RegisterKeepsCounters(users: map<Id, User>, jobs: map<Id, Job>, u: User)
    requires CountersAgree(users, jobs) && OwnersStored(users, jobs)
    requires u.id !in users && u.clientProfile.postedJobs == 0
    ensures CountersAgree(users[u.id := u], jobs) && OwnersStored(users[u.id := u], jobs)
  {
    assert OwnedIds(jobs, u.id) == {};
  }

  /** updateJob copies every body field onto the job, `clientId` included: an
      owner who hands a job to another stored user leaves both counters
      stale, so the counters no longer agree. */
  lemma ReassignBreaksCounters(users: map<Id, User>, jobs: map<Id, Job>, k: Id, other: Id)
    requires CountersAgree(users, jobs)
    requires k in jobs && other in users && other != jobs[k].clientId
    ensures !CountersAgree(users, jobs[k := jobs[k].(clientId := other)])
  {
    var jobs' := jobs[k := jobs[k].(clientId := other)];
    assert OwnedIds(jobs', other) == OwnedIds(jobs, other) + {k};
    assert k !in OwnedIds(jobs, other);
  }

  /** `User.create`: a new document, every path modified, saved through the
      pre-save hook; what is stored carries the hash of the password. */
  method CreateUser(u: User, hash: string -> string) returns (stored: User)
    ensures stored == u.(password := hash(u.password))
    ensures GetPublicProfile(stored) == GetPublicProfile(u)
  {
    var doc := new UserDocument(u);
    doc.PreSave(hash);
    stored := doc.data;
  }

  /** A job request as the router and the handlers see it: verb, path below
      `/api/jobs` split into segments, Authorization header, and the body read
      as job fields and as proposal fields. */
  datatype Request = Request(
    verb: JobRoutes.Verb,
    path: seq<string>,
    authorization: Option<string>,
    jobBody: JobFields,
    proposalBody: ProposalFields)

  class Database {
    var users: map<Id, User>
    var jobs: map<Id, Job>
    var proposals: map<Id, Proposal>
    var clock: nat

    /** The schemas' rules and the unique indexes hold for everything stored. */
    ghost predicate Valid()
      reads this
    {
      StoreValid(users, jobs, proposals, clock)
    }

    constructor ()
      ensures Valid()
      ensures users == map[] && jobs == map[] && proposals == map[] && clock == 0
    {
      users, jobs, proposals, clock := map[], map[], map[], 0;
    }

    /** createJob: 400 without a truthy title and description; 500 when the
        schema rejects the document; otherwise the job is stored under a new
        id, owned by the caller, and the caller's counter goes up by one. */
    method CreateJob(caller: PublicUser, f: JobFields) returns (r: Reply<Payload>)
      requires Valid()
      modifies this
      ensures Valid()
      ensures !Present(f.title) || !Present(f.description) ==> r == Fail(400, TitleRequiredMessage) && unchanged(this)
      ensures Present(f.title) && Present(f.description) && !CreateAccepts(f) ==>
        r == Fail(500, CreateFailedMessage) && unchanged(this)
      ensures Present(f.title) && Present(f.description) && CreateAccepts(f) ==>
        var j := CreateDocument(old(clock), caller.id, f).value;
        && r == Reply(201, "", Some(JobOut(j)))
        && jobs == old(jobs)[j.id := j]
        && users == Bump(old(users), caller.id, 1)
        && proposals == old(proposals) && clock == old(clock) + 1
    {
      if !Present(f.title) || !Present(f.description) {
        return Fail(400, TitleRequiredMessage);
      }
      r := StoreJob(caller, f);
    }

    /** createJob once its own check has passed: `Job.create`, then `$inc` on
        the caller's counter. */
    method StoreJob(caller: PublicUser, f: JobFields) returns (r: Reply<Payload>)
      requires Valid()
      modifies this
      ensures Valid()
      ensures !CreateAccepts(f) ==> r == Fail(500, CreateFailedMessage) && unchanged(this)
      ensures CreateAccepts(f) ==>
        var j := CreateDocument(old(clock), caller.id, f).value;
        && r == Reply(201, "", Some(JobOut(j)))
        && jobs == old(jobs)[j.id := j]
        && users == Bump(old(users), caller.id, 1)
        && proposals == old(proposals) && clock == old(clock) + 1
    {
      var created := CreateDocument(clock, caller.id, f);
      if created.None? {
        return Fail(500, CreateFailedMessage);
      }
      var job := created.value;
      CreatedJobWellFormed(clock, caller.id, f, clock + 1);
      CreateKeepsStore(users, jobs, proposals, clock, job, caller.id);
      jobs := jobs[job.id := job];
      clock := clock + 1;
      users := Bump(users, caller.id, 1);
      r := Reply(201, "", Some(JobOut(job)));
    }

    /** listJobs: at most 200 stored jobs, newest first; as many as are stored
        up to 200, and every stored job left out is older than every one
        listed. */
    method ListJobs() returns (r: Reply<Payload>)
      requires Valid()
      ensures r.status == 200 && r.body.Some? && r.body.value.JobsOut?
      ensures var s := r.body.value.jobs;
        && |s| == (if |jobs| <= ListLimit then |jobs| else ListLimit)
        && NewestFirst(s)
        && (forall x :: x in s ==> x.id in jobs && jobs[x.id] == x)
        && (forall x, k :: x in s && k in jobs && jobs[k] !in s ==> jobs[k].createdAt < x.createdAt)
    {
      ListAllSpec(jobs, clock);
      r := Reply(200, "", Some(JobsOut(ListAll(jobs, clock))));
    }

    /** getJobById: a malformed id makes the lookup throw (500); an unknown id
        gives 404; otherwise the stored job with its proposals filled in, in
        the order of its proposal list. */
    method GetJobById(idText: string) returns (r: Reply<Payload>)
      requires Valid()
      ensures ParseObjectId(idText).None? ==> r == Fail(500, GetFailedMessage)
      ensures ParseObjectId(idText).Some? && ParseObjectId(idText).value !in jobs ==> r == Fail(404, JobNotFoundMessage)
      ensures ParseObjectId(idText).Some? && ParseObjectId(idText).value in jobs ==>
        && r.status == 200 && r.body.Some? && r.body.value.JobWithProposals?
        && r.body.value.job == jobs[ParseObjectId(idText).value]
        && (forall p :: p in r.body.value.proposals <==> p.id in r.body.value.job.proposals && p.id in proposals && proposals[p.id] == p)
    {
      match ParseObjectId(idText)
      case None => r := Fail(500, GetFailedMessage);
      case Some(k) =>
        if k !in jobs {
          r := Fail(404, JobNotFoundMessage);
        } else {
          var job := jobs[k];
          var filled := Populate(job.proposals, proposals);
          forall p: Proposal | p.id in job.proposals && p.id in proposals && proposals[p.id] == p
            ensures p in filled
          {
            var i :| 0 <= i < |job.proposals| && job.proposals[i] == p.id;
          }
          r := Reply(200, "", Some(JobWithProposals(job, filled)));
        }
    }

    /** getMyJobs: exactly the stored jobs the caller owns, newest first. */
    method GetMyJobs(caller: PublicUser) returns (r: Reply<Payload>)
      requires Valid()
      ensures r.status == 200 && r.body.Some? && r.body.value.JobsOut?
      ensures var s := r.body.value.jobs;
        && NewestFirst(s)
        && (forall x :: x in s ==> x.clientId == caller.id && x.id in jobs && jobs[x.id] == x)
        && (forall k :: k in jobs && jobs[k].clientId == caller.id ==> jobs[k] in s)
    {
      ListOwnedSpec(jobs, caller.id, clock);
      r := Reply(200, "", Some(JobsOut(ListOwned(jobs, caller.id, clock))));
    }

    /** updateJob: a malformed id makes the lookup throw (500); an unknown id
        gives 404 and a job of someone else 403; a body the schema rejects
        gives 500. In all of these nothing changes. Otherwise the fields in
        the body overwrite the job's and nothing else in the store changes. */
    method UpdateJob(caller: PublicUser, idText: string, f: JobFields) returns (r: Reply<Payload>)
      requires Valid()
      modifies this
      ensures Valid()
      ensures ParseObjectId(idText).None? ==> r == Fail(500, UpdateFailedMessage) && unchanged(this)
      ensures ParseObjectId(idText).Some? && ParseObjectId(idText).value !in old(jobs) ==>
        r == Fail(404, JobNotFoundMessage) && unchanged(this)
      ensures ParseObjectId(idText).Some? && ParseObjectId(idText).value in old(jobs) ==>
        var k := ParseObjectId(idText).value;
        && (old(jobs)[k].clientId != caller.id ==> r == Fail(403, NotOwnerMessage) && unchanged(this))
        && (old(jobs)[k].clientId == caller.id && !AssignAccepts(f) ==> r == Fail(500, UpdateFailedMessage) && unchanged(this))
        && (old(jobs)[k].clientId == caller.id && AssignAccepts(f) ==>
              var j := AssignFields(old(jobs)[k], f).value;
              && r == Reply(200, "", Some(JobOut(j)))
              && jobs == old(jobs)[k := j]
              && users == old(users) && proposals == old(proposals) && clock == old(clock))
    {
      match ParseObjectId(idText)
      case None => r := Fail(500, UpdateFailedMessage);
      case Some(k) =>
        if k !in jobs {
          return Fail(404, JobNotFoundMessage);
        }
        var job := jobs[k];
        if job.clientId != caller.id {
          return Fail(403, NotOwnerMessage);
        }
        var updated := AssignFields(job, f);
        if updated.None? {
          return Fail(500, UpdateFailedMessage);
        }
        AssignFieldsKeepsJob(job, f, k, clock);
        UpdateKeepsStore(users, jobs, proposals, clock, k, updated.value);
        jobs := jobs[k := updated.value];
        r := Reply(200, "", Some(JobOut(updated.value)));
    }

    /** deleteJob: 400 for an id that is not 24 hex digits, 404 for an unknown
        one, 403 for a job of someone else, with nothing changed; otherwise
        the job's proposals are deleted, then the job, then the owner's
        counter goes down by one. */
    method DeleteJob(caller: PublicUser, idText: string) returns (r: Reply<Payload>)
      requires Valid()
      modifies this
      ensures Valid()
      ensures ParseObjectId(idText).None? ==> r == Fail(400, InvalidIdMessage) && unchanged(this)
      ensures ParseObjectId(idText).Some? && ParseObjectId(idText).value !in old(jobs) ==>
        r == Fail(404, JobNotFoundMessage) && unchanged(this)
      ensures ParseObjectId(idText).Some? && ParseObjectId(idText).value in old(jobs) ==>
        var k := ParseObjectId(idText).value;
        && (old(jobs)[k].clientId != caller.id ==> r == Fail(403, NotOwnerDeleteMessage) && unchanged(this))
        && (old(jobs)[k].clientId == caller.id ==>
              && r == Reply(200, DeletedMessage, None)
              && proposals == WithoutJob(old(proposals), k)
              && (forall q :: q in proposals ==> proposals[q].jobId != k)
              && jobs == old(jobs) - {k}
              && users == Bump(old(users), caller.id, -1)
              && clock == old(clock))
    {
      match ParseObjectId(idText)
      case None => r := Fail(400, InvalidIdMessage);
      case Some(k) => r := DeleteStoredJob(caller, k);
    }

    /** deleteJob once the id has parsed: 404 for an unknown job, 403 for a
        job the caller does not own, else the cascade. */
    method DeleteStoredJob(caller: PublicUser, k: Id) returns (r: Reply<Payload>)
      requires Valid()
      modifies this
      ensures Valid()
      ensures k !in old(jobs) ==> r == Fail(404, JobNotFoundMessage) && unchanged(this)
      ensures k in old(jobs) && old(jobs)[k].clientId != caller.id ==> r == Fail(403, NotOwnerDeleteMessage) && unchanged(this)
      ensures k in old(jobs) && old(jobs)[k].clientId == caller.id ==>
        && r == Reply(200, DeletedMessage, None)
        && proposals == WithoutJob(old(proposals), k)
        && (forall q :: q in proposals ==> proposals[q].jobId != k)
        && jobs == old(jobs) - {k}
        && users == Bump(old(users), caller.id, -1)
        && clock == old(clock)
    {
      if k !in jobs {
        return Fail(404, JobNotFoundMessage);
      }
      if jobs[k].clientId != caller.id {
        return Fail(403, NotOwnerDeleteMessage);
      }
      DeleteKeepsStore(users, jobs, proposals, clock, k, caller.id);
      proposals := WithoutJob(proposals, k);
      jobs := jobs - {k};
      users := Bump(users, caller.id, -1);
      r := Reply(200, DeletedMessage, None);
    }

    /** submitProposal: 400 unless cover letter, rate and duration are all
        truthy (a rate of 0 included); 500 when the job id does not cast or
        the caller already has a proposal on this job (the unique index), with
        nothing changed. Otherwise the proposal is stored under a new id and,
        if the job exists, its id is appended to the job's proposal list; a
        missing job is not checked for. */
    method SubmitProposal(caller: PublicUser, idText: string, f: ProposalFields) returns (r: Reply<Payload>)
      requires Valid()
      modifies this
      ensures Valid()
      ensures !HandlerAccepts(f) ==> r == Fail(400, MissingProposalFieldsMessage) && unchanged(this)
      ensures HandlerAccepts(f) && ParseObjectId(idText).None? ==> r == Fail(500, SubmitFailedMessage) && unchanged(this)
      ensures HandlerAccepts(f) && ParseObjectId(idText).Some? ==>
        var k := ParseObjectId(idText).value;
        && (PairTaken(old(proposals), k, caller.id) ==> r == Fail(500, SubmitFailedMessage) && unchanged(this))
        && (!PairTaken(old(proposals), k, caller.id) ==>
              var p := NewProposal(old(clock), k, caller.id, f).value;
              && r == Reply(201, "", Some(ProposalOut(p)))
              && proposals == old(proposals)[p.id := p]
              && jobs == (if k in old(jobs) then old(jobs)[k := old(jobs)[k].(proposals := old(jobs)[k].proposals + [p.id])]
                          else old(jobs))
              && users == old(users) && clock == old(clock) + 1)
    {
      if !HandlerAccepts(f) {
        return Fail(400, MissingProposalFieldsMessage);
      }
      match ParseObjectId(idText)
      case None => r := Fail(500, SubmitFailedMessage);
      case Some(k) => r := StoreProposal(caller, k, f);
    }

    /** submitProposal once the fields are accepted and the job id has cast:
        the unique index refuses a second proposal by the caller on the job
        (500); otherwise the proposal is stored and pushed onto the job's list
        if that job exists. */
    method StoreProposal(caller: PublicUser, k: Id, f: ProposalFields) returns (r: Reply<Payload>)
      requires Valid()
      requires HandlerAccepts(f)
      modifies this
      ensures Valid()
      ensures PairTaken(old(proposals), k, caller.id) ==> r == Fail(500, SubmitFailedMessage) && unchanged(this)
      ensures !PairTaken(old(proposals), k, caller.id) ==>
        var p := NewProposal(old(clock), k, caller.id, f).value;
        && r == Reply(201, "", Some(ProposalOut(p)))
        && proposals == old(proposals)[p.id := p]
        && jobs == (if k in old(jobs) then old(jobs)[k := old(jobs)[k].(proposals := old(jobs)[k].proposals + [p.id])]
                    else old(jobs))
        && users == old(users) && clock == old(clock) + 1
    {
      if PairTaken(proposals, k, caller.id) {
        return Fail(500, SubmitFailedMessage);
      }
      HandlerCheckIsStricter(f);
      var p := NewProposal(clock, k, caller.id, f).value;
      var jobs' := jobs;
      if k in jobs {
        var updated := jobs[k].(proposals := jobs[k].proposals + [p.id]);
        jobs' := jobs[k := updated];
      }
      SubmitKeepsStore(users, jobs, proposals, clock, p, jobs');
      proposals := proposals[p.id := p];
      clock := clock + 1;
      jobs := jobs';
      r := Reply(201, "", Some(ProposalOut(p)));
    }

    /** register: the checks of AuthHandlers.CheckRegistration (400, nothing
        changed), then the creation of the user by CreateAccount. */
    method Register(f: AuthHandlers.RegisterFields, hash: string -> string, sign: Id -> string) returns (r: Reply<Payload>)
      requires Valid()
      modifies this
      ensures Valid()
      ensures AuthHandlers.CheckRegistration(old(users), f).Stop? ==>
        var stop := AuthHandlers.CheckRegistration(old(users), f).reply;
        r == Fail(stop.status, stop.message) && unchanged(this)
      ensures AuthHandlers.CheckRegistration(old(users), f).Proceed? ==>
        var u := NewUser(old(clock), f.email.value, f.password.value, AuthHandlers.CheckRegistration(old(users), f).role,
                         f.firstName.value, f.lastName.value);
        && (!PassesValidation(u) ==> r == Fail(500, AuthHandlers.RegisterErrorMessage) && unchanged(this))
        && (PassesValidation(u) ==>
              var stored := u.(password := hash(f.password.value));
              && users == old(users)[old(clock) := stored]
              && r == Reply(201, "", Some(Account(AuthHandlers.AuthPayload(SummaryOf(stored), Some(sign(old(clock)))))))
              && jobs == old(jobs) && proposals == old(proposals) && clock == old(clock) + 1)
    {
      match AuthHandlers.CheckRegistration(users, f)
      case Stop(reply) => r := Fail(reply.status, reply.message);
      case Proceed(role) =>
        var u := NewUser(clock, f.email.value, f.password.value, role, f.firstName.value, f.lastName.value);
        NewUserValidation(clock, f.email.value, f.password.value, role, f.firstName.value, f.lastName.value, clock + 1);
        UnfoundEmailIsFree(users, f.email.value);
        r := CreateAccount(u, hash, sign);
    }

    /** `User.create` on a new user document whose e-mail no stored user has:
        a document the schema rejects makes it throw (500, nothing changed);
        otherwise it is stored under its id, the next one, with the hash of
        the password, and the reply carries its summary and a token. */
    method CreateAccount(u: User, hash: string -> string, sign: Id -> string) returns (r: Reply<Payload>)
      requires Valid()
      requires u.id == clock
      requires PassesValidation(u) ==> WellFormed(u, clock, clock + 1)
      requires forall k :: k in users ==> users[k].email != u.email
      modifies this
      ensures Valid()
      ensures !PassesValidation(u) ==> r == Fail(500, AuthHandlers.RegisterErrorMessage) && unchanged(this)
      ensures PassesValidation(u) ==>
        var stored := u.(password := hash(u.password));
        && users == old(users)[old(clock) := stored]
        && r == Reply(201, "", Some(Account(AuthHandlers.AuthPayload(SummaryOf(stored), Some(sign(u.id))))))
        && jobs == old(jobs) && proposals == old(proposals) && clock == old(clock) + 1
    {
      if !PassesValidation(u) {
        return Fail(500, AuthHandlers.RegisterErrorMessage);
      }
      var stored := CreateUser(u, hash);
      RegisterKeepsStore(users, jobs, proposals, clock, u, stored);
      users := users[clock := stored];
      clock := clock + 1;
      r := Reply(201, "", Some(Account(AuthHandlers.AuthPayload(SummaryOf(stored), Some(sign(stored.id))))));
    }

    /** A job request end to end: an unmatched route gives 404, a refusal by
        `protect` 401 with its message, a refusal by `authorize` 403; only an
        admitted request reaches its handler, and only a handler behind the
        guards changes the store. */
    method Serve(req: Request, verify: string -> Option<Id>) returns (r: Reply<Payload>)
      requires Valid()
      modifies this
      ensures Valid()
      ensures var a := JobRoutes.Admit(req.verb, req.path, req.authorization, verify, old(users));
        && (a.NoRoute? ==> r == Fail(404, RouteNotFoundMessage))
        && (a.Unauthenticated? ==> r == Fail(401, a.message))
        && (a.Forbidden? ==> r.status == 403)
        && (!a.Admitted? || a.caller.None? ==> unchanged(this))
    {
      var a := JobRoutes.Admit(req.verb, req.path, req.authorization, verify, users);
      match a
      case NoRoute => r := Fail(404, RouteNotFoundMessage);
      case Unauthenticated(m) => r := Fail(401, m);
      case Forbidden => r := Fail(403, "");
      case Admitted(h, id, caller) =>
        JobRoutes.AdmissionSound(req.verb, req.path, req.authorization, verify, users);
        var idText := if id.Some? then id.value else "";
        if h == JobRoutes.ListJobs {
          r := ListJobs();
        } else if h == JobRoutes.GetJobById {
          r := GetJobById(idText);
        } else {
          var user := caller.value;
          if h == JobRoutes.GetMyJobs {
            r := GetMyJobs(user);
          } else if h == JobRoutes.CreateJob {
            r := CreateJob(user, req.jobBody);
          } else if h == JobRoutes.UpdateJob {
            r := UpdateJob(user, idText, req.jobBody);
          } else if h == JobRoutes.DeleteJob {
            r := DeleteJob(user, idText);
          } else {
            r := SubmitProposal(user, idText, req.proposalBody);
          }
        }
    }
  }
}
