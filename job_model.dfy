/** The job document (src/models/Job.js): the record, its enums and defaults,
    what `Job.create` and `Object.assign` + `save` make of request fields, and
    the two newest-first listings the job handlers query. */
module JobModel {
  import opened Common

  datatype Duration = LessThanWeek | OneToFourWeeks | OneToThreeMonths | MoreThanThreeMonths

  function DurationName(d: Duration): string {
    match d
    case LessThanWeek => "less_than_week"
    case OneToFourWeeks => "one_to_four_weeks"
    case OneToThreeMonths => "one_to_three_months"
    case MoreThanThreeMonths => "more_than_three_months"
  }

  /** The duration enum: exactly the four bucket names are accepted. */
  function ParseDuration(s: string): (r: Option<Duration>)
    ensures r.Some? <==> s in {"less_than_week", "one_to_four_weeks", "one_to_three_months", "more_than_three_months"}
    ensures r.Some? ==> DurationName(r.value) == s
  {
    if s == "less_than_week" then Some(LessThanWeek)
    else if s == "one_to_four_weeks" then Some(OneToFourWeeks)
    else if s == "one_to_three_months" then Some(OneToThreeMonths)
    else if s == "more_than_three_months" then Some(MoreThanThreeMonths)
    else None
  }

  const DefaultDuration: Duration := OneToFourWeeks

  datatype JobStatus = Open | InProgress | Completed | Cancelled

  function JobStatusName(s: JobStatus): string {
    match s
    case Open => "open"
    case InProgress => "in_progress"
    case Completed => "completed"
    case Cancelled => "cancelled"
  }

  /** The status enum: exactly the four names are accepted. */
  function ParseJobStatus(s: string): (r: Option<JobStatus>)
    ensures r.Some? <==> s in {"open", "in_progress", "completed", "cancelled"}
    ensures r.Some? ==> JobStatusName(r.value) == s
  {
    if s == "open" then Some(Open)
    else if s == "in_progress" then Some(InProgress)
    else if s == "completed" then Some(Completed)
    else if s == "cancelled" then Some(Cancelled)
    else None
  }

  /** Every enum value reads back from its name. */
  lemma EnumRoundTrips(d: Duration, s: JobStatus)
    ensures ParseDuration(DurationName(d)) == Some(d)
    ensures ParseJobStatus(JobStatusName(s)) == Some(s)
  {
  }

  /** A stored budget. The currency is None only after an update assigned a
      budget object without one: assigning a nested path replaces it whole,
      and the schema default is applied when a document is built, not when a
      path is assigned. */
  datatype Budget = Budget(min: Option<int>, max: Option<int>, currency: Option<string>)

  /** A budget object as a request body carries it. */
  datatype BudgetInput = BudgetInput(min: Option<int>, max: Option<int>, currency: Option<string>)

  const DefaultCurrency := "USD"

  /** The budget `Job.create` stores for a body's `budget` (`budget || {}`): an
      absent budget is empty, and an absent currency defaults to "USD", so a
      created job always has a currency. */
  function BudgetOf(b: Option<BudgetInput>): (r: Budget)
    ensures r.currency.Some?
    ensures b.None? ==> r == Budget(None, None, Some(DefaultCurrency))
    ensures b.Some? ==> r.min == b.value.min && r.max == b.value.max
    ensures b.Some? && b.value.currency.Some? ==> r.currency == b.value.currency
    ensures b.Some? && b.value.currency.None? ==> r.currency == Some(DefaultCurrency)
  {
    match b
    case None => Budget(None, None, Some(DefaultCurrency))
    case Some(i) => Budget(i.min, i.max, if i.currency.Some? then i.currency else Some(DefaultCurrency))
  }

  datatype Job = Job(
    id: Id,
    clientId: Id,
    title: string,
    description: string,
    budget: Budget,
    duration: Duration,
    skills: seq<string>,
    category: Option<string>,
    status: JobStatus,
    proposals: seq<Id>,
    hiredFreelancer: Option<Id>,
    createdAt: nat)

  /** The job fields a request body may carry: every path of the schema. */
  datatype JobFields = JobFields(
    title: Option<string>,
    description: Option<string>,
    budget: Option<BudgetInput>,
    duration: Option<string>,
    skills: Option<seq<string>>,
    category: Option<string>,
    status: Option<string>,
    proposals: Option<seq<Id>>,
    hiredFreelancer: Option<Id>,
    clientId: Option<Id>)

  /** A stored job: keyed by its id, created before `clock`, with a trimmed,
      non-empty title and a non-empty description. */
  predicate JobWellFormed(j: Job, key: Id, clock: nat) {
    j.id == key && j.createdAt == key && key < clock
    && j.title != "" && IsTrimmed(j.title) && j.description != ""
  }

  predicate JobsWellFormed(jobs: map<Id, Job>, clock: nat) {
    forall k :: k in jobs ==> JobWellFormed(jobs[k], k, clock)
  }

  // ---------------------------------------------------------------------------
  // Job.create
  // ---------------------------------------------------------------------------

  /** The validators `Job.create` runs on createJob's fields: title (after
      trimming) and description present and non-empty, and a duration, if
      given, one of the four names. */
  function CreateAccepts(f: JobFields): (r: bool)
    ensures r <==> f.title.Some? && f.description.Some? && AssignAccepts(f.(status := None))
  {
    f.title.Some? && Trim(f.title.value) != ""
    && f.description.Some? && f.description.value != ""
    && (f.duration.None? || ParseDuration(f.duration.value).Some?)
  }

  /** The document `Job.create` stores for createJob: owned by the caller, with
      the trimmed title, `budget || {}`, `skills || []`, the duration or its
      default, status `open`, no proposals and no hired freelancer. The fields
      createJob does not pass on (status, proposals, hiredFreelancer,
      clientId) are ignored. */
  function CreateDocument(id: Id, owner: Id, f: JobFields): (r: Option<Job>)
    ensures r.Some? <==> CreateAccepts(f)
    ensures r.Some? ==> r.value.id == id && r.value.createdAt == id && r.value.clientId == owner
    ensures r.Some? ==> r.value.title == Trim(f.title.value) && r.value.description == f.description.value
    ensures r.Some? ==> r.value.budget == BudgetOf(f.budget) && r.value.category == f.category
    ensures r.Some? ==> r.value.skills == (if f.skills.Some? then f.skills.value else [])
    ensures r.Some? ==> r.value.duration == (if f.duration.Some? then ParseDuration(f.duration.value).value else DefaultDuration)
    ensures r.Some? ==> r.value.status == Open && r.value.proposals == [] && r.value.hiredFreelancer.None?
  {
    if !CreateAccepts(f) then None
    else
      Some(Job(id, owner, Trim(f.title.value), f.description.value, BudgetOf(f.budget),
               if f.duration.Some? then ParseDuration(f.duration.value).value else DefaultDuration,
               if f.skills.Some? then f.skills.value else [],
               f.category, Open, [], None, id))
  }

  /** A created job is a well-formed stored job. */
  lemma CreatedJobWellFormed(id: Id, owner: Id, f: JobFields, clock: nat)
    requires CreateAccepts(f) && id < clock
    ensures JobWellFormed(CreateDocument(id, owner, f).value, id, clock)
  {
  }

  // ---------------------------------------------------------------------------
  // Object.assign(job, req.body) followed by job.save()
  // ---------------------------------------------------------------------------

  /** The validators `save` runs on the assigned fields: a given title must keep
      some text after trimming, a given description must be non-empty, and a
      given duration or status must be one of its enum's names. */
  function AssignAccepts(f: JobFields): (r: bool)
    ensures f.title.None? && f.description.None? && f.duration.None? && f.status.None? ==> r
    ensures r && f.title.Some? ==> f.title.value != ""
  {
    (f.title.None? || Trim(f.title.value) != "")
    && (f.description.None? || f.description.value != "")
    && (f.duration.None? || ParseDuration(f.duration.value).Some?)
    && (f.status.None? || ParseJobStatus(f.status.value).Some?)
  }

  /** `Object.assign(job, body)` then `save()`: every field present in the body
      overwrites the stored one (through the schema's casts), every absent
      field keeps its value, and the id and creation time never change. */
  function AssignFields(job: Job, f: JobFields): (r: Option<Job>)
    ensures r.Some? <==> AssignAccepts(f)
    ensures r.Some? ==> r.value.id == job.id && r.value.createdAt == job.createdAt
    ensures r.Some? ==> r.value.title == (if f.title.Some? then Trim(f.title.value) else job.title)
    ensures r.Some? ==> r.value.description == (if f.description.Some? then f.description.value else job.description)
    ensures r.Some? ==> r.value.budget == (if f.budget.Some? then AssignedBudget(f.budget.value) else job.budget)
    ensures r.Some? ==> r.value.duration == (if f.duration.Some? then ParseDuration(f.duration.value).value else job.duration)
    ensures r.Some? ==> r.value.skills == (if f.skills.Some? then f.skills.value else job.skills)
    ensures r.Some? ==> r.value.category == (if f.category.Some? then f.category else job.category)
    ensures r.Some? ==> r.value.status == (if f.status.Some? then ParseJobStatus(f.status.value).value else job.status)
    ensures r.Some? ==> r.value.proposals == (if f.proposals.Some? then f.proposals.value else job.proposals)
    ensures r.Some? ==> r.value.hiredFreelancer == (if f.hiredFreelancer.Some? then f.hiredFreelancer else job.hiredFreelancer)
    ensures r.Some? ==> r.value.clientId == (if f.clientId.Some? then f.clientId.value else job.clientId)
  {
    if !AssignAccepts(f) then None
    else
      Some(Job(job.id,
               Overwrite(f.clientId, job.clientId),
               Overwrite(if f.title.Some? then Some(Trim(f.title.value)) else None, job.title),
               Overwrite(f.description, job.description),
               Overwrite(if f.budget.Some? then Some(AssignedBudget(f.budget.value)) else None, job.budget),
               Overwrite(if f.duration.Some? then ParseDuration(f.duration.value) else None, job.duration),
               Overwrite(f.skills, job.skills),
               OverwriteOptional(f.category, job.category),
               Overwrite(if f.status.Some? then ParseJobStatus(f.status.value) else None, job.status),
               Overwrite(f.proposals, job.proposals),
               OverwriteOptional(f.hiredFreelancer, job.hiredFreelancer),
               job.createdAt))
  }

  /** The budget an assigned `budget` object leaves: exactly the object's
      fields, with no default filled in. */
  function AssignedBudget(b: BudgetInput): Budget {
    Budget(b.min, b.max, b.currency)
  }

  /** One property copied by Object.assign: a value given in the body replaces
      the stored one, an absent one leaves it. */
  function Overwrite<T>(given: Option<T>, current: T): (r: T)
    ensures given.Some? ==> r == given.value
    ensures given.None? ==> r == current
  {
    if given.Some? then given.value else current
  }

  /** The same for an optional field. */
  function OverwriteOptional<T>(given: Option<T>, current: Option<T>): (r: Option<T>)
    ensures given.Some? ==> r == given
    ensures given.None? ==> r == current
  {
    if given.Some? then given else current
  }

  /** An empty body changes nothing, and an accepted assignment keeps a stored
      job well formed. */
  lemma AssignFieldsKeepsJob(job: Job, f: JobFields, key: Id, clock: nat)
    requires JobWellFormed(job, key, clock)
    ensures AssignFields(job, JobFields(None, None, None, None, None, None, None, None, None, None)) == Some(job)
    ensures AssignAccepts(f) ==> JobWellFormed(AssignFields(job, f).value, key, clock)
  {
    var empty := JobFields(None, None, None, None, None, None, None, None, None, None);
    assert AssignFields(job, empty).value == job;
  }

  // ---------------------------------------------------------------------------
  // Listings: find(...).sort({ createdAt: -1 })
  // ---------------------------------------------------------------------------

  /** Every stored job sits under its own id, which is also its creation time. */
  predicate JobsKeyed(jobs: map<Id, Job>) {
    forall k :: k in jobs ==> jobs[k].id == k && jobs[k].createdAt == k
  }

  /** Strictly newest first by creation time. */
  predicate NewestFirst(s: seq<Job>) {
    forall a, b :: 0 <= a < b < |s| ==> s[a].createdAt > s[b].createdAt
  }

  /** The ids of the stored jobs below `bound` owned by `owner`, or of all of
      them when `owner` is None. */
  function SelectedIds(jobs: map<Id, Job>, owner: Option<Id>, bound: nat): set<Id> {
    set k | k in jobs && k < bound && Selected(jobs[k], owner)
  }

  predicate Selected(j: Job, owner: Option<Id>) {
    owner.None? || j.clientId == owner.value
  }

  /** The stored jobs created before `bound` (all of them, or those owned by
      `owner`), newest first: each selected job is in, nothing else is. */
  function NewestBelow(jobs: map<Id, Job>, owner: Option<Id>, bound: nat): (r: seq<Job>)
    requires JobsKeyed(jobs)
    ensures NewestFirst(r)
    ensures forall x :: x in r ==> x.id < bound && x.id in jobs && jobs[x.id] == x && Selected(x, owner)
    ensures forall k :: k in jobs && k < bound && Selected(jobs[k], owner) ==> jobs[k] in r
    decreases bound
  {
    if bound == 0 then []
    else
      var rest := NewestBelow(jobs, owner, bound - 1);
      var k := bound - 1;
      if k in jobs && Selected(jobs[k], owner) then [jobs[k]] + rest else rest
  }

  /** Raising the bound by one adds the job at the old bound, if it is selected. */
  lemma SelectedIdsStep(jobs: map<Id, Job>, owner: Option<Id>, k: nat)
    ensures k in jobs && Selected(jobs[k], owner) ==> SelectedIds(jobs, owner, k + 1) == SelectedIds(jobs, owner, k) + {k}
    ensures !(k in jobs && Selected(jobs[k], owner)) ==> SelectedIds(jobs, owner, k + 1) == SelectedIds(jobs, owner, k)
  {
  }

  /** Raising the bound by one lengthens the listing by the job at the old
      bound, if it is selected. */
  lemma NewestBelowLength(jobs: map<Id, Job>, owner: Option<Id>, k: nat)
    requires JobsKeyed(jobs)
    ensures |NewestBelow(jobs, owner, k + 1)| == |NewestBelow(jobs, owner, k)| + if k in jobs && Selected(jobs[k], owner) then 1 else 0
  {
  }

  /** Each selected job appears once: the listing is as long as the selection. */
  lemma {:induction false} NewestBelowCount(jobs: map<Id, Job>, owner: Option<Id>, bound: nat)
    requires JobsKeyed(jobs)
    ensures |NewestBelow(jobs, owner, bound)| == |SelectedIds(jobs, owner, bound)|
  {
    if bound == 0 {
      assert SelectedIds(jobs, owner, bound) == {};
    } else {
      var k := bound - 1;
      NewestBelowCount(jobs, owner, k);
      SelectedIdsStep(jobs, owner, k);
      NewestBelowLength(jobs, owner, k);
      if k in jobs && Selected(jobs[k], owner) {
        assert k !in SelectedIds(jobs, owner, k);
      }
    }
  }

  const ListLimit: nat := 200

  /** `.limit(n)`: the first n elements, or all of them when there are fewer. */
  function Limit(s: seq<Job>, n: nat): (r: seq<Job>)
    ensures |r| == if |s| <= n then |s| else n
    ensures r == s[..|r|]
  {
    if |s| <= n then s else s[..n]
  }

  /** listJobs' query: all jobs, newest first, at most 200. */
  function ListAll(jobs: map<Id, Job>, clock: nat): (r: seq<Job>)
    requires JobsKeyed(jobs)
    ensures |r| <= ListLimit && NewestFirst(r)
    ensures forall x :: x in r ==> x.id in jobs && jobs[x.id] == x
  {
    Limit(NewestBelow(jobs, None, clock), ListLimit)
  }

  /** What listJobs promises: at most 200 jobs, newest first, each a stored
      job; as many as there are up to 200; and every stored job left out is
      older than every job returned. */
  lemma {:induction false} ListAllSpec(jobs: map<Id, Job>, clock: nat)
    requires JobsKeyed(jobs) && forall k :: k in jobs ==> k < clock
    ensures var r := ListAll(jobs, clock);
      && |r| <= ListLimit
      && |r| == (if |jobs| <= ListLimit then |jobs| else ListLimit)
      && NewestFirst(r)
      && (forall x :: x in r ==> x.id in jobs && jobs[x.id] == x)
      && (forall x, k :: x in r && k in jobs && jobs[k] !in r ==> jobs[k].createdAt < x.createdAt)
  {
    ListAllLength(jobs, clock);
    ListAllLeavesOutOlder(jobs, clock);
  }

  lemma ListAllLength(jobs: map<Id, Job>, clock: nat)
    requires JobsKeyed(jobs) && forall k :: k in jobs ==> k < clock
    ensures |ListAll(jobs, clock)| == (if |jobs| <= ListLimit then |jobs| else ListLimit)
  {
    NewestBelowCount(jobs, None, clock);
    assert SelectedIds(jobs, None, clock) == jobs.Keys;
  }

  lemma ListAllLeavesOutOlder(jobs: map<Id, Job>, clock: nat)
    requires JobsKeyed(jobs) && forall k :: k in jobs ==> k < clock
    ensures var r := ListAll(jobs, clock);
      forall x, k :: x in r && k in jobs && jobs[k] !in r ==> jobs[k].createdAt < x.createdAt
  {
    var s := NewestBelow(jobs, None, clock);
    var r := ListAll(jobs, clock);
    forall x, k | x in r && k in jobs && jobs[k] !in r
      ensures jobs[k].createdAt < x.createdAt
    {
      PrefixIsNewer(s, |r|, x, jobs[k]);
    }
  }

  /** In a newest-first sequence, whatever a prefix leaves out is older than
      everything the prefix keeps. */
  lemma PrefixIsNewer(s: seq<Job>, n: nat, x: Job, y: Job)
    requires NewestFirst(s) && n <= |s|
    requires x in s[..n] && y in s && y !in s[..n]
    ensures y.createdAt < x.createdAt
  {
    var a :| 0 <= a < n && s[..n][a] == x;
    var b :| 0 <= b < |s| && s[b] == y;
    assert b >= n;
  }

  /** getMyJobs' query: the caller's jobs, newest first. */
  function ListOwned(jobs: map<Id, Job>, owner: Id, clock: nat): (r: seq<Job>)
    requires JobsKeyed(jobs)
    ensures NewestFirst(r)
    ensures forall x :: x in r ==> x.clientId == owner && x.id in jobs && jobs[x.id] == x
  {
    NewestBelow(jobs, Some(owner), clock)
  }

  /** What getMyJobs promises: exactly the stored jobs whose clientId is the
      caller, each once, newest first. */
  lemma ListOwnedSpec(jobs: map<Id, Job>, owner: Id, clock: nat)
    requires JobsKeyed(jobs) && forall k :: k in jobs ==> k < clock
    ensures var r := ListOwned(jobs, owner, clock);
      && NewestFirst(r)
      && (forall x :: x in r ==> x.clientId == owner && x.id in jobs && jobs[x.id] == x)
      && (forall k :: k in jobs && jobs[k].clientId == owner ==> jobs[k] in r)
  {
  }

  // ---------------------------------------------------------------------------
  // The posted-jobs counter
  // ---------------------------------------------------------------------------

  /** The ids of the stored jobs owned by `owner`. */
  function OwnedIds(jobs: map<Id, Job>, owner: Id): set<Id> {
    set k | k in jobs && jobs[k].clientId == owner
  }

  /** Storing a new job adds one to its owner's jobs and none to anyone else's. */
  lemma OwnedAfterInsert(jobs: map<Id, Job>, j: Job, u: Id)
    requires j.id !in jobs
    ensures |OwnedIds(jobs[j.id := j], u)| == |OwnedIds(jobs, u)| + (if j.clientId == u then 1 else 0)
  {
    if j.clientId == u {
      assert OwnedIds(jobs[j.id := j], u) == OwnedIds(jobs, u) + {j.id};
    } else {
      assert OwnedIds(jobs[j.id := j], u) == OwnedIds(jobs, u);
    }
  }

  /** Removing a stored job takes one from its owner's jobs and none from anyone
      else's. */
  lemma OwnedAfterRemove(jobs: map<Id, Job>, k: Id, u: Id)
    requires k in jobs
    ensures |OwnedIds(jobs - {k}, u)| == |OwnedIds(jobs, u)| - (if jobs[k].clientId == u then 1 else 0)
  {
    if jobs[k].clientId == u {
      assert OwnedIds(jobs - {k}, u) == OwnedIds(jobs, u) - {k};
    } else {
      assert OwnedIds(jobs - {k}, u) == OwnedIds(jobs, u);
    }
  }

  /** Replacing a stored job by one with the same owner changes nobody's jobs. */
  lemma OwnedAfterReplace(jobs: map<Id, Job>, k: Id, j: Job, u: Id)
    requires k in jobs && j.clientId == jobs[k].clientId
    ensures OwnedIds(jobs[k := j], u) == OwnedIds(jobs, u)
  {
  }
}
