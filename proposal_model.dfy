/** The proposal document (src/models/Proposal.js): the record, its required
    fields and defaults, and the unique (jobId, freelancerId) index as an
    invariant of the collection. */
module ProposalModel {
  import opened Common

  datatype ProposalStatus = Pending | Accepted | Rejected | Withdrawn

  function ProposalStatusName(s: ProposalStatus): string {
    match s
    case Pending => "pending"
    case Accepted => "accepted"
    case Rejected => "rejected"
    case Withdrawn => "withdrawn"
  }

  /** The status enum: exactly the four names are accepted. */
  function ParseProposalStatus(s: string): (r: Option<ProposalStatus>)
    ensures r.Some? <==> s in {"pending", "accepted", "rejected", "withdrawn"}
    ensures r.Some? ==> ProposalStatusName(r.value) == s
  {
    if s == "pending" then Some(Pending)
    else if s == "accepted" then Some(Accepted)
    else if s == "rejected" then Some(Rejected)
    else if s == "withdrawn" then Some(Withdrawn)
    else None
  }

  datatype Proposal = Proposal(
    id: Id,
    jobId: Id,
    freelancerId: Id,
    coverLetter: string,
    proposedRate: int,
    estimatedDuration: string,
    attachments: seq<string>,
    status: ProposalStatus,
    createdAt: nat)

  /** The proposal fields of a request body. */
  datatype ProposalFields = ProposalFields(
    coverLetter: Option<string>,
    proposedRate: Option<int>,
    estimatedDuration: Option<string>)

  /** The schema's `required` rules: the strings must be present and non-empty,
      the rate present (0 is a valid Number). */
  function SchemaAccepts(f: ProposalFields): (r: bool)
    ensures r ==> f.coverLetter.Some? && f.proposedRate.Some? && f.estimatedDuration.Some?
  {
    Present(f.coverLetter) && f.proposedRate.Some? && Present(f.estimatedDuration)
  }

  /** The check submitProposal makes before creating anything: all three
      fields truthy, so a rate of 0 is turned away as missing. */
  function HandlerAccepts(f: ProposalFields): (r: bool)
    ensures r ==> SchemaAccepts(f) && f.proposedRate.value != 0
  {
    Present(f.coverLetter) && PresentNumber(f.proposedRate) && Present(f.estimatedDuration)
  }

  /** Whatever the handler lets through, the schema accepts; the converse fails
      only on a rate of 0. */
  lemma HandlerCheckIsStricter(f: ProposalFields)
    ensures HandlerAccepts(f) ==> SchemaAccepts(f)
    ensures SchemaAccepts(f) && !HandlerAccepts(f) <==> SchemaAccepts(f) && f.proposedRate.value == 0
  {
  }

  /** `Proposal.create`'s document: validated by the schema, status `pending`,
      no attachments. */
  function NewProposal(id: Id, jobId: Id, freelancerId: Id, f: ProposalFields): (r: Option<Proposal>)
    ensures r.Some? <==> SchemaAccepts(f)
    ensures r.Some? ==> r.value.id == id && r.value.createdAt == id
    ensures r.Some? ==> r.value.jobId == jobId && r.value.freelancerId == freelancerId
    ensures r.Some? ==> (r.value.coverLetter == f.coverLetter.value && r.value.proposedRate == f.proposedRate.value
                         && r.value.estimatedDuration == f.estimatedDuration.value)
    ensures r.Some? ==> r.value.status == Pending && r.value.attachments == []
  {
    if SchemaAccepts(f) then
      Some(Proposal(id, jobId, freelancerId, f.coverLetter.value, f.proposedRate.value,
                    f.estimatedDuration.value, [], Pending, id))
    else None
  }

  // ---------------------------------------------------------------------------
  // The collection
  // ---------------------------------------------------------------------------

  predicate ProposalsKeyed(ps: map<Id, Proposal>, clock: nat) {
    forall k :: k in ps ==> ps[k].id == k && ps[k].createdAt == k && k < clock
  }

  /** The unique index on (jobId, freelancerId). */
  predicate UniquePairs(ps: map<Id, Proposal>) {
    forall a, b :: a in ps && b in ps && ps[a].jobId == ps[b].jobId && ps[a].freelancerId == ps[b].freelancerId ==> a == b
  }

  /** Some stored proposal already has this (job, freelancer) pair. */
  predicate PairTaken(ps: map<Id, Proposal>, jobId: Id, freelancerId: Id) {
    exists k :: k in ps && ps[k].jobId == jobId && ps[k].freelancerId == freelancerId
  }

  /** An insert that the unique index lets through keeps the index's invariant. */
  lemma InsertKeepsUniquePairs(ps: map<Id, Proposal>, p: Proposal)
    requires UniquePairs(ps)
    requires !PairTaken(ps, p.jobId, p.freelancerId)
    ensures UniquePairs(ps[p.id := p])
  {
    var qs := ps[p.id := p];
    forall a, b | a in qs && b in qs && qs[a].jobId == qs[b].jobId && qs[a].freelancerId == qs[b].freelancerId
      ensures a == b
    {
      if a != p.id && b != p.id {
        assert ps[a] == qs[a] && ps[b] == qs[b];
      } else if a != p.id || b != p.id {
        // the other one would already hold the new pair
        assert false;
      }
    }
  }

  /** `Proposal.deleteMany({ jobId })`: every proposal of the job is removed and
      every other proposal stays as it was. */
  function WithoutJob(ps: map<Id, Proposal>, jobId: Id): (r: map<Id, Proposal>)
    ensures forall k :: k in r <==> k in ps && ps[k].jobId != jobId
    ensures forall k :: k in r ==> r[k] == ps[k]
  {
    map k | k in ps && ps[k].jobId != jobId :: ps[k]
  }

  /** Removing proposals keeps the unique index's invariant and the keying. */
  lemma WithoutJobKeepsInvariants(ps: map<Id, Proposal>, jobId: Id, clock: nat)
    requires UniquePairs(ps) && ProposalsKeyed(ps, clock)
    ensures UniquePairs(WithoutJob(ps, jobId)) && ProposalsKeyed(WithoutJob(ps, jobId), clock)
  {
  }

  /** `populate("proposals")`: the referenced proposals, in the order of the
      references; a reference to a missing proposal is dropped. */
  function Populate(ids: seq<Id>, ps: map<Id, Proposal>): (r: seq<Proposal>)
    requires forall k :: k in ps ==> ps[k].id == k
    ensures |r| <= |ids|
    ensures forall p :: p in r ==> p.id in ids && p.id in ps && ps[p.id] == p
    ensures forall i :: 0 <= i < |ids| && ids[i] in ps ==> ps[ids[i]] in r
  {
    if ids == [] then []
    else
      var rest := Populate(ids[1..], ps);
      if ids[0] in ps then [ps[ids[0]]] + rest else rest
  }
}
