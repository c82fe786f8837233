/** The Participation row (H2H/Event/models.py, class Participation) that both
    revisions of the job table share: a nullable job, a user and an integer
    state, with the derived count of accepted participations per job. */
module Participations {
  import opened Common

  /** The declared choices of `Participation.state`. */
  const Participated: int := 1
  const Applied: int := 2
  const Declined: int := 3
  const Accepted: int := 4
  const Canceled: int := 5

  /** `job` is nullable because deleting a job sets it to NULL; `state` is a
      plain integer column: its choices are not enforced when a row is saved. */
  datatype Participation = Participation(job: Option<JobId>, user: UserId, state: int)

  type Participations = map<ParticipationId, Participation>

  predicate DeclaredState(state: int) {
    Participated <= state <= Canceled
  }

  predicate AllStatesDeclared(parts: Participations) {
    forall id :: id in parts ==> DeclaredState(parts[id].state)
  }

  /** The rows of `user` that point at `job`. */
  function RowsOf(parts: Participations, user: UserId, job: Option<JobId>): set<ParticipationId> {
    set id | id in parts && parts[id].user == user && parts[id].job == job
  }

  /** The database constraint `unique_together = ('user', 'job')`: every row
      with a job is the only row of its (user, job) pair; rows whose job is
      NULL never collide. */
  predicate OnePerUserAndJob(parts: Participations): (b: bool)
    ensures b <==> forall id :: id in parts && parts[id].job.Some? ==> RowsOf(parts, parts[id].user, parts[id].job) == {id}
  {
    var b := forall id1, id2 ::
      id1 in parts && id2 in parts && parts[id1].job.Some? &&
      parts[id1].job == parts[id2].job && parts[id1].user == parts[id2].user
      ==> id1 == id2;
    OnePerUserAndJobSingleRows(parts, b);
    b
  }

  /** True when some participation of `user` points at `job` (which may be None):
      `Participation.objects.filter(user=user, job=job)` is non-empty. */
  predicate HasApplied(parts: Participations, user: UserId, job: Option<JobId>) {
    exists id :: id in parts && parts[id].user == user && parts[id].job == job
  }

  /** The participations of `job` that hold the Accepted state. */
  function AcceptedOn(parts: Participations, job: JobId): set<ParticipationId> {
    set id | id in parts && parts[id].job == Some(job) && parts[id].state == Accepted
  }

  /** `Job.occupied_positions`: the number of accepted participations of the
      job; it is zero exactly when none of the job's participations is Accepted. */
  function OccupiedPositions(parts: Participations, job: JobId): (n: nat)
    ensures n <= |parts|
    ensures n == 0 <==> forall id :: id in parts && parts[id].job == Some(job) ==> parts[id].state != Accepted
  {
    AcceptedOnBounds(parts, job);
    |AcceptedOn(parts, job)|
  }

  /** The accepted participations of a job are some of the rows, and there are
      none exactly when no participation of the job is Accepted. */
  lemma AcceptedOnBounds(parts: Participations, job: JobId)
    ensures |AcceptedOn(parts, job)| <= |parts|
    ensures |AcceptedOn(parts, job)| == 0 <==> forall id :: id in parts && parts[id].job == Some(job) ==> parts[id].state != Accepted
  {
    var accepted := AcceptedOn(parts, job);
    assert parts.Keys == accepted + (parts.Keys - accepted);
    if accepted != {} {
      var id :| id in accepted;
      assert parts[id].job == Some(job) && parts[id].state == Accepted;
    }
  }

  /** How much one participation in `state` contributes to its job's occupancy. */
  function AcceptedWeight(state: int): int {
    if state == Accepted then 1 else 0
  }

  /** The participation table after one row has been given a new state. */
  function WithState(parts: Participations, id: ParticipationId, state: int): Participations
    requires id in parts
  {
    parts[id := parts[id].(state := state)]
  }

  /** The participation table after the jobs in `removed` are deleted: the
      foreign key of their participations is set to NULL (`on_delete=SET_NULL`). */
  function Detach(parts: Participations, removed: set<JobId>): (r: Participations)
    ensures r.Keys == parts.Keys
    ensures forall id :: id in r ==> r[id].user == parts[id].user && r[id].state == parts[id].state
    ensures forall id :: id in r ==> (r[id].job.Some? ==> r[id].job.value !in removed)
    ensures forall id :: id in r && parts[id].job.Some? && parts[id].job.value in removed ==> r[id].job.None?
    ensures forall id :: id in r && (parts[id].job.None? || parts[id].job.value !in removed) ==> r[id] == parts[id]
  {
    map id | id in parts ::
      if parts[id].job.Some? && parts[id].job.value in removed then parts[id].(job := None) else parts[id]
  }

  /** A change of state touches neither users nor jobs, so the (user, job)
      constraint survives it. */
  lemma WithStateKeepsUnique(parts: Participations, id: ParticipationId, state: int)
    requires id in parts && OnePerUserAndJob(parts)
    ensures OnePerUserAndJob(WithState(parts, id, state))
    ensures WithState(parts, id, state).Keys == parts.Keys
    ensures forall k :: k in parts ==> WithState(parts, id, state)[k].job == parts[k].job
  {
    var m := WithState(parts, id, state);
    forall id1, id2 | id1 in m && id2 in m && m[id1].job.Some? && m[id1].job == m[id2].job && m[id1].user == m[id2].user
      ensures id1 == id2
    {
      assert parts[id1].job == m[id1].job && parts[id1].user == m[id1].user;
      assert parts[id2].job == m[id2].job && parts[id2].user == m[id2].user;
    }
  }

  /** Changing the state of one participation moves the occupancy of its own
      job by the difference of the weights and leaves every other job's alone. */
  lemma OccupiedAfterStateChange(parts: Participations, id: ParticipationId, state: int, job: JobId)
    requires id in parts
    ensures OccupiedPositions(WithState(parts, id, state), job) ==
            OccupiedPositions(parts, job)
            + (if parts[id].job == Some(job) then AcceptedWeight(state) - AcceptedWeight(parts[id].state) else 0)
  {
    var before := AcceptedOn(parts, job);
    var after := AcceptedOn(WithState(parts, id, state), job);
    assert after - {id} == before - {id};
    assert |before| == |before - {id}| + (if id in before then 1 else 0) by {
      if id in before { assert before == (before - {id}) + {id}; }
    }
    assert |after| == |after - {id}| + (if id in after then 1 else 0) by {
      if id in after { assert after == (after - {id}) + {id}; }
    }
  }

  /** Inserting a row raises the occupancy of its job by its weight. */
  lemma OccupiedAfterInsert(parts: Participations, id: ParticipationId, p: Participation, job: JobId)
    requires id !in parts
    ensures OccupiedPositions(parts[id := p], job) ==
            OccupiedPositions(parts, job) + (if p.job == Some(job) then AcceptedWeight(p.state) else 0)
  {
    var before := AcceptedOn(parts, job);
    var after := AcceptedOn(parts[id := p], job);
    assert id !in before;
    if p.job == Some(job) && p.state == Accepted {
      assert after == before + {id};
    } else {
      assert after == before;
    }
  }

  /** Inserting a row with a fresh id keeps the (user, job) constraint exactly
      when no existing row of that user points at the same job. */
  lemma UniqueAfterInsert(parts: Participations, id: ParticipationId, p: Participation)
    requires id !in parts && OnePerUserAndJob(parts)
    ensures OnePerUserAndJob(parts[id := p]) <==> (p.job.None? || !HasApplied(parts, p.user, p.job))
  {
    var q := parts[id := p];
    if p.job.Some? && HasApplied(parts, p.user, p.job) {
      var other :| other in parts && parts[other].user == p.user && parts[other].job == p.job;
      assert q[id].job == q[other].job && q[id].user == q[other].user && id != other;
    }
  }

  /** Detaching participations from deleted jobs keeps the (user, job) constraint. */
  lemma DetachKeepsUnique(parts: Participations, removed: set<JobId>)
    requires OnePerUserAndJob(parts)
    ensures OnePerUserAndJob(Detach(parts, removed))
  {
    var d := Detach(parts, removed);
    forall id1, id2 | id1 in d && id2 in d && d[id1].job.Some? && d[id1].job == d[id2].job && d[id1].user == d[id2].user
      ensures id1 == id2
    {
      assert d[id1] == parts[id1] && d[id2] == parts[id2];
    }
  }

  /** The pairwise form of the (user, job) constraint holds exactly when each
      row with a job is alone in its pair. */
  lemma OnePerUserAndJobSingleRows(parts: Participations, b: bool)
    requires b == forall id1, id2 ::
      id1 in parts && id2 in parts && parts[id1].job.Some? &&
      parts[id1].job == parts[id2].job && parts[id1].user == parts[id2].user
      ==> id1 == id2
    ensures b <==> forall id :: id in parts && parts[id].job.Some? ==> RowsOf(parts, parts[id].user, parts[id].job) == {id}
  {
    if b {
      forall id | id in parts && parts[id].job.Some?
        ensures RowsOf(parts, parts[id].user, parts[id].job) == {id}
      {
        assert id in RowsOf(parts, parts[id].user, parts[id].job);
      }
    } else {
      var id1, id2 :| id1 in parts && id2 in parts && parts[id1].job.Some? &&
        parts[id1].job == parts[id2].job && parts[id1].user == parts[id2].user && id1 != id2;
      assert id2 in RowsOf(parts, parts[id1].user, parts[id1].job);
    }
  }
}
