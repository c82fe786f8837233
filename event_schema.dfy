/** The mutations of H2H/Event/schema.py, against the job table of the revision
    they were written for: every job carries `total_positions`, a hand-kept
    `open_positions` counter and a `canceled` flag. Each mutation is one
    sequential step on the store; an exception is a `Fail`/`Failure` result
    after which nothing has been written. */
module EventSchema {
  import opened Common
  import opened Participations

  /** Column default of `total_positions` and `open_positions`. */
  const DefaultPositions: int := 999

  datatype Event = Event(name: string, description: string, organisation: Option<OrganisationId>, creator: UserId)

  datatype Job = Job(
    name: string,
    description: Option<string>,
    event: EventId,
    totalPositions: int,
    openPositions: int,
    canceled: bool)

  type Jobs = map<JobId, Job>

  /** How `UpdateParticipation` moves `open_positions` when a participation in
      state `current` is set to `target`: opposite to the move of the job's
      occupancy for the targets Declined, Accepted and Canceled, and not at all
      for any other target. */
  function OpenPositionsDelta(current: int, target: int): (d: int)
    ensures target in {Declined, Accepted, Canceled} ==> d == AcceptedWeight(current) - AcceptedWeight(target)
    ensures target !in {Declined, Accepted, Canceled} ==> d == 0
  {
    if target == Canceled then (if current == Accepted then 1 else 0)
    else if target == Accepted && current != Accepted then -1
    else if target == Declined && current == Accepted then 1
    else 0
  }

  /** Who may set a participation of a job to `target`: nobody while the job is
      canceled, its own user for Canceled, the event creator for anything else. */
  function ParticipationGate(actor: UserId, participant: UserId, creator: UserId, jobCanceled: bool, target: int): (r: Outcome)
    ensures r.Pass? <==> !jobCanceled && actor == (if target == Canceled then participant else creator)
    ensures jobCanceled ==> r == Fail(JobCanceled)
    ensures !jobCanceled && target == Canceled && actor != participant ==> r == Fail(NotParticipator)
    ensures !jobCanceled && target != Canceled && actor != creator ==> r == Fail(NotEventCreator)
  {
    if jobCanceled then Fail(JobCanceled)
    else if target == Canceled then (if actor != participant then Fail(NotParticipator) else Pass)
    else if actor != creator then Fail(NotEventCreator)
    else Pass
  }

  /** The quantity the counter is meant to keep constant: open plus occupied positions. */
  function Ledger(jobs: Jobs, parts: Participations, job: JobId): int
    requires job in jobs
  {
    jobs[job].openPositions + OccupiedPositions(parts, job)
  }

  /** The job table after `UpdateParticipation` has moved the counter of `job`. */
  function MoveCounter(jobs: Jobs, job: JobId, delta: int): Jobs
    requires job in jobs
  {
    jobs[job := jobs[job].(openPositions := jobs[job].openPositions + delta)]
  }

  /** Setting a participation to Declined, Accepted or Canceled, with the
      counter moved as `UpdateParticipation` moves it, keeps the ledger of
      every job. */
  lemma LedgerConserved(jobs: Jobs, parts: Participations, id: ParticipationId, target: int)
    requires id in parts && parts[id].job.Some? && parts[id].job.value in jobs
    requires target in {Declined, Accepted, Canceled}
    ensures forall job :: job in jobs ==>
      Ledger(MoveCounter(jobs, parts[id].job.value, OpenPositionsDelta(parts[id].state, target)),
             WithState(parts, id, target), job) == Ledger(jobs, parts, job)
  {
    var own := parts[id].job.value;
    var d := OpenPositionsDelta(parts[id].state, target);
    forall job | job in jobs
      ensures Ledger(MoveCounter(jobs, own, d), WithState(parts, id, target), job) == Ledger(jobs, parts, job)
    {
      OccupiedAfterStateChange(parts, id, target, job);
    }
  }

  /** Taking an accepted participation to any state other than Declined,
      Accepted or Canceled (Participated and Applied included) frees an
      occupied position without raising the counter: the ledger of its job
      drops by one. */
  lemma LedgerBrokenLeavingAccepted(jobs: Jobs, parts: Participations, id: ParticipationId, target: int)
    requires id in parts && parts[id].job.Some? && parts[id].job.value in jobs
    requires parts[id].state == Accepted && target !in {Declined, Accepted, Canceled}
    ensures Ledger(MoveCounter(jobs, parts[id].job.value, OpenPositionsDelta(parts[id].state, target)),
                   WithState(parts, id, target), parts[id].job.value)
            == Ledger(jobs, parts, parts[id].job.value) - 1
  {
    OccupiedAfterStateChange(parts, id, target, parts[id].job.value);
  }

  /** Accepting never looks at the counter: accepting one more participation
      on a job whose counter is already zero leaves it at minus one. */
  lemma AcceptOverdraws(jobs: Jobs, parts: Participations, id: ParticipationId)
    requires id in parts && parts[id].job.Some? && parts[id].job.value in jobs
    requires parts[id].state != Accepted && jobs[parts[id].job.value].openPositions == 0
    ensures MoveCounter(jobs, parts[id].job.value, OpenPositionsDelta(parts[id].state, Accepted))[parts[id].job.value].openPositions == -1
    ensures OccupiedPositions(WithState(parts, id, Accepted), parts[id].job.value) == OccupiedPositions(parts, parts[id].job.value) + 1
  {
    OccupiedAfterStateChange(parts, id, Accepted, parts[id].job.value);
  }

  /** `if kwargs.get('total_positions', None):` -- given and not zero. */
  predicate TotalSupplied(total: Option<int>) {
    total.Some? && total.value != 0
  }

  /** The capacity check of `UpdateJob` as written: `-t + total > total`. */
  function ShrinkRejectedAsWritten(total: int, t: int): (rejected: bool)
    ensures rejected <==> t < 0
  {
    -t + total > total
  }

  /** The capacity check the comment on it asks for: the new total may not be
      below the number of accepted participations, `total - open`. */
  function ShrinkRejected(total: int, open: int, t: int): bool {
    t < total - open
  }

  /** The job that `UpdateJob` saves when none of its checks fail. */
  function UpdatedJob(job: Job, name: Option<string>, description: Option<string>, total: Option<int>): (r: Job)
    ensures r.event == job.event && r.canceled == job.canceled
    ensures r.totalPositions - r.openPositions == job.totalPositions - job.openPositions
    ensures r.totalPositions == (if TotalSupplied(total) then total.value else job.totalPositions)
    ensures Supplied(name) ==> r.name == name.value
    ensures !Supplied(name) ==> r.name == job.name
    ensures r.description == (if Supplied(description) then description else job.description)
  {
    var t := if TotalSupplied(total) then total.value else job.totalPositions;
    job.(name := Overwrite(job.name, name),
         description := if Supplied(description) then description else job.description,
         openPositions := t - job.totalPositions + job.openPositions,
         totalPositions := t)
  }

  /** As written, the capacity check lets a job with two accepted
      participations and no open position shrink to one position; its counter
      then reads minus one. */
  lemma ShrinkBelowOccupancyAccepted()
    ensures var job := Job("j", None, 0, 2, 0, false);
            !ShrinkRejectedAsWritten(job.totalPositions, 1) &&
            UpdatedJob(job, None, None, Some(1)).openPositions == -1
  {
  }

  /** The intended check rejects a new total exactly when the saved counter
      would go negative, that is when fewer positions would remain than there
      are accepted participations. */
  lemma ShrinkRejectedKeepsCounter(job: Job, t: int)
    requires t != 0
    ensures !ShrinkRejected(job.totalPositions, job.openPositions, t) <==> UpdatedJob(job, None, None, Some(t)).openPositions >= 0
    ensures !ShrinkRejected(job.totalPositions, job.openPositions, t) ==>
              UpdatedJob(job, None, None, Some(t)).totalPositions >= job.totalPositions - job.openPositions
  {
  }

  /** On a job whose counter agrees with its participations (open plus
      occupied equals the total), the intended check accepts a new total
      exactly when it is at least the number of accepted participations, and
      the saved job then agrees with them again. */
  lemma ShrinkRejectedGuardsOccupancy(jobs: Jobs, parts: Participations, id: JobId, t: int)
    requires id in jobs && t != 0
    requires Ledger(jobs, parts, id) == jobs[id].totalPositions
    ensures !ShrinkRejected(jobs[id].totalPositions, jobs[id].openPositions, t) <==> t >= OccupiedPositions(parts, id)
    ensures var saved := jobs[id := UpdatedJob(jobs[id], None, None, Some(t))];
            Ledger(saved, parts, id) == saved[id].totalPositions
  {
    var saved := jobs[id := UpdatedJob(jobs[id], None, None, Some(t))];
    assert Ledger(saved, parts, id) == saved[id].openPositions + OccupiedPositions(parts, id);
  }

  /** Job names are unique within an event. */
  predicate NamesUniquePerEvent(jobs: Jobs) {
    forall j1, j2 :: j1 in jobs && j2 in jobs && jobs[j1].event == jobs[j2].event && jobs[j1].name == jobs[j2].name ==> j1 == j2
  }

  /** `Job.objects.filter(name=name, event=event)` is non-empty. */
  predicate NameTaken(jobs: Jobs, event: EventId, name: string) {
    exists j :: j in jobs && jobs[j].event == event && jobs[j].name == name
  }

  /** Adding a job whose name is not taken in its event keeps names unique. */
  lemma UniqueNamesAfterInsert(jobs: Jobs, id: JobId, job: Job)
    requires id !in jobs && NamesUniquePerEvent(jobs) && !NameTaken(jobs, job.event, job.name)
    ensures NamesUniquePerEvent(jobs[id := job])
  {
    var m := jobs[id := job];
    forall j1, j2 | j1 in m && j2 in m && m[j1].event == m[j2].event && m[j1].name == m[j2].name
      ensures j1 == j2
    {
      if j1 != id && j2 != id {
        assert jobs[j1] == m[j1] && jobs[j2] == m[j2];
      }
    }
  }

  /** The store the mutations work on: the event, job and participation tables,
      and the membership relation of organisations that they read. */
  class EventStore {
    var events: map<EventId, Event>
    var jobs: Jobs
    var participations: Participations
    /** `user.organisation_set`, seen from the organisation side. */
    var members: map<OrganisationId, set<UserId>>
    var nextEvent: EventId
    var nextJob: JobId
    var nextParticipation: ParticipationId

    ghost predicate Valid()
      reads this
    {
      && (forall e :: e in events ==> e < nextEvent)
      && (forall j :: j in jobs ==> j < nextJob && jobs[j].event in events)
      && (forall id :: id in participations ==>
            id < nextParticipation && (participations[id].job.Some? ==> participations[id].job.value in jobs))
      && OnePerUserAndJob(participations)
      && NamesUniquePerEvent(jobs)
    }

    constructor (members: map<OrganisationId, set<UserId>>)
      ensures Valid()
      ensures events == map[] && jobs == map[] && participations == map[] && this.members == members
    {
      events, jobs, participations := map[], map[], map[];
      this.members := members;
      nextEvent, nextJob, nextParticipation := 0, 0, 0;
    }

    /** `user.organisation_set.get(pk=organisation.id)` succeeds. */
    predicate IsMember(user: UserId, organisation: OrganisationId)
      reads this
    {
      organisation in members && user in members[organisation]
    }

    /** The job a participation points at, once `participation.job` is not None. */
    function JobOf(id: ParticipationId): JobId
      reads this
      requires id in participations && participations[id].job.Some?
    {
      participations[id].job.value
    }

    /** `job.event.creator`. */
    function CreatorOf(job: JobId): UserId
      reads this
      requires Valid() && job in jobs
    {
      events[jobs[job].event].creator
    }

    /** CreateParticipation (schema.py:36-54): apply to a job. */
    method CreateParticipation(actor: UserId, job: JobId) returns (r: Result<ParticipationId>)
      requires Valid()
      modifies this
      ensures Valid()
      ensures r.Failure? ==> unchanged(this)
      ensures events == old(events) && jobs == old(jobs) && members == old(members)
      ensures old(HasApplied(participations, actor, if job in jobs then Some(job) else None)) ==> r == Failure(AlreadyApplied)
      ensures job !in old(jobs) && !old(HasApplied(participations, actor, None)) ==> r == Failure(MissingReference)
      ensures job in old(jobs) && !old(HasApplied(participations, actor, Some(job))) && old(jobs[job].canceled) ==> r == Failure(JobCanceled)
      ensures r.Success? <==> job in old(jobs) && !old(jobs[job].canceled) && !old(HasApplied(participations, actor, Some(job)))
      ensures r.Success? ==> r.value !in old(participations)
      ensures r.Success? ==> participations == old(participations)[r.value := Participation(Some(job), actor, Applied)]
    {
      var found := if job in jobs then Some(job) else None;
      if HasApplied(participations, actor, found) {
        return Failure(AlreadyApplied);
      }
      if job !in jobs {
        return Failure(MissingReference);
      }
      if jobs[job].canceled {
        return Failure(JobCanceled);
      }
      var p := Participation(Some(job), actor, Applied);
      UniqueAfterInsert(participations, nextParticipation, p);
      participations := participations[nextParticipation := p];
      r := Success(nextParticipation);
      nextParticipation := nextParticipation + 1;
    }

    /** UpdateParticipation (schema.py:65-97): move a participation to `target`,
        keeping the hand-maintained counter of its job. */
    method UpdateParticipation(actor: UserId, id: ParticipationId, target: int) returns (r: Outcome)
      requires Valid()
      modifies this`jobs, this`participations
      ensures Valid()
      ensures r.Fail? ==> unchanged(this)
      ensures events == old(events) && members == old(members)
      ensures id !in old(participations) ==> r == Fail(DoesNotExist)
      ensures id in old(participations) && old(participations[id].job).None? ==> r == Fail(MissingReference)
      ensures id in old(participations) && old(participations[id].job).Some? ==>
        r == ParticipationGate(actor, old(participations[id].user), old(CreatorOf(JobOf(id))), old(jobs[JobOf(id)].canceled), target)
      ensures r.Pass? ==> id in old(participations) && old(participations[id].job).Some?
      ensures r.Pass? ==> participations == WithState(old(participations), id, target)
      ensures r.Pass? ==> jobs == MoveCounter(old(jobs), old(JobOf(id)), OpenPositionsDelta(old(participations[id].state), target))
      ensures r.Pass? && target in {Declined, Accepted, Canceled} ==>
        forall j :: j in jobs ==> Ledger(jobs, participations, j) == old(Ledger(jobs, participations, j))
      ensures r.Pass? && old(AllStatesDeclared(participations)) && DeclaredState(target) ==> AllStatesDeclared(participations)
      ensures r.Pass? && !DeclaredState(target) ==> !AllStatesDeclared(participations)
    {
      if id !in participations {
        return Fail(DoesNotExist);
      }
      var participation := participations[id];
      if participation.job.None? {
        return Fail(MissingReference);
      }
      var jobId := participation.job.value;
      var job := jobs[jobId];
      r := ParticipationGate(actor, participation.user, events[job.event].creator, job.canceled, target);
      if r.Fail? {
        return;
      }
      ApplyTransition(id, target);
      r := Pass;
    }

    /** The writes `UpdateParticipation` makes once its checks have passed:
        the counter of the job moves as `OpenPositionsDelta` says, then the
        participation takes its new state. */
    method ApplyTransition(id: ParticipationId, target: int)
      requires Valid() && id in participations && participations[id].job.Some?
      modifies this`jobs, this`participations
      ensures Valid()
      ensures participations == WithState(old(participations), id, target)
      ensures jobs == MoveCounter(old(jobs), old(JobOf(id)), OpenPositionsDelta(old(participations[id].state), target))
      ensures target in {Declined, Accepted, Canceled} ==>
        forall j :: j in jobs ==> Ledger(jobs, participations, j) == old(Ledger(jobs, participations, j))
      ensures old(AllStatesDeclared(participations)) && DeclaredState(target) ==> AllStatesDeclared(participations)
      ensures !DeclaredState(target) ==> !AllStatesDeclared(participations)
    {
      var participation := participations[id];
      var jobId := participation.job.value;
      var job := jobs[jobId];
      if target == Canceled {
        if participation.state == Accepted {
          SaveOpenPositions(jobId, job.openPositions + 1);
        }
      } else if target == Accepted && participation.state != Accepted {
        SaveOpenPositions(jobId, job.openPositions - 1);
      } else if target == Declined && participation.state == Accepted {
        SaveOpenPositions(jobId, job.openPositions + 1);
      }
      assert jobs == MoveCounter(old(jobs), jobId, OpenPositionsDelta(participation.state, target));
      SaveState(id, target);
      if target in {Declined, Accepted, Canceled} {
        LedgerConserved(old(jobs), old(participations), id, target);
      }
      DeclaredAfterStateChange(old(participations), id, target);
    }

    /** `job.open_positions = value; job.save()`. */
    method SaveOpenPositions(job: JobId, value: int)
      requires Valid() && job in jobs
      modifies this`jobs
      ensures Valid()
      ensures jobs == MoveCounter(old(jobs), job, value - old(jobs[job].openPositions))
    {
      MoveCounterKeepsNames(jobs, job, value - jobs[job].openPositions);
      jobs := MoveCounter(jobs, job, value - jobs[job].openPositions);
    }

    /** `participation.state = state; participation.save()`. */
    method SaveState(id: ParticipationId, state: int)
      requires Valid() && id in participations
      modifies this`participations
      ensures Valid()
      ensures participations == WithState(old(participations), id, state)
    {
      WithStateKeepsUnique(participations, id, state);
      participations := WithState(participations, id, state);
    }

    /** CreateJob (schema.py:110-126): the event creator adds a job whose name
        is new in the event; `open_positions` keeps its column default. */
    method CreateJob(actor: UserId, event: EventId, name: string, description: Option<string>, totalPositions: int)
      returns (r: Result<JobId>)
      requires Valid()
      modifies this
      ensures Valid()
      ensures r.Failure? ==> unchanged(this)
      ensures events == old(events) && participations == old(participations) && members == old(members)
      ensures event !in old(events) ==> r == Failure(DoesNotExist)
      ensures event in old(events) && old(events[event].creator) != actor ==> r == Failure(NotEventCreator)
      ensures event in old(events) && old(events[event].creator) == actor && old(NameTaken(jobs, event, name)) ==> r == Failure(JobExists)
      ensures r.Success? <==> event in old(events) && old(events[event].creator) == actor && !old(NameTaken(jobs, event, name))
      ensures r.Success? ==> r.value !in old(jobs)
      ensures r.Success? ==> jobs == old(jobs)[r.value := Job(name, description, event, totalPositions, DefaultPositions, false)]
    {
      if event !in events {
        return Failure(DoesNotExist);
      }
      if events[event].creator != actor {
        return Failure(NotEventCreator);
      }
      if NameTaken(jobs, event, name) {
        return Failure(JobExists);
      }
      var job := Job(name, description, event, totalPositions, DefaultPositions, false);
      UniqueNamesAfterInsert(jobs, nextJob, job);
      jobs := jobs[nextJob := job];
      r := Success(nextJob);
      nextJob := nextJob + 1;
    }

    /** UpdateJob (schema.py:139-165): the event creator renames a job, edits
        its description or changes its total; the edits are made on the loaded
        job and written only by the final save, so any failure writes nothing. */
    method UpdateJob(actor: UserId, id: JobId, name: Option<string>, description: Option<string>, totalPositions: Option<int>)
      returns (r: Outcome)
      requires Valid()
      modifies this`jobs
      ensures Valid()
      ensures r.Fail? ==> unchanged(this)
      ensures events == old(events) && participations == old(participations) && members == old(members)
      ensures id !in old(jobs) ==> r == Fail(DoesNotExist)
      ensures id in old(jobs) && old(CreatorOf(id)) != actor ==> r == Fail(NotEventCreator)
      ensures id in old(jobs) && old(CreatorOf(id)) == actor && Supplied(name) && old(NameTaken(jobs, jobs[id].event, name.value))
              ==> r == Fail(JobExists)
      ensures id in old(jobs) && old(CreatorOf(id)) == actor && !(Supplied(name) && old(NameTaken(jobs, jobs[id].event, name.value)))
              && TotalSupplied(totalPositions) && totalPositions.value < 0
              ==> r == Fail(TooManyAccepted)
      ensures r.Pass? <==> id in old(jobs) && old(CreatorOf(id)) == actor
                           && !(Supplied(name) && old(NameTaken(jobs, jobs[id].event, name.value)))
                           && !(TotalSupplied(totalPositions) && totalPositions.value < 0)
      ensures r.Pass? ==> jobs == old(jobs)[id := UpdatedJob(old(jobs[id]), name, description, totalPositions)]
    {
      if id !in jobs {
        return Fail(DoesNotExist);
      }
      var job := jobs[id];
      if events[job.event].creator != actor {
        return Fail(NotEventCreator);
      }
      if Supplied(name) {
        if NameTaken(jobs, job.event, name.value) {
          return Fail(JobExists);
        }
        job := job.(name := name.value);
      }
      if Supplied(description) {
        job := job.(description := description);
      }
      if TotalSupplied(totalPositions) {
        var t := totalPositions.value;
        if ShrinkRejectedAsWritten(job.totalPositions, t) {
          return Fail(TooManyAccepted);
        }
        job := job.(openPositions := t - job.totalPositions + job.openPositions, totalPositions := t);
      }
      SaveJob(id, job);
      r := Pass;
    }

    /** `job.save()` for an existing job that stays in its event and takes a
        name no other job of the event has. */
    method SaveJob(id: JobId, job: Job)
      requires Valid() && id in jobs && job.event == jobs[id].event
      requires job.name == jobs[id].name || !NameTaken(jobs, job.event, job.name)
      modifies this`jobs
      ensures Valid()
      ensures jobs == old(jobs)[id := job]
    {
      RenameKeepsNamesUnique(jobs, id, job);
      jobs := jobs[id := job];
    }

    /** DeleteJob (schema.py:175-190): the event creator removes a job nobody
        applied to, or marks a job with participations as canceled. */
    method DeleteJob(actor: UserId, id: JobId) returns (r: Outcome)
      requires Valid()
      modifies this
      ensures Valid()
      ensures r.Fail? ==> unchanged(this)
      ensures events == old(events) && participations == old(participations) && members == old(members)
      ensures id !in old(jobs) ==> r == Fail(DoesNotExist)
      ensures id in old(jobs) && old(CreatorOf(id)) != actor ==> r == Fail(NotEventCreator)
      ensures r.Pass? <==> id in old(jobs) && old(CreatorOf(id)) == actor
      ensures r.Pass? && !old(JobHasParticipations(id)) ==> jobs == old(jobs) - {id}
      ensures r.Pass? && old(JobHasParticipations(id)) ==> jobs == old(jobs)[id := old(jobs[id]).(canceled := true)]
    {
      if id !in jobs {
        return Fail(DoesNotExist);
      }
      if events[jobs[id].event].creator != actor {
        return Fail(NotEventCreator);
      }
      if !JobHasParticipations(id) {
        jobs := jobs - {id};
        return Pass;
      }
      jobs := jobs[id := jobs[id].(canceled := true)];
      return Pass;
    }

    /** `Participation.objects.filter(job=job).exists()`. */
    predicate JobHasParticipations(job: JobId)
      reads this
    {
      exists id :: id in participations && participations[id].job == Some(job)
    }

    /** CreateEvent (schema.py:202-213): a member of an organisation creates an
        event for it, together with a default job named and described like the
        event. */
    method CreateEvent(actor: UserId, organisation: OrganisationId, name: string, description: string)
      returns (r: Result<EventId>)
      requires Valid()
      modifies this
      ensures Valid()
      ensures r.Failure? ==> unchanged(this)
      ensures participations == old(participations) && members == old(members)
      ensures r.Success? <==> old(IsMember(actor, organisation))
      ensures r.Failure? ==> r.error == NotOrganisationMember
      ensures r.Success? ==> r.value !in old(events) && events == old(events)[r.value := Event(name, description, Some(organisation), actor)]
      ensures r.Success? ==> old(nextJob) !in old(jobs)
                             && jobs == old(jobs)[old(nextJob) := Job(name, Some(description), r.value, DefaultPositions, DefaultPositions, false)]
    {
      if !IsMember(actor, organisation) {
        return Failure(NotOrganisationMember);
      }
      var event := nextEvent;
      events := events[event := Event(name, description, Some(organisation), actor)];
      nextEvent := nextEvent + 1;
      var job := Job(name, Some(description), event, DefaultPositions, DefaultPositions, false);
      assert !NameTaken(jobs, event, name);
      UniqueNamesAfterInsert(jobs, nextJob, job);
      jobs := jobs[nextJob := job];
      nextJob := nextJob + 1;
      r := Success(event);
    }

    /** UpdateEvent (schema.py:225-241): a member of the event's organisation
        overwrites its name and description with the non-empty arguments. */
    method UpdateEvent(actor: UserId, id: EventId, name: Option<string>, description: Option<string>) returns (r: Outcome)
      requires Valid()
      modifies this
      ensures Valid()
      ensures r.Fail? ==> unchanged(this)
      ensures jobs == old(jobs) && participations == old(participations) && members == old(members)
      ensures id !in old(events) ==> r == Fail(DoesNotExist)
      ensures id in old(events) && old(events[id].organisation).None? ==> r == Fail(MissingReference)
      ensures id in old(events) && old(events[id].organisation).Some? && !old(IsMember(actor, events[id].organisation.value))
              ==> r == Fail(NotOrganisationMember)
      ensures r.Pass? <==> id in old(events) && old(events[id].organisation).Some? && old(IsMember(actor, events[id].organisation.value))
      ensures r.Pass? ==> events == old(events)[id := old(events[id]).(name := Overwrite(old(events[id].name), name),
                                                                       description := Overwrite(old(events[id].description), description))]
    {
      if id !in events {
        return Fail(DoesNotExist);
      }
      var event := events[id];
      if event.organisation.None? {
        return Fail(MissingReference);
      }
      if !IsMember(actor, event.organisation.value) {
        return Fail(NotOrganisationMember);
      }
      if Supplied(name) {
        event := event.(name := name.value);
      }
      if Supplied(description) {
        event := event.(description := description.value);
      }
      events := events[id := event];
      r := Pass;
    }

    /** The ids of the jobs of an event. */
    function JobsOf(event: EventId): set<JobId>
      reads this
    {
      set j | j in jobs && jobs[j].event == event
    }

    /** DeleteEvent (schema.py:251-262): a member of the event's organisation
        deletes it; its jobs go with it (`on_delete=CASCADE`) and their
        participations lose their job (`on_delete=SET_NULL`). */
    method DeleteEvent(actor: UserId, id: EventId) returns (r: Outcome)
      requires Valid()
      modifies this
      ensures Valid()
      ensures r.Fail? ==> unchanged(this)
      ensures members == old(members)
      ensures id !in old(events) ==> r == Fail(DoesNotExist)
      ensures id in old(events) && old(events[id].organisation).None? ==> r == Fail(MissingReference)
      ensures id in old(events) && old(events[id].organisation).Some? && !old(IsMember(actor, events[id].organisation.value))
              ==> r == Fail(NotOrganisationMember)
      ensures r.Pass? <==> id in old(events) && old(events[id].organisation).Some? && old(IsMember(actor, events[id].organisation.value))
      ensures r.Pass? ==> events == old(events) - {id}
      ensures r.Pass? ==> jobs == old(jobs) - old(JobsOf(id))
      ensures r.Pass? ==> forall j :: j in jobs ==> jobs[j].event != id
      ensures r.Pass? ==> participations == Detach(old(participations), old(JobsOf(id)))
    {
      if id !in events {
        return Fail(DoesNotExist);
      }
      var organisation := events[id].organisation;
      if organisation.None? {
        return Fail(MissingReference);
      }
      if !IsMember(actor, organisation.value) {
        return Fail(NotOrganisationMember);
      }
      var removed := JobsOf(id);
      events := events - {id};
      jobs := jobs - removed;
      participations := Detach(participations, removed);
      DetachKeepsUnique(old(participations), removed);
      r := Pass;
    }
  }

  /** Setting one state to `target` keeps every state declared exactly when the
      others already were and `target` is one of the declared choices. */
  lemma DeclaredAfterStateChange(parts: Participations, id: ParticipationId, target: int)
    requires id in parts
    ensures AllStatesDeclared(WithState(parts, id, target)) ==> DeclaredState(target)
    ensures AllStatesDeclared(parts) && DeclaredState(target) ==> AllStatesDeclared(WithState(parts, id, target))
  {
    if AllStatesDeclared(WithState(parts, id, target)) {
      assert WithState(parts, id, target)[id].state == target;
    }
  }

  /** Moving a counter changes no name and no event. */
  lemma MoveCounterKeepsNames(jobs: Jobs, job: JobId, delta: int)
    requires job in jobs && NamesUniquePerEvent(jobs)
    ensures NamesUniquePerEvent(MoveCounter(jobs, job, delta))
    ensures MoveCounter(jobs, job, delta).Keys == jobs.Keys
    ensures forall j :: j in jobs ==> MoveCounter(jobs, job, delta)[j].event == jobs[j].event
  {
    var m := MoveCounter(jobs, job, delta);
    forall j1, j2 | j1 in m && j2 in m && m[j1].event == m[j2].event && m[j1].name == m[j2].name
      ensures j1 == j2
    {
      assert jobs[j1].event == m[j1].event && jobs[j1].name == m[j1].name;
      assert jobs[j2].event == m[j2].event && jobs[j2].name == m[j2].name;
    }
  }

  /** Renaming a job to a name no job of its event has keeps names unique. */
  lemma RenameKeepsNamesUnique(jobs: Jobs, id: JobId, job: Job)
    requires id in jobs && NamesUniquePerEvent(jobs) && job.event == jobs[id].event
    requires job.name == jobs[id].name || !NameTaken(jobs, job.event, job.name)
    ensures NamesUniquePerEvent(jobs[id := job])
  {
    var rest := jobs - {id};
    assert jobs[id := job] == rest[id := job];
    if job.name != jobs[id].name {
      assert !NameTaken(rest, job.event, job.name);
    } else {
      assert !NameTaken(rest, job.event, job.name) by {
        forall j | j in rest
          ensures !(rest[j].event == job.event && rest[j].name == job.name)
        {
          assert j != id && rest[j] == jobs[j];
        }
      }
    }
    UniqueNamesAfterInsert(rest, id, job);
  }
}
