/** H2H/Event/models.py: the job table with soft deletion (`deleted_at`), the
    managers that hide or show soft-deleted rows, the time-range guard of
    `Event.save`, the derived occupancy of a job, and the three signal
    receivers. In this revision a job has no `canceled` flag and no counter. */
module EventModels {
  import opened Common
  import opened Participations

  /** A value of `timezone.now()`, kept abstract. */
  type Time = int

  datatype Event = Event(
    name: string,
    description: string,
    start: Time,
    end: Time,
    organisation: Option<OrganisationId>,
    creator: UserId,
    location: Option<LocationId>)

  /** `total_positions` is a nullable PositiveIntegerField; `deletedAt` is None
      while the row is alive. */
  datatype Job = Job(
    name: string,
    description: Option<string>,
    event: EventId,
    totalPositions: Option<nat>,
    deletedAt: Option<Time>)

  type Jobs = map<JobId, Job>

  /** `SoftDeletionManager.get_queryset`: the alive rows when the manager is
      `alive_only`, every row otherwise. */
  function GetQueryset(jobs: Jobs, aliveOnly: bool): (view: Jobs)
    ensures forall j :: j in view <==> j in jobs && (!aliveOnly || jobs[j].deletedAt.None?)
    ensures forall j :: j in view ==> view[j] == jobs[j]
  {
    if aliveOnly then map j | j in jobs && jobs[j].deletedAt.None? :: jobs[j] else jobs
  }

  /** `Job.objects`: the default manager, which hides soft-deleted rows. */
  function Objects(jobs: Jobs): (view: Jobs)
    ensures forall j :: j in view <==> j in jobs && jobs[j].deletedAt.None?
    ensures forall j :: j in view ==> view[j] == jobs[j]
  {
    GetQueryset(jobs, true)
  }

  /** `Job.all_objects`: the manager that sees every row, soft-deleted or not. */
  function AllObjects(jobs: Jobs): (view: Jobs)
    ensures view == jobs
  {
    GetQueryset(jobs, false)
  }

  /** A soft-deleted row leaves the default view and stays in the other; every
      other row is seen exactly as before. */
  lemma SoftDeletedOnlyInAllObjects(jobs: Jobs, id: JobId, now: Time)
    requires id in jobs
    ensures var after := jobs[id := jobs[id].(deletedAt := Some(now))];
            id !in Objects(after) && id in AllObjects(after) &&
            Objects(after) == Objects(jobs) - {id} && AllObjects(after).Keys == AllObjects(jobs).Keys
  {
    var after := jobs[id := jobs[id].(deletedAt := Some(now))];
    assert Objects(after) == Objects(jobs) - {id};
  }

  /** The rows the two managers disagree about are exactly the soft-deleted ones. */
  lemma ViewsDifferBySoftDeleted(jobs: Jobs)
    ensures AllObjects(jobs).Keys - Objects(jobs).Keys == set j | j in jobs && jobs[j].deletedAt.Some?
    ensures Objects(jobs).Keys <= AllObjects(jobs).Keys
  {
  }

  /** The first check of `Event.save`: an event may not end before it starts;
      ending when it starts is accepted. */
  function TimeRangeCheck(start: Time, end: Time): (r: Outcome)
    ensures r.Pass? <==> start <= end
    ensures r.Fail? ==> r.error == EndBeforeStart
  {
    if end < start then Fail(EndBeforeStart) else Pass
  }

  /** The rows `set_participations_to_cancelled` has already handled when it
      has gone through the participations in `done`. */
  function CancelledWithin(parts: Participations, job: JobId, done: set<ParticipationId>): (r: Participations)
    ensures r.Keys == parts.Keys
    ensures forall id :: id in r ==> r[id].job == parts[id].job && r[id].user == parts[id].user
  {
    map id | id in parts ::
      if id in done && parts[id].job == Some(job) && parts[id].state in {Applied, Accepted}
      then parts[id].(state := Canceled) else parts[id]
  }

  /** One more visited participation: it is canceled when it belongs to the
      job and is Applied or Accepted, and nothing else moves. */
  lemma CancelledWithinStep(parts: Participations, job: JobId, done: set<ParticipationId>, id: ParticipationId)
    requires id in parts && id !in done
    ensures CancelledWithin(parts, job, done + {id}) ==
            (if parts[id].job == Some(job) && parts[id].state in {Applied, Accepted}
             then CancelledWithin(parts, job, done)[id := parts[id].(state := Canceled)]
             else CancelledWithin(parts, job, done))
  {
    var before := CancelledWithin(parts, job, done);
    var after := CancelledWithin(parts, job, done + {id});
    if parts[id].job == Some(job) && parts[id].state in {Applied, Accepted} {
      assert after == before[id := parts[id].(state := Canceled)];
    } else {
      assert after == before;
    }
  }

  /** Once every participation of the job has been visited, the walk has the
      effect of the whole receiver. */
  lemma CancelledWithinCovers(parts: Participations, job: JobId, done: set<ParticipationId>)
    requires forall id :: id in parts && parts[id].job == Some(job) ==> id in done
    ensures CancelledWithin(parts, job, done) == CancelledWithin(parts, job, parts.Keys)
  {
  }

  /** The participation table after the post_delete receiver of a job has run:
      every participation of the job that was Applied or Accepted is Canceled,
      and nothing else changes. */
  function CancelledFor(parts: Participations, job: JobId): (r: Participations)
    ensures r.Keys == parts.Keys
    ensures forall id :: id in r && parts[id].job == Some(job) && parts[id].state in {Applied, Accepted} ==> r[id].state == Canceled
    ensures forall id :: id in r && !(parts[id].job == Some(job) && parts[id].state in {Applied, Accepted}) ==> r[id] == parts[id]
    ensures forall id :: id in r ==> r[id].job == parts[id].job && r[id].user == parts[id].user
  {
    CancelledWithin(parts, job, parts.Keys)
  }

  /** Running the receiver twice has the effect of running it once. */
  lemma CancelledForIdempotent(parts: Participations, job: JobId)
    ensures CancelledFor(CancelledFor(parts, job), job) == CancelledFor(parts, job)
  {
    var once := CancelledFor(parts, job);
    var twice := CancelledFor(once, job);
    forall id | id in twice ensures twice[id] == once[id] {
    }
  }

  /** After the receiver has run, the job has no accepted participation left. */
  lemma CancelledForFreesJob(parts: Participations, job: JobId)
    ensures OccupiedPositions(CancelledFor(parts, job), job) == 0
  {
    var r := CancelledFor(parts, job);
    if id :| id in AcceptedOn(r, job) {
      assert false;
    }
    assert AcceptedOn(r, job) == {};
  }

  /** As written, hard-deleting a job whose one participation is Accepted
      leaves that participation Accepted: Django sets the foreign key to NULL
      before it sends post_delete, so the receiver finds no participation. */
  lemma HardDeleteLeavesAccepted()
    ensures var parts := map[0 := Participation(Some(7), 1, Accepted)];
            CancelledFor(Detach(parts, {7}), 7)[0].state == Accepted
  {
    var parts := map[0 := Participation(Some(7), 1, Accepted)];
    CancelAfterDetachIsNoOp(parts, {7}, 7);
  }

  /** With the receiver run before the foreign keys are cleared, no participation
      that pointed at the deleted job is left Applied or Accepted. */
  lemma CancelBeforeDetachCancels(parts: Participations, job: JobId)
    ensures var r := Detach(CancelledFor(parts, job), {job});
            r.Keys == parts.Keys &&
            forall id :: id in parts && parts[id].job == Some(job) ==>
              r[id].job.None? && r[id].state !in {Applied, Accepted} &&
              (parts[id].state in {Applied, Accepted} ==> r[id].state == Canceled)
  {
  }

  /** `Event.location` is a OneToOneField: no two events share a location. */
  predicate LocationsUnshared(events: map<EventId, Event>) {
    forall e1, e2 :: e1 in events && e2 in events && events[e1].location.Some? && events[e1].location == events[e2].location ==> e1 == e2
  }

  /** Whether `full_clean` accepts the location of event `key`: none, or a
      stored location that no other event holds. */
  predicate LocationFree(events: map<EventId, Event>, locations: set<LocationId>, key: EventId, location: Option<LocationId>) {
    location.None? ||
    (location.value in locations && forall e :: e in events && e != key ==> events[e].location != location)
  }

  /** Storing an event under `key` whose location is free keeps locations unshared. */
  lemma FreeLocationKeepsUnshared(events: map<EventId, Event>, locations: set<LocationId>, key: EventId, e: Event)
    requires LocationsUnshared(events) && LocationFree(events, locations, key, e.location)
    ensures LocationsUnshared(events[key := e])
  {
    var m := events[key := e];
    forall e1, e2 | e1 in m && e2 in m && m[e1].location.Some? && m[e1].location == m[e2].location
      ensures e1 == e2
    {
      if e1 != key && e2 != key {
        assert m[e1] == events[e1] && m[e2] == events[e2];
      }
    }
  }

  /** The database behind models.py: events, every job row (alive or
      soft-deleted), participations and the ids of stored locations. */
  class EventDatabase {
    var events: map<EventId, Event>
    var jobs: Jobs
    var participations: Participations
    var locations: set<LocationId>
    var nextEvent: EventId
    var nextJob: JobId
    var nextParticipation: ParticipationId

    ghost predicate Valid()
      reads this
    {
      && (forall e :: e in events ==> e < nextEvent)
      && (forall j :: j in jobs ==> j < nextJob && jobs[j].event in events)
      && (forall id :: id in participations ==>
            id < nextParticipation && (participations[id].job.Some? ==> participations[id].job.value in jobs))
      && OnePerUserAndJob(participations)
      && (forall e :: e in events && events[e].location.Some? ==> events[e].location.value in locations)
      && LocationsUnshared(events)
    }

    constructor (locations: set<LocationId>)
      ensures Valid()
      ensures events == map[] && jobs == map[] && participations == map[] && this.locations == locations
    {
      events, jobs, participations := map[], map[], map[];
      this.locations := locations;
      nextEvent, nextJob, nextParticipation := 0, 0, 0;
    }

    /** The ids of the job rows of an event, soft-deleted ones included. */
    function JobsOf(event: EventId): set<JobId>
      reads this
    {
      set j | j in jobs && jobs[j].event == event
    }

    /** `Event.save` (models.py:87-91) followed by the post_save receiver
        `create_default_job_for_event` (models.py:146-149). `id` is the primary
        key of the instance: None for a new one. The time range is checked
        first; `full_clean` then refuses a location that is not stored or that
        another event holds. A save that finds no row with its key inserts one,
        and only an insert creates a default job. */
    method SaveEvent(id: Option<EventId>, e: Event) returns (r: Result<EventId>)
      requires Valid()
      modifies this
      ensures Valid()
      ensures participations == old(participations) && locations == old(locations)
      ensures e.end < e.start ==> r == Failure(EndBeforeStart)
      ensures e.start <= e.end && !LocationFree(old(events), old(locations), if id.Some? then id.value else old(nextEvent), e.location)
              ==> r == Failure(ValidationError)
      ensures r.Success? <==> e.start <= e.end && LocationFree(old(events), old(locations), if id.Some? then id.value else old(nextEvent), e.location)
      ensures r.Failure? ==> unchanged(this)
      ensures r.Success? ==> events == old(events)[r.value := e]
      ensures r.Success? && id.Some? ==> r.value == id.value
      ensures r.Success? && (id.None? || id.value !in old(events)) ==>
                r.value !in old(events) && old(nextJob) !in old(jobs) &&
                jobs == old(jobs)[old(nextJob) := Job(e.name, Some(e.description), r.value, None, None)]
      ensures r.Success? && id.Some? && id.value in old(events) ==> jobs == old(jobs)
    {
      var check := TimeRangeCheck(e.start, e.end);
      if check.Fail? {
        return Failure(EndBeforeStart);
      }
      var created: bool;
      var key: EventId;
      if id.None? {
        key, created := nextEvent, true;
      } else {
        key, created := id.value, id.value !in events;
      }
      if !LocationFree(events, locations, key, e.location) {
        return Failure(ValidationError);
      }
      StoreEvent(key, e);
      r := Success(key);
      if created {
        CreateDefaultJob(key);
      }
    }

    /** Writes one event row whose location passed `full_clean`. */
    method StoreEvent(key: EventId, e: Event)
      requires Valid() && LocationFree(events, locations, key, e.location)
      modifies this`events, this`nextEvent
      ensures Valid()
      ensures events == old(events)[key := e]
      ensures nextEvent >= old(nextEvent) && key < nextEvent
    {
      FreeLocationKeepsUnshared(events, locations, key, e);
      events := events[key := e];
      if key >= nextEvent {
        nextEvent := key + 1;
      }
    }

    /** `Job.objects.create(name=instance.name, description=instance.description, event=instance)`. */
    method CreateDefaultJob(event: EventId)
      requires Valid() && event in events
      modifies this`jobs, this`nextJob
      ensures Valid()
      ensures old(nextJob) !in old(jobs)
      ensures jobs == old(jobs)[old(nextJob) := Job(events[event].name, Some(events[event].description), event, None, None)]
    {
      jobs := jobs[nextJob := Job(events[event].name, Some(events[event].description), event, None, None)];
      nextJob := nextJob + 1;
    }

    /** `SoftDeletionModel.delete` (models.py:44-46): stamp `deleted_at` and save.
        The row stays, and no post_delete signal is sent. */
    method SoftDelete(id: JobId, now: Time)
      requires Valid() && id in jobs
      modifies this`jobs
      ensures Valid()
      ensures jobs == old(jobs)[id := old(jobs[id]).(deletedAt := Some(now))]
      ensures id !in Objects(jobs) && id in AllObjects(jobs)
    {
      jobs := jobs[id := jobs[id].(deletedAt := Some(now))];
    }

    /** `SoftDeletionModel.hard_delete` (models.py:48-49): Django's deletion
        sets the job of its participations to NULL, removes the row, and then
        sends post_delete, whose receiver finds no participation left. */
    method HardDelete(id: JobId)
      requires Valid() && id in jobs
      modifies this`jobs, this`participations
      ensures Valid()
      ensures jobs == old(jobs) - {id}
      ensures participations == Detach(old(participations), {id})
    {
      participations := Detach(participations, {id});
      DetachKeepsUnique(old(participations), {id});
      jobs := jobs - {id};
      SetParticipationsToCancelled(id);
      CancelAfterDetachIsNoOp(old(participations), {id}, id);
    }

    /** `SoftDeletionQuerySet.delete` (models.py:14-15): one UPDATE that stamps
        every row of the queryset; returns the number of rows it touched. */
    method DeleteQuerySet(ids: set<JobId>, now: Time) returns (count: nat)
      requires Valid()
      modifies this`jobs
      ensures Valid()
      ensures count == |ids * old(jobs).Keys|
      ensures jobs.Keys == old(jobs).Keys
      ensures forall j :: j in jobs ==> jobs[j] == if j in ids then old(jobs[j]).(deletedAt := Some(now)) else old(jobs[j])
    {
      count := |ids * jobs.Keys|;
      jobs := map j | j in jobs :: if j in ids then jobs[j].(deletedAt := Some(now)) else jobs[j];
    }

    /** `SoftDeletionQuerySet.hard_delete` (models.py:17-18): Django's deletion
        of every row of the queryset, with the same order of effects as
        `HardDelete`. */
    method HardDeleteQuerySet(ids: set<JobId>) returns (count: nat)
      requires Valid()
      modifies this`jobs, this`participations
      ensures Valid()
      ensures count == |ids * old(jobs).Keys|
      ensures jobs == old(jobs) - ids
      ensures participations == Detach(old(participations), ids)
    {
      count := |ids * jobs.Keys|;
      DeleteRows(ids);
    }

    /** The writes of `HardDeleteQuerySet`: the participations are detached
        first, then the rows go, then post_delete runs for each row. */
    method DeleteRows(ids: set<JobId>)
      requires Valid()
      modifies this`jobs, this`participations
      ensures Valid()
      ensures jobs == old(jobs) - ids
      ensures participations == Detach(old(participations), ids)
    {
      participations := Detach(participations, ids);
      DetachKeepsUnique(old(participations), ids);
      jobs := jobs - ids;
      var pending := ids;
      while pending != {}
        invariant Valid()
        invariant jobs == old(jobs) - ids
        invariant participations == Detach(old(participations), ids)
        decreases pending
      {
        var id :| id in pending;
        CancelAfterDetachIsNoOp(old(participations), ids, id);
        SetParticipationsToCancelled(id);
        pending := pending - {id};
      }
    }

    /** `SoftDeletionManager.hard_delete` (models.py:31-32): hard-deletes the
        manager's own queryset, so `Job.objects.hard_delete()` keeps the
        soft-deleted rows and `Job.all_objects.hard_delete()` empties the table. */
    method HardDeleteManager(aliveOnly: bool) returns (count: nat)
      requires Valid()
      modifies this`jobs, this`participations
      ensures Valid()
      ensures count == |GetQueryset(old(jobs), aliveOnly).Keys|
      ensures participations == Detach(old(participations), GetQueryset(old(jobs), aliveOnly).Keys)
      ensures jobs == old(jobs) - GetQueryset(old(jobs), aliveOnly).Keys
      ensures aliveOnly ==> forall j :: j in old(jobs) ==> (j in jobs <==> old(jobs[j]).deletedAt.Some?)
      ensures !aliveOnly ==> jobs == map[]
    {
      var view := GetQueryset(jobs, aliveOnly).Keys;
      assert view * jobs.Keys == view;
      count := HardDeleteQuerySet(view);
    }

    /** `Event.delete`: the event row goes, Django deletes its job rows (soft-deleted
        ones too) after setting their participations' job to NULL and sends
        post_delete for each job; then the post_delete receiver of the event
        (models.py:140-143) deletes its location if it has one. */
    method DeleteEvent(id: EventId)
      requires Valid() && id in events
      modifies this
      ensures Valid()
      ensures events == old(events) - {id}
      ensures jobs == old(jobs) - old(JobsOf(id))
      ensures participations == Detach(old(participations), old(JobsOf(id)))
      ensures old(events[id].location).Some? ==> locations == old(locations) - {old(events[id].location).value}
      ensures old(events[id].location).None? ==> locations == old(locations)
    {
      var location := events[id].location;
      DeleteRows(JobsOf(id));
      events := events - {id};
      if location.Some? {
        locations := locations - {location.value};
      }
    }

    /** `set_participations_to_cancelled` (models.py:152-157): the post_delete
        receiver of a job walks over the job's participations and sets those in
        state 2 or 4 to 5. */
    method SetParticipationsToCancelled(job: JobId)
      requires Valid()
      modifies this`participations
      ensures Valid()
      ensures participations == CancelledFor(old(participations), job)
    {
      var pending := set id | id in participations && participations[id].job == Some(job);
      ghost var done: set<ParticipationId> := {};
      while pending != {}
        invariant pending <= old(participations).Keys && pending !! done
        invariant forall id :: id in old(participations) && old(participations[id]).job == Some(job) ==> id in pending + done
        invariant participations == CancelledWithin(old(participations), job, done)
        decreases pending
      {
        var id :| id in pending;
        CancelledWithinStep(old(participations), job, done, id);
        if participations[id].state in {Applied, Accepted} {
          participations := participations[id := participations[id].(state := Canceled)];
        }
        pending := pending - {id};
        done := done + {id};
      }
      CancelledWithinCovers(old(participations), job, done);
      SameKeysAndJobsKeepUnique(old(participations), participations);
    }

    /** `Participation(job=..., user=..., state=...).save()` for a new row
        (models.py:119-125): the state defaults to Applied, and the database
        refuses a second row for the same (user, job) or a job that does not exist. */
    method CreateParticipation(job: Option<JobId>, user: UserId, state: Option<int>) returns (r: Result<ParticipationId>)
      requires Valid()
      modifies this`participations, this`nextParticipation
      ensures Valid()
      ensures r.Success? <==> (job.None? || (job.value in old(jobs) && !old(HasApplied(participations, user, job))))
      ensures r.Failure? ==> r.error == IntegrityError && participations == old(participations)
      ensures r.Success? ==> r.value !in old(participations) &&
                             participations == old(participations)[r.value := Participation(job, user, if state.Some? then state.value else Applied)]
    {
      if job.Some? && (job.value !in jobs || HasApplied(participations, user, job)) {
        return Failure(IntegrityError);
      }
      var p := Participation(job, user, if state.Some? then state.value else Applied);
      UniqueAfterInsert(participations, nextParticipation, p);
      participations := participations[nextParticipation := p];
      r := Success(nextParticipation);
      nextParticipation := nextParticipation + 1;
    }
  }

  /** Keys and (user, job) pairs unchanged: the constraint carries over. */
  lemma SameKeysAndJobsKeepUnique(before: Participations, after: Participations)
    requires OnePerUserAndJob(before) && after.Keys == before.Keys
    requires forall id :: id in after ==> after[id].job == before[id].job && after[id].user == before[id].user
    ensures OnePerUserAndJob(after)
  {
    forall id1, id2 | id1 in after && id2 in after && after[id1].job.Some? && after[id1].job == after[id2].job && after[id1].user == after[id2].user
      ensures id1 == id2
    {
      assert before[id1].job == after[id1].job && before[id2].job == after[id2].job;
    }
  }

  /** The receiver leaves participations that no longer point at the job
      alone: once the foreign keys to the deleted jobs have been set to NULL,
      it has nothing to do for any of them. */
  lemma CancelAfterDetachIsNoOp(parts: Participations, removed: set<JobId>, job: JobId)
    requires job in removed
    ensures CancelledFor(Detach(parts, removed), job) == Detach(parts, removed)
  {
    var d := Detach(parts, removed);
    forall id | id in d ensures CancelledFor(d, job)[id] == d[id] {
      assert d[id].job != Some(job);
    }
  }
}
