# Happy2Help event domain in Dafny

This project models the domain core of the Happy2Help backend (a Django and
GraphQL service that matches volunteers to help events). Three source files
are modelled:

- `H2H/Event/schema.py`: the participation, job and event mutations. A volunteer
  applies to a job. The event creator accepts or declines the application, and
  the volunteer may cancel it. Each job keeps a hand-maintained
  `open_positions` counter. Jobs are created, renamed, resized, deleted or
  marked `canceled`. Events are created, edited and deleted by members of their
  organisation.
- `H2H/Event/models.py`: the later job table. It has soft deletion
  (`deleted_at`), two managers (`objects` sees only rows that are not
  soft-deleted, `all_objects` sees every row), the time-range guard of
  `Event.save`, the derived `occupied_positions` count, the (user, job)
  uniqueness of participations, and three signal receivers:
  - a default job is created for a new event;
  - a deleted job's applied and accepted participations are canceled;
  - an event's location is deleted with the event.
- `H2H/Organisation/schema.py`: organisation administration. The creator
  becomes admin and member. Only the admin may edit or delete the
  organisation, and the admin cannot be removed.

The two event files were written against different job tables. `schema.py`
reads `canceled` and `open_positions`, whose column defaults are
`False`/999/999 (`H2H/Happy2Help/migrations/0001_initial.py:47-49`).
`models.py` has dropped both in favour of `deleted_at`. Each file is therefore
modelled against its own table:

- module `EventSchema`: class `EventStore`, with one method per mutation;
- module `EventModels`: class `EventDatabase`, with the save, delete and signal
  behaviour.

The shared module `Participations` holds the participation row, the
(user, job) constraint and the count of accepted participations.
`OrganisationSchema` holds class `OrganisationStore`.

A raised exception is a `Fail`/`Failure` result tagged with the exception's
meaning. A mutation that fails before it writes leaves the store unchanged.
Python's `if kwargs.get(x, None):` is modelled as "given and truthy":
- a string argument counts only if it is present and non-empty (`Supplied`);
- `total_positions` counts only if it is present and non-zero (`TotalSupplied`).

The central result is about the counter. Setting a participation to Declined,
Accepted or Canceled preserves `open_positions + occupied` for every job
(`LedgerConserved`, also stated by `UpdateParticipation`). Any other target
(1, 2 or another integer) does not move the counter. When the participation
was Accepted, `occupied_positions` drops by one and the counter does not rise,
so the sum drops by one (`LedgerBrokenLeavingAccepted`). Accepting never
checks the counter, so it can reach -1 (`AcceptOverdraws`).

## Model

| member | source | states |
|---|---|---|
| Participations.Detach | H2H/Event/models.py:122 | After jobs are deleted, every participation keeps its id, user and state. Every participation of a deleted job has its job set to NULL, so none still points at a deleted job. Participations of other jobs are untouched (`on_delete=SET_NULL`). |
| Participations.OccupiedPositions | H2H/Event/models.py:103-104 | The number of a job's participations in state 4. It is at most the number of participations, and it is 0 if and only if no participation of the job is Accepted. |
| Participations.OnePerUserAndJob | H2H/Event/models.py:119-120 | The `unique_together = ('user', 'job')` constraint holds if and only if every participation with a job is the only row for its (user, job) pair. Rows with a NULL job are not constrained. |
| Participations.WithStateKeepsUnique | H2H/Event/models.py:119-120 | Changing one participation's state keeps the (user, job) constraint, every key and every job reference. |
| Participations.OccupiedAfterStateChange | H2H/Event/models.py:103-104 | Changing one state moves the accepted count of that participation's job by the change in acceptance (+1, -1 or 0). Every other job's count is unchanged. |
| Participations.OccupiedAfterInsert | H2H/Event/models.py:103-104 | A new participation raises its job's accepted count by one exactly when it is Accepted. Every other job's count is unchanged. |
| Participations.UniqueAfterInsert | H2H/Event/models.py:119-122 | Inserting a row keeps the (user, job) constraint if and only if its job is NULL or the user has no row for that job yet. |
| Participations.DetachKeepsUnique | H2H/Event/models.py:119-122 | Setting job references to NULL keeps the (user, job) constraint. |
| EventSchema.OpenPositionsDelta | H2H/Event/schema.py:75-94 | For targets Declined, Accepted and Canceled, the counter moves by the opposite of the job's change in acceptance. For any other target it does not move. |
| EventSchema.ParticipationGate | H2H/Event/schema.py:72-86 | A change passes if and only if the job is not canceled and the caller is the participant (for Canceled) or the event creator (for any other target). It names the error of each refusal, and a canceled job is refused first. |
| EventSchema.LedgerConserved | H2H/Event/schema.py:78-97 | For targets 3, 4 and 5, `open_positions + occupied_positions` of every job is the same before and after the change. |
| EventSchema.LedgerBrokenLeavingAccepted | H2H/Event/schema.py:88-96 | Moving an accepted participation to any other target (for example 1 or 2) lowers its job's `open + occupied` by one. |
| EventSchema.AcceptOverdraws | H2H/Event/schema.py:88-90 | Accepting on a job whose counter is 0 leaves the counter at -1 and raises occupancy by one: there is no capacity check. |
| EventSchema.ShrinkRejectedAsWritten | H2H/Event/schema.py:158 | The capacity check as written rejects a new total if and only if it is negative. |
| EventSchema.UpdatedJob | H2H/Event/schema.py:147-162 | The saved job keeps its event, its `canceled` flag and `total - open`. Its total is the new one when given, otherwise the old one. Name and description change only when non-empty. |
| EventSchema.ShrinkBelowOccupancyAccepted | H2H/Event/schema.py:156-162 | A job with total 2 and open 0 (two accepted) passes the check when shrunk to 1, and is saved with `open_positions` = -1. |
| EventSchema.ShrinkRejectedKeepsCounter | H2H/Event/schema.py:158-161 | The intended check (`t < total - open`) accepts a new total if and only if the saved counter stays non-negative. An accepted total is at least `total - open`. |
| EventSchema.ShrinkRejectedGuardsOccupancy | H2H/Event/schema.py:158-161 | On a job whose counter agrees with its participations (`open + occupied_positions == total`), the intended check accepts a new total if and only if it is at least the number of Accepted participations. The saved job then agrees with them again. |
| EventSchema.UniqueNamesAfterInsert | H2H/Event/schema.py:116-125 | Adding a job whose name is not taken in its event keeps job names unique per event. |
| EventSchema.RenameKeepsNamesUnique | H2H/Event/schema.py:147-151 | Renaming a job to a name no job of its event has keeps names unique per event. |
| EventSchema.DeclaredAfterStateChange | H2H/Event/schema.py:95-96 | After a state change, all states are among the five declared choices only if the target is one. If all were declared before and the target is declared, all still are. |
| EventSchema.EventStore.CreateParticipation | H2H/Event/schema.py:37-52 | Fails with AlreadyApplied if the user already has a participation for the job (for an unknown job id: one whose job is NULL). Fails on a missing job or a canceled job. Otherwise it adds exactly one participation (job, user, Applied) under a fresh id. Nothing else changes. |
| EventSchema.EventStore.UpdateParticipation | H2H/Event/schema.py:66-97 | Fails on a missing participation, a NULL job, or a refusal by the gate, and then changes nothing. On success the state becomes the target and the job's counter moves by `OpenPositionsDelta`. For targets 3, 4 and 5 every job's ledger is preserved. The declared-states invariant is kept only for declared targets. |
| EventSchema.EventStore.ApplyTransition | H2H/Event/schema.py:75-96 | The writes of a permitted change: the counter moves as `OpenPositionsDelta` says, then the state is saved. The ledger and state facts above follow. |
| EventSchema.EventStore.CreateJob | H2H/Event/schema.py:111-125 | Fails on a missing event, a caller who is not its creator, or a name already used in the event. Otherwise it adds one job with the given name, description and total, `open_positions` 999 and not canceled. |
| EventSchema.EventStore.UpdateJob | H2H/Event/schema.py:140-164 | Fails on a missing job, a caller who is not the creator, a supplied name that any job of the event has (this job included), or a negative total; any failure saves nothing. Success is stated as an if and only if. On success only this job changes, to `UpdatedJob`. |
| EventSchema.EventStore.DeleteJob | H2H/Event/schema.py:176-190 | Fails unless the job exists and the caller is the event creator. A job without participations is removed. Otherwise it is kept with `canceled = True`. Participations are untouched in both cases. A missing job is DoesNotExist; a caller who is not the event creator is NotEventCreator. |
| EventSchema.EventStore.CreateEvent | H2H/Event/schema.py:203-211 | Succeeds if and only if the caller is a member of the organisation. It then adds the event and exactly one default job with the event's name and description and 999/999 positions. |
| EventSchema.EventStore.UpdateEvent | H2H/Event/schema.py:226-239 | Fails on a missing event, an event without organisation, or a caller who is not a member; the failure changes nothing. On success, only the non-empty name and description overwrite. |
| EventSchema.EventStore.DeleteEvent | H2H/Event/schema.py:252-261 | Same checks as UpdateEvent. On success the event and all its jobs are removed, and the participations of those jobs lose their job. |
| EventModels.Objects | H2H/Event/models.py:38 | The `objects` manager holds exactly the rows whose `deleted_at` is None, with their values. |
| EventModels.AllObjects | H2H/Event/models.py:39 | The `all_objects` manager holds every row, soft-deleted ones included. |
| EventModels.GetQueryset | H2H/Event/models.py:26-29 | With `alive_only` the view holds exactly the rows whose `deleted_at` is None; without it, every row. Rows keep their values. |
| EventModels.SoftDeletedOnlyInAllObjects | H2H/Event/models.py:38-46 | A soft-deleted job leaves `objects` and stays in `all_objects`. `objects` loses exactly that row and `all_objects` keeps the same keys. |
| EventModels.ViewsDifferBySoftDeleted | H2H/Event/models.py:26-39 | `objects` is contained in `all_objects`. They differ by exactly the soft-deleted rows. |
| EventModels.TimeRangeCheck | H2H/Event/models.py:88-89 | Passes if and only if `start <= end`; a failure is EndBeforeStart. |
| EventModels.CancelledFor | H2H/Event/models.py:152-157 | The job's participations in state 2 or 4 become 5. Every other row, and every job and user reference, is unchanged. |
| EventModels.CancelledForIdempotent | H2H/Event/models.py:152-157 | Running the receiver twice has the effect of running it once. |
| EventModels.CancelledForFreesJob | H2H/Event/models.py:103-104 | After the receiver has run, the job's `occupied_positions` is 0. |
| EventModels.CancelAfterDetachIsNoOp | H2H/Event/models.py:152-157 | Once participations of the deleted jobs have their job set to NULL, the receiver changes nothing for any of those jobs. |
| EventModels.HardDeleteLeavesAccepted | H2H/Event/models.py:48-49 | Hard-deleting a job whose one participation is Accepted leaves that participation Accepted. |
| EventModels.CancelBeforeDetachCancels | H2H/Event/models.py:152-157 | If the receiver runs before the job references are cleared, none of the deleted job's participations is left in state 2 or 4. Those in state 2 or 4 end up Canceled. |
| EventModels.EventDatabase.SaveEvent | H2H/Event/models.py:83-91 | Fails with EndBeforeStart if `end < start`. Otherwise it fails with ValidationError if the event's location is not a stored location or belongs to another event (the one-to-one `location`). It succeeds if and only if both checks pass. A failure writes nothing. Otherwise it stores the event, keeping every event's location stored and held by that event alone. An insert also creates exactly one default job with the event's name and description; saving an existing event creates none. |
| EventModels.EventDatabase.CreateDefaultJob | H2H/Event/models.py:146-149 | Adds exactly one job, named and described like the event, with no total and not soft-deleted. |
| EventModels.EventDatabase.SoftDelete | H2H/Event/models.py:44-46 | Only `deleted_at` of the job changes. The row stays in `all_objects` and leaves `objects`. |
| EventModels.EventDatabase.HardDelete | H2H/Event/models.py:48-49 | Removes the row. Its participations keep their state and lose their job. |
| EventModels.EventDatabase.DeleteQuerySet | H2H/Event/models.py:14-15 | Stamps exactly the existing rows of the set, and returns how many there are. |
| EventModels.EventDatabase.HardDeleteQuerySet | H2H/Event/models.py:17-18 | Removes every row of the set and returns how many of them existed. Their participations lose their job and keep their state. |
| EventModels.EventDatabase.HardDeleteManager | H2H/Event/models.py:31-32 | `objects.hard_delete()` removes exactly the rows that are not soft-deleted. `all_objects.hard_delete()` empties the table. Both return the number of rows in the manager's view. The participations of the removed rows lose their job and keep their state. |
| EventModels.EventDatabase.DeleteEvent | H2H/Event/models.py:140-143 | The event and all its jobs (soft-deleted ones too) are removed, and their participations lose their job. The event's location is removed if it had one; otherwise the locations are unchanged. Every remaining event's location is still stored, because no other event shares it. |
| EventModels.EventDatabase.SetParticipationsToCancelled | H2H/Event/models.py:152-157 | The loop over the job's participations leaves exactly `CancelledFor` of the old table. |
| EventModels.EventDatabase.CreateParticipation | H2H/Event/models.py:119-125 | Succeeds if and only if the job is NULL, or it exists and the user has no participation for it. A failure is IntegrityError and writes nothing. The state defaults to 2. |
| OrganisationSchema.EditedMembers | H2H/Organisation/schema.py:70-77 | After an edit, the members are the old members plus the added user, minus the removed user. The removed user is never a member. |
| OrganisationSchema.AddExistingMemberIsNoOp | H2H/Organisation/schema.py:70-71 | Adding a user who is already a member changes nothing. |
| OrganisationSchema.AdminStaysMember | H2H/Organisation/schema.py:72-77 | Unless the removed user is the admin, the admin is still a member after the edit. |
| OrganisationSchema.UpdateGate | H2H/Organisation/schema.py:63-77 | An edit passes if and only if the caller is the admin, the added and removed users exist, and the removed user is not the admin. It names the error of each refusal, in the source's order. |
| OrganisationSchema.MembersWritten | H2H/Organisation/schema.py:70-71 | The members stored after the add step: the old members, plus the added user if and only if it exists. |
| OrganisationSchema.Edited | H2H/Organisation/schema.py:66-79 | The saved organisation keeps its admin. Name and description are replaced only by non-empty arguments. Members are as `EditedMembers` says. |
| OrganisationSchema.EditKeepsAdmin | H2H/Organisation/schema.py:72-79 | Every edit the gate lets through keeps the admin a member, and keeps every member a user. |
| OrganisationSchema.OrganisationStore.CreateOrganisation | H2H/Organisation/schema.py:27-33 | Adds exactly one organisation under a fresh id, with the caller as admin and only member. |
| OrganisationSchema.OrganisationStore.UpdateOrganisation | H2H/Organisation/schema.py:60-79 | A missing organisation or a caller who is not the admin changes nothing. The outcome is `UpdateGate`'s. A success saves `Edited`. A later failure keeps the member added in the same call and discards the name and description edits. The admin is always a member afterwards. |
| OrganisationSchema.OrganisationStore.EditMembers | H2H/Organisation/schema.py:70-77 | The add is written before the removal is checked. Success stores `EditedMembers`; failure stores `MembersWritten`. |
| OrganisationSchema.OrganisationStore.DeleteOrganisation | H2H/Organisation/schema.py:98-104 | Succeeds if and only if the organisation exists and the caller is its admin; it then removes exactly that organisation. A missing organisation is DoesNotExist; a caller who is not the admin is NotAdmin. A failure changes nothing. |

## Left out

- GraphQL types, query resolvers, `login_required` and JWT handling: transport and authentication. The logged-in user is the `actor` parameter.
- `EventQuerySet.near` (H2H/Event/models.py:52-64): it sorts by a floating-point distance from `Location.distance`. H2H/Location/models.py's distance method is not part of this model.
- `Event.full_clean()` (H2H/Event/models.py:90): Django field validation. Only its checks on `location` are modelled: the location must exist and no other event may hold it. Field lengths, blank fields and the other foreign keys are not checked; in particular a missing location, which `full_clean` refuses because `location` is not `blank=True` (H2H/Event/models.py:83), is accepted.
- The counter agreement `open_positions + occupied_positions == total_positions` is not an invariant of `EventStore`: `CreateJob` leaves `open_positions` at its column default 999 whatever the total (H2H/Event/schema.py:119-125). `ShrinkRejectedGuardsOccupancy` therefore takes the agreement as a precondition.
- The `RequiresSkill` and `Feedback.Rating` references (H2H/Event/models.py:126, 132-134), the event's `Image` (H2H/Image/models.py:12, a one-to-one cascade) and its `Favourite` rows (H2H/User/models.py:35, a cascade), which an event delete also removes; and the cascade of an organisation delete to its events (H2H/Event/models.py:81). The organisation and event stores are separate classes, so `DeleteOrganisation` removes only the organisation row.
- Concurrency and transactions: each mutation is one sequential step. No request-level atomicity is assumed, matching the source's settings.
- `timezone.now()`: a soft-delete timestamp is an abstract `Time` parameter.
- Credit points, a "last job of an event cannot be deleted" rule and a capacity check on accept: none appears in the modelled code, so none is modelled. `AcceptOverdraws` shows the missing capacity check.
- Both `CreateEvent` (H2H/Event/schema.py:211) and the post_save receiver (H2H/Event/models.py:146-149) create a default job. The two modules model them separately, so neither shows the second, identically named job that running both would produce.
- `HardDeleteQuerySet`, `HardDeleteManager`: Django's `delete()` returns a pair of the total count and a per-model dictionary, and the total also counts rows of cascaded models. The model returns only the number of job rows removed, since no cascaded model is part of it.
- `SoftDelete`: a soft delete sends no post_delete signal, so the cancel receiver does not run. The model states this by leaving participations unchanged.
- Participation `state` choices are not enforced when a row is saved. The model keeps `state` a plain integer, and `DeclaredAfterStateChange` says when the declared range survives.
- `graphene.ID` arguments are modelled as natural-number ids. An empty `add_member`/`delete_member` string is modelled as the argument being absent (`None`).
- The target state of UpdateParticipation is not range-checked, as in the source. No extra check is added.
- The job table of `schema.py` has no soft deletion, and the job table of `models.py` has no counter or `canceled` flag. Each revision is modelled against its own fields.

## Findings

| source | as written | input that shows it | evidently intended | confidence | as-written member | corrected member |
|---|---|---|---|---|---|---|
| H2H/Event/schema.py:158 | `-total_positions + job.total_positions > job.total_positions` holds exactly when the new total is negative | a job with total 2 and open 0 (two accepted), updated to total 1: accepted, saved with `open_positions` = -1 | reject a new total below the number of accepted participations, which is `total - open` while the counter agrees with them | high, not executed | EventSchema.ShrinkBelowOccupancyAccepted | EventSchema.ShrinkRejectedGuardsOccupancy |
| H2H/Event/models.py:152-157 | Django's deletion sets `Participation.job` to NULL before it sends post_delete, so `instance.participation_set.all()` is empty when the receiver runs | hard-deleting job 7 whose only participation is Accepted: the participation stays Accepted (with job NULL) | cancel the participations in state 2 or 4 of the deleted job | medium, not executed | EventModels.HardDeleteLeavesAccepted | EventModels.CancelBeforeDetachCancels |
