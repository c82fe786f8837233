/** Shared vocabulary of the Happy2Help event domain: identifiers, optional
    values, the failures a mutation can raise, and Python's truthiness test
    on optional keyword arguments. */
module Common {

  type UserId = nat
  type OrganisationId = nat
  type EventId = nat
  type JobId = nat
  type ParticipationId = nat
  type LocationId = nat

  datatype Option<+T> = None | Some(value: T)

  /** One tag per exception a mutation or a save can raise. */
  datatype Error =
    | DoesNotExist          // Model.objects.get on a primary key that is not there
    | MissingReference      // attribute access on a foreign key that is None
    | AlreadyApplied        // "User already applied"
    | JobCanceled           // "Job is canceled/inactive"
    | NotParticipator       // "You need to be the participator"
    | NotEventCreator       // "You need to be the event creator ..."
    | JobExists             // "This Job already exists"
    | TooManyAccepted       // "already accepted too many users, decline some users"
    | NotOrganisationMember // "You need to be a member of the organisation ..."
    | NotAdmin              // "You have to be the admin of this organisation ..."
    | CannotRemoveAdmin     // "You cannot remove the admin of an organisation"
    | EndBeforeStart        // "End time before start time"
    | IntegrityError        // a unique or foreign-key constraint of the database
    | ValidationError       // `full_clean` refuses a field value

  /** A mutation that produces the id of a new row, or fails. */
  datatype Result<+T> = Success(value: T) | Failure(error: Error)

  /** A mutation that produces nothing but may fail. */
  datatype Outcome = Pass | Fail(error: Error)

  /** `if kwargs.get(name, None):` for a string argument: it was given and is not empty. */
  predicate Supplied(arg: Option<string>) {
    arg.Some? && arg.value != ""
  }

  /** The value a field ends up with when a non-empty argument overwrites it. */
  function Overwrite(current: string, arg: Option<string>): string {
    if Supplied(arg) then arg.value else current
  }
}
