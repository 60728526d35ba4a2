/**
 * The user aggregate of app/domain/entities/users.py. The entity changes its own
 * fields in place and records what happened in its list of pending domain events;
 * `register_event` appends to that list and `pull_events` hands it over and empties it.
 *
 * Each operation is specified by `Apply` (the new field values, or the rule it breaks)
 * and `Emitted` (the events it records when it succeeds), both over an immutable
 * snapshot `UserData` of the fields; the class methods are proved to follow them.
 */
module Users {
  import opened Wrappers
  import opened Values

  /** An instant. `datetime.now` is not modelled: callers pass the time in. */
  type Timestamp = int

  /** The password value object (its hashing rules are not part of this model). */
  datatype Password = Password(value: string, isHashed: bool)

  /**
   * One domain event type covering every kind the entity records. Event ids and
   * occurrence times are not modelled.
   */
  datatype Event =
    | UserCreated(userOid: string, username: string, email: string, userTimezone: string, isSubscribed: bool)
    | UsernameChanged(userOid: string, oldUsername: Username, newUsername: Username)
    | PasswordChanged(userOid: string)
    | UserSubscribed(userOid: string, username: string, email: string, userTimezone: string)
    | UserUnsubscribed(userOid: string, username: string, email: string)
    | UserRestored(userOid: string, username: string, restoredAt: Timestamp)
    | LoginConfirmed(userOid: string, username: string, email: string)
    | UserDeleted(userOid: string, username: string, email: string)

  datatype EntityError = UserAlreadyDeleted(oid: string) | UserNotDeleted(oid: string)

  /** The entity's fields at one moment. */
  datatype UserData = UserData(
    oid: string,
    email: UserEmail,
    username: Username,
    password: Password,
    userTimezone: UserTimezone,
    isSubscribed: bool,
    isDeleted: bool,
    createdAt: Timestamp,
    updatedAt: Timestamp,
    deletedAt: Option<Timestamp>)

  /** A user is marked deleted exactly when it carries a deletion time. */
  predicate DeletionConsistent(d: UserData) {
    d.isDeleted <==> d.deletedAt.Some?
  }

  /** The operations on an existing user. */
  datatype Op =
    | ChangeUsername(newUsername: Username)
    | ChangePassword(newPassword: Password)
    | Subscribe
    | Unsubscribe
    | Restore(now: Timestamp)
    | ConfirmLogin
    | Delete(now: Timestamp)

  /**
   * The guard each operation runs first. `confirm_login` names `_validate_not_deleted`
   * without calling it, so it has no guard; `change_password` is not defined in the
   * entity file and is modelled without one.
   */
  function Guard(d: UserData, op: Op): Option<EntityError> {
    match op
    case ChangeUsername(_) | Subscribe | Unsubscribe | Delete(_) =>
      if d.isDeleted then Some(UserAlreadyDeleted(d.oid)) else None
    case Restore(_) =>
      if !d.isDeleted then Some(UserNotDeleted(d.oid)) else None
    case ChangePassword(_) | ConfirmLogin => None
  }

  /** The fields after `op`, or the rule it breaks. */
  function Apply(d: UserData, op: Op): (r: Result<UserData, EntityError>)
    ensures r.Err? <==> Guard(d, op).Some?
    ensures r.Err? ==> r.error == Guard(d, op).value
    ensures r.Ok? ==>
      r.value.oid == d.oid && r.value.email == d.email && r.value.userTimezone == d.userTimezone &&
      r.value.createdAt == d.createdAt && r.value.updatedAt == d.updatedAt
    ensures r.Ok? && !op.ChangeUsername? ==> r.value.username == d.username
  {
    if Guard(d, op).Some? then Err(Guard(d, op).value)
    else
      match op
      case ChangeUsername(name) => Ok(d.(username := name))
      case ChangePassword(p) => Ok(d.(password := p))
      case Subscribe => Ok(d.(isSubscribed := true))
      case Unsubscribe => Ok(d.(isSubscribed := false))
      case Restore(_) => Ok(d.(isDeleted := false, deletedAt := None))
      case ConfirmLogin => Ok(d)
      case Delete(now) => Ok(d.(isDeleted := true, deletedAt := Some(now)))
  }

  /** The events `op` records on a user in state `d` when it succeeds. */
  function Emitted(d: UserData, op: Op): (es: seq<Event>)
    ensures |es| == 1 && es[0].userOid == d.oid
  {
    match op
    case ChangeUsername(name) => [UsernameChanged(d.oid, d.username, name)]
    case ChangePassword(_) => [PasswordChanged(d.oid)]
    case Subscribe => [UserSubscribed(d.oid, d.username.value, d.email.value, d.userTimezone.value)]
    case Unsubscribe => [UserUnsubscribed(d.oid, d.username.value, d.email.value)]
    case Restore(now) => [UserRestored(d.oid, d.username.value, now)]
    case ConfirmLogin => [LoginConfirmed(d.oid, d.username.value, d.email.value)]
    case Delete(_) => [UserDeleted(d.oid, d.username.value, d.email.value)]
  }

  /** The fields of a user fresh from `create`. */
  function Created(oid: string, username: Username, email: UserEmail, userTimezone: UserTimezone,
                   isSubscribed: bool, password: Password, now: Timestamp): UserData
  {
    UserData(oid, email, username, password, userTimezone, isSubscribed, false, now, now, None)
  }

  /** The events `create` records: Created, then Subscribed when the user starts subscribed. */
  function CreationEvents(d: UserData): seq<Event> {
    [UserCreated(d.oid, d.username.value, d.email.value, d.userTimezone.value, d.isSubscribed)]
    + (if d.isSubscribed then [UserSubscribed(d.oid, d.username.value, d.email.value, d.userTimezone.value)] else [])
  }

  /** `create` records exactly one Created event, and a Subscribed event after it exactly when subscribed. */
  lemma CreationEventsShape(oid: string, username: Username, email: UserEmail, userTimezone: UserTimezone,
                            isSubscribed: bool, password: Password, now: Timestamp)
    ensures var es := CreationEvents(Created(oid, username, email, userTimezone, isSubscribed, password, now));
      |es| == (if isSubscribed then 2 else 1) && es[0].UserCreated? &&
      (isSubscribed ==> es[1] == UserSubscribed(oid, username.value, email.value, userTimezone.value))
  {
  }

  /** A fresh user is not deleted and has no deletion time. */
  lemma CreatedIsConsistent(oid: string, username: Username, email: UserEmail, userTimezone: UserTimezone,
                            isSubscribed: bool, password: Password, now: Timestamp)
    ensures var d := Created(oid, username, email, userTimezone, isSubscribed, password, now);
      DeletionConsistent(d) && !d.isDeleted
  {
  }

  /** Every operation keeps "deleted exactly when it has a deletion time". */
  lemma ApplyKeepsDeletionConsistent(d: UserData, op: Op)
    requires DeletionConsistent(d)
    ensures Apply(d, op).Ok? ==> DeletionConsistent(Apply(d, op).value)
  {
  }

  /** On a deleted user, every operation other than restore, confirm_login and change_password fails and changes nothing. */
  lemma DeletedUserIsFrozen(d: UserData, op: Op)
    requires d.isDeleted
    requires !op.Restore? && !op.ConfirmLogin? && !op.ChangePassword?
    ensures Apply(d, op) == Err(UserAlreadyDeleted(d.oid))
  {
  }

  /** restore succeeds exactly on a deleted user, and only clears the deletion flag and time. */
  lemma RestoreMeaning(d: UserData, now: Timestamp)
    ensures Apply(d, Restore(now)).Ok? <==> d.isDeleted
    ensures !d.isDeleted ==> Apply(d, Restore(now)) == Err(UserNotDeleted(d.oid))
    ensures d.isDeleted ==> Apply(d, Restore(now)).value == d.(isDeleted := false, deletedAt := None)
  {
  }

  /** Delete succeeds iff the user is live, and then only sets the deletion flag and time. */
  lemma DeleteMeaning(d: UserData, now: Timestamp)
    ensures Apply(d, Delete(now)).Ok? <==> !d.isDeleted
    ensures d.isDeleted ==> Apply(d, Delete(now)) == Err(UserAlreadyDeleted(d.oid))
    ensures !d.isDeleted ==> Apply(d, Delete(now)).value == d.(isDeleted := true, deletedAt := Some(now))
  {
  }

  /** Deleting a live user and restoring it gives back exactly the fields it had. */
  lemma {:induction false} RestoreUndoesDelete(d: UserData, deletedAt: Timestamp, restoredAt: Timestamp)
    requires DeletionConsistent(d) && !d.isDeleted
    ensures Apply(d, Delete(deletedAt)).Ok?
    ensures Apply(Apply(d, Delete(deletedAt)).value, Restore(restoredAt)) == Ok(d)
  {
    assert d.deletedAt == None;
  }

  /** Subscribing and unsubscribing record one event each time and are not guarded by the current flag. */
  lemma SubscriptionNotGuarded(d: UserData)
    requires !d.isDeleted
    ensures Apply(d, Subscribe) == Ok(d.(isSubscribed := true))
    ensures Apply(d, Unsubscribe) == Ok(d.(isSubscribed := false))
    ensures |Emitted(d, Subscribe)| == 1 && |Emitted(d, Unsubscribe)| == 1
  {
  }

  /** confirm_login succeeds on every user, changes no field and records one event. */
  lemma ConfirmLoginUnguarded(d: UserData)
    ensures Apply(d, ConfirmLogin) == Ok(d)
    ensures Emitted(d, ConfirmLogin) == [LoginConfirmed(d.oid, d.username.value, d.email.value)]
  {
  }

  /** A username change records both the old and the new name. */
  lemma UsernameChangeRecordsBoth(d: UserData, name: Username)
    requires !d.isDeleted
    ensures Apply(d, ChangeUsername(name)) == Ok(d.(username := name))
    ensures Emitted(d, ChangeUsername(name)) == [UsernameChanged(d.oid, d.username, name)]
  {
  }

  /**
   * What one call of an operation did: on success the fields became `Apply`'s and
   * `Emitted` was appended to the pending events; on failure nothing changed.
   */
  ghost predicate Performed(pre: UserData, preEvents: seq<Event>, op: Op,
                            r: Outcome<EntityError>, post: UserData, postEvents: seq<Event>)
  {
    match Apply(pre, op)
    case Ok(d) => r == Pass && post == d && postEvents == preEvents + Emitted(pre, op)
    case Err(e) => r == Fail(e) && post == pre && postEvents == preEvents
  }

  class UserEntity {
    const oid: string
    var email: UserEmail
    var username: Username
    var password: Password
    var userTimezone: UserTimezone
    var isSubscribed: bool
    var isDeleted: bool
    var createdAt: Timestamp
    var updatedAt: Timestamp
    var deletedAt: Option<Timestamp>
    /** The events registered and not yet pulled. */
    var events: seq<Event>

    function Data(): UserData
      reads this
    {
      UserData(oid, email, username, password, userTimezone, isSubscribed, isDeleted, createdAt, updatedAt, deletedAt)
    }

    /** Builds an entity from stored fields, with no pending events. */
    constructor Load(d: UserData)
      ensures Data() == d && events == []
    {
      oid := d.oid;
      email := d.email;
      username := d.username;
      password := d.password;
      userTimezone := d.userTimezone;
      isSubscribed := d.isSubscribed;
      isDeleted := d.isDeleted;
      createdAt := d.createdAt;
      updatedAt := d.updatedAt;
      deletedAt := d.deletedAt;
      events := [];
    }

    /** `register_event`: appends one event to the pending list. */
    method RegisterEvent(e: Event)
      modifies this`events
      ensures events == old(events) + [e]
    {
      events := events + [e];
    }

    /** `pull_events`: hands over the pending events and empties the list. */
    method PullEvents() returns (es: seq<Event>)
      modifies this`events
      ensures es == old(events) && events == []
    {
      es := events;
      events := [];
    }

    /** `create`: a new, undeleted user whose pending events are Created (and Subscribed). */
    static method Create(oid: string, username: Username, email: UserEmail, userTimezone: UserTimezone,
                         isSubscribed: bool, password: Password, now: Timestamp) returns (u: UserEntity)
      ensures fresh(u)
      ensures u.Data() == Created(oid, username, email, userTimezone, isSubscribed, password, now)
      ensures u.events == CreationEvents(u.Data())
    {
      u := new UserEntity.Load(Created(oid, username, email, userTimezone, isSubscribed, password, now));
      u.RegisterEvent(UserCreated(oid, username.value, email.value, userTimezone.value, isSubscribed));
      if u.isSubscribed {
        u.RegisterEvent(UserSubscribed(oid, username.value, email.value, userTimezone.value));
      }
    }

    method ChangeUsername(newUsername: Username) returns (r: Outcome<EntityError>)
      modifies this
      ensures Performed(old(Data()), old(events), Op.ChangeUsername(newUsername), r, Data(), events)
    {
      if isDeleted { return Fail(UserAlreadyDeleted(oid)); }
      r := Pass;
      var oldUsername := username;
      username := newUsername;
      RegisterEvent(UsernameChanged(oid, oldUsername, newUsername));
    }

    method ChangePassword(newPassword: Password) returns (r: Outcome<EntityError>)
      modifies this
      ensures Performed(old(Data()), old(events), Op.ChangePassword(newPassword), r, Data(), events)
    {
      password := newPassword;
      RegisterEvent(PasswordChanged(oid));
      r := Pass;
    }

    method SubscribeToEmailSender() returns (r: Outcome<EntityError>)
      modifies this
      ensures Performed(old(Data()), old(events), Op.Subscribe, r, Data(), events)
    {
      if isDeleted { return Fail(UserAlreadyDeleted(oid)); }
      r := Pass;
      isSubscribed := true;
      RegisterEvent(UserSubscribed(oid, username.value, email.value, userTimezone.value));
    }

    method UnsubscribeFromEmailSender() returns (r: Outcome<EntityError>)
      modifies this
      ensures Performed(old(Data()), old(events), Op.Unsubscribe, r, Data(), events)
    {
      if isDeleted { return Fail(UserAlreadyDeleted(oid)); }
      r := Pass;
      isSubscribed := false;
      RegisterEvent(UserUnsubscribed(oid, username.value, email.value));
    }

    method Restore(now: Timestamp) returns (r: Outcome<EntityError>)
      modifies this
      ensures Performed(old(Data()), old(events), Op.Restore(now), r, Data(), events)
    {
      if !isDeleted { return Fail(UserNotDeleted(oid)); }
      r := Pass;
      isDeleted := false;
      deletedAt := None;
      RegisterEvent(UserRestored(oid, username.value, now));
    }

    /** No deletion check: the source mentions the guard without calling it. */
    method ConfirmLogin() returns (r: Outcome<EntityError>)
      modifies this
      ensures Performed(old(Data()), old(events), Op.ConfirmLogin, r, Data(), events)
    {
      RegisterEvent(LoginConfirmed(oid, username.value, email.value));
      r := Pass;
    }

    method Delete(now: Timestamp) returns (r: Outcome<EntityError>)
      modifies this
      ensures Performed(old(Data()), old(events), Op.Delete(now), r, Data(), events)
    {
      if isDeleted { return Fail(UserAlreadyDeleted(oid)); }
      r := Pass;
      isDeleted := true;
      deletedAt := Some(now);
      RegisterEvent(UserDeleted(oid, username.value, email.value));
    }
  }
}
