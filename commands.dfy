/**
 * The user command handlers of app/logic/commands/users.py. Each handler loads the
 * user from the repository, applies its checks, lets the entity change itself,
 * writes the entity back and then publishes the entity's pulled events.
 *
 * The repository is a map from oid to the stored user fields; publishing appends
 * the pulled events to the `published` sequence (what the mediator receives).
 */
module Commands {
  import opened Wrappers
  import opened Values
  import opened Users

  datatype CommandError =
    | InvalidValue(reason: ValueError)
    | UserAlreadyExists
    | UserNotFound(oid: string)
    | UsernameAlreadyExists(username: string)
    | InvalidCredentials
    | EntityRule(rule: EntityError)

  /**
   * Each stored user sits under its own oid and is marked deleted exactly when it has
   * a deletion time, and no two stored users share an email or a username.
   */
  ghost predicate RepositoryInvariant(repo: map<string, UserData>) {
    KeyedByOid(repo)
    && (forall oid | oid in repo :: DeletionConsistent(repo[oid]))
    && (forall a, b | a in repo && b in repo && a != b ::
          repo[a].email != repo[b].email && repo[a].username != repo[b].username)
  }

  /** Each stored user sits under its own oid (the table's primary key). */
  ghost predicate KeyedByOid(repo: map<string, UserData>) {
    forall oid | oid in repo :: repo[oid].oid == oid
  }

  /** `check_user_exists_by_email_and_username`: some stored user has that email or that username. */
  predicate EmailOrUsernameTaken(repo: map<string, UserData>, email: string, username: string) {
    exists oid | oid in repo :: repo[oid].email.value == email || repo[oid].username.value == username
  }

  /** `get_existing_usernames`. */
  function ExistingUsernames(repo: map<string, UserData>): set<string> {
    set oid | oid in repo :: repo[oid].username.value
  }

  /**
   * `Password.check_password`: a hashed password compares the candidate's hash, a
   * plain one the candidate itself. The hash function is supplied by the caller.
   */
  function CheckPassword(p: Password, candidate: string, hash: string -> string): bool {
    (if p.isHashed then hash(candidate) else candidate) == p.value
  }

  /** Writing back a user whose identity is unchanged keeps the repository invariant. */
  lemma {:induction false} StoreKeepsInvariant(repo: map<string, UserData>, oid: string, d: UserData)
    requires RepositoryInvariant(repo) && oid in repo
    requires d.oid == oid && DeletionConsistent(d)
    requires d.email == repo[oid].email
    requires d.username == repo[oid].username || d.username.value !in ExistingUsernames(repo)
    ensures RepositoryInvariant(repo[oid := d])
  {
    var r := repo[oid := d];
    forall a, b | a in r && b in r && a != b
      ensures r[a].email != r[b].email && r[a].username != r[b].username
    {
      if a == oid {
        assert repo[b].username.value in ExistingUsernames(repo);
      } else if b == oid {
        assert repo[a].username.value in ExistingUsernames(repo);
      }
    }
  }

  /** Storing the result of any operation other than a username change keeps the repository invariant. */
  lemma ApplyStoreKeepsInvariant(repo: map<string, UserData>, oid: string, op: Op)
    requires RepositoryInvariant(repo) && oid in repo && !op.ChangeUsername? && Apply(repo[oid], op).Ok?
    ensures RepositoryInvariant(repo[oid := Apply(repo[oid], op).value])
  {
    ApplyKeepsDeletionConsistent(repo[oid], op);
    StoreKeepsInvariant(repo, oid, Apply(repo[oid], op).value);
  }

  /** Adding a user under a new oid whose email and username are not taken keeps the repository invariant. */
  lemma {:induction false} AddKeepsInvariant(repo: map<string, UserData>, d: UserData)
    requires RepositoryInvariant(repo) && d.oid !in repo && DeletionConsistent(d)
    requires !EmailOrUsernameTaken(repo, d.email.value, d.username.value)
    ensures RepositoryInvariant(repo[d.oid := d])
  {
    var r := repo[d.oid := d];
    forall a, b | a in r && b in r && a != b
      ensures r[a].email != r[b].email && r[a].username != r[b].username
    {
      if a == d.oid {
        assert repo[b].email.value != d.email.value;
      } else if b == d.oid {
        assert repo[a].email.value != d.email.value;
      }
    }
  }

  /**
   * What an oid-based handler running entity operation `op` did: not found, or the
   * entity rule it broke, leaves everything as it was; otherwise the user is stored
   * with its new fields and exactly the operation's events are published.
   */
  ghost predicate Handled(preRepo: map<string, UserData>, prePublished: seq<Event>, oid: string, op: Op,
                          r: Outcome<CommandError>, postRepo: map<string, UserData>, postPublished: seq<Event>)
  {
    if oid !in preRepo then
      r == Fail(UserNotFound(oid)) && postRepo == preRepo && postPublished == prePublished
    else
      match Apply(preRepo[oid], op)
      case Err(e) => r == Fail(EntityRule(e)) && postRepo == preRepo && postPublished == prePublished
      case Ok(d) => r == Pass && postRepo == preRepo[oid := d] && postPublished == prePublished + Emitted(preRepo[oid], op)
  }

  class UserCommandHandlers {
    var repository: map<string, UserData>
    /** Every event handed to the mediator's `publish`, in order. */
    var published: seq<Event>

    ghost predicate Valid()
      reads this
    {
      KeyedByOid(repository)
    }

    constructor (repo: map<string, UserData>)
      requires KeyedByOid(repo)
      ensures Valid() && repository == repo && published == []
    {
      repository := repo;
      published := [];
    }

    /** `get_by_oid`: a fresh entity built from the stored fields, or null. */
    method GetByOid(oid: string) returns (u: UserEntity?)
      requires Valid()
      ensures u == null <==> oid !in repository
      ensures u != null ==> fresh(u) && u.Data() == repository[oid] && u.oid == oid && u.events == []
    {
      if oid in repository {
        u := new UserEntity.Load(repository[oid]);
      } else {
        u := null;
      }
    }

    /** `update`, `restore` and the soft `delete` of the repository: store the entity's fields. */
    method Store(u: UserEntity)
      modifies this`repository
      ensures repository == old(repository)[u.oid := u.Data()]
    {
      repository := repository[u.oid := u.Data()];
    }

    /** `mediator.publish(user.pull_events())`. */
    method PublishPulled(u: UserEntity)
      modifies this`published, u`events
      ensures published == old(published) + old(u.events) && u.events == []
    {
      var es := u.PullEvents();
      published := published + es;
    }

    /**
     * CreateUserCommandHandler. The username, then the email are validated, then the
     * repository is asked whether either is taken; only then is the user created (with
     * the default zone, since the command carries none), added and its events published.
     * `oid` and `now` stand for the fresh uuid and the creation time.
     */
    method CreateUser(username: string, email: string, password: string, isSubscribed: bool,
                      oid: string, now: Timestamp) returns (r: Result<UserData, CommandError>)
      requires oid !in repository
      requires Valid()
      modifies this
      ensures Valid()
      ensures NewUsername(username).Err? ==> r == Err(InvalidValue(NewUsername(username).error))
      ensures NewUsername(username).Ok? && NewEmail(email).Err? ==> r == Err(InvalidValue(NewEmail(email).error))
      ensures (NewUsername(username).Ok? && NewEmail(email).Ok? && EmailOrUsernameTaken(old(repository), email, username))
                ==> r == Err(UserAlreadyExists)
      ensures r.Err? ==> repository == old(repository) && published == old(published)
      ensures r.Ok? <==> NewUsername(username).Ok? && NewEmail(email).Ok? && !EmailOrUsernameTaken(old(repository), email, username)
      ensures r.Ok? ==>
        r.value == Created(oid, Username(username), UserEmail(email), DefaultTimezone, isSubscribed, Password(password, false), now)
        && repository == old(repository)[oid := r.value]
        && published == old(published) + CreationEvents(r.value)
      ensures RepositoryInvariant(old(repository)) ==> RepositoryInvariant(repository)
    {
      var name := NewUsername(username);
      if name.Err? { return Err(InvalidValue(name.error)); }
      var mail := NewEmail(email);
      if mail.Err? { return Err(InvalidValue(mail.error)); }
      var pass := Password(password, false);
      if EmailOrUsernameTaken(repository, mail.value.AsGenericType(), name.value.AsGenericType()) {
        return Err(UserAlreadyExists);
      }
      var user := UserEntity.Create(oid, name.value, mail.value, DefaultTimezone, isSubscribed, pass, now);
      if RepositoryInvariant(old(repository)) {
        AddKeepsInvariant(repository, user.Data());
      }
      Store(user);
      PublishPulled(user);
      r := Ok(user.Data());
    }

    /**
     * ChangeUsernameCommandHandler. Not found fails; the current name is a no-op; a name
     * some stored user already has fails before the new name is validated; otherwise the
     * entity renames itself (failing on a deleted user), is stored and publishes.
     */
    method ChangeUsername(oid: string, newUsername: string) returns (r: Outcome<CommandError>)
      requires Valid()
      modifies this
      ensures Valid()
      ensures oid !in old(repository) ==> r == Fail(UserNotFound(oid))
      ensures oid in old(repository) && newUsername == old(repository)[oid].username.value ==> r == Pass
      ensures (oid in old(repository) && newUsername != old(repository)[oid].username.value
                && newUsername in ExistingUsernames(old(repository))) ==> r == Fail(UsernameAlreadyExists(newUsername))
      ensures (oid in old(repository) && newUsername !in ExistingUsernames(old(repository)) && NewUsername(newUsername).Err?)
                ==> r == Fail(InvalidValue(NewUsername(newUsername).error))
      ensures (oid in old(repository) && newUsername !in ExistingUsernames(old(repository)) && NewUsername(newUsername).Ok?)
                ==> Handled(old(repository), old(published), oid, Op.ChangeUsername(Username(newUsername)), r, repository, published)
      ensures !(oid in old(repository) && newUsername !in ExistingUsernames(old(repository)) && NewUsername(newUsername).Ok?)
              ==> repository == old(repository) && published == old(published)
      ensures RepositoryInvariant(old(repository)) ==> RepositoryInvariant(repository)
    {
      var user := GetByOid(oid);
      if user == null { return Fail(UserNotFound(oid)); }
      if newUsername != user.username.AsGenericType() {
        assert user.username.value in ExistingUsernames(repository);
        var existing := ExistingUsernames(repository);
        if newUsername in existing { return Fail(UsernameAlreadyExists(newUsername)); }
        var name := NewUsername(newUsername);
        if name.Err? { return Fail(InvalidValue(name.error)); }
        var e := user.ChangeUsername(name.value);
        if e.Fail? { return Fail(EntityRule(e.error)); }
        if RepositoryInvariant(old(repository)) {
          StoreKeepsInvariant(repository, oid, user.Data());
        }
        Store(user);
        PublishPulled(user);
      }
      r := Pass;
    }

    /**
     * ChangePasswordCommandHandler. Not found fails; an old password that does not check
     * out fails with InvalidCredentials; otherwise the new password is set, stored and
     * its event published.
     */
    method ChangePassword(oid: string, oldPassword: string, newPassword: string, hash: string -> string)
      returns (r: Outcome<CommandError>)
      requires Valid()
      modifies this
      ensures Valid()
      ensures (oid in old(repository) && !CheckPassword(old(repository)[oid].password, oldPassword, hash))
                ==> r == Fail(InvalidCredentials) && repository == old(repository) && published == old(published)
      ensures (oid in old(repository) ==> CheckPassword(old(repository)[oid].password, oldPassword, hash))
                ==> Handled(old(repository), old(published), oid, Op.ChangePassword(Password(newPassword, false)), r, repository, published)
      ensures RepositoryInvariant(old(repository)) ==> RepositoryInvariant(repository)
    {
      var user := GetByOid(oid);
      if user == null { return Fail(UserNotFound(oid)); }
      if !CheckPassword(user.password, oldPassword, hash) { return Fail(InvalidCredentials); }
      var e := user.ChangePassword(Password(newPassword, false));
      if e.Fail? { return Fail(EntityRule(e.error)); }
      if RepositoryInvariant(old(repository)) {
        ApplyStoreKeepsInvariant(old(repository), oid, Op.ChangePassword(Password(newPassword, false)));
      }
      Store(user);
      PublishPulled(user);
      r := Pass;
    }

    /** Calls the entity method that carries out `op`. */
    static method Perform(user: UserEntity, op: Op) returns (e: Outcome<EntityError>)
      requires op.Subscribe? || op.Unsubscribe? || op.Restore? || op.Delete?
      modifies user
      ensures Performed(old(user.Data()), old(user.events), op, e, user.Data(), user.events)
    {
      match op {
        case Subscribe => e := user.SubscribeToEmailSender();
        case Unsubscribe => e := user.UnsubscribeFromEmailSender();
        case Restore(now) => e := user.Restore(now);
        case Delete(now) => e := user.Delete(now);
      }
    }

    /** The shared shape of the subscribe, unsubscribe, restore and delete handlers. */
    method LoadApplyStore(oid: string, op: Op) returns (r: Outcome<CommandError>)
      requires op.Subscribe? || op.Unsubscribe? || op.Restore? || op.Delete?
      requires Valid()
      modifies this
      ensures Valid()
      ensures Handled(old(repository), old(published), oid, op, r, repository, published)
      ensures RepositoryInvariant(old(repository)) ==> RepositoryInvariant(repository)
    {
      var user := GetByOid(oid);
      if user == null { return Fail(UserNotFound(oid)); }
      var e := Perform(user, op);
      if e.Fail? { return Fail(EntityRule(e.error)); }
      if RepositoryInvariant(old(repository)) {
        ApplyStoreKeepsInvariant(old(repository), oid, op);
      }
      Store(user);
      PublishPulled(user);
      r := Pass;
    }

    /** SubscribeToEmailSenderCommandHandler. */
    method SubscribeToEmailSender(oid: string) returns (r: Outcome<CommandError>)
      requires Valid()
      modifies this
      ensures Valid()
      ensures Handled(old(repository), old(published), oid, Op.Subscribe, r, repository, published)
      ensures RepositoryInvariant(old(repository)) ==> RepositoryInvariant(repository)
    {
      r := LoadApplyStore(oid, Op.Subscribe);
    }

    /** UnsubscribeFromEmailSenderCommandHandler. */
    method UnsubscribeFromEmailSender(oid: string) returns (r: Outcome<CommandError>)
      requires Valid()
      modifies this
      ensures Valid()
      ensures Handled(old(repository), old(published), oid, Op.Unsubscribe, r, repository, published)
      ensures RepositoryInvariant(old(repository)) ==> RepositoryInvariant(repository)
    {
      r := LoadApplyStore(oid, Op.Unsubscribe);
    }

    /** RestoreUserCommandHandler; `now` is the restore time the entity's event carries. */
    method RestoreUser(oid: string, now: Timestamp) returns (r: Outcome<CommandError>)
      requires Valid()
      modifies this
      ensures Valid()
      ensures Handled(old(repository), old(published), oid, Op.Restore(now), r, repository, published)
      ensures RepositoryInvariant(old(repository)) ==> RepositoryInvariant(repository)
    {
      r := LoadApplyStore(oid, Op.Restore(now));
    }

    /** DeleteUserCommandHandler; `now` is the deletion time. */
    method DeleteUser(oid: string, now: Timestamp) returns (r: Outcome<CommandError>)
      requires Valid()
      modifies this
      ensures Valid()
      ensures Handled(old(repository), old(published), oid, Op.Delete(now), r, repository, published)
      ensures RepositoryInvariant(old(repository)) ==> RepositoryInvariant(repository)
    {
      r := LoadApplyStore(oid, Op.Delete(now));
    }
  }
}
