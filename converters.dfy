/**
 * The entity/row converters of app/infrastructure/repositories/users/converters.py.
 * A row carries the eight columns the converters copy; the user's zone and its
 * update time are copied in neither direction.
 */
module Converters {
  import opened Wrappers
  import opened Values
  import opened Users

  /** The columns of a UserModel row that the converters set. */
  datatype UserRow = UserRow(
    oid: string,
    email: string,
    username: string,
    password: string,
    createdAt: Timestamp,
    isDeleted: bool,
    deletedAt: Option<Timestamp>,
    isSubscribed: bool)

  /** `convert_user_entity_to_model`: the value objects are stored as plain strings. */
  function EntityToModel(u: UserData): (r: UserRow)
    ensures r.oid == u.oid && r.password == u.password.value && r.createdAt == u.createdAt
    ensures r.isDeleted == u.isDeleted && r.deletedAt == u.deletedAt && r.isSubscribed == u.isSubscribed
    ensures r.email == u.email.value && r.username == u.username.value
  {
    UserRow(u.oid, u.email.AsGenericType(), u.username.AsGenericType(), u.password.value,
            u.createdAt, u.isDeleted, u.deletedAt, u.isSubscribed)
  }

  /**
   * `convert_user_model_to_entity`: the email, then the username are validated again
   * (an invalid stored value fails the load), the password is marked as already hashed,
   * and the zone and update time take the entity's defaults (`now` is the load time).
   */
  function ModelToEntity(row: UserRow, now: Timestamp): (r: Result<UserData, ValueError>)
    ensures NewEmail(row.email).Err? ==> r == Err(NewEmail(row.email).error)
    ensures (NewEmail(row.email).Ok? && NewUsername(row.username).Err?) ==> r == Err(NewUsername(row.username).error)
    ensures r.Ok? <==> NewEmail(row.email).Ok? && NewUsername(row.username).Ok?
    ensures r.Ok? ==>
      r.value.password == Password(row.password, true) && r.value.userTimezone == DefaultTimezone && r.value.updatedAt == now
  {
    var email := NewEmail(row.email);
    if email.Err? then Err(email.error)
    else
      var username := NewUsername(row.username);
      if username.Err? then Err(username.error)
      else
        Ok(UserData(row.oid, email.value, username.value, Password(row.password, true), DefaultTimezone,
                    row.isSubscribed, row.isDeleted, row.createdAt, now, row.deletedAt))
  }

  /**
   * Storing and loading a user with valid email and username keeps its oid, email,
   * username, password text, creation time, deletion flag and time and subscription
   * flag; the password comes back marked hashed, the zone and update time as defaults.
   */
  lemma EntityModelRoundTrip(u: UserData, now: Timestamp)
    requires NewEmail(u.email.value).Ok? && NewUsername(u.username.value).Ok?
    ensures ModelToEntity(EntityToModel(u), now)
         == Ok(u.(password := Password(u.password.value, true), userTimezone := DefaultTimezone, updatedAt := now))
  {
  }

  /** Loading a row and storing it again gives back the same row. */
  lemma ModelEntityRoundTrip(row: UserRow, now: Timestamp)
    requires ModelToEntity(row, now).Ok?
    ensures EntityToModel(ModelToEntity(row, now).value) == row
  {
  }
}
