# User accounts and reminder scheduling — a Dafny model

This project models the user domain of a user-account service (signup, login codes,
username and subscription management) and the reminder scheduler that follows
subscription events:

- **Value objects** (`values.dfy`): `Username`, `UserEmail` and `UserTimezone` are
  validated when built. Each check has its own error, and the checks run in a fixed order.
  The three regular expressions are stated exactly, except that `\d` is taken as ASCII.
  This includes the single trailing newline that Python's `$` accepts.
- **User aggregate** (`users.dfy`): the class `UserEntity` changes its fields in place
  and appends domain events to its pending list. `Apply` and `Emitted` specify every
  operation over a snapshot `UserData`, and each method is proved to follow them.
- **Command handlers** (`commands.dfy`): the create, change-username, change-password,
  subscribe, unsubscribe, restore and delete handlers. They run over a repository (a map
  from oid to stored user) and a `published` sequence (what the mediator is handed).
  Every handler keeps the repository invariant: each user is filed under its own oid, is
  deleted exactly when it has a deletion time, and no two users share an email or a
  username.
- **Reminder scheduler** (`scheduler.dfy`): `EmailScheduler` keeps a job store and the
  `user_jobs` table. Subscribe messages add a daily job at the UTC time for the user's
  `Etc/GMT±N` zone. Unsubscribe messages remove the mapped job. Messages are consumed one
  at a time. Functions over the value `Table` specify each step.
- **OTP and code caches** (`single_use_codes.dfy`, `otps.dfy`, `codes.dfy`): one
  pending six-digit code per email. A new code overwrites the old one, and a successful
  check deletes it.
- **Table names** (`tablename.dfy`): the CamelCase-to-`snake_plural` rule of the ORM base.
- **Converters** (`converters.dfy`): the entity↔row record conversion and its round trips.

`wrappers.dfy` holds `Option`, `Result` and `Outcome`, which stand in for the source's
exceptions. `decimal.dfy` holds decimal digit strings, as written by `str(int)`.

Notes on the source as it stands:

- The create handler passes `password=` to `UserEntity.create`, but the entity's
  signature takes `user_timezone` (app/logic/commands/users.py:40-45,
  app/domain/entities/users.py:31-37). The model follows the entity's signature. It keeps
  the password, which the converters and the change-password handler read. The command
  carries no zone, so the handler gives the entity its default zone `Etc/GMT+3`.
- The entity imports event classes that app/domain/events/users.py does not define.
  One `Event` datatype covers every kind the entity records.
- `confirm_login` names `_validate_not_deleted` without calling it
  (app/domain/entities/users.py:116). The model keeps that: a deleted user can confirm
  a login.
- A second subscribe message for a scheduled user adds a second job and repoints
  `user_jobs`; the earlier job stays in the store with nothing referring to it
  (`ResubscribeLeavesEarlierJob`, `DuplicateSubscribeGivesTwoJobs`).
- Deleting an account does not remove its reminder job: the delete handler publishes a
  deletion event, and the scheduler consumes only the subscribe and unsubscribe topics.
- If `user_jobs` names a job the store lacks, `remove_job` raises before the entry is
  deleted. `Unsubscribed` reports this as `JobLookupError`; a scheduler whose every entry
  names a stored job (`EmailScheduler.Valid`) never reaches it (`UnsubscribeConsistent`).

## Model

| member | source | states |
|---|---|---|
| `Values.NewUsername` | app/domain/values/users.py:20-30 | empty fails with EmptyUsername first; otherwise length outside 3..15 fails with InvalidUsernameLength; otherwise accepted iff every character is an ASCII letter, digit, `_`, `*`, `\` or `-` (a final "\n" aside); the value is kept unchanged |
| `Values.EmailPatternMeaning` | app/domain/values/users.py:47-48 | the scan used by validation accepts exactly the strings `^\S+@\S+\.\S+$` describes: no whitespace, an '@' with a character before it, then a '.' at least one character later and at least one before the end |
| `Values.NewEmail` | app/domain/values/users.py:43-48 | empty fails with EmptyEmail; otherwise accepted iff the string has the email shape, else InvalidEmailFormat |
| `Values.EtcGmtNumberOf` | app/domain/values/users.py:62-63 | every `Etc/GMT` + sign + non-empty digit string (optionally followed by "\n") is accepted, with +N or -N as its number and no bound on N |
| `Values.EtcGmtNumberShape` | app/domain/values/users.py:62-63 | every accepted zone name has that form |
| `Values.NewTimezone` | app/domain/values/users.py:58-63 | empty fails with EmptyTimezone; otherwise accepted iff the name matches the Etc/GMT pattern, else InvalidTimezone |
| `Decimal.SixDigits` | app/infrastructure/services/otps/redis.py:18 | the decimal text of a number in [100000, 999999] has exactly six digits, no leading zero, and reads back as that number |
| `Decimal.ValueOfToDecimal` | app/infrastructure/services/codes/redis.py:19 | reading back the decimal text of any number gives the number |
| `Decimal.ToDecimalLength` | app/infrastructure/services/codes/redis.py:19 | a number with k digits is written with exactly k characters |
| `Users.Apply` | app/domain/entities/users.py:64-145 | an operation fails exactly when its guard (not deleted, or deleted for restore) does, with that guard's error; on success oid, email, zone, created_at and updated_at are kept, and only a username change changes the username |
| `Users.Emitted` | app/domain/entities/users.py:64-137 | every successful operation records exactly one event, about the same user |
| `Users.CreationEventsShape` | app/domain/entities/users.py:44-61 | `create` records exactly one Created event, followed by one Subscribed event exactly when the user starts subscribed |
| `Users.CreatedIsConsistent` | app/domain/entities/users.py:23-28 | a fresh user is not deleted and has no deletion time |
| `Users.ApplyKeepsDeletionConsistent` | app/domain/entities/users.py:102-137 | every operation keeps "deleted exactly when it has a deletion time" |
| `Users.DeletedUserIsFrozen` | app/domain/entities/users.py:139-141 | on a deleted user, change_username, subscribe, unsubscribe and delete fail with UserAlreadyDeleted |
| `Users.RestoreMeaning` | app/domain/entities/users.py:102-113 | restore succeeds iff the user is deleted, fails with UserNotDeleted otherwise, and only clears the deletion flag and time |
| `Users.DeleteMeaning` | app/domain/entities/users.py:126-137 | delete succeeds iff the user is live, fails with UserAlreadyDeleted otherwise, and only sets the deletion flag and the deletion time to now |
| `Users.RestoreUndoesDelete` | app/domain/entities/users.py:102-137 | deleting a live user and then restoring it gives back exactly its earlier fields |
| `Users.SubscriptionNotGuarded` | app/domain/entities/users.py:77-100 | subscribe and unsubscribe set the flag whatever its current value and each records exactly one event |
| `Users.ConfirmLoginUnguarded` | app/domain/entities/users.py:115-124 | confirm_login succeeds even on a deleted user, changes no field and records one event |
| `Users.UsernameChangeRecordsBoth` | app/domain/entities/users.py:64-75 | a username change replaces the name and its event carries both the old and the new name |
| `Users.UserEntity.Create` | app/domain/entities/users.py:30-62 | the new entity has the given fields, is neither deleted nor has a deletion time, and its pending events are the creation events |
| `Users.UserEntity.ChangeUsername` | app/domain/entities/users.py:64-75 | fails on a deleted user with nothing changed; otherwise sets the name and appends one UsernameChanged event |
| `Users.UserEntity.ChangePassword` | app/logic/commands/users.py:98-99 | sets the password and appends one PasswordChanged event |
| `Users.UserEntity.SubscribeToEmailSender` | app/domain/entities/users.py:77-88 | fails on a deleted user with nothing changed; otherwise sets is_subscribed and appends one Subscribed event |
| `Users.UserEntity.UnsubscribeFromEmailSender` | app/domain/entities/users.py:90-100 | fails on a deleted user with nothing changed; otherwise clears is_subscribed and appends one Unsubscribed event |
| `Users.UserEntity.Restore` | app/domain/entities/users.py:102-113 | fails on a live user with nothing changed; otherwise clears is_deleted and deleted_at and appends one restore event |
| `Users.UserEntity.ConfirmLogin` | app/domain/entities/users.py:115-124 | always succeeds, changes no field and appends one LoginConfirmed event |
| `Users.UserEntity.Delete` | app/domain/entities/users.py:126-137 | fails on a deleted user with nothing changed; otherwise sets is_deleted and a deletion time and appends one Deleted event |
| `Users.UserEntity.RegisterEvent` | app/domain/entities/users.py:69-75 | appends the event to the end of the pending list and changes nothing else |
| `Users.UserEntity.PullEvents` | app/logic/commands/users.py:48 | hands over the pending events in order and leaves the list empty |
| `Commands.AddKeepsInvariant` | app/logic/commands/users.py:35-47 | adding a user whose email and username are not taken keeps every email and username unique |
| `Commands.StoreKeepsInvariant` | app/logic/commands/users.py:68-76 | writing back a user whose name is unchanged or not in use keeps the repository invariant |
| `Commands.ApplyStoreKeepsInvariant` | app/logic/commands/users.py:115-182 | storing the result of any operation other than a username change keeps the repository invariant |
| `Commands.UserCommandHandlers.Perform` | app/logic/commands/users.py:115-182 | runs the entity method for the operation, which changes the entity as `Apply` says and records `Emitted` on success, or fails and changes nothing |
| `Commands.UserCommandHandlers.CreateUser` | app/logic/commands/users.py:29-50 | an invalid username, then an invalid email, then a taken email or username fails with nothing stored or published; otherwise the created user is stored and exactly its creation events are published |
| `Commands.UserCommandHandlers.ChangeUsername` | app/logic/commands/users.py:63-77 | not found fails; the current name is a no-op; a name already in use fails before validation; an invalid name fails; otherwise the entity rule decides, and on success the user is stored and its one event published |
| `Commands.UserCommandHandlers.ChangePassword` | app/logic/commands/users.py:91-101 | not found fails; a wrong old password fails with InvalidCredentials and changes nothing; otherwise the new password is stored and its event published |
| `Commands.UserCommandHandlers.SubscribeToEmailSender` | app/logic/commands/users.py:115-122 | not found or an entity rule violation changes nothing and publishes nothing; otherwise the subscribed user is stored, then its event published |
| `Commands.UserCommandHandlers.UnsubscribeFromEmailSender` | app/logic/commands/users.py:136-143 | same shape for unsubscribing |
| `Commands.UserCommandHandlers.RestoreUser` | app/logic/commands/users.py:155-162 | same shape for restoring; restoring a live user fails with the entity's UserNotDeleted and changes nothing |
| `Commands.UserCommandHandlers.DeleteUser` | app/logic/commands/users.py:174-182 | same shape for the soft delete |
| `Scheduler.UtcHour` | app/infrastructure/services/smtp/scheduler/scheduler.py:79-88 | the UTC hour lies in 0..23 and differs from local hour + N by a whole number of days |
| `Scheduler.TriggerTime` | app/infrastructure/services/smtp/scheduler/scheduler.py:79-96 | for zone Etc/GMT+N the job fires at (H + N) mod 24, for Etc/GMT-N at (H - N) mod 24, at the configured minute |
| `Scheduler.TriggerTimeEast` | app/infrastructure/services/smtp/scheduler/scheduler.py:79-96 | with send time 07:00 a UTC+03:00 user (Etc/GMT-3) fires at 04:00 UTC, minute 0 |
| `Scheduler.TriggerTimeWest` | app/infrastructure/services/smtp/scheduler/scheduler.py:79-96 | with send time 07:00 a UTC-05:00 user (Etc/GMT+5) fires at 12:00 UTC, minute 0 |
| `Scheduler.JobFor` | app/infrastructure/services/smtp/scheduler/scheduler.py:79-96 | the job goes to the given user, at an hour in 0..23 and at the configured minute |
| `Scheduler.DecodeRecipient` | app/infrastructure/services/smtp/scheduler/scheduler.py:112-119 | a subscribe message is accepted iff it has all four keys and valid email, username and zone, and then the recipient is built from exactly those four fields; otherwise the error is, in order, a missing user_oid, a missing then invalid email, a missing then invalid username, a missing then invalid zone |
| `Scheduler.SubscribedJob` | app/infrastructure/services/smtp/scheduler/scheduler.py:112-120 | a decoded subscribe message adds, under the next id, a job mailing the message's email and username at the UTC hour its zone gives and the configured minute, and maps the message's oid to it |
| `Scheduler.AddJobKeepsConsistent` | app/infrastructure/services/smtp/scheduler/scheduler.py:90-99 | adding a job adds exactly one job under a fresh id, points the user's entry at it, and keeps every entry naming a stored job |
| `Scheduler.ScheduleAllSplit` | app/infrastructure/services/smtp/scheduler/scheduler.py:76-99 | scheduling `a + b` gives the same table as scheduling `a` and then `b` |
| `Scheduler.ScheduleAllSnoc` | app/infrastructure/services/smtp/scheduler/scheduler.py:77-99 | scheduling the first i + 1 users is scheduling the first i and then adding user i's job |
| `Scheduler.ScheduleAllCount` | app/infrastructure/services/smtp/scheduler/scheduler.py:76-99 | scheduling n users adds exactly n jobs and keeps the table consistent |
| `Scheduler.ScheduleAllKeepsJobs` | app/infrastructure/services/smtp/scheduler/scheduler.py:76-99 | scheduling keeps every existing job and adds jobs only under the next n ids |
| `Scheduler.ScheduleAllInOrder` | app/infrastructure/services/smtp/scheduler/scheduler.py:77-98 | the i-th user's job is stored under the i-th fresh id, with that user's trigger time |
| `Scheduler.ScheduleAllLastWins` | app/infrastructure/services/smtp/scheduler/scheduler.py:99 | after scheduling, a listed user's entry is the job added for its last occurrence in the list; other entries are unchanged |
| `Scheduler.ResubscribeLeavesEarlierJob` | app/infrastructure/services/smtp/scheduler/scheduler.py:112-120 | re-subscribing a scheduled user adds a second job; the earlier job stays stored and no entry refers to it |
| `Scheduler.DuplicateSubscribeGivesTwoJobs` | app/infrastructure/services/smtp/scheduler/scheduler.py:112-120 | the same subscribe message applied twice leaves two new jobs, and the entry names only the second |
| `Scheduler.Remove` | app/infrastructure/services/smtp/scheduler/scheduler.py:122-126 | afterwards the user has no entry; every other entry is kept; no job is added or changed; a user without an entry leaves the table as it was |
| `Scheduler.Unsubscribed` | app/infrastructure/services/smtp/scheduler/scheduler.py:122-126 | a message without user_oid fails with MissingKey; success leaves the user without an entry and adds no job; the only other failure is a lookup of a job id the store lacks |
| `Scheduler.UnsubscribeConsistent` | app/infrastructure/services/smtp/scheduler/scheduler.py:122-126 | on a consistent table an unsubscribe with user_oid always succeeds and performs `Remove` |
| `Scheduler.UnsubscribeDangling` | app/infrastructure/services/smtp/scheduler/scheduler.py:124-126 | an entry naming a job the store lacks makes the unsubscribe fail with that id's lookup error and change nothing |
| `Scheduler.RemoveMapped` | app/infrastructure/services/smtp/scheduler/scheduler.py:122-126 | unsubscribing a mapped user removes exactly its job and its entry, leaves every other job and entry, and keeps the table consistent |
| `Scheduler.RemoveUnmapped` | app/infrastructure/services/smtp/scheduler/scheduler.py:124 | unsubscribing a user without an entry changes nothing |
| `Scheduler.SubscribeThenUnsubscribe` | app/infrastructure/services/smtp/scheduler/scheduler.py:112-126 | subscribing an unscheduled user and then unsubscribing it restores the original jobs and table |
| `Scheduler.ConsumeAllKeepsConsistent` | app/infrastructure/services/smtp/scheduler/scheduler.py:128-142 | consuming any run of messages keeps every entry naming a stored job |
| `Scheduler.Dispatch` | app/infrastructure/services/smtp/scheduler/scheduler.py:139-142 | only the two event topics can fail; a subscribe message succeeds iff it decodes, and then takes exactly one fresh job id |
| `Scheduler.ConsumeAllSplit` | app/infrastructure/services/smtp/scheduler/scheduler.py:135-142 | consuming `a + b` is consuming `a` and then, only if no message of `a` failed, consuming `b` |
| `Scheduler.OtherTopicsIgnored` | app/infrastructure/services/smtp/scheduler/scheduler.py:139-142 | a message on any other topic changes nothing |
| `Scheduler.StartFromFresh` | app/infrastructure/services/smtp/scheduler/scheduler.py:144-149 | starting a fresh scheduler gives a consistent table with exactly one job per subscribed user, in order |
| `Scheduler.EmailScheduler.constructor` | app/infrastructure/services/smtp/scheduler/scheduler.py:36-39 | the job table and the store start empty |
| `Scheduler.EmailScheduler.ScheduleUserReminders` | app/infrastructure/services/smtp/scheduler/scheduler.py:76-99 | the loop leaves the scheduler in the state `ScheduleAll` gives |
| `Scheduler.EmailScheduler.HandleUserSubscribed` | app/infrastructure/services/smtp/scheduler/scheduler.py:112-120 | a well-formed message adds the user's job; a missing key or invalid value fails and changes nothing |
| `Scheduler.EmailScheduler.HandleUserUnsubscribed` | app/infrastructure/services/smtp/scheduler/scheduler.py:122-126 | leaves the scheduler as `Unsubscribed` says: on a valid scheduler it removes the mapped job and entry if there is one, and a message without user_oid fails and changes nothing; validity is kept |
| `Scheduler.EmailScheduler.ConsumeUserEvents` | app/infrastructure/services/smtp/scheduler/scheduler.py:128-142 | dispatches each message by topic in turn and stops at the first failing one, reporting its error |
| `Scheduler.EmailScheduler.Start` | app/infrastructure/services/smtp/scheduler/scheduler.py:144-152 | on a scheduler that has scheduled nothing yet, schedules every subscribed user in order, as `ScheduleAll` says, and keeps the scheduler valid |
| `SingleUseCodes.Check` | app/infrastructure/services/otps/redis.py:26-37 | not found iff no code is stored for the email; matched iff the stored code equals the submitted one |
| `SingleUseCodes.AfterCheck` | app/infrastructure/services/otps/redis.py:28-39 | only a matching check changes the cache, by deleting that email's entry; no other key changes |
| `SingleUseCodes.DrawnCodes` | app/infrastructure/services/codes/redis.py:19 | every drawn number gives a six-digit code, and different draws give different codes |
| `SingleUseCodes.SingleUse` | app/infrastructure/services/otps/redis.py:17-39 | a freshly stored code checks out once; a second check right after finds nothing |
| `SingleUseCodes.OverwriteReplacesPending` | app/infrastructure/services/otps/redis.py:19 | storing a new code for an email replaces the pending one, so only the new code matches |
| `SingleUseCodes.MismatchKeepsPending` | app/infrastructure/services/otps/redis.py:31-37 | a wrong code leaves the pending code in place, and the right one still checks out afterwards |
| `Otps.RedisOtpService.GenerateOtp` | app/infrastructure/services/otps/redis.py:16-21 | returns a six-digit OTP and stores it under the user's email, overwriting any earlier one and touching no other key |
| `Otps.RedisOtpService.Validate` | app/infrastructure/services/otps/redis.py:23-39 | not found, then not equal, each leaving the cache unchanged; a match deletes just that email's entry |
| `Codes.RedisCodeService.GenerateCode` | app/infrastructure/services/codes/redis.py:16-22 | returns a six-digit code and stores it under the user's email, overwriting any earlier one and touching no other key |
| `Codes.RedisCodeService.Validate` | app/infrastructure/services/codes/redis.py:24-40 | not found, then not equal, each leaving the cache unchanged; a match deletes just that email's entry |
| `TableNames.Words` | app/infrastructure/models/common/base.py:18 | every match is an uppercase ASCII letter followed by lowercase letters or digits, and there are none iff the name has no uppercase letter |
| `TableNames.UppersFromMeaning` | app/infrastructure/models/common/base.py:18 | the positions where matches may start are exactly the uppercase letters of the name, in increasing order |
| `TableNames.WordsAtUppers` | app/infrastructure/models/common/base.py:18 | the k-th match starts at the k-th uppercase letter and runs to the end of the lowercase-or-digit run after it |
| `TableNames.WordsOfConcat` | app/infrastructure/models/common/base.py:18 | splitting a string made of such words gives back exactly those words |
| `TableNames.TableName` | app/infrastructure/models/common/base.py:14-22 | the table name always ends in "s" and holds only lowercase letters, digits and `_` |
| `TableNames.TableNameWithoutUpper` | app/infrastructure/models/common/base.py:16-21 | a class name without an uppercase letter yields "s" |
| `TableNames.UserModelTable` | app/infrastructure/models/common/base.py:12-22 | `UserModel` yields "users" ("model" is dropped) |
| `Converters.EntityToModel` | app/infrastructure/repositories/users/converters.py:6-16 | the row carries the entity's oid, email text, username text, password text, created_at, is_deleted, deleted_at and is_subscribed |
| `Converters.ModelToEntity` | app/infrastructure/repositories/users/converters.py:19-29 | loading fails with the email's error, then with the username's; a loaded password is marked hashed and the zone and update time take defaults |
| `Converters.EntityModelRoundTrip` | app/infrastructure/repositories/users/converters.py:6-29 | entity to row to entity keeps oid, email, username, password text, created_at, is_deleted, deleted_at and is_subscribed; the zone and updated_at are not carried |
| `Converters.ModelEntityRoundTrip` | app/infrastructure/repositories/users/converters.py:6-29 | a row that loads comes back unchanged when stored again |

## Left out

- HTTP routers, the application factory, lifespan hooks, the dependency container and the
  mediator's handler registry: request plumbing and wiring. Publishing is modelled as
  appending the pulled events to `published`.
- Kafka publishing and consuming, the apscheduler timers and the asynchronous execution
  of handlers are concurrency and I/O. Consuming is modelled as iterating over a finite
  sequence of messages. Each message value is a map of strings; malformed JSON and
  non-string JSON values are not modelled.
- Sending reminders (`send_reminder`, `build_message`), the SMTP senders, the mail
  templates, `print_scheduled_jobs` and `stop` are network I/O or output. A job records
  its firing time and its recipient only.
- Query handlers: read-only lookups with no logic of their own.
- Event ids and occurrence times (uuid and `datetime.now`) are not modelled. Timestamps and
  new user oids are parameters. `updated_at` is carried but never changed, as in the entity.
- Repository: its implementation is not part of this model. `get_by_oid` returns deleted
  users too. The existence check covers every stored user's email or username, and
  `get_existing_usernames` every stored username. `update`, `restore` and the soft `delete`
  store the entity's fields. Repository and broker failures are not modelled.
- `Commands.UserCommandHandlers.CreateUser`: requires the new oid not to be stored yet,
  standing for a fresh uuid.
- `Password` is not defined in the value-object file. It is modelled as its text plus a
  hashed flag. Its own validation is not modelled, and `check_password` compares through a
  hash function that the caller supplies.
- `Users.UserEntity.ChangePassword`: `change_password` is not defined in the entity file.
  It is modelled as replacing the password and recording `UserChangedPasswordEvent`,
  with no deletion guard.
- `Values.NewTimezone`: `\d` is taken as the ASCII digits. Python's pattern also accepts
  other Unicode decimal digits.
- `Scheduler.JobFor`: zone lookup (`as_timezone_type`, pytz) is not part of this model.
  The Etc/GMT rule is applied to any name `NewTimezone` accepts, although the zone
  database only names Etc/GMT-14 to Etc/GMT+12, written without leading zeros and without
  a trailing newline: "Etc/GMT+03" and "Etc/GMT+3\n" get jobs here but are unknown to it. The localized date plays no part, because Etc zones have no
  daylight saving time.
- `Scheduler.EmailScheduler.constructor`: the send time is given as an hour and minute in
  range. Parsing it with `strptime` is not modelled.
- Job ids are consecutive numbers instead of apscheduler's opaque ids. The consumer-loop
  job that `start` adds is not kept in the reminder job store.
- `Scheduler.EmailScheduler.Start`: requires a scheduler that has scheduled nothing yet,
  because the application starts it once, straight after constructing it
  (app/application/api/lifespan.py:21). A second `start`, which would leave the first
  apscheduler instance firing and `user_jobs` naming ids the new store lacks, is not modelled.
- Subscribed users at startup (`get_all_subscribed`) are passed to `Start`, each with a
  zone that passes `NewTimezone`.
- The default zone: in the source the entity's default zone is the plain string
  `"Etc/GMT+3"` (app/domain/entities/users.py:22), and `convert_user_model_to_entity`
  passes no zone, so every loaded entity carries that string. `as_timezone_type`, which
  scheduler.py:84 calls, is not defined on the zone value object, and `as_generic_type` on
  a string fails too. The model makes the default a valid `UserTimezone`, so scheduling a
  loaded user and the subscribe event of a loaded user succeed here, where the source
  raises `AttributeError`.
- Redis stores bytes. The model keeps the decoded strings.
