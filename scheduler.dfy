/**
 * The reminder scheduler of app/infrastructure/services/smtp/scheduler/scheduler.py.
 *
 * The scheduler keeps a job store (`jobs`, what apscheduler holds) and a table
 * `user_jobs` from user oid to the id of that user's reminder job. Subscribe messages
 * add a daily job at the UTC time of the configured local send time in the user's
 * Etc/GMT zone; unsubscribe messages remove the job the table names.
 *
 * `Table` is the state as a value and the functions over it say what each step does;
 * the class `EmailScheduler` is proved to follow them.
 */
module Scheduler {
  import opened Wrappers
  import opened Values

  /** Job ids are opaque in the source; here each new job takes the next unused number. */
  type JobId = nat

  /** The user a reminder job is for (the job's `args=[user]`). */
  datatype Recipient = Recipient(oid: string, email: UserEmail, username: Username, timezone: UserTimezone)

  /** A daily cron job firing at `hour`:`minute` UTC. */
  datatype Job = Job(hour: int, minute: int, recipient: Recipient)

  datatype Table = Table(jobs: map<JobId, Job>, userJobs: map<string, JobId>, nextId: JobId)

  /** The configured local send time ("%H:%M"). */
  datatype SendTime = SendTime(hour: int, minute: int)

  predicate ValidSendTime(st: SendTime) {
    0 <= st.hour < 24 && 0 <= st.minute < 60
  }

  datatype Config = Config(sendTime: SendTime, subscribedTopic: string, unsubscribedTopic: string)

  /** A consumed message: its topic and its decoded JSON object. */
  datatype Message = Message(topic: string, value: map<string, string>)

  /**
   * Why a message failed: a missing key, an invalid value, or `remove_job` not finding
   * the job a table entry names (apscheduler's JobLookupError).
   */
  datatype ConsumeError = MissingKey(key: string) | InvalidField(reason: ValueError) | JobLookupError(id: JobId)

  /**
   * Every id is below the next fresh id, every id in the table names a stored job,
   * and no two users share a job id.
   */
  ghost predicate Consistent(t: Table) {
    (forall id | id in t.jobs :: id < t.nextId)
    && (forall oid | oid in t.userJobs :: t.userJobs[oid] in t.jobs)
    && (forall a, b | a in t.userJobs && b in t.userJobs && a != b :: t.userJobs[a] != t.userJobs[b])
  }

  /**
   * The UTC hour of local hour `hour` in zone Etc/GMT`n` (signed). In the tz database's
   * "etcetera" names, Etc/GMT+N is N hours behind UTC, so UTC = local + n, taken mod 24.
   */
  function UtcHour(hour: int, n: int): (h: int)
    ensures 0 <= h < 24
    ensures exists days :: hour + n == h + 24 * days
  {
    var h := (hour + n) % 24;
    assert hour + n == h + 24 * ((hour + n) / 24);
    h
  }

  /** The job `schedule_user_reminders` adds for one user. */
  function JobFor(r: Recipient, st: SendTime): (j: Job)
    requires ValidTimezone(r.timezone)
    ensures 0 <= j.hour < 24 && j.minute == st.minute
    ensures j.recipient == r
  {
    Job(UtcHour(st.hour, EtcGmtNumber(r.timezone.value).value), st.minute, r)
  }

  predicate AllValidZones(users: seq<Recipient>) {
    forall r | r in users :: ValidTimezone(r.timezone)
  }

  /** One `add_job` followed by `user_jobs[user.oid] = job.id`. */
  function AddJob(t: Table, r: Recipient, st: SendTime): Table
    requires ValidTimezone(r.timezone)
  {
    Table(t.jobs[t.nextId := JobFor(r, st)], t.userJobs[r.oid := t.nextId], t.nextId + 1)
  }

  /** `schedule_user_reminders(users)`: one AddJob per user, in list order. */
  function ScheduleAll(t: Table, users: seq<Recipient>, st: SendTime): Table
    requires AllValidZones(users)
    decreases |users|
  {
    if users == [] then t else ScheduleAll(AddJob(t, users[0], st), users[1..], st)
  }

  /** `_handle_user_unsubscribed` on the user's oid: drop the mapped job and the entry, if there is one. */
  function Remove(t: Table, oid: string): (r: Table)
    ensures oid !in r.userJobs && r.nextId == t.nextId
    ensures forall o | o in t.userJobs && o != oid :: o in r.userJobs && r.userJobs[o] == t.userJobs[o]
    ensures forall j | j in r.jobs :: j in t.jobs && r.jobs[j] == t.jobs[j]
    ensures oid !in t.userJobs ==> r == t
  {
    if oid in t.userJobs then
      Table(t.jobs - {t.userJobs[oid]}, t.userJobs - {oid}, t.nextId)
    else
      t
  }

  /**
   * The user a subscribe message describes: `user_oid`, then `email` (validated), then
   * `username` (validated), then `user_timezone` (validated); the first missing key or
   * invalid value is the error.
   */
  function DecodeRecipient(v: map<string, string>): (r: Result<Recipient, ConsumeError>)
    ensures r.Ok? <==>
      "user_oid" in v && "email" in v && "username" in v && "user_timezone" in v &&
      NewEmail(v["email"]).Ok? && NewUsername(v["username"]).Ok? && NewTimezone(v["user_timezone"]).Ok?
    ensures r.Ok? ==> r.value == Recipient(v["user_oid"], UserEmail(v["email"]), Username(v["username"]), UserTimezone(v["user_timezone"]))
    ensures r.Ok? ==> ValidTimezone(r.value.timezone)
    ensures "user_oid" !in v ==> r == Err(MissingKey("user_oid"))
    ensures "user_oid" in v && "email" !in v ==> r == Err(MissingKey("email"))
    ensures "user_oid" in v && "email" in v && NewEmail(v["email"]).Err? ==> r == Err(InvalidField(NewEmail(v["email"]).error))
    ensures "user_oid" in v && "email" in v && NewEmail(v["email"]).Ok? ==>
      ("username" !in v ==> r == Err(MissingKey("username"))) &&
      ("username" in v && NewUsername(v["username"]).Err? ==> r == Err(InvalidField(NewUsername(v["username"]).error))) &&
      ("username" in v && NewUsername(v["username"]).Ok? && "user_timezone" !in v ==> r == Err(MissingKey("user_timezone"))) &&
      ("username" in v && NewUsername(v["username"]).Ok? && "user_timezone" in v && NewTimezone(v["user_timezone"]).Err? ==>
        r == Err(InvalidField(NewTimezone(v["user_timezone"]).error)))
  {
    if "user_oid" !in v then Err(MissingKey("user_oid"))
    else if "email" !in v then Err(MissingKey("email"))
    else if NewEmail(v["email"]).Err? then Err(InvalidField(NewEmail(v["email"]).error))
    else if "username" !in v then Err(MissingKey("username"))
    else if NewUsername(v["username"]).Err? then Err(InvalidField(NewUsername(v["username"]).error))
    else if "user_timezone" !in v then Err(MissingKey("user_timezone"))
    else if NewTimezone(v["user_timezone"]).Err? then Err(InvalidField(NewTimezone(v["user_timezone"]).error))
    else Ok(Recipient(v["user_oid"], UserEmail(v["email"]), Username(v["username"]), UserTimezone(v["user_timezone"])))
  }

  /** `_handle_user_subscribed`. */
  function Subscribed(t: Table, v: map<string, string>, st: SendTime): Result<Table, ConsumeError> {
    match DecodeRecipient(v)
    case Err(e) => Err(e)
    case Ok(r) => Ok(AddJob(t, r, st))
  }

  /**
   * A subscribe message that decodes adds, under the next id, a job that mails the
   * message's user at the UTC hour its zone gives, and points the message's oid at it.
   */
  lemma SubscribedJob(t: Table, v: map<string, string>, st: SendTime)
    requires Subscribed(t, v, st).Ok?
    ensures var t' := Subscribed(t, v, st).value;
      t.nextId in t'.jobs && t'.userJobs[v["user_oid"]] == t.nextId &&
      t'.jobs[t.nextId].recipient.email.value == v["email"] &&
      t'.jobs[t.nextId].recipient.username.value == v["username"] &&
      t'.jobs[t.nextId].hour == UtcHour(st.hour, EtcGmtNumber(v["user_timezone"]).value) &&
      t'.jobs[t.nextId].minute == st.minute
  {
    var r := DecodeRecipient(v).value;
    assert r.timezone.value == v["user_timezone"];
  }

  /**
   * `_handle_user_unsubscribed`: `remove_job` raises before the entry is deleted when the
   * store has no job under the entry's id.
   */
  function Unsubscribed(t: Table, v: map<string, string>): (r: Result<Table, ConsumeError>)
    ensures "user_oid" !in v ==> r == Err(MissingKey("user_oid"))
    ensures r.Ok? ==> v["user_oid"] !in r.value.userJobs && r.value.jobs.Keys <= t.jobs.Keys
    ensures r.Err? ==> r.error.MissingKey? || (r.error.JobLookupError? && r.error.id !in t.jobs)
  {
    if "user_oid" !in v then Err(MissingKey("user_oid"))
    else if v["user_oid"] in t.userJobs && t.userJobs[v["user_oid"]] !in t.jobs then
      Err(JobLookupError(t.userJobs[v["user_oid"]]))
    else Ok(Remove(t, v["user_oid"]))
  }

  /** The topic dispatch of `consume_user_event` for one message. */
  function Dispatch(t: Table, m: Message, c: Config): (r: Result<Table, ConsumeError>)
    ensures r.Err? ==> m.topic == c.subscribedTopic || m.topic == c.unsubscribedTopic
    ensures m.topic == c.subscribedTopic ==> (r.Ok? <==> DecodeRecipient(m.value).Ok?)
    ensures m.topic == c.subscribedTopic && r.Ok? ==> r.value.nextId == t.nextId + 1
  {
    if m.topic == c.subscribedTopic then Subscribed(t, m.value, c.sendTime)
    else if m.topic == c.unsubscribedTopic then Unsubscribed(t, m.value)
    else Ok(t)
  }

  /**
   * `consume_user_event` over a finite run of messages: each is dispatched in turn; the
   * first failing message ends the loop with its error (the exception leaves the loop).
   */
  function ConsumeAll(t: Table, ms: seq<Message>, c: Config): (Table, Option<ConsumeError>)
    decreases |ms|
  {
    if ms == [] then (t, None)
    else
      match Dispatch(t, ms[0], c)
      case Err(e) => (t, Some(e))
      case Ok(t') => ConsumeAll(t', ms[1..], c)
  }

  // ---------------------------------------------------------------- properties

  /** Etc/GMT+N fires at (H + N) mod 24 UTC and Etc/GMT-N at (H - N) mod 24; the minute is the configured one. */
  lemma TriggerTime(r: Recipient, st: SendTime, sign: char, digits: string, newline: bool)
    requires ZoneParts(sign, digits) && r.timezone.value == ZoneName(sign, digits, newline)
    ensures ValidTimezone(r.timezone)
    ensures sign == '+' ==> JobFor(r, st).hour == (st.hour + Decimal.Value(digits)) % 24
    ensures sign == '-' ==> JobFor(r, st).hour == (st.hour - Decimal.Value(digits)) % 24
    ensures JobFor(r, st).minute == st.minute
  {
    EtcGmtNumberOf(sign, digits, newline);
  }

  /** A UTC+03:00 user (zone Etc/GMT-3) with send time 07:00 fires at 04:00 UTC. */
  lemma TriggerTimeEast(r: Recipient)
    requires r.timezone == UserTimezone("Etc/GMT-3")
    ensures ValidTimezone(r.timezone) && JobFor(r, SendTime(7, 0)) == Job(4, 0, r)
  {
    assert Decimal.Value("3") == 3 by { assert "3"[..0] == []; }
    assert ZoneName('-', "3", false) == "Etc/GMT-3";
    TriggerTime(r, SendTime(7, 0), '-', "3", false);
  }

  /** A UTC-05:00 user (zone Etc/GMT+5) with send time 07:00 fires at 12:00 UTC. */
  lemma TriggerTimeWest(r: Recipient)
    requires r.timezone == UserTimezone("Etc/GMT+5")
    ensures ValidTimezone(r.timezone) && JobFor(r, SendTime(7, 0)) == Job(12, 0, r)
  {
    assert Decimal.Value("5") == 5 by { assert "5"[..0] == []; }
    assert ZoneName('+', "5", false) == "Etc/GMT+5";
    TriggerTime(r, SendTime(7, 0), '+', "5", false);
  }

  /** Adding a job adds exactly one new job, points the user at it, and keeps the table consistent. */
  lemma {:induction false} AddJobKeepsConsistent(t: Table, r: Recipient, st: SendTime)
    requires Consistent(t) && ValidTimezone(r.timezone)
    ensures var t' := AddJob(t, r, st);
      Consistent(t') && t.nextId !in t.jobs && |t'.jobs| == |t.jobs| + 1 &&
      t'.jobs[t.nextId] == JobFor(r, st) && t'.userJobs[r.oid] == t.nextId
  {
    var t' := AddJob(t, r, st);
    assert t.nextId !in t.jobs;
    forall a, b | a in t'.userJobs && b in t'.userJobs && a != b
      ensures t'.userJobs[a] != t'.userJobs[b]
    {
      if a != r.oid && b != r.oid {
        assert t'.userJobs[a] == t.userJobs[a] && t'.userJobs[b] == t.userJobs[b];
      } else if a == r.oid {
        assert t.userJobs[b] in t.jobs;
      } else {
        assert t.userJobs[a] in t.jobs;
      }
    }
  }

  /** Scheduling `a + b` is scheduling `a` and then `b`: users are handled one after another. */
  lemma {:induction false} ScheduleAllSplit(t: Table, a: seq<Recipient>, b: seq<Recipient>, st: SendTime)
    requires AllValidZones(a) && AllValidZones(b)
    ensures AllValidZones(a + b)
    ensures ScheduleAll(t, a + b, st) == ScheduleAll(ScheduleAll(t, a, st), b, st)
    decreases |a|
  {
    if a == [] {
      assert a + b == b;
    } else {
      assert (a + b)[0] == a[0] && (a + b)[1..] == a[1..] + b;
      ScheduleAllHead(t, a, st);
      ScheduleAllHead(t, a + b, st);
      var t1 := AddJob(t, a[0], st);
      calc {
        ScheduleAll(t, a + b, st);
        ScheduleAll(t1, a[1..] + b, st);
        { ScheduleAllSplit(t1, a[1..], b, st); }
        ScheduleAll(ScheduleAll(t1, a[1..], st), b, st);
        ScheduleAll(ScheduleAll(t, a, st), b, st);
      }
    }
  }

  /** Scheduling one more user adds that user's job to what scheduling the earlier ones gave. */
  lemma ScheduleAllSnoc(t: Table, users: seq<Recipient>, st: SendTime, i: nat)
    requires AllValidZones(users) && i < |users|
    ensures AllValidZones(users[..i]) && AllValidZones(users[..i + 1])
    ensures ScheduleAll(t, users[..i + 1], st) == AddJob(ScheduleAll(t, users[..i], st), users[i], st)
  {
    var u := users[i];
    assert users[..i + 1] == users[..i] + [u];
    assert AllValidZones([u]);
    ScheduleAllSplit(t, users[..i], [u], st);
    assert [u][1..] == [];
  }

  /** `schedule_user_reminders` keeps the table consistent and adds exactly one job per user. */
  lemma {:induction false} ScheduleAllCount(t: Table, users: seq<Recipient>, st: SendTime)
    requires Consistent(t) && AllValidZones(users)
    ensures var t' := ScheduleAll(t, users, st);
      Consistent(t') && t'.nextId == t.nextId + |users| && |t'.jobs| == |t.jobs| + |users|
    decreases |users|
  {
    if users != [] {
      AddJobKeepsConsistent(t, users[0], st);
      ScheduleAllCount(AddJob(t, users[0], st), users[1..], st);
    }
  }

  /** Scheduling keeps every job already in the store, and adds jobs only under the next |users| ids. */
  lemma {:induction false} ScheduleAllKeepsJobs(t: Table, users: seq<Recipient>, st: SendTime)
    requires (forall id | id in t.jobs :: id < t.nextId) && AllValidZones(users)
    ensures var t' := ScheduleAll(t, users, st);
      (forall id | id in t.jobs :: id in t'.jobs && t'.jobs[id] == t.jobs[id]) &&
      (forall id | id in t'.jobs :: id in t.jobs || t.nextId <= id < t.nextId + |users|)
    decreases |users|
  {
    if users != [] {
      ScheduleAllKeepsJobs(AddJob(t, users[0], st), users[1..], st);
    }
  }

  /** Scheduling a non-empty list is adding the first user's job, then scheduling the rest. */
  lemma ScheduleAllHead(t: Table, users: seq<Recipient>, st: SendTime)
    requires AllValidZones(users) && users != []
    ensures AllValidZones(users[1..])
    ensures ScheduleAll(t, users, st) == ScheduleAll(AddJob(t, users[0], st), users[1..], st)
  {
    assert forall i | 0 <= i < |users| - 1 :: users[1..][i] == users[i + 1];
  }

  /** A job stored under an id below the next fresh id survives scheduling unchanged. */
  lemma {:induction false} ScheduleAllKeepsJob(t: Table, users: seq<Recipient>, st: SendTime, id: JobId)
    requires id in t.jobs && id < t.nextId && AllValidZones(users)
    ensures var t' := ScheduleAll(t, users, st);
      id in t'.jobs && t'.jobs[id] == t.jobs[id]
    decreases |users|
  {
    if users != [] {
      assert AllValidZones(users[1..]);
      ScheduleAllKeepsJob(AddJob(t, users[0], st), users[1..], st, id);
    }
  }

  /** The first user's job is stored under the first fresh id. */
  lemma ScheduleAllFirst(t: Table, users: seq<Recipient>, st: SendTime)
    requires AllValidZones(users) && users != []
    ensures var t' := ScheduleAll(t, users, st);
      t.nextId in t'.jobs && t'.jobs[t.nextId] == JobFor(users[0], st)
  {
    ScheduleAllHead(t, users, st);
    ScheduleAllKeepsJob(AddJob(t, users[0], st), users[1..], st, t.nextId);
  }

  /** The i-th user's job is stored under the i-th fresh id: jobs are added in list order. */
  lemma {:induction false} ScheduleAllInOrder(t: Table, users: seq<Recipient>, st: SendTime, i: nat, id: JobId)
    requires AllValidZones(users) && i < |users| && id == t.nextId + i
    ensures var t' := ScheduleAll(t, users, st);
      id in t'.jobs && t'.jobs[id] == JobFor(users[i], st)
    decreases |users|
  {
    if i == 0 {
      ScheduleAllFirst(t, users, st);
    } else {
      ScheduleAllHead(t, users, st);
      ScheduleAllInOrder(AddJob(t, users[0], st), users[1..], st, i - 1, id);
      assert users[1..][i - 1] == users[i];
    }
  }

  /** The index of the last user in `users` with oid `oid`, if any. */
  function LastIndexOf(users: seq<Recipient>, oid: string): (k: int)
    ensures -1 <= k < |users|
    ensures k >= 0 ==> users[k].oid == oid
    ensures forall i :: k < i < |users| ==> users[i].oid != oid
  {
    if users == [] then -1
    else if users[|users| - 1].oid == oid then |users| - 1
    else LastIndexOf(users[..|users| - 1], oid)
  }

  /**
   * After scheduling, a listed user's table entry is the id of the job added for that
   * user's LAST occurrence in the list; unlisted users keep their entries.
   */
  lemma {:induction false} ScheduleAllLastWins(t: Table, users: seq<Recipient>, st: SendTime, oid: string)
    requires AllValidZones(users)
    ensures var t' := ScheduleAll(t, users, st);
      var k := LastIndexOf(users, oid);
      (k >= 0 ==> oid in t'.userJobs && t'.userJobs[oid] == t.nextId + k) &&
      (k < 0 ==> (oid in t'.userJobs <==> oid in t.userJobs) && (oid in t.userJobs ==> t'.userJobs[oid] == t.userJobs[oid]))
    decreases |users|
  {
    if users != [] {
      var t1 := AddJob(t, users[0], st);
      ScheduleAllLastWins(t1, users[1..], st, oid);
      var k := LastIndexOf(users, oid);
      var k1 := LastIndexOf(users[1..], oid);
      if k1 >= 0 {
        assert users[1..][k1] == users[k1 + 1];
        assert k == k1 + 1;
      } else {
        forall i | 1 <= i < |users| ensures users[i].oid != oid {
          assert users[i] == users[1..][i - 1];
        }
        assert k == (if users[0].oid == oid then 0 else -1);
      }
    }
  }

  /**
   * Re-subscribing a user that already has a job adds a second job and repoints the
   * entry; the earlier job stays in the store with nothing referring to it.
   */
  lemma ResubscribeLeavesEarlierJob(t: Table, r: Recipient, st: SendTime)
    requires Consistent(t) && ValidTimezone(r.timezone) && r.oid in t.userJobs
    ensures var t' := AddJob(t, r, st);
      var earlier := t.userJobs[r.oid];
      earlier in t'.jobs && t'.jobs[earlier] == t.jobs[earlier] &&
      |t'.jobs| == |t.jobs| + 1 &&
      (forall oid | oid in t'.userJobs :: t'.userJobs[oid] != earlier)
  {
    AddJobKeepsConsistent(t, r, st);
  }

  /** The same subscribe message applied twice to an unscheduled user leaves two jobs, one referenced. */
  lemma DuplicateSubscribeGivesTwoJobs(t: Table, v: map<string, string>, st: SendTime)
    requires Consistent(t) && DecodeRecipient(v).Ok? && v["user_oid"] !in t.userJobs
    ensures Subscribed(t, v, st).Ok? && Subscribed(Subscribed(t, v, st).value, v, st).Ok?
    ensures var t2 := Subscribed(Subscribed(t, v, st).value, v, st).value;
      |t2.jobs| == |t.jobs| + 2 && t2.userJobs[v["user_oid"]] == t.nextId + 1 && t.nextId in t2.jobs
  {
    var r := DecodeRecipient(v).value;
    AddJobKeepsConsistent(t, r, st);
    AddJobKeepsConsistent(AddJob(t, r, st), r, st);
  }

  /** Unsubscribing a mapped user removes exactly its job and its entry; everything else stays. */
  lemma {:induction false} RemoveMapped(t: Table, oid: string)
    requires Consistent(t) && oid in t.userJobs
    ensures var t' := Remove(t, oid);
      var id := t.userJobs[oid];
      Consistent(t') && t'.jobs.Keys == t.jobs.Keys - {id} && oid !in t'.userJobs &&
      (forall j | j in t'.jobs :: t'.jobs[j] == t.jobs[j]) &&
      (forall o | o in t.userJobs && o != oid :: o in t'.userJobs && t'.userJobs[o] == t.userJobs[o])
  {
    var t' := Remove(t, oid);
    var id := t.userJobs[oid];
    forall o | o in t'.userJobs ensures t'.userJobs[o] in t'.jobs {
      assert t.userJobs[o] != id;
    }
  }

  /** Unsubscribing a user with no entry changes nothing. */
  lemma RemoveUnmapped(t: Table, oid: string)
    requires oid !in t.userJobs
    ensures Remove(t, oid) == t
  {
  }

  /** Subscribing an unscheduled user and then unsubscribing it gives back the original jobs and table. */
  lemma {:induction false} SubscribeThenUnsubscribe(t: Table, r: Recipient, st: SendTime)
    requires Consistent(t) && ValidTimezone(r.timezone) && r.oid !in t.userJobs
    ensures Remove(AddJob(t, r, st), r.oid) == t.(nextId := t.nextId + 1)
  {
    var t1 := AddJob(t, r, st);
    assert t.nextId !in t.jobs;
    assert t1.jobs - {t.nextId} == t.jobs;
    assert t1.userJobs - {r.oid} == t.userJobs;
  }

  /** Every message step, successful or not, leaves a consistent table consistent. */
  lemma {:induction false} ConsumeAllKeepsConsistent(t: Table, ms: seq<Message>, c: Config)
    requires Consistent(t)
    ensures Consistent(ConsumeAll(t, ms, c).0)
    decreases |ms|
  {
    if ms != [] {
      match Dispatch(t, ms[0], c)
      case Err(_) =>
      case Ok(t') =>
        if ms[0].topic == c.subscribedTopic {
          AddJobKeepsConsistent(t, DecodeRecipient(ms[0].value).value, c.sendTime);
        } else if ms[0].topic == c.unsubscribedTopic {
          if ms[0].value["user_oid"] in t.userJobs {
            RemoveMapped(t, ms[0].value["user_oid"]);
          }
        }
        ConsumeAllKeepsConsistent(t', ms[1..], c);
    }
  }

  /** On a consistent table an unsubscribe message with a `user_oid` never fails: it is `Remove`. */
  lemma UnsubscribeConsistent(t: Table, v: map<string, string>)
    requires Consistent(t) && "user_oid" in v
    ensures Unsubscribed(t, v) == Ok(Remove(t, v["user_oid"]))
  {
  }

  /** An entry naming a job the store lacks makes the unsubscribe fail and leaves the table as it was. */
  lemma UnsubscribeDangling(t: Table, v: map<string, string>)
    requires "user_oid" in v && v["user_oid"] in t.userJobs && t.userJobs[v["user_oid"]] !in t.jobs
    ensures Unsubscribed(t, v) == Err(JobLookupError(t.userJobs[v["user_oid"]]))
  {
  }

  /**
   * Consuming `a + b` is consuming `a` and then, only if no message of `a` failed,
   * consuming `b`: messages are handled one after another and a failure ends the run.
   */
  lemma {:induction false} ConsumeAllSplit(t: Table, a: seq<Message>, b: seq<Message>, c: Config)
    ensures var (t1, e1) := ConsumeAll(t, a, c);
      ConsumeAll(t, a + b, c) == if e1.None? then ConsumeAll(t1, b, c) else (t1, e1)
    decreases |a|
  {
    if a == [] {
      assert a + b == b;
    } else {
      assert (a + b)[0] == a[0] && (a + b)[1..] == a[1..] + b;
      match Dispatch(t, a[0], c)
      case Err(_) =>
      case Ok(t') => ConsumeAllSplit(t', a[1..], b, c);
    }
  }

  /** Messages on any other topic are ignored. */
  lemma OtherTopicsIgnored(t: Table, m: Message, c: Config)
    requires m.topic != c.subscribedTopic && m.topic != c.unsubscribedTopic
    ensures Dispatch(t, m, c) == Ok(t)
  {
  }

  class EmailScheduler {
    const config: Config
    /** The reminder jobs in the job store. */
    var jobs: map<JobId, Job>
    /** `user_jobs`: user oid to the id of its reminder job. */
    var userJobs: map<string, JobId>
    var nextJobId: JobId

    function Snapshot(): Table
      reads this
    {
      Table(jobs, userJobs, nextJobId)
    }

    /** Every table entry names a stored job, and no job is shared. */
    ghost predicate Valid()
      reads this
    {
      Consistent(Snapshot())
    }

    /** `__post_init__`: the table starts empty. */
    constructor (config: Config)
      requires ValidSendTime(config.sendTime)
      ensures this.config == config && Snapshot() == Table(map[], map[], 0) && Valid()
    {
      this.config := config;
      jobs := map[];
      userJobs := map[];
      nextJobId := 0;
    }

    /** `scheduler.add_job`: stores the job under a fresh id and returns the id. */
    method AddJobToStore(job: Job) returns (id: JobId)
      modifies this`jobs, this`nextJobId
      ensures id == old(nextJobId) && jobs == old(jobs)[id := job] && nextJobId == id + 1
    {
      id := nextJobId;
      jobs := jobs[id := job];
      nextJobId := nextJobId + 1;
    }

    method ScheduleUserReminders(users: seq<Recipient>)
      requires Valid() && AllValidZones(users)
      modifies this
      ensures Snapshot() == ScheduleAll(old(Snapshot()), users, config.sendTime)
      ensures Valid()
    {
      var i := 0;
      while i < |users|
        invariant 0 <= i <= |users|
        invariant AllValidZones(users[..i])
        invariant Snapshot() == ScheduleAll(old(Snapshot()), users[..i], config.sendTime)
      {
        var user := users[i];
        ScheduleAllSnoc(old(Snapshot()), users, config.sendTime, i);
        ghost var next := AddJob(Snapshot(), user, config.sendTime);
        var id := AddJobToStore(JobFor(user, config.sendTime));
        userJobs := userJobs[user.oid := id];
        assert jobs == next.jobs && userJobs == next.userJobs && nextJobId == next.nextId;
        i := i + 1;
      }
      assert users[..i] == users;
      ScheduleAllCount(old(Snapshot()), users, config.sendTime);
    }

    method HandleUserSubscribed(v: map<string, string>) returns (r: Outcome<ConsumeError>)
      requires Valid()
      modifies this
      ensures Valid()
      ensures match Subscribed(old(Snapshot()), v, config.sendTime)
        case Ok(t) => r == Pass && Snapshot() == t
        case Err(e) => r == Fail(e) && Snapshot() == old(Snapshot())
    {
      var d := DecodeRecipient(v);
      if d.Err? { return Fail(d.error); }
      ScheduleUserReminders([d.value]);
      r := Pass;
    }

    method HandleUserUnsubscribed(v: map<string, string>) returns (r: Outcome<ConsumeError>)
      requires Valid()
      modifies this
      ensures Valid()
      ensures match Unsubscribed(old(Snapshot()), v)
        case Ok(t) => r == Pass && Snapshot() == t
        case Err(e) => r == Fail(e) && Snapshot() == old(Snapshot())
    {
      if "user_oid" !in v { return Fail(MissingKey("user_oid")); }
      var oid := v["user_oid"];
      if oid in userJobs {
        RemoveMapped(Snapshot(), oid);
        jobs := jobs - {userJobs[oid]};
        userJobs := userJobs - {oid};
      }
      r := Pass;
    }

    /** `consume_user_event` over the messages `ms`; the result is the error that stopped it, if any. */
    method ConsumeUserEvents(ms: seq<Message>) returns (stopped: Option<ConsumeError>)
      requires Valid()
      modifies this
      ensures (Snapshot(), stopped) == ConsumeAll(old(Snapshot()), ms, config)
      ensures Valid()
    {
      var i := 0;
      while i < |ms|
        invariant 0 <= i <= |ms|
        invariant Valid()
        invariant ConsumeAll(Snapshot(), ms[i..], config) == ConsumeAll(old(Snapshot()), ms, config)
      {
        var m := ms[i];
        var r := Pass;
        if m.topic == config.subscribedTopic {
          r := HandleUserSubscribed(m.value);
        } else if m.topic == config.unsubscribedTopic {
          r := HandleUserUnsubscribed(m.value);
        }
        if r.Fail? { return Some(r.error); }
        assert ms[i..][1..] == ms[i + 1..];
        i := i + 1;
      }
      stopped := None;
    }

    /**
     * `start`: a new, empty job store, then one reminder per currently subscribed user
     * (`get_all_subscribed`, passed in). The application starts the scheduler once,
     * straight after constructing it, so nothing has been scheduled yet.
     */
    method Start(subscribed: seq<Recipient>)
      requires Valid() && jobs == map[] && userJobs == map[] && AllValidZones(subscribed)
      modifies this
      ensures Snapshot() == ScheduleAll(old(Snapshot()), subscribed, config.sendTime)
      ensures Valid()
    {
      jobs := map[];
      ScheduleUserReminders(subscribed);
    }
  }

  /** Starting a fresh scheduler gives a consistent table with exactly one job per listed user. */
  lemma StartFromFresh(subscribed: seq<Recipient>, st: SendTime)
    requires AllValidZones(subscribed)
    ensures var t := ScheduleAll(Table(map[], map[], 0), subscribed, st);
      Consistent(t) && |t.jobs| == |subscribed| &&
      (forall i | 0 <= i < |subscribed| :: i in t.jobs && t.jobs[i] == JobFor(subscribed[i], st))
  {
    ScheduleAllCount(Table(map[], map[], 0), subscribed, st);
    forall i | 0 <= i < |subscribed|
      ensures var t := ScheduleAll(Table(map[], map[], 0), subscribed, st);
        i in t.jobs && t.jobs[i] == JobFor(subscribed[i], st)
    {
      ScheduleAllInOrder(Table(map[], map[], 0), subscribed, st, i, i);
    }
  }
}
