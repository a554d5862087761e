/**
 What one login, refresh or logout leaves in the tables and answers, stated on the
 rows themselves and on the tokens issued.
 */
module SessionAnswers {
  import opened Wrappers
  import opened Sessions
  import opened SessionRuns

  // ----- login

  /** A login that is no customer's phone adds its row, in the table of its actor,
      and changes nothing else. */
  lemma PlainLogin(db: Db, l: Login)
    requires !(l.actor.Customer? && FromPhone(l))
    ensures var row := Session(l.userId, l.token, l.expiresAt, l.at, l.at, l.context, false, None);
      LoginDb(db, l) == if l.actor.Admin? then db.(adminSessions := db.adminSessions[l.sessionId := row])
                        else db.(customerSessions := db.customerSessions[l.sessionId := row])
  {
    MobileLoginsAreFromPhones(l);
  }

  /** The row of the phone: the one of this customer and installation, or a new one. */
  ghost predicate IsPhone(db: Db, l: Login, phone: string)
    requires l.device.Some?
  {
    if phone in db.devices
    then db.devices[phone].customerId == l.userId && db.devices[phone].deviceId == l.device.value.deviceId
    else
      && phone == l.newDeviceId
      && forall d :: d in db.devices ==>
        db.devices[d].customerId != l.userId || db.devices[d].deviceId != l.device.value.deviceId
  }

  /** An active device of the customer other than the phone. */
  predicate IsOtherActive(db: Db, l: Login, phone: string, d: string) {
    d != phone && d in db.devices && db.devices[d].customerId == l.userId && db.devices[d].isActive
  }

  lemma PhoneExists(db: Db, l: Login) returns (phone: string)
    requires l.device.Some? && l.newDeviceId !in db.devices
    ensures IsPhone(db, l, phone)
    ensures FindDevice(db.devices, l.userId, l.device.value.deviceId).GetOr(l.newDeviceId) == phone
    ensures FindDevice(db.devices, l.userId, l.device.value.deviceId).Some? <==> phone in db.devices
  {
    var found := FindDevice(db.devices, l.userId, l.device.value.deviceId);
    phone := found.GetOr(l.newDeviceId);
    if found.None? {
      forall d | d in db.devices
        ensures db.devices[d].customerId != l.userId || db.devices[d].deviceId != l.device.value.deviceId
      {
        assert !IsRowOf(db.devices, d, l.userId, l.device.value.deviceId);
      }
    }
  }

  /** A customer's phone login: what the device table holds after it. */
  ghost predicate PhoneDevices(db: Db, after: DeviceTable, l: Login, phone: string)
    requires l.device.Some?
  {
    var info := l.device.value;
    && after.Keys == db.devices.Keys + {phone}
    && after[phone] == (
      if phone in db.devices
      then db.devices[phone].(
        fcmToken := if info.fcmToken.None? then db.devices[phone].fcmToken else info.fcmToken,
        lastActiveAt := l.seen, updatedAt := l.seen, isActive := true)
      else Device(l.userId, info.deviceId, info.fcmToken, info.deviceType, info.deviceName,
                  true, l.seen, l.seen, l.seen))
    && forall d :: d in db.devices && d != phone ==>
      after[d] == if IsOtherActive(db, l, phone, d)
        then db.devices[d].(isActive := false, fcmToken := None, updatedAt := l.cut) else db.devices[d]
  }

  /** And what the session table holds: sessions on the customer's other active
      devices are gone, and if the phone had a live one all of its own are cut off. */
  ghost predicate PhoneSessions(db: Db, after: SessionTable, l: Login, phone: string) {
    var before := db.customerSessions;
    && l.sessionId in after
    && after[l.sessionId] == Session(l.userId, l.token, l.expiresAt, l.at, l.at, l.context, true, Some(phone))
    && forall id :: id != l.sessionId ==>
      && (id in after <==> id in before && StaysOn(db, l, phone, before[id]))
      && (id in after ==> after[id] == Cut(before, l, phone, before[id]))
  }

  predicate StaysOn(db: Db, l: Login, phone: string, session: Session) {
    session.userDeviceId.None? || !IsOtherActive(db, l, phone, session.userDeviceId.value)
  }

  ghost function Cut(before: SessionTable, l: Login, phone: string, session: Session): Session {
    if session.userDeviceId == Some(phone)
       && exists id :: id in before && before[id].userDeviceId == Some(phone) && before[id].expiresAt > l.seen
    then session.(expiresAt := l.cut, updatedAt := l.cut) else session
  }

  /** In every run a customer's login from a phone leaves these tables. */
  lemma PhoneLogin(run: seq<World>, i: nat, l: Login) returns (phone: string)
    requires IsRun(run) && i < |run| && Enabled(run[i], LoggedIn(l)) && l.actor.Customer? && FromPhone(l)
    ensures var db, after := run[i].db, LoginDb(run[i].db, l);
      && IsPhone(db, l, phone) && after.adminSessions == db.adminSessions
      && PhoneDevices(db, after.devices, l, phone) && PhoneSessions(db, after.customerSessions, l, phone)
  {
    var db := run[i].db;
    RunKeepsInv(run, i);
    MobileLoginsAreFromPhones(l);
    phone := PhoneExists(db, l);
    var found := FindDevice(db.devices, l.userId, l.device.value.deviceId);
    PhoneLoginDevices(db, l, phone, found);
    PhoneLoginSessions(db, l, phone, found);
  }

  lemma PhoneLoginDevices(db: Db, l: Login, phone: string, found: Option<string>)
    requires IsMobile(l) && l.actor.Customer? && IsPhone(db, l, phone) && l.newDeviceId !in db.devices
    requires found == (if phone in db.devices then Some(phone) else None)
    ensures PhoneDevices(db, MobileLoginDb(db, l, found).devices, l, phone)
  {
  }

  lemma PhoneLoginSessions(db: Db, l: Login, phone: string, found: Option<string>)
    requires IsMobile(l) && l.actor.Customer? && IsPhone(db, l, phone) && l.newDeviceId !in db.devices
    requires found == (if phone in db.devices then Some(phone) else None)
    requires forall id :: id in db.customerSessions ==> Seated(db, db.customerSessions[id])
    ensures PhoneSessions(db, MobileLoginDb(db, l, found).customerSessions, l, phone)
  {
    var before, after := db.customerSessions, MobileLoginDb(db, l, found).customerSessions;
    forall id | id != l.sessionId
      ensures id in after <==> id in before && StaysOn(db, l, phone, before[id])
      ensures id in after ==> after[id] == Cut(before, l, phone, before[id])
    {
      assert id in before ==> Seated(db, before[id]);
    }
  }

  // ----- refresh

  /** The row under an id, in whichever table holds it. */
  predicate HasRow(db: Db, id: string) {
    id in db.customerSessions || id in db.adminSessions
  }

  function RowOf(db: Db, id: string): Session
    requires HasRow(db, id)
  {
    if id in db.customerSessions then db.customerSessions[id] else db.adminSessions[id]
  }

  /** A session that is there, unexpired, and presented with the last token issued for it. */
  ghost predicate Presents(w: World, r: Refresh) {
    && r.sessionId.Some? && r.sessionId.value != "" && r.token.Some? && r.token.value != ""
    && HasRow(w.db, r.sessionId.value) && r.at <= RowOf(w.db, r.sessionId.value).expiresAt
    && r.sessionId.value in w.issued
    && var tokens := w.issued[r.sessionId.value];
      tokens != [] && tokens[|tokens| - 1] == r.token.value
  }

  ghost predicate Rotatable(w: World, r: Refresh) {
    Presents(w, r) && r.actorExists && !r.banned
  }

  /** The tables without the row. */
  ghost predicate Ended(before: Db, after: Db, id: string) {
    after == Db(before.customerSessions - {id}, before.adminSessions - {id}, before.devices)
  }

  /** The row with the new token, expiry and context; every other row as it was. */
  ghost predicate Prolonged(before: Db, after: Db, r: Refresh)
    requires r.sessionId.Some? && HasRow(before, r.sessionId.value)
  {
    var id := r.sessionId.value;
    var row := RowOf(before, id).(
      token := r.newToken, expiresAt := r.newExpiresAt, updatedAt := r.at, context := r.context);
    if id in before.customerSessions
    then after.customerSessions == before.customerSessions[id := row] && after.adminSessions == before.adminSessions
    else after.adminSessions == before.adminSessions[id := row] && after.customerSessions == before.customerSessions
  }

  /** The refresh marks the customer's phone as seen, and keeps its push token unless
      a new one comes; no other device changes. */
  ghost predicate PhoneSeen(before: Db, after: Db, r: Refresh)
    requires r.sessionId.Some? && HasRow(before, r.sessionId.value)
  {
    var id := r.sessionId.value;
    var phone := RowOf(before, id).userDeviceId;
    if r.device.Some? && phone.Some? && RowOf(before, id).mobile && id in before.customerSessions
       && phone.value in before.devices
    then
      var fcm := r.device.value.fcmToken;
      after.devices == before.devices[phone.value := before.devices[phone.value].(
        fcmToken := if fcm.Some? && fcm.value != "" then fcm else before.devices[phone.value].fcmToken,
        lastActiveAt := r.at, updatedAt := r.at)]
    else after.devices == before.devices
  }

  lemma RowIsCurrent(w: World, id: string)
    requires TokenInv(w) && HasRow(w.db, id)
    ensures id in w.issued && w.issued[id] != [] && RowOf(w.db, id).token == w.issued[id][|w.issued[id]| - 1]
  {
    assert id in w.db.customerSessions ==> Current(w.issued, id, w.db.customerSessions[id]);
    assert id in w.db.adminSessions ==> Current(w.issued, id, w.db.adminSessions[id]);
  }

  /** In every run a refresh puts its new token into the row exactly when the session
      is unexpired, the token is the last issued for it, and its actor exists and is
      not banned; the whole tables are given for each answer. */
  lemma RefreshRotatesExactlyWhen(run: seq<World>, i: nat, r: Refresh)
    requires IsRun(run) && i < |run| && Enabled(run[i], Refreshed(r))
    ensures var w, after := run[i], RefreshDb(run[i].db, r);
      && ((r.sessionId.Some? && HasRow(after, r.sessionId.value)
           && RowOf(after, r.sessionId.value).token == r.newToken) <==> Rotatable(w, r))
      && (Rotatable(w, r) ==> Prolonged(w.db, after, r) && PhoneSeen(w.db, after, r))
      && (Presents(w, r) && r.actorExists && r.banned ==> after == w.db)
      && (Presents(w, r) && !r.actorExists ==> Ended(w.db, after, r.sessionId.value))
  {
    RunKeepsInv(run, i);
    RotatesExactlyWhen(run[i], r);
  }

  lemma RotatesExactlyWhen(w: World, r: Refresh)
    requires Inv(w) && Enabled(w, Refreshed(r))
    ensures var after := RefreshDb(w.db, r);
      && ((r.sessionId.Some? && HasRow(after, r.sessionId.value)
           && RowOf(after, r.sessionId.value).token == r.newToken) <==> Rotatable(w, r))
      && (Rotatable(w, r) ==> Prolonged(w.db, after, r) && PhoneSeen(w.db, after, r))
      && (Presents(w, r) && r.actorExists && r.banned ==> after == w.db)
      && (Presents(w, r) && !r.actorExists ==> Ended(w.db, after, r.sessionId.value))
  {
    if r.sessionId.Some? && HasRow(w.db, r.sessionId.value) {
      RowIsCurrent(w, r.sessionId.value);
    }
  }

  /** What the caller is told, and that a refusal without a row to end changes nothing. */
  lemma RefreshAnswers(run: seq<World>, i: nat, r: Refresh)
    requires IsRun(run) && i < |run|
    ensures var w, answer, after := run[i], RefreshVerdict(run[i].db, r), RefreshDb(run[i].db, r);
      var asked := r.sessionId.Some? && r.sessionId.value != "" && r.token.Some? && r.token.value != "";
      && (answer == Rotated <==> Rotatable(w, r))
      && (answer == Banned <==> Presents(w, r) && r.actorExists && r.banned)
      && (answer == NoActor <==> Presents(w, r) && !r.actorExists)
      && (answer == TokenMissing <==> !asked)
      && (answer == NotFound <==> asked && !HasRow(w.db, r.sessionId.value))
      && (answer == Expired <==>
            asked && HasRow(w.db, r.sessionId.value) && RowOf(w.db, r.sessionId.value).expiresAt < r.at)
      && (!asked || !HasRow(w.db, r.sessionId.value) ==> after == w.db)
      && (asked && HasRow(w.db, r.sessionId.value) && !Presents(w, r) ==> Ended(w.db, after, r.sessionId.value))
  {
    RunKeepsInv(run, i);
    if r.sessionId.Some? && HasRow(run[i].db, r.sessionId.value) {
      RowIsCurrent(run[i], r.sessionId.value);
    }
  }

  // ----- logout

  /** In every run a logout removes the session unless it names the other kind of
      actor, and touches nothing else. */
  lemma LogoutRemoves(run: seq<World>, i: nat, id: string, actor: Option<ActorType>)
    requires IsRun(run) && i < |run|
    ensures var before, after := run[i].db, DeletedDb(run[i].db, id, actor);
      && after.devices == before.devices
      && (forall x :: x != id ==> (HasRow(after, x) <==> HasRow(before, x)))
      && (forall x :: x != id && HasRow(after, x) ==> RowOf(after, x) == RowOf(before, x))
      && (HasRow(after, id) <==>
            || (id in before.customerSessions && actor == Some(Admin))
            || (id in before.adminSessions && actor == Some(Customer)))
      && (HasRow(after, id) ==> after == before)
  {
    RunKeepsInv(run, i);
  }
}
