/**
 The session and device tables, as login, refresh and logout change them. Hashed
 refresh tokens stand for the tokens themselves; fresh ids, tokens and clock
 readings are parameters.
 */
module Sessions {
  import opened Wrappers

  datatype ActorType = Customer | Admin

  datatype Context = Context(ip: string, userAgent: string)

  datatype DeviceInfo = DeviceInfo(
    deviceId: string, fcmToken: Option<string>, deviceType: string, deviceName: Option<string>)

  datatype Session = Session(
    ownerId: string, token: string, expiresAt: int, createdAt: int, updatedAt: int,
    context: Context, mobile: bool, userDeviceId: Option<string>)

  datatype Device = Device(
    customerId: string, deviceId: string, fcmToken: Option<string>, deviceType: string, deviceName: Option<string>,
    isActive: bool, lastActiveAt: int, createdAt: int, updatedAt: int)

  type SessionTable = map<string, Session>
  type DeviceTable = map<string, Device>

  datatype Db = Db(customerSessions: SessionTable, adminSessions: SessionTable, devices: DeviceTable)

  /** A createSession call with what it draws: `seen` is when active sessions of the
      device are looked up, `cut` when old ones are cut off. */
  datatype Login = Login(
    actor: ActorType, userId: string, context: Context, device: Option<DeviceInfo>,
    sessionId: string, token: string, expiresAt: int, newDeviceId: string, at: int, seen: int, cut: int)

  // ----- helpers

  function LowerChar(c: char): char {
    if 'A' <= c <= 'Z' then (c as int + 32) as char else c
  }

  function ToLowerCase(s: string): string {
    if s == "" then "" else [LowerChar(s[0])] + ToLowerCase(s[1..])
  }

  predicate IsMobileDeviceType(deviceType: Option<string>) {
    deviceType.Some? && (ToLowerCase(deviceType.value) == "android" || ToLowerCase(deviceType.value) == "ios")
  }

  /** Letter by letter the given word, each letter in either case. */
  predicate Spells(t: string, lower: string, upper: string)
    requires |lower| == |upper|
  {
    |t| == |lower| && forall i :: 0 <= i < |t| ==> t[i] == lower[i] || t[i] == upper[i]
  }

  predicate IsPhoneType(t: string) {
    Spells(t, "android", "ANDROID") || Spells(t, "ios", "IOS")
  }

  lemma {:induction false} ToLowerCaseAt(s: string)
    ensures |ToLowerCase(s)| == |s|
    ensures forall i :: 0 <= i < |s| ==> ToLowerCase(s)[i] == LowerChar(s[i])
  {
    if s == "" {
    } else {
      ToLowerCaseAt(s[1..]);
      forall i | 0 <= i < |s| ensures ToLowerCase(s)[i] == LowerChar(s[i]) {
        assert i > 0 ==> s[i] == s[1..][i - 1];
      }
    }
  }

  lemma LowersTo(s: string, lower: string, upper: string)
    requires |lower| == |upper|
    requires forall i :: 0 <= i < |lower| ==> 'a' <= lower[i] <= 'z' && upper[i] as int + 32 == lower[i] as int
    ensures ToLowerCase(s) == lower <==> Spells(s, lower, upper)
  {
    ToLowerCaseAt(s);
    if Spells(s, lower, upper) {
      assert forall i :: 0 <= i < |s| ==> LowerChar(s[i]) == lower[i];
    }
    if ToLowerCase(s) == lower {
      forall i | 0 <= i < |s| ensures s[i] == lower[i] || s[i] == upper[i] {
        assert LowerChar(s[i]) == lower[i];
      }
    }
  }

  /** Mobile device types are "android" and "ios", up to the case of each letter. */
  lemma MobileTypesArePhones(t: string)
    ensures IsMobileDeviceType(Some(t)) <==> IsPhoneType(t)
  {
    LowersTo(t, "android", "ANDROID");
    LowersTo(t, "ios", "IOS");
  }

  predicate IsMobile(l: Login) {
    l.device.Some? && IsMobileDeviceType(Some(l.device.value.deviceType))
  }

  predicate FromPhone(l: Login) {
    l.device.Some? && IsPhoneType(l.device.value.deviceType)
  }

  lemma MobileLoginsAreFromPhones(l: Login)
    ensures IsMobile(l) <==> FromPhone(l)
  {
    if l.device.Some? {
      MobileTypesArePhones(l.device.value.deviceType);
    }
  }

  predicate IsRowOf(devices: DeviceTable, id: string, customerId: string, deviceId: string) {
    id in devices && devices[id].customerId == customerId && devices[id].deviceId == deviceId
  }

  /** One row per customer and installation, so that limit(1) has one answer. */
  ghost predicate OneRowPerDevice(devices: DeviceTable) {
    forall a, b :: a in devices && b in devices && a != b ==>
      devices[a].customerId != devices[b].customerId || devices[a].deviceId != devices[b].deviceId
  }

  ghost function FindDevice(devices: DeviceTable, customerId: string, deviceId: string): (found: Option<string>)
    ensures found.Some? ==> IsRowOf(devices, found.value, customerId, deviceId)
    ensures found.None? ==> forall id :: !IsRowOf(devices, id, customerId, deviceId)
  {
    if id :| IsRowOf(devices, id, customerId, deviceId) then Some(id) else None
  }

  predicate OnDevice(session: Session, devices: set<string>) {
    session.userDeviceId.Some? && session.userDeviceId.value in devices
  }

  function CutOff(sessions: SessionTable, device: string, exclude: Option<string>, cut: int): SessionTable {
    map id | id in sessions ::
      if OnDevice(sessions[id], {device}) && Some(id) != exclude
      then sessions[id].(expiresAt := cut, updatedAt := cut) else sessions[id]
  }

  function OtherActive(devices: DeviceTable, customerId: string, current: string): set<string> {
    set id | id in devices && devices[id].customerId == customerId && id != current && devices[id].isActive
  }

  function Deactivated(devices: DeviceTable, others: set<string>, cut: int): DeviceTable {
    map id | id in devices ::
      if id in others then devices[id].(isActive := false, fcmToken := None, updatedAt := cut) else devices[id]
  }

  function OffDevices(sessions: SessionTable, others: set<string>): SessionTable {
    map id | id in sessions && !OnDevice(sessions[id], others) :: sessions[id]
  }

  // ----- what each operation leaves

  /** The device table after findOrCreateDevice, for a found row or a new one. */
  function TouchedDevices(devices: DeviceTable, found: Option<string>, l: Login): DeviceTable
    requires l.device.Some? && (found.Some? ==> found.value in devices)
  {
    var info := l.device.value;
    match found
    case Some(id) =>
      devices[id := devices[id].(
        fcmToken := if info.fcmToken.Some? then info.fcmToken else devices[id].fcmToken,
        lastActiveAt := l.seen, updatedAt := l.seen, isActive := true)]
    case None =>
      devices[l.newDeviceId := Device(l.userId, info.deviceId, info.fcmToken, info.deviceType, info.deviceName,
                                      true, l.seen, l.seen, l.seen)]
  }

  predicate HasActiveSession(sessions: SessionTable, device: string, seen: int) {
    exists id :: id in sessions && OnDevice(sessions[id], {device}) && sessions[id].expiresAt > seen
  }

  function NewSession(l: Login, device: Option<string>): Session {
    Session(l.userId, l.token, l.expiresAt, l.at, l.at, l.context, l.actor.Customer? && IsMobile(l), device)
  }

  ghost function LoginDb(db: Db, l: Login): Db {
    match l.actor
    case Admin => db.(adminSessions := db.adminSessions[l.sessionId := NewSession(l, None)])
    case Customer =>
      if !IsMobile(l) then db.(customerSessions := db.customerSessions[l.sessionId := NewSession(l, None)])
      else
        var found := FindDevice(db.devices, l.userId, l.device.value.deviceId);
        MobileLoginDb(db, l, found)
  }

  function MobileLoginDb(db: Db, l: Login, found: Option<string>): Db
    requires l.device.Some? && (found.Some? ==> found.value in db.devices)
  {
    var device := found.GetOr(l.newDeviceId);
    var devices := TouchedDevices(db.devices, found, l);
    var sessions := if found.Some? && HasActiveSession(db.customerSessions, device, l.seen)
      then CutOff(db.customerSessions, device, None, l.cut) else db.customerSessions;
    var others := OtherActive(devices, l.userId, device);
    Db(OffDevices(sessions, others)[l.sessionId := NewSession(l, Some(device))], db.adminSessions,
       Deactivated(devices, others, l.cut))
  }

  function FoundSession(db: Db, id: string): Option<(Session, ActorType)> {
    if id in db.customerSessions then Some((db.customerSessions[id], Customer))
    else if id in db.adminSessions then Some((db.adminSessions[id], Admin))
    else None
  }

  function DeletedDb(db: Db, id: string, actor: Option<ActorType>): Db {
    db.(customerSessions := if actor == Some(Admin) then db.customerSessions else db.customerSessions - {id},
        adminSessions := if actor == Some(Customer) then db.adminSessions else db.adminSessions - {id})
  }

  /** A refreshSession call with what it draws and what the actor look-ups say. */
  datatype Refresh = Refresh(
    sessionId: Option<string>, token: Option<string>, context: Context, device: Option<DeviceInfo>,
    newToken: string, newExpiresAt: int, at: int, actorExists: bool, banned: bool)

  datatype RefreshResult = TokenMissing | NotFound | Expired | Mismatch | NoActor | Banned | Rotated

  function RefreshVerdict(db: Db, r: Refresh): RefreshResult {
    if r.sessionId.GetOr("") == "" || r.token.GetOr("") == "" then TokenMissing
    else
      match FoundSession(db, r.sessionId.value)
      case None => NotFound
      case Some((session, _)) =>
        if session.expiresAt < r.at then Expired
        else if session.token != r.token.value then Mismatch
        else if !r.actorExists then NoActor
        else if r.banned then Banned
        else Rotated
  }

  function Rotate(session: Session, r: Refresh): Session {
    session.(token := r.newToken, expiresAt := r.newExpiresAt, updatedAt := r.at, context := r.context)
  }

  function SeenDevice(devices: DeviceTable, session: Session, actor: ActorType, r: Refresh): DeviceTable {
    if r.device.Some? && session.userDeviceId.Some? && session.mobile && actor.Customer?
       && session.userDeviceId.value in devices
    then
      var id := session.userDeviceId.value;
      var fcm := r.device.value.fcmToken;
      devices[id := devices[id].(
        fcmToken := if fcm.GetOr("") != "" then fcm else devices[id].fcmToken, lastActiveAt := r.at, updatedAt := r.at)]
    else devices
  }

  function RefreshDb(db: Db, r: Refresh): Db {
    match RefreshVerdict(db, r)
    case Expired => DeletedDb(db, r.sessionId.value, None)
    case Mismatch => DeletedDb(db, r.sessionId.value, None)
    case NoActor => DeletedDb(db, r.sessionId.value, None)
    case Rotated =>
      var id := r.sessionId.value;
      var (session, actor) := FoundSession(db, id).value;
      var seen := db.(devices := SeenDevice(db.devices, session, actor, r));
      if actor.Customer? then seen.(customerSessions := db.customerSessions[id := Rotate(session, r)])
      else seen.(adminSessions := db.adminSessions[id := Rotate(session, r)])
    case _ => db
  }

  // ----- the services

  class AuthSessionService {
    var customerSessions: SessionTable
    var adminSessions: SessionTable
    var devices: DeviceTable

    ghost function Tables(): Db
      reads this
    {
      Db(customerSessions, adminSessions, devices)
    }

    constructor ()
      ensures Tables() == Db(map[], map[], map[])
    {
      customerSessions, adminSessions, devices := map[], map[], map[];
    }

    method FindOrCreateDevice(l: Login) returns (id: string, isNew: bool, hasExistingSession: bool)
      requires l.device.Some? && OneRowPerDevice(devices)
      modifies this`devices
      ensures var found := FindDevice(old(devices), l.userId, l.device.value.deviceId);
        && devices == TouchedDevices(old(devices), found, l)
        && id == found.GetOr(l.newDeviceId) && isNew == found.None?
        && hasExistingSession == (found.Some? && HasActiveSession(customerSessions, id, l.seen))
    {
      var info := l.device.value;
      if existing :| existing in devices && IsRowOf(devices, existing, l.userId, info.deviceId) {
        var active := set s | s in customerSessions && OnDevice(customerSessions[s], {existing})
                              && customerSessions[s].expiresAt > l.seen;
        var has := |active| > 0;
        assert FindDevice(devices, l.userId, info.deviceId) == Some(existing) by {
          assert IsRowOf(devices, existing, l.userId, info.deviceId);
        }
        assert has <==> HasActiveSession(customerSessions, existing, l.seen) by {
          assert forall s :: s in active <==>
            (s in customerSessions && OnDevice(customerSessions[s], {existing})
             && customerSessions[s].expiresAt > l.seen);
          if has { var s :| s in active; }
        }
        devices := devices[existing := devices[existing].(
          fcmToken := if info.fcmToken.Some? then info.fcmToken else devices[existing].fcmToken,
          lastActiveAt := l.seen, updatedAt := l.seen, isActive := true)];
        return existing, false, has;
      }
      assert FindDevice(devices, l.userId, info.deviceId).None?;
      devices := devices[l.newDeviceId := Device(
        l.userId, info.deviceId, info.fcmToken, info.deviceType, info.deviceName, true, l.seen, l.seen, l.seen)];
      return l.newDeviceId, true, false;
    }

    method InvalidateDeviceSessions(device: string, exclude: Option<string>, cut: int)
      modifies this`customerSessions
      ensures customerSessions == CutOff(old(customerSessions), device, exclude, cut)
    {
      customerSessions := map id | id in customerSessions ::
        if OnDevice(customerSessions[id], {device}) && Some(id) != exclude
        then customerSessions[id].(expiresAt := cut, updatedAt := cut) else customerSessions[id];
    }

    method EnforceSingleMobileSession(userId: string, current: string, cut: int)
      modifies this`devices, this`customerSessions
      ensures var others := OtherActive(old(devices), userId, current);
        && devices == Deactivated(old(devices), others, cut)
        && customerSessions == OffDevices(old(customerSessions), others)
    {
      var others := set id | id in devices && devices[id].customerId == userId && id != current && devices[id].isActive;
      if |others| == 0 {
        assert OffDevices(customerSessions, others) == customerSessions;
        assert Deactivated(devices, others, cut) == devices;
        return;
      }
      devices := Deactivated(devices, others, cut);
      customerSessions := OffDevices(customerSessions, others);
    }

    method CreateSession(l: Login)
      requires OneRowPerDevice(devices)
      modifies this
      ensures Tables() == LoginDb(old(Tables()), l)
    {
      var userDeviceId := None;
      if l.actor.Customer? && l.device.Some? && IsMobile(l) {
        var id, isNew, hasExistingSession := FindOrCreateDevice(l);
        userDeviceId := Some(id);
        if hasExistingSession {
          InvalidateDeviceSessions(id, None, l.cut);
        }
        EnforceSingleMobileSession(l.userId, id, l.cut);
      }
      if l.actor.Customer? {
        customerSessions := customerSessions[l.sessionId :=
          Session(l.userId, l.token, l.expiresAt, l.at, l.at, l.context, IsMobile(l), userDeviceId)];
      } else {
        adminSessions := adminSessions[l.sessionId :=
          Session(l.userId, l.token, l.expiresAt, l.at, l.at, l.context, false, None)];
      }
    }

    method FindSessionById(id: string) returns (found: Option<(Session, ActorType)>)
      ensures found == FoundSession(Tables(), id)
    {
      if id in customerSessions {
        return Some((customerSessions[id], Customer));
      }
      if id in adminSessions {
        return Some((adminSessions[id], Admin));
      }
      return None;
    }

    method DeleteSession(id: string, actor: Option<ActorType>)
      modifies this`customerSessions, this`adminSessions
      ensures Tables() == DeletedDb(old(Tables()), id, actor)
    {
      if actor == Some(Customer) {
        customerSessions := customerSessions - {id};
      } else if actor == Some(Admin) {
        adminSessions := adminSessions - {id};
      } else {
        customerSessions := customerSessions - {id};
        adminSessions := adminSessions - {id};
      }
    }

    method UpdateDeviceOnRefresh(id: string, fcmToken: Option<string>, now: int)
      modifies this`devices
      ensures devices == if id !in old(devices) then old(devices) else old(devices)[id := old(devices)[id].(
        fcmToken := if fcmToken.GetOr("") != "" then fcmToken else old(devices)[id].fcmToken,
        lastActiveAt := now, updatedAt := now)]
    {
      if id in devices {
        var device := devices[id].(lastActiveAt := now, updatedAt := now);
        if fcmToken.Some? && fcmToken.value != "" {
          device := device.(fcmToken := fcmToken);
        }
        devices := devices[id := device];
      }
    }

    method RotateSessionTokens(id: string, actor: ActorType, r: Refresh)
      modifies this`customerSessions, this`adminSessions
      ensures customerSessions == if actor.Customer? && id in old(customerSessions)
        then old(customerSessions)[id := Rotate(old(customerSessions)[id], r)] else old(customerSessions)
      ensures adminSessions == if actor.Admin? && id in old(adminSessions)
        then old(adminSessions)[id := Rotate(old(adminSessions)[id], r)] else old(adminSessions)
    {
      if actor.Customer? {
        if id in customerSessions {
          customerSessions := customerSessions[id := Rotate(customerSessions[id], r)];
        }
      } else if id in adminSessions {
        adminSessions := adminSessions[id := Rotate(adminSessions[id], r)];
      }
    }
  }

  class AuthService {
    const sessionService: AuthSessionService

    constructor (sessionService: AuthSessionService)
      ensures this.sessionService == sessionService
    {
      this.sessionService := sessionService;
    }

    method Logout(sessionId: Option<string>, actor: Option<ActorType>)
      modifies sessionService
      ensures sessionService.Tables() ==
        if sessionId.GetOr("") == "" then old(sessionService.Tables())
        else DeletedDb(old(sessionService.Tables()), sessionId.value, actor)
    {
      if sessionId.None? || sessionId.value == "" {
        return;
      }
      sessionService.DeleteSession(sessionId.value, actor);
    }

    method RefreshSession(r: Refresh) returns (result: RefreshResult)
      modifies sessionService
      ensures result == RefreshVerdict(old(sessionService.Tables()), r)
      ensures sessionService.Tables() == RefreshDb(old(sessionService.Tables()), r)
    {
      if r.token.None? || r.token.value == "" || r.sessionId.None? || r.sessionId.value == "" {
        return TokenMissing;
      }
      var found := sessionService.FindSessionById(r.sessionId.value);
      if found.None? {
        return NotFound;
      }
      var (session, actor) := found.value;
      if session.expiresAt < r.at {
        Logout(r.sessionId, None);
        return Expired;
      }
      if session.token != r.token.value {
        Logout(r.sessionId, None);
        return Mismatch;
      }
      if !r.actorExists {
        Logout(r.sessionId, None);
        return NoActor;
      }
      if r.banned {
        return Banned;
      }
      if r.device.Some? && session.userDeviceId.Some? && session.mobile && actor.Customer? {
        sessionService.UpdateDeviceOnRefresh(session.userDeviceId.value, r.device.value.fcmToken, r.at);
      }
      sessionService.RotateSessionTokens(r.sessionId.value, actor, r);
      return Rotated;
    }
  }
}
