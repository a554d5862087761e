/**
 Sequential runs of login, refresh and logout on a clock that never goes back but
 may repeat an instant: one acceptable refresh token per session, and one live
 mobile session per customer exactly as long as no refresh revives a session in
 the very instant another one took its place.
 */
module SessionRuns {
  import opened Wrappers
  import opened Runs
  import opened Sessions

  /** The tables, the last instant read, and the tokens issued for each session id. */
  datatype World = World(db: Db, clock: int, issued: map<string, seq<string>>)

  const START := World(Db(map[], map[], map[]), 0, map[])

  datatype Event =
    | LoggedIn(login: Login)
    | Refreshed(refresh: Refresh)
    | LoggedOut(id: string, actor: Option<ActorType>, at: int)

  ghost predicate FreshToken(w: World, token: string) {
    forall id :: id in w.issued ==> token !in w.issued[id]
  }

  ghost predicate Enabled(w: World, e: Event) {
    match e
    case LoggedIn(l) =>
      && l.sessionId !in w.issued && l.newDeviceId !in w.db.devices && FreshToken(w, l.token)
      && w.clock <= l.at <= l.seen <= l.cut
    case Refreshed(r) => FreshToken(w, r.newToken) && w.clock <= r.at
    case LoggedOut(_, _, at) => w.clock <= at
  }

  ghost function After(w: World, e: Event): World {
    match e
    case LoggedIn(l) => World(LoginDb(w.db, l), l.cut, w.issued[l.sessionId := [l.token]])
    case Refreshed(r) =>
      World(RefreshDb(w.db, r), r.at,
            if RefreshVerdict(w.db, r).Rotated? && r.sessionId.value in w.issued
            then w.issued[r.sessionId.value := w.issued[r.sessionId.value] + [r.newToken]] else w.issued)
    case LoggedOut(id, actor, at) => World(DeletedDb(w.db, id, actor), at, w.issued)
  }

  ghost predicate IsRun(run: seq<World>) {
    IsPath(Step, run) && run[0] == START
  }

  ghost predicate Step(w: World, t: World) {
    exists e :: Enabled(w, e) && t == After(w, e)
  }

  // ----- the device invariant

  /** A mobile session sits on an active device of its own customer: an inactive
      device has no session rows. */
  ghost predicate Seated(db: Db, s: Session) {
    && (s.mobile <==> s.userDeviceId.Some?)
    && (s.mobile ==>
          && s.userDeviceId.value in db.devices
          && db.devices[s.userDeviceId.value].isActive
          && db.devices[s.userDeviceId.value].customerId == s.ownerId)
  }

  ghost predicate OneActiveDevice(devices: DeviceTable) {
    forall a, b :: a in devices && b in devices && devices[a].isActive && devices[b].isActive && a != b ==>
      devices[a].customerId != devices[b].customerId
  }

  ghost predicate DeviceInv(db: Db) {
    && OneRowPerDevice(db.devices) && OneActiveDevice(db.devices)
    && (forall id :: id in db.customerSessions ==> Seated(db, db.customerSessions[id]))
  }

  lemma MobileLoginSeats(db: Db, l: Login, found: Option<string>)
    requires IsMobile(l) && l.actor.Customer? && l.newDeviceId !in db.devices
    requires found == FindDevice(db.devices, l.userId, l.device.value.deviceId)
    requires OneRowPerDevice(db.devices)
    requires forall id :: id in db.customerSessions ==> Seated(db, db.customerSessions[id])
    ensures var after := MobileLoginDb(db, l, found);
      && forall id :: id in after.customerSessions ==> Seated(after, after.customerSessions[id])
  {
    var after := MobileLoginDb(db, l, found);
    forall id | id in after.customerSessions ensures Seated(after, after.customerSessions[id]) {
      if id != l.sessionId {
        assert Seated(db, db.customerSessions[id]);
      }
    }
  }

  lemma MobileLoginActivatesOne(db: Db, l: Login, found: Option<string>)
    requires IsMobile(l) && l.newDeviceId !in db.devices
    requires found == FindDevice(db.devices, l.userId, l.device.value.deviceId)
    requires OneActiveDevice(db.devices)
    ensures OneActiveDevice(MobileLoginDb(db, l, found).devices)
  {
  }

  lemma MobileLoginKeepsRows(db: Db, l: Login, found: Option<string>)
    requires IsMobile(l) && l.newDeviceId !in db.devices
    requires found == FindDevice(db.devices, l.userId, l.device.value.deviceId)
    requires OneRowPerDevice(db.devices)
    ensures OneRowPerDevice(MobileLoginDb(db, l, found).devices)
  {
    if found.None? {
      forall id | id in db.devices
        ensures db.devices[id].customerId != l.userId || db.devices[id].deviceId != l.device.value.deviceId
      {
        assert !IsRowOf(db.devices, id, l.userId, l.device.value.deviceId);
      }
    }
  }

  lemma LoginKeepsDeviceInv(w: World, l: Login)
    requires DeviceInv(w.db) && Enabled(w, LoggedIn(l))
    ensures DeviceInv(LoginDb(w.db, l))
  {
    if l.actor.Customer? && IsMobile(l) {
      var found := FindDevice(w.db.devices, l.userId, l.device.value.deviceId);
      MobileLoginSeats(w.db, l, found);
      MobileLoginKeepsRows(w.db, l, found);
      MobileLoginActivatesOne(w.db, l, found);
    } else {
      var after := LoginDb(w.db, l);
      forall id | id in after.customerSessions ensures Seated(after, after.customerSessions[id]) {
        assert id != l.sessionId ==> Seated(w.db, w.db.customerSessions[id]);
      }
    }
  }

  lemma DeleteKeepsDeviceInv(db: Db, id: string, actor: Option<ActorType>)
    requires DeviceInv(db)
    ensures DeviceInv(DeletedDb(db, id, actor))
  {
    var after := DeletedDb(db, id, actor);
    forall x | x in after.customerSessions ensures Seated(after, after.customerSessions[x]) {
      assert Seated(db, db.customerSessions[x]);
    }
  }

  lemma SeeingADeviceKeepsDevices(devices: DeviceTable, session: Session, actor: ActorType, r: Refresh)
    requires OneRowPerDevice(devices) && OneActiveDevice(devices)
    ensures var after := SeenDevice(devices, session, actor, r);
      && OneRowPerDevice(after) && OneActiveDevice(after) && after.Keys == devices.Keys
      && forall d :: d in devices ==>
        after[d].isActive == devices[d].isActive && after[d].customerId == devices[d].customerId
  {
  }

  lemma RefreshKeepsDeviceInv(db: Db, r: Refresh)
    requires DeviceInv(db)
    ensures DeviceInv(RefreshDb(db, r))
  {
    var after := RefreshDb(db, r);
    match RefreshVerdict(db, r)
    case Rotated =>
      var (session, actor) := FoundSession(db, r.sessionId.value).value;
      SeeingADeviceKeepsDevices(db.devices, session, actor, r);
      forall x | x in after.customerSessions ensures Seated(after, after.customerSessions[x]) {
        assert Seated(db, db.customerSessions[x]);
      }
    case Expired => DeleteKeepsDeviceInv(db, r.sessionId.value, None);
    case Mismatch => DeleteKeepsDeviceInv(db, r.sessionId.value, None);
    case NoActor => DeleteKeepsDeviceInv(db, r.sessionId.value, None);
    case _ =>
  }

  // ----- the token invariant

  /** A row's token is the last one issued for its id. */
  ghost predicate Current(issued: map<string, seq<string>>, id: string, s: Session) {
    id in issued && issued[id] != [] && s.token == issued[id][|issued[id]| - 1]
  }

  ghost predicate Distinct(tokens: seq<string>) {
    forall i, j :: 0 <= i < j < |tokens| ==> tokens[i] != tokens[j]
  }

  ghost predicate TokenInv(w: World) {
    && (forall id :: id in w.db.customerSessions ==> Current(w.issued, id, w.db.customerSessions[id]))
    && (forall id :: id in w.db.adminSessions ==> Current(w.issued, id, w.db.adminSessions[id]))
    && w.db.customerSessions.Keys !! w.db.adminSessions.Keys
    && (forall id :: id in w.issued ==> Distinct(w.issued[id]))
  }

  lemma LoginKeepsTokenInv(w: World, l: Login)
    requires TokenInv(w) && Enabled(w, LoggedIn(l))
    ensures TokenInv(After(w, LoggedIn(l)))
  {
    var t := After(w, LoggedIn(l));
    forall id | id in t.db.customerSessions ensures Current(t.issued, id, t.db.customerSessions[id]) {
      assert id != l.sessionId ==> Current(w.issued, id, w.db.customerSessions[id]);
    }
    forall id | id in t.db.adminSessions ensures Current(t.issued, id, t.db.adminSessions[id]) {
      assert id != l.sessionId ==> Current(w.issued, id, w.db.adminSessions[id]);
    }
    forall id | id in w.db.customerSessions ensures id != l.sessionId {
      assert Current(w.issued, id, w.db.customerSessions[id]);
    }
    forall id | id in w.db.adminSessions ensures id != l.sessionId {
      assert Current(w.issued, id, w.db.adminSessions[id]);
    }
  }

  lemma RefreshKeepsTokenInv(w: World, r: Refresh)
    requires TokenInv(w) && Enabled(w, Refreshed(r))
    ensures TokenInv(After(w, Refreshed(r)))
  {
    var t := After(w, Refreshed(r));
    if RefreshVerdict(w.db, r).Rotated? {
      var id := r.sessionId.value;
      assert id in w.db.customerSessions ==> Current(w.issued, id, w.db.customerSessions[id]);
      assert id in w.db.adminSessions ==> Current(w.issued, id, w.db.adminSessions[id]);
      assert t.issued == w.issued[id := w.issued[id] + [r.newToken]];
      assert Distinct(t.issued[id]) by { assert Distinct(w.issued[id]); }
      forall x | x in t.db.customerSessions ensures Current(t.issued, x, t.db.customerSessions[x]) {
        assert Current(w.issued, x, w.db.customerSessions[x]);
      }
      forall x | x in t.db.adminSessions ensures Current(t.issued, x, t.db.adminSessions[x]) {
        assert Current(w.issued, x, w.db.adminSessions[x]);
      }
    }
  }

  ghost predicate Inv(w: World) {
    DeviceInv(w.db) && TokenInv(w)
  }

  lemma StepKeepsInv(w: World, e: Event)
    requires Inv(w) && Enabled(w, e)
    ensures Inv(After(w, e))
  {
    match e
    case LoggedIn(l) =>
      LoginKeepsDeviceInv(w, l);
      LoginKeepsTokenInv(w, l);
    case Refreshed(r) =>
      RefreshKeepsDeviceInv(w.db, r);
      RefreshKeepsTokenInv(w, r);
    case LoggedOut(id, actor, at) => DeleteKeepsDeviceInv(w.db, id, actor);
  }

  lemma {:induction false} RunKeepsInv(run: seq<World>, i: nat)
    requires IsRun(run) && i < |run|
    ensures Inv(run[i])
  {
    if i == 0 {
    } else {
      RunKeepsInv(run, i - 1);
      StepAt(Step, run, i - 1);
      var e :| Enabled(run[i - 1], e) && run[i] == After(run[i - 1], e);
      StepKeepsInv(run[i - 1], e);
    }
  }

  // ----- one live mobile session

  predicate LiveMobile(s: Session, clock: int) {
    s.mobile && s.expiresAt > clock
  }

  /** A customer has at most one mobile session that outlives the clock. */
  ghost predicate OneLive(w: World) {
    var sessions := w.db.customerSessions;
    forall a, b :: a in sessions && b in sessions ==>
      LiveMobile(sessions[a], w.clock) && LiveMobile(sessions[b], w.clock) ==>
      sessions[a].ownerId == sessions[b].ownerId ==> a == b
  }

  /** The refresh accepts a mobile session in the very instant it expires and
      prolongs it, while another session on the same device outlives that instant. */
  predicate Revives(db: Db, r: Refresh) {
    && RefreshVerdict(db, r).Rotated? && r.newExpiresAt > r.at
    && r.sessionId.value in db.customerSessions
    && var session := db.customerSessions[r.sessionId.value];
      && session.mobile && session.expiresAt == r.at
      && exists id :: id in db.customerSessions && LiveMobile(db.customerSessions[id], r.at)
                      && db.customerSessions[id].userDeviceId == session.userDeviceId
  }

  /** Where the sessions left by a mobile login come from, and which were cut off. */
  lemma MobileLoginCutsOff(w: World, l: Login, found: Option<string>)
    requires IsMobile(l) && l.actor.Customer? && DeviceInv(w.db) && Enabled(w, LoggedIn(l))
    requires found == FindDevice(w.db.devices, l.userId, l.device.value.deviceId)
    ensures var before, after := w.db.customerSessions, MobileLoginDb(w.db, l, found).customerSessions;
      forall id :: id in after && id != l.sessionId ==>
        && id in before
        && after[id].ownerId == before[id].ownerId && after[id].mobile == before[id].mobile
        && (after[id].expiresAt == before[id].expiresAt || after[id].expiresAt <= l.cut)
        && (after[id].userDeviceId == Some(found.GetOr(l.newDeviceId)) ==> after[id].expiresAt <= l.cut)
  {
    var before, after := w.db.customerSessions, MobileLoginDb(w.db, l, found).customerSessions;
    var device := found.GetOr(l.newDeviceId);
    forall id | id in after && id != l.sessionId && after[id].userDeviceId == Some(device)
      ensures after[id].expiresAt <= l.cut
    {
      assert Seated(w.db, before[id]);
      assert OnDevice(before[id], {device});
    }
  }

  /** A login, at the last instant or later, leaves one live session. */
  lemma LoginKeepsOneLive(w: World, l: Login)
    requires Inv(w) && OneLive(w) && Enabled(w, LoggedIn(l))
    ensures OneLive(After(w, LoggedIn(l)))
  {
    var before, t := w.db.customerSessions, After(w, LoggedIn(l));
    var after := t.db.customerSessions;
    forall id | id in after && id != l.sessionId && LiveMobile(after[id], t.clock)
      ensures id in before && LiveMobile(before[id], w.clock) && after[id].ownerId == before[id].ownerId
      ensures l.actor.Customer? && IsMobile(l) ==> after[id].ownerId != l.userId
    {
      if l.actor.Customer? && IsMobile(l) {
        MobileLoginCutsOff(w, l, FindDevice(w.db.devices, l.userId, l.device.value.deviceId));
        LoginKeepsDeviceInv(w, l);
        assert Seated(t.db, after[id]) && Seated(t.db, after[l.sessionId]);
      }
    }
  }

  lemma RevivalBreaksOneLive(w: World, r: Refresh)
    requires DeviceInv(w.db) && Revives(w.db, r)
    ensures !OneLive(After(w, Refreshed(r)))
  {
    var before, id := w.db.customerSessions, r.sessionId.value;
    var x :| x in before && LiveMobile(before[x], r.at) && before[x].userDeviceId == before[id].userDeviceId;
    var after := before[id := Rotate(before[id], r)];
    assert After(w, Refreshed(r)).db.customerSessions == after;
    assert Seated(w.db, before[x]) && Seated(w.db, before[id]);
    assert LiveMobile(after[x], r.at) && LiveMobile(after[id], r.at);
  }

  lemma RotationKeepsOneLive(w: World, r: Refresh)
    requires DeviceInv(w.db) && OneLive(w) && w.clock <= r.at && !Revives(w.db, r)
    requires RefreshVerdict(w.db, r).Rotated? && r.sessionId.value in w.db.customerSessions
    ensures OneLive(After(w, Refreshed(r)))
  {
    var before, id := w.db.customerSessions, r.sessionId.value;
    assert After(w, Refreshed(r)).db.customerSessions == before[id := Rotate(before[id], r)];
    forall x | x in before && x != id && LiveMobile(before[x], r.at) && before[id].mobile && r.newExpiresAt > r.at
      ensures before[x].ownerId != before[id].ownerId
    {
      assert Seated(w.db, before[x]) && Seated(w.db, before[id]);
      assert LiveMobile(before[x], w.clock);
    }
  }

  /** A refresh keeps one live session exactly when it revives none. */
  lemma RefreshKeepsOneLiveIff(w: World, r: Refresh)
    requires Inv(w) && OneLive(w) && Enabled(w, Refreshed(r))
    ensures OneLive(After(w, Refreshed(r))) <==> !Revives(w.db, r)
  {
    if Revives(w.db, r) {
      RevivalBreaksOneLive(w, r);
    } else if RefreshVerdict(w.db, r).Rotated? && r.sessionId.value in w.db.customerSessions {
      RotationKeepsOneLive(w, r);
    } else {
      var after := After(w, Refreshed(r)).db.customerSessions;
      assert forall id :: id in after ==> id in w.db.customerSessions && after[id] == w.db.customerSessions[id];
    }
  }

  lemma StepKeepsOneLiveIff(w: World, e: Event)
    requires Inv(w) && OneLive(w) && Enabled(w, e)
    ensures OneLive(After(w, e)) <==> !(e.Refreshed? && Revives(w.db, e.refresh))
  {
    match e
    case LoggedIn(l) => LoginKeepsOneLive(w, l);
    case Refreshed(r) => RefreshKeepsOneLiveIff(w, r);
    case LoggedOut(_, _, _) =>
  }

  ghost predicate RevivalStep(w: World, t: World) {
    exists r :: Enabled(w, Refreshed(r)) && t == After(w, Refreshed(r)) && Revives(w.db, r)
  }

  lemma RevivalStepBreaksOneLive(w: World, t: World)
    requires DeviceInv(w.db) && RevivalStep(w, t)
    ensures !OneLive(t)
  {
    var r :| Enabled(w, Refreshed(r)) && t == After(w, Refreshed(r)) && Revives(w.db, r);
    RevivalBreaksOneLive(w, r);
  }

  /** Of every run: each customer has at most one live mobile session throughout
      exactly when no refresh of the run revives a session. */
  lemma OneLiveExactlyWithoutRevival(run: seq<World>)
    requires IsRun(run)
    ensures (forall i :: 0 <= i < |run| ==> OneLive(run[i])) <==>
            (forall i :: 0 < i < |run| ==> !RevivalStep(run[i - 1], run[i]))
  {
    forall i | 0 < i < |run| && RevivalStep(run[i - 1], run[i]) ensures !OneLive(run[i]) {
      RunKeepsInv(run, i - 1);
      RevivalStepBreaksOneLive(run[i - 1], run[i]);
    }
    if forall i :: 0 < i < |run| ==> !RevivalStep(run[i - 1], run[i]) {
      forall i | 0 <= i < |run| ensures OneLive(run[i]) {
        OneLiveSoFar(run, i);
      }
    }
  }

  lemma {:induction false} OneLiveSoFar(run: seq<World>, i: nat)
    requires IsRun(run) && i < |run| && forall k :: 0 < k <= i ==> !RevivalStep(run[k - 1], run[k])
    ensures OneLive(run[i])
  {
    if i == 0 {
    } else {
      OneLiveSoFar(run, i - 1);
      RunKeepsInv(run, i - 1);
      StepAt(Step, run, i - 1);
      var e :| Enabled(run[i - 1], e) && run[i] == After(run[i - 1], e);
      StepKeepsOneLiveIff(run[i - 1], e);
    }
  }

  /** From one live session per customer, a refresh at a later instant revives none. */
  lemma LaterRefreshRevivesNone(w: World, r: Refresh)
    requires DeviceInv(w.db) && OneLive(w) && w.clock < r.at
    ensures !Revives(w.db, r)
  {
    if Revives(w.db, r) {
      var sessions, id := w.db.customerSessions, r.sessionId.value;
      var x :| x in sessions && LiveMobile(sessions[x], r.at) && sessions[x].userDeviceId == sessions[id].userDeviceId;
      assert Seated(w.db, sessions[x]) && Seated(w.db, sessions[id]);
      assert LiveMobile(sessions[x], w.clock) && LiveMobile(sessions[id], w.clock);
    }
  }

  /** So an advancing clock is enough. */
  lemma {:induction false} OneLiveOnAdvancingClock(run: seq<World>, i: nat)
    requires IsRun(run) && i < |run| && forall k :: 0 < k < |run| ==> run[k - 1].clock < run[k].clock
    ensures OneLive(run[i])
  {
    if i == 0 {
    } else {
      OneLiveOnAdvancingClock(run, i - 1);
      RunKeepsInv(run, i - 1);
      StepAt(Step, run, i - 1);
      var e :| Enabled(run[i - 1], e) && run[i] == After(run[i - 1], e);
      if e.Refreshed? {
        LaterRefreshRevivesNone(run[i - 1], e.refresh);
      }
      StepKeepsOneLiveIff(run[i - 1], e);
    }
  }

  /** While nothing was revived, at any later instant a customer has at most one
      unexpired mobile session. */
  lemma OneLiveMobileSession(run: seq<World>, i: nat, now: int, a: string, b: string)
    requires IsRun(run) && i < |run| && now > run[i].clock
    requires forall k :: 0 < k <= i ==> !RevivalStep(run[k - 1], run[k])
    requires var sessions := run[i].db.customerSessions;
      && a in sessions && b in sessions && sessions[a].ownerId == sessions[b].ownerId
      && sessions[a].mobile && sessions[a].expiresAt >= now
      && sessions[b].mobile && sessions[b].expiresAt >= now
    ensures a == b
  {
    OneLiveSoFar(run, i);
    assert LiveMobile(run[i].db.customerSessions[a], run[i].clock);
    assert LiveMobile(run[i].db.customerSessions[b], run[i].clock);
  }

  /** After a mobile login no earlier mobile session of the customer outlives it,
      whatever was revived before. */
  lemma LoginEndsEarlierMobileSessions(run: seq<World>, i: nat, l: Login, now: int, a: string)
    requires IsRun(run) && i < |run| && Enabled(run[i], LoggedIn(l)) && l.actor.Customer? && FromPhone(l)
    requires var sessions := LoginDb(run[i].db, l).customerSessions;
      a in sessions && MobileOf(sessions[a], l.userId) && sessions[a].expiresAt >= now > l.cut
    ensures a == l.sessionId
  {
    RunKeepsInv(run, i);
    MobileLoginsAreFromPhones(l);
    NewestMobileSessionIsAlone(run[i], l, now, a);
  }

  lemma NewestMobileSessionIsAlone(w: World, l: Login, now: int, a: string)
    requires Inv(w) && Enabled(w, LoggedIn(l)) && l.actor.Customer? && IsMobile(l)
    requires var sessions := LoginDb(w.db, l).customerSessions;
      a in sessions && MobileOf(sessions[a], l.userId) && sessions[a].expiresAt >= now > l.cut
    ensures a == l.sessionId
  {
    var found := FindDevice(w.db.devices, l.userId, l.device.value.deviceId);
    var after := MobileLoginDb(w.db, l, found);
    MobileLoginSeats(w.db, l, found);
    MobileLoginActivatesOne(w.db, l, found);
    MobileLoginCutsOff(w, l, found);
    assert Seated(after, after.customerSessions[a]) && Seated(after, after.customerSessions[l.sessionId]);
  }

  predicate MobileOf(s: Session, customerId: string) {
    s.mobile && s.ownerId == customerId
  }

  /** The hidden invariant: no session row sits on an inactive device. */
  lemma InactiveDevicesHaveNoSessions(run: seq<World>, i: nat, device: string)
    requires IsRun(run) && i < |run| && device in run[i].db.devices && !run[i].db.devices[device].isActive
    ensures forall id :: id in run[i].db.customerSessions ==>
      run[i].db.customerSessions[id].userDeviceId != Some(device)
  {
    RunKeepsInv(run, i);
    forall id | id in run[i].db.customerSessions ensures run[i].db.customerSessions[id].userDeviceId != Some(device) {
      assert Seated(run[i].db, run[i].db.customerSessions[id]);
    }
  }

  /** A mobile login adds its session and otherwise touches only mobile sessions
      and devices of its own customer. */
  lemma MobileLoginTouchesOnlyItsOwn(run: seq<World>, i: nat, l: Login)
    requires IsRun(run) && i < |run| && Enabled(run[i], LoggedIn(l)) && l.actor.Customer? && FromPhone(l)
    ensures OnlyItsOwn(run[i].db, LoginDb(run[i].db, l), l)
  {
    RunKeepsInv(run, i);
    MobileLoginsAreFromPhones(l);
    LoginTouchesOnlyItsOwn(run[i], l);
  }

  ghost predicate OnlyItsOwn(before: Db, after: Db, l: Login) {
    && after.adminSessions == before.adminSessions
    && l.sessionId in after.customerSessions && after.customerSessions[l.sessionId].token == l.token
    && after.customerSessions.Keys <= before.customerSessions.Keys + {l.sessionId}
    && (forall id :: id in before.customerSessions && !MobileOf(before.customerSessions[id], l.userId) ==>
          id in after.customerSessions && after.customerSessions[id] == before.customerSessions[id])
    && (forall d :: d in before.devices && before.devices[d].customerId != l.userId ==>
          d in after.devices && after.devices[d] == before.devices[d])
  }

  lemma LoginTouchesOnlyItsOwn(w: World, l: Login)
    requires Inv(w) && Enabled(w, LoggedIn(l)) && l.actor.Customer? && IsMobile(l)
    ensures OnlyItsOwn(w.db, LoginDb(w.db, l), l)
  {
    var before, after := w.db, LoginDb(w.db, l);
    forall id | id in before.customerSessions && !MobileOf(before.customerSessions[id], l.userId)
      ensures id in after.customerSessions && after.customerSessions[id] == before.customerSessions[id]
    {
      assert Seated(before, before.customerSessions[id]) && Current(w.issued, id, before.customerSessions[id]);
    }
  }

  // ----- refresh tokens

  /** A refresh succeeds only with the newest token issued for its session. */
  lemma AcceptedTokenIsNewest(run: seq<World>, i: nat, r: Refresh)
    requires IsRun(run) && i < |run| && RefreshVerdict(run[i].db, r).Rotated?
    ensures var id := r.sessionId.value;
      && id in run[i].issued && run[i].issued[id] != []
      && r.token == Some(run[i].issued[id][|run[i].issued[id]| - 1])
  {
    RunKeepsInv(run, i);
    var w, id := run[i], r.sessionId.value;
    if id in w.db.customerSessions {
      assert Current(w.issued, id, w.db.customerSessions[id]);
    } else {
      assert Current(w.issued, id, w.db.adminSessions[id]);
    }
  }

  /** An earlier token, or an expired session, ends the session. */
  lemma StaleRefreshEndsTheSession(run: seq<World>, i: nat, r: Refresh, k: nat)
    requires IsRun(run) && i < |run| && r.sessionId.Some? && r.sessionId.value != ""
    requires r.token.Some? && r.token.value != ""
    requires var w, id := run[i], r.sessionId.value; var found := FoundSession(w.db, id);
      || (id in w.issued && k < |w.issued[id]| - 1 && w.issued[id][k] == r.token.value)
      || (found.Some? && found.value.0.expiresAt < r.at)
    ensures FoundSession(RefreshDb(run[i].db, r), r.sessionId.value).None?
  {
    RunKeepsInv(run, i);
    var w, id := run[i], r.sessionId.value;
    var found := FoundSession(w.db, id);
    if found.Some? {
      assert Current(w.issued, id, found.value.0) && Distinct(w.issued[id]);
    }
  }

  /** Once gone, a session id never comes back, and every later refresh of it fails. */
  lemma {:induction false} GoneForGood(run: seq<World>, i: nat, j: nat, id: string)
    requires IsRun(run) && i <= j < |run| && id in run[i].issued && FoundSession(run[i].db, id).None?
    ensures id in run[j].issued && FoundSession(run[j].db, id).None?
    ensures forall r: Refresh :: r.sessionId == Some(id) ==>
      RefreshVerdict(run[j].db, r).NotFound? || RefreshVerdict(run[j].db, r).TokenMissing?
  {
    if i == j {
    } else {
      GoneForGood(run, i, j - 1, id);
      StepAt(Step, run, j - 1);
      var e :| Enabled(run[j - 1], e) && run[j] == After(run[j - 1], e);
      StaysGone(run[j - 1], e, id);
    }
  }

  lemma StaysGone(w: World, e: Event, id: string)
    requires Enabled(w, e) && id in w.issued && FoundSession(w.db, id).None?
    ensures id in After(w, e).issued && FoundSession(After(w, e).db, id).None?
  {
  }

  // ----- a revival

  /** A refresh in the very instant of a new login on the same device revives the
      session that login cut off: the customer then has two live mobile sessions. */
  lemma SameInstantRefreshRevives(w: World, l: Login, r: Refresh, id: string, device: string)
    requires Inv(w) && Enabled(w, LoggedIn(l)) && l.actor.Customer? && IsMobile(l) && l.expiresAt > l.cut
    requires FindDevice(w.db.devices, l.userId, l.device.value.deviceId) == Some(device)
    requires id != "" && id in w.db.customerSessions && w.db.customerSessions[id].userDeviceId == Some(device)
    requires w.db.customerSessions[id].expiresAt > l.seen
    requires r.sessionId == Some(id) && r.token == Some(w.db.customerSessions[id].token) && r.token.value != ""
    requires r.at == l.cut && r.actorExists && !r.banned && r.newExpiresAt > r.at
    ensures var cut := LoginDb(w.db, l);
      && RefreshVerdict(cut, r).Rotated?
      && var sessions := RefreshDb(cut, r).customerSessions;
        && id != l.sessionId && id in sessions && l.sessionId in sessions
        && LiveMobile(sessions[id], r.at) && LiveMobile(sessions[l.sessionId], r.at)
        && sessions[id].ownerId == sessions[l.sessionId].ownerId
  {
    LoginCutsOff(w, l, id, device);
  }

  lemma LoginCutsOff(w: World, l: Login, id: string, device: string)
    requires Inv(w) && Enabled(w, LoggedIn(l)) && l.actor.Customer? && IsMobile(l)
    requires FindDevice(w.db.devices, l.userId, l.device.value.deviceId) == Some(device)
    requires id in w.db.customerSessions && w.db.customerSessions[id].userDeviceId == Some(device)
    requires w.db.customerSessions[id].expiresAt > l.seen
    ensures var sessions := LoginDb(w.db, l).customerSessions;
      && id != l.sessionId && id in sessions
      && sessions[id] == w.db.customerSessions[id].(expiresAt := l.cut, updatedAt := l.cut)
      && sessions[id].mobile && sessions[id].ownerId == l.userId
      && sessions[l.sessionId] == NewSession(l, Some(device))
  {
    var session := w.db.customerSessions[id];
    assert Seated(w.db, session) && Current(w.issued, id, session);
    assert OnDevice(session, {device}) && HasActiveSession(w.db.customerSessions, device, l.seen);
  }

  /** The tables after the very first mobile login. */
  lemma FirstLogin(l: Login)
    requires Enabled(START, LoggedIn(l)) && l.actor.Customer? && IsMobile(l)
    ensures var w := After(START, LoggedIn(l));
      && Step(START, w) && Inv(w) && OneLive(w)
      && w.issued == map[l.sessionId := [l.token]] && w.clock == l.cut
      && w.db.customerSessions == map[l.sessionId := NewSession(l, Some(l.newDeviceId))]
      && w.db.devices.Keys == {l.newDeviceId}
      && FindDevice(w.db.devices, l.userId, l.device.value.deviceId) == Some(l.newDeviceId)
  {
    assert FindDevice(START.db.devices, l.userId, l.device.value.deviceId).None?;
    assert IsRowOf(After(START, LoggedIn(l)).db.devices, l.newDeviceId, l.userId, l.device.value.deviceId);
    StepKeepsInv(START, LoggedIn(l));
    LoginKeepsOneLive(START, l);
  }

  /** A second login on the same phone, and in its instant a refresh with the token of the first. */
  ghost predicate Collide(first: Login, second: Login, r: Refresh) {
    && Enabled(START, LoggedIn(first)) && first.actor.Customer? && IsMobile(first)
    && second == first.(sessionId := second.sessionId, token := second.token, newDeviceId := second.newDeviceId,
                        at := second.at, seen := second.at, cut := second.at)
    && first.cut < second.at < first.expiresAt && first.sessionId != "" && first.token != ""
    && second.sessionId != first.sessionId && second.token != first.token && second.newDeviceId != first.newDeviceId
    && r.sessionId == Some(first.sessionId) && r.token == Some(first.token) && r.at == second.at < r.newExpiresAt
    && r.newToken != first.token && r.newToken != second.token && r.actorExists && !r.banned
  }

  lemma SecondLogin(first: Login, second: Login, r: Refresh)
    requires Collide(first, second, r)
    ensures var w1 := After(START, LoggedIn(first)); var w2 := After(w1, LoggedIn(second));
      && Enabled(w1, LoggedIn(second)) && Inv(w2) && OneLive(w2)
      && w2.issued == map[first.sessionId := [first.token], second.sessionId := [second.token]]
  {
    FirstLogin(first);
    var w1 := After(START, LoggedIn(first));
    StepKeepsInv(w1, LoggedIn(second));
    LoginKeepsOneLive(w1, second);
  }

  lemma SecondLoginCutsOff(first: Login, second: Login, r: Refresh)
    requires Collide(first, second, r)
    ensures var w2 := After(After(START, LoggedIn(first)), LoggedIn(second));
      && w2.clock == r.at && Revives(w2.db, r)
  {
    FirstLogin(first);
    SecondLogin(first, second, r);
    var w1 := After(START, LoggedIn(first));
    LoginCutsOff(w1, second, first.sessionId, first.newDeviceId);
    assert LiveMobile(LoginDb(w1.db, second).customerSessions[second.sessionId], r.at);
  }

  lemma CollisionRevives(first: Login, second: Login, r: Refresh)
    requires Collide(first, second, r)
    ensures var w1 := After(START, LoggedIn(first)); var w2 := After(w1, LoggedIn(second));
      && Enabled(w1, LoggedIn(second)) && Enabled(w2, Refreshed(r))
      && OneLive(w2) && Revives(w2.db, r) && !OneLive(After(w2, Refreshed(r)))
  {
    SecondLogin(first, second, r);
    SecondLoginCutsOff(first, second, r);
    RevivalBreaksOneLive(After(After(START, LoggedIn(first)), LoggedIn(second)), r);
  }

  lemma Extend(run: seq<World>, e: Event) returns (longer: seq<World>)
    requires IsRun(run) && Enabled(run[|run| - 1], e)
    ensures IsRun(longer) && longer == run + [After(run[|run| - 1], e)]
  {
    longer := run + [After(run[|run| - 1], e)];
    assert Step(run[|run| - 1], After(run[|run| - 1], e));
    ExtendPath(Step, run, After(run[|run| - 1], e));
  }

  lemma CollisionRun(first: Login, second: Login, r: Refresh) returns (run: seq<World>)
    requires Collide(first, second, r)
    ensures IsRun(run) && |run| == 4
    ensures RevivalStep(run[2], run[3]) && OneLive(run[2]) && !OneLive(run[3])
  {
    CollisionRevives(first, second, r);
    run := Extend([START], LoggedIn(first));
    run := Extend(run, LoggedIn(second));
    run := Extend(run, Refreshed(r));
    assert RevivalStep(run[2], run[3]);
  }

  /** Some run meets a revival. */
  lemma RevivalIsReachable() returns (run: seq<World>)
    ensures IsRun(run) && |run| == 4
    ensures RevivalStep(run[2], run[3]) && OneLive(run[2]) && !OneLive(run[3])
  {
    var context := Context("", "");
    var phone := Some(DeviceInfo("phone", None, "ios", None));
    var first := Login(Customer, "c", context, phone, "s1", "t1", 100, "d1", 1, 1, 1);
    IosIsMobile(first);
    assert "s1"[1] != "s2"[1] && "t1"[1] != "t2"[1] && "d1"[1] != "d2"[1] && "t1"[1] != "t3"[1] && "t2"[1] != "t3"[1];
    run := CollisionRun(
      first, first.(sessionId := "s2", token := "t2", newDeviceId := "d2", at := 2, seen := 2, cut := 2),
      Refresh(Some("s1"), Some("t1"), context, None, "t3", 100, 2, true, false));
  }

  lemma IosIsMobile(l: Login)
    requires l.device.Some? && l.device.value.deviceType == "ios"
    ensures IsMobile(l)
  {
    assert ToLowerCase("ios") == "ios" by {
      assert "ios"[1..] == "os" && "os"[1..] == "s" && "s"[1..] == "";
    }
  }
}
