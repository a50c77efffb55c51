/** The scale-session hook: the observable flags, the reading window, and one pure
    transition per callback or request. Every asynchronous library call (scanning,
    connecting, service discovery, characteristic writes) is replaced by its outcome,
    passed in as a parameter. */
module ScaleSession {
  import opened Options
  import opened BleConfig
  import opened Stability
  import opened Protocol

  /** The hook's state. `managerReady` says whether the manager reference is set (between
      mount and unmount); `readings` is the reading-window reference. */
  datatype Session = Session(
    managerReady: bool,
    scanning: bool,
    connectedDeviceId: Option<string>,
    selectedWeight: Option<int>,
    currentWeight: Option<real>,
    isWeightStable: bool,
    readings: seq<real>)

  /** What the scan callback and the scan timer closed over when a scan began, including the
      value of `scanning` at that moment (which the timer reads, stale). */
  datatype ScanContext = ScanContext(
    slot: int,
    target: string,
    userId: string,
    material: string,
    capturedScanning: bool)

  /** The state after a scan request, and the scan it began, if any. */
  datatype StartScan = StartScan(session: Session, scan: Option<ScanContext>)

  /** One delivery to the scan callback. */
  datatype ScanEvent = ScanError | NoDevice | Advertisement(device: Device)

  /** The state after a scan callback, and the identifier it began connecting to, if any. */
  datatype ScanStep = ScanStep(session: Session, connectTo: Option<string>)

  /** How the connect / discover chain started by a match ended. */
  datatype LinkResult = LinkFailed | Linked(deviceId: string, servicesDiscovered: bool)

  /** The state after the connect chain, and the user-info payload it wrote, if any. */
  datatype LinkStep = LinkStep(session: Session, userInfo: Option<string>)

  /** The state after a command request, the command written, and whether a weight
      subscription was opened. */
  datatype CommandStep = CommandStep(session: Session, written: Option<Command>, subscribed: bool)

  /** One delivery to the weight-data subscription. */
  datatype Notification = NotificationError | NoValue | Reading(weight: real)

  /** The window is bounded, the stable flag is the detector's verdict on the window, and the
      current weight is the newest reading in the window. */
  predicate Inv(s: Session)
  {
    && |s.readings| <= WindowCapacity
    && s.isWeightStable == CheckWeightStability(s.readings)
    && (|s.readings| > 0 ==> s.currentWeight == Some(s.readings[|s.readings| - 1]))
  }

  /** The hook's initial state. */
  function Initial(managerReady: bool): (s: Session)
    ensures Inv(s)
    ensures !s.scanning && !s.isWeightStable && s.connectedDeviceId.None?
    ensures s.managerReady == managerReady
    ensures s.selectedWeight.None? && s.currentWeight.None? && s.readings == []
  {
    Session(managerReady, false, None, None, None, false, [])
  }

  /** `startScanForWeight`. Without a manager nothing happens. Otherwise the slot is recorded
      first; then a missing or empty target, or a scan already running, ends the request
      without scanning; else `scanning` is raised and a scan for the slot's target begins. */
  function StartScanForWeight(s: Session, slot: int, userId: string, material: string): (r: StartScan)
    ensures !s.managerReady ==> r.session == s && r.scan.None?
    ensures s.managerReady ==> r.session.selectedWeight == Some(slot)
    ensures r.scan.Some? <==> s.managerReady && IsTruthyString(TargetFor(slot)) && !s.scanning
    ensures r.scan.Some? ==>
              && r.session.scanning
              && r.scan.value == ScanContext(slot, TargetFor(slot).value, userId, material, false)
    ensures r.scan.None? ==> r.session.scanning == s.scanning
    ensures r.session.(selectedWeight := s.selectedWeight, scanning := s.scanning) == s
  {
    if !s.managerReady then StartScan(s, None)
    else
      var s1 := s.(selectedWeight := Some(slot));
      var target := TargetFor(slot);
      if !IsTruthyString(target) then StartScan(s1, None)
      else if s.scanning then StartScan(s1, None)
      else StartScan(s1.(scanning := true), Some(ScanContext(slot, target.value, userId, material, s.scanning)))
  }

  /** The scan callback. An error lowers `scanning`; a matching advertisement lowers it and
      begins connecting to that device; anything else changes nothing. The callback keeps no
      record of an earlier match. */
  function OnScanEvent(s: Session, ctx: ScanContext, ev: ScanEvent): (r: ScanStep)
    ensures ev.ScanError? ==> !r.session.scanning && r.connectTo.None?
    ensures ev.Advertisement? ==> (r.connectTo.Some? <==> MatchesTarget(ev.device, ctx.target))
    ensures r.connectTo.Some? ==> ev.Advertisement? && !r.session.scanning && r.connectTo.value == ev.device.id
    ensures !ev.ScanError? && r.connectTo.None? ==> r.session == s
    ensures r.session == s.(scanning := r.session.scanning)
  {
    match ev
    case ScanError => ScanStep(s.(scanning := false), None)
    case NoDevice => ScanStep(s, None)
    case Advertisement(d) =>
      if MatchesTarget(d, ctx.target) then ScanStep(s.(scanning := false), Some(d.id))
      else ScanStep(s, None)
  }

  /** The eight-second scan timer. It tests the live `found` but the `scanning` value captured
      when the scan began, and can only ever lower `scanning`. */
  function OnScanTimeout(s: Session, ctx: ScanContext, found: bool): (r: Session)
    ensures r == s || r == s.(scanning := false)
    ensures !ctx.capturedScanning || found || !s.managerReady ==> r == s
    ensures s.managerReady && !found && ctx.capturedScanning ==> r == s.(scanning := false)
  {
    if !s.managerReady then s
    else if !found && ctx.capturedScanning then s.(scanning := false)
    else s
  }

  /** The connect chain begun by a match: a connection records the device identifier; if
      service discovery also succeeds, the user-info payload for the scan's user and material
      is written. A failure is only reported. */
  function OnLinkResult(s: Session, ctx: ScanContext, res: LinkResult): (r: LinkStep)
    ensures res.LinkFailed? ==> r.session == s && r.userInfo.None?
    ensures res.Linked? ==> r.session == s.(connectedDeviceId := Some(res.deviceId))
    ensures r.userInfo.Some? <==> res.Linked? && res.servicesDiscovered
    ensures r.userInfo.Some? ==> r.userInfo.value == UserInfoPayload(ctx.userId, ctx.material)
    ensures r.userInfo.Some? && ';' !in ctx.userId ==>
              DecodeUserInfo(r.userInfo.value) == Some(UserInfo(ctx.userId, ctx.material))
  {
    match res
    case LinkFailed => LinkStep(s, None)
    case Linked(id, discovered) =>
      var s1 := s.(connectedDeviceId := Some(id));
      if discovered then LinkStep(s1, Some(UserInfoPayload(ctx.userId, ctx.material)))
      else LinkStep(s1, None)
  }

  /** `stopScan`: with a manager, `scanning` is lowered; nothing else changes. */
  function StopScan(s: Session): (r: Session)
    ensures s.managerReady ==> !r.scanning
    ensures !s.managerReady ==> r == s
    ensures r == s.(scanning := r.scanning)
  {
    if !s.managerReady then s else s.(scanning := false)
  }

  /** `sendStartCommand`. It needs a truthy connected identifier and a manager; `linkOk` says
      whether reconnecting, discovery and the START write all succeeded. Only then is the
      window emptied, the stable flag cleared and the weight subscription opened. The current
      weight is left as it was. */
  function SendStartCommand(s: Session, linkOk: bool): (r: CommandStep)
    ensures r.written.Some? <==> IsTruthyString(s.connectedDeviceId) && s.managerReady && linkOk
    ensures r.written.Some? ==> r.written.value == Start && r.subscribed
    ensures r.written.Some? ==> r.session == s.(readings := [], isWeightStable := false)
    ensures r.written.None? ==> r.session == s && !r.subscribed
  {
    if !IsTruthyString(s.connectedDeviceId) then CommandStep(s, None, false)
    else if !s.managerReady then CommandStep(s, None, false)
    else if !linkOk then CommandStep(s, None, false)
    else CommandStep(s.(readings := [], isWeightStable := false), Some(Start), true)
  }

  /** `sendConfirmResult`: the CONFIRM_RESULT command is written under the same conditions
      as START, and no state changes, so the window and the stable flag survive it. */
  function SendConfirmResult(s: Session, linkOk: bool): (r: CommandStep)
    ensures r.written.Some? <==> IsTruthyString(s.connectedDeviceId) && s.managerReady && linkOk
    ensures r.written.Some? ==> r.written.value == ConfirmResult
    ensures r.session == s && !r.subscribed
  {
    if !IsTruthyString(s.connectedDeviceId) then CommandStep(s, None, false)
    else if !s.managerReady then CommandStep(s, None, false)
    else if !linkOk then CommandStep(s, None, false)
    else CommandStep(s, Some(ConfirmResult), false)
  }

  /** `resetAndMeasureAgain`: the current weight, the stable flag and the window are cleared
      unconditionally, then START is sent as by `sendStartCommand`. */
  function ResetAndMeasureAgain(s: Session, linkOk: bool): (r: CommandStep)
    ensures r.session.currentWeight.None? && !r.session.isWeightStable && r.session.readings == []
    ensures r.written.Some? <==> IsTruthyString(s.connectedDeviceId) && s.managerReady && linkOk
    ensures r.written.Some? ==> r.written.value == Start && r.subscribed
    ensures r.written.None? ==> !r.subscribed
    ensures r.session.(currentWeight := s.currentWeight, isWeightStable := s.isWeightStable,
                       readings := s.readings) == s
  {
    var s1 := s.(currentWeight := None, isWeightStable := false, readings := []);
    SendStartCommand(s1, linkOk)
  }

  /** The weight subscription callback. A reading becomes the current weight and is pushed
      onto the window, and the stable flag is recomputed from the window on every reading,
      so it can fall back to false. Errors and empty values change nothing. */
  function OnWeightNotification(s: Session, n: Notification): (r: Session)
    ensures n.Reading? ==> r.currentWeight == Some(n.weight)
    ensures n.Reading? ==> r.readings == PushReading(s.readings, n.weight)
    ensures n.Reading? ==> r.isWeightStable == CheckWeightStability(r.readings)
    ensures n.Reading? ==> r.(currentWeight := s.currentWeight, readings := s.readings,
                              isWeightStable := s.isWeightStable) == s
    ensures !n.Reading? ==> r == s
  {
    match n
    case NotificationError => s
    case NoValue => s
    case Reading(w) =>
      var window := PushReading(s.readings, w);
      s.(currentWeight := Some(w), readings := window, isWeightStable := CheckWeightStability(window))
  }

  /** A run of readings delivered one after another. */
  function NotifyAll(s: Session, ws: seq<real>): Session
    decreases |ws|
  {
    if |ws| == 0 then s else NotifyAll(OnWeightNotification(s, Reading(ws[0])), ws[1..])
  }

  /** Everything that can happen to the hook. */
  datatype Event =
    | ScanRequested(slot: int, userId: string, material: string)
    | ScanCallback(ctx: ScanContext, scanEvent: ScanEvent)
    | ScanTimerFired(timerCtx: ScanContext, found: bool)
    | LinkSettled(linkCtx: ScanContext, res: LinkResult)
    | StopRequested
    | StartCommandSettled(startOk: bool)
    | MeasureAgainRequested(againOk: bool)
    | ConfirmSettled(confirmOk: bool)
    | WeightNotified(n: Notification)

  /** The state after one event. */
  function Next(s: Session, e: Event): Session
  {
    match e
    case ScanRequested(slot, userId, material) => StartScanForWeight(s, slot, userId, material).session
    case ScanCallback(ctx, ev) => OnScanEvent(s, ctx, ev).session
    case ScanTimerFired(ctx, found) => OnScanTimeout(s, ctx, found)
    case LinkSettled(ctx, res) => OnLinkResult(s, ctx, res).session
    case StopRequested => StopScan(s)
    case StartCommandSettled(ok) => SendStartCommand(s, ok).session
    case MeasureAgainRequested(ok) => ResetAndMeasureAgain(s, ok).session
    case ConfirmSettled(ok) => SendConfirmResult(s, ok).session
    case WeightNotified(n) => OnWeightNotification(s, n)
  }

  /** The invariant only reads the window, the stable flag and the current weight. */
  lemma InvOnMeasurement(s: Session, r: Session)
    requires Inv(s)
    requires r.readings == s.readings && r.isWeightStable == s.isWeightStable
    requires r.currentWeight == s.currentWeight
    ensures Inv(r)
  {
  }

  /** A weight notification keeps the invariant. */
  lemma NotificationPreservesInv(s: Session, n: Notification)
    requires Inv(s)
    ensures Inv(OnWeightNotification(s, n))
  {
    if n.Reading? {
      var r := OnWeightNotification(s, n);
      assert r.readings[|r.readings| - 1] == n.weight;
    }
  }

  /** START, CONFIRM_RESULT and measure-again keep the invariant. */
  lemma CommandsPreserveInv(s: Session, ok: bool)
    requires Inv(s)
    ensures Inv(SendStartCommand(s, ok).session)
    ensures Inv(SendConfirmResult(s, ok).session)
    ensures Inv(ResetAndMeasureAgain(s, ok).session)
  {
    if SendStartCommand(s, ok).written.None? {
      InvOnMeasurement(s, SendStartCommand(s, ok).session);
    }
  }

  /** Every event keeps the window bounded, the stable flag equal to the detector's verdict
      on the window, and the current weight equal to the newest reading. */
  lemma NextPreservesInv(s: Session, e: Event)
    requires Inv(s)
    ensures Inv(Next(s, e))
  {
    match e
    case ScanRequested(slot, userId, material) =>
      var r := StartScanForWeight(s, slot, userId, material).session;
      InvOnMeasurement(s, r);
    case ScanCallback(ctx, ev) =>
      var r := OnScanEvent(s, ctx, ev).session;
      InvOnMeasurement(s, r);
    case ScanTimerFired(ctx, found) =>
      var r := OnScanTimeout(s, ctx, found);
      InvOnMeasurement(s, r);
    case LinkSettled(ctx, res) =>
      var r := OnLinkResult(s, ctx, res).session;
      InvOnMeasurement(s, r);
    case StopRequested =>
      var r := StopScan(s);
      InvOnMeasurement(s, r);
    case StartCommandSettled(ok) =>
      CommandsPreserveInv(s, ok);
    case MeasureAgainRequested(ok) =>
      CommandsPreserveInv(s, ok);
    case ConfirmSettled(ok) =>
      CommandsPreserveInv(s, ok);
    case WeightNotified(n) =>
      NotificationPreservesInv(s, n);
  }

  /** Any run of events from a state that keeps the invariant keeps it. */
  lemma {:induction false} RunPreservesInv(s: Session, es: seq<Event>)
    requires Inv(s)
    ensures Inv(Run(s, es))
    decreases |es|
  {
    if |es| > 0 {
      NextPreservesInv(s, es[0]);
      RunPreservesInv(Next(s, es[0]), es[1..]);
    }
  }

  /** Every state the hook reaches from its initial state keeps the invariant. */
  lemma RunFromInitialKeepsInv(managerReady: bool, es: seq<Event>)
    ensures Inv(Run(Initial(managerReady), es))
  {
    RunPreservesInv(Initial(managerReady), es);
  }

  /** The state after a run of events. */
  function Run(s: Session, es: seq<Event>): Session
    decreases |es|
  {
    if |es| == 0 then s else Run(Next(s, es[0]), es[1..])
  }

  /** A run of readings moves the window exactly as the same run of pushes does. */
  lemma {:induction false} NotifyAllPushes(s: Session, ws: seq<real>)
    ensures NotifyAll(s, ws).readings == PushAll(s.readings, ws)
    decreases |ws|
  {
    if |ws| > 0 {
      NotifyAllPushes(OnWeightNotification(s, Reading(ws[0])), ws[1..]);
    }
  }

  /** After a run of readings the window holds the last ten of the old window followed by the
      new readings. */
  lemma NotifyAllWindow(s: Session, ws: seq<real>)
    requires |s.readings| <= WindowCapacity
    ensures NotifyAll(s, ws).readings == LastN(s.readings + ws, WindowCapacity)
  {
    NotifyAllPushes(s, ws);
    PushAllIsSuffix(s.readings, ws);
  }

  /** After a non-empty run of readings the stable flag is the verdict on the final window
      and the current weight is the last reading. */
  lemma {:induction false} NotifyAllFlags(s: Session, ws: seq<real>)
    requires |ws| > 0
    ensures NotifyAll(s, ws).isWeightStable == CheckWeightStability(NotifyAll(s, ws).readings)
    ensures NotifyAll(s, ws).currentWeight == Some(ws[|ws| - 1])
    decreases |ws|
  {
    var s1 := OnWeightNotification(s, Reading(ws[0]));
    if |ws| > 1 {
      NotifyAllFlags(s1, ws[1..]);
      assert ws[1..][|ws[1..]| - 1] == ws[|ws| - 1];
    }
  }

  /** From an empty window, four readings or fewer never make the flag stable. */
  lemma FreshWindowNeedsFiveReadings(s: Session, ws: seq<real>)
    requires s.readings == [] && !s.isWeightStable
    requires |ws| < StabilityReadingsCount
    ensures !NotifyAll(s, ws).isWeightStable
  {
    NotifyAllWindow(s, ws);
    assert [] + ws == ws;
    if |ws| > 0 {
      NotifyAllFlags(s, ws);
    }
  }

  /** From an empty window, five equal readings make the flag stable. */
  lemma FreshWindowFiveEqualReadingsAreStable(s: Session, ws: seq<real>)
    requires s.readings == []
    requires |ws| == StabilityReadingsCount && AllEqual(ws)
    ensures NotifyAll(s, ws).isWeightStable
  {
    NotifyAllWindow(s, ws);
    NotifyAllFlags(s, ws);
    assert [] + ws == ws;
    assert ws[|ws| - StabilityReadingsCount..] == ws;
  }

  /** A successful START, and a measure-again whatever its outcome, leave the flag unstable
      for at least the next four readings. */
  lemma ResetNeedsFiveReadings(s: Session, linkOk: bool, ws: seq<real>)
    requires |ws| < StabilityReadingsCount
    ensures SendStartCommand(s, linkOk).written.Some? ==>
              !NotifyAll(SendStartCommand(s, linkOk).session, ws).isWeightStable
    ensures !NotifyAll(ResetAndMeasureAgain(s, linkOk).session, ws).isWeightStable
  {
    if SendStartCommand(s, linkOk).written.Some? {
      FreshWindowNeedsFiveReadings(SendStartCommand(s, linkOk).session, ws);
    }
    FreshWindowNeedsFiveReadings(ResetAndMeasureAgain(s, linkOk).session, ws);
  }

  /** There is no latch: a reading that differs from the newest one always leaves the flag
      false, even when it was stable just before. */
  lemma StableFlagCanFall(s: Session, w: real)
    requires |s.readings| > 0 && w != s.readings[|s.readings| - 1]
    ensures !OnWeightNotification(s, Reading(w)).isWeightStable
  {
    var r := PushReading(s.readings, w);
    assert OnWeightNotification(s, Reading(w)).readings == r;
    if |r| >= StabilityReadingsCount {
      var t := r[|r| - StabilityReadingsCount..];
      assert t[4] == r[|r| - 1] == w;
      assert t[3] == r[|r| - 2] == s.readings[|s.readings| - 1];
      assert !AllEqual(t);
    }
  }

  /** The scan timer never changes anything: every scan that actually began captured
      `scanning` as false, so a scan that finds nothing keeps running after the timer. */
  lemma ScanTimeoutNeverFires(s: Session, slot: int, userId: string, material: string,
                              later: Session, found: bool)
    requires StartScanForWeight(s, slot, userId, material).scan.Some?
    ensures OnScanTimeout(later, StartScanForWeight(s, slot, userId, material).scan.value, found) == later
    ensures StartScanForWeight(s, slot, userId, material).session.scanning
  {
  }

  /** Nothing stops a second match: two matching advertisements delivered in a row both
      begin a connection. */
  lemma MatchesAreNotDeduplicated(s: Session, ctx: ScanContext, d: Device)
    requires MatchesTarget(d, ctx.target)
    ensures OnScanEvent(s, ctx, Advertisement(d)).connectTo == Some(d.id)
    ensures OnScanEvent(OnScanEvent(s, ctx, Advertisement(d)).session, ctx, Advertisement(d)).connectTo == Some(d.id)
  {
  }
}
