/** The caller-side guards of the main screen: form validation before a scan, the START
    guard, the button-disabled predicates and the status-text priority. Rendering, styles
    and screen navigation are not modelled. */
module App {
  import opened Options
  import opened BleConfig
  import opened Stability
  import opened Protocol
  import opened ScaleSession

  /** The material choices offered by the screen. */
  datatype Material = Alu | Staal | Plast

  /** The string the screen passes for a material. */
  function MaterialName(m: Material): string
  {
    match m
    case Alu => "ALU"
    case Staal => "STAAL"
    case Plast => "PLAST"
  }

  /** The screen's form state. */
  datatype Form = Form(selectedWeight: Option<int>, userId: string, material: Option<Material>)

  /** The slot buttons only ever store 1, 2 or 3, and going back stores null. */
  predicate ReachableForm(f: Form)
  {
    f.selectedWeight.None? || 1 <= f.selectedWeight.value <= 3
  }

  /** The characters `String.prototype.trim` removes: ECMAScript white space and line
      terminators (tab, line feed, vertical tab, form feed, carriage return, space, no-break
      space, the space separators of Unicode, line and paragraph separator, byte-order mark). */
  const JsWhitespace: set<char> := {
    '\t', '\n', '\U{000B}', '\U{000C}', '\r', ' ', '\U{00A0}', '\U{1680}',
    '\U{2000}', '\U{2001}', '\U{2002}', '\U{2003}', '\U{2004}', '\U{2005}',
    '\U{2006}', '\U{2007}', '\U{2008}', '\U{2009}', '\U{200A}',
    '\U{2028}', '\U{2029}', '\U{202F}', '\U{205F}', '\U{3000}', '\U{FEFF}'
  }

  predicate IsJsWhitespace(c: char)
  {
    c in JsWhitespace
  }

  /** How many white-space characters `s` starts with. */
  function LeadingWhitespace(s: string): (n: nat)
    ensures n <= |s|
    ensures forall k :: 0 <= k < n ==> IsJsWhitespace(s[k])
    ensures n < |s| ==> !IsJsWhitespace(s[n])
  {
    if |s| == 0 || !IsJsWhitespace(s[0]) then 0 else 1 + LeadingWhitespace(s[1..])
  }

  /** Where the trailing white space of `s` begins. */
  function TrailingWhitespace(s: string): (j: nat)
    ensures j <= |s|
    ensures forall k :: j <= k < |s| ==> IsJsWhitespace(s[k])
    ensures j > 0 ==> !IsJsWhitespace(s[j - 1])
  {
    if |s| == 0 || !IsJsWhitespace(s[|s| - 1]) then |s| else TrailingWhitespace(s[..|s| - 1])
  }

  /** `s.trim()`: what lies between the leading and the trailing white space. It is empty
      exactly when `s` is all white space, and otherwise it starts and ends with a character
      that is not white space and is preceded and followed in `s` by white space only. */
  function Trim(s: string): (r: string)
    ensures r == "" <==> forall k :: 0 <= k < |s| ==> IsJsWhitespace(s[k])
    ensures r != "" ==> LeadingWhitespace(s) < TrailingWhitespace(s)
                        && r == s[LeadingWhitespace(s)..TrailingWhitespace(s)]
    ensures r != "" ==> !IsJsWhitespace(r[0]) && !IsJsWhitespace(r[|r| - 1])
  {
    var i, j := LeadingWhitespace(s), TrailingWhitespace(s);
    if j <= i then "" else s[i..j]
  }

  /** The arguments `handleScan` hands to `startScanForWeight`. */
  datatype ScanRequest = ScanRequest(slot: int, userId: string, material: string)

  /** `handleScan`: a scan is requested only when a slot is chosen (a truthy number), the
      trimmed user identifier is non-empty and a material is chosen; the trimmed identifier is
      what is passed on. */
  function HandleScan(f: Form): (r: Option<ScanRequest>)
    ensures r.Some? <==>
              && IsTruthyNumber(f.selectedWeight)
              && (exists k :: 0 <= k < |f.userId| && !IsJsWhitespace(f.userId[k]))
              && f.material.Some?
    ensures r.Some? ==>
              r.value == ScanRequest(f.selectedWeight.value, Trim(f.userId), MaterialName(f.material.value))
  {
    if !IsTruthyNumber(f.selectedWeight) then None
    else if Trim(f.userId) == "" then None
    else if f.material.None? then None
    else Some(ScanRequest(f.selectedWeight.value, Trim(f.userId), MaterialName(f.material.value)))
  }

  /** `isFormComplete`: a slot and a material are chosen and the user identifier holds a
      character that is not white space. */
  predicate IsFormComplete(f: Form)
    ensures IsFormComplete(f) <==>
              && f.selectedWeight.Some?
              && (exists k :: 0 <= k < |f.userId| && !IsJsWhitespace(f.userId[k]))
              && f.material.Some?
  {
    f.selectedWeight.Some? && Trim(f.userId) != "" && f.material.Some?
  }

  /** For every form the screen can reach, the completeness test and the scan guard agree. */
  lemma FormCompleteAgreesWithScanGuard(f: Form)
    requires ReachableForm(f)
    ensures IsFormComplete(f) <==> HandleScan(f).Some?
  {
  }

  /** The two tests are written differently (`!== null` against falsiness) and part ways on a
      slot of 0, which no button can store. */
  lemma GuardsDisagreeOnSlotZero()
    ensures IsFormComplete(Form(Some(0), "u1", Some(Alu)))
    ensures HandleScan(Form(Some(0), "u1", Some(Alu))).None?
  {
    assert "u1"[0] == 'u';
  }

  /** The scan button is disabled while the form is incomplete or a scan runs; on every
      reachable form it is enabled exactly when no scan runs and `handleScan` would request one. */
  predicate ScanButtonDisabled(f: Form, scanning: bool)
    ensures ReachableForm(f) ==> (!ScanButtonDisabled(f, scanning) <==> !scanning && HandleScan(f).Some?)
  {
    !IsFormComplete(f) || scanning
  }

  /** Pressing an enabled scan button, with the manager set up, begins a scan for the chosen
      slot's target that will write the user-info payload for the trimmed identifier and the
      chosen material. */
  lemma EnabledScanButtonBeginsScan(f: Form, s: Session)
    requires ReachableForm(f) && s.managerReady
    requires !ScanButtonDisabled(f, s.scanning)
    ensures HandleScan(f).Some?
    ensures var q := HandleScan(f).value;
            var st := StartScanForWeight(s, q.slot, q.userId, q.material);
            && st.scan.Some?
            && st.scan.value.target == TargetPrefix + [SlotDigit(f.selectedWeight.value)]
            && UserInfoPayload(st.scan.value.userId, st.scan.value.material)
               == "USER:" + Trim(f.userId) + ";MAT:" + MaterialName(f.material.value)
  {
    FormCompleteAgreesWithScanGuard(f);
    EveryWeightNumberHasTarget(f.selectedWeight.value);
  }

  /** `isStartEnabled`: a truthy connected identifier. Outside a scan, START is enabled
      exactly when the status text names the connected scale. */
  predicate IsStartEnabled(connectedDeviceId: Option<string>)
    ensures IsStartEnabled(connectedDeviceId) ==> connectedDeviceId.Some? && connectedDeviceId.value != ""
    ensures forall w :: IsStartEnabled(connectedDeviceId) <==> RenderStatusText(false, connectedDeviceId, w).ConnectedText?
  {
    IsTruthyString(connectedDeviceId)
  }

  /** `handleStartWeight`: with no connected scale nothing is sent; otherwise the hook's
      `sendStartCommand` runs, whose own guard then always passes, so START is written
      whenever the manager is set up and the link succeeds. */
  function HandleStartWeight(s: Session, linkOk: bool): (r: Option<CommandStep>)
    ensures r.Some? <==> IsStartEnabled(s.connectedDeviceId)
    ensures r.Some? ==> (r.value.written == Some(Start) <==> s.managerReady && linkOk)
    ensures r.Some? ==> (r.value.written.Some? <==> s.managerReady && linkOk)
    ensures r.Some? && r.value.written.Some? ==> r.value.written.value == Start
    ensures r.Some? && r.value.written.Some? ==>
              r.value.session == s.(readings := [], isWeightStable := false) && r.value.subscribed
    ensures r.Some? && r.value.written.None? ==> r.value.session == s && !r.value.subscribed
  {
    if !IsTruthyString(s.connectedDeviceId) then None
    else Some(SendStartCommand(s, linkOk))
  }

  /** The confirm button is disabled until the weight is stable; in particular, in any state
      that keeps the session invariant, it stays disabled while fewer than five readings are in
      the window. */
  predicate ConfirmDisabled(s: Session)
    ensures Inv(s) && |s.readings| < StabilityReadingsCount ==> ConfirmDisabled(s)
    ensures Inv(s) ==>
              (!ConfirmDisabled(s) <==>
                 |s.readings| >= StabilityReadingsCount
                 && AllEqual(s.readings[|s.readings| - StabilityReadingsCount..]))
  {
    assert Inv(s) ==> s.isWeightStable == CheckWeightStability(s.readings);
    !s.isWeightStable
  }

  /** When the confirm button is enabled, the last five readings in the window are equal and
      the displayed weight is the newest of them. */
  lemma ConfirmEnabledMeansSettled(s: Session)
    requires Inv(s) && !ConfirmDisabled(s)
    ensures |s.readings| >= StabilityReadingsCount
    ensures AllEqual(s.readings[|s.readings| - StabilityReadingsCount..])
    ensures s.currentWeight == Some(s.readings[|s.readings| - 1])
  {
    assert CheckWeightStability(s.readings);
  }

  /** Which message `renderStatusText` shows. */
  datatype StatusText = ScanningText | ConnectedText(deviceId: string) | ReadyText(slot: int) | ChooseText

  /** `renderStatusText`: scanning beats connected, connected beats a chosen slot, and a chosen
      slot beats the default prompt. */
  function RenderStatusText(scanning: bool, connectedDeviceId: Option<string>, selectedWeight: Option<int>): (t: StatusText)
    ensures t.ScanningText? <==> scanning
    ensures t.ConnectedText? <==> !scanning && IsTruthyString(connectedDeviceId)
    ensures t.ConnectedText? ==> t.deviceId == connectedDeviceId.value
    ensures t.ReadyText? <==> !scanning && !IsTruthyString(connectedDeviceId) && IsTruthyNumber(selectedWeight)
    ensures t.ReadyText? ==> t.slot == selectedWeight.value
  {
    if scanning then ScanningText
    else if IsTruthyString(connectedDeviceId) then ConnectedText(connectedDeviceId.value)
    else if IsTruthyNumber(selectedWeight) then ReadyText(selectedWeight.value)
    else ChooseText
  }

  /** The header badge. */
  datatype Badge = ScanningBadge | ConnectedBadge | IdleBadge

  /** The header badge: scanning, else connected, else idle. Outside a scan the badge shows
      connected exactly when the START button is enabled. */
  function HeaderBadge(scanning: bool, connectedDeviceId: Option<string>): (b: Badge)
    ensures b == ScanningBadge <==> scanning
    ensures b == ConnectedBadge <==> !scanning && IsStartEnabled(connectedDeviceId)
  {
    if scanning then ScanningBadge
    else if IsTruthyString(connectedDeviceId) then ConnectedBadge
    else IdleBadge
  }

  /** The badge and the status text never contradict each other, whatever slot is chosen. */
  lemma BadgeAgreesWithStatusText(scanning: bool, connectedDeviceId: Option<string>, selectedWeight: Option<int>)
    ensures var t := RenderStatusText(scanning, connectedDeviceId, selectedWeight);
            var b := HeaderBadge(scanning, connectedDeviceId);
            && (b == ScanningBadge <==> t.ScanningText?)
            && (b == ConnectedBadge <==> t.ConnectedText?)
            && (b == IdleBadge <==> t.ReadyText? || t.ChooseText?)
  {
  }
}
