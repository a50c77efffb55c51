/** The wire-level pieces of the session: which advertisement is the wanted scale, the
    user-info payload written after connecting, and the two command strings. */
module Protocol {
  import opened Options

  /** What the scan callback sees of an advertising device. */
  datatype Device = Device(name: Option<string>, localName: Option<string>, id: string)

  /** `device.name ?? device.localName ?? ''`. */
  function DisplayName(d: Device): string
  {
    Coalesce(d.name, Coalesce(d.localName, ""))
  }

  /** The scan callback's match test: the display name or the identifier equals the target.
      The name shadows the local name whenever it is present, and a device advertising
      neither name has display name `""`. */
  predicate MatchesTarget(d: Device, target: string)
    ensures MatchesTarget(d, target) <==>
      || d.id == target
      || (d.name.Some? && d.name.value == target)
      || (d.name.None? && d.localName.Some? && d.localName.value == target)
      || (d.name.None? && d.localName.None? && target == "")
  {
    DisplayName(d) == target || d.id == target
  }

  /** A device whose advertised name differs from the target is not matched by a local name
      equal to the target, unless its identifier matches. */
  lemma NameShadowsLocalName(d: Device, target: string)
    requires d.name.Some? && d.name.value != target
    requires d.localName == Some(target) && d.id != target
    ensures !MatchesTarget(d, target)
  {
  }

  /** For a non-empty target, a device advertising no name at all is matched only by its
      identifier. */
  lemma NamelessDeviceMatchesOnlyById(d: Device, target: string)
    requires d.name.None? && d.localName.None? && target != ""
    ensures MatchesTarget(d, target) <==> d.id == target
  {
  }

  /** The fields of the user-info payload. */
  datatype UserInfo = UserInfo(userId: string, material: string)

  /** The user-info payload `USER:<userId>;MAT:<material>` (before base64 encoding): the
      prefix, the identifier as given, the separator and the material, in that order, for
      every identifier. A device that reads the identifier up to the first `;` gets both
      fields back whenever the identifier itself holds no `;`. */
  function UserInfoPayload(userId: string, material: string): (p: string)
    ensures |p| == |userId| + |material| + 10
    ensures p[..5] == "USER:" && p[5..5 + |userId|] == userId
    ensures p[5 + |userId|..10 + |userId|] == ";MAT:" && p[|p| - |material|..] == material
    ensures ';' !in userId ==> DecodeUserInfo(p) == Some(UserInfo(userId, material))
  {
    var p := "USER:" + userId + ";MAT:" + material;
    if ';' in userId then p else DecodeReadsBack(userId, material); p
  }

  /** The decoder inverts the payload format when the user identifier holds no `;`. */
  lemma DecodeReadsBack(userId: string, material: string)
    requires ';' !in userId
    ensures DecodeUserInfo("USER:" + userId + ";MAT:" + material) == Some(UserInfo(userId, material))
  {
    var p := "USER:" + userId + ";MAT:" + material;
    var body := p[5..];
    assert body == userId + ";MAT:" + material;
    assert body[|userId|] == ';';
    assert body[..|userId|] == userId;
    var i := IndexOf(body, ';');
    assert i.Some?;
    assert i.value == |userId|;
    assert body[|userId| + 1..] == "MAT:" + material;
  }

  /** Without that condition the format is ambiguous: two different identifier/material
      pairs can produce the same payload. */
  lemma PayloadAmbiguousWithSeparator()
    ensures UserInfoPayload("a;MAT:b", "ALU") == UserInfoPayload("a", "b;MAT:ALU")
  {
    assert "USER:" + "a;MAT:b" + ";MAT:" + "ALU" == "USER:a;MAT:b;MAT:ALU";
    assert "USER:" + "a" + ";MAT:" + "b;MAT:ALU" == "USER:a;MAT:b;MAT:ALU";
  }

  /** The first position of `c` in `s`, if any. */
  function IndexOf(s: string, c: char): (r: Option<nat>)
    ensures r.None? ==> c !in s
    ensures r.Some? ==> r.value < |s| && s[r.value] == c && c !in s[..r.value]
  {
    if |s| == 0 then None
    else if s[0] == c then Some(0)
    else
      match IndexOf(s[1..], c)
      case None => None
      case Some(i) =>
        assert s[..i + 1] == [s[0]] + s[1..][..i];
        Some(i + 1)
  }

  /** Reading a user-info payload back: the user identifier runs up to the first `;`,
      which must be followed by `MAT:` and the material. */
  function DecodeUserInfo(p: string): Option<UserInfo>
  {
    if |p| < 5 || p[..5] != "USER:" then None
    else
      var body := p[5..];
      match IndexOf(body, ';')
      case None => None
      case Some(i) =>
        var rest := body[i + 1..];
        if |rest| < 4 || rest[..4] != "MAT:" then None
        else Some(UserInfo(body[..i], rest[4..]))
  }

  /** The two commands written to the command characteristic. */
  datatype Command = Start | ConfirmResult

  /** The literal text of a command (before base64 encoding). */
  function CommandText(c: Command): string
  {
    match c
    case Start => "START"
    case ConfirmResult => "CONFIRM_RESULT"
  }

  /** A reference reader for command strings. The app never parses commands; this stands
      in for the scale's firmware, which is not part of this model, so that `CommandRoundTrip`
      can state that the two command texts are never confused. */
  function ParseCommand(s: string): Option<Command>
  {
    if s == "START" then Some(Start)
    else if s == "CONFIRM_RESULT" then Some(ConfirmResult)
    else None
  }

  /** Each command text is read back as that command, so the two never collide. */
  lemma CommandRoundTrip(c: Command)
    ensures ParseCommand(CommandText(c)) == Some(c)
    ensures forall d :: CommandText(d) == CommandText(c) ==> d == c
  {
  }
}
