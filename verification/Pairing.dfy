/** From a raw group response to the sanitized member observation, and the client's member rules. */
module Pairing {
  import opened Wrappers
  import opened Ascii

  type Identity = seq<int>

  datatype ParseError =
    | InvalidConfig | DeviceReportedError | GroupInfoMissing | GroupMembersMissing
    | GroupDisabledInvalid | GroupMemberInvalid

  /** A member as decoded from JSON; absent or mistyped fields are None. */
  datatype RawMember = RawMember(name: Option<string>, id: Option<string>, channels: Option<seq<Option<string>>>)

  datatype GroupResponse = GroupResponse(errorCodeIsZero: bool, hasGroup: bool, members: Option<seq<Option<RawMember>>>,
                                         disabled: Option<bool>)

  datatype GroupMember = GroupMember(name: string, channels: seq<string>)

  datatype GroupStatus = GroupStatus(expectedPairConfigured: bool, disabled: bool, members: seq<GroupMember>)

  const JBL_ROLE: string := "JBL Authentics 300"
  const AURA_ROLE: string := "Aura Studio 5"
  const UNKNOWN: string := "unknown"

  // ---------------------------------------------------------------- identities

  function HexNibble(c: char): Option<int> {
    if IsDigit(c) then Some(c as int - '0' as int)
    else if 'a' <= c <= 'f' then Some(c as int - 'a' as int + 10)
    else if 'A' <= c <= 'F' then Some(c as int - 'A' as int + 10)
    else None
  }

  function HexByte(s: string, i: nat): Option<int>
    requires 2 * i + 1 < |s|
  {
    match (HexNibble(s[2 * i]), HexNibble(s[2 * i + 1]))
    case (Some(high), Some(low)) => Some(16 * high + low)
    case _ => None
  }

  predicate ValidIdentity(id: Identity) {
    |id| == 6 && (forall i :: 0 <= i < 6 ==> 0 <= id[i] < 256) && id != [0, 0, 0, 0, 0, 0] && id[0] % 2 == 0
  }

  /** Twelve hex digits that denote a non-zero unicast address. */
  function IdentityFromMemberId(value: string): (r: Option<Identity>)
    ensures r.Some? ==> ValidIdentity(r.value)
  {
    if |value| != 12 then None
    else if exists i :: 0 <= i < 6 && HexByte(value, i).None? then None
    else
      var id := seq(6, i requires 0 <= i < 6 => HexByte(value, i).value);
      if id == [0, 0, 0, 0, 0, 0] || id[0] % 2 == 1 then None else Some(id)
  }

  function HexDigit(n: int): char
    requires 0 <= n < 16
  {
    if n < 10 then ('0' as int + n) as char else ('a' as int + n - 10) as char
  }

  function CompactValue(id: Identity): string
    requires ValidIdentity(id)
  {
    seq(12, k requires 0 <= k < 12 => HexDigit(if k % 2 == 0 then id[k / 2] / 16 else id[k / 2] % 16))
  }

  /** The compact form the configuration stores reads back as the same identity. */
  lemma IdentityRoundTrip(id: Identity)
    requires ValidIdentity(id)
    ensures IdentityFromMemberId(CompactValue(id)) == Some(id)
  {
    var text := CompactValue(id);
    forall i | 0 <= i < 6
      ensures HexByte(text, i) == Some(id[i])
    {
      assert text[2 * i] == HexDigit(id[i] / 16) && text[2 * i + 1] == HexDigit(id[i] % 16);
    }
    var read := seq(6, i requires 0 <= i < 6 => HexByte(text, i).value);
    assert read == id;
  }

  // ---------------------------------------------------------------- group status

  const ALLOWED: set<string> := {"front_left", "front_right", "left", "right", "mono", "stereo"}

  /** The Unicode White_Space characters. */
  predicate IsWhitespace(c: char) {
    var n := c as int;
    || 0x9 <= n <= 0xd || n in {0x20, 0x85, 0xa0, 0x1680} || 0x2000 <= n <= 0x200a
    || n in {0x2028, 0x2029, 0x202f, 0x205f, 0x3000}
  }

  function StripStart(s: string): string {
    if s != "" && IsWhitespace(s[0]) then StripStart(s[1..]) else s
  }

  function StripEnd(s: string): string {
    if s != "" && IsWhitespace(s[|s| - 1]) then StripEnd(s[..|s| - 1]) else s
  }

  function SanitizedChannel(raw: string): string {
    var channel := Lower(StripEnd(StripStart(raw)));
    if channel in ALLOWED then channel else UNKNOWN
  }

  /** A member gets a public role only under its exact name and its exact private identity. */
  function SanitizedMember(raw: Option<RawMember>, jbl: Identity, aura: Identity): Result<GroupMember, ParseError> {
    match raw
    case None => Err(GroupMemberInvalid)
    case Some(member) =>
      if member.name.None? || member.name.value == "" || member.id.None? then Err(GroupMemberInvalid)
      else
        var identity := IdentityFromMemberId(member.id.value);
        if identity.None? || member.channels.None?
           || exists i :: 0 <= i < |member.channels.value| && member.channels.value[i].None?
        then Err(GroupMemberInvalid)
        else
          var name := if member.name.value == JBL_ROLE && identity.value == jbl then JBL_ROLE
                      else if member.name.value == AURA_ROLE && identity.value == aura then AURA_ROLE
                      else UNKNOWN;
          var raws := member.channels.value;
          Ok(GroupMember(name,
                         seq(|raws|, i requires 0 <= i < |raws| && raws[i].Some? => SanitizedChannel(raws[i].value))))
  }

  function CountNamed(members: seq<GroupMember>, name: string): nat {
    if members == [] then 0
    else CountNamed(members[..|members| - 1], name) + (if members[|members| - 1].name == name then 1 else 0)
  }

  lemma {:induction false} CountSnoc(members: seq<GroupMember>, member: GroupMember, name: string)
    ensures CountNamed(members + [member], name) == CountNamed(members, name) + (if member.name == name then 1 else 0)
  {
    assert (members + [member])[..|members|] == members;
  }

  lemma RolesDiffer()
    ensures JBL_ROLE != AURA_ROLE && UNKNOWN != JBL_ROLE && UNKNOWN != AURA_ROLE
  {
    assert JBL_ROLE[0] == 'J' && AURA_ROLE[0] == 'A' && UNKNOWN[0] == 'u';
  }

  /** A response with exactly two well-formed members. */
  predicate GroupParses(response: GroupResponse, jbl: Identity, aura: Identity) {
    && jbl != aura && response.errorCodeIsZero && response.hasGroup && response.disabled.Some?
    && response.members.Some? && |response.members.value| == 2
    && forall i :: 0 <= i < 2 ==> SanitizedMember(response.members.value[i], jbl, aura).Ok?
  }

  /** The members a response that parses lists. */
  ghost predicate Lists(response: GroupResponse, jbl: Identity, aura: Identity, members: seq<GroupMember>) {
    && response.members.Some? && |response.members.value| == 2 == |members|
    && forall i :: 0 <= i < 2 ==> SanitizedMember(response.members.value[i], jbl, aura) == Ok(members[i])
  }

  /** Configured means: not disabled, and exactly one member in each role. */
  method ParseGroupStatus(response: GroupResponse, jbl: Identity, aura: Identity)
    returns (r: Result<GroupStatus, ParseError>)
    ensures r.Ok? <==> GroupParses(response, jbl, aura)
    ensures r.Ok? ==>
              && |r.value.members| == 2 && response.disabled == Some(r.value.disabled)
              && (r.value.expectedPairConfigured <==>
                    !r.value.disabled && CountNamed(r.value.members, JBL_ROLE) == 1
                      && CountNamed(r.value.members, AURA_ROLE) == 1)
              && Lists(response, jbl, aura, r.value.members)
  {
    if jbl == aura { return Err(InvalidConfig); }
    if !response.errorCodeIsZero { return Err(DeviceReportedError); }
    if !response.hasGroup { return Err(GroupInfoMissing); }
    if response.members.None? { return Err(GroupMembersMissing); }
    var raws := response.members.value;
    if |raws| != 2 { return Err(GroupMemberInvalid); }
    if response.disabled.None? { return Err(GroupDisabledInvalid); }
    var members: seq<GroupMember> := [];
    var jblCount, auraCount := 0, 0;
    for i := 0 to |raws|
      invariant |members| == i
      invariant forall k :: 0 <= k < i ==> SanitizedMember(raws[k], jbl, aura) == Ok(members[k])
      invariant jblCount == CountNamed(members, JBL_ROLE) && auraCount == CountNamed(members, AURA_ROLE)
    {
      var member := SanitizedMember(raws[i], jbl, aura);
      if member.Err? { return Err(member.error); }
      CountSnoc(members, member.value, JBL_ROLE);
      CountSnoc(members, member.value, AURA_ROLE);
      RolesDiffer();
      members := members + [member.value];
      if member.value.name == JBL_ROLE { jblCount := jblCount + 1; }
      else if member.value.name == AURA_ROLE { auraCount := auraCount + 1; }
    }
    r := Ok(GroupStatus(jblCount == 1 && auraCount == 1 && !response.disabled.value, response.disabled.value, members));
  }

  // ---------------------------------------------------------------- observation

  datatype Channel = FrontLeft | FrontRight | Left | Right | Mono | Stereo | Unknown

  datatype MemberName = JblAuthentics300 | AuraStudio5

  datatype Verification = Verified | NotVerified | Unavailable

  datatype MemberStatus = MemberStatus(name: MemberName, verification: Verification, channels: seq<Channel>)

  datatype Observation = Observation(exactPairConfigured: bool, jbl: MemberStatus, aura: MemberStatus)

  function ChannelFromAllowlist(channel: string): Channel {
    if channel == "front_left" then FrontLeft
    else if channel == "front_right" then FrontRight
    else if channel == "left" then Left
    else if channel == "right" then Right
    else if channel == "mono" then Mono
    else if channel == "stereo" then Stereo
    else Unknown
  }

  ghost predicate NoDuplicates(channels: seq<Channel>) {
    forall i, j :: 0 <= i < j < |channels| ==> channels[i] != channels[j]
  }

  /** The client's member rule: channels non-empty, at most six, unique, Unknown only alone. */
  ghost predicate ValidMemberProjection(member: MemberStatus) {
    && 0 < |member.channels| <= 6
    && NoDuplicates(member.channels)
    && (Unknown in member.channels ==> |member.channels| == 1)
  }

  lemma {:induction false} DistinctFit(channels: seq<Channel>, allowed: set<Channel>)
    requires NoDuplicates(channels) && forall i :: 0 <= i < |channels| ==> channels[i] in allowed
    ensures |channels| <= |allowed|
  {
    if channels != [] {
      var last := channels[|channels| - 1];
      var rest := channels[..|channels| - 1];
      forall i | 0 <= i < |rest| ensures rest[i] in allowed - {last} { assert rest[i] == channels[i]; }
      DistinctFit(rest, allowed - {last});
    }
  }

  /** The public label of a channel. */
  function ChannelLabel(channel: Channel): string {
    match channel
    case FrontLeft => "front_left"
    case FrontRight => "front_right"
    case Left => "left"
    case Right => "right"
    case Mono => "mono"
    case Stereo => "stereo"
    case Unknown => "unknown"
  }

  lemma LabelsAreExact(text: string, channel: Channel)
    requires channel != Unknown
    ensures ChannelFromAllowlist(text) == channel <==> text == ChannelLabel(channel)
  {
    LabelsDiffer();
  }

  lemma LabelsDiffer()
    ensures "left"[0] == 'l' && "mono"[0] == 'm' && |"left"| == 4 == |"mono"| && |"right"| == 5 && |"stereo"| == 6
    ensures |"front_left"| == 10 && |"front_right"| == 11
  {
  }

  /** One match whose channels are all labels of the allowlist. */
  ghost predicate Recognized(matches: seq<seq<string>>) {
    && |matches| == 1 && matches[0] != []
    && forall text :: text in matches[0] ==> exists c :: c != Unknown && text == ChannelLabel(c)
  }

  /** A member as its channel labels say: exactly the labelled channels, or unknown alone. */
  ghost predicate Projected(member: MemberStatus, name: MemberName, matches: seq<seq<string>>) {
    && member.name == name && ValidMemberProjection(member)
    && member.verification == (if |matches| == 1 then Verified else NotVerified)
    && (Unknown in member.channels <==> !Recognized(matches))
    && (Recognized(matches) ==>
          forall c :: c != Unknown ==> (c in member.channels <==> ChannelLabel(c) in matches[0]))
  }

  /** Projects one member's channel labels. */
  method ObservedMember(name: MemberName, matches: seq<seq<string>>) returns (member: MemberStatus)
    ensures Projected(member, name, matches)
  {
    if |matches| != 1 { return MemberStatus(name, NotVerified, [Unknown]); }
    var raw := matches[0];
    var unique: seq<Channel> := [];
    for i := 0 to |raw|
      invariant NoDuplicates(unique) && Unknown !in unique
      invariant forall k :: 0 <= k < i ==> ChannelFromAllowlist(raw[k]) != Unknown
      invariant forall c :: c in unique <==> exists k :: 0 <= k < i && ChannelFromAllowlist(raw[k]) == c
    {
      var channel := ChannelFromAllowlist(raw[i]);
      if channel == Unknown {
        UnknownLabel(raw[i]);
        assert raw[i] in matches[0];
        return MemberStatus(name, Verified, [Unknown]);
      }
      if channel !in unique { unique := unique + [channel]; }
    }
    UniqueFits(unique);
    LabelledChannels(raw, unique);
    member := MemberStatus(name, Verified, if unique == [] then [Unknown] else unique);
  }

  lemma UnknownLabel(text: string)
    requires ChannelFromAllowlist(text) == Unknown
    ensures !exists c :: c != Unknown && text == ChannelLabel(c)
  {
    forall c | c != Unknown ensures text != ChannelLabel(c) { LabelsAreExact(text, c); }
  }

  lemma UniqueFits(unique: seq<Channel>)
    requires NoDuplicates(unique) && Unknown !in unique
    ensures |unique| <= 6
  {
    forall i | 0 <= i < |unique|
      ensures unique[i] in {FrontLeft, FrontRight, Left, Right, Mono, Stereo}
    {
      assert unique[i] in unique;
      match unique[i] { case Unknown => case _ => }
    }
    DistinctFit(unique, {FrontLeft, FrontRight, Left, Right, Mono, Stereo});
  }

  lemma LabelledChannels(raw: seq<string>, unique: seq<Channel>)
    requires Unknown !in unique && forall k :: 0 <= k < |raw| ==> ChannelFromAllowlist(raw[k]) != Unknown
    requires forall c :: c in unique <==> exists k :: 0 <= k < |raw| && ChannelFromAllowlist(raw[k]) == c
    ensures forall c :: c != Unknown ==> (c in unique <==> ChannelLabel(c) in raw)
    ensures forall text :: text in raw ==> exists c :: c != Unknown && text == ChannelLabel(c)
    ensures unique == [] <==> raw == []
  {
    forall c | c != Unknown ensures c in unique <==> ChannelLabel(c) in raw {
      forall k | 0 <= k < |raw| ensures ChannelFromAllowlist(raw[k]) == c <==> raw[k] == ChannelLabel(c) {
        LabelsAreExact(raw[k], c);
      }
    }
    forall text | text in raw ensures exists c :: c != Unknown && text == ChannelLabel(c) {
      LabelsAreExact(text, ChannelFromAllowlist(text));
    }
    if raw != [] { assert ChannelFromAllowlist(raw[0]) in unique; }
    if unique != [] { assert unique[0] in unique; }
  }

  function Matches(members: seq<GroupMember>, name: string): (r: seq<seq<string>>)
    ensures |r| == CountNamed(members, name)
  {
    if members == [] then []
    else
      var last := members[|members| - 1];
      Matches(members[..|members| - 1], name) + (if last.name == name then [last.channels] else [])
  }

  method FromGroupStatus(group: GroupStatus) returns (o: Observation)
    ensures o.exactPairConfigured == group.expectedPairConfigured
    ensures Projected(o.jbl, JblAuthentics300, Matches(group.members, "JBL Authentics 300"))
    ensures Projected(o.aura, AuraStudio5, Matches(group.members, "Aura Studio 5"))
  {
    var jblMatches: seq<seq<string>>, auraMatches: seq<seq<string>> := [], [];
    for i := 0 to |group.members|
      invariant jblMatches == Matches(group.members[..i], JBL_ROLE)
      invariant auraMatches == Matches(group.members[..i], AURA_ROLE)
    {
      var member := group.members[i];
      assert group.members[..i + 1][..i] == group.members[..i];
      RolesDiffer();
      if member.name == JBL_ROLE { jblMatches := jblMatches + [member.channels]; }
      else if member.name == AURA_ROLE { auraMatches := auraMatches + [member.channels]; }
    }
    assert group.members[..|group.members|] == group.members;
    var jbl := ObservedMember(JblAuthentics300, jblMatches);
    var aura := ObservedMember(AuraStudio5, auraMatches);
    o := Observation(group.expectedPairConfigured, jbl, aura);
  }

  datatype Configuration = ConfigurationReady | ConfigurationNotReady | ConfigurationUnavailable

  datatype Members = Members(configuration: Configuration, jbl: MemberStatus, aura: MemberStatus)

  /** The client's rule for the configuration state and its two members. */
  ghost predicate ValidMembersProjection(m: Members) {
    && m.jbl.name == JblAuthentics300 && m.aura.name == AuraStudio5
    && ValidMemberProjection(m.jbl) && ValidMemberProjection(m.aura)
    && match m.configuration
       case ConfigurationReady => m.jbl.verification == Verified && m.aura.verification == Verified
       case ConfigurationNotReady => m.jbl.verification != Unavailable && m.aura.verification != Unavailable
       case ConfigurationUnavailable => m.jbl.verification == Unavailable && m.aura.verification == Unavailable
  }

  /** A member in a role: the exact public name, the exact private identity, readable channels. */
  predicate InRole(raw: Option<RawMember>, role: string, identity: Identity) {
    && raw.Some? && raw.value.name == Some(role)
    && raw.value.id.Some? && IdentityFromMemberId(raw.value.id.value) == Some(identity)
    && raw.value.channels.Some? && forall i :: 0 <= i < |raw.value.channels.value| ==> raw.value.channels.value[i].Some?
  }

  /** An enabled group of exactly the two configured devices, each in its own role. */
  predicate ExactPair(response: GroupResponse, jbl: Identity, aura: Identity) {
    && jbl != aura && response.errorCodeIsZero && response.hasGroup && response.disabled == Some(false)
    && response.members.Some? && |response.members.value| == 2
    && var first, second := response.members.value[0], response.members.value[1];
       || (InRole(first, JBL_ROLE, jbl) && InRole(second, AURA_ROLE, aura))
       || (InRole(first, AURA_ROLE, aura) && InRole(second, JBL_ROLE, jbl))
  }

  /** A response that lists the two devices. */
  function PairResponse(jbl: Identity, aura: Identity): GroupResponse
    requires ValidIdentity(jbl) && ValidIdentity(aura)
  {
    var first := RawMember(Some(JBL_ROLE), Some(CompactValue(jbl)), Some([]));
    var second := RawMember(Some(AURA_ROLE), Some(CompactValue(aura)), Some([]));
    GroupResponse(true, true, Some([Some(first), Some(second)]), Some(false))
  }

  lemma PairResponseIsExact(jbl: Identity, aura: Identity)
    requires ValidIdentity(jbl) && ValidIdentity(aura) && jbl != aura
    ensures ExactPair(PairResponse(jbl, aura), jbl, aura)
  {
    IdentityRoundTrip(jbl);
    IdentityRoundTrip(aura);
  }

  lemma RolesAreExact(raw: Option<RawMember>, jbl: Identity, aura: Identity)
    ensures var m := SanitizedMember(raw, jbl, aura);
            && (m.Ok? && m.value.name == JBL_ROLE <==> InRole(raw, JBL_ROLE, jbl))
            && (m.Ok? && m.value.name == AURA_ROLE <==> InRole(raw, AURA_ROLE, aura))
  {
    assert JBL_ROLE[0] != AURA_ROLE[0] && UNKNOWN[0] != JBL_ROLE[0] && UNKNOWN[0] != AURA_ROLE[0];
  }

  lemma ExactPairMeaning(response: GroupResponse, jbl: Identity, aura: Identity, members: seq<GroupMember>)
    requires jbl != aura && response.errorCodeIsZero && response.hasGroup && response.disabled.Some?
    requires Lists(response, jbl, aura, members)
    ensures ExactPair(response, jbl, aura) <==>
            response.disabled == Some(false) && CountNamed(members, JBL_ROLE) == 1
              && CountNamed(members, AURA_ROLE) == 1
  {
    RolesAreExact(response.members.value[0], jbl, aura);
    RolesAreExact(response.members.value[1], jbl, aura);
    CountOfTwo(members, JBL_ROLE);
    CountOfTwo(members, AURA_ROLE);
    assert JBL_ROLE[0] != AURA_ROLE[0];
  }

  lemma CountOfTwo(members: seq<GroupMember>, name: string)
    requires |members| == 2
    ensures CountNamed(members, name)
            == (if members[0].name == name then 1 else 0) + (if members[1].name == name then 1 else 0)
  {
    var front := members[..1];
    assert front[0] == members[0] && front[..0] == [];
    assert CountNamed(front, name) == if members[0].name == name then 1 else 0;
  }

  /** What a status shows of an answer: nothing of one that does not parse, and otherwise each
      member as its own entry in the group says. */
  ghost predicate Shown(answer: Option<GroupResponse>, jbl: Identity, aura: Identity, m: Members,
                        members: seq<GroupMember>)
  {
    && (m.configuration == ConfigurationUnavailable <==> !(answer.Some? && GroupParses(answer.value, jbl, aura)))
    && (m.configuration == ConfigurationReady <==> answer.Some? && ExactPair(answer.value, jbl, aura))
    && (m.configuration != ConfigurationUnavailable ==>
          && Lists(answer.value, jbl, aura, members)
          && Projected(m.jbl, JblAuthentics300, Matches(members, "JBL Authentics 300"))
          && Projected(m.aura, AuraStudio5, Matches(members, "Aura Studio 5")))
    && (m.configuration == ConfigurationUnavailable ==> m.jbl.channels == [Unknown] && m.aura.channels == [Unknown])
  }

  /** One membership read: whatever the device answers, the projection satisfies the client. */
  method ReadPairConfiguration(answer: Option<GroupResponse>, jbl: Identity, aura: Identity)
    returns (m: Members, ghost members: seq<GroupMember>)
    ensures ValidMembersProjection(m) && Shown(answer, jbl, aura, m, members)
  {
    members := [];
    var missing := Members(ConfigurationUnavailable, MemberStatus(JblAuthentics300, Unavailable, [Unknown]),
                           MemberStatus(AuraStudio5, Unavailable, [Unknown]));
    if answer.None? { return missing, members; }
    ExactPairParses(answer.value, jbl, aura);
    var group := ParseGroupStatus(answer.value, jbl, aura);
    if group.Err? { return missing, members; }
    members := group.value.members;
    ExactPairMeaning(answer.value, jbl, aura, members);
    var o := FromGroupStatus(group.value);
    m := Members(if o.exactPairConfigured then ConfigurationReady else ConfigurationNotReady, o.jbl, o.aura);
  }

  lemma ExactPairParses(response: GroupResponse, jbl: Identity, aura: Identity)
    ensures ExactPair(response, jbl, aura) ==> GroupParses(response, jbl, aura)
  {
    if ExactPair(response, jbl, aura) {
      RolesAreExact(response.members.value[0], jbl, aura);
      RolesAreExact(response.members.value[1], jbl, aura);
    }
  }
}
