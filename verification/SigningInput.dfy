/**
 The input of a signature: a 32-byte domain tag fixing the message type, the schema
 version, the length and the canonical bytes.
 */
module SigningInput {
  import opened Common
  import opened CanonicalEncoding
  import CanonicalTheorem

  /** The keys of `DOMAIN_TAGS`; `MESSAGE_DOMAIN` is empty, so every type has its own tag. */
  datatype SignedType =
    | JobManifest | ExecutionGrant | Lease | RenewLeaseRequest
    | RevokeLeaseNotice | AgentGrantAck | RenewLeaseResult | AgentSessionHello
    | NodeHeartbeat | NeighborUnreachableReport | ResumeLeaseRequest | ResumeLeaseResult
    | CheckpointManifest | ReplicaAck | ArtifactRef | AttemptReport
    | AttemptReportAck | GrantAckReceipt | CanonicalDecision | Genesis
    | AddMember | RemoveMember | ApproveDevice | RevokeDevice
    | ChangeCoordinatorSet | RotateOwnerKey | UpdatePolicy | QuarantineDevice
    | ReleaseQuarantine | Audit | Release | Invite

  function SchemaName(t: SignedType): (name: string)
  {
    match t
    case JobManifest => "JobManifest"
    case ExecutionGrant => "ExecutionGrant"
    case Lease => "Lease"
    case RenewLeaseRequest => "RenewLeaseRequest"
    case RevokeLeaseNotice => "RevokeLeaseNotice"
    case AgentGrantAck => "AgentGrantAck"
    case RenewLeaseResult => "RenewLeaseResult"
    case AgentSessionHello => "AgentSessionHello"
    case NodeHeartbeat => "NodeHeartbeat"
    case NeighborUnreachableReport => "NeighborUnreachableReport"
    case ResumeLeaseRequest => "ResumeLeaseRequest"
    case ResumeLeaseResult => "ResumeLeaseResult"
    case CheckpointManifest => "CheckpointManifest"
    case ReplicaAck => "ReplicaAck"
    case ArtifactRef => "ArtifactRef"
    case AttemptReport => "AttemptReport"
    case AttemptReportAck => "AttemptReportAck"
    case GrantAckReceipt => "GrantAckReceipt"
    case CanonicalDecision => "CanonicalDecision"
    case Genesis => "Genesis"
    case AddMember => "AddMember"
    case RemoveMember => "RemoveMember"
    case ApproveDevice => "ApproveDevice"
    case RevokeDevice => "RevokeDevice"
    case ChangeCoordinatorSet => "ChangeCoordinatorSet"
    case RotateOwnerKey => "RotateOwnerKey"
    case UpdatePolicy => "UpdatePolicy"
    case QuarantineDevice => "QuarantineDevice"
    case ReleaseQuarantine => "ReleaseQuarantine"
    case Audit => "Audit"
    case Release => "Release"
    case Invite => "Invite"
  }

  /** Every tag starts with the project and a format version; the rest names the use. */
  function TagPrefix(t: SignedType): (p: string)
    ensures |p| == 11
  {
    if t.ExecutionGrant? then "gputeer/v2/" else "gputeer/v1/"
  }

  function TagUse(t: SignedType): (u: string)
  {
    match t
    case JobManifest => "manifest"
    case ExecutionGrant => "grant"
    case Lease => "lease"
    case RenewLeaseRequest => "lease-renew"
    case RevokeLeaseNotice => "lease-revoke"
    case AgentGrantAck => "grant-ack"
    case RenewLeaseResult => "lease-renew-result"
    case AgentSessionHello => "session-hello"
    case NodeHeartbeat => "node-heartbeat"
    case NeighborUnreachableReport => "neighbor-unreachable"
    case ResumeLeaseRequest => "lease-resume"
    case ResumeLeaseResult => "lease-resume-result"
    case CheckpointManifest => "checkpoint"
    case ReplicaAck => "replica-ack"
    case ArtifactRef => "artifact"
    case AttemptReport => "attempt-report"
    case AttemptReportAck => "attempt-report-ack"
    case GrantAckReceipt => "grant-ack-receipt"
    case CanonicalDecision => "canonical"
    case Genesis => "genesis"
    case AddMember => "member-add"
    case RemoveMember => "member-remove"
    case ApproveDevice => "device-approve"
    case RevokeDevice => "device-revoke"
    case ChangeCoordinatorSet => "coordinator-set"
    case RotateOwnerKey => "owner-key-rotate"
    case UpdatePolicy => "policy-update"
    case QuarantineDevice => "quarantine-device"
    case ReleaseQuarantine => "quarantine-release"
    case Audit => "audit"
    case Release => "release"
    case Invite => "invite"
  }

  function RawTag(t: SignedType): (tag: string)
  {
    TagPrefix(t) + TagUse(t)
  }

  const DOMAIN_TAG_LEN: nat := 32
  const TWO_32: int := 0x1_0000_0000

  function Ascii(s: string): (r: bytes)
    ensures |r| == |s|
  {
    seq(|s|, i requires 0 <= i < |s| => s[i] as int % 256)
  }

  function Padded(raw: string): (r: Option<bytes>)
    ensures r.Some? ==> |r.value| == DOMAIN_TAG_LEN
  {
    var code := Ascii(raw);
    if |code| > DOMAIN_TAG_LEN then None else Some(code + seq(DOMAIN_TAG_LEN - |code|, i => 0))
  }

  /** `domain_tag`: padded with zero bytes on the right; a longer tag is an error. */
  function DomainTag(t: SignedType): (r: Option<bytes>)
    ensures r.Some? ==> |r.value| == DOMAIN_TAG_LEN
  {
    Padded(RawTag(t))
  }

  /** Four characters of a tag's use - the first, second, ninth and fifteenth - tell which tag it is. */
  datatype Mark = Mark(first: char, second: char, ninth: char, fifteenth: char)

  function CharAt(u: string, i: nat): (c: char)
  {
    if i < |u| then (u[i] as int % 256) as char else '\0'
  }

  function UseMark(u: string): (m: Mark)
  {
    Mark(CharAt(u, 0), CharAt(u, 1), CharAt(u, 8), CharAt(u, 14))
  }

  function TagMark(tag: bytes): (m: Mark)
    requires |tag| == DOMAIN_TAG_LEN
  {
    Mark(tag[11] as char, tag[12] as char, tag[19] as char, tag[25] as char)
  }

  function MarkOf(t: SignedType): (m: Mark)
  {
    match t
    case JobManifest => Mark('m', 'a', '\0', '\0')
    case ExecutionGrant => Mark('g', 'r', '\0', '\0')
    case Lease => Mark('l', 'e', '\0', '\0')
    case RenewLeaseRequest => Mark('l', 'e', 'n', '\0')
    case RevokeLeaseNotice => Mark('l', 'e', 'v', '\0')
    case AgentGrantAck => Mark('g', 'r', 'k', '\0')
    case RenewLeaseResult => Mark('l', 'e', 'n', 's')
    case AgentSessionHello => Mark('s', 'e', 'h', '\0')
    case NodeHeartbeat => Mark('n', 'o', 'r', '\0')
    case NeighborUnreachableReport => Mark('n', 'e', '-', 'c')
    case ResumeLeaseRequest => Mark('l', 'e', 's', '\0')
    case ResumeLeaseResult => Mark('l', 'e', 's', 'e')
    case CheckpointManifest => Mark('c', 'h', 'n', '\0')
    case ReplicaAck => Mark('r', 'e', 'a', '\0')
    case ArtifactRef => Mark('a', 'r', '\0', '\0')
    case AttemptReport => Mark('a', 't', 'r', '\0')
    case AttemptReportAck => Mark('a', 't', 'r', '-')
    case GrantAckReceipt => Mark('g', 'r', 'k', 'i')
    case CanonicalDecision => Mark('c', 'a', 'l', '\0')
    case Genesis => Mark('g', 'e', '\0', '\0')
    case AddMember => Mark('m', 'e', 'd', '\0')
    case RemoveMember => Mark('m', 'e', 'e', '\0')
    case ApproveDevice => Mark('d', 'e', 'p', '\0')
    case RevokeDevice => Mark('d', 'e', 'e', '\0')
    case ChangeCoordinatorSet => Mark('c', 'o', 't', 't')
    case RotateOwnerKey => Mark('o', 'w', 'y', 't')
    case UpdatePolicy => Mark('p', 'o', 'p', '\0')
    case QuarantineDevice => Mark('q', 'u', 'n', 'i')
    case ReleaseQuarantine => Mark('q', 'u', 'n', 'e')
    case Audit => Mark('a', 'u', '\0', '\0')
    case Release => Mark('r', 'e', '\0', '\0')
    case Invite => Mark('i', 'n', '\0', '\0')
  }

  lemma MarksDistinct(a: SignedType, b: SignedType)
    requires MarkOf(a) == MarkOf(b)
    ensures a == b
  {
    // By the first character.
    match MarkOf(a).first {
      case 'l' =>
      case 'a' =>
      case 'c' =>
      case _ =>
    }
  }

  predicate Group1(t: SignedType)
  {
    t.JobManifest? || t.ExecutionGrant? || t.Lease? || t.RenewLeaseRequest?
    || t.RevokeLeaseNotice? || t.AgentGrantAck? || t.RenewLeaseResult? || t.AgentSessionHello?
  }

  lemma Marks1(t: SignedType)
    requires Group1(t)
    ensures UseMark(TagUse(t)) == MarkOf(t) && |TagUse(t)| <= 20
  {
  }

  predicate Group2(t: SignedType)
  {
    t.NodeHeartbeat? || t.NeighborUnreachableReport? || t.ResumeLeaseRequest? || t.ResumeLeaseResult?
    || t.CheckpointManifest? || t.ReplicaAck? || t.ArtifactRef? || t.AttemptReport?
  }

  lemma Marks2(t: SignedType)
    requires Group2(t)
    ensures UseMark(TagUse(t)) == MarkOf(t) && |TagUse(t)| <= 20
  {
  }

  predicate Group3(t: SignedType)
  {
    t.AttemptReportAck? || t.GrantAckReceipt? || t.CanonicalDecision? || t.Genesis?
    || t.AddMember? || t.RemoveMember? || t.ApproveDevice? || t.RevokeDevice?
  }

  lemma Marks3(t: SignedType)
    requires Group3(t)
    ensures UseMark(TagUse(t)) == MarkOf(t) && |TagUse(t)| <= 20
  {
  }

  predicate Group4(t: SignedType)
  {
    t.ChangeCoordinatorSet? || t.RotateOwnerKey? || t.UpdatePolicy? || t.QuarantineDevice?
    || t.ReleaseQuarantine? || t.Audit? || t.Release? || t.Invite?
  }

  lemma Marks4(t: SignedType)
    requires Group4(t)
    ensures UseMark(TagUse(t)) == MarkOf(t) && |TagUse(t)| <= 20
  {
  }

  lemma UseFits(t: SignedType)
    ensures UseMark(TagUse(t)) == MarkOf(t) && |TagUse(t)| <= 20
  {
    if Group1(t) {
      Marks1(t);
    } else if Group2(t) {
      Marks2(t);
    } else if Group3(t) {
      Marks3(t);
    } else {
      Marks4(t);
    }
  }

  lemma PaddedByte(prefix: string, u: string, i: nat)
    requires |prefix| == 11 && |u| <= 20 && i < 21
    ensures Padded(prefix + u).Some? && Padded(prefix + u).value[11 + i] as char == CharAt(u, i)
  {
    assert i < |u| ==> (prefix + u)[11 + i] == u[i];
  }

  lemma PaddedMark(prefix: string, u: string)
    requires |prefix| == 11 && |u| <= 20
    ensures Padded(prefix + u).Some? && TagMark(Padded(prefix + u).value) == UseMark(u)
  {
    PaddedByte(prefix, u, 0);
    PaddedByte(prefix, u, 1);
    PaddedByte(prefix, u, 8);
    PaddedByte(prefix, u, 14);
  }

  /** Tags fit and no two types share one. */
  lemma TagsDistinct(a: SignedType, b: SignedType)
    ensures DomainTag(a).Some?
    ensures DomainTag(a) == DomainTag(b) <==> a == b
  {
    UseFits(a);
    PaddedMark(TagPrefix(a), TagUse(a));
    UseFits(b);
    PaddedMark(TagPrefix(b), TagUse(b));
    if DomainTag(a) == DomainTag(b) {
      MarksDistinct(a, b);
    }
  }

  /** `uint32_be`: a number that does not fit four bytes is an error. */
  function Uint32Be(n: nat): (r: Option<bytes>)
    ensures r.Some? <==> n < TWO_32
    ensures r.Some? ==> |r.value| == 4
  {
    if n < TWO_32 then Some([n / 256 / 256 / 256, n / 256 / 256 % 256, n / 256 % 256, n % 256]) else None
  }

  /** `sig_input`. */
  function SigInput(t: SignedType, version: nat, canonical: bytes): (r: Option<bytes>)
  {
    match (DomainTag(t), Uint32Be(version), Uint32Be(|canonical|))
    case (Some(tag), Some(v), Some(len)) => Some(tag + v + len + canonical)
    case _ => None
  }

  /** Four bytes read as a number, the most significant first. */
  function BigEndian(b: bytes): (n: int)
    requires |b| == 4
  {
    b[0] as int * 0x100_0000 + b[1] as int * 0x1_0000 + b[2] as int * 0x100 + b[3] as int
  }

  lemma Uint32BeValue(n: nat)
    requires n < TWO_32
    ensures BigEndian(Uint32Be(n).value) == n
  {
    assert n == n / 256 * 256 + n % 256 && n / 256 == n / 256 / 256 * 256 + n / 256 % 256;
    assert n / 256 / 256 == n / 256 / 256 / 256 * 256 + n / 256 / 256 % 256;
  }

  /** The tag stands at the front, filled up with zero bytes. */
  predicate TagAt(s: bytes, raw: string)
    requires |s| >= 32
  {
    |raw| <= 32 && forall i :: 0 <= i < 32 ==> s[i] == if i < |raw| then raw[i] as int % 256 else 0
  }

  lemma DomainTagAt(t: SignedType)
    ensures DomainTag(t).Some? && TagAt(DomainTag(t).value, RawTag(t))
  {
    TagsDistinct(t, t);
  }

  /**
   What stands where in a signing input: the tag, the version and the length as big-endian numbers,
   the canonical bytes. It exists exactly when version and length fit four bytes.
   */
  lemma SigInputParts(t: SignedType, version: nat, canonical: bytes)
    ensures SigInput(t, version, canonical).Some? <==> version < 0x1_0000_0000 && |canonical| < 0x1_0000_0000
    ensures SigInput(t, version, canonical).Some? ==>
              var s := SigInput(t, version, canonical).value;
              && |s| == 40 + |canonical|
              && TagAt(s, RawTag(t)) && Some(s[..32]) == DomainTag(t)
              && s[9] as char == (if t.ExecutionGrant? then '2' else '1')
              && BigEndian(s[32..36]) == version
              && BigEndian(s[36..40]) == |canonical|
              && s[40..] == canonical
  {
    DomainTagAt(t);
    if version < TWO_32 && |canonical| < TWO_32 {
      var s := SigInput(t, version, canonical).value;
      assert s[..32] == DomainTag(t).value;
      Uint32BeValue(version);
      assert s[32..36] == Uint32Be(version).value;
      Uint32BeValue(|canonical|);
      assert s[36..40] == Uint32Be(|canonical|).value;
      assert s[40..] == canonical;
      assert forall i :: 0 <= i < 32 ==> s[i] == s[..32][i];
    }
  }

  lemma SigInputInjective(t: SignedType, v: nat, x: bytes, u: SignedType, w: nat, y: bytes)
    requires SigInput(t, v, x).Some? && SigInput(u, w, y).Some?
    ensures SigInput(t, v, x) == SigInput(u, w, y) <==> t == u && v == w && x == y
  {
    if SigInput(t, v, x) == SigInput(u, w, y) {
      SigInputParts(t, v, x);
      SigInputParts(u, w, y);
      TagsDistinct(t, u);
    }
  }

  /**
   Two signing inputs are the same bytes exactly when the message type, the schema
   version and the normal form of the content are the same. Messages of different types
   whose canonical bytes coincide still have different inputs.
   */
  lemma SigInputIffSameMeaning(S: Schemas, t: SignedType, v: nat, a: Message, u: SignedType, w: nat, b: Message)
    requires WellFormed(S) && WellTyped(S, SchemaName(t), a) && WellTyped(S, SchemaName(u), b)
    requires SigInput(t, v, Canonical(S, SchemaName(t), a)).Some?
    requires SigInput(u, w, Canonical(S, SchemaName(u), b)).Some?
    ensures SigInput(t, v, Canonical(S, SchemaName(t), a)) == SigInput(u, w, Canonical(S, SchemaName(u), b))
       <==> t == u && v == w && Normal(S, SchemaName(t), a) == Normal(S, SchemaName(u), b)
  {
    SigInputInjective(t, v, Canonical(S, SchemaName(t), a), u, w, Canonical(S, SchemaName(u), b));
    if t == u {
      CanonicalTheorem.CanonicalIffNormal(S, SchemaName(t), a, b);
    }
  }
}
