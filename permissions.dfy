/**
 * `checkPermissions` and the choice made by `reply` in
 * src/lib/utils/utils.ts, over ids and role positions.
 */
module Permissions {
  import opened Wrappers

  /** The target of a moderation-style command: a guild member or a role. */
  datatype Target =
    | MemberTarget(id: nat, highestPosition: int)
    | RoleTarget(id: nat, position: int)

  /** `target.position` for a role, `target.roles.highest.position` for a member. */
  function TargetPosition(target: Target): int {
    match target
    case MemberTarget(_, p) => p
    case RoleTarget(_, p) => p
  }

  /**
   * Whether the calling member (`callerId`, its highest role position if
   * any) may act on `target` in the guild owned by `ownerId`.
   */
  function CheckPermissions(callerId: nat, callerHighest: Option<int>, ownerId: nat, target: Target): (allowed: bool)
    ensures callerId == target.id ==> !allowed
    ensures ownerId == target.id ==> !allowed
    ensures callerId != target.id && ownerId != target.id && callerId == ownerId ==> allowed
    ensures callerId != target.id && ownerId != target.id && callerId != ownerId ==>
              (allowed <==> callerHighest.GetOr(0) > TargetPosition(target))
  {
    if callerId == target.id then false
    else if ownerId == target.id then false
    else if callerId == ownerId then true
    else callerHighest.GetOr(0) > TargetPosition(target)
  }

  /** Two members can never both act on each other. */
  lemma CheckPermissionsAsymmetric(a: nat, pa: int, b: nat, pb: int, ownerId: nat)
    ensures !(CheckPermissions(a, Some(pa), ownerId, MemberTarget(b, pb))
              && CheckPermissions(b, Some(pb), ownerId, MemberTarget(a, pa)))
  {
  }

  /** Among members who are not the owner, permission follows role positions and is transitive. */
  lemma CheckPermissionsTransitive(a: nat, pa: int, b: nat, pb: int, c: nat, pc: int, ownerId: nat)
    requires a != c && c != ownerId
    requires CheckPermissions(a, Some(pa), ownerId, MemberTarget(b, pb))
    requires CheckPermissions(b, Some(pb), ownerId, MemberTarget(c, pc))
    ensures CheckPermissions(a, Some(pa), ownerId, MemberTarget(c, pc))
  {
  }

  /** A higher role for the caller never takes a permission away. */
  lemma CheckPermissionsMonotone(callerId: nat, low: int, high: int, ownerId: nat, target: Target)
    requires low <= high
    requires CheckPermissions(callerId, Some(low), ownerId, target)
    ensures CheckPermissions(callerId, Some(high), ownerId, target)
  {
  }

  /** The two ways of answering an interaction. */
  datatype ReplyKind = Reply | EditReply

  /** `reply`: an interaction already replied to or deferred gets its reply edited. */
  function ReplyKindFor(replied: bool, deferred: bool): (kind: ReplyKind)
    ensures kind == EditReply <==> replied || deferred
  {
    if replied || deferred then EditReply else Reply
  }
}
