/**
 * Permission gating: a request passes only if its token carried claims with
 * a permissions list that contains the required permission.
 */
module PermissionMiddleware {
  import opened Wrappers
  import opened RequestContext

  /**
   * Scans the list and stops at the first element equal to `permission`;
   * `examined` counts the elements looked at.
   */
  method HasPermission(perms: seq<string>, permission: string) returns (has: bool, ghost examined: nat)
    ensures has <==> permission in perms
    ensures examined <= |perms|
    ensures has ==> 0 < examined && perms[examined - 1] == permission && permission !in perms[..examined - 1]
    ensures !has ==> examined == |perms|
  {
    has := false;
    var i := 0;
    while i < |perms|
      invariant i <= |perms|
      invariant permission !in perms[..i]
    {
      if perms[i] == permission {
        has := true;
        examined := i + 1;
        return;
      }
      i := i + 1;
    }
    examined := i;
    assert perms[..i] == perms;
  }

  /**
   * RequirePermission: `claimsPresent` says whether the request carries
   * claims, `permissions` is their "permissions" entry (None when absent).
   */
  method RequirePermission(permission: string, claimsPresent: bool, permissions: Option<seq<string>>) returns (reply: Reply)
    ensures !claimsPresent ==> reply == Reject(401, "Unauthorized")
    ensures claimsPresent && permissions.None? ==> reply == Reject(403, "No permissions in token")
    ensures claimsPresent && permissions.Some? ==> (reply == Next <==> permission in permissions.value)
    ensures claimsPresent && permissions.Some? && permission !in permissions.value ==>
      reply == Reject(403, "Forbidden: insufficient permissions")
  {
    if !claimsPresent {
      return Reject(401, "Unauthorized");
    }
    if permissions.None? {
      return Reject(403, "No permissions in token");
    }
    var has: bool; ghost var scanned: nat;
    has, scanned := HasPermission(permissions.value, permission);
    if !has {
      return Reject(403, "Forbidden: insufficient permissions");
    }
    reply := Next;
  }

  /** Whether a request passes does not depend on the order of its permissions. */
  lemma OrderIrrelevant(p1: seq<string>, p2: seq<string>, permission: string)
    requires multiset(p1) == multiset(p2)
    ensures permission in p1 <==> permission in p2
  {
    assert permission in p1 <==> permission in multiset(p1);
    assert permission in p2 <==> permission in multiset(p2);
  }
}
