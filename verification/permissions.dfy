/**
 * PermissionServiceImpl: granting a role to a user, and the distinct
 * permission codes a user holds through their roles. The role, user-role
 * and role-permission tables are values.
 */
module PermissionService {
  import opened Wrappers

  /** A user-role link. */
  datatype UserRole = UserRole(userId: int, roleId: int)

  /** The roles a user holds, in link order. */
  function RolesOf(links: seq<UserRole>, userId: int): (r: seq<int>)
    ensures forall id :: id in r <==> UserRole(userId, id) in links
  {
    if links == [] then []
    else
      var rest := RolesOf(links[1..], userId);
      assert forall l :: l in links <==> l == links[0] || l in links[1..];
      if links[0].userId == userId then [links[0].roleId] + rest else rest
  }

  /**
   * assignRoleToUser: an unknown role code is an error; a role the user
   * already holds changes nothing; otherwise one link is added.
   */
  function AssignRole(links: seq<UserRole>, roles: map<string, int>, userId: int, roleCode: string): (r: Result<seq<UserRole>, string>)
    ensures roleCode !in roles <==> r == Failure("角色不存在: " + roleCode)
    ensures roleCode in roles && UserRole(userId, roles[roleCode]) in links ==> r == Success(links)
    ensures roleCode in roles && UserRole(userId, roles[roleCode]) !in links ==> r == Success(links + [UserRole(userId, roles[roleCode])])
  {
    if roleCode !in roles then Failure("角色不存在: " + roleCode)
    else
      var roleId := roles[roleCode];
      if roleId in RolesOf(links, userId) then Success(links) else Success(links + [UserRole(userId, roleId)])
  }

  /** Assigning the same role twice is the same as assigning it once. */
  lemma AssignIdempotent(links: seq<UserRole>, roles: map<string, int>, userId: int, roleCode: string)
    requires AssignRole(links, roles, userId, roleCode).Success?
    ensures var once := AssignRole(links, roles, userId, roleCode).value;
      AssignRole(once, roles, userId, roleCode) == Success(once)
  {
    var once := AssignRole(links, roles, userId, roleCode).value;
    assert UserRole(userId, roles[roleCode]) in once;
  }

  /** After an assignment the user holds the role, and no other user's roles change. */
  lemma AssignGrants(links: seq<UserRole>, roles: map<string, int>, userId: int, roleCode: string, other: int)
    requires AssignRole(links, roles, userId, roleCode).Success? && other != userId
    ensures var after := AssignRole(links, roles, userId, roleCode).value;
      roles[roleCode] in RolesOf(after, userId)
      && (forall id :: id in RolesOf(after, other) <==> id in RolesOf(links, other))
  {
    var after := AssignRole(links, roles, userId, roleCode).value;
    assert UserRole(userId, roles[roleCode]) in after;
  }

  /** Stream.distinct: the first occurrence of each element, in order. */
  function Distinct(xs: seq<string>): (r: seq<string>)
    ensures forall x :: x in r <==> x in xs
    ensures forall i, j :: 0 <= i < j < |r| ==> r[i] != r[j]
  {
    if xs == [] then []
    else
      var init := Distinct(xs[..|xs| - 1]);
      var last := xs[|xs| - 1];
      assert forall x :: x in xs <==> x in xs[..|xs| - 1] || x == last by {
        assert xs == xs[..|xs| - 1] + [last];
      }
      if last in init then init else init + [last]
  }

  /** Distinct keeps a list without repeats as it is. */
  lemma {:induction false} DistinctKeepsUnique(xs: seq<string>)
    requires forall i, j :: 0 <= i < j < |xs| ==> xs[i] != xs[j]
    ensures Distinct(xs) == xs
  {
    if xs != [] {
      var init := xs[..|xs| - 1];
      DistinctKeepsUnique(init);
      assert xs[|xs| - 1] !in init;
      assert init + [xs[|xs| - 1]] == xs;
    }
  }

  /** The permission codes of several roles, role by role. */
  function PermissionsOfRoles(roleIds: seq<int>, perms: map<int, seq<string>>): (r: seq<string>)
    ensures forall c :: c in r <==> exists i :: 0 <= i < |roleIds| && roleIds[i] in perms && c in perms[roleIds[i]]
  {
    if roleIds == [] then []
    else
      var own := if roleIds[0] in perms then perms[roleIds[0]] else [];
      var rest := PermissionsOfRoles(roleIds[1..], perms);
      assert forall i :: 1 <= i < |roleIds| ==> roleIds[i] == roleIds[1..][i - 1];
      assert forall c :: c in rest ==> exists i :: 0 <= i < |roleIds| && roleIds[i] in perms && c in perms[roleIds[i]] by {
        forall c | c in rest
          ensures exists i :: 0 <= i < |roleIds| && roleIds[i] in perms && c in perms[roleIds[i]]
        {
          var j :| 0 <= j < |roleIds[1..]| && roleIds[1..][j] in perms && c in perms[roleIds[1..][j]];
          assert roleIds[j + 1] == roleIds[1..][j];
        }
      }
      own + rest
  }

  /** getUserPermissions: no roles gives an empty list; otherwise every code reachable through a role, once each. */
  function UserPermissions(links: seq<UserRole>, perms: map<int, seq<string>>, userId: int): (r: seq<string>)
    ensures RolesOf(links, userId) == [] ==> r == []
    ensures forall i, j :: 0 <= i < j < |r| ==> r[i] != r[j]
    ensures forall c :: c in r <==> exists id :: UserRole(userId, id) in links && id in perms && c in perms[id]
  {
    var roleIds := RolesOf(links, userId);
    if roleIds == [] then []
    else
      var r := Distinct(PermissionsOfRoles(roleIds, perms));
      assert forall c :: c in r <==> exists id :: UserRole(userId, id) in links && id in perms && c in perms[id] by {
        forall c
          ensures c in r <==> exists id :: UserRole(userId, id) in links && id in perms && c in perms[id]
        {
          var all := PermissionsOfRoles(roleIds, perms);
          if c in r {
            assert c in all;
            var i :| 0 <= i < |roleIds| && roleIds[i] in perms && c in perms[roleIds[i]];
            assert roleIds[i] in roleIds;
            assert UserRole(userId, roleIds[i]) in links;
          }
          if exists id :: UserRole(userId, id) in links && id in perms && c in perms[id] {
            var id :| UserRole(userId, id) in links && id in perms && c in perms[id];
            assert id in roleIds;
            var i :| 0 <= i < |roleIds| && roleIds[i] == id;
            assert c in all;
          }
        }
      }
      r
  }
}
