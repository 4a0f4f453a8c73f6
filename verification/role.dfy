/**
 * Role: a named set of permissions; system roles cannot be deleted.
 */
module Roles {
  import opened Wrappers
  import opened JavaStrings

  const MAX_ROLE_NAME: nat := 100
  const MAX_DESCRIPTION: nat := 500
  const NAME_EMPTY: string := "角色名称不能为空"
  const NAME_TOO_LONG: string := "角色名称长度不能超过100个字符"
  const DESCRIPTION_TOO_LONG: string := "角色描述长度不能超过500个字符"

  datatype Role = Role(roleCode: Option<string>, roleName: Option<string>, description: Option<string>, isSystem: Option<bool>)

  /** updateRoleName: blank and over-long names are refused; an accepted name is stored untrimmed. */
  function UpdateRoleName(role: Role, name: Option<string>): (r: Result<Role, string>)
    ensures r.Success? <==> name.Some? && Trim(name.value) != "" && |name.value| <= MAX_ROLE_NAME
    ensures r.Success? ==> r.value == role.(roleName := name)
    ensures name.None? || Trim(name.value) == "" ==> r == Failure(NAME_EMPTY)
  {
    if name.None? || Trim(name.value) == "" then Failure(NAME_EMPTY)
    else if |name.value| > MAX_ROLE_NAME then Failure(NAME_TOO_LONG)
    else Success(role.(roleName := name))
  }

  /** updateDescription: null is accepted; text longer than 500 is refused. */
  function UpdateDescription(role: Role, description: Option<string>): (r: Result<Role, string>)
    ensures r.Failure? <==> description.Some? && |description.value| > MAX_DESCRIPTION
    ensures r.Failure? ==> r.error == DESCRIPTION_TOO_LONG
    ensures r.Success? ==> r.value == role.(description := description)
  {
    if description.Some? && |description.value| > MAX_DESCRIPTION then Failure(DESCRIPTION_TOO_LONG)
    else Success(role.(description := description))
  }

  /** canDelete: anything but an explicit system role. */
  predicate CanDelete(role: Role)
    ensures role.isSystem == Some(true) ==> !CanDelete(role)
    ensures role.isSystem.None? || role.isSystem == Some(false) ==> CanDelete(role)
  {
    role.isSystem != Some(true)
  }

  /** Renaming and re-describing never change whether a role can be deleted. */
  lemma UpdatesKeepDeletability(role: Role, name: Option<string>, description: Option<string>)
    ensures UpdateRoleName(role, name).Success? ==> (CanDelete(UpdateRoleName(role, name).value) <==> CanDelete(role))
    ensures UpdateDescription(role, description).Success?
      ==> (CanDelete(UpdateDescription(role, description).value) <==> CanDelete(role))
  {
  }
}
