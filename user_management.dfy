/**
 * The administrator's user table (`UserManagement.js`): the admin gate,
 * role normalisation when the edit dialog opens and when it is saved, and
 * the role check boxes.
 */
module UserManagement {
  import opened Common

  const ROLE_ADMIN := "ROLE_ADMIN"

  /** A role as the user list carries it: a bare name, or an object with
   *  a `name` ("" when that is falsy). */
  datatype Role = Name(text: string) | RoleObject(name: string)

  datatype ManagedUser = ManagedUser(id: int, username: string, email: string, roles: seq<Role>, mfaEnabled: bool)

  datatype Severity = Success | Info | Error

  datatype Snackbar = Hidden | Shown(message: string, severity: Severity)

  /** `user && user.roles.includes('ROLE_ADMIN')`: the page fetches and
   *  shows users only for such a viewer; a viewer whose record has no
   *  `roles` makes the test throw. */
  function CanManage(viewer: Option<ClientUser>): (b: Result<bool>)
    ensures viewer.None? ==> b == Ok(false)
    ensures b.Err? <==> viewer.Some? && viewer.value.roles.None?
    ensures b.Err? ==> b.error == ROLES_UNDEFINED
    ensures b == Ok(true) <==> viewer.Some? && viewer.value.roles.Some? && ROLE_ADMIN in viewer.value.roles.value
  {
    if viewer.None? then Ok(false) else RolesInclude(viewer.value, ROLE_ADMIN)
  }

  /** `typeof r === 'string' ? r : r.name || r` when the dialog opens. */
  function EditForm(r: Role): (e: Role)
    ensures r.Name? ==> e == r
    ensures r.RoleObject? && r.name != "" ==> e == Name(r.name)
    ensures r.RoleObject? && r.name == "" ==> e == r
  {
    match r
    case Name(_) => r
    case RoleObject(n) => if n != "" then Name(n) else r
  }

  /** `typeof r === 'string' ? { name: r } : r` when the dialog is saved. */
  function SaveForm(r: Role): (s: Role)
    ensures s.RoleObject?
    ensures r.Name? ==> s.name == r.text
    ensures r.RoleObject? ==> s == r
  {
    match r
    case Name(t) => RoleObject(t)
    case RoleObject(_) => r
  }

  /** Opening and saving without touching the check boxes sends back every
   *  role object unchanged, and every bare name as an object of that
   *  name. */
  lemma EditThenSaveRestores(roles: seq<Role>)
    ensures |MapRoles(MapRoles(roles, EditForm), SaveForm)| == |roles|
    ensures forall k :: 0 <= k < |roles| ==>
      MapRoles(MapRoles(roles, EditForm), SaveForm)[k] ==
        (if roles[k].Name? then RoleObject(roles[k].text) else roles[k])
  {
  }

  function MapRoles(roles: seq<Role>, f: Role -> Role): (r: seq<Role>)
    ensures |r| == |roles|
    ensures forall k :: 0 <= k < |roles| ==> r[k] == f(roles[k])
  {
    seq(|roles|, k requires 0 <= k < |roles| => f(roles[k]))
  }

  /** `handleRoleToggle(role)`: a role that is present is removed (every
   *  occurrence), an absent one is appended. */
  function ToggleRole(roles: seq<Role>, role: string): (r: seq<Role>)
    ensures Name(role) in roles ==> Name(role) !in r && forall x :: x in r <==> x in roles && x != Name(role)
    ensures Name(role) !in roles ==> r == roles + [Name(role)]
  {
    if Name(role) in roles then Filter(roles, (x: Role) => x != Name(role)) else roles + [Name(role)]
  }

  /** Toggling an absent role twice gives back the very same list. */
  lemma {:induction false} ToggleAbsentTwice(roles: seq<Role>, role: string)
    requires Name(role) !in roles
    ensures ToggleRole(ToggleRole(roles, role), role) == roles
  {
    var p := (x: Role) => x != Name(role);
    FilterConcat(roles, [Name(role)], p);
    FilterKeepsAll(roles, p);
    assert Filter([Name(role)], p) == [];
  }

  /** Toggling a present role twice keeps the same roles (the role moves
   *  to the end, once). */
  lemma TogglePresentTwice(roles: seq<Role>, role: string)
    requires Name(role) in roles
    ensures forall x :: x in ToggleRole(ToggleRole(roles, role), role) <==> x in roles
    ensures ToggleRole(ToggleRole(roles, role), role)[|ToggleRole(ToggleRole(roles, role), role)| - 1] == Name(role)
  {
  }

  class UserManagementState {
    var users: seq<ManagedUser>
    var loading: bool
    var editUser: Option<ManagedUser>
    var editDialogOpen: bool
    var snackbar: Snackbar
    var deleteUserId: Option<int>
    var deleteDialogOpen: bool

    constructor ()
      ensures users == [] && loading && editUser == None && !editDialogOpen && snackbar == Hidden
      ensures deleteUserId == None && !deleteDialogOpen
    {
      users, loading, editUser, editDialogOpen, snackbar := [], true, None, false, Hidden;
      deleteUserId, deleteDialogOpen := None, false;
    }

    /** The effect on the signed-in user: only an administrator's view
     *  fetches the list, and a viewer without `roles` makes the effect
     *  throw before anything changes. `fetched` is what the user service
     *  answered. */
    method OnViewer(viewer: Option<ClientUser>, fetched: Result<seq<ManagedUser>>) returns (requested: Result<bool>)
      modifies this`users, this`loading, this`snackbar
      ensures requested == CanManage(viewer)
      ensures requested != Ok(true) ==> users == old(users) && loading == old(loading) && snackbar == old(snackbar)
      ensures requested == Ok(true) && fetched.Ok? ==> users == fetched.value && !loading && snackbar == old(snackbar)
      ensures requested == Ok(true) && fetched.Err? ==>
        users == old(users) && !loading && snackbar == Shown("Failed to fetch users", Error)
    {
      requested := CanManage(viewer);
      if requested == Ok(true) {
        loading := true;
        if fetched.Ok? {
          users := fetched.value;
        } else {
          snackbar := Shown("Failed to fetch users", Error);
        }
        loading := false;
      }
    }

    method HandleEditClick(u: ManagedUser)
      modifies this`editUser, this`editDialogOpen
      ensures editUser == Some(u.(roles := MapRoles(u.roles, EditForm))) && editDialogOpen
    {
      editUser := Some(u.(roles := MapRoles(u.roles, EditForm)));
      editDialogOpen := true;
    }

    /** `handleEditChange(field, value)` for the three inputs of the edit
     *  dialog: only that field of the edited user changes. */
    method HandleEditUsername(value: string)
      requires editUser.Some?
      modifies this`editUser
      ensures editUser == Some(old(editUser).value.(username := value))
    {
      editUser := Some(editUser.value.(username := value));
    }

    method HandleEditEmail(value: string)
      requires editUser.Some?
      modifies this`editUser
      ensures editUser == Some(old(editUser).value.(email := value))
    {
      editUser := Some(editUser.value.(email := value));
    }

    method HandleEditMfa(checked: bool)
      requires editUser.Some?
      modifies this`editUser
      ensures editUser == Some(old(editUser).value.(mfaEnabled := checked))
    {
      editUser := Some(editUser.value.(mfaEnabled := checked));
    }

    method HandleRoleToggle(role: string)
      requires editUser.Some?
      modifies this`editUser
      ensures editUser == Some(old(editUser).value.(roles := ToggleRole(old(editUser).value.roles, role)))
    {
      editUser := Some(editUser.value.(roles := ToggleRole(editUser.value.roles, role)));
    }

    /** `handleEditSave`: the record sent has every bare role name turned
     *  into an object. On success the dialog closes (the refetch that
     *  follows is a separate call of `OnViewer`). */
    method HandleEditSave(saved: Result<()>) returns (sent: ManagedUser)
      requires editUser.Some?
      modifies this`editDialogOpen, this`snackbar
      ensures sent == editUser.value.(roles := MapRoles(editUser.value.roles, SaveForm))
      ensures forall k :: 0 <= k < |sent.roles| ==> sent.roles[k].RoleObject?
      ensures saved.Ok? ==> !editDialogOpen && snackbar == Shown("User updated", Success)
      ensures saved.Err? ==> editDialogOpen == old(editDialogOpen) && snackbar == Shown("Failed to update user", Error)
    {
      sent := editUser.value.(roles := MapRoles(editUser.value.roles, SaveForm));
      if saved.Ok? {
        snackbar := Shown("User updated", Success);
        editDialogOpen := false;
      } else {
        snackbar := Shown("Failed to update user", Error);
      }
    }

    method HandleDeleteClick(id: int)
      modifies this`deleteUserId, this`deleteDialogOpen
      ensures deleteUserId == Some(id) && deleteDialogOpen
    {
      deleteUserId := Some(id);
      deleteDialogOpen := true;
    }

    /** `handleDeleteConfirm`: the remembered id is sent (`None` for the
     *  `null` of a dialog opened without one); success closes the dialog
     *  (the refetch that follows is a separate call of `OnViewer`). */
    method HandleDeleteConfirm(deleted: Result<()>) returns (target: Option<int>)
      modifies this`deleteDialogOpen, this`snackbar
      ensures target == deleteUserId
      ensures deleted.Ok? ==> !deleteDialogOpen && snackbar == Shown("User deleted", Info)
      ensures deleted.Err? ==> deleteDialogOpen == old(deleteDialogOpen) && snackbar == Shown("Failed to delete user", Error)
    {
      target := deleteUserId;
      if deleted.Ok? {
        snackbar := Shown("User deleted", Info);
        deleteDialogOpen := false;
      } else {
        snackbar := Shown("Failed to delete user", Error);
      }
    }
  }
}
