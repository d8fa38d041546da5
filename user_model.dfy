/** Users (app/modules/users/models.py, app/modules/users/enums.py): only the
    fields the order engine reads. */
module UserModel {
  import opened Common

  datatype UserRole = Hospital | Vendor | Admin

  /** A user row; `location` is the nullable JSON location column. */
  datatype User = User(
    id: nat,
    name: string,
    email: string,
    role: UserRole,
    location: Option<Location>,
    isActive: bool)
}
