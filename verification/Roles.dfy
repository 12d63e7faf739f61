/** The roles a room member can have. */
module Roles {
  datatype Role = Owner | Admin | Member
}
