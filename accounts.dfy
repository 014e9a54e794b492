/** The authenticated caller as the core sees it: an account id and a role string. */
module Accounts {

  /** An authenticated user. The role is a free string; the core only ever compares it
      with the three role names below, so every other string is an unknown role. */
  datatype User = User(id: int, role: string)

  const TouristRole: string := "tourist"
  const AdminRole: string := "admin"
  const GuideRole: string := "tourist_guide"
}
