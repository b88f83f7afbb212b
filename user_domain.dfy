/** The user record (the persisted fields of the user entity; follow lists are not modelled). */
module UserDomain {

  datatype User = User(
    id: string,
    username: string,
    email: string,
    passwordHash: string,
    role: string,
    verified: bool,
    level: int,
    starPoints: int)

  /** The zero value the service returns beside an error. */
  const NoUser := User("", "", "", "", "", false, 0, 0)
}
