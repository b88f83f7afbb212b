/**
 * The user repository as a collaborator. The database is not modelled: each
 * query's answer is a function of its arguments, and only the two pieces of
 * logic the repository adds around its queries are written out.
 */
module UserRepo {
  import opened Wrappers
  import opened UserDomain

  /** What a query reports: gorm.ErrRecordNotFound, or any other failure. */
  datatype DbError = NotFound | Failed(message: string)

  /** repo.IsNotFound. */
  predicate IsNotFound(e: DbError) { e == NotFound }

  datatype Users = Users(
    getByUsername: string -> Result<User, DbError>,
    getByEmail: string -> Result<User, DbError>,
    create: User -> Option<DbError>,
    /** the rows of `WHERE id IN ids` */
    findByIds: seq<string> -> Result<seq<User>, DbError>,
    /** the rows affected by `UPDATE users SET verified = true WHERE email = ?` */
    updateVerified: string -> Result<nat, DbError>)

  /** The found users keyed by their IDs, later rows replacing earlier ones. */
  function KeyById(rows: seq<User>): (m: map<string, User>)
    ensures forall id | id in m :: m[id].id == id && m[id] in rows
    ensures forall u | u in rows :: u.id in m
  {
    if rows == [] then map[] else
      var m := KeyById(rows[..|rows| - 1])[rows[|rows| - 1].id := rows[|rows| - 1]];
      assert forall u | u in rows[..|rows| - 1] :: u in rows;
      assert forall u | u in rows :: u in rows[..|rows| - 1] || u == rows[|rows| - 1];
      m
  }

  /** GetByIDs: no query for an empty list; otherwise the found rows keyed by ID. */
  function GetByIds(r: Users, ids: seq<string>): (result: Result<map<string, User>, DbError>)
    ensures ids == [] ==> result == Success(map[])
    ensures ids != [] && r.findByIds(ids).Failure? ==> result == Failure(r.findByIds(ids).error)
    ensures ids != [] && r.findByIds(ids).Success? ==>
      && result.Success?
      && (forall u | u in r.findByIds(ids).value :: u.id in result.value)
      && (forall id | id in result.value :: result.value[id] in r.findByIds(ids).value)
    ensures result.Success? ==> forall id | id in result.value :: result.value[id].id == id
  {
    if ids == [] then Success(map[]) else
      match r.findByIds(ids)
      case Failure(e) => Failure(e)
      case Success(rows) => Success(KeyById(rows))
  }

  /** MarkVerified: an update that touches no row is reported as not found. */
  function MarkVerified(r: Users, email: string): (err: Option<DbError>)
    ensures r.updateVerified(email) == Success(0) ==> err == Some(NotFound)
    ensures r.updateVerified(email).Failure? ==> err == Some(r.updateVerified(email).error)
    ensures err == None <==> r.updateVerified(email).Success? && r.updateVerified(email).value > 0
  {
    match r.updateVerified(email)
    case Failure(e) => Some(e)
    case Success(n) => if n == 0 then Some(NotFound) else None
  }
}
