/** The read-only queries of `UserRepository` over the durable user table.
    The table is an immutable sequence of rows, so no query can change it. */
module UserRepository {
  import opened Platform

  datatype UserRole = Admin | User

  /** One row of the `users` table as the queries see it. */
  datatype UserRow = UserRow(id: int, email: string, role: UserRole)

  /** `id` is the table's primary key. */
  ghost predicate UniqueIds(users: seq<UserRow>) {
    forall i, j :: 0 <= i < |users| && 0 <= j < |users| && users[i].id == users[j].id ==> i == j
  }

  /** The user entity's email column is unique. */
  ghost predicate UniqueEmails(users: seq<UserRow>) {
    forall i, j :: 0 <= i < |users| && 0 <= j < |users| && users[i].email == users[j].email ==> i == j
  }

  /** `SELECT COUNT(u) FROM User u WHERE u.id = :userId AND u.userRole = 'ADMIN'`. */
  function CountAdminsWithId(users: seq<UserRow>, id: int): (n: nat)
    ensures n <= |users|
    ensures n > 0 <==> exists i :: 0 <= i < |users| && users[i].id == id && users[i].role == Admin
  {
    if users == [] then 0
    else
      assert forall i :: 1 <= i < |users| ==> users[i] == users[1..][i - 1];
      (if users[0].id == id && users[0].role == Admin then 1 else 0) + CountAdminsWithId(users[1..], id)
  }

  /** `existsByIdAndRole(userId)`: the count above is positive. A null id
      (`None`) compares unknown against every row and so matches none. */
  function ExistsByIdAndRole(users: seq<UserRow>, userId: Option<int>): (r: bool)
    ensures r <==> userId.Some? && exists i :: 0 <= i < |users| && users[i].id == userId.value && users[i].role == Admin
  {
    userId.Some? && CountAdminsWithId(users, userId.value) > 0
  }

  /** `existsByEmail(email)`: some row carries that email. */
  function ExistsByEmail(users: seq<UserRow>, email: string): (r: bool)
    ensures r <==> exists i :: 0 <= i < |users| && users[i].email == email
  {
    if users == [] then false
    else
      assert forall i :: 1 <= i < |users| ==> users[i] == users[1..][i - 1];
      users[0].email == email || ExistsByEmail(users[1..], email)
  }

  /** `findByEmail(email)`: the first row, in table order, carrying that email. */
  function FindByEmail(users: seq<UserRow>, email: string): (r: Option<UserRow>)
    ensures r.Some? <==> ExistsByEmail(users, email)
    ensures r.Some? ==> r.value in users && r.value.email == email
    ensures r.Some? ==> exists k :: 0 <= k < |users| && users[k] == r.value &&
                                     forall j :: 0 <= j < k ==> users[j].email != email
  {
    if users == [] then None
    else if users[0].email == email then Some(users[0])
    else
      var r := FindByEmail(users[1..], email);
      assert r.Some? ==> exists k :: 0 <= k < |users| && users[k] == r.value &&
                                     forall j :: 0 <= j < k ==> users[j].email != email by {
        if r.Some? {
          var k :| 0 <= k < |users[1..]| && users[1..][k] == r.value &&
                   forall j :: 0 <= j < k ==> users[1..][j].email != email;
          assert users[k + 1] == r.value;
          forall j | 0 <= j < k + 1 ensures users[j].email != email {
            if j > 0 { assert users[j] == users[1..][j - 1]; }
          }
        }
      }
      r
  }

  /** With unique emails, the row found is the only row with that email. */
  lemma FindByEmailIsTheUniqueRow(users: seq<UserRow>, email: string, i: nat)
    requires UniqueEmails(users)
    requires i < |users| && users[i].email == email
    ensures FindByEmail(users, email) == Some(users[i])
  {
    var r := FindByEmail(users, email);
    var k :| 0 <= k < |users| && users[k] == r.value && forall j :: 0 <= j < k ==> users[j].email != email;
  }

  /** A stored USER is never reported as ADMIN, whatever else the table holds, as long as ids are keys. */
  lemma StoredUserIsNotAdmin(users: seq<UserRow>, i: nat)
    requires UniqueIds(users)
    requires i < |users| && users[i].role == User
    ensures !ExistsByIdAndRole(users, Some(users[i].id))
  {
  }

  /** An id with no row is never reported as ADMIN. */
  lemma UnknownIdIsNotAdmin(users: seq<UserRow>, id: int)
    requires forall i :: 0 <= i < |users| ==> users[i].id != id
    ensures !ExistsByIdAndRole(users, Some(id))
  {
  }
}
