/**
 * The `user` schema: a name, an email and a password digest, all required, and
 * the email unique across the collection. Mongoose's `required` rejects both a
 * missing and an empty string; the password is always a digest, so it is
 * present by construction.
 */
module UserModel {
  import opened Bcrypt

  type UserId = nat

  datatype User = User(id: UserId, name: string, email: string, password: Digest)

  predicate Required(u: User) {
    u.name != "" && u.email != ""
  }

  predicate EmailTaken(users: map<UserId, User>, email: string) {
    exists id :: id in users && users[id].email == email
  }

  /** The unique index on `email`. */
  predicate UniqueEmails(users: map<UserId, User>) {
    forall a, b :: a in users && b in users && users[a].email == users[b].email ==> a == b
  }

  /** Every stored record satisfies the schema, under the key of its own id. */
  predicate Conforms(users: map<UserId, User>) {
    (forall id :: id in users ==> users[id].id == id && Required(users[id])) && UniqueEmails(users)
  }

  /** Adding a record with a fresh id and an email nobody holds keeps the collection valid. */
  lemma InsertConforms(users: map<UserId, User>, u: User)
    requires Conforms(users) && u.id !in users && Required(u) && !EmailTaken(users, u.email)
    ensures Conforms(users[u.id := u])
  {
  }

  /** Changing one record's fields keeps the collection valid when its new email is held by nobody else. */
  lemma ReplaceConforms(users: map<UserId, User>, u: User)
    requires Conforms(users) && u.id in users && Required(u)
    requires forall id :: id in users && id != u.id ==> users[id].email != u.email
    ensures Conforms(users[u.id := u])
  {
  }
}
