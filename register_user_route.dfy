/**
 * `POST /api/auth/register-user`: insert the signed-in user's row when no
 * row has the e-mail, update the name, image and provider fields when a
 * provider id is given that differs in id or type, and otherwise leave the
 * row as it is. Absent request fields are "".
 */
module RegisterUserRoute {
  import opened Entities
  import opened DataStore

  /** The request body. */
  datatype Registration = Registration(email: string, name: string, image: string, providerId: string,
                                       providerType: string)

  /** Which store calls fail: the lookup, the insert, the update. */
  datatype RegisterFaults = RegisterFaults(select: bool, insert: bool, update: bool)

  /** `provider_id && (existing.provider_id !== provider_id || existing.provider_type !== provider_type)`. */
  predicate ProviderChanged(u: User, r: Registration) {
    r.providerId != "" && (u.providerId != r.providerId || u.providerType != r.providerType)
  }

  /** The users table after a successful call; a new row takes id `nextId`. */
  function Register(users: map<string, User>, nextId: int, r: Registration): (m: map<string, User>)
    ensures m.Keys == users.Keys + {r.email}
    ensures forall e :: e in users && e != r.email ==> m[e] == users[e]
    ensures r.email !in users ==> m[r.email] == User(nextId, r.name, r.image, r.providerId, r.providerType)
    ensures r.email in users && ProviderChanged(users[r.email], r) ==>
              m[r.email] == User(users[r.email].id, r.name, r.image, r.providerId, r.providerType)
    ensures r.email in users && !ProviderChanged(users[r.email], r) ==> m[r.email] == users[r.email]
  {
    if r.email !in users then users[r.email := User(nextId, r.name, r.image, r.providerId, r.providerType)]
    else if ProviderChanged(users[r.email], r) then
      users[r.email := users[r.email].(name := r.name, profileImage := r.image, providerId := r.providerId,
                                       providerType := r.providerType)]
    else users
  }

  /** Sending the same registration again after it succeeded changes nothing. */
  lemma RegisterIdempotent(users: map<string, User>, nextId: int, nextId': int, r: Registration)
    ensures Register(Register(users, nextId, r), nextId', r) == Register(users, nextId, r)
  {
    var once := Register(users, nextId, r);
    assert !ProviderChanged(once[r.email], r);
  }

  /**
   * 400 without an e-mail, 500 when a store call fails (nothing changed),
   * otherwise 200 with the table as `Register` gives it.
   */
  method RegisterUser(db: Store, r: Registration, faults: RegisterFaults) returns (status: int)
    requires db.WellFormed()
    modifies db`users, db`nextUserId
    ensures db.WellFormed()
    ensures status in {200, 400, 500}
    ensures status == 400 <==> r.email == ""
    ensures status != 200 ==> db.users == old(db.users) && db.nextUserId == old(db.nextUserId)
    ensures status == 200 ==>
              && db.users == Register(old(db.users), old(db.nextUserId), r)
              && db.nextUserId == old(db.nextUserId) + (if r.email in old(db.users) then 0 else 1)
    ensures status == 500 <==>
              r.email != ""
              && (faults.select
                  || (r.email !in old(db.users) && faults.insert)
                  || (r.email in old(db.users) && ProviderChanged(old(db.users)[r.email], r) && faults.update))
  {
    if r.email == "" {
      return 400;
    }
    if faults.select {
      return 500;
    }
    if r.email !in db.users {
      if faults.insert {
        return 500;
      }
      db.users := Register(db.users, db.nextUserId, r);
      db.nextUserId := db.nextUserId + 1;
      return 200;
    }
    var existing := db.users[r.email];
    if ProviderChanged(existing, r) {
      if faults.update {
        return 500;
      }
      db.users := Register(db.users, db.nextUserId, r);
      return 200;
    }
    return 200;
  }
}
