/** User registration (`postNew`) and the profile of the requesting user
    (`getMe`) over the `users` collection. */
module Users {
  import opened Wrappers
  import opened ObjectIds
  import opened JsText

  /** A stored user: the e-mail address and the SHA-1 digest of the
      password, never the password itself. */
  datatype User = User(email: string, password: string)

  type UsersMap = map<ObjectId, User>

  datatype UserError = MissingEmail | MissingPassword | AlreadyExist

  /** The `error` text of each rejection. */
  function Message(e: UserError): string {
    match e
    case MissingEmail => "Missing email"
    case MissingPassword => "Missing password"
    case AlreadyExist => "Already exist"
  }

  /** The profile both `postNew` (status 201) and `getMe` answer with. */
  datatype Profile = Profile(email: string, id: string)

  /** The addresses in use. */
  function Emails(users: UsersMap): set<string> {
    set k | k in users :: users[k].email
  }

  /** No two users share an address, and no stored address is empty. */
  ghost predicate UniqueEmails(users: UsersMap) {
    && (forall a, b | a in users && b in users && users[a].email == users[b].email :: a == b)
    && (forall k | k in users :: users[k].email != [])
  }

  /** `getMe`: the requesting user's address and written-out id. */
  function GetMe(id: ObjectId, user: User): (r: Profile)
    ensures r.email == user.email
    ensures IsValidId(r.id) && ObjectIdOf(r.id) == id
  {
    RenderRoundTrip(id);
    Profile(user.email, Render(id))
  }

  /** The `users` collection. `sha1` is the one-way hash applied to
      passwords before they are stored. */
  class UserStore {
    var users: UsersMap
    const sha1: string -> string

    ghost predicate Valid()
      reads this
    {
      0 !in users && UniqueEmails(users)
    }

    constructor (sha1: string -> string)
      ensures Valid() && users == map[] && this.sha1 == sha1
    {
      users := map[];
      this.sha1 := sha1;
    }

    /** `postNew`: the e-mail is checked before the password, then the
        address must be unused; only then is one user inserted, under the
        id `newId` the store assigns, with the hashed password. */
    method PostNew(email: Option<string>, password: Option<string>, newId: ObjectId)
      returns (r: Result<Profile, UserError>)
      requires Valid()
      requires 0 < newId && newId !in users
      modifies this
      ensures Valid()
      ensures !Present(email) ==> r == Failure(MissingEmail)
      ensures Present(email) && !Present(password) ==> r == Failure(MissingPassword)
      ensures Present(email) && Present(password) && email.value in Emails(old(users)) ==>
        r == Failure(AlreadyExist)
      ensures r.Failure? ==> users == old(users)
      ensures r.Success? <==>
        Present(email) && Present(password) && email.value !in Emails(old(users))
      ensures r.Success? ==>
        && users == old(users)[newId := User(email.value, sha1(password.value))]
        && r.value == GetMe(newId, users[newId])
    {
      if !Present(email) {
        return Failure(MissingEmail);
      }
      if !Present(password) {
        return Failure(MissingPassword);
      }
      if email.value in Emails(users) {
        return Failure(AlreadyExist);
      }
      var user := User(email.value, sha1(password.value));
      InsertUnusedKeepsUnique(users, newId, user);
      users := users[newId := user];
      r := Success(GetMe(newId, user));
    }
  }

  /** Whatever sequence of registrations is attempted, every address is
      held by at most one user: the invariant `postNew` keeps, stated for
      one insertion of an unused address. */
  lemma {:induction false} InsertUnusedKeepsUnique(users: UsersMap, id: ObjectId, user: User)
    requires UniqueEmails(users)
    requires id !in users && user.email != [] && user.email !in Emails(users)
    ensures UniqueEmails(users[id := user])
    ensures Emails(users[id := user]) == Emails(users) + {user.email}
  {
    var users' := users[id := user];
    forall a, b | a in users' && b in users' && users'[a].email == users'[b].email ensures a == b {
      if a != id && b != id {
        assert users[a].email == users[b].email;
      }
    }
    forall e | e in Emails(users') ensures e in Emails(users) + {user.email} {
      var k :| k in users' && users'[k].email == e;
      if k != id {
        assert users[k].email == e;
      }
    }
    forall e | e in Emails(users) + {user.email} ensures e in Emails(users') {
      if e == user.email {
        assert users'[id].email == e;
      } else {
        var k :| k in users && users[k].email == e;
        assert users'[k].email == e;
      }
    }
  }
}
