/**
 * UserService over an in-memory user table (the repository it calls is a pass-through to the
 * collection). bcrypt is modelled as a free constructor: `hash(password, 10)` is
 * `Hashed(password, 10)`, and `compare(password, hash)` holds exactly when the hash was made
 * from that password.
 */
module UserService {
  import opened Wrappers
  import opened Enums
  import opened Text
  import opened Js
  import opened ExceptionHelper

  datatype Hash = Hashed(plain: string, rounds: nat)

  /** A stored user; an absent sentiment is `None`. */
  datatype UserRecord = UserRecord(id: string, name: string, email: string, password: Hash, userType: UserType, sentiment: Option<string>)

  /** `CreateUserDto`; an absent name or email is `""`. */
  datatype CreateUserDto = CreateUserDto(name: string, email: string, password: string)

  /** What `me` returns: the id, name, email and sentiment, and never the password. */
  datatype Profile = Profile(id: string, name: string, email: string, sentiment: Option<string>)

  const SaltRounds := 10
  const UserAlreadyExists := DefaultError("User already exists", "USER_ALREADY_EXISTS", 409, Undefined)

  function HashPassword(password: string): (h: Hash)
    ensures h.plain == password && h.rounds == 10
  {
    Hashed(password, SaltRounds)
  }

  function ComparePassword(password: string, hash: Hash): bool {
    hash.plain == password
  }

  /** A password matches the hash made from it, and no other. */
  lemma HashRoundTrip(password: string, other: string)
    ensures ComparePassword(password, HashPassword(password))
    ensures ComparePassword(other, HashPassword(password)) <==> other == password
  {
  }

  class UserService {
    var users: map<string, UserRecord>
    var issued: seq<string>

    /** Every user sits under its own id, and every stored email is trimmed. */
    ghost predicate Valid()
      reads this
    {
      && (forall id :: id in users ==> users[id].id == id && id in issued && Trimmed(users[id].email))
    }

    constructor()
      ensures Valid() && users == map[] && issued == []
    {
      users := map[];
      issued := [];
    }

    /** The oldest user among the first `k` issued ids whose email is `email`. */
    function FirstWithEmail(email: string, k: nat): (r: Option<UserRecord>)
      requires Valid() && k <= |issued|
      reads this
      ensures r.Some? ==> r.value.id in users && users[r.value.id] == r.value && r.value.email == email
      ensures r.None? ==> forall i :: 0 <= i < k && issued[i] in users ==> users[issued[i]].email != email
    {
      if k == 0 then None
      else
        match FirstWithEmail(email, k - 1)
        case Some(u) => Some(u)
        case None =>
          var id := issued[k - 1];
          if id in users && users[id].email == email then Some(users[id]) else None
    }

    /** `findOne({email})`: a user with exactly that email, or null when there is none. */
    function FindByEmail(email: string): (r: Option<UserRecord>)
      requires Valid()
      reads this
      ensures r.Some? ==> r.value.id in users && users[r.value.id] == r.value && r.value.email == email
      ensures r.None? <==> forall id :: id in users ==> users[id].email != email
    {
      var r := FirstWithEmail(email, |issued|);
      assert r.None? ==> forall id :: id in users ==> users[id].email != email by {
        if r.None? {
          forall id | id in users
            ensures users[id].email != email
          {
            var i :| 0 <= i < |issued| && issued[i] == id;
          }
        }
      }
      r
    }

    /** `findById`: the user, or null. */
    function FindById(userId: string): (r: Option<UserRecord>)
      reads this
      ensures r.Some? <==> userId in users
      ensures r.Some? ==> r.value == users[userId]
    {
      if userId in users then Some(users[userId]) else None
    }

    /** `isActiveByEmail`: the user with that email or null; nothing is filtered on activity. */
    function IsActiveByEmail(email: string): (r: Option<UserRecord>)
      requires Valid()
      reads this
      ensures r == FindByEmail(email)
    {
      match FindByEmail(email)
      case Some(u) => Some(u)
      case None => None
    }

    /** `create`: USER_ALREADY_EXISTS/409 and nothing stored when a user has the email as
      * given; otherwise one USER with trimmed name and email and the hashed password. */
    method Create(dto: CreateUserDto, newId: string) returns (r: Result<UserRecord, HttpException>)
      requires Valid()
      requires newId != "" && newId !in issued
      modifies this
      ensures Valid()
      ensures old(FindByEmail(dto.email)).Some? ==> r == Err(UserAlreadyExists) && users == old(users)
      ensures old(FindByEmail(dto.email)).None? ==>
        && r == Ok(UserRecord(newId, Trim(dto.name), Trim(dto.email), HashPassword(dto.password), UserType.User, None))
        && users == old(users)[newId := r.value]
    {
      var existing := FindByEmail(dto.email);
      if existing.Some? {
        return Err(UserAlreadyExists);
      }
      var hashed := HashPassword(dto.password);
      var user := UserRecord(newId, Trim(dto.name), Trim(dto.email), hashed, UserType.User, None);
      TrimSpec(dto.email);
      users := users[newId := user];
      issued := issued + [newId];
      r := Ok(user);
    }

    /** `updateSentiment`: sets the sentiment and nothing else; an unknown id changes nothing. */
    method UpdateSentiment(userId: string, sentiment: string)
      requires Valid()
      modifies this
      ensures Valid()
      ensures issued == old(issued)
      ensures userId !in old(users) ==> users == old(users)
      ensures userId in old(users) ==> users == old(users)[userId := old(users)[userId].(sentiment := Some(sentiment))]
    {
      if userId in users {
        users := users[userId := users[userId].(sentiment := Some(sentiment))];
      }
    }

    /** `me`: the stored user's id, name, email and sentiment, or null. */
    function Me(userId: string): (r: Option<Profile>)
      reads this
      ensures r.Some? <==> userId in users
      ensures r.Some? ==>
        var u := users[userId];
        r.value == Profile(u.id, u.name, u.email, u.sentiment)
    {
      match FindById(userId)
      case None => None
      case Some(u) => Some(Profile(u.id, u.name, u.email, u.sentiment))
    }
  }

  /** Stored emails are trimmed, so an email given with a leading space never matches one: the
    * service's own duplicate check, which uses the email as given, does not catch a padded copy
    * of a registered email. This is a property of the service code alone; the schema's query
    * setters and its unique index on `email`, which would reject that insert, are not part of
    * this model. */
  lemma PaddedEmailPassesCheck(svc: UserService, email: string)
    requires svc.Valid()
    ensures svc.FindByEmail(" " + email).None?
  {
    forall id | id in svc.users
      ensures svc.users[id].email != " " + email
    {
      assert Trimmed(svc.users[id].email);
    }
  }
}
