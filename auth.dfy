/** The auth controller: registration, login and the caller's own profile. */
module AuthController {
  import opened Basics
  import opened Model
  import opened Http
  import opened Tokens
  import Server

  /** bcrypt as the user model's save hook and `bcrypt.compare` use it: `hash(plain, salt)`
      and `compare(plain, hash)`. */
  datatype Hasher = Hasher(hash: (string, nat) -> string, compare: (string, string) -> bool)

  /** The property assumed of bcrypt: a password matches every hash made from it. */
  ghost predicate Sound(h: Hasher) {
    forall plain: string, salt: nat :: h.compare(plain, h.hash(plain, salt))
  }

  /** The fields `register` reads from the request body; None for a missing key. */
  datatype RegisterBody = RegisterBody(name: Option<string>, email: Option<string>, password: Option<string>)

  /** `User.findOne({ email })`, which unique emails make deterministic. */
  function FindByEmail(users: map<Id, User>, email: string): (r: Option<Id>)
    requires UniqueEmails(users)
    ensures r.Some? ==> r.value in users && users[r.value].email == email
    ensures r.None? ==> forall id :: id in users ==> users[id].email != email
  {
    if exists id :: id in users && users[id].email == email then
      var id :| id in users && users[id].email == email; Some(id)
    else None
  }

  /** The message every failure of `register` ends with, after its catch block rewrote it. */
  function RegisterFailure(inner: string): Outcome {
    Raised(500, Thrown("Error creating user: " + inner))
  }

  /** POST /api/auth/register. A user is stored only when all three fields are truthy and the
      email is free; the catch block turns every failure into status 500 and prefixes the message.
      A signing failure comes after the user was saved and does not undo it. */
  method Register(db: Store, body: RegisterBody, hasher: Hasher, salt: nat,
                  jwt: JwtLib, secret: string, now: int, newId: Id) returns (o: Outcome)
    requires db.Valid() && newId !in db.users
    modifies db
    ensures db.Valid() && db.events == old(db.events)
    ensures !(Truthy(body.name) && Truthy(body.email) && Truthy(body.password)) ==>
      o == RegisterFailure("All fields are required") && db.users == old(db.users)
    ensures Truthy(body.name) && Truthy(body.email) && Truthy(body.password)
            && FindByEmail(old(db.users), body.email.value).Some? ==>
      o == RegisterFailure("User already exists") && db.users == old(db.users)
    ensures o.Raised? ==> o.status == 500 && StartsWith(o.error.message, "Error creating user: ")
    ensures Truthy(body.name) && Truthy(body.email) && Truthy(body.password)
            && FindByEmail(old(db.users), body.email.value).None? ==>
      && db.users == old(db.users)[newId := User(body.name.value, body.email.value,
                                                  hasher.hash(body.password.value, salt), [], [])]
      && match GenerateToken(jwt, secret, now, newId)
         case Signed(t) => o == Sent(201, Credentials(newId, body.name.value, body.email.value, t))
         case SignFailed(m) => o == RegisterFailure(m)
  {
    if !(Truthy(body.name) && Truthy(body.email) && Truthy(body.password)) {
      o := RegisterFailure("All fields are required");
      return;
    }
    var name, email, password := body.name.value, body.email.value, body.password.value;
    var existing := FindByEmail(db.users, email);
    if existing.Some? {
      o := RegisterFailure("User already exists");
      return;
    }
    db.users := db.users[newId := User(name, email, hasher.hash(password, salt), [], [])];
    var token := GenerateToken(jwt, secret, now, newId);
    match token {
      case Signed(t) => o := Sent(201, Credentials(newId, name, email, t));
      case SignFailed(m) => o := RegisterFailure(m);
    }
  }

  /** bcryptjs's rejection when the password is not a string (the body had no `password` key). */
  const MissingPasswordError: Error := Thrown("Illegal arguments: undefined, string")

  /** POST /api/auth/login. An unknown email and a wrong password give the very same 401 error.
      A known email without a password reaches `bcrypt.compare`, whose rejection the handler does
      not catch: it is passed on with the status still unset (200). */
  function Login(users: map<Id, User>, email: string, password: Option<string>,
                 hasher: Hasher, jwt: JwtLib, secret: string, now: int): (o: Outcome)
    requires UniqueEmails(users)
    ensures (o == Raised(401, Thrown("Invalid email or password"))) <==>
      (FindByEmail(users, email).None? ||
       (password.Some? && !hasher.compare(password.value, users[FindByEmail(users, email).value].passwordHash)))
    ensures FindByEmail(users, email).Some? && password.None? ==> o == Raised(200, MissingPasswordError)
    ensures o.Raised? && o.error != MissingPasswordError ==> o.status == 401
    ensures o.Sent? ==>
      && o.status == 200 && o.body.Credentials? && password.Some?
      && o.body.id in users && users[o.body.id].email == email && o.body.email == email
      && o.body.name == users[o.body.id].name
      && hasher.compare(password.value, users[o.body.id].passwordHash)
      && GenerateToken(jwt, secret, now, o.body.id) == Signed(o.body.token)
    // correct credentials: the login answer, or the catch block's rewrite of a signing failure
    ensures FindByEmail(users, email).Some? && password.Some?
            && hasher.compare(password.value, users[FindByEmail(users, email).value].passwordHash) ==>
      var id := FindByEmail(users, email).value;
      match GenerateToken(jwt, secret, now, id)
      case Signed(t) => o == Sent(200, Credentials(id, users[id].name, email, t))
      case SignFailed(m) => o == Raised(401, Thrown("Error during login: " + m))
  {
    match FindByEmail(users, email)
    case None => Raised(401, Thrown("Invalid email or password"))
    case Some(id) =>
      var u := users[id];
      if password.None? then
        assert MissingPasswordError.message[1] != "Invalid email or password"[1];
        Raised(200, MissingPasswordError)
      else if !hasher.compare(password.value, u.passwordHash) then Raised(401, Thrown("Invalid email or password"))
      else
        match GenerateToken(jwt, secret, now, id)
        case Signed(t) => Sent(200, Credentials(id, u.name, u.email, t))
        case SignFailed(m) =>
          assert ("Error during login: " + m)[0] != "Invalid email or password"[0];
          assert ("Error during login: " + m)[0] != MissingPasswordError.message[0];
          Raised(401, Thrown("Error during login: " + m))
  }

  /** The 401 set before the throw is lost: the client gets 500 with the generic message, whether
      the email was unknown or the password wrong. */
  lemma LoginRefusalAnswered500(users: map<Id, User>, email: string, password: Option<string>,
                                hasher: Hasher, jwt: JwtLib, secret: string, now: int)
    requires UniqueEmails(users)
    requires FindByEmail(users, email).None? ||
      (password.Some? && !hasher.compare(password.value, users[FindByEmail(users, email).value].passwordHash))
    ensures Server.Respond(Login(users, email, password, hasher, jwt, secret, now))
         == Response(500, Message("Invalid email or password"))
  {
  }

  /** A stored user logs in with the password it registered with, and the token it gets back
      verifies to its own id for seven days. */
  lemma LoginWithRegisteredPassword(users: map<Id, User>, id: Id, password: string, salt: nat,
                                    hasher: Hasher, jwt: JwtLib, secret: string, now: int, later: int)
    requires UniqueEmails(users) && id in users
    requires users[id].passwordHash == hasher.hash(password, salt)
    requires Sound(hasher) && Honest(jwt)
    requires GenerateToken(jwt, secret, now, id).Signed?
    requires now <= later < now + TokenLifetime
    ensures var o := Login(users, users[id].email, Some(password), hasher, jwt, secret, now);
      && o == Sent(200, Credentials(id, users[id].name, users[id].email, GenerateToken(jwt, secret, now, id).token))
      && jwt.verify(o.body.token, secret, later) == Verified(IssuedClaims(id, now))
  {
    assert FindByEmail(users, users[id].email) == Some(id);
    assert hasher.compare(password, hasher.hash(password, salt));
    GeneratedTokenVerifies(jwt, secret, now, id, later);
  }

  /** A known email without a password: the client gets 500 with bcrypt's message. */
  lemma MissingPasswordAnswered500(users: map<Id, User>, email: string,
                                   hasher: Hasher, jwt: JwtLib, secret: string, now: int)
    requires UniqueEmails(users) && FindByEmail(users, email).Some?
    ensures Server.Respond(Login(users, email, None, hasher, jwt, secret, now))
         == Response(500, Message("Illegal arguments: undefined, string"))
  {
  }

  /** `populate` of a list of event ids: the events that still exist, in list order. */
  function PopulateEvents(ids: seq<Id>, events: map<Id, Event>): (r: seq<(Id, Event)>)
    ensures |r| <= |ids|
    ensures forall k :: 0 <= k < |r| ==> r[k].0 in events && r[k].1 == events[r[k].0]
    ensures (forall k :: 0 <= k < |ids| ==> ids[k] in events) ==>
      |r| == |ids| && forall k :: 0 <= k < |r| ==> r[k].0 == ids[k]
    decreases |ids|
  {
    if ids == [] then []
    else
      var rest := PopulateEvents(ids[1..], events);
      if ids[0] in events then [(ids[0], events[ids[0]])] + rest else rest
  }

  /** Populating drops exactly the ids with no event: an entry is there iff its id is listed and exists. */
  lemma {:induction false} PopulateMembership(ids: seq<Id>, events: map<Id, Event>, id: Id)
    ensures id in ids && id in events <==> id in events && (id, events[id]) in PopulateEvents(ids, events)
    decreases |ids|
  {
    if ids != [] {
      PopulateMembership(ids[1..], events, id);
      assert id in ids <==> id == ids[0] || id in ids[1..];
      var rest := PopulateEvents(ids[1..], events);
      if ids[0] in events {
        assert PopulateEvents(ids, events) == [(ids[0], events[ids[0]])] + rest;
      }
    }
  }

  /** One step of populating: the head id becomes an entry iff its event exists. */
  lemma PopulateEventsCons(id: Id, rest: seq<Id>, events: map<Id, Event>)
    ensures PopulateEvents([id] + rest, events)
         == (if id in events then [(id, events[id])] else []) + PopulateEvents(rest, events)
    ensures PopulateEvents([id], events) == (if id in events then [(id, events[id])] else [])
  {
    assert ([id] + rest)[0] == id && ([id] + rest)[1..] == rest;
    assert [id][1..] == [];
  }

  /** Populating works id by id, so the events that exist keep the order of the id list,
      also when some listed id has no event any more. */
  lemma {:induction false} PopulateEventsConcat(a: seq<Id>, b: seq<Id>, events: map<Id, Event>)
    ensures PopulateEvents(a + b, events) == PopulateEvents(a, events) + PopulateEvents(b, events)
    decreases |a|
  {
    if a != [] {
      PopulateEventsConcat(a[1..], b, events);
      ConsSplit(a, b);
      PopulateEventsCons(a[0], a[1..] + b, events);
      PopulateEventsCons(a[0], a[1..], events);
      ConcatAssoc(if a[0] in events then [(a[0], events[a[0]])] else [],
                  PopulateEvents(a[1..], events), PopulateEvents(b, events));
    } else {
      assert a + b == b;
    }
  }

  /** GET /api/auth/me: the caller's record without its password, its two event lists populated
      (null when the caller's record is gone). */
  function GetMe(users: map<Id, User>, events: map<Id, Event>, caller: Id): (o: Outcome)
    ensures o.Sent? && o.status == 200 && o.body.Profile?
    ensures o.body.profile.Some? <==> caller in users
    ensures caller in users ==>
      var p := o.body.profile.value;
      && p.id == caller && p.name == users[caller].name && p.email == users[caller].email
      && p.createdEvents == PopulateEvents(users[caller].createdEvents, events)
      && p.attendingEvents == PopulateEvents(users[caller].attendingEvents, events)
  {
    if caller !in users then Sent(200, Profile(None))
    else
      var u := users[caller];
      Sent(200, Profile(Some(ProfileView(caller, u.name, u.email,
        PopulateEvents(u.createdEvents, events), PopulateEvents(u.attendingEvents, events)))))
  }
}
