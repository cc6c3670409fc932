/** The documents of the backend's store (the Mongoose models User and Event) and
    the projections that `populate` and `select('-password')` produce from them. */
module Model {
  import opened Basics

  /** A document id, compared by its string form as the controllers do with `toString()`. */
  type Id = string

  /** A stored user. `passwordHash` is what the model's save hook put in place of the password. */
  datatype User = User(
    name: string,
    email: string,
    passwordHash: string,
    createdEvents: seq<Id>,
    attendingEvents: seq<Id>)

  /** The caller as the access guard loads it: the user document with the password field excluded. */
  datatype Account = Account(
    id: Id,
    name: string,
    email: string,
    createdEvents: seq<Id>,
    attendingEvents: seq<Id>)

  /** `select('-password')`: every field of the user but the password hash. */
  function AccountOf(id: Id, u: User): (a: Account)
    ensures a.id == id && a.name == u.name && a.email == u.email
    ensures a.createdEvents == u.createdEvents && a.attendingEvents == u.attendingEvents
  {
    Account(id, u.name, u.email, u.createdEvents, u.attendingEvents)
  }

  /** The account does not depend on the password hash: nothing of it leaks through. */
  lemma AccountIgnoresPassword(id: Id, u: User, h: string)
    ensures AccountOf(id, u.(passwordHash := h)) == AccountOf(id, u)
  {
  }

  /** A comment embedded in an event; `user` is its author's id. */
  datatype Comment = Comment(id: Id, content: Option<string>, user: Id)

  /** A stored event. Descriptive fields the request body did not give stay unset (None);
      an unset `maxAttendees` is `undefined`, against which no length compares as "full". */
  datatype Event = Event(
    title: Option<string>,
    description: Option<string>,
    date: Option<string>,
    location: Option<string>,
    maxAttendees: Option<int>,
    creator: Id,
    attendees: seq<Id>,
    comments: seq<Comment>)

  /** A request body for create or update: Some(v) for every key the body holds. */
  datatype Patch = Patch(
    title: Option<string>,
    description: Option<string>,
    date: Option<string>,
    location: Option<string>,
    maxAttendees: Option<int>,
    creator: Option<Id>,
    attendees: Option<seq<Id>>,
    comments: Option<seq<Comment>>)

  /** A populated user reference: `name email`, or `name` only (email None) for the public reads. */
  datatype UserView = UserView(id: Id, name: string, email: Option<string>)

  /** A user reference in a response: left as a raw id, populated, or null because no such user exists. */
  datatype UserRef = Raw(id: Id) | Shown(view: UserView) | Dangling

  datatype CommentView = CommentView(id: Id, content: Option<string>, user: UserRef)

  /** An event as a response serialises it after `populate`. */
  datatype EventView = EventView(
    id: Id,
    title: Option<string>,
    description: Option<string>,
    date: Option<string>,
    location: Option<string>,
    maxAttendees: Option<int>,
    creator: UserRef,
    attendees: seq<UserView>,
    comments: seq<CommentView>)

  /** The profile `getMe` returns: no password field, and the two id lists populated with whole events. */
  datatype ProfileView = ProfileView(
    id: Id,
    name: string,
    email: string,
    createdEvents: seq<(Id, Event)>,
    attendingEvents: seq<(Id, Event)>)

  /** Email uniqueness, which registration keeps. */
  ghost predicate UniqueEmails(users: map<Id, User>) {
    forall a, b :: a in users && b in users && users[a].email == users[b].email ==> a == b
  }

  /** Changing only the event lists of users keeps emails unique. */
  lemma EmailsKept(before: map<Id, User>, after: map<Id, User>)
    requires UniqueEmails(before)
    requires after.Keys == before.Keys
    requires forall u :: u in after ==> after[u].email == before[u].email
    ensures UniqueEmails(after)
  {
  }

  /** The two collections of the database, updated in place by the controllers. */
  class Store {
    var users: map<Id, User>
    var events: map<Id, Event>

    ghost predicate Valid()
      reads this
    {
      UniqueEmails(users)
    }

    constructor ()
      ensures Valid() && users == map[] && events == map[]
    {
      users := map[];
      events := map[];
    }
  }
}

/** What a handler does with the response: answer it, or set a status and throw. */
module Http {
  import opened Basics
  import opened Model

  /** A thrown JavaScript error; `new Error(m)` has the name "Error". */
  datatype Error = Error(name: string, message: string)

  function Thrown(message: string): Error {
    Error("Error", message)
  }

  datatype Body =
    | Message(text: string)
    | EventDoc(view: EventView)
    | RawEvent(id: Id, event: Event)
    | EventList(views: map<Id, EventView>)
    | Credentials(id: Id, name: string, email: string, token: string)
    | Profile(profile: Option<ProfileView>)
    | Url(url: string)
    | Health(status: Option<string>, mongodb: string)

  /** `Sent`: the handler answered with `res.status(status).json(body)` (status 200 when it set none).
      `Raised`: the handler threw, with `status` the value `res.status` held at that moment;
      the error-handling middleware then writes the response. */
  datatype Outcome = Sent(status: int, body: Body) | Raised(status: int, error: Error)

  /** The response that reaches the client. */
  datatype Response = Response(status: int, body: Body)
}
