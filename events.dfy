/** The event controller: the read projections and the in-place lifecycle operations
    (create, update, delete, attend, comment) over the two collections. */
module EventController {
  import opened Basics
  import opened Model
  import opened Http
  import Server

  // ---- Projections (`populate`) ----

  /** A populated user reference; a user that no longer exists becomes null. */
  function ViewUser(users: map<Id, User>, uid: Id, withEmail: bool): (r: UserRef)
    ensures r.Shown? <==> uid in users
    ensures r.Dangling? <==> uid !in users
    ensures r.Shown? ==>
      r.view.id == uid && r.view.name == users[uid].name
      && r.view.email == (if withEmail then Some(users[uid].email) else None)
  {
    if uid in users then
      Shown(UserView(uid, users[uid].name, if withEmail then Some(users[uid].email) else None))
    else Dangling
  }

  /** A populated id array: ids with no user are dropped, the rest keep their order. */
  function ViewAttendees(users: map<Id, User>, ids: seq<Id>, withEmail: bool): (r: seq<UserView>)
    ensures |r| <= |ids|
    ensures forall k :: 0 <= k < |r| ==>
      r[k].id in users && r[k].name == users[r[k].id].name
      && r[k].email == (if withEmail then Some(users[r[k].id].email) else None)
    ensures (forall k :: 0 <= k < |ids| ==> ids[k] in users) ==>
      |r| == |ids| && forall k :: 0 <= k < |r| ==> r[k].id == ids[k]
    decreases |ids|
  {
    if ids == [] then []
    else
      var rest := ViewAttendees(users, ids[1..], withEmail);
      if ids[0] in users then [ViewUser(users, ids[0], withEmail).view] + rest else rest
  }

  /** One step of populating an id array: the head id becomes a view iff its user exists. */
  lemma ViewAttendeesCons(users: map<Id, User>, id: Id, rest: seq<Id>, withEmail: bool)
    ensures ViewAttendees(users, [id] + rest, withEmail)
         == (if id in users then [UserView(id, users[id].name, if withEmail then Some(users[id].email) else None)] else [])
            + ViewAttendees(users, rest, withEmail)
    ensures ViewAttendees(users, [id], withEmail)
         == (if id in users then [UserView(id, users[id].name, if withEmail then Some(users[id].email) else None)] else [])
  {
    assert ([id] + rest)[0] == id && ([id] + rest)[1..] == rest;
    assert [id][1..] == [];
  }

  /** Populating works id by id, so the attendees that exist keep the order of the id array. */
  lemma {:induction false} ViewAttendeesConcat(users: map<Id, User>, a: seq<Id>, b: seq<Id>, withEmail: bool)
    ensures ViewAttendees(users, a + b, withEmail) == ViewAttendees(users, a, withEmail) + ViewAttendees(users, b, withEmail)
    decreases |a|
  {
    if a != [] {
      ViewAttendeesConcat(users, a[1..], b, withEmail);
      ConsSplit(a, b);
      ViewAttendeesCons(users, a[0], a[1..] + b, withEmail);
      ViewAttendeesCons(users, a[0], a[1..], withEmail);
      ConcatAssoc(if a[0] in users then [UserView(a[0], users[a[0]].name, if withEmail then Some(users[a[0]].email) else None)] else [],
                  ViewAttendees(users, a[1..], withEmail), ViewAttendees(users, b, withEmail));
    } else {
      assert a + b == b;
    }
  }

  /** The comment list, with each author populated (`name email`) or left as a raw id. */
  function ViewComments(users: map<Id, User>, cs: seq<Comment>, populate: bool): (r: seq<CommentView>)
    ensures |r| == |cs|
    ensures forall k :: 0 <= k < |r| ==>
      r[k].id == cs[k].id && r[k].content == cs[k].content
      && r[k].user == (if populate then ViewUser(users, cs[k].user, true) else Raw(cs[k].user))
    decreases |cs|
  {
    if cs == [] then []
    else
      [CommentView(cs[0].id, cs[0].content,
                   if populate then ViewUser(users, cs[0].user, true) else Raw(cs[0].user))]
      + ViewComments(users, cs[1..], populate)
  }

  /** An event as a response shows it: its own fields, creator and attendees populated
      (with or without email), comments' authors populated or not. */
  function Project(users: map<Id, User>, id: Id, e: Event, withEmail: bool, populateComments: bool): (v: EventView)
    ensures v.id == id && v.title == e.title && v.description == e.description
    ensures v.date == e.date && v.location == e.location && v.maxAttendees == e.maxAttendees
    ensures v.creator == ViewUser(users, e.creator, withEmail)
    ensures v.attendees == ViewAttendees(users, e.attendees, withEmail)
    ensures v.comments == ViewComments(users, e.comments, populateComments)
  {
    EventView(id, e.title, e.description, e.date, e.location, e.maxAttendees,
      ViewUser(users, e.creator, withEmail),
      ViewAttendees(users, e.attendees, withEmail),
      ViewComments(users, e.comments, populateComments))
  }

  /** A public projection carries no email anywhere. */
  lemma PublicViewHasNoEmail(users: map<Id, User>, id: Id, e: Event)
    ensures var v := Project(users, id, e, false, false);
      && (v.creator.Shown? ==> v.creator.view.email == None)
      && (forall k :: 0 <= k < |v.attendees| ==> v.attendees[k].email == None)
      && (forall k :: 0 <= k < |v.comments| ==> v.comments[k].user.Raw?)
  {
  }

  // ---- Reads ----

  /** GET /api/events */
  function GetEvents(users: map<Id, User>, events: map<Id, Event>): (o: Outcome)
    ensures o.Sent? && o.status == 200 && o.body.EventList?
    ensures o.body.views.Keys == events.Keys
    ensures forall id :: id in events ==> o.body.views[id] == Project(users, id, events[id], true, true)
  {
    Sent(200, EventList(map id | id in events :: Project(users, id, events[id], true, true)))
  }

  /** GET /api/events/:id: the handler throws "Event not found" with status 404. */
  function GetEvent(users: map<Id, User>, events: map<Id, Event>, id: Id): (o: Outcome)
    ensures id !in events <==> o == Raised(404, Thrown("Event not found"))
    ensures id in events ==> o == Sent(200, EventDoc(Project(users, id, events[id], true, true)))
  {
    if id !in events then Raised(404, Thrown("Event not found"))
    else Sent(200, EventDoc(Project(users, id, events[id], true, true)))
  }

  /** The 404 the protected read sets is replaced by the error handler's 500. */
  lemma MissingEventAnswered500(users: map<Id, User>, events: map<Id, Event>, id: Id)
    requires id !in events
    ensures Server.Respond(GetEvent(users, events, id)) == Response(500, Message("Event not found"))
    ensures Server.Respond(GetPublicEvent(users, events, id)) == Response(404, Message("Event not found"))
  {
  }

  /** GET /api/events/public: names only. */
  function GetPublicEvents(users: map<Id, User>, events: map<Id, Event>): (o: Outcome)
    ensures o.Sent? && o.status == 200 && o.body.EventList?
    ensures o.body.views.Keys == events.Keys
    ensures forall id :: id in events ==> o.body.views[id] == Project(users, id, events[id], false, false)
  {
    Sent(200, EventList(map id | id in events :: Project(users, id, events[id], false, false)))
  }

  /** GET /api/events/public/:id: answers 404 itself rather than throwing. */
  function GetPublicEvent(users: map<Id, User>, events: map<Id, Event>, id: Id): (o: Outcome)
    ensures o.Sent?
    ensures id !in events <==> o == Sent(404, Message("Event not found"))
    ensures id in events ==> o == Sent(200, EventDoc(Project(users, id, events[id], false, false)))
  {
    if id !in events then Sent(404, Message("Event not found"))
    else Sent(200, EventDoc(Project(users, id, events[id], false, false)))
  }

  // ---- List edits ----

  predicate NoDuplicates(s: seq<Id>) {
    forall i, j :: 0 <= i < j < |s| ==> s[i] != s[j]
  }

  /** Mongo's `$pull`: every occurrence of x goes, everything else stays in order. */
  function Pull(ids: seq<Id>, x: Id): (r: seq<Id>)
    ensures x !in r
    ensures multiset(r) == multiset(ids)[x := 0]
    ensures x !in ids ==> r == ids
    decreases |ids|
  {
    if ids == [] then []
    else
      var rest := Pull(ids[1..], x);
      assert ids == [ids[0]] + ids[1..];
      if ids[0] == x then rest else [ids[0]] + rest
  }

  /** One step of `$pull`: the head id goes iff it is the pulled one, independently of the tail. */
  lemma PullCons(y: Id, rest: seq<Id>, x: Id)
    ensures Pull([y] + rest, x) == (if y == x then [] else [y]) + Pull(rest, x)
    ensures Pull([y], x) == (if y == x then [] else [y])
  {
    assert ([y] + rest)[0] == y && ([y] + rest)[1..] == rest;
    assert [y][1..] == [];
  }

  /** `$pull` works element by element, so the ids it keeps stay in their order. */
  lemma {:induction false} PullConcat(a: seq<Id>, b: seq<Id>, x: Id)
    ensures Pull(a + b, x) == Pull(a, x) + Pull(b, x)
    decreases |a|
  {
    if a != [] {
      PullConcat(a[1..], b, x);
      ConsSplit(a, b);
      PullCons(a[0], a[1..] + b, x);
      PullCons(a[0], a[1..], x);
      ConcatAssoc(if a[0] == x then [] else [a[0]], Pull(a[1..], x), Pull(b, x));
    } else {
      assert a + b == b;
    }
  }

  /** `comments.filter(c => c._id.toString() !== commentId)` */
  function RemoveComments(cs: seq<Comment>, commentId: Id): (r: seq<Comment>)
    ensures forall k :: 0 <= k < |r| ==> r[k].id != commentId
    ensures forall c :: c in r <==> c in cs && c.id != commentId
    ensures (forall k :: 0 <= k < |cs| ==> cs[k].id != commentId) ==> r == cs
    decreases |cs|
  {
    if cs == [] then []
    else
      var rest := RemoveComments(cs[1..], commentId);
      assert forall c :: c in cs <==> c == cs[0] || c in cs[1..];
      if cs[0].id == commentId then rest else [cs[0]] + rest
  }

  /** One step of the filter: the head comment is kept or dropped on its own. */
  lemma RemoveCommentsCons(c: Comment, rest: seq<Comment>, commentId: Id)
    ensures RemoveComments([c] + rest, commentId)
         == (if c.id == commentId then [] else [c]) + RemoveComments(rest, commentId)
  {
    assert ([c] + rest)[0] == c && ([c] + rest)[1..] == rest;
  }

  /** The filter works element by element, so it keeps the surviving comments in their order. */
  lemma {:induction false} RemoveCommentsDistributes(a: seq<Comment>, b: seq<Comment>, commentId: Id)
    ensures RemoveComments(a + b, commentId) == RemoveComments(a, commentId) + RemoveComments(b, commentId)
    decreases |a|
  {
    if a != [] {
      RemoveCommentsDistributes(a[1..], b, commentId);
      ConsSplit(a, b);
      RemoveCommentsCons(a[0], a[1..] + b, commentId);
      RemoveCommentsCons(a[0], a[1..], commentId);
      ConcatAssoc(if a[0].id == commentId then [] else [a[0]],
                  RemoveComments(a[1..], commentId), RemoveComments(b, commentId));
    } else {
      assert a + b == b;
    }
  }

  /** Deleting the same comment id twice changes nothing the second time. */
  lemma RemoveCommentsIdempotent(cs: seq<Comment>, commentId: Id)
    ensures RemoveComments(RemoveComments(cs, commentId), commentId) == RemoveComments(cs, commentId)
  {
  }

  // ---- Event rules ----

  /** `attendees.length >= maxAttendees`; an undefined maximum compares false. */
  predicate IsFull(e: Event)
    ensures e.maxAttendees.None? ==> !IsFull(e)
    ensures e.maxAttendees.Some? ==> (IsFull(e) <==> e.maxAttendees.value <= |e.attendees|)
    ensures e.maxAttendees.Some? && e.maxAttendees.value <= 0 ==> IsFull(e)
  {
    e.maxAttendees.Some? && |e.attendees| >= e.maxAttendees.value
  }

  /** The first of attendEvent's checks that fails, in the handler's order; None if all pass. */
  function AttendRefusal(e: Event, caller: Id): (r: Option<string>)
    ensures r.None? <==> caller != e.creator && caller !in e.attendees && !IsFull(e)
    ensures caller == e.creator ==> r == Some("Cannot attend your own event")
    ensures caller != e.creator && caller in e.attendees ==> r == Some("Already attending this event")
    ensures caller != e.creator && caller !in e.attendees && IsFull(e) ==> r == Some("Event is full")
  {
    if e.creator == caller then Some("Cannot attend your own event")
    else if caller in e.attendees then Some("Already attending this event")
    else if IsFull(e) then Some("Event is full")
    else None
  }

  /** `attendees.push(caller)` once the checks passed: exactly the caller is appended, the
      maximum is respected and no attendee is listed twice if none was before. */
  function Enroll(e: Event, caller: Id): (r: Event)
    requires AttendRefusal(e, caller).None?
    ensures r.attendees == e.attendees + [caller]
    ensures r == e.(attendees := r.attendees)
    ensures r.maxAttendees.Some? ==> |r.attendees| <= r.maxAttendees.value
    ensures NoDuplicates(e.attendees) ==> NoDuplicates(r.attendees)
    ensures e.creator !in e.attendees ==> r.creator !in r.attendees
  {
    e.(attendees := e.attendees + [caller])
  }

  /** A document with only the creator set and the two arrays empty. */
  function Blank(creator: Id): Event {
    Event(None, None, None, None, None, creator, [], [])
  }

  /** `Object.assign(event, patch)`: exactly the keys present in the patch are overwritten. */
  function Assign(e: Event, p: Patch): (r: Event)
    ensures r.title == (if p.title.Some? then p.title else e.title)
    ensures r.description == (if p.description.Some? then p.description else e.description)
    ensures r.date == (if p.date.Some? then p.date else e.date)
    ensures r.location == (if p.location.Some? then p.location else e.location)
    ensures r.maxAttendees == (if p.maxAttendees.Some? then p.maxAttendees else e.maxAttendees)
    ensures r.creator == (if p.creator.Some? then p.creator.value else e.creator)
    ensures r.attendees == (if p.attendees.Some? then p.attendees.value else e.attendees)
    ensures r.comments == (if p.comments.Some? then p.comments.value else e.comments)
  {
    Event(
      if p.title.Some? then p.title else e.title,
      if p.description.Some? then p.description else e.description,
      if p.date.Some? then p.date else e.date,
      if p.location.Some? then p.location else e.location,
      if p.maxAttendees.Some? then p.maxAttendees else e.maxAttendees,
      if p.creator.Some? then p.creator.value else e.creator,
      if p.attendees.Some? then p.attendees.value else e.attendees,
      if p.comments.Some? then p.comments.value else e.comments)
  }

  /** Applying a patch a second time changes nothing more. */
  lemma AssignIdempotent(e: Event, p: Patch)
    ensures Assign(Assign(e, p), p) == Assign(e, p)
  {
  }

  /** `new Event({...body, creator: caller})`: the body spread first, then the creator overwritten. */
  function NewEvent(body: Patch, creator: Id): (e: Event)
    ensures e.creator == creator
    ensures e == Assign(Blank(creator), body.(creator := None))
  {
    Assign(Blank(creator), body).(creator := creator)
  }

  /** The capacity rule is local to attendEvent: an update may lower the maximum below the
      current attendance, and a create body may list the creator among the attendees. */
  lemma CapacityIsNotAnInvariant(caller: Id, other: Id)
    requires caller != other
    ensures var e := Blank(caller).(maxAttendees := Some(1), attendees := [other]);
      && !IsFull(e.(attendees := [])) && IsFull(e)
      && var u := Assign(e, Patch(None, None, None, None, Some(0), None, None, None));
      && |u.attendees| > u.maxAttendees.value
    ensures caller in NewEvent(Patch(None, None, None, None, None, None, Some([caller]), None), caller).attendees
  {
  }

  /** `User.findByIdAndUpdate(uid, {$pull: {createdEvents: eid}})`; a missing user is no update. */
  function PullCreated(users: map<Id, User>, uid: Id, eid: Id): (r: map<Id, User>)
    ensures r.Keys == users.Keys
    ensures forall u :: u in r ==>
      r[u] == users[u].(createdEvents := if u == uid then Pull(users[u].createdEvents, eid) else users[u].createdEvents)
  {
    if uid in users then users[uid := users[uid].(createdEvents := Pull(users[uid].createdEvents, eid))]
    else users
  }

  /** `User.updateMany({attendingEvents: eid}, {$pull: {attendingEvents: eid}})` */
  function PullAttendingEverywhere(users: map<Id, User>, eid: Id): (r: map<Id, User>)
    ensures r.Keys == users.Keys
    ensures forall u :: u in r ==> eid !in r[u].attendingEvents
    ensures forall u :: u in r ==> r[u] == users[u].(attendingEvents := Pull(users[u].attendingEvents, eid))
  {
    map u | u in users :: users[u].(attendingEvents := Pull(users[u].attendingEvents, eid))
  }

  /** The two pulls of deleteEvent together: the owner loses the id from both lists, every other
      user only from attendingEvents, and no one else's record changes in any other way. */
  lemma DeleteCascade(users: map<Id, User>, caller: Id, eid: Id)
    requires UniqueEmails(users)
    ensures var r := PullAttendingEverywhere(PullCreated(users, caller, eid), eid);
      && r.Keys == users.Keys && UniqueEmails(r)
      && (forall u :: u in r ==> eid !in r[u].attendingEvents)
      && (caller in r ==> eid !in r[caller].createdEvents)
      && (forall u :: u in r ==>
            r[u] == users[u].(
              createdEvents := if u == caller then Pull(users[u].createdEvents, eid) else users[u].createdEvents,
              attendingEvents := Pull(users[u].attendingEvents, eid)))
  {
    var mid := PullCreated(users, caller, eid);
    EmailsKept(users, mid);
    EmailsKept(mid, PullAttendingEverywhere(mid, eid));
  }

  // ---- Operations that change the store ----

  /** The message of every attendEvent failure, answered by its catch block. */
  const AttendFailed: Outcome := Sent(500, Message("Error attending event"))

  /** POST /api/events: with no caller nothing is stored; otherwise the new event is stored with
      the caller as creator and its id appended to the caller's createdEvents. */
  method CreateEvent(db: Store, caller: Option<Id>, body: Patch, newId: Id) returns (o: Outcome)
    requires db.Valid() && newId !in db.events
    modifies db
    ensures db.Valid()
    ensures caller.None? ==>
      o == Raised(500, Thrown("User not authenticated"))
      && db.events == old(db.events) && db.users == old(db.users)
    ensures caller.Some? ==>
      var c := caller.value;
      && db.events == old(db.events)[newId := NewEvent(body, c)]
      && db.users == (if c in old(db.users)
                      then old(db.users)[c := old(db.users)[c].(createdEvents := old(db.users)[c].createdEvents + [newId])]
                      else old(db.users))
      && o == Sent(201, EventDoc(Project(db.users, newId, NewEvent(body, c), true, false)))
  {
    if caller.None? {
      o := Raised(500, Thrown("User not authenticated"));
      return;
    }
    var c := caller.value;
    var event := NewEvent(body, c);
    db.events := db.events[newId := event];
    if c in db.users {
      ghost var before := db.users;
      var u := db.users[c];
      db.users := db.users[c := u.(createdEvents := u.createdEvents + [newId])];
      EmailsKept(before, db.users);
    }
    o := Sent(201, EventDoc(Project(db.users, newId, db.events[newId], true, false)));
  }

  /** PUT /api/events/:id: only the creator may update; the patch overwrites exactly its keys. */
  method UpdateEvent(db: Store, caller: Id, id: Id, patch: Patch) returns (o: Outcome)
    requires db.Valid()
    modifies db
    ensures db.Valid() && db.users == old(db.users)
    ensures id !in old(db.events) ==>
      o == Raised(404, Thrown("Event not found")) && db.events == old(db.events)
    ensures id in old(db.events) && old(db.events)[id].creator != caller ==>
      o == Raised(403, Thrown("Not authorized")) && db.events == old(db.events)
    ensures id in old(db.events) && old(db.events)[id].creator == caller ==>
      && db.events == old(db.events)[id := Assign(old(db.events)[id], patch)]
      && o == Sent(200, RawEvent(id, Assign(old(db.events)[id], patch)))
  {
    if id !in db.events {
      o := Raised(404, Thrown("Event not found"));
      return;
    }
    var event := db.events[id];
    if event.creator != caller {
      o := Raised(403, Thrown("Not authorized"));
      return;
    }
    event := Assign(event, patch);
    db.events := db.events[id := event];
    o := Sent(200, RawEvent(id, event));
  }

  /** DELETE /api/events/:id: only the creator may delete; the event goes, its id is pulled from
      the caller's createdEvents and from every user's attendingEvents. */
  method DeleteEvent(db: Store, caller: Id, id: Id) returns (o: Outcome)
    requires db.Valid()
    modifies db
    ensures db.Valid()
    ensures id !in old(db.events) ==>
      o == Raised(404, Thrown("Event not found"))
      && db.events == old(db.events) && db.users == old(db.users)
    ensures id in old(db.events) && old(db.events)[id].creator != caller ==>
      o == Raised(403, Thrown("Not authorized"))
      && db.events == old(db.events) && db.users == old(db.users)
    ensures id in old(db.events) && old(db.events)[id].creator == caller ==>
      && o == Sent(200, Message("Event deleted"))
      && db.events == old(db.events) - {id}
      && db.users.Keys == old(db.users).Keys
      && (forall u :: u in db.users ==> id !in db.users[u].attendingEvents)
      && (forall u :: u in db.users ==>
            db.users[u] == old(db.users)[u].(
              createdEvents := if u == caller then Pull(old(db.users)[u].createdEvents, id)
                               else old(db.users)[u].createdEvents,
              attendingEvents := Pull(old(db.users)[u].attendingEvents, id)))
  {
    if id !in db.events {
      o := Raised(404, Thrown("Event not found"));
      return;
    }
    var event := db.events[id];
    if event.creator != caller {
      o := Raised(403, Thrown("Not authorized"));
      return;
    }
    db.events := db.events - {id};
    DeleteCascade(db.users, caller, id);
    db.users := PullCreated(db.users, caller, id);
    db.users := PullAttendingEverywhere(db.users, id);
    o := Sent(200, Message("Event deleted"));
  }

  /** POST /api/events/:id/attend: refusals, whichever check fired, change nothing and are all
      answered 500 "Error attending event"; success appends the caller to the attendees and the
      event id to the caller's attendingEvents. */
  method AttendEvent(db: Store, caller: Id, id: Id) returns (o: Outcome)
    requires db.Valid()
    modifies db
    ensures db.Valid()
    ensures o == AttendFailed || (o.Sent? && o.status == 200)
    ensures id !in old(db.events) || AttendRefusal(old(db.events)[id], caller).Some? ==>
      o == AttendFailed && db.events == old(db.events) && db.users == old(db.users)
    ensures id in old(db.events) && AttendRefusal(old(db.events)[id], caller).None? ==>
      && db.events == old(db.events)[id := Enroll(old(db.events)[id], caller)]
      && db.users == (if caller in old(db.users)
                      then old(db.users)[caller := old(db.users)[caller].(attendingEvents := old(db.users)[caller].attendingEvents + [id])]
                      else old(db.users))
      && o == Sent(200, EventDoc(Project(db.users, id, Enroll(old(db.events)[id], caller), true, false)))
  {
    if id !in db.events {
      o := AttendFailed;
      return;
    }
    var event := db.events[id];
    if event.creator == caller {
      o := AttendFailed;
      return;
    }
    if caller in event.attendees {
      o := AttendFailed;
      return;
    }
    if IsFull(event) {
      o := AttendFailed;
      return;
    }
    event := Enroll(event, caller);
    db.events := db.events[id := event];
    if caller in db.users {
      ghost var before := db.users;
      var u := db.users[caller];
      db.users := db.users[caller := u.(attendingEvents := u.attendingEvents + [id])];
      EmailsKept(before, db.users);
    }
    o := Sent(200, EventDoc(Project(db.users, id, event, true, false)));
  }

  /** POST /api/events/:id/comments: one comment by the caller is appended; the earlier comments
      are an unchanged prefix. */
  method AddComment(db: Store, caller: Id, id: Id, content: Option<string>, commentId: Id) returns (o: Outcome)
    requires db.Valid()
    modifies db
    ensures db.Valid() && db.users == old(db.users)
    ensures id !in old(db.events) ==>
      o == Raised(404, Thrown("Event not found")) && db.events == old(db.events)
    ensures id in old(db.events) ==>
      var before := old(db.events)[id].comments;
      && id in db.events
      && db.events == old(db.events)[id := old(db.events)[id].(comments := db.events[id].comments)]
      && |db.events[id].comments| == |before| + 1
      && db.events[id].comments[..|before|] == before
      && db.events[id].comments[|before|] == Comment(commentId, content, caller)
      && o == Sent(201, EventDoc(Project(db.users, id, db.events[id], true, true)))
  {
    if id !in db.events {
      o := Raised(404, Thrown("Event not found"));
      return;
    }
    var event := db.events[id];
    var comment := Comment(commentId, content, caller);
    event := event.(comments := event.comments + [comment]);
    db.events := db.events[id := event];
    o := Sent(201, EventDoc(Project(db.users, id, event, true, true)));
  }

  /** DELETE /api/events/:id/comments/:commentId: removes every comment with that id, whoever
      wrote it, and always answers "Comment removed" when the event exists. */
  method DeleteComment(db: Store, caller: Id, id: Id, commentId: Id) returns (o: Outcome)
    requires db.Valid()
    modifies db
    ensures db.Valid() && db.users == old(db.users)
    ensures id !in old(db.events) ==>
      o == Raised(404, Thrown("Event not found")) && db.events == old(db.events)
    ensures id in old(db.events) ==>
      && o == Sent(200, Message("Comment removed"))
      && db.events == old(db.events)[id := old(db.events)[id].(
           comments := RemoveComments(old(db.events)[id].comments, commentId))]
  {
    if id !in db.events {
      o := Raised(404, Thrown("Event not found"));
      return;
    }
    var event := db.events[id];
    event := event.(comments := RemoveComments(event.comments, commentId));
    db.events := db.events[id := event];
    o := Sent(200, Message("Comment removed"));
  }
}
