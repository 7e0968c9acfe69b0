/**
 * Request sequences a client of the service can issue, with what the
 * handlers' contracts let a caller conclude about the responses.
 */
module Scenarios {
  import opened Models
  import opened AdService

  /** Registering a name not yet in use and logging in with the same password succeeds. */
  method RegisterThenLogin(app: App, username: string, password: string, salt: nat)
    returns (registered: Response, loggedIn: Response)
    requires app.Valid() && !NameTaken(app.users, username)
    modifies app
    ensures app.Valid()
    ensures registered == Response(201, Message(UserCreated))
    ensures loggedIn == Response(200, Message(LoggedIn))
    ensures app.session.Some? && app.users[app.session.value] == NewUser(username, password, salt)
  {
    ghost var id;
    registered, id := app.Register(username, password, salt);
    assert app.users[id].username == username && app.users[id].CheckPassword(password);
    loggedIn := app.Login(username, password);
    assert app.session.value == id;
  }

  /**
   * GET /advertisements right after a post: the last entry of the listing
   * is the new advertisement, whose id exceeds every earlier one.
   */
  method NewestId(app: App, ghost id: nat) returns (newest: nat)
    requires app.Valid() && id in app.ads
    requires forall k :: k in app.ads ==> k <= id
    ensures newest == id
  {
    var listing := app.ShowAllAdvertisements();
    var rows := listing.body.ads;
    ghost var i :| 0 <= i < |rows| && rows[i].id == id;
    var last := |rows| - 1;
    newest := rows[last].id;
    assert newest in app.ads;
    if i < last {
      assert rows[i].id < rows[last].id;
    }
  }

  /** An advertisement fetched right after it is posted carries the posted fields and time. */
  method CreateThenGet(app: App, title: string, description: string, now: Timestamp)
    returns (created: Response, fetched: Response, id: nat)
    requires app.Valid() && app.session.Some? && app.nextAdId <= MaxRowId
    modifies app
    ensures app.Valid()
    ensures created == Response(201, Message(AdCreated))
    ensures fetched == Response(200, Fields(AdDict(id, title, description, now)))
    ensures id in app.ads && id !in old(app.ads)
  {
    ghost var newId;
    created, newId := app.CreateAdvertisement(title, description, now);
    id := NewestId(app, newId);
    fetched := app.GetAdvertisement(id);
  }

  /**
   * An advertisement posted by one user and then deleted by another is
   * refused with 403 and can still be fetched unchanged.
   */
  method ForeignDeleteIsForbidden(app: App, title: string, description: string, now: Timestamp,
                                  otherName: string, otherPassword: string)
    returns (deleted: Response, fetched: Response, id: nat)
    requires app.Valid() && app.session.Some? && app.nextAdId <= MaxRowId
    requires exists k :: k in app.users && k != app.session.value
                         && app.users[k].username == otherName && app.users[k].CheckPassword(otherPassword)
    modifies app
    ensures app.Valid()
    ensures deleted == Response(403, Message(NotOwner))
    ensures fetched == Response(200, Fields(AdDict(id, title, description, now)))
  {
    ghost var other :| other in app.users && other != app.session.value
                       && app.users[other].username == otherName && app.users[other].CheckPassword(otherPassword);
    ghost var newId;
    var created;
    created, newId := app.CreateAdvertisement(title, description, now);
    id := NewestId(app, newId);
    var login := app.Login(otherName, otherPassword);
    assert login.status == 200;
    assert app.session.value == other;
    deleted := app.DeleteAdvertisement(id);
    fetched := app.GetAdvertisement(id);
  }

  /**
   * The owner deleting a fresh advertisement gets 200, a second fetch is 404
   * and every other advertisement is as it was before the post.
   */
  method CreateThenDelete(app: App, title: string, description: string, now: Timestamp)
    returns (deleted: Response, fetched: Response, id: nat)
    requires app.Valid() && app.session.Some? && app.nextAdId <= MaxRowId
    modifies app
    ensures app.Valid()
    ensures deleted == Response(200, Message(AdDeleted))
    ensures fetched == Response(404, Message(AdNotFound))
    ensures app.ads == old(app.ads) && app.users == old(app.users)
  {
    ghost var newId;
    var created;
    created, newId := app.CreateAdvertisement(title, description, now);
    id := NewestId(app, newId);
    deleted := app.DeleteAdvertisement(id);
    fetched := app.GetAdvertisement(id);
  }
}
