/**
 * The request handlers of the advertisement service, as methods and functions
 * of one application object that holds the two tables, the id sequences of
 * the database and the session slot of the current client.
 */
module AdService {
  import opened Wrappers
  import opened Security
  import opened Models

  /** A response body: a JSON message, one advertisement, a list, or an HTML error page. */
  datatype Body =
    | Message(text: string)
    | Fields(ad: AdDict)
    | Listing(ads: seq<AdDict>)
    | ErrorPage(title: string)

  datatype Response = Response(status: nat, body: Body)

  const AdCreated := "New advertisement created!"
  const AdNotFound := "Advertisement not found"
  const NotOwner := "You do not have permission to delete this advertisement"
  const AdDeleted := "Advertisement has been deleted"
  const UserCreated := "User created!"
  const LoggedIn := "Logged in successfully!"
  const InvalidCredentials := "Invalid username or password"
  const LoggedOut := "Logged out successfully!"

  /** What login_required answers for a caller without a session (werkzeug's default 401 page). */
  const Unauthorized := Response(401, ErrorPage("Unauthorized"))
  /**
   * An exception left uncaught by a handler: the failed commit of a
   * duplicate user name, or an id that sqlite3 cannot bind.
   */
  const ServerError := Response(500, ErrorPage("Internal Server Error"))

  /** The largest value of SQLite's 64-bit INTEGER, hence the largest rowid. */
  const MaxRowId: nat := 0x7FFF_FFFF_FFFF_FFFF

  class App {
    /** The user table, keyed by id. */
    var users: map<nat, User>
    /** The advertisement table, keyed by id. */
    var ads: map<nat, Advertisement>
    /** The user id the session cookie carries, if the client is logged in. */
    var session: Option<nat>
    /**
     * The next primary keys the database hands out; every key in use is
     * below them, and advertisement keys stay within SQLite's INTEGER range.
     */
    var nextUserId: nat
    var nextAdId: nat

    /**
     * The state invariant: keys below their sequence, unique user names,
     * every advertisement's owner is a user, and the session names a user.
     */
    ghost predicate Valid()
      reads this
    {
      && (forall k :: k in users ==> k < nextUserId)
      && (forall k :: k in ads ==> k < nextAdId)
      && nextAdId <= MaxRowId + 1
      && UniqueUsernames(users)
      && (forall k :: k in ads ==> ads[k].ownerId in users)
      && (session.Some? ==> session.value in users)
    }

    /** Empty tables after create_all, and a client that is not logged in. */
    constructor ()
      ensures Valid()
      ensures users == map[] && ads == map[] && session == None
    {
      users, ads, session := map[], map[], None;
      nextUserId, nextAdId := 1, 1;
    }

    /**
     * current_user as the user_loader resolves it: the session's user id when
     * that row exists, and no one otherwise.
     */
    function CurrentUser(): (r: Option<nat>)
      reads this
      ensures r.Some? ==> r == session && r.value in users
      ensures Valid() ==> r == session
    {
      if session.Some? && session.value in users then session else None
    }

    /** GET /advertisements: every advertisement, as to_dict, in id order. */
    function ShowAllAdvertisements(): (r: Response)
      reads this
      requires Valid()
      ensures r.status == 200 && r.body.Listing?
      ensures |r.body.ads| == |ads|
      ensures forall i :: 0 <= i < |r.body.ads| ==>
                r.body.ads[i].id in ads && r.body.ads[i] == ads[r.body.ads[i].id].ToDict(r.body.ads[i].id)
      ensures forall i, j :: 0 <= i < j < |r.body.ads| ==> r.body.ads[i].id < r.body.ads[j].id
      ensures forall k :: k in ads ==> exists i :: 0 <= i < |r.body.ads| && r.body.ads[i].id == k
      ensures forall i :: 0 <= i < |r.body.ads| ==>
                GetAdvertisement(r.body.ads[i].id) == Response(200, Fields(r.body.ads[i]))
    {
      var rows := ListAll(ads, nextAdId);
      ListingAgreesWithGet(rows);
      Response(200, Listing(rows))
    }

    /**
     * Each entry of the listing is what GET /advertisement/<id> answers for
     * its id. Stated apart so that the proof of ShowAllAdvertisements stays
     * within the verifier's resource limit.
     */
    lemma ListingAgreesWithGet(rows: seq<AdDict>)
      requires Valid() && rows == ListAll(ads, nextAdId)
      ensures forall i :: 0 <= i < |rows| ==> GetAdvertisement(rows[i].id) == Response(200, Fields(rows[i]))
    {
      forall i | 0 <= i < |rows| ensures GetAdvertisement(rows[i].id) == Response(200, Fields(rows[i])) {
        assert rows[i].id < nextAdId;
      }
    }

    /**
     * GET /advertisement/<id>: the advertisement's fields, or 404; an id
     * beyond SQLite's INTEGER range makes the query raise, which is a 500.
     */
    function GetAdvertisement(id: nat): (r: Response)
      reads this
      ensures id > MaxRowId ==> r == ServerError
      ensures id <= MaxRowId ==> (r.status == 200 <==> id in ads)
      ensures id <= MaxRowId && id in ads ==>
                r.body == Fields(AdDict(id, ads[id].title, ads[id].description, ads[id].creationDate))
      ensures id <= MaxRowId && id !in ads ==> r == Response(404, Message(AdNotFound))
    {
      if id > MaxRowId then ServerError
      else if id !in ads then Response(404, Message(AdNotFound))
      else Response(200, Fields(ads[id].ToDict(id)))
    }

    /**
     * The credential check of login: the user with this name, when the
     * stored digest accepts the password; no one otherwise.
     */
    function Verify(username: string, password: string): (r: Option<nat>)
      reads this
      ensures r.Some? ==> r.value in users && users[r.value].username == username
                          && users[r.value].CheckPassword(password)
      ensures Valid() ==>
                (r.None? <==> forall k :: k in users && users[k].username == username ==> !users[k].CheckPassword(password))
    {
      match FirstWithName(users, username, 0, nextUserId)
      case None => None
      case Some(k) => if users[k].CheckPassword(password) then Some(k) else None
    }

    /**
     * POST /advertisement (login required): a new row owned by the caller;
     * once the rowid range is used up, the insert fails with a 500.
     */
    method CreateAdvertisement(title: string, description: string, now: Timestamp)
      returns (r: Response, ghost id: nat)
      requires Valid()
      modifies this
      ensures Valid()
      ensures users == old(users) && session == old(session) && nextUserId == old(nextUserId)
      ensures session.None? ==> r == Unauthorized && ads == old(ads) && nextAdId == old(nextAdId)
      ensures session.Some? && old(nextAdId) > MaxRowId ==>
                r == ServerError && ads == old(ads) && nextAdId == old(nextAdId)
      ensures session.Some? && old(nextAdId) <= MaxRowId ==>
                && r == Response(201, Message(AdCreated))
                && (forall k :: k in old(ads) ==> k < id)
                && ads == old(ads)[id := Advertisement(title, description, now, session.value)]
                && nextAdId == old(nextAdId) + 1
    {
      var caller := CurrentUser();
      if caller.None? {
        r, id := Unauthorized, 0;
        return;
      }
      if nextAdId > MaxRowId {
        r, id := ServerError, 0;
        return;
      }
      id := nextAdId;
      ads := ads[nextAdId := Advertisement(title, description, now, caller.value)];
      nextAdId := nextAdId + 1;
      r := Response(201, Message(AdCreated));
    }

    /**
     * DELETE /advertisement/<id> (login required): 404 for a missing id is
     * decided before 403 for a row the caller does not own; only the owner
     * removes the row. An id beyond SQLite's INTEGER range makes the lookup
     * raise, which is a 500.
     */
    method DeleteAdvertisement(id: nat) returns (r: Response)
      requires Valid()
      modifies this
      ensures Valid()
      ensures users == old(users) && session == old(session)
      ensures nextUserId == old(nextUserId) && nextAdId == old(nextAdId)
      ensures session.None? ==> r == Unauthorized && ads == old(ads)
      ensures session.Some? && id > MaxRowId ==> r == ServerError && ads == old(ads)
      ensures session.Some? && id <= MaxRowId && id !in old(ads) ==>
                r == Response(404, Message(AdNotFound)) && ads == old(ads)
      ensures session.Some? && id in old(ads) && old(ads)[id].ownerId != session.value ==>
                r == Response(403, Message(NotOwner)) && ads == old(ads)
      ensures session.Some? && id in old(ads) && old(ads)[id].ownerId == session.value ==>
                r == Response(200, Message(AdDeleted)) && ads == old(ads) - {id}
    {
      var caller := CurrentUser();
      if caller.None? {
        return Unauthorized;
      }
      if id > MaxRowId {
        return ServerError;
      }
      if id !in ads {
        return Response(404, Message(AdNotFound));
      }
      if ads[id].ownerId != caller.value {
        return Response(403, Message(NotOwner));
      }
      ads := ads - {id};
      r := Response(200, Message(AdDeleted));
    }

    /**
     * POST /register: a new user whose digest is the hash of the password;
     * a name already in use makes the commit fail and adds no one.
     */
    method Register(username: string, password: string, salt: nat)
      returns (r: Response, ghost id: nat)
      requires Valid()
      modifies this
      ensures Valid()
      ensures ads == old(ads) && session == old(session) && nextAdId == old(nextAdId)
      ensures NameTaken(old(users), username) ==>
                r == ServerError && users == old(users) && nextUserId == old(nextUserId)
      ensures !NameTaken(old(users), username) ==>
                && r == Response(201, Message(UserCreated))
                && (forall k :: k in old(users) ==> k < id)
                && users == old(users)[id := NewUser(username, password, salt)]
                && nextUserId == old(nextUserId) + 1
    {
      var user := NewUser(username, password, salt);
      var clash := FirstWithName(users, username, 0, nextUserId);
      if clash.Some? {
        r, id := ServerError, 0;
        return;
      }
      id := nextUserId;
      users := users[nextUserId := user];
      nextUserId := nextUserId + 1;
      r := Response(201, Message(UserCreated));
    }

    /**
     * POST /login: the session is bound to the user when the name exists and
     * the password matches; both kinds of failure give the same 401.
     */
    method Login(username: string, password: string) returns (r: Response)
      requires Valid()
      modifies this
      ensures Valid()
      ensures users == old(users) && ads == old(ads)
      ensures nextUserId == old(nextUserId) && nextAdId == old(nextAdId)
      ensures r.status == 200 <==>
                exists k :: k in users && users[k].username == username && users[k].CheckPassword(password)
      ensures r.status == 200 ==>
                && r == Response(200, Message(LoggedIn))
                && session.Some? && users[session.value].username == username
                && users[session.value].CheckPassword(password)
      ensures r.status != 200 ==>
                r == Response(401, Message(InvalidCredentials)) && session == old(session)
    {
      var user := Verify(username, password);
      if user.Some? {
        session := user;
        return Response(200, Message(LoggedIn));
      }
      r := Response(401, Message(InvalidCredentials));
    }

    /** GET /logout (login required): clears the session slot. */
    method Logout() returns (r: Response)
      requires Valid()
      modifies this
      ensures Valid()
      ensures users == old(users) && ads == old(ads)
      ensures nextUserId == old(nextUserId) && nextAdId == old(nextAdId)
      ensures old(session).None? ==> r == Unauthorized && session == None
      ensures old(session).Some? ==> r == Response(200, Message(LoggedOut)) && session == None
    {
      var caller := CurrentUser();
      if caller.None? {
        return Unauthorized;
      }
      session := None;
      r := Response(200, Message(LoggedOut));
    }
  }
}
