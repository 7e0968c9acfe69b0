/**
 * The two tables of the service: users and advertisements, each keyed by an
 * integer primary key, and the read-only views the handlers build from them.
 */
module Models {
  import opened Wrappers
  import opened Security

  /** Stands for the clock reading that datetime.utcnow gives at insertion. */
  type Timestamp = nat

  /** A row of the user table: a unique user name and a password digest. */
  datatype User = User(username: string, passwordHash: Digest)
  {
    /**
     * check_password: the stored digest accepts a password exactly when
     * hashing that password with the stored salt reproduces the digest.
     */
    predicate CheckPassword(password: string)
      ensures CheckPassword(password) <==> passwordHash == GeneratePasswordHash(password, passwordHash.salt)
    {
      CheckPasswordHash(passwordHash, password)
    }
  }

  /**
   * A fresh user record: the constructor call with the user name followed by
   * set_password, which stores the digest of the password.
   */
  function NewUser(username: string, password: string, salt: nat): (u: User)
    ensures u.username == username
    ensures forall candidate :: u.CheckPassword(candidate) <==> candidate == password
  {
    User(username, GeneratePasswordHash(password, salt))
  }

  /** A row of the advertisement table; ownerId refers to a user row. */
  datatype Advertisement = Advertisement(title: string, description: string,
                                         creationDate: Timestamp, ownerId: nat)
  {
    /**
     * to_dict: the public view of the row under its id. It leaves out only
     * the owner: the row is the dict's fields together with its owner id.
     */
    function ToDict(id: nat): (d: AdDict)
      ensures d.id == id
      ensures Advertisement(d.title, d.description, d.creationDate, ownerId) == this
    {
      AdDict(id, title, description, creationDate)
    }
  }

  /** The JSON object that to_dict and get_advertisement produce. */
  datatype AdDict = AdDict(id: nat, title: string, description: string, creationDate: Timestamp)

  /** True when some row of the user table carries this user name. */
  ghost predicate NameTaken(users: map<nat, User>, username: string)
  {
    exists k :: k in users && users[k].username == username
  }

  /** The unique=True constraint on the username column. */
  ghost predicate UniqueUsernames(users: map<nat, User>)
  {
    forall i, j :: i in users && j in users && i != j ==> users[i].username != users[j].username
  }

  /**
   * The keys of a table that lie below hi, in ascending order: the order in
   * which a query without ORDER BY returns the rows of a table keyed by rowid.
   */
  function IdsBelow<T>(m: map<nat, T>, hi: nat): (ids: seq<nat>)
    ensures forall i :: 0 <= i < |ids| ==> ids[i] in m && ids[i] < hi
    ensures forall i, j :: 0 <= i < j < |ids| ==> ids[i] < ids[j]
    ensures forall k {:trigger k in ids} :: k in m && k < hi ==> k in ids
    decreases hi
  {
    if hi == 0 then []
    else IdsBelow(m, hi - 1) + (if hi - 1 in m then [hi - 1] else [])
  }

  /** Once hi bounds every key, the scan lists each row exactly once. */
  lemma IdsBelowCount<T>(m: map<nat, T>, hi: nat)
    requires forall k :: k in m ==> k < hi
    ensures |IdsBelow(m, hi)| == |m|
  {
    var ids := IdsBelow(m, hi);
    AscendingCount(ids, m.Keys);
  }

  /** An ascending sequence has as many elements as the set of its members. */
  lemma {:induction false} AscendingCount(s: seq<nat>, members: set<nat>)
    requires forall i, j :: 0 <= i < j < |s| ==> s[i] < s[j]
    requires forall x :: x in members <==> x in s
    ensures |s| == |members|
  {
    if s != [] {
      var last := s[|s| - 1];
      var init := s[..|s| - 1];
      assert forall x :: x in members - {last} <==> x in init by {
        forall x ensures x in members - {last} <==> x in init {
          if x in init {
            var i :| 0 <= i < |init| && init[i] == x;
            assert s[i] < last;
          }
          assert x in s <==> x in init || x == last;
        }
      }
      AscendingCount(init, members - {last});
    }
  }

  /**
   * The list comprehension of show_all_advertisements: to_dict of each row,
   * in the order of ids.
   */
  function ToDicts(m: map<nat, Advertisement>, ids: seq<nat>): (ds: seq<AdDict>)
    requires forall i :: 0 <= i < |ids| ==> ids[i] in m
    ensures |ds| == |ids|
    ensures forall i :: 0 <= i < |ids| ==> ds[i] == m[ids[i]].ToDict(ids[i])
  {
    if ids == [] then []
    else [m[ids[0]].ToDict(ids[0])] + ToDicts(m, ids[1..])
  }

  /**
   * The body of show_all_advertisements for a table whose keys all lie
   * below hi: to_dict of every row, each once, in ascending id order.
   */
  function ListAll(m: map<nat, Advertisement>, hi: nat): (ds: seq<AdDict>)
    requires forall k :: k in m ==> k < hi
    ensures |ds| == |m|
    ensures forall i :: 0 <= i < |ds| ==> ds[i].id in m && ds[i] == m[ds[i].id].ToDict(ds[i].id)
    ensures forall i :: 0 <= i < |ds| ==> ds[i].id < hi
    ensures forall i, j :: 0 <= i < j < |ds| ==> ds[i].id < ds[j].id
    ensures forall k :: k in m ==> exists i :: 0 <= i < |ds| && ds[i].id == k
  {
    var ids := IdsBelow(m, hi);
    IdsBelowCount(m, hi);
    var ds := ToDicts(m, ids);
    assert forall i :: 0 <= i < |ds| ==> ds[i].id == ids[i];
    assert forall k :: k in m ==> exists i :: 0 <= i < |ds| && ds[i].id == k by {
      forall k | k in m ensures exists i :: 0 <= i < |ds| && ds[i].id == k {
        assert k in ids;
        var i :| 0 <= i < |ids| && ids[i] == k;
        assert ds[i].id == k;
      }
    }
    ds
  }

  /**
   * filter_by(username=...).first() over the keys lo <= k < hi: the
   * lowest-keyed user row with this user name, if any.
   */
  function FirstWithName(users: map<nat, User>, username: string, lo: nat, hi: nat): (r: Option<nat>)
    ensures r.Some? ==> r.value in users && users[r.value].username == username && lo <= r.value < hi
    ensures r.Some? ==> forall k :: lo <= k < r.value && k in users ==> users[k].username != username
    ensures r.None? ==> forall k :: lo <= k < hi && k in users ==> users[k].username != username
    decreases hi - lo
  {
    if hi <= lo then None
    else if lo in users && users[lo].username == username then Some(lo)
    else FirstWithName(users, username, lo + 1, hi)
  }
}
