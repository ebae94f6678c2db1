/**
 * The durable snapshot (`save_user_data` / `load_user_data`): the record
 * transforms between the in-memory registry and the JSON object written to
 * the data file, without the file and JSON handling.
 */
module Snapshot {
  import opened Wrappers
  import opened Digits
  import opened Clock
  import opened Users

  /** One saved user: the JSON value `{email, encrypted_password, last_login}`. */
  datatype PersistedRecord = PersistedRecord(
    email: string,
    encryptedPassword: string,
    lastLogin: Option<string>)

  /** One member of the saved JSON object, in file order: key text and value. */
  type Entry = (string, PersistedRecord)

  /** What a record becomes when saved: session and name are not written. */
  function Persist(u: UserRecord): (p: PersistedRecord)
    requires ValidRecord(u)
  {
    PersistedRecord(u.email, u.encryptedPassword,
      match u.lastLogin
      case Some(dt) => Some(IsoFormat(dt))
      case None => None)
  }

  /**
   * `last_login` on loading: a missing or empty value is None, a valid
   * timestamp is parsed, anything else is logged and becomes None.
   */
  function LoadLastLogin(v: Option<string>): (r: Option<DateTime>)
    ensures r.Some? ==> Valid(r.value)
  {
    match v
    case None => None
    case Some(s) => if s == "" then None else FromIsoFormat(s)
  }

  /** What a saved record becomes when loaded: no session and no name yet. */
  function Restore(p: PersistedRecord): (u: UserRecord)
    ensures ValidRecord(u)
  {
    UserRecord(p.email, None, p.encryptedPassword, None, LoadLastLogin(p.lastLogin))
  }

  /**
   * The registry built from the saved members in file order; each key is
   * read with `int(...)`, so a key that is not an integer aborts the whole
   * load (None), and a later member with the same id wins.
   */
  function LoadFn(entries: seq<Entry>): (r: Option<map<UserId, UserRecord>>)
    ensures r.Some? ==> ValidUsers(r.value)
  {
    if entries == [] then Some(map[])
    else
      var last := entries[|entries| - 1];
      var prev := LoadFn(entries[..|entries| - 1]);
      var id := ParseInt(last.0);
      if prev.Some? && id.Some? then Some(prev.value[id.value := Restore(last.1)]) else None
  }

  /** A record as it comes back after a save and a load: same login data, no session, no name. */
  function Reloaded(u: UserRecord): UserRecord {
    u.(fio := None, session := None)
  }

  /** The users in `ids` as they come back after a save and a load. */
  function ReloadedAll(users: map<UserId, UserRecord>, ids: set<UserId>): map<UserId, UserRecord>
    requires ids <= users.Keys
  {
    map id | id in ids :: Reloaded(users[id])
  }

  /** A saved record loads back as itself without session and name. */
  lemma RestorePersist(u: UserRecord)
    requires ValidRecord(u)
    ensures Restore(Persist(u)) == Reloaded(u)
  {
    if u.lastLogin.Some? {
      IsoRoundTrip(u.lastLogin.value);
    }
  }

  /** The ids occurring in `ids`. */
  function IdSet(ids: seq<UserId>): set<UserId> {
    if ids == [] then {} else IdSet(ids[..|ids| - 1]) + {ids[|ids| - 1]}
  }

  /** The saved members listed in the order given by `ids`. */
  function Listing(users: map<UserId, UserRecord>, ids: seq<UserId>): (es: seq<Entry>)
    requires ValidUsers(users) && IdSet(ids) <= users.Keys
    ensures |es| == |ids|
  {
    if ids == [] then []
    else
      var n := |ids| - 1;
      Listing(users, ids[..n]) + [(IntText(ids[n]), Persist(users[ids[n]]))]
  }

  /** Users listed once each are saved under pairwise distinct keys, the text of each id. */
  lemma {:induction false} ListingKeys(users: map<UserId, UserRecord>, ids: seq<UserId>)
    requires ValidUsers(users) && IdSet(ids) <= users.Keys
    ensures var es := Listing(users, ids);
      forall k :: 0 <= k < |es| ==> ids[k] in users && es[k] == (IntText(ids[k]), Persist(users[ids[k]]))
  {
    if ids != [] {
      var n := |ids| - 1;
      ListingKeys(users, ids[..n]);
      IdSetMembers(ids);
    }
  }

  /** Loading one more member on top of a loaded registry. */
  lemma LoadSnoc(es: seq<Entry>, e: Entry)
    ensures LoadFn(es + [e]) ==
      if LoadFn(es).Some? && ParseInt(e.0).Some?
      then Some(LoadFn(es).value[ParseInt(e.0).value := Restore(e.1)])
      else None
  {
    assert (es + [e])[..|es|] == es;
  }

  /** Reloading one more user. */
  lemma ReloadedAllSnoc(users: map<UserId, UserRecord>, ids: set<UserId>, id: UserId)
    requires ids <= users.Keys && id in users
    ensures ReloadedAll(users, ids)[id := Reloaded(users[id])] == ReloadedAll(users, ids + {id})
  {
  }

  lemma {:induction false} LoadListing(users: map<UserId, UserRecord>, ids: seq<UserId>)
    requires ValidUsers(users) && IdSet(ids) <= users.Keys
    ensures LoadFn(Listing(users, ids)) == Some(ReloadedAll(users, IdSet(ids)))
  {
    if ids != [] {
      var n := |ids| - 1;
      var id := ids[n];
      var prefix := ids[..n];
      var e := (IntText(id), Persist(users[id]));
      assert Listing(users, ids) == Listing(users, prefix) + [e];
      LoadListing(users, prefix);
      LoadSnoc(Listing(users, prefix), e);
      IntTextRoundTrip(id);
      RestorePersist(users[id]);
      ReloadedAllSnoc(users, IdSet(prefix), id);
    }
  }

  /**
   * Save then load, in whatever order the saved members are read back,
   * gives every user again with email, ciphertext and last login as they
   * were, and with no session and no display name.
   */
  lemma SaveLoadRoundTrip(users: map<UserId, UserRecord>, ids: seq<UserId>)
    requires ValidUsers(users) && IdSet(ids) == users.Keys
    ensures LoadFn(Listing(users, ids)) == Some(map id | id in users :: Reloaded(users[id]))
  {
    LoadListing(users, ids);
  }

  /** The member at `k` has key `id`, and no later member has. */
  ghost predicate LastWithId(entries: seq<Entry>, id: UserId, k: int) {
    && 0 <= k < |entries| && ParseInt(entries[k].0) == Some(id)
    && forall j :: k < j < |entries| ==> ParseInt(entries[j].0) != Some(id)
  }

  /** `r` is the record of the last member of `entries` whose key reads as `id`. */
  ghost predicate FromLastMember(entries: seq<Entry>, id: UserId, r: UserRecord) {
    exists k :: LastWithId(entries, id, k) && r == Restore(entries[k].1)
  }

  /** Appending a member with another id keeps the last member with `id` where it was. */
  lemma LastWithIdSnoc(entries: seq<Entry>, id: UserId, k: int)
    requires entries != [] && ParseInt(entries[|entries| - 1].0) != Some(id)
    requires LastWithId(entries[..|entries| - 1], id, k)
    ensures LastWithId(entries, id, k)
  {
    var n := |entries| - 1;
    assert entries[k] == entries[..n][k];
    forall j | k < j < |entries|
      ensures ParseInt(entries[j].0) != Some(id)
    {
      if j < n {
        assert entries[j] == entries[..n][j];
      }
    }
  }

  /** A member with another id appended after the last one with `id` keeps it the last. */
  lemma LastMemberSnoc(entries: seq<Entry>, id: UserId, r: UserRecord)
    requires entries != [] && ParseInt(entries[|entries| - 1].0) != Some(id)
    requires FromLastMember(entries[..|entries| - 1], id, r)
    ensures FromLastMember(entries, id, r)
  {
    var prefix := entries[..|entries| - 1];
    var k :| LastWithId(prefix, id, k) && r == Restore(prefix[k].1);
    LastWithIdSnoc(entries, id, k);
    assert prefix[k] == entries[k];
  }

  /**
   * Every loaded record has no session and no display name, and its email,
   * ciphertext and last login are those of the last saved member with its
   * id: a later member with the same id overwrites an earlier one.
   */
  lemma {:induction false} LoadedRecords(entries: seq<Entry>)
    requires LoadFn(entries).Some?
    ensures forall id :: id in LoadFn(entries).value ==>
      && LoadFn(entries).value[id].session.None?
      && LoadFn(entries).value[id].fio.None?
      && FromLastMember(entries, id, LoadFn(entries).value[id])
  {
    if entries != [] {
      var n := |entries| - 1;
      LoadedRecords(entries[..n]);
      var m := LoadFn(entries).value;
      forall id | id in m
        ensures FromLastMember(entries, id, m[id])
      {
        if ParseInt(entries[n].0) == Some(id) {
          assert m[id] == Restore(entries[n].1);
          assert LastWithId(entries, id, n);
        } else {
          LastMemberSnoc(entries, id, m[id]);
        }
      }
    }
  }

  /**
   * The saving loop (main.py:28-45): each user in turn is written under
   * the text of their id; `order` is the order the registry yields them in.
   * Whatever that order, the file reloads to the registry without sessions
   * and names.
   */
  method SaveUserData(users: map<UserId, UserRecord>) returns (saved: seq<Entry>, ghost order: seq<UserId>)
    requires ValidUsers(users)
    ensures IdSet(order) == users.Keys
    ensures forall j, k :: 0 <= j < k < |order| ==> order[j] != order[k]
    ensures saved == Listing(users, order)
    ensures LoadFn(saved) == Some(map id | id in users :: Reloaded(users[id]))
  {
    saved, order := [], [];
    var todo := users.Keys;
    while exists id :: id in todo
      invariant IdSet(order) + todo == users.Keys && IdSet(order) !! todo
      invariant forall j, k :: 0 <= j < k < |order| ==> order[j] != order[k]
      invariant saved == Listing(users, order)
      decreases todo
    {
      var id :| id in todo;
      IdSetMembers(order);
      assert (order + [id])[..|order|] == order;
      saved := saved + [(IntText(id), Persist(users[id]))];
      order := order + [id];
      todo := todo - {id};
    }
    SaveLoadRoundTrip(users, order);
  }

  lemma {:induction false} IdSetMembers(ids: seq<UserId>)
    ensures forall k :: 0 <= k < |ids| ==> ids[k] in IdSet(ids)
  {
    if ids != [] {
      IdSetMembers(ids[..|ids| - 1]);
    }
  }

  /**
   * The loading loop (main.py:50-83): members are read in file order;
   * None when a key is not an integer (the ValueError that stops startup).
   */
  method LoadUserData(entries: seq<Entry>) returns (loaded: Option<map<UserId, UserRecord>>)
    ensures loaded == LoadFn(entries)
  {
    var m: map<UserId, UserRecord> := map[];
    var i := 0;
    while i < |entries|
      invariant 0 <= i <= |entries|
      invariant LoadFn(entries[..i]) == Some(m)
    {
      ghost var prefix := entries[..i + 1];
      assert prefix[..i] == entries[..i] && prefix[i] == entries[i];
      var id := ParseInt(entries[i].0);
      if id.None? {
        assert LoadFn(prefix).None?;
        LoadFailurePersists(entries, i + 1);
        return None;
      }
      var p := entries[i].1;
      var lastLogin: Option<DateTime> := None;
      if p.lastLogin.Some? && p.lastLogin.value != "" {
        lastLogin := FromIsoFormat(p.lastLogin.value);
      }
      assert UserRecord(p.email, None, p.encryptedPassword, None, lastLogin) == Restore(p);
      m := m[id.value := UserRecord(p.email, None, p.encryptedPassword, None, lastLogin)];
      assert LoadFn(prefix) == Some(m);
      i := i + 1;
    }
    assert entries[..i] == entries;
    loaded := Some(m);
  }

  /** Once a key fails to parse, the whole load fails. */
  lemma {:induction false} LoadFailurePersists(entries: seq<Entry>, i: nat)
    requires i <= |entries| && LoadFn(entries[..i]).None?
    ensures LoadFn(entries).None?
    decreases |entries| - i
  {
    if i < |entries| {
      assert entries[..i + 1][..i] == entries[..i];
      LoadFailurePersists(entries, i + 1);
    } else {
      assert entries[..i] == entries;
    }
  }
}
