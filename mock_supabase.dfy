/** The offline stand-in for the hosted backend (ai-notebook/lib/mock-supabase.ts):
    a sign-in state machine (MockSupabaseAuth) and an owner-scoped in-memory table
    store (MockSupabaseTable over the client's shared TableData). Clock readings,
    random id parts and ISO timestamps are parameters; localStorage is an object. */
module MockSupabase {
  import opened Wrappers
  import opened Text
  import Seqs

  // ---------------------------------------------------------------------------
  // Constants and messages

  const SessionLifetimeSeconds: int := 3600
  const SessionLifetimeMillis: int := 3600 * 1000

  const UserExistsMessage: string := "用户已存在"
  const InvalidCredentialsMessage: string := "邮箱或密码错误"
  const NotSignedInMessage: string := "用户未登录"

  // ---------------------------------------------------------------------------
  // Data model

  /** A simulated account; `userMetadata` holds display_name / avatar_url and any merged keys. */
  datatype MockUser = MockUser(id: string, email: string, userMetadata: map<string, string>, createdAt: string)

  datatype MockSession = MockSession(
    accessToken: string,
    refreshToken: string,
    expiresIn: int,
    expiresAt: int,
    user: MockUser)

  /** An entry of the `users` map: the account and its plain-text password. */
  datatype UserRecord = UserRecord(user: MockUser, password: string)

  datatype AuthResponse = AuthResponse(user: Option<MockUser>, session: Option<MockSession>, error: Option<string>)

  datatype AuthEvent = SignedIn | SignedOut

  /** A listener is known by its handle; calling it is recorded as a Notice. */
  type Listener = nat

  datatype Notice = Notice(listener: Listener, event: AuthEvent, session: Option<MockSession>)

  /** What localStorage holds under the key 'mock_supabase_session':
      nothing; a text restoreSession cannot read (not JSON, the text "null", whose
      `expires_at` throws, or the empty text, which is skipped); a text that parses to some
      other value whose `expires_at` is not a time after now (such as "{}"); or a saved session. */
  datatype Stored = Absent | Unparsable | ParsedOther | Saved(session: MockSession)

  /** `'mock_' + Math.random().toString(36).substr(2, 9)`, with the random part passed in. */
  function GenerateId(randomPart: string): (id: string)
    ensures |id| >= 5 && id[..5] == "mock_" && id[5..] == randomPart
  {
    "mock_" + randomPart
  }

  function MapGet(m: map<string, string>, k: string): Option<string> {
    if k in m then Some(m[k]) else None
  }

  /** createSession(user) at time `now`: a one-hour session for `user`. */
  function CreateSession(user: MockUser, now: int, accessPart: string, refreshPart: string): (s: MockSession)
    ensures s.expiresIn == 3600 && s.expiresAt == now + 3600000 && s.user == user
    ensures s.accessToken == "mock_access_token_" + GenerateId(accessPart)
    ensures s.refreshToken == "mock_refresh_token_" + GenerateId(refreshPart)
  {
    MockSession("mock_access_token_" + GenerateId(accessPart), "mock_refresh_token_" + GenerateId(refreshPart),
                SessionLifetimeSeconds, now + SessionLifetimeMillis, user)
  }

  /** The account signUp creates: display_name defaults to the text before '@',
      avatar_url is copied only when the caller supplied one. */
  function NewUser(email: string, data: map<string, string>, idPart: string, createdAt: string): (u: MockUser)
    ensures u.id == GenerateId(idPart) && u.id != "" && u.email == email && u.createdAt == createdAt
    ensures u.userMetadata.Keys == {"display_name"} + (if "avatar_url" in data then {"avatar_url"} else {})
    ensures Truthy(MapGet(data, "display_name")) ==> u.userMetadata["display_name"] == data["display_name"]
    ensures !Truthy(MapGet(data, "display_name")) ==> u.userMetadata["display_name"] == UpToFirst(email, '@')
    ensures "avatar_url" in data ==> u.userMetadata["avatar_url"] == data["avatar_url"]
  {
    var md := map["display_name" := OrElse(MapGet(data, "display_name"), UpToFirst(email, '@'))];
    var md' := if "avatar_url" in data then md["avatar_url" := data["avatar_url"]] else md;
    MockUser(GenerateId(idPart), email, md', createdAt)
  }

  /** `listeners.forEach(l => l(event, session))`: one notice per listener, in registration order. */
  function Broadcast(ls: seq<Listener>, event: AuthEvent, session: Option<MockSession>): (r: seq<Notice>)
    ensures |r| == |ls|
    ensures forall i :: 0 <= i < |ls| ==> r[i] == Notice(ls[i], event, session)
  {
    if ls == [] then [] else Broadcast(ls[..|ls| - 1], event, session) + [Notice(ls[|ls| - 1], event, session)]
  }

  /** restoreSession against the stored value at time `now`: the session adopted (if any)
      and what localStorage holds afterwards. */
  function RestoreOutcome(item: Stored, now: int): (r: (Option<MockSession>, Stored))
    ensures r.0.Some? <==> item.Saved? && item.session.expiresAt > now
    ensures r.0.Some? ==> r.0.value == item.session
    ensures r.1 == if item.ParsedOther? || (item.Saved? && item.session.expiresAt <= now) then Absent else item
  {
    match item
    case Saved(s) => if s.expiresAt > now then (Some(s), item) else (None, Absent)
    case ParsedOther => (None, Absent)
    case _ => (None, item)
  }

  /** A saved session is adopted again exactly while less than an hour has passed since it was made. */
  lemma SavedSessionLastsOneHour(user: MockUser, created: int, now: int, a: string, b: string)
    ensures var s := CreateSession(user, created, a, b);
            RestoreOutcome(Saved(s), now).0 == (if now < created + 3600000 then Some(s) else None)
  {
  }

  // ---------------------------------------------------------------------------
  // localStorage

  class LocalStorage {
    var item: Stored

    constructor (initial: Stored)
      ensures item == initial
    {
      item := initial;
    }
  }

  // ---------------------------------------------------------------------------
  // The sign-in state machine

  class MockSupabaseAuth {
    var currentUser: Option<MockUser>
    var currentSession: Option<MockSession>
    var users: map<string, UserRecord>
    var listeners: seq<Listener>
    /** Every listener call so far, oldest first. */
    var log: seq<Notice>
    const storage: LocalStorage

    /** The `users` map is keyed by each account's own email. */
    ghost predicate Valid()
      reads this
    {
      forall e :: e in users ==> users[e].user.email == e
    }

    /** The acting user's id as the table store reads it: `currentUser?.id || null`. */
    function CurrentUserId(): (r: Option<string>)
      reads this
      ensures r.Some? <==> currentUser.Some? && currentUser.value.id != ""
      ensures r.Some? ==> r.value == currentUser.value.id
    {
      if currentUser.Some? && currentUser.value.id != "" then Some(currentUser.value.id) else None
    }

    constructor (storage: LocalStorage, now: int)
      modifies storage
      ensures Valid() && this.storage == storage
      ensures users == map[] && listeners == [] && log == []
      ensures currentSession == RestoreOutcome(old(storage.item), now).0
      ensures currentUser == if currentSession.Some? then Some(currentSession.value.user) else None
      ensures storage.item == RestoreOutcome(old(storage.item), now).1
    {
      this.storage := storage;
      currentUser := None;
      currentSession := None;
      users := map[];
      listeners := [];
      log := [];
      new;
      RestoreSession(now);
    }

    /** restoreSession: adopt the stored session if it has not expired, else delete it; a
        parsed value that is no live session is deleted too. A value that cannot be read is
        left in place and nothing is adopted. */
    method RestoreSession(now: int)
      requires currentUser.None? && currentSession.None?
      modifies this`currentUser, this`currentSession, storage
      ensures currentSession == RestoreOutcome(old(storage.item), now).0
      ensures currentUser == if currentSession.Some? then Some(currentSession.value.user) else None
      ensures storage.item == RestoreOutcome(old(storage.item), now).1
    {
      match storage.item {
        case Saved(s) =>
          if s.expiresAt > now {
            currentSession := Some(s);
            currentUser := Some(s.user);
          } else {
            storage.item := Absent;
          }
        case ParsedOther =>
          storage.item := Absent;
        case _ =>
      }
    }

    /** saveSession: write the current session, or remove the key when there is none. */
    method SaveSession()
      modifies storage
      ensures storage.item == if currentSession.Some? then Saved(currentSession.value) else Absent
    {
      if currentSession.Some? {
        storage.item := Saved(currentSession.value);
      } else {
        storage.item := Absent;
      }
    }

    /** Calls every registered listener with (event, session), in registration order. */
    method Notify(event: AuthEvent, session: Option<MockSession>)
      modifies this`log
      ensures log == old(log) + Broadcast(listeners, event, session)
    {
      var i := 0;
      while i < |listeners|
        invariant 0 <= i <= |listeners|
        invariant log == old(log) + Broadcast(listeners[..i], event, session)
      {
        assert listeners[..i + 1][..i] == listeners[..i];
        log := log + [Notice(listeners[i], event, session)];
        i := i + 1;
      }
      assert listeners[..i] == listeners;
    }

    /** signUp(email, password, { data }). An email already registered is refused and
        nothing changes; otherwise the account is stored, signed in, saved and announced. */
    method SignUp(email: string, password: string, data: map<string, string>,
                  idPart: string, createdAt: string, now: int, accessPart: string, refreshPart: string)
      returns (r: AuthResponse)
      requires Valid()
      modifies this, storage
      ensures Valid() && listeners == old(listeners)
      ensures email in old(users) ==>
        && r == AuthResponse(None, None, Some(UserExistsMessage))
        && users == old(users) && currentUser == old(currentUser) && currentSession == old(currentSession)
        && storage.item == old(storage.item) && log == old(log)
      ensures email !in old(users) ==>
        var u := NewUser(email, data, idPart, createdAt);
        var s := CreateSession(u, now, accessPart, refreshPart);
        && users == old(users)[email := UserRecord(u, password)]
        && currentUser == Some(u) && currentSession == Some(s)
        && storage.item == Saved(s)
        && log == old(log) + Broadcast(listeners, SignedIn, Some(s))
        && r == AuthResponse(Some(u), Some(s), None)
    {
      if email in users {
        return AuthResponse(None, None, Some(UserExistsMessage));
      }
      var user := NewUser(email, data, idPart, createdAt);
      users := users[email := UserRecord(user, password)];
      var session := CreateSession(user, now, accessPart, refreshPart);
      currentUser := Some(user);
      currentSession := Some(session);
      SaveSession();
      Notify(SignedIn, Some(session));
      r := AuthResponse(Some(user), Some(session), None);
    }

    /** signInWithPassword. An unknown email and a wrong password give the same error and
        change nothing; success replaces the current session with a fresh one. */
    method SignInWithPassword(email: string, password: string, now: int, accessPart: string, refreshPart: string)
      returns (r: AuthResponse)
      requires Valid()
      modifies this, storage
      ensures Valid() && listeners == old(listeners) && users == old(users)
      ensures email !in old(users) || old(users)[email].password != password ==>
        && r == AuthResponse(None, None, Some(InvalidCredentialsMessage))
        && currentUser == old(currentUser) && currentSession == old(currentSession)
        && storage.item == old(storage.item) && log == old(log)
      ensures email in old(users) && old(users)[email].password == password ==>
        var u := old(users)[email].user;
        var s := CreateSession(u, now, accessPart, refreshPart);
        && currentUser == Some(u) && currentSession == Some(s)
        && storage.item == Saved(s)
        && log == old(log) + Broadcast(listeners, SignedIn, Some(s))
        && r == AuthResponse(Some(u), Some(s), None)
    {
      if email !in users || users[email].password != password {
        return AuthResponse(None, None, Some(InvalidCredentialsMessage));
      }
      var user := users[email].user;
      var session := CreateSession(user, now, accessPart, refreshPart);
      currentUser := Some(user);
      currentSession := Some(session);
      SaveSession();
      Notify(SignedIn, Some(session));
      r := AuthResponse(Some(user), Some(session), None);
    }

    /** signOut: always clears the state, removes the stored key and announces SIGNED_OUT,
        also when nobody was signed in. */
    method SignOut() returns (error: Option<string>)
      requires Valid()
      modifies this, storage
      ensures Valid() && listeners == old(listeners) && users == old(users)
      ensures currentUser == None && currentSession == None && storage.item == Absent
      ensures log == old(log) + Broadcast(listeners, SignedOut, None)
      ensures error == None
    {
      currentUser := None;
      currentSession := None;
      SaveSession();
      Notify(SignedOut, None);
      error := None;
    }

    method GetUser() returns (user: Option<MockUser>)
      ensures user == currentUser
    {
      user := currentUser;
    }

    method GetSession() returns (session: Option<MockSession>)
      ensures session == currentSession
    {
      session := currentSession;
    }

    /** onAuthStateChange(callback): registers the listener last and calls it once at once
        with the current state. */
    method OnAuthStateChange(callback: Listener)
      modifies this`listeners, this`log
      ensures listeners == old(listeners) + [callback]
      ensures log == old(log) + [if currentSession.Some? then Notice(callback, SignedIn, currentSession)
                                 else Notice(callback, SignedOut, None)]
    {
      listeners := listeners + [callback];
      if currentSession.Some? {
        log := log + [Notice(callback, SignedIn, currentSession)];
      } else {
        log := log + [Notice(callback, SignedOut, None)];
      }
    }

    /** The returned subscription's unsubscribe(): removes the first registration of the
        callback and keeps the others in order. */
    method Unsubscribe(callback: Listener)
      modifies this`listeners
      ensures listeners == Seqs.RemoveFirst(old(listeners), callback)
      ensures Seqs.IsSubseq(listeners, old(listeners))
      ensures callback !in old(listeners) ==> listeners == old(listeners)
    {
      Seqs.RemoveFirstIsSubseq(listeners, callback);
      listeners := Seqs.RemoveFirst(listeners, callback);
    }

    /** resetPasswordForEmail: a simulated success for every address. */
    method ResetPasswordForEmail(email: string) returns (error: Option<string>)
      ensures error == None
    {
      error := None;
    }

    /** updateUser({ data }). Signed out: an error and no change. Signed in: `data` is merged
        into user_metadata (id and email kept) and written to the users entry, if there is
        one, and to the session, which is saved again. No listener is called. */
    method UpdateUser(data: map<string, string>) returns (r: AuthResponse)
      requires Valid()
      modifies this, storage
      ensures Valid() && listeners == old(listeners) && log == old(log)
      ensures old(currentUser).None? ==>
        && r == AuthResponse(None, None, Some(NotSignedInMessage))
        && users == old(users) && currentUser == old(currentUser) && currentSession == old(currentSession)
        && storage.item == old(storage.item)
      ensures old(currentUser).Some? ==>
        var u := old(currentUser).value;
        var u' := u.(userMetadata := u.userMetadata + data);
        && currentUser == Some(u')
        && u'.id == u.id && u'.email == u.email
        && users == (if u.email in old(users) then old(users)[u.email := old(users)[u.email].(user := u')] else old(users))
        && currentSession == (if old(currentSession).Some? then Some(old(currentSession).value.(user := u')) else None)
        && storage.item == (if old(currentSession).Some? then Saved(currentSession.value) else old(storage.item))
        && r == AuthResponse(currentUser, currentSession, None)
    {
      if currentUser.None? {
        return AuthResponse(None, None, Some(NotSignedInMessage));
      }
      var u := currentUser.value;
      var updated := u.(userMetadata := u.userMetadata + data);
      currentUser := Some(updated);
      if updated.email in users {
        users := users[updated.email := users[updated.email].(user := updated)];
      }
      if currentSession.Some? {
        currentSession := Some(currentSession.value.(user := updated));
        SaveSession();
      }
      r := AuthResponse(currentUser, currentSession, None);
    }
  }

  // ---------------------------------------------------------------------------
  // Rows and the owner-scoped filters

  datatype Value = Str(s: string) | Num(n: int) | Bool(b: bool) | Null

  /** A record: column name to value. */
  type Row = map<string, Value>

  function Lookup(row: Row, column: string): Option<Value> {
    if column in row then Some(row[column]) else None
  }

  /** `item.user_id === userId` */
  predicate OwnedBy(row: Row, uid: string) {
    "user_id" in row && row["user_id"] == Str(uid)
  }

  /** `item[column] === value` */
  predicate FieldEquals(row: Row, column: string, value: Value) {
    column in row && row[column] == value
  }

  /** The rows `select()` returns for `uid`. */
  function OwnedRows(rows: seq<Row>, uid: string): (r: seq<Row>)
    ensures forall row :: row in r <==> row in rows && OwnedBy(row, uid)
    ensures Seqs.IsSubseq(r, rows)
  {
    Seqs.FilterIsSubseq(row => OwnedBy(row, uid), rows);
    Seqs.Filter(row => OwnedBy(row, uid), rows)
  }

  /** The rows `eq(column, value).select()` returns for `uid`. */
  function MatchingRows(rows: seq<Row>, uid: string, column: string, value: Value): (r: seq<Row>)
    ensures forall row :: row in r <==> row in rows && OwnedBy(row, uid) && FieldEquals(row, column, value)
    ensures Seqs.IsSubseq(r, rows)
  {
    Seqs.FilterIsSubseq(row => OwnedBy(row, uid) && FieldEquals(row, column, value), rows);
    Seqs.Filter(row => OwnedBy(row, uid) && FieldEquals(row, column, value), rows)
  }

  /** The table after `eq(column, value).delete()` by `uid`. */
  function RowsAfterDelete(rows: seq<Row>, uid: string, column: string, value: Value): (r: seq<Row>)
    ensures forall row :: row in r <==> row in rows && !(OwnedBy(row, uid) && FieldEquals(row, column, value))
    ensures Seqs.IsSubseq(r, rows)
  {
    Seqs.FilterIsSubseq(row => !(OwnedBy(row, uid) && FieldEquals(row, column, value)), rows);
    Seqs.Filter(row => !(OwnedBy(row, uid) && FieldEquals(row, column, value)), rows)
  }

  /** The record `insert(fields)` stores: the caller's fields, then id, user_id and both
      timestamps assigned by the store (which win over the caller's). */
  function NewRow(fields: Row, idPart: string, uid: string, nowIso: string): (row: Row)
    ensures row.Keys == fields.Keys + {"id", "user_id", "created_at", "updated_at"}
    ensures row["id"] == Str(GenerateId(idPart)) && OwnedBy(row, uid)
    ensures row["created_at"] == Str(nowIso) && row["updated_at"] == Str(nowIso)
    ensures forall k :: k in fields && k !in {"id", "user_id", "created_at", "updated_at"} ==> row[k] == fields[k]
  {
    fields + map["id" := Str(GenerateId(idPart)), "user_id" := Str(uid),
                 "created_at" := Str(nowIso), "updated_at" := Str(nowIso)]
  }

  /** Whether `update(updates)` by `uid` rewrites `row`: the owner matches and so does the
      id (an absent id on both sides counts as equal, as undefined === undefined does). */
  predicate UpdateTargets(row: Row, uid: string, updates: Row) {
    OwnedBy(row, uid) && Lookup(row, "id") == Lookup(updates, "id")
  }

  /** `{ ...item, ...updates, updated_at }`: the caller's values win over the stored ones,
      including user_id and created_at. */
  function MergeRow(row: Row, updates: Row, nowIso: string): (r: Row)
    ensures r.Keys == row.Keys + updates.Keys + {"updated_at"}
    ensures r["updated_at"] == Str(nowIso)
    ensures forall k :: k in updates && k != "updated_at" ==> r[k] == updates[k]
    ensures forall k :: k in row && k !in updates && k != "updated_at" ==> r[k] == row[k]
  {
    row + updates + map["updated_at" := Str(nowIso)]
  }

  /** The table after `update(updates)` by `uid`. */
  function RowsAfterUpdate(rows: seq<Row>, uid: string, updates: Row, nowIso: string): (r: seq<Row>)
    ensures |r| == |rows|
    ensures forall i :: 0 <= i < |rows| ==>
      r[i] == if UpdateTargets(rows[i], uid, updates) then MergeRow(rows[i], updates, nowIso) else rows[i]
  {
    if rows == [] then []
    else [if UpdateTargets(rows[0], uid, updates) then MergeRow(rows[0], updates, nowIso) else rows[0]]
         + RowsAfterUpdate(rows[1..], uid, updates, nowIso)
  }

  /** `find(item => item.id === updates.id)`: the first row with the same id, whoever owns it. */
  function FindById(rows: seq<Row>, id: Option<Value>): (r: Option<Row>)
    ensures r.Some? ==> r.value in rows && Lookup(r.value, "id") == id
    ensures r.None? ==> forall row :: row in rows ==> Lookup(row, "id") != id
  {
    if rows == [] then None
    else if Lookup(rows[0], "id") == id then Some(rows[0])
    else FindById(rows[1..], id)
  }

  /** The first row with the given id that `uid` owns. */
  function FindOwnedById(rows: seq<Row>, uid: string, id: Option<Value>): (r: Option<Row>)
    ensures r.Some? ==> r.value in rows && Lookup(r.value, "id") == id && OwnedBy(r.value, uid)
    ensures r.None? ==> forall row :: row in rows && OwnedBy(row, uid) ==> Lookup(row, "id") != id
  {
    if rows == [] then None
    else if OwnedBy(rows[0], uid) && Lookup(rows[0], "id") == id then Some(rows[0])
    else FindOwnedById(rows[1..], uid, id)
  }

  /** What `update` returns as written: the row found by id alone, whoever owns it. */
  function UpdateResult(rows: seq<Row>, uid: string, updates: Row, nowIso: string): (r: seq<Row>)
    ensures |r| <= 1
    ensures forall row :: row in r ==>
              row in RowsAfterUpdate(rows, uid, updates, nowIso) && Lookup(row, "id") == Lookup(updates, "id")
    ensures r == [] <==> forall row :: row in RowsAfterUpdate(rows, uid, updates, nowIso) ==>
              Lookup(row, "id") != Lookup(updates, "id")
  {
    var found := FindById(RowsAfterUpdate(rows, uid, updates, nowIso), Lookup(updates, "id"));
    if found.Some? then [found.value] else []
  }

  /** What `update` evidently means to return: the caller's own updated row, if any. */
  function OwnedUpdateResult(rows: seq<Row>, uid: string, updates: Row, nowIso: string): (r: seq<Row>)
    ensures forall row :: row in r ==> OwnedBy(row, uid) || ("user_id" in updates && Lookup(row, "id") == Lookup(updates, "id"))
  {
    var after := RowsAfterUpdate(rows, uid, updates, nowIso);
    var found := FindOwnedById(after, uid, Lookup(updates, "id"));
    if found.Some? then [found.value] else []
  }

  // ---------------------------------------------------------------------------
  // Properties of the table operations

  /** Ownership isolation: whatever filter a user chooses, none of another user's rows is returned. */
  lemma SelectsOnlyOwnRows(rows: seq<Row>, uid: string, column: string, value: Value, row: Row)
    requires row in rows && !OwnedBy(row, uid)
    ensures row !in OwnedRows(rows, uid) && row !in MatchingRows(rows, uid, column, value)
  {
  }

  /** A row inserted by one user is invisible to every other user. */
  lemma InsertedRowInvisibleToOthers(rows: seq<Row>, fields: Row, idPart: string, owner: string, other: string, nowIso: string)
    requires owner != other
    ensures var r := NewRow(fields, idPart, owner, nowIso);
            r in OwnedRows(rows + [r], owner) && r !in OwnedRows(rows + [r], other)
  {
  }

  /** Deleting removes every matching row of the caller and leaves other users' rows alone. */
  lemma {:induction false} DeleteLeavesOthersRows(rows: seq<Row>, uid: string, other: string, column: string, value: Value)
    requires uid != other
    ensures MatchingRows(RowsAfterDelete(rows, uid, column, value), uid, column, value) == []
    ensures OwnedRows(RowsAfterDelete(rows, uid, column, value), other) == OwnedRows(rows, other)
  {
    Seqs.FilterOfFilter(row => OwnedBy(row, other), row => !(OwnedBy(row, uid) && FieldEquals(row, column, value)), rows);
  }

  /** Deleting twice with the same filter ends where deleting once does. */
  lemma DeleteIdempotent(rows: seq<Row>, uid: string, column: string, value: Value)
    ensures RowsAfterDelete(RowsAfterDelete(rows, uid, column, value), uid, column, value)
         == RowsAfterDelete(rows, uid, column, value)
  {
    var once := RowsAfterDelete(rows, uid, column, value);
    Seqs.FilterKeepsAll(row => !(OwnedBy(row, uid) && FieldEquals(row, column, value)), once);
  }

  /** An update that targets no row of the caller changes nothing. */
  lemma {:induction false} UpdateMissChangesNothing(rows: seq<Row>, uid: string, updates: Row, nowIso: string)
    requires forall i :: 0 <= i < |rows| ==> !UpdateTargets(rows[i], uid, updates)
    ensures RowsAfterUpdate(rows, uid, updates, nowIso) == rows
  {
  }

  /** When the caller does not send user_id, an update never touches another user's rows. */
  lemma UpdateKeepsOthersRows(rows: seq<Row>, uid: string, other: string, updates: Row, nowIso: string, i: int)
    requires uid != other && "user_id" !in updates && 0 <= i < |rows|
    ensures OwnedBy(RowsAfterUpdate(rows, uid, updates, nowIso)[i], other) <==> OwnedBy(rows[i], other)
    ensures OwnedBy(rows[i], other) ==> RowsAfterUpdate(rows, uid, updates, nowIso)[i] == rows[i]
  {
  }

  /** As written, `update` returns another user's row when that row has the id the caller sent. */
  lemma UpdateReturnsForeignRow()
    ensures var alice := map["id" := Str("mock_a"), "user_id" := Str("alice"), "title" := Str("A")];
            var updates := map["id" := Str("mock_a"), "title" := Str("B")];
            UpdateResult([alice], "bob", updates, "t") == [alice] && !OwnedBy(alice, "bob")
  {
    var alice := map["id" := Str("mock_a"), "user_id" := Str("alice"), "title" := Str("A")];
    var updates := map["id" := Str("mock_a"), "title" := Str("B")];
    assert !UpdateTargets(alice, "bob", updates);
    assert RowsAfterUpdate([alice], "bob", updates, "t") == [alice];
  }

  /** The owner-scoped result never shows another user's row unless the caller itself
      reassigned user_id in the update. */
  lemma OwnedUpdateResultIsolated(rows: seq<Row>, uid: string, updates: Row, nowIso: string)
    requires "user_id" !in updates
    ensures forall row :: row in OwnedUpdateResult(rows, uid, updates, nowIso) ==> OwnedBy(row, uid)
  {
  }

  // ---------------------------------------------------------------------------
  // The client and its tables

  const TableNames: seq<string> := ["notes", "projects", "project_tasks", "todo_lists", "daily_reports", "weekly_reports"]

  /** The client's `data` Map, shared by every table handle it gives out. */
  class TableData {
    var tables: map<string, seq<Row>>

    /** The six tables created up front; 'todo_items' only appears on its first write. */
    constructor ()
      ensures tables.Keys == set t | t in TableNames
      ensures forall t :: t in tables ==> tables[t] == []
      ensures "todo_items" !in tables
    {
      tables := map["notes" := [], "projects" := [], "project_tasks" := [], "todo_lists" := [],
                    "daily_reports" := [], "weekly_reports" := []];
    }
  }

  class MockSupabaseClient {
    const auth: MockSupabaseAuth
    const data: TableData

    constructor (storage: LocalStorage, now: int)
      modifies storage
      ensures fresh(auth) && fresh(data)
      ensures auth.Valid() && auth.storage == storage
      ensures auth.users == map[] && auth.listeners == [] && auth.log == []
      ensures auth.currentSession == RestoreOutcome(old(storage.item), now).0
      ensures auth.currentUser == if auth.currentSession.Some? then Some(auth.currentSession.value.user) else None
      ensures storage.item == RestoreOutcome(old(storage.item), now).1
      ensures data.tables.Keys == set t | t in TableNames
      ensures forall t :: t in data.tables ==> data.tables[t] == []
    {
      auth := new MockSupabaseAuth(storage, now);
      data := new TableData();
    }

    /** from(table) */
    method From(table: string) returns (t: MockSupabaseTable)
      ensures fresh(t) && t.table == table && t.data == data && t.auth == auth
    {
      t := new MockSupabaseTable(table, data, auth);
    }
  }

  datatype QueryResult = QueryResult(rows: seq<Row>, error: Option<string>)

  /** A handle on one table. Every operation reads the acting user afresh from `auth`. */
  class MockSupabaseTable {
    const table: string
    const data: TableData
    const auth: MockSupabaseAuth

    constructor (table: string, data: TableData, auth: MockSupabaseAuth)
      ensures this.table == table && this.data == data && this.auth == auth
    {
      this.table := table;
      this.data := data;
      this.auth := auth;
    }

    /** getTableData(): a table never written reads as empty. */
    function Rows(): seq<Row>
      reads data
    {
      if table in data.tables then data.tables[table] else []
    }

    /** select(): exactly the caller's rows, in table order. */
    method Select() returns (r: QueryResult)
      ensures auth.CurrentUserId().None? ==> r == QueryResult([], Some(NotSignedInMessage))
      ensures auth.CurrentUserId().Some? ==> r.error == None && r.rows == OwnedRows(Rows(), auth.CurrentUserId().value)
    {
      var uid := auth.CurrentUserId();
      if uid.None? {
        return QueryResult([], Some(NotSignedInMessage));
      }
      r := QueryResult(OwnedRows(Rows(), uid.value), None);
    }

    /** eq(column, value).select(): the caller's rows whose column equals value. */
    method EqSelect(column: string, value: Value) returns (r: QueryResult)
      ensures auth.CurrentUserId().None? ==> r == QueryResult([], Some(NotSignedInMessage))
      ensures auth.CurrentUserId().Some? ==>
        r.error == None && r.rows == MatchingRows(Rows(), auth.CurrentUserId().value, column, value)
    {
      var uid := auth.CurrentUserId();
      if uid.None? {
        return QueryResult([], Some(NotSignedInMessage));
      }
      r := QueryResult(MatchingRows(Rows(), uid.value, column, value), None);
    }

    /** eq(column, value).delete(): removes exactly the caller's matching rows. */
    method EqDelete(column: string, value: Value) returns (error: Option<string>)
      modifies data
      ensures auth.CurrentUserId().None? ==> error == Some(NotSignedInMessage) && data.tables == old(data.tables)
      ensures auth.CurrentUserId().Some? ==>
        && error == None
        && data.tables == old(data.tables)[table := RowsAfterDelete(old(Rows()), auth.CurrentUserId().value, column, value)]
    {
      var uid := auth.CurrentUserId();
      if uid.None? {
        return Some(NotSignedInMessage);
      }
      data.tables := data.tables[table := RowsAfterDelete(Rows(), uid.value, column, value)];
      error := None;
    }

    /** insert(fields): appends one row stamped with a new id, the caller as owner and `now`. */
    method Insert(fields: Row, idPart: string, nowIso: string) returns (r: QueryResult)
      modifies data
      ensures auth.CurrentUserId().None? ==> r == QueryResult([], Some(NotSignedInMessage)) && data.tables == old(data.tables)
      ensures auth.CurrentUserId().Some? ==>
        var row := NewRow(fields, idPart, auth.CurrentUserId().value, nowIso);
        && data.tables == old(data.tables)[table := old(Rows()) + [row]]
        && r == QueryResult([row], None)
    {
      var uid := auth.CurrentUserId();
      if uid.None? {
        return QueryResult([], Some(NotSignedInMessage));
      }
      var row := NewRow(fields, idPart, uid.value, nowIso);
      data.tables := data.tables[table := Rows() + [row]];
      r := QueryResult([row], None);
    }

    /** update(updates): rewrites the caller's rows with id updates.id; no match is no error.
        The returned row is the caller's own updated row (the corrected lookup: the source looks
        the row up by id alone, see UpdateReturnsForeignRow). */
    method Update(updates: Row, nowIso: string) returns (r: QueryResult)
      modifies data
      ensures auth.CurrentUserId().None? ==> r == QueryResult([], Some(NotSignedInMessage)) && data.tables == old(data.tables)
      ensures auth.CurrentUserId().Some? ==>
        var uid := auth.CurrentUserId().value;
        && data.tables == old(data.tables)[table := RowsAfterUpdate(old(Rows()), uid, updates, nowIso)]
        && r == QueryResult(OwnedUpdateResult(old(Rows()), uid, updates, nowIso), None)
        && ("user_id" !in updates ==> forall row :: row in r.rows ==> OwnedBy(row, uid))
    {
      var uid := auth.CurrentUserId();
      if uid.None? {
        return QueryResult([], Some(NotSignedInMessage));
      }
      var rows := Rows();
      data.tables := data.tables[table := RowsAfterUpdate(rows, uid.value, updates, nowIso)];
      r := QueryResult(OwnedUpdateResult(rows, uid.value, updates, nowIso), None);
      if "user_id" !in updates {
        OwnedUpdateResultIsolated(rows, uid.value, updates, nowIso);
      }
    }

    /** delete() without eq(): checks sign-in and does nothing else. */
    method Delete() returns (error: Option<string>)
      ensures error == if auth.CurrentUserId().None? then Some(NotSignedInMessage) else None
    {
      if auth.CurrentUserId().None? {
        return Some(NotSignedInMessage);
      }
      error := None;
    }
  }
}
