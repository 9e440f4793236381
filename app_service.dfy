/**
 * AppService: credential check and the session store. Sessions live in a
 * lazily loaded in-memory map that mirrors the sessions file; every create
 * and delete rewrites the whole file from that map.
 *
 * File access, JSON and the clock are outside the model: the file is its
 * content (None when it does not exist), JSON.parse and JSON.stringify are
 * the functions `parseSessions` and `stringifySessions`, and the new session
 * id, the timestamp text and whether writeFileSync succeeds are parameters.
 */
module Service {
  import opened Wrappers
  import opened Js
  import opened PasswordUtils

  /** A session record, as stored in the sessions file under its id. */
  datatype Session = Session(username: string, ip: string, timestamp: string)

  /** What makes a session-store call throw. */
  datatype ServiceError =
    | DerivationFailed(cause: CryptoError)  // crypto.pbkdf2 rejected
    | UnparsableSessionsFile                // JSON.parse threw or gave no object
    | SessionsWriteFailed                   // writeFileSync threw

  /**
   * The sessions map read from the file: an absent or blank file gives the
   * empty map, anything else is parsed.
   */
  function LoadSessions(parse: string -> Option<map<string, Session>>, file: Option<string>)
    : (r: Result<map<string, Session>, ServiceError>)
    ensures file.None? || IsBlank(file.value) ==> r == Ok(map[])
    ensures file.Some? && !IsBlank(file.value) && parse(file.value).Some? ==> r == Ok(parse(file.value).value)
    ensures file.Some? && !IsBlank(file.value) && parse(file.value).None? ==> r == Err(UnparsableSessionsFile)
  {
    TrimEmptyIffBlank(if file.Some? then file.value else []);
    if file.Some? && Trim(file.value) != [] then
      match parse(file.value)
      case Some(sessions) => Ok(sessions)
      case None => Err(UnparsableSessionsFile)
    else
      Ok(map[])
  }

  /**
   * Restarting on a file written from `sessions` loads `sessions` again, given
   * that parsing undoes serialising and a serialised map is never blank.
   */
  lemma ReloadRestoresSessions(
    parse: string -> Option<map<string, Session>>, stringify: map<string, Session> -> string,
    sessions: map<string, Session>)
    requires parse(stringify(sessions)) == Some(sessions)
    requires exists i :: 0 <= i < |stringify(sessions)| && !IsTrimmable(stringify(sessions)[i])
    ensures LoadSessions(parse, Some(stringify(sessions))) == Ok(sessions)
  {
  }

  class AppService {
    /** The credential store: username to stored password, read once at start. */
    const secrets: map<string, PersistedPassword>
    /** crypto.pbkdf2. */
    const derive: Kdf
    /** JSON.parse applied to the sessions file. */
    const parseSessions: string -> Option<map<string, Session>>
    /** JSON.stringify applied to the sessions map. */
    const stringifySessions: map<string, Session> -> string

    /** The sessions file: its content, or None when it does not exist. */
    var sessionsFile: Option<string>
    /** cachedSessions: None until the file has been read and parsed. */
    var cachedSessions: Option<map<string, Session>>
    /** The map last written to the sessions file, None before the first write. */
    ghost var persisted: Option<map<string, Session>>
    /** How many times the sessions file has been read. */
    ghost var fileReads: nat

    ghost predicate Valid()
      reads this
    {
      persisted.Some? ==> cachedSessions.Some? && sessionsFile == Some(stringifySessions(persisted.value))
    }

    /** The sessions map as getSessions sees it: the cache, or else what loading the file gives. */
    ghost function Sessions(): Result<map<string, Session>, ServiceError>
      reads this
    {
      if cachedSessions.Some? then Ok(cachedSessions.value) else LoadSessions(parseSessions, sessionsFile)
    }

    constructor(
      secrets: map<string, PersistedPassword>, derive: Kdf,
      parseSessions: string -> Option<map<string, Session>>,
      stringifySessions: map<string, Session> -> string,
      sessionsFile: Option<string>)
      ensures Valid()
      ensures this.secrets == secrets && this.derive == derive
      ensures this.parseSessions == parseSessions && this.stringifySessions == stringifySessions
      ensures this.sessionsFile == sessionsFile
      ensures cachedSessions.None? && persisted.None? && fileReads == 0
    {
      this.secrets := secrets;
      this.derive := derive;
      this.parseSessions := parseSessions;
      this.stringifySessions := stringifySessions;
      this.sessionsFile := sessionsFile;
      cachedSessions := None;
      persisted := None;
      fileReads := 0;
    }

    /**
     * signIn: an unknown username is refused without deriving anything; for a
     * known one the answer is yes exactly when the stored hash encodes the key
     * derived from the password with the stored salt and iteration count.
     */
    function SignIn(username: string, password: string): (r: Result<bool, CryptoError>)
      ensures username !in secrets ==> r == Ok(false)
      ensures username in secrets ==>
        r == IsPasswordCorrect(derive, secrets[username].hash, secrets[username].salt, secrets[username].iterations, password)
      ensures r.Err? <==> (
        && username in secrets
        && derive(password, secrets[username].salt, secrets[username].iterations, PasswordLength).Err?)
      ensures r.Err? ==> (
        && username in secrets
        && var secret := secrets[username];
           derive(password, secret.salt, secret.iterations, PasswordLength) == Err(r.error))
      ensures r == Ok(true) <==> (
        && username in secrets
        && var secret := secrets[username];
           var key := derive(password, secret.salt, secret.iterations, PasswordLength);
           key.Ok? && Hex.HexDecode(secret.hash) == Some(key.value))
    {
      if username !in secrets then Ok(false)
      else
        var secret := secrets[username];
        IsPasswordCorrect(derive, secret.hash, secret.salt, secret.iterations, password)
    }

    /**
     * getSessions: reads and parses the file only while the cache is empty; once
     * loaded, the cache is returned and nothing is read again.
     */
    method GetSessions() returns (r: Result<map<string, Session>, ServiceError>)
      requires Valid()
      modifies this`cachedSessions, this`fileReads
      ensures Valid()
      ensures r == old(Sessions()) && Sessions() == old(Sessions())
      ensures r.Ok? ==> cachedSessions == Some(r.value)
      ensures old(cachedSessions).Some? ==> cachedSessions == old(cachedSessions) && fileReads == old(fileReads)
      ensures old(cachedSessions).None? ==> fileReads == old(fileReads) + 1
    {
      if cachedSessions.None? {
        var fileContent := sessionsFile;
        fileReads := fileReads + 1;
        TrimEmptyIffBlank(if fileContent.Some? then fileContent.value else []);
        if fileContent.Some? && Trim(fileContent.value) != [] {
          var parsed := parseSessions(fileContent.value);
          if parsed.None? {
            return Err(UnparsableSessionsFile);
          }
          cachedSessions := parsed;
        } else {
          cachedSessions := Some(map[]);
        }
      }
      r := Ok(cachedSessions.value);
    }

    /** JSON.stringify the sessions map and overwrite the file with it. */
    method WriteSessions(sessions: map<string, Session>, writeSucceeds: bool) returns (r: Result<(), ServiceError>)
      requires Valid() && cachedSessions == Some(sessions)
      modifies this`sessionsFile, this`persisted
      ensures Valid()
      ensures writeSucceeds ==> r.Ok? && persisted == Some(sessions) && sessionsFile == Some(stringifySessions(sessions))
      ensures !writeSucceeds ==> r == Err(SessionsWriteFailed) && unchanged(this)
    {
      if writeSucceeds {
        sessionsFile := Some(stringifySessions(sessions));
        persisted := Some(sessions);
        r := Ok(());
      } else {
        r := Err(SessionsWriteFailed);
      }
    }

    /**
     * createSession: adds {username, ip, timestamp} under the new id to the cache
     * and rewrites the file. The id comes from uuid() and is not checked against
     * existing ones. When the write fails the cache already holds the session.
     */
    method CreateSession(username: string, ip: string, sessionId: string, timestamp: string, writeSucceeds: bool)
      returns (r: Result<string, ServiceError>)
      requires Valid()
      modifies this
      ensures Valid()
      ensures old(Sessions()).Err? ==>
        r == Err(old(Sessions()).error) && unchanged(this`cachedSessions, this`sessionsFile, this`persisted)
      ensures old(Sessions()).Ok? ==>
        cachedSessions == Some(old(Sessions()).value[sessionId := Session(username, ip, timestamp)])
      ensures old(Sessions()).Ok? && writeSucceeds ==>
        r == Ok(sessionId) && persisted == cachedSessions && sessionsFile == Some(stringifySessions(cachedSessions.value))
      ensures old(Sessions()).Ok? && !writeSucceeds ==>
        r == Err(SessionsWriteFailed) && unchanged(this`sessionsFile, this`persisted)
    {
      var loaded := GetSessions();
      if loaded.Err? {
        return Err(loaded.error);
      }
      var sessions := loaded.value[sessionId := Session(username, ip, timestamp)];
      cachedSessions := Some(sessions);
      var written := WriteSessions(sessions, writeSucceeds);
      if written.Err? {
        return Err(written.error);
      }
      r := Ok(sessionId);
    }

    /** getSession: the cached record under the id, or None; only the lazy load changes anything. */
    method GetSession(sessionId: string) returns (r: Result<Option<Session>, ServiceError>)
      requires Valid()
      modifies this`cachedSessions, this`fileReads
      ensures Valid()
      ensures Sessions() == old(Sessions())
      ensures old(Sessions()).Err? ==> r == Err(old(Sessions()).error)
      ensures old(Sessions()).Ok? && sessionId in old(Sessions()).value ==> r == Ok(Some(old(Sessions()).value[sessionId]))
      ensures old(Sessions()).Ok? && sessionId !in old(Sessions()).value ==> r == Ok(None)
    {
      var loaded := GetSessions();
      if loaded.Err? {
        return Err(loaded.error);
      }
      r := Ok(if sessionId in loaded.value then Some(loaded.value[sessionId]) else None);
    }

    /**
     * deleteSession: removes the id from the cache, an absent id being no
     * error, and rewrites the file. When the write fails the cache has already
     * lost the session.
     */
    method DeleteSession(sessionId: string, writeSucceeds: bool) returns (r: Result<(), ServiceError>)
      requires Valid()
      modifies this
      ensures Valid()
      ensures old(Sessions()).Err? ==>
        r == Err(old(Sessions()).error) && unchanged(this`cachedSessions, this`sessionsFile, this`persisted)
      ensures old(Sessions()).Ok? ==> cachedSessions == Some(old(Sessions()).value - {sessionId})
      ensures old(Sessions()).Ok? && writeSucceeds ==>
        r.Ok? && persisted == cachedSessions && sessionsFile == Some(stringifySessions(cachedSessions.value))
      ensures old(Sessions()).Ok? && !writeSucceeds ==>
        r == Err(SessionsWriteFailed) && unchanged(this`sessionsFile, this`persisted)
    {
      var loaded := GetSessions();
      if loaded.Err? {
        return Err(loaded.error);
      }
      var sessions := loaded.value - {sessionId};
      cachedSessions := Some(sessions);
      r := WriteSessions(sessions, writeSucceeds);
    }
  }

  /** A record generated for a password, stored under a username, makes signIn accept that password. */
  lemma SignInAcceptsProvisionedPassword(service: AppService, username: string, password: string, randomSalt: seq<Hex.byte>)
    requires |randomSalt| == SaltLength
    requires GenerateHashPassword(service.derive, password, randomSalt).Ok?
    requires username in service.secrets
    requires service.secrets[username] == GenerateHashPassword(service.derive, password, randomSalt).value
    ensures service.SignIn(username, password) == Ok(true)
  {
    GeneratedPasswordVerifies(service.derive, password, randomSalt);
  }
}
