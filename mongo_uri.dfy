// The MongoDB connection helpers: the connection URI built from the
// environment and the configuration, the connect-retry loop and its retry
// rule, and the key document of an index.
module MongoUri {
  import opened Common
  import opened Strs

  /** The `mongo` section of the configuration. */
  datatype MongoConf = MongoConf(uri: string, address: seq<string>, database: string,
                                 username: string, password: string, maxPoolSize: int)

  /** The settings the URI is built from, once the environment has been
      consulted. */
  datatype Settings = Settings(username: string, password: string, address: string, database: string,
                               maxPoolSize: string)

  /** A set environment variable wins over the configured value. */
  function Override(envValue: string, confValue: string): string
  {
    if envValue != "" then envValue else confValue
  }

  /** The host part: the configured addresses joined with ",", or the address
      from the environment, with the port from the environment if set. */
  function Address(env: string -> string, conf: MongoConf): string
  {
    var address := env("MONGO_ADDRESS");
    var port := env("MONGO_PORT");
    if address == "" then Join(conf.address, ",")
    else if port != "" then address + ":" + port
    else address
  }

  /** Each environment variable overrides its configuration field. */
  function Effective(env: string -> string, conf: MongoConf): Settings
  {
    Settings(Override(env("MONGO_OPENIM_USERNAME"), conf.username),
             Override(env("MONGO_OPENIM_PASSWORD"), conf.password),
             Address(env, conf),
             Override(env("MONGO_DATABASE"), conf.database),
             Override(env("MONGO_MAX_POOL_SIZE"), IntToString(conf.maxPoolSize)))
  }

  /** The user-info part of the URI, present only with both a user name and a
      password. */
  function UserInfo(s: Settings): string
  {
    if s.username != "" && s.password != "" then s.username + ":" + s.password + "@" else ""
  }

  /** `buildMongoURI`; `env` gives each environment variable ("" when unset). */
  function BuildMongoUri(env: string -> string, conf: MongoConf): string
  {
    if env("MONGO_URI") != "" then env("MONGO_URI")
    else if conf.uri != "" then conf.uri
    else
      Render(Effective(env, conf))
  }

  /** The URI built from settings. */
  function Render(s: Settings): string
  {
    "mongodb://" + UserInfo(s) + s.address + "/" + s.database + "?maxPoolSize=" + s.maxPoolSize
  }

  /** A URI given whole wins: the environment's first, then the configured
      one; otherwise the URI is built and has the `mongodb` scheme. */
  lemma MongoUriPrecedence(env: string -> string, conf: MongoConf)
    ensures env("MONGO_URI") != "" ==> BuildMongoUri(env, conf) == env("MONGO_URI")
    ensures env("MONGO_URI") == "" && conf.uri != "" ==> BuildMongoUri(env, conf) == conf.uri
    ensures env("MONGO_URI") == "" && conf.uri == "" ==> HasPrefix(BuildMongoUri(env, conf), "mongodb://")
  {
    if env("MONGO_URI") == "" && conf.uri == "" {
      var s := Effective(env, conf);
      var r := Render(s);
      assert r == "mongodb://" + (UserInfo(s) + s.address + "/" + s.database + "?maxPoolSize=" + s.maxPoolSize);
      assert r[..10] == "mongodb://";
    }
  }

  /** No separator of the URI syntax in a setting. */
  predicate Plain(x: string)
  {
    '/' !in x && '@' !in x && '?' !in x
  }

  /** A built URI reads back into the settings it was built from: after the
      scheme, "/" separates the hosts from the database, "@" is there exactly
      when both a user name and a password are set and then separates them
      from the hosts, and "?" separates the database from the pool size. */
  lemma MongoUriReadsBack(env: string -> string, conf: MongoConf)
    requires env("MONGO_URI") == "" && conf.uri == ""
    requires var s := Effective(env, conf);
      Plain(s.username) && Plain(s.password) && Plain(s.address) && Plain(s.database) && Plain(s.maxPoolSize)
    ensures var s := Effective(env, conf);
      var r := BuildMongoUri(env, conf);
      |r| >= 10 &&
      var parts := Split(r[10..], '/');
      |parts| == 2 &&
      Split(parts[0], '@') == (if s.username != "" && s.password != "" then [s.username + ":" + s.password, s.address]
                               else [s.address]) &&
      Split(parts[1], '?') == [s.database, "maxPoolSize=" + s.maxPoolSize]
  {
    var s := Effective(env, conf);
    assert BuildMongoUri(env, conf) == Render(s);
    RenderReadsBack(s);
    HostsReadBack(s);
    TailReadsBack(s);
  }

  lemma RenderReadsBack(s: Settings)
    requires Plain(s.username) && Plain(s.password) && Plain(s.address) && Plain(s.database) && Plain(s.maxPoolSize)
    ensures '/' !in UserInfo(s) + s.address && '/' !in s.database + "?maxPoolSize=" + s.maxPoolSize
    ensures var r := Render(s);
      |r| >= 10 &&
      var parts := Split(r[10..], '/');
      |parts| == 2 && parts[0] == UserInfo(s) + s.address &&
      parts[1] == s.database + "?maxPoolSize=" + s.maxPoolSize
  {
    var hosts := UserInfo(s) + s.address;
    var tail := s.database + "?maxPoolSize=" + s.maxPoolSize;
    assert '/' !in hosts;
    assert '/' !in tail;
    var r := Render(s);
    assert r == "mongodb://" + (hosts + ['/'] + tail);
    assert r[10..] == hosts + ['/'] + tail;
    SplitAtSep(hosts, '/', tail);
    SplitNoSep(tail, '/');
  }

  /** The hosts part splits at "@" into the user info and the addresses. */
  lemma HostsReadBack(s: Settings)
    requires Plain(s.username) && Plain(s.password) && Plain(s.address)
    ensures '/' !in UserInfo(s) + s.address
    ensures Split(UserInfo(s) + s.address, '@') ==
      (if s.username != "" && s.password != "" then [s.username + ":" + s.password, s.address] else [s.address])
  {
    SplitNoSep(s.address, '@');
    if s.username != "" && s.password != "" {
      var cred := s.username + ":" + s.password;
      assert '@' !in cred;
      assert UserInfo(s) + s.address == cred + ['@'] + s.address;
      SplitAtSep(cred, '@', s.address);
      assert [cred] + [s.address] == [cred, s.address];
    } else {
      assert UserInfo(s) + s.address == s.address;
    }
  }

  /** The tail splits at "?" into the database and the pool size option. */
  lemma TailReadsBack(s: Settings)
    requires Plain(s.database) && Plain(s.maxPoolSize)
    ensures '/' !in s.database + "?maxPoolSize=" + s.maxPoolSize
    ensures Split(s.database + "?maxPoolSize=" + s.maxPoolSize, '?') == [s.database, "maxPoolSize=" + s.maxPoolSize]
  {
    assert s.database + "?maxPoolSize=" + s.maxPoolSize == s.database + ['?'] + ("maxPoolSize=" + s.maxPoolSize);
    SplitAtSep(s.database, '?', "maxPoolSize=" + s.maxPoolSize);
    SplitNoSep("maxPoolSize=" + s.maxPoolSize, '?');
  }

  /** Without an environment address the configured addresses are joined with
      ","; an environment address takes the environment port after ":". */
  lemma AddressReadsBack(env: string -> string, conf: MongoConf)
    ensures (env("MONGO_ADDRESS") == "" && |conf.address| >= 1 &&
               (forall i :: 0 <= i < |conf.address| ==> ',' !in conf.address[i])) ==>
      Split(Address(env, conf), ',') == conf.address
    ensures env("MONGO_ADDRESS") != "" && env("MONGO_PORT") != "" ==>
      HasPrefix(Address(env, conf), env("MONGO_ADDRESS") + ":") &&
      TrimPrefix(Address(env, conf), env("MONGO_ADDRESS") + ":") == env("MONGO_PORT")
    ensures env("MONGO_ADDRESS") != "" && env("MONGO_PORT") == "" ==> Address(env, conf) == env("MONGO_ADDRESS")
  {
    if env("MONGO_ADDRESS") == "" && |conf.address| >= 1 &&
      (forall i :: 0 <= i < |conf.address| ==> ',' !in conf.address[i]) {
      SplitJoin(conf.address, ',');
    }
    if env("MONGO_ADDRESS") != "" && env("MONGO_PORT") != "" {
      var a := Address(env, conf);
      var p := env("MONGO_ADDRESS") + ":";
      assert a == p + env("MONGO_PORT");
      assert a[..|p|] == p;
    }
  }

  /** A failed connect: a server command error with its code, or any other
      error. */
  datatype ConnectError = CommandError(code: int) | OtherError

  const MAX_RETRY: nat := 10

  /** `shouldRetry`: only the authorisation failures (codes 13 and 18) are
      not worth retrying. */
  function ShouldRetry(err: ConnectError): bool
  {
    if err.CommandError? then err.code != 13 && err.code != 18 else true
  }

  /** The outcome of one connection attempt: refused, or connected and then
      pinged. */
  datatype Attempt = Refused(err: ConnectError) | Connected(pingOk: bool)

  /** The connect loop from try `i` on: `attempt(i)` is the outcome of the
      `i`-th try. The result is the try that connected, and the number of tries
      made. With `stopOnFatal` a refusal `shouldRetry` rejects ends the loop. */
  function Dial(attempt: nat -> Attempt, i: nat, stopOnFatal: bool): (Result<nat>, nat)
    decreases MAX_RETRY + 1 - i
  {
    if i > MAX_RETRY then (Err(StorageFailed), i)
    else
      match attempt(i)
      case Connected(pingOk) => (if pingOk then Ok(i) else Err(StorageFailed), i + 1)
      case Refused(err) =>
        if stopOnFatal && !ShouldRetry(err) then (Err(StorageFailed), i + 1)
        else Dial(attempt, i + 1, stopOnFatal)
  }

  /** `NewMongoDB`'s loop: up to `maxRetry + 1` tries; a connected client is
      pinged and returned, a failed ping ends the loop with the error; after a
      refusal the next try follows, whatever `shouldRetry` says (it decides
      only the pause before it). */
  method NewMongoDb(attempt: nat -> Attempt) returns (r: Result<nat>, tries: nat)
    ensures (r, tries) == Dial(attempt, 0, false)
  {
    for i := 0 to MAX_RETRY + 1
      invariant Dial(attempt, i, false) == Dial(attempt, 0, false)
    {
      match attempt(i)
      case Connected(pingOk) =>
        if pingOk {
          return Ok(i), i + 1;
        }
        return Err(StorageFailed), i + 1;
      case Refused(err) =>
    }
    r, tries := Err(StorageFailed), MAX_RETRY + 1;
  }

  /** The loop makes at most `maxRetry + 1` tries; it succeeds exactly with
      the first try that connects, when that try's ping succeeds, and every
      try before it was refused. */
  lemma {:induction false} DialSpec(attempt: nat -> Attempt, i: nat, stopOnFatal: bool)
    requires i <= MAX_RETRY + 1
    ensures var (r, tries) := Dial(attempt, i, stopOnFatal);
      i <= tries <= MAX_RETRY + 1 &&
      (forall k :: i <= k < tries - 1 ==> attempt(k).Refused?) &&
      (r.Ok? <==> tries > i && attempt(tries - 1) == Connected(true)) &&
      (r.Ok? ==> r.value == tries - 1)
    decreases MAX_RETRY + 1 - i
  {
    if i <= MAX_RETRY && attempt(i).Refused? && !(stopOnFatal && !ShouldRetry(attempt(i).err)) {
      DialSpec(attempt, i + 1, stopOnFatal);
    }
  }

  /** Every try refused for lack of authorisation. */
  function AuthFails(i: nat): Attempt
  {
    Refused(CommandError(18))
  }

  /** As written, a connection refused for lack of authorisation is tried
      `maxRetry + 1` times. */
  lemma AuthFailureRetried()
    ensures Dial(AuthFails, 0, false) == (Err(StorageFailed), MAX_RETRY + 1)
  {
    DialSpec(AuthFails, 0, false);
    assert AuthFails(MAX_RETRY) == Refused(CommandError(18));
  }

  /** Stopping at a refusal `shouldRetry` rejects: a refusal for lack of
      authorisation ends the loop at once, and the loop then never tries past
      such a refusal. */
  lemma {:induction false} DialIntendedStops(attempt: nat -> Attempt, i: nat)
    requires i <= MAX_RETRY + 1
    ensures Dial(AuthFails, 0, true) == (Err(StorageFailed), 1)
    ensures var tries := Dial(attempt, i, true).1;
      forall k :: i <= k < tries - 1 ==> attempt(k).Refused? && ShouldRetry(attempt(k).err)
    decreases MAX_RETRY + 1 - i
  {
    if i <= MAX_RETRY && attempt(i).Refused? && ShouldRetry(attempt(i).err) {
      DialIntendedStops(attempt, i + 1);
    }
  }

  /** One entry of an index's key document. */
  datatype IndexKey = IndexKey(key: string, direction: int)

  /** A key named with leading "-" is descending, under its name without
      them; any other is ascending. */
  function KeyEntry(key: string): IndexKey
  {
    if HasPrefix(key, "-") then IndexKey(TrimLeftChar(key, '-'), -1) else IndexKey(key, 1)
  }

  /** `buildIndexKeys`: one entry per key, in order. */
  method BuildIndexKeys(keys: seq<string>) returns (doc: seq<IndexKey>)
    ensures |doc| == |keys|
    ensures forall i :: 0 <= i < |keys| ==> doc[i] == KeyEntry(keys[i])
  {
    doc := [];
    for i := 0 to |keys|
      invariant |doc| == i
      invariant forall j :: 0 <= j < i ==> doc[j] == KeyEntry(keys[j])
    {
      var key := keys[i];
      var direction := 1;
      if HasPrefix(key, "-") {
        direction := -1;
        key := TrimLeftChar(key, '-');
      }
      doc := doc + [IndexKey(key, direction)];
    }
  }

  /** The key name an entry is written as. */
  function KeyName(e: IndexKey): string
  {
    if e.direction == -1 then "-" + e.key else e.key
  }

  /** The direction is -1 exactly for a "-" name, and 1 otherwise; the stored
      name starts with no "-" when descending, and is the name past all its
      leading "-"; a name with at most one leading "-" reads back. */
  lemma KeyEntrySpec(key: string)
    ensures var e := KeyEntry(key);
      (e.direction == -1 <==> HasPrefix(key, "-")) && (e.direction == 1 <==> !HasPrefix(key, "-")) &&
      (e.direction == -1 ==>
        ((|e.key| == 0 || e.key[0] != '-') && |e.key| < |key| && key[|key| - |e.key|..] == e.key &&
         forall i :: 0 <= i < |key| - |e.key| ==> key[i] == '-')) &&
      (!HasPrefix(key, "--") ==> KeyName(e) == key)
  {
    var e := KeyEntry(key);
    if HasPrefix(key, "-") && !HasPrefix(key, "--") {
      assert key == "-" + key[1..];
      assert |key| == 1 || key[1] != '-';
      assert TrimLeftChar(key[1..], '-') == key[1..];
    }
  }
}
