/**
 The settings shared by every server configuration of the client: timeouts,
 retry policy, failure threshold, database index and credentials.

 The Java class is a mutable builder whose setters return `this`; here a
 configuration is an immutable record and every setter returns the updated
 record, which is what a chained call `c.setA(x).setB(y)` observes.
 */
module BaseConfig {
  import opened Options

  /** Java's `int`: every numeric setting is stored in 32 bits. */
  newtype int32 = x: int | -0x8000_0000 <= x < 0x8000_0000

  datatype Config = Config(
    idleConnectionTimeout: int32,
    pingTimeout: int32,
    connectTimeout: int32,
    timeout: int32,
    retryAttempts: int32,
    retryInterval: int32,
    reconnectionTimeout: int32,
    failedAttempts: int32,
    closeConnectionAfterFailAttempts: int32,  // deprecated
    database: int32,
    password: Option<string>,                 // None is Java's null
    subscriptionsPerConnection: int32,
    clientName: Option<string>)               // None is Java's null

  /** The names of the thirteen settings. */
  datatype Field =
    | IdleConnectionTimeout
    | PingTimeout
    | ConnectTimeout
    | Timeout
    | RetryAttempts
    | RetryInterval
    | ReconnectionTimeout
    | FailedAttempts
    | CloseConnectionAfterFailAttempts
    | Database
    | Password
    | SubscriptionsPerConnection
    | ClientName

  /** What a getter returns: a number or a nullable string. */
  datatype Value = Int(n: int32) | Str(s: Option<string>)

  /** The getter of setting `f`, read through one uniform view. */
  function Get(c: Config, f: Field): Value {
    match f
    case IdleConnectionTimeout => Int(c.idleConnectionTimeout)
    case PingTimeout => Int(c.pingTimeout)
    case ConnectTimeout => Int(c.connectTimeout)
    case Timeout => Int(c.timeout)
    case RetryAttempts => Int(c.retryAttempts)
    case RetryInterval => Int(c.retryInterval)
    case ReconnectionTimeout => Int(c.reconnectionTimeout)
    case FailedAttempts => Int(c.failedAttempts)
    case CloseConnectionAfterFailAttempts => Int(c.closeConnectionAfterFailAttempts)
    case Database => Int(c.database)
    case Password => Str(c.password)
    case SubscriptionsPerConnection => Int(c.subscriptionsPerConnection)
    case ClientName => Str(c.clientName)
  }

  /** Every setting other than `f` reads the same in `c` and `r`. */
  predicate OthersUnchanged(c: Config, r: Config, f: Field) {
    forall g: Field :: g != f ==> Get(r, g) == Get(c, g)
  }

  /** Two configurations agree on every getter. */
  predicate SameSettings(c: Config, d: Config) {
    forall f: Field :: Get(c, f) == Get(d, f)
  }

  /** The no-argument constructor: every field at its initialiser. */
  function NewConfig(): Config {
    Config(
      idleConnectionTimeout := 10000,
      pingTimeout := 1000,
      connectTimeout := 1000,
      timeout := 1000,
      retryAttempts := 3,
      retryInterval := 1000,
      reconnectionTimeout := 3000,
      failedAttempts := 3,
      closeConnectionAfterFailAttempts := -1,
      database := 0,
      password := None,
      subscriptionsPerConnection := 5,
      clientName := None)
  }

  /** The documented defaults, as the getters of a fresh configuration report them. */
  lemma NewConfigDefaults()
    ensures Get(NewConfig(), IdleConnectionTimeout) == Int(10000)
    ensures Get(NewConfig(), PingTimeout) == Int(1000)
    ensures Get(NewConfig(), ConnectTimeout) == Int(1000)
    ensures Get(NewConfig(), Timeout) == Int(1000)
    ensures Get(NewConfig(), RetryAttempts) == Int(3)
    ensures Get(NewConfig(), RetryInterval) == Int(1000)
    ensures Get(NewConfig(), ReconnectionTimeout) == Int(3000)
    ensures Get(NewConfig(), FailedAttempts) == Int(3)
    ensures Get(NewConfig(), CloseConnectionAfterFailAttempts) == Int(-1)
    ensures Get(NewConfig(), Database) == Int(0)
    ensures Get(NewConfig(), SubscriptionsPerConnection) == Int(5)
    ensures Get(NewConfig(), Password) == Str(None)
    ensures Get(NewConfig(), ClientName) == Str(None)
  {
  }

  // Setters: each stores its argument unchecked and touches nothing else.

  function SetSubscriptionsPerConnection(c: Config, subscriptionsPerConnection: int32): (r: Config)
    ensures Get(r, SubscriptionsPerConnection) == Int(subscriptionsPerConnection)
    ensures OthersUnchanged(c, r, SubscriptionsPerConnection)
  {
    c.(subscriptionsPerConnection := subscriptionsPerConnection)
  }

  function SetPassword(c: Config, password: Option<string>): (r: Config)
    ensures Get(r, Password) == Str(password)
    ensures OthersUnchanged(c, r, Password)
  {
    c.(password := password)
  }

  function SetRetryAttempts(c: Config, retryAttempts: int32): (r: Config)
    ensures Get(r, RetryAttempts) == Int(retryAttempts)
    ensures OthersUnchanged(c, r, RetryAttempts)
  {
    c.(retryAttempts := retryAttempts)
  }

  function SetRetryInterval(c: Config, retryInterval: int32): (r: Config)
    ensures Get(r, RetryInterval) == Int(retryInterval)
    ensures OthersUnchanged(c, r, RetryInterval)
  {
    c.(retryInterval := retryInterval)
  }

  function SetDatabase(c: Config, database: int32): (r: Config)
    ensures Get(r, Database) == Int(database)
    ensures OthersUnchanged(c, r, Database)
  {
    c.(database := database)
  }

  function SetTimeout(c: Config, timeout: int32): (r: Config)
    ensures Get(r, Timeout) == Int(timeout)
    ensures OthersUnchanged(c, r, Timeout)
  {
    c.(timeout := timeout)
  }

  function SetClientName(c: Config, clientName: Option<string>): (r: Config)
    ensures Get(r, ClientName) == Str(clientName)
    ensures OthersUnchanged(c, r, ClientName)
  {
    c.(clientName := clientName)
  }

  function SetPingTimeout(c: Config, pingTimeout: int32): (r: Config)
    ensures Get(r, PingTimeout) == Int(pingTimeout)
    ensures OthersUnchanged(c, r, PingTimeout)
  {
    c.(pingTimeout := pingTimeout)
  }

  /** Deprecated: writes the field `closeConnectionAfterFailAttempts`. */
  function SetRefreshConnectionAfterFails(c: Config, failAttemptsAmount: int32): (r: Config)
    ensures Get(r, CloseConnectionAfterFailAttempts) == Int(failAttemptsAmount)
    ensures OthersUnchanged(c, r, CloseConnectionAfterFailAttempts)
  {
    c.(closeConnectionAfterFailAttempts := failAttemptsAmount)
  }

  /** Deprecated: reads the field `closeConnectionAfterFailAttempts`. */
  function GetRefreshConnectionAfterFails(c: Config): (n: int32)
    ensures Get(c, CloseConnectionAfterFailAttempts) == Int(n)
  {
    c.closeConnectionAfterFailAttempts
  }

  function SetConnectTimeout(c: Config, connectTimeout: int32): (r: Config)
    ensures Get(r, ConnectTimeout) == Int(connectTimeout)
    ensures OthersUnchanged(c, r, ConnectTimeout)
  {
    c.(connectTimeout := connectTimeout)
  }

  function SetIdleConnectionTimeout(c: Config, idleConnectionTimeout: int32): (r: Config)
    ensures Get(r, IdleConnectionTimeout) == Int(idleConnectionTimeout)
    ensures OthersUnchanged(c, r, IdleConnectionTimeout)
  {
    c.(idleConnectionTimeout := idleConnectionTimeout)
  }

  function SetReconnectionTimeout(c: Config, slaveRetryTimeout: int32): (r: Config)
    ensures Get(r, ReconnectionTimeout) == Int(slaveRetryTimeout)
    ensures OthersUnchanged(c, r, ReconnectionTimeout)
  {
    c.(reconnectionTimeout := slaveRetryTimeout)
  }

  function SetFailedAttempts(c: Config, slaveFailedAttempts: int32): (r: Config)
    ensures Get(r, FailedAttempts) == Int(slaveFailedAttempts)
    ensures OthersUnchanged(c, r, FailedAttempts)
  {
    c.(failedAttempts := slaveFailedAttempts)
  }

  /**
   The copy constructor: a fresh configuration (all defaults) on which the
   thirteen setters are applied, in the order the Java copy constructor
   uses, with the getters of `config`.
   */
  function CopyOf(config: Config): (r: Config)
    ensures SameSettings(r, config)
    ensures r == config
  {
    var c0 := NewConfig();
    var c1 := SetPassword(c0, config.password);
    var c2 := SetSubscriptionsPerConnection(c1, config.subscriptionsPerConnection);
    var c3 := SetRetryAttempts(c2, config.retryAttempts);
    var c4 := SetRetryInterval(c3, config.retryInterval);
    var c5 := SetDatabase(c4, config.database);
    var c6 := SetTimeout(c5, config.timeout);
    var c7 := SetClientName(c6, config.clientName);
    var c8 := SetPingTimeout(c7, config.pingTimeout);
    var c9 := SetRefreshConnectionAfterFails(c8, GetRefreshConnectionAfterFails(config));
    var c10 := SetConnectTimeout(c9, config.connectTimeout);
    var c11 := SetIdleConnectionTimeout(c10, config.idleConnectionTimeout);
    var c12 := SetFailedAttempts(c11, config.failedAttempts);
    SetReconnectionTimeout(c12, config.reconnectionTimeout)
  }

  /** The deprecated getter reads back what the deprecated setter wrote, whatever the config held. */
  lemma RefreshConnectionAfterFailsRoundTrip(c: Config, failAttemptsAmount: int32)
    ensures GetRefreshConnectionAfterFails(SetRefreshConnectionAfterFails(c, failAttemptsAmount)) == failAttemptsAmount
  {
  }

  /**
   Setters do not validate: a negative timeout or retry count is stored as
   given and read back unchanged.
   */
  lemma SettersDoNotClamp(c: Config, n: int32)
    requires n < 0
    ensures SetRetryAttempts(c, n).retryAttempts == n
    ensures SetIdleConnectionTimeout(c, n).idleConnectionTimeout == n
    ensures SetTimeout(c, n).timeout == n
  {
  }

  /** A chained call `setA(x).setB(y)` on two different settings keeps both values. */
  lemma ChainedSettersKeepEarlierValue(c: Config, retryAttempts: int32, retryInterval: int32)
    ensures SetRetryInterval(SetRetryAttempts(c, retryAttempts), retryInterval).retryAttempts == retryAttempts
    ensures SetRetryInterval(SetRetryAttempts(c, retryAttempts), retryInterval).retryInterval == retryInterval
  {
  }
}
