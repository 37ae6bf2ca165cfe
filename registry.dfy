/**
 * Start-up: the broker definitions found in the environment become the
 * adapter registry, keyed by broker name, that the HTTP handlers consult.
 * What each backend's connection attempts answer is a parameter: the
 * ActiveMQ and RabbitMQ dial outcomes per definition, and whether the SQS
 * constructor produced an adapter.
 */
module Registry {
  import opened Wrappers
  import opened GoStrings
  import opened BrokerTypes
  import opened Assignments
  import EnvConfig
  import ActiveMQConsole
  import RabbitMQ

  /** A registered adapter: its backend and the definition it was built from. */
  datatype Registered =
    | AmqEntry(config: BrokerConfiguration, useTls: bool)
    | RabbitEntry(config: BrokerConfiguration)
    | SqsEntry(config: BrokerConfiguration)
    | MockEntry

  /** How the connection attempts of each definition turn out. */
  datatype Connections = Connections(
    amqDial: BrokerConfiguration -> ((string, bool) -> GoError),
    rabbitDial: BrokerConfiguration -> (string -> GoError),
    sqsBuilds: BrokerConfiguration -> bool)

  /** The ActiveMQ adapter uses TLS exactly when its URL mentions the "amqps:" scheme. */
  function UseTls(url: string): (r: bool)
    ensures r <==> exists i :: OccursAt(url, "amqps:", i)
  {
    ContainsIff(url, "amqps:");
    Contains(url, "amqps:")
  }

  /** Some comma-separated ActiveMQ URL of the definition dials. */
  predicate AmqConnects(c: BrokerConfiguration, conn: Connections)
  {
    var urls := Split(c.url, ',');
    exists j :: 0 <= j < |urls| && conn.amqDial(c)(urls[j], UseTls(c.url)).None?
  }

  /** The adapter a definition registers, if any. */
  function EntryFor(c: BrokerConfiguration, conn: Connections): (r: Option<Registered>)
    ensures r.Some? <==> ((c.kind == "amq" && AmqConnects(c, conn)) || c.kind == "rabbitmq" ||
      (c.kind == "sqs" && conn.sqsBuilds(c)))
    ensures r.Some? ==> r.value != MockEntry && r.value.config == c
    ensures r.Some? && r.value.AmqEntry? ==> r.value.useTls == UseTls(c.url)
  {
    if c.kind == "amq" then (if AmqConnects(c, conn) then Some(AmqEntry(c, UseTls(c.url))) else None)
    else if c.kind == "rabbitmq" then Some(RabbitEntry(c))
    else if c.kind == "sqs" then (if conn.sqsBuilds(c) then Some(SqsEntry(c)) else None)
    else None
  }

  function Registration(c: BrokerConfiguration, conn: Connections): Option<(string, Registered)>
  {
    var e := EntryFor(c, conn);
    if e.Some? then Some((c.name, e.value)) else None
  }

  function Registrations(configs: seq<BrokerConfiguration>, conn: Connections): (ops: seq<Option<(string, Registered)>>)
    ensures |ops| == |configs| && forall j :: 0 <= j < |configs| ==> ops[j] == Registration(configs[j], conn)
  {
    seq(|configs|, j requires 0 <= j < |configs| => Registration(configs[j], conn))
  }

  /** The registry built from the first `n` definitions. */
  function Built(configs: seq<BrokerConfiguration>, conn: Connections, n: nat): map<string, Registered>
    requires n <= |configs|
  {
    Written(Registrations(configs, conn), n)
  }

  /** `buildAdapters`: each definition in order, by its type. */
  method BuildAdapters(configs: seq<BrokerConfiguration>, conn: Connections) returns (adapters: map<string, Registered>)
    ensures adapters == Built(configs, conn, |configs|)
  {
    adapters := map[];
    for j := 0 to |configs|
      invariant adapters == Built(configs, conn, j)
    {
      var c := configs[j];
      ghost var ops := Registrations(configs, conn);
      assert Built(configs, conn, j + 1) == if ops[j].Some? then adapters[c.name := ops[j].value.1] else adapters;
      if c.kind == "amq" {
        var useTls := Contains(c.url, "amqps:");
        var amq, _ := ActiveMQConsole.NewActiveMQAdapter(c.url, Lookup(c.all, "CONSOLE_URL"), Lookup(c.all, "CONSOLE_USER"),
          Lookup(c.all, "CONSOLE_PASS"), useTls, conn.amqDial(c));
        if amq.Some? {
          adapters := adapters[c.name := AmqEntry(c, useTls)];
        }
      } else if c.kind == "rabbitmq" {
        var rabbit, err := RabbitMQ.NewRabbitMQAdapter(c.url, Lookup(c.all, "CONSOLE_URL"), c.user, c.pass,
          Lookup(c.all, "HOST"), conn.rabbitDial(c));
        if err.None? {
          adapters := adapters[c.name := RabbitEntry(c)];
        }
      } else if c.kind == "sqs" {
        if conn.sqsBuilds(c) {
          adapters := adapters[c.name := SqsEntry(c)];
        }
      }
    }
  }

  /**
   * A name is registered exactly when some definition with that name
   * registers an adapter, and the adapter is that of the last one.
   */
  lemma BuiltLastWins(configs: seq<BrokerConfiguration>, conn: Connections, name: string)
    ensures name in Built(configs, conn, |configs|) <==>
      exists j :: 0 <= j < |configs| && configs[j].name == name && EntryFor(configs[j], conn).Some?
    ensures name in Built(configs, conn, |configs|) ==> exists j :: (0 <= j < |configs| && configs[j].name == name &&
      EntryFor(configs[j], conn) == Some(Built(configs, conn, |configs|)[name]) &&
      forall j' :: j < j' < |configs| ==> !(configs[j'].name == name && EntryFor(configs[j'], conn).Some?))
  {
    var ops := Registrations(configs, conn);
    assert forall j :: 0 <= j < |configs| ==> (Writes(ops, j, name) <==>
      configs[j].name == name && EntryFor(configs[j], conn).Some?);
    WrittenKey(ops, |configs|, name);
    if name in Built(configs, conn, |configs|) {
      WrittenLast(ops, |configs|, name);
    }
  }

  /**
   * The RabbitMQ constructor never reports an error, so every RabbitMQ
   * definition registers its name, whatever its dial does; a definition of
   * an unsupported type never does.
   */
  lemma RabbitAlwaysRegisters(configs: seq<BrokerConfiguration>, conn: Connections, j: nat)
    requires j < |configs|
    ensures configs[j].kind == "rabbitmq" ==> configs[j].name in Built(configs, conn, |configs|)
    ensures configs[j].kind !in {"amq", "rabbitmq", "sqs"} ==> EntryFor(configs[j], conn).None?
  {
    BuiltLastWins(configs, conn, configs[j].name);
  }

  /** The registry the service starts with: the environment's brokers, then "test" set to the mock adapter. */
  function StartupRegistry(env: seq<string>, conn: Connections): map<string, Registered>
    requires EnvConfig.WellFormed(env)
  {
    var configs := EnvConfig.Configs(env);
    Built(configs, conn, |configs|)["test" := MockEntry]
  }

  /** `main` up to serving: read the definitions, build the adapters, then register the mock under "test". */
  method Startup(env: seq<string>, conn: Connections) returns (adapters: map<string, Registered>)
    requires EnvConfig.WellFormed(env)
    ensures adapters == StartupRegistry(env, conn)
  {
    var configs := EnvConfig.GetAdapterConfigurations(env);
    adapters := BuildAdapters(configs, conn);
    adapters := adapters["test" := MockEntry];
  }

  /**
   * "test" is always the mock adapter, whatever the environment defines;
   * every other registered name comes from a definition, and only "test"
   * holds the mock.
   */
  lemma StartupFacts(env: seq<string>, conn: Connections)
    requires EnvConfig.WellFormed(env)
    ensures "test" in StartupRegistry(env, conn) && StartupRegistry(env, conn)["test"] == MockEntry
    ensures forall name :: name in StartupRegistry(env, conn) && name != "test" ==>
      StartupRegistry(env, conn)[name] != MockEntry &&
      StartupRegistry(env, conn)[name].config in EnvConfig.Configs(env) &&
      StartupRegistry(env, conn)[name].config.name == name
  {
    var configs := EnvConfig.Configs(env);
    forall name | name in StartupRegistry(env, conn) && name != "test"
      ensures StartupRegistry(env, conn)[name] != MockEntry &&
        StartupRegistry(env, conn)[name].config in configs && StartupRegistry(env, conn)[name].config.name == name
    {
      BuiltLastWins(configs, conn, name);
    }
  }
}
