/** internal/edgex/endpoints.go with the constants of common.go and
    `ClientInfo.Endpoint` of config.go: the table from EdgeX client name to
    `host:port`, filled from the configuration at start-up, overwritten by the
    `save-endpoints` mutation, read back by the `endpoints` query, and used to
    build the base URL of every upstream request. */
module EdgexEndpoints {
  import opened Wrappers
  import opened FulcroValues
  import opened Seqs
  import Decimal

  const ClientData := "data"
  const ClientMetadata := "metadata"
  const ClientLogging := "logging"
  const ClientCommand := "command"
  const ClientExport := "export"
  const ClientNotifications := "notifications"
  const ClientScheduler := "scheduler"

  const APIv1Prefix := "/api/v1"
  const Colon := ":"
  const HttpScheme := "http://"

  /** The table keys, in the order InitEndpoints and SaveEndpoints write them. */
  const ClientNames: seq<string> :=
    [ClientData, ClientMetadata, ClientCommand, ClientLogging, ClientExport, ClientNotifications, ClientScheduler]

  /** The configuration section each table key is read from, position by position. */
  const ConfigNames: seq<string> :=
    ["Data", "Metadata", "Command", "Logging", "Export", "Notifications", "Scheduler"]

  /** `ClientInfo{Host, Port, Protocol, Timeout}` */
  datatype ClientInfo = ClientInfo(host: string, port: int, protocol: string, timeout: int)

  /** `Config`: the gateway's own port and the `Clients` sections. */
  datatype Config = Config(serverPort: int, clients: map<string, ClientInfo>)

  /** `config.Clients[name]`: an absent section reads as the zero ClientInfo. */
  function Client(config: Config, name: string): (c: ClientInfo)
    ensures name !in config.clients ==> c == ClientInfo("", 0, "", 0)
    ensures name in config.clients ==> c == config.clients[name]
  {
    if name in config.clients then config.clients[name] else ClientInfo("", 0, "", 0)
  }

  /** `client.Host + ":" + strconv.Itoa(client.Port)` */
  function Endpoint(c: ClientInfo): string {
    c.host + Colon + Decimal.IntToString(c.port)
  }

  /** An endpoint splits back at its first ':' into the host and the port,
      for every host without a ':' of its own. */
  lemma EndpointSplits(c: ClientInfo)
    requires ':' !in c.host
    ensures var e := Endpoint(c);
      && ':' in e
      && e[..FirstIndex(e, ':')] == c.host
      && Decimal.IsIntText(e[FirstIndex(e, ':') + 1..])
      && Decimal.ParseInt(e[FirstIndex(e, ':') + 1..]) == c.port
  {
    var e := Endpoint(c);
    var digits := Decimal.IntToString(c.port);
    assert e == c.host + [':'] + digits;
    FirstIndexAfter(c.host, ':', digits);
    assert e[..|c.host|] == c.host && e[|c.host| + 1..] == digits;
    Decimal.IntRoundTrip(c.port);
  }

  /** The seven client keys are pairwise different. */
  lemma ClientNamesUnique()
    ensures Unique(ClientNames)
  {
    assert |ClientData| == 4 && |ClientMetadata| == 8 && |ClientCommand| == 7 && |ClientLogging| == 7;
    assert |ClientExport| == 6 && |ClientNotifications| == 13 && |ClientScheduler| == 9;
    assert ClientCommand[0] != ClientLogging[0];
  }

  /** What InitEndpoints writes under each client key, position by position. */
  function Sections(config: Config): (vs: seq<Value>)
    ensures |vs| == |ClientNames|
    ensures forall i :: 0 <= i < |vs| ==> vs[i] == Str(Endpoint(Client(config, ConfigNames[i])))
  {
    seq(|ConfigNames|, i requires 0 <= i < |ConfigNames| => Str(Endpoint(Client(config, ConfigNames[i]))))
  }

  /** What SaveEndpoints writes under each client key: the argument under its keyword. */
  function Arguments(args: map<Value, Value>): (vs: seq<Value>)
    ensures |vs| == |ClientNames|
    ensures forall i :: 0 <= i < |vs| ==> vs[i] == Lookup(args, ClientNames[i])
  {
    seq(|ClientNames|, i requires 0 <= i < |ClientNames| => Lookup(args, ClientNames[i]))
  }

  /** The table after InitEndpoints. */
  function Initialized(table: map<string, Value>, config: Config): map<string, Value> {
    Put(table, ClientNames, Sections(config))
  }

  /** The table after SaveEndpoints. */
  function Saved(table: map<string, Value>, args: map<Value, Value>): map<string, Value> {
    Put(table, ClientNames, Arguments(args))
  }

  /** Each client key holds the endpoint of its configuration section; every
      other key is as before. */
  lemma InitializedClient(table: map<string, Value>, config: Config, i: nat)
    requires i < |ClientNames|
    ensures ClientNames[i] in Initialized(table, config)
    ensures Initialized(table, config)[ClientNames[i]] == Str(Endpoint(Client(config, ConfigNames[i])))
  {
    ClientNamesUnique();
    PutAt(table, ClientNames, Sections(config), i);
  }

  /** Each client key holds the argument under its keyword, or nil. */
  lemma SavedClient(table: map<string, Value>, args: map<Value, Value>, i: nat)
    requires i < |ClientNames|
    ensures ClientNames[i] in Saved(table, args)
    ensures Saved(table, args)[ClientNames[i]] == Lookup(args, ClientNames[i])
  {
    ClientNamesUnique();
    PutAt(table, ClientNames, Arguments(args), i);
  }

  /** Neither operation touches a key other than the seven clients'. */
  lemma OtherKeysKept(table: map<string, Value>, config: Config, args: map<Value, Value>, k: string)
    requires k !in ClientNames
    ensures k in Initialized(table, config) <==> k in table
    ensures k in Saved(table, args) <==> k in table
    ensures k in table ==> Initialized(table, config)[k] == table[k] && Saved(table, args)[k] == table[k]
  {
    PutOff(table, ClientNames, Sections(config), k);
    PutOff(table, ClientNames, Arguments(args), k);
  }

  /** Saving the same arguments twice is saving them once. */
  lemma SavedIdempotent(table: map<string, Value>, args: map<Value, Value>)
    ensures Saved(Saved(table, args), args) == Saved(table, args)
  {
    var once := Saved(table, args);
    var twice := Saved(once, args);
    forall k ensures (k in twice <==> k in once) && (k in once ==> twice[k] == once[k]) {
      if k in ClientNames {
        var i :| 0 <= i < |ClientNames| && ClientNames[i] == k;
        SavedClient(table, args, i);
        SavedClient(once, args, i);
      } else {
        PutOff(once, ClientNames, Arguments(args), k);
      }
    }
  }

  /** A save forgets what was there before: two tables agreeing off the
      client keys agree after the same save. */
  lemma SavedOverwrites(t1: map<string, Value>, t2: map<string, Value>, args: map<Value, Value>)
    requires forall k :: k !in ClientNames ==> (k in t1 <==> k in t2)
    requires forall k :: k in t1 && k !in ClientNames ==> t1[k] == t2[k]
    ensures Saved(t1, args) == Saved(t2, args)
  {
    var r1, r2 := Saved(t1, args), Saved(t2, args);
    forall k ensures (k in r1 <==> k in r2) && (k in r1 ==> r1[k] == r2[k]) {
      if k in ClientNames {
        var i :| 0 <= i < |ClientNames| && ClientNames[i] == k;
        SavedClient(t1, args, i);
        SavedClient(t2, args, i);
      } else {
        PutOff(t1, ClientNames, Arguments(args), k);
        PutOff(t2, ClientNames, Arguments(args), k);
      }
    }
  }

  /** `getEndpoint(service)`: the base URL of a service. The table entry must
      be a string; anything else (including an absent key) fails the type
      assertion. */
  function GetEndpoint(table: map<string, Value>, service: string): (r: string)
    requires service in table && table[service].Str?
    ensures |r| == |table[service].s| + 15
    ensures r[..7] == "http://" && r[|r| - 8..] == "/api/v1/"
    ensures r[7..|r| - 8] == table[service].s
  {
    HttpScheme + table[service].s + APIv1Prefix + "/"
  }

  /** After InitEndpoints every client's base URL is
      `http://<host>:<port>/api/v1/` for its configuration section. */
  lemma GetEndpointAfterInit(table: map<string, Value>, config: Config, i: nat)
    requires i < |ClientNames|
    ensures var t := Initialized(table, config);
      var c := Client(config, ConfigNames[i]);
      && ClientNames[i] in t && t[ClientNames[i]].Str?
      && GetEndpoint(t, ClientNames[i]) == "http://" + c.host + ":" + Decimal.IntToString(c.port) + "/api/v1/"
  {
    InitializedClient(table, config, i);
    var c := Client(config, ConfigNames[i]);
    var digits := Decimal.IntToString(c.port);
    assert HttpScheme + (c.host + Colon + digits) + APIv1Prefix + "/"
      == "http://" + c.host + ":" + digits + "/api/v1/";
  }

  /** `Endpoints`: the table as the UI reads it, keys turned into keywords. */
  function Endpoints(table: map<string, Value>): (r: Value)
    ensures r.KMap? && r.entries.Keys == KeywordKeys(table.Keys)
    ensures forall k :: k in table ==> r.entries[Kw(k)] == Keywordize(table[k])
  {
    Keywordize(SMap(table))
  }

  /** After SaveEndpoints(args), the endpoints query answers, under the
      keyword of each client, the (keywordized) value given in `args`. */
  lemma EndpointsAfterSave(table: map<string, Value>, args: map<Value, Value>, i: nat)
    requires i < |ClientNames|
    ensures var r := Endpoints(Saved(table, args));
      Kw(ClientNames[i]) in r.entries && r.entries[Kw(ClientNames[i])] == Keywordize(Lookup(args, ClientNames[i]))
  {
    SavedClient(table, args, i);
  }

  /** The seven writes of InitEndpoints, one after the other. */
  lemma InitializedWrites(table: map<string, Value>, config: Config)
    ensures Initialized(table, config) == table
      [ClientData := Str(Endpoint(Client(config, "Data")))]
      [ClientMetadata := Str(Endpoint(Client(config, "Metadata")))]
      [ClientCommand := Str(Endpoint(Client(config, "Command")))]
      [ClientLogging := Str(Endpoint(Client(config, "Logging")))]
      [ClientExport := Str(Endpoint(Client(config, "Export")))]
      [ClientNotifications := Str(Endpoint(Client(config, "Notifications")))]
      [ClientScheduler := Str(Endpoint(Client(config, "Scheduler")))]
  {
    var ks, vs := ClientNames, Sections(config);
    assert vs[..7] == vs;
    assert vs[0] == Str(Endpoint(Client(config, "Data")));
    assert vs[1] == Str(Endpoint(Client(config, "Metadata")));
    assert vs[2] == Str(Endpoint(Client(config, "Command")));
    assert vs[3] == Str(Endpoint(Client(config, "Logging")));
    assert vs[4] == Str(Endpoint(Client(config, "Export")));
    assert vs[5] == Str(Endpoint(Client(config, "Notifications")));
    assert vs[6] == Str(Endpoint(Client(config, "Scheduler")));
    Writes(table, ks, vs);
  }

  /** The seven writes of SaveEndpoints, one after the other. */
  lemma SavedWrites(table: map<string, Value>, args: map<Value, Value>)
    ensures Saved(table, args) == table
      [ClientData := Lookup(args, ClientData)]
      [ClientMetadata := Lookup(args, ClientMetadata)]
      [ClientCommand := Lookup(args, ClientCommand)]
      [ClientLogging := Lookup(args, ClientLogging)]
      [ClientExport := Lookup(args, ClientExport)]
      [ClientNotifications := Lookup(args, ClientNotifications)]
      [ClientScheduler := Lookup(args, ClientScheduler)]
  {
    var ks, vs := ClientNames, Arguments(args);
    assert vs[..7] == vs;
    Writes(table, ks, vs);
  }

  /** Put over seven keys, written out. */
  lemma Writes<V>(table: map<string, V>, ks: seq<string>, vs: seq<V>)
    requires |ks| == 7 && |vs| == 7
    ensures Put(table, ks, vs)
      == table[ks[0] := vs[0]][ks[1] := vs[1]][ks[2] := vs[2]][ks[3] := vs[3]][ks[4] := vs[4]][ks[5] := vs[5]][ks[6] := vs[6]]
  {
    assert ks[..0] == [] && ks[..7] == ks && vs[..7] == vs;
    PutSnoc(table, ks, vs, 0);
    PutSnoc(table, ks, vs, 1);
    PutSnoc(table, ks, vs, 2);
    PutSnoc(table, ks, vs, 3);
    PutSnoc(table, ks, vs, 4);
    PutSnoc(table, ks, vs, 5);
    PutSnoc(table, ks, vs, 6);
  }

  /** The package-level `endpoints` map and the two operations that write it. */
  class EndpointTable {
    var endpoints: map<string, Value>

    /** `make(map[string]interface{})` */
    constructor ()
      ensures endpoints == map[]
    {
      endpoints := map[];
    }

    method InitEndpoints(config: Config)
      modifies this
      ensures endpoints == Initialized(old(endpoints), config)
    {
      InitializedWrites(endpoints, config);
      endpoints := endpoints[ClientData := Str(Endpoint(Client(config, "Data")))];
      endpoints := endpoints[ClientMetadata := Str(Endpoint(Client(config, "Metadata")))];
      endpoints := endpoints[ClientCommand := Str(Endpoint(Client(config, "Command")))];
      endpoints := endpoints[ClientLogging := Str(Endpoint(Client(config, "Logging")))];
      endpoints := endpoints[ClientExport := Str(Endpoint(Client(config, "Export")))];
      endpoints := endpoints[ClientNotifications := Str(Endpoint(Client(config, "Notifications")))];
      endpoints := endpoints[ClientScheduler := Str(Endpoint(Client(config, "Scheduler")))];
    }

    /** The `save-endpoints` mutation: returns `(nil, nil)`. */
    method SaveEndpoints(args: map<Value, Value>) returns (r: Value, err: Option<string>)
      modifies this
      ensures endpoints == Saved(old(endpoints), args)
      ensures r == Nil && err == None
    {
      SavedWrites(endpoints, args);
      endpoints := endpoints[ClientData := Lookup(args, ClientData)];
      endpoints := endpoints[ClientMetadata := Lookup(args, ClientMetadata)];
      endpoints := endpoints[ClientCommand := Lookup(args, ClientCommand)];
      endpoints := endpoints[ClientLogging := Lookup(args, ClientLogging)];
      endpoints := endpoints[ClientExport := Lookup(args, ClientExport)];
      endpoints := endpoints[ClientNotifications := Lookup(args, ClientNotifications)];
      endpoints := endpoints[ClientScheduler := Lookup(args, ClientScheduler)];
      return Nil, None;
    }
  }
}
