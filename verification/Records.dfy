/** The stored configuration: server and tunnel rows, and the credential store beside them. */
module Records {
  import opened Base
  import opened Responses
  import opened Trace

  type ServerId = string

  const LAST_REVISION: u64 := 0x7FFF_FFFF_FFFF_FFFF

  // ---------- Credentials ----------

  datatype CredentialKind = Psk | Ca | Certificate | PrivateKey

  /** One value for each kind of credential. */
  datatype PerKind<+T> = PerKind(psk: T, ca: T, certificate: T, privateKey: T) {
    function At(k: CredentialKind): T {
      match k
      case Psk => psk
      case Ca => ca
      case Certificate => certificate
      case PrivateKey => privateKey
    }
  }

  function Uniform<T>(x: T): PerKind<T> {
    PerKind(x, x, x, x)
  }

  /**
    One of the two slots in which a server's credential of one kind is kept in turn, or a key that
    an earlier version of the daemon chose.
  */
  datatype Key = Slot(server: ServerId, kind: CredentialKind, second: bool) | Historical(name: string)

  type Vault = map<Key, string>

  type Refs = PerKind<Option<Key>>

  /** The slot that is not in use. */
  function NextKey(server: ServerId, kind: CredentialKind, current: Option<Key>): Key {
    Slot(server, kind, current == Some(Slot(server, kind, false)))
  }

  function SlotsOf(server: ServerId, kind: CredentialKind): set<Key> {
    {Slot(server, kind, false), Slot(server, kind, true)}
  }

  /** A slot that is referenced is one of the server and kind. */
  ghost predicate OwnRefs(server: ServerId, refs: Refs) {
    forall k: CredentialKind :: refs.At(k).Some? ==> Belongs(refs.At(k).value, server, k)
  }

  predicate Belongs(key: Key, server: ServerId, kind: CredentialKind) {
    key.Historical? || key in SlotsOf(server, kind)
  }

  ghost predicate Resolves(refs: Refs, vault: Vault) {
    forall k: CredentialKind :: refs.At(k).Some? ==> refs.At(k).value in vault
  }

  lemma NextKeyIsFree(server: ServerId, kind: CredentialKind, current: Option<Key>)
    ensures current != Some(NextKey(server, kind, current))
    ensures NextKey(server, kind, current) in SlotsOf(server, kind)
  {
  }

  // ---------- Rows ----------

  datatype ServerDesired = Enabled | Disabled | Gone

  datatype ServerActual =
    | NotAuthenticated | Disconnected | Connecting | TlsHandshake | Authenticating
    | Online | Backoff | Off | Error

  datatype Server = Server(
    name: Option<string>, endpoint: Endpoint, tlsName: Option<string>, refs: Refs,
    desired: ServerDesired, actual: ServerActual, revision: u64, managed: bool)

  datatype Tunnel = Tunnel(
    server: ServerId, name: Option<string>, mode: Mode, proxy: bool, local: Endpoint,
    remote: Endpoint, desired: Desired, actual: Actual, revision: u64, managed: bool)

  type Servers = map<ServerId, Server>
  type Tunnels = map<TunnelId, Tunnel>

  datatype State = State(servers: Servers, tunnels: Tunnels)

  predicate LiveServer(servers: Servers, id: ServerId) {
    id in servers && !servers[id].desired.Gone?
  }

  predicate LiveTunnel(tunnels: Tunnels, id: TunnelId) {
    id in tunnels && !tunnels[id].desired.WantRemoved?
  }

  /** Server names are unique over all rows, tombstones included. */
  ghost predicate UniqueNames(servers: Servers) {
    forall a, b | a in servers && b in servers && servers[a].name.Some?
                  && servers[a].name == servers[b].name :: a == b
  }

  predicate NameTaken(servers: Servers, name: Option<string>, self: ServerId) {
    name.Some? && exists id | id in servers :: id != self && servers[id].name == name
  }

  lemma UniqueNamesKept(servers: Servers, id: ServerId, row: Server)
    requires UniqueNames(servers) && !NameTaken(servers, row.name, id)
    ensures UniqueNames(servers[id := row])
  {
  }

  /** No two tunnels of a server ask for the same public listener. */
  predicate ListenerTaken(tunnels: Tunnels, row: Tunnel, self: TunnelId) {
    exists id | id in tunnels ::
      && id != self && tunnels[id].server == row.server
      && tunnels[id].mode == row.mode && tunnels[id].remote == row.remote
  }

  function BuriedServer(row: Server): Server {
    row.(desired := Gone, actual := Off)
  }

  function BuriedTunnel(row: Tunnel): Tunnel {
    row.(desired := WantRemoved, actual := Removing)
  }

  /** The state of a server that is not being connected to. */
  function AtRest(desired: ServerDesired, psk: bool): ServerActual {
    if desired.Disabled? then Off else if psk then Disconnected else ServerActual.NotAuthenticated
  }
}
