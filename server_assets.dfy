/** The pluggable game sessions: the `GameServer` base class, its two
    subclasses and the registry that picks one by game id. A session is a
    value owned by its lobby; its sends are returned as envelopes for the
    server to append to its outbox. */
module GameServers {
  import opened Wrappers
  import opened Sequences
  import opened SharedAssets
  import opened Outbox

  /** The classes `GameServer`, `SnakeServer` and `PongServer`. */
  datatype GameKind = BaseGame | SnakeGame | PongGame

  /** `asset_class.game_id` of each class. */
  function GameIdOf(kind: GameKind): Option<string> {
    match kind
    case BaseGame => None
    case SnakeGame => Some("snake")
    case PongGame => Some("pong")
  }

  /** `game_servers`. */
  const GameServerList: seq<GameKind> := [BaseGame, SnakeGame, PongGame]

  /** `game_servers_by_id`: each class under its asset class's game id. */
  function GameServersById(): map<Option<string>, GameKind> {
    map kind | kind in GameServerList :: GameIdOf(kind) := kind
  }

  lemma {:induction false} RegistryContents()
    ensures GameServersById().Keys == {None, Some("snake"), Some("pong")}
    ensures GameServersById()[None] == BaseGame
    ensures GameServersById()[Some("snake")] == SnakeGame
    ensures GameServersById()[Some("pong")] == PongGame
  {
    var r := GameServersById();
    assert GameIdOf(BaseGame) == None && BaseGame in GameServerList;
    assert GameIdOf(SnakeGame) == Some("snake") && SnakeGame in GameServerList;
    assert GameIdOf(PongGame) == Some("pong") && PongGame in GameServerList;
  }

  /** A session's `clients`. At construction it is the very list object of its
      lobby's `player_clients`, so the lobby's joins and removals show through;
      the first disconnect rebinds it to a list of its own. */
  datatype ClientList = SharedWithLobby | Own(ids: seq<ClientId>)

  /** A call of one of the hooks a concrete game may override. */
  datatype Hook = HostTransferred(oldHost: ClientId) | ClientDisconnected(client: ClientId)

  /** A `GameServer` instance; `hooks` records the hook calls in order. */
  datatype GameServer = GameServer(
    kind: GameKind,
    settings: Settings,
    clients: ClientList,
    host: ClientId,
    running: bool,
    hooks: seq<Hook>)

  /** The list `self.clients` denotes, given the lobby's current player list. */
  function ClientsOf(g: GameServer, lobbyMembers: seq<ClientId>): seq<ClientId> {
    if g.clients.SharedWithLobby? then lobbyMembers else g.clients.ids
  }

  /** `__init__`, called by `Lobby.start_game` with the lobby's own player list. */
  function NewGameServer(kind: GameKind, settings: Settings, host: ClientId): (g: GameServer)
    ensures g.kind == kind && g.settings == settings && g.host == host
    ensures g.running && g.hooks == []
    ensures forall members :: ClientsOf(g, members) == members
  {
    GameServer(kind, settings, SharedWithLobby, host, true, [])
  }

  /** The `host_client` setter: stores the new host, then calls `on_host_transfer(old_host)`. */
  function WithHost(g: GameServer, value: ClientId): (r: GameServer)
    ensures r.host == value
    ensures r.hooks == g.hooks + [HostTransferred(g.host)]
    ensures r.kind == g.kind && r.settings == g.settings && r.clients == g.clients && r.running == g.running
  {
    g.(host := value, hooks := g.hooks + [HostTransferred(g.host)])
  }

  /** `on_client_disconnect_private`: drops every client with the departing id,
      promotes the first remaining client if the host left, then calls
      `on_client_disconnect`. When the host leaves an empty list the source
      raises IndexError; the host is then left as it was. */
  function OnClientDisconnectPrivate(g: GameServer, lobbyMembers: seq<ClientId>, leaving: ClientId): (r: GameServer)
    ensures r.clients.Own?
    ensures r.clients.ids == Without(ClientsOf(g, lobbyMembers), leaving)
    ensures forall c :: c in r.clients.ids <==> c in ClientsOf(g, lobbyMembers) && c != leaving
    ensures leaving == g.host && |r.clients.ids| > 0 ==>
      r.host == r.clients.ids[0] && r.hooks == g.hooks + [HostTransferred(g.host), ClientDisconnected(leaving)]
    ensures leaving != g.host || |r.clients.ids| == 0 ==>
      r.host == g.host && r.hooks == g.hooks + [ClientDisconnected(leaving)]
    ensures r.host != leaving || g.host == leaving
    ensures r.kind == g.kind && r.settings == g.settings && r.running == g.running
  {
    var hostLeft := leaving == g.host;
    var remaining := Without(ClientsOf(g, lobbyMembers), leaving);
    WithoutMembers(ClientsOf(g, lobbyMembers), leaving);
    var g1 := g.(clients := Own(remaining));
    var g2 := if hostLeft && |remaining| > 0 then WithHost(g1, remaining[0]) else g1;
    g2.(hooks := g2.hooks + [ClientDisconnected(leaving)])
  }

  /** When the host leaves, the new host is the first client, in the session's
      old order, whose id is not the leaver's. */
  lemma {:induction false} DisconnectPrivateNewHost(g: GameServer, lobbyMembers: seq<ClientId>, leaving: ClientId)
    requires leaving == g.host
    requires exists c :: c in ClientsOf(g, lobbyMembers) && c != leaving
    ensures var before := ClientsOf(g, lobbyMembers);
      exists k :: 0 <= k < |before| && before[k] != leaving && (forall j :: 0 <= j < k ==> before[j] == leaving) &&
        OnClientDisconnectPrivate(g, lobbyMembers, leaving).host == before[k]
  {
    var c :| c in ClientsOf(g, lobbyMembers) && c != leaving;
    var r := OnClientDisconnectPrivate(g, lobbyMembers, leaving);
    assert c in r.clients.ids;
    WithoutHead(ClientsOf(g, lobbyMembers), leaving);
  }

  /** Every other client keeps its multiplicity; the departing one is gone entirely. */
  lemma {:induction false} DisconnectPrivateCounts(g: GameServer, lobbyMembers: seq<ClientId>, leaving: ClientId)
    ensures multiset(OnClientDisconnectPrivate(g, lobbyMembers, leaving).clients.ids) ==
      multiset(ClientsOf(g, lobbyMembers))[leaving := 0]
  {
    WithoutMultiset(ClientsOf(g, lobbyMembers), leaving);
  }

  /** `send_data_to_all`: one `GameDataMessage` wrapping `data` to each client, in order. */
  method SendDataToAll(clients: seq<ClientId>, data: Payload) returns (out: seq<Envelope>)
    ensures out == SendAll(clients, GameData(data))
  {
    out := [];
    for i := 0 to |clients|
      invariant out == SendAll(clients[..i], GameData(data))
    {
      SendAllStep(clients, i, GameData(data));
      out := out + [Envelope(clients[i], GameData(data))];
    }
    assert clients[..|clients|] == clients;
  }

  /** The ball velocity Pong sends to the client at index `i`: horizontal direction `2i - 1`. */
  function PongStartVelocity(i: nat): (v: (int, int))
    ensures v.1 == 6
    ensures i == 0 ==> v == (-6, 6)
    ensures i == 1 ==> v == (6, 6)
  {
    var horizontalDir := i * 2 - 1;
    (horizontalDir * 6, 6)
  }

  /** `PongServer.on_game_start`: the client at index `i` receives a `BallHit`
      with velocity `PongStartVelocity(i)`. */
  method PongOnGameStart(clients: seq<ClientId>) returns (out: seq<Envelope>)
    ensures |out| == |clients|
    ensures forall i :: 0 <= i < |clients| ==>
      out[i] == Envelope(clients[i], GameData(BallHit(None, PongStartVelocity(i))))
  {
    out := [];
    for i := 0 to |clients|
      invariant |out| == i
      invariant forall j :: 0 <= j < i ==> out[j] == Envelope(clients[j], GameData(BallHit(None, PongStartVelocity(j))))
    {
      out := out + [Envelope(clients[i], GameData(BallHit(None, PongStartVelocity(i))))];
    }
  }

  /** `PongServer.on_data_received`: a `BallHit` or `PaddleMove` goes to every
      client other than the sender, in order; any other payload goes nowhere. */
  method PongOnDataReceived(clients: seq<ClientId>, from: ClientId, data: Payload) returns (out: seq<Envelope>)
    ensures data.BallHit? || data.PaddleMove? ==> out == SendAll(Without(clients, from), GameData(data))
    ensures !(data.BallHit? || data.PaddleMove?) ==> out == []
  {
    out := [];
    if data.BallHit? || data.PaddleMove? {
      for i := 0 to |clients|
        invariant out == SendAll(Without(clients[..i], from), GameData(data))
      {
        WithoutStep(clients, i, from);
        if clients[i] != from {
          SendAllSnoc(Without(clients[..i], from), clients[i], GameData(data));
          out := out + [Envelope(clients[i], GameData(data))];
        }
      }
      assert clients[..|clients|] == clients;
    }
  }

  /** What `on_game_start` of the session's class sends: only Pong sends anything. */
  function GameStartSends(g: GameServer, clients: seq<ClientId>): seq<Envelope> {
    if g.kind == PongGame then
      seq(|clients|, i requires 0 <= i < |clients| => Envelope(clients[i], GameData(BallHit(None, PongStartVelocity(i)))))
    else []
  }

  /** What `on_data_received` of the session's class sends: only Pong relays,
      and only ball hits and paddle moves. */
  function Relayed(g: GameServer, clients: seq<ClientId>, from: ClientId, data: Payload): seq<Envelope> {
    if g.kind == PongGame && (data.BallHit? || data.PaddleMove?) then SendAll(Without(clients, from), GameData(data))
    else []
  }

  /** `on_game_start` of the session's class. */
  method OnGameStart(g: GameServer, clients: seq<ClientId>) returns (out: seq<Envelope>)
    ensures out == GameStartSends(g, clients)
    ensures g.kind == PongGame ==> |out| == |clients|
    ensures g.kind == PongGame ==>
      forall i :: 0 <= i < |clients| ==> out[i] == Envelope(clients[i], GameData(BallHit(None, PongStartVelocity(i))))
    ensures g.kind != PongGame ==> out == []
  {
    if g.kind == PongGame {
      out := PongOnGameStart(clients);
    } else {
      out := [];
    }
  }

  /** `on_data_received` of the session's class. */
  method OnDataReceived(g: GameServer, clients: seq<ClientId>, from: ClientId, data: Payload) returns (out: seq<Envelope>)
    ensures out == Relayed(g, clients, from, data)
    ensures g.kind == PongGame && (data.BallHit? || data.PaddleMove?) ==>
      out == SendAll(Without(clients, from), GameData(data))
    ensures g.kind != PongGame || !(data.BallHit? || data.PaddleMove?) ==> out == []
  {
    if g.kind == PongGame {
      out := PongOnDataReceived(clients, from, data);
    } else {
      out := [];
    }
  }
}
