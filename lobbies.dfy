/** The lobby records and everything the server computes from its tables as
    values: lobby snapshots, the chat, the two lobby lists and their
    recipients, the settings patch, and the consistency of the tables with the
    lemmas that show each operation keeps it. */
module Lobbies {
  import opened Wrappers
  import opened Sequences
  import opened Dicts
  import opened SharedAssets
  import opened Outbox
  import opened GameServers

  /** A `ConnectedClient`; its connection handle is not modelled. */
  datatype ConnectedClient = ConnectedClient(
    clientId: ClientId,
    address: Address,
    username: Option<string>,
    lobbyIn: Option<LobbyId>)

  /** A `Lobby`; players and host are referred to by client id. */
  datatype Lobby = Lobby(
    lobbyId: LobbyId,
    title: string,
    host: ClientId,
    members: seq<ClientId>,
    gameSelectedId: Option<string>,
    gameSettings: Settings,
    maxPlayers: Value,
    chat: seq<string>,
    private: bool,
    initialized: int,
    currentGame: Option<GameServer>)

  const DefaultMaxPlayers := IntV(10)
  const NoLongerExists := "Lobby no longer exists."

  /** What the server keeps true of every lobby in its table. */
  ghost predicate LobbyInvariant(l: Lobby) {
    && |l.members| > 0
    && l.host in l.members
    && |l.chat| <= MaxChatMessages
  }

  /** `Lobby.__init__`: the host is the only player, no game is selected, the chat is empty. */
  function NewLobby(id: LobbyId, host: ClientId, settings: Settings, title: string, private: bool): (l: Lobby)
    ensures LobbyInvariant(l)
    ensures l.lobbyId == id && l.members == [host] && l.host == host
    ensures l.gameSelectedId == None && l.maxPlayers == IntV(10) && l.chat == []
    ensures l.initialized == 0 && l.currentGame == None
    ensures l.title == title && l.private == private && l.gameSettings == settings
  {
    Lobby(id, title, host, [host], None, settings, DefaultMaxPlayers, [], private, 0, None)
  }

  /** The `host_client` setter of `Lobby`: the running game, if any, is told too. */
  function WithLobbyHost(l: Lobby, value: ClientId): (r: Lobby)
    ensures r.host == value
    ensures r.currentGame == if l.currentGame.Some? then Some(WithHost(l.currentGame.value, value)) else None
    ensures r == l.(host := value, currentGame := r.currentGame)
  {
    var game := if l.currentGame.Some? then Some(WithHost(l.currentGame.value, value)) else None;
    l.(host := value, currentGame := game)
  }

  /** The lobby after `remove_player(player)` when some player remains:
      the first entry of `player` is deleted, the first remaining player is
      promoted if `player` was the host, and the running game is told. */
  function LobbyAfterRemoval(l: Lobby, player: ClientId): Lobby {
    var l2 := PromotedAfterRemoval(l, player);
    if l2.currentGame.Some? then
      l2.(currentGame := Some(OnClientDisconnectPrivate(l2.currentGame.value, l2.members, player)))
    else l2
  }

  /** The first two steps of `remove_player(player)`: the first entry of
      `player` is deleted, and the first remaining player is promoted if
      `player` was the host. */
  function PromotedAfterRemoval(l: Lobby, player: ClientId): Lobby {
    var remaining := RemoveFirst(l.members, player);
    var l1 := l.(members := remaining);
    if player == l.host && |remaining| > 0 then WithLobbyHost(l1, remaining[0]) else l1
  }

  /** Whether `remove_player(player)` raises the IndexError of
      `on_client_disconnect_private`: some player remains, the running game's
      host after any promotion is `player`, and the game's filtered client
      list is empty, so `self.clients[0]` fails. */
  predicate RemovalRaises(l: Lobby, player: ClientId) {
    var l2 := PromotedAfterRemoval(l, player);
    && |l2.members| > 0
    && l2.currentGame.Some?
    && l2.currentGame.value.host == player
    && Without(ClientsOf(l2.currentGame.value, l2.members), player) == []
  }

  /** A client that joined its own lobby twice and hosts a game sharing the
      lobby's list: its leave promotes its own second entry, so the game's host
      is still the leaver and no other client remains in the game. */
  lemma {:induction false} RepeatedHostRemovalRaises(l: Lobby, player: ClientId)
    requires l.members == [player, player] && l.host == player
    requires l.currentGame.Some? && l.currentGame.value.clients.SharedWithLobby?
    ensures RemovalRaises(l, player)
  {
    assert RemoveFirst(l.members, player) == [player];
    assert Without([player], player) == [];
  }

  /** Host promotion keeps the host a member. */
  lemma {:induction false} RemovalKeepsHost(l: Lobby, player: ClientId)
    requires LobbyInvariant(l)
    requires |RemoveFirst(l.members, player)| > 0
    ensures LobbyAfterRemoval(l, player).members == RemoveFirst(l.members, player)
    ensures LobbyAfterRemoval(l, player).host ==
      if player == l.host then RemoveFirst(l.members, player)[0] else l.host
    ensures LobbyInvariant(LobbyAfterRemoval(l, player))
    ensures LobbyAfterRemoval(l, player).chat == l.chat && LobbyAfterRemoval(l, player).lobbyId == l.lobbyId
    ensures LobbyAfterRemoval(l, player).currentGame.Some? == l.currentGame.Some?
  {
    RemoveFirstMembers(l.members, player);
  }

  /** `Lobby.chat_messages` after `line` is appended and the list is cut to its
      last `max_chat_messages` entries. */
  function AppendChat(chat: seq<string>, line: string): seq<string> {
    var appended := chat + [line];
    if |appended| > MaxChatMessages then appended[|appended| - MaxChatMessages..] else appended
  }

  /** The chat keeps the newest entries, in order, and never more than 50. */
  lemma {:induction false} ChatKeepsNewest(chat: seq<string>, line: string)
    ensures |AppendChat(chat, line)| == if |chat| + 1 > MaxChatMessages then MaxChatMessages else |chat| + 1
    ensures AppendChat(chat, line)[|AppendChat(chat, line)| - 1] == line
    ensures AppendChat(chat, line) == (chat + [line])[|chat| + 1 - |AppendChat(chat, line)|..]
  {
  }

  /** The 51st line evicts exactly the oldest. */
  lemma {:induction false} ChatEvictsOldest(chat: seq<string>, line: string)
    requires |chat| == MaxChatMessages
    ensures AppendChat(chat, line) == chat[1..] + [line]
  {
  }

  /** Python's `str` of a username that may be `None`. */
  function UsernameText(username: Option<string>): string {
    if username.Some? then username.value else "None"
  }

  /** The line `"<username> text"` a chat message becomes. */
  function ChatLine(username: Option<string>, text: string): (line: string)
    ensures line == "<" + UsernameText(username) + "> " + text
    ensures |line| == |UsernameText(username)| + |text| + 3
  {
    "<" + UsernameText(username) + "> " + text
  }

  /** The username of the client with this id, `None` when it has none or has left. */
  function UsernameOf(clients: map<ClientId, ConnectedClient>, id: ClientId): Option<string> {
    if id in clients then clients[id].username else None
  }

  /** `(client.username, client.client_id)` for each client. */
  function PlayerTuples(clients: map<ClientId, ConnectedClient>, ids: seq<ClientId>): (r: seq<(Option<string>, ClientId)>)
    ensures |r| == |ids|
    ensures forall i :: 0 <= i < |ids| ==> r[i] == (UsernameOf(clients, ids[i]), ids[i])
  {
    seq(|ids|, i requires 0 <= i < |ids| => (UsernameOf(clients, ids[i]), ids[i]))
  }

  /** `Client(username, client_id)` for each client: the manifest of `GameStartedMessage`. */
  function Manifest(clients: map<ClientId, ConnectedClient>, ids: seq<ClientId>): (r: seq<Client>)
    ensures |r| == |ids|
    ensures forall i :: 0 <= i < |ids| ==> r[i] == Client(UsernameOf(clients, ids[i]), ids[i])
  {
    seq(|ids|, i requires 0 <= i < |ids| => Client(UsernameOf(clients, ids[i]), ids[i]))
  }

  /** `get_lobby_info(include_in_lobby_info, include_chat)`. */
  function LobbyInfoOf(l: Lobby, clients: map<ClientId, ConnectedClient>, includeInLobbyInfo: bool, includeChat: bool): (info: LobbyInfo)
    ensures info.lobbyId == l.lobbyId && info.lobbyTitle == l.title
    ensures info.host == (UsernameOf(clients, l.host), l.host)
    ensures |info.players| == |l.members|
    ensures forall i :: 0 <= i < |l.members| ==> info.players[i] == (UsernameOf(clients, l.members[i]), l.members[i])
    ensures info.gameId == l.gameSelectedId && info.maxPlayers == l.maxPlayers
    ensures info.private.Some? <==> includeInLobbyInfo
    ensures info.gameSettings.Some? <==> includeInLobbyInfo
    ensures info.chat.Some? <==> includeChat
    ensures includeInLobbyInfo ==> info.private == Some(l.private) && info.gameSettings == Some(l.gameSettings)
    ensures includeChat ==> info.chat == Some(l.chat)
  {
    LobbyInfo(
      l.lobbyId, l.title, (UsernameOf(clients, l.host), l.host), PlayerTuples(clients, l.members),
      l.gameSelectedId, l.maxPlayers,
      if includeInLobbyInfo then Some(l.private) else None,
      if includeChat then Some(l.chat) else None,
      if includeInLobbyInfo then Some(l.gameSettings) else None)
  }

  /** A lobby the public list shows: not private and no game running. */
  predicate IsPublic(l: Lobby) {
    !l.private && l.currentGame.None?
  }

  /** The comprehension of `send_lobbies_to_each_client`: the short info of each
      public lobby, in table order. */
  function PublicLobbyInfos(keys: seq<LobbyId>, lobbies: map<LobbyId, Lobby>, clients: map<ClientId, ConnectedClient>): seq<LobbyInfo> {
    if keys == [] then []
    else
      (if keys[0] in lobbies && IsPublic(lobbies[keys[0]])
       then [LobbyInfoOf(lobbies[keys[0]], clients, false, false)] else [])
      + PublicLobbyInfos(keys[1..], lobbies, clients)
  }

  /** The comprehension of the `LobbyListRequest` branch: every lobby, unfiltered. */
  function AllLobbyInfos(keys: seq<LobbyId>, lobbies: map<LobbyId, Lobby>, clients: map<ClientId, ConnectedClient>): (r: seq<LobbyInfo>)
    requires forall i :: 0 <= i < |keys| ==> keys[i] in lobbies
    ensures |r| == |keys|
    ensures forall i :: 0 <= i < |keys| ==> r[i] == LobbyInfoOf(lobbies[keys[i]], clients, false, false)
  {
    seq(|keys|, i requires 0 <= i < |keys| => LobbyInfoOf(lobbies[keys[i]], clients, false, false))
  }

  /** Whether some entry of `infos` describes lobby `id`. */
  predicate Lists(infos: seq<LobbyInfo>, id: LobbyId) {
    exists i :: 0 <= i < |infos| && infos[i].lobbyId == id
  }

  lemma {:induction false} ListsConcat(a: seq<LobbyInfo>, b: seq<LobbyInfo>, id: LobbyId)
    ensures Lists(a + b, id) <==> Lists(a, id) || Lists(b, id)
  {
    if Lists(a + b, id) {
      var i :| 0 <= i < |a + b| && (a + b)[i].lobbyId == id;
      if i >= |a| {
        assert b[i - |a|].lobbyId == id;
      }
    }
    if Lists(a, id) {
      var i :| 0 <= i < |a| && a[i].lobbyId == id;
      assert (a + b)[i].lobbyId == id;
    }
    if Lists(b, id) {
      var j :| 0 <= j < |b| && b[j].lobbyId == id;
      assert (a + b)[|a| + j].lobbyId == id;
    }
  }

  /** A lobby of the table is listed exactly when it is public. */
  lemma {:induction false} PublicListExact(keys: seq<LobbyId>, lobbies: map<LobbyId, Lobby>, clients: map<ClientId, ConnectedClient>)
    requires forall k :: k in lobbies ==> lobbies[k].lobbyId == k
    ensures forall id :: Lists(PublicLobbyInfos(keys, lobbies, clients), id) <==>
      id in keys && id in lobbies && IsPublic(lobbies[id])
  {
    if keys != [] {
      var head := if keys[0] in lobbies && IsPublic(lobbies[keys[0]])
                  then [LobbyInfoOf(lobbies[keys[0]], clients, false, false)] else [];
      var tail := PublicLobbyInfos(keys[1..], lobbies, clients);
      assert PublicLobbyInfos(keys, lobbies, clients) == head + tail;
      PublicListExact(keys[1..], lobbies, clients);
      forall id ensures Lists(head + tail, id) <==> id in keys && id in lobbies && IsPublic(lobbies[id]) {
        ListsConcat(head, tail, id);
        assert Lists(head, id) <==> keys[0] in lobbies && IsPublic(lobbies[keys[0]]) && id == keys[0] by {
          if Lists(head, id) {
            var i :| 0 <= i < |head| && head[i].lobbyId == id;
          }
          if keys[0] in lobbies && IsPublic(lobbies[keys[0]]) && id == keys[0] {
            assert head[0].lobbyId == id;
          }
        }
        assert id in keys <==> id == keys[0] || id in keys[1..] by {
          assert keys == [keys[0]] + keys[1..];
        }
      }
    }
  }

  /** Every listed entry is the short info of the lobby it names. */
  lemma {:induction false} PublicListEntries(keys: seq<LobbyId>, lobbies: map<LobbyId, Lobby>, clients: map<ClientId, ConnectedClient>)
    requires forall k :: k in lobbies ==> lobbies[k].lobbyId == k
    ensures forall i :: 0 <= i < |PublicLobbyInfos(keys, lobbies, clients)| ==>
      PublicLobbyInfos(keys, lobbies, clients)[i].lobbyId in lobbies &&
      PublicLobbyInfos(keys, lobbies, clients)[i] ==
        LobbyInfoOf(lobbies[PublicLobbyInfos(keys, lobbies, clients)[i].lobbyId], clients, false, false)
  {
    if keys != [] {
      var head := if keys[0] in lobbies && IsPublic(lobbies[keys[0]])
                  then [LobbyInfoOf(lobbies[keys[0]], clients, false, false)] else [];
      var tail := PublicLobbyInfos(keys[1..], lobbies, clients);
      var r := PublicLobbyInfos(keys, lobbies, clients);
      assert r == head + tail;
      PublicListEntries(keys[1..], lobbies, clients);
      forall i | 0 <= i < |r| ensures r[i].lobbyId in lobbies && r[i] == LobbyInfoOf(lobbies[r[i].lobbyId], clients, false, false) {
        if i >= |head| {
          assert r[i] == tail[i - |head|];
        }
      }
    }
  }

  /** The loop of `send_lobbies_to_each_client`: clients not in a lobby and not ignored, in table order. */
  function LobbyListRecipients(keys: seq<ClientId>, clients: map<ClientId, ConnectedClient>, ignore: seq<ClientId>): seq<ClientId> {
    if keys == [] then []
    else
      (if keys[0] in clients && clients[keys[0]].lobbyIn.None? && keys[0] !in ignore then [keys[0]] else [])
      + LobbyListRecipients(keys[1..], clients, ignore)
  }

  lemma {:induction false} RecipientsConcat(a: seq<ClientId>, b: seq<ClientId>, clients: map<ClientId, ConnectedClient>, ignore: seq<ClientId>)
    ensures LobbyListRecipients(a + b, clients, ignore) == LobbyListRecipients(a, clients, ignore) + LobbyListRecipients(b, clients, ignore)
  {
    if a == [] {
      assert a + b == b;
    } else {
      assert (a + b)[1..] == a[1..] + b;
      RecipientsConcat(a[1..], b, clients, ignore);
    }
  }

  /** The step of the loop of `send_lobbies_to_each_client` at `keys[i]`. */
  lemma {:induction false} RecipientsStep(keys: seq<ClientId>, i: nat, clients: map<ClientId, ConnectedClient>, ignore: seq<ClientId>, message: Message)
    requires i < |keys|
    ensures SendAll(LobbyListRecipients(keys[..i + 1], clients, ignore), message) ==
      SendAll(LobbyListRecipients(keys[..i], clients, ignore), message) +
      (if keys[i] in clients && clients[keys[i]].lobbyIn.None? && keys[i] !in ignore then [Envelope(keys[i], message)] else [])
  {
    assert keys[..i + 1] == keys[..i] + [keys[i]];
    RecipientsConcat(keys[..i], [keys[i]], clients, ignore);
    SendAllConcat(LobbyListRecipients(keys[..i], clients, ignore), LobbyListRecipients([keys[i]], clients, ignore), message);
  }

  /** Exactly the clients with no lobby whose id is not ignored receive the list. */
  lemma {:induction false} RecipientsExact(keys: seq<ClientId>, clients: map<ClientId, ConnectedClient>, ignore: seq<ClientId>)
    ensures forall c :: c in LobbyListRecipients(keys, clients, ignore) <==>
      c in keys && c in clients && clients[c].lobbyIn.None? && c !in ignore
    ensures Distinct(keys) ==> Distinct(LobbyListRecipients(keys, clients, ignore))
  {
    if keys != [] {
      RecipientsExact(keys[1..], clients, ignore);
      assert keys == [keys[0]] + keys[1..];
      if Distinct(keys) {
        assert Distinct(keys[1..]);
        assert keys[0] !in keys[1..];
      }
    }
  }

  /** What `send_lobbies_to_each_client(ignore)` sends given the two tables:
      the public list to each client in no lobby whose id is not ignored. */
  function ListBroadcast(lobbies: Dict<LobbyId, Lobby>, clients: Dict<ClientId, ConnectedClient>, ignore: seq<ClientId>): seq<Envelope> {
    SendAll(LobbyListRecipients(clients.keys, clients.entries, ignore),
            LobbyList(PublicLobbyInfos(lobbies.keys, lobbies.entries, clients.entries)))
  }

  /** The full info of lobby `id` to each of its players, or nothing once it is gone. */
  function InfoToMembers(lobbies: Dict<LobbyId, Lobby>, clients: Dict<ClientId, ConnectedClient>, id: LobbyId): seq<Envelope> {
    if id in lobbies.entries
    then SendAll(lobbies.entries[id].members, LobbyInfoMessage(LobbyInfoOf(lobbies.entries[id], clients.entries, true, false)))
    else []
  }

  /** The lobby client `c` is in, or `None` when it is in none or is not connected. */
  function LobbyOf(clients: Dict<ClientId, ConnectedClient>, c: ClientId): Option<LobbyId> {
    if c in clients.entries then clients.entries[c].lobbyIn else None
  }

  /** Whether a settings patch touches a field other than `game_settings`:
      the set of its four other fields differs from `{unchanged}`. */
  predicate TouchesLobbyFields(p: SettingsPatch) {
    p.lobbyTitle.To? || p.private.To? || p.hostId.To? || p.gameId.To?
  }

  /** The assignments of the `ChangeLobbySettingsMessage` branch: only fields
      that differ from the sentinel are written. The five writes touch
      disjoint fields, so the host setter is applied first. A new host must be
      a current member (see the corrected host rule in the README). */
  function PatchedLobby(l: Lobby, p: SettingsPatch): (r: Lobby)
    ensures r.title == if p.lobbyTitle.To? then p.lobbyTitle.value else l.title
    ensures r.private == if p.private.To? then p.private.value else l.private
    ensures r.host == if p.hostId.To? && p.hostId.value in l.members then p.hostId.value else l.host
    ensures r.gameSettings == if p.gameSettings.To? then p.gameSettings.value else l.gameSettings
    ensures r.gameSelectedId == if p.gameId.To? then p.gameId.value else l.gameSelectedId
    ensures r.lobbyId == l.lobbyId && r.members == l.members && r.chat == l.chat
    ensures r.maxPlayers == l.maxPlayers && r.initialized == l.initialized
    ensures r.currentGame.Some? == l.currentGame.Some?
    ensures LobbyInvariant(l) ==> LobbyInvariant(r)
  {
    var hosted := if p.hostId.To? && p.hostId.value in l.members then WithLobbyHost(l, p.hostId.value) else l;
    hosted.(
      title := if p.lobbyTitle.To? then p.lobbyTitle.value else l.title,
      private := if p.private.To? then p.private.value else l.private,
      gameSettings := if p.gameSettings.To? then p.gameSettings.value else l.gameSettings,
      gameSelectedId := if p.gameId.To? then p.gameId.value else l.gameSelectedId)
  }


  /** The `max_players` a patch that touches only `game_settings` installs, if it
      carries one that differs from the lobby's. */
  function NewMaxPlayers(l: Lobby, settings: Settings): Option<Value> {
    if "max_players" in settings.values && settings.values["max_players"] != l.maxPlayers
    then Some(settings.values["max_players"]) else None
  }

  // ---------------------------------------------------------------------------
  // Source lines as written, for the findings in the README.

  /** Lines 224-227 as written: the lookup after the rejection. */
  datatype JoinLookup = Found(sent: seq<Envelope>, lobby: Lobby) | RaisedKeyError(sent: seq<Envelope>)

  function JoinLookupAsWritten(lobbies: map<LobbyId, Lobby>, sender: ClientId, lobbyId: LobbyId): (r: JoinLookup)
    ensures lobbyId in lobbies <==> r.Found?
  {
    var sent := if lobbyId !in lobbies then [Envelope(sender, KickedFromLobby(Some(NoLongerExists)))] else [];
    if lobbyId in lobbies then Found(sent, lobbies[lobbyId]) else RaisedKeyError(sent)
  }

  /** A stale id is rejected and then indexed anyway: the worker raises KeyError. */
  lemma {:induction false} StaleJoinRaises(lobbies: map<LobbyId, Lobby>, sender: ClientId, lobbyId: LobbyId)
    requires lobbyId !in lobbies
    ensures JoinLookupAsWritten(lobbies, sender, lobbyId) ==
      RaisedKeyError([Envelope(sender, KickedFromLobby(Some(NoLongerExists)))])
  {
  }

  /** Lines 248-249 as written: any connected client may be made host. */
  function PatchHostAsWritten(l: Lobby, hostId: ClientId, connected: set<ClientId>): (r: Option<Lobby>)
    ensures r.Some? <==> hostId in connected
    ensures r.Some? ==> r.value.host == hostId
  {
    if hostId in connected then Some(WithLobbyHost(l, hostId)) else None
  }

  /** A connected client outside the lobby becomes its host, so the host is no longer a member. */
  lemma {:induction false} HostOutsideLobby()
    ensures
      var l := NewLobby(0, 0, Settings(map[]), "Arena", false);
      var r := PatchHostAsWritten(l, 1, {0, 1});
      LobbyInvariant(l) && r.Some? && !LobbyInvariant(r.value)
  {
  }

  // ---------------------------------------------------------------------------
  // The server's two tables, as values, and how each operation keeps them consistent.

  /** The tables are consistent: keys match ids, lobby ids are below the next
      fresh id and increase in table order, and a client's `lobby_in` names a
      lobby it is a player of. */
  ghost predicate TablesOk(lobbies: Dict<LobbyId, Lobby>, clients: Dict<ClientId, ConnectedClient>, next: int) {
    && lobbies.Valid()
    && clients.Valid()
    && Increasing(lobbies.keys)
    && (forall id :: id in lobbies.entries ==> 0 <= id < next && lobbies.entries[id].lobbyId == id)
    && (forall id :: id in clients.entries ==> clients.entries[id].clientId == id)
    && (forall id :: id in clients.entries && clients.entries[id].lobbyIn.Some? ==>
          clients.entries[id].lobbyIn.value in lobbies.entries &&
          id in lobbies.entries[clients.entries[id].lobbyIn.value].members)
  }

  /** Consistent tables in which no lobby is empty, every host is a player and
      no chat exceeds 50 lines. */
  ghost predicate StateOk(lobbies: Dict<LobbyId, Lobby>, clients: Dict<ClientId, ConnectedClient>, next: int) {
    && TablesOk(lobbies, clients, next)
    && (forall id :: id in lobbies.entries ==> LobbyInvariant(lobbies.entries[id]))
  }

  /** `client.lobby_in = None` for the client with id `c`, if it is connected. */
  function LeaveLobbyIn(clients: Dict<ClientId, ConnectedClient>, c: ClientId): (r: Dict<ClientId, ConnectedClient>)
    requires clients.Valid()
    ensures r.Valid() && r.keys == clients.keys
  {
    if c in clients.entries then clients.Set(c, clients.entries[c].(lobbyIn := None)) else clients
  }

  /** `lobby_in` cleared for each of `players` in turn. */
  function LeaveAll(clients: Dict<ClientId, ConnectedClient>, players: seq<ClientId>): (r: Dict<ClientId, ConnectedClient>)
    requires clients.Valid()
    ensures r.Valid() && r.keys == clients.keys
    decreases |players|
  {
    if players == [] then clients
    else LeaveLobbyIn(LeaveAll(clients, players[..|players| - 1]), players[|players| - 1])
  }

  /** Exactly the listed players leave their lobby; every other entry stays. */
  lemma {:induction false} LeaveAllAt(clients: Dict<ClientId, ConnectedClient>, players: seq<ClientId>)
    requires clients.Valid()
    ensures LeaveAll(clients, players).entries.Keys == clients.entries.Keys
    ensures forall c :: c in clients.entries ==>
      LeaveAll(clients, players).entries[c] ==
        if c in players then clients.entries[c].(lobbyIn := None) else clients.entries[c]
    decreases |players|
  {
    if players != [] {
      var init := players[..|players| - 1];
      LeaveAllAt(clients, init);
      assert players == init + [players[|players| - 1]];
    }
  }

  /** The client table after the loop of `remove_player`. */
  function Detached(clients: Dict<ClientId, ConnectedClient>, members: seq<ClientId>, player: ClientId): (r: Dict<ClientId, ConnectedClient>)
    requires clients.Valid()
    ensures r.Valid() && r.keys == clients.keys
  {
    if player in members then LeaveLobbyIn(clients, player) else clients
  }

  lemma {:induction false} StoreKeepsState(lobbies: Dict<LobbyId, Lobby>, clients: Dict<ClientId, ConnectedClient>, next: int, id: LobbyId, l: Lobby)
    requires StateOk(lobbies, clients, next) && id in lobbies.entries
    requires l.lobbyId == id && LobbyInvariant(l)
    requires forall c :: c in clients.entries && clients.entries[c].lobbyIn == Some(id) ==> c in l.members
    ensures StateOk(lobbies.Set(id, l), clients, next)
  {
  }

  lemma {:induction false} AcceptKeepsState(lobbies: Dict<LobbyId, Lobby>, clients: Dict<ClientId, ConnectedClient>, next: int, id: ClientId, address: Address)
    requires StateOk(lobbies, clients, next) && id !in clients.entries
    ensures StateOk(lobbies, clients.Set(id, ConnectedClient(id, address, None, None)), next)
  {
  }

  lemma {:induction false} DisconnectKeepsState(lobbies: Dict<LobbyId, Lobby>, clients: Dict<ClientId, ConnectedClient>, next: int, id: ClientId)
    requires StateOk(lobbies, clients, next)
    ensures StateOk(lobbies, clients.Remove(id), next)
  {
  }

  lemma {:induction false} CreateKeepsState(lobbies: Dict<LobbyId, Lobby>, clients: Dict<ClientId, ConnectedClient>, next: int, sender: ClientId,
                         username: string, settings: Settings, title: string, private: bool)
    requires StateOk(lobbies, clients, next) && sender in clients.entries && 0 <= next
    ensures next !in lobbies.entries
    ensures StateOk(lobbies.Set(next, NewLobby(next, sender, settings, title, private)),
                    clients.Set(sender, clients.entries[sender].(username := Some(username), lobbyIn := Some(next))),
                    next + 1)
  {
    var ks := lobbies.keys + [next];
    forall i, j | 0 <= i < j < |ks| ensures ks[i] < ks[j] {
      if j == |ks| - 1 {
        assert ks[i] in lobbies.entries;
      }
    }
  }

  lemma {:induction false} JoinKeepsState(lobbies: Dict<LobbyId, Lobby>, clients: Dict<ClientId, ConnectedClient>, next: int, sender: ClientId,
                       id: LobbyId, username: string)
    requires StateOk(lobbies, clients, next) && sender in clients.entries && id in lobbies.entries
    ensures StateOk(lobbies.Set(id, lobbies.entries[id].(members := lobbies.entries[id].members + [sender])),
                    clients.Set(sender, clients.entries[sender].(lobbyIn := Some(id), username := Some(username))),
                    next)
  {
  }

  lemma {:induction false} DetachKeepsState(lobbies: Dict<LobbyId, Lobby>, clients: Dict<ClientId, ConnectedClient>, next: int, id: LobbyId, player: ClientId)
    requires StateOk(lobbies, clients, next) && id in lobbies.entries
    ensures StateOk(lobbies, Detached(clients, lobbies.entries[id].members, player), next)
    ensures player in clients.entries ==>
      Detached(clients, lobbies.entries[id].members, player).entries[player].lobbyIn != Some(id)
  {
  }

  /** Deleting the lobby `l` describes keeps the tables consistent, provided
      every client that names it in `lobby_in` is one of `l`'s players. */
  lemma {:induction false} DeleteKeepsState(lobbies: Dict<LobbyId, Lobby>, clients: Dict<ClientId, ConnectedClient>, next: int, l: Lobby)
    requires StateOk(lobbies, clients, next) && l.lobbyId in lobbies.entries
    requires forall c :: c in clients.entries && clients.entries[c].lobbyIn == Some(l.lobbyId) ==> c in l.members
    ensures StateOk(lobbies.Remove(l.lobbyId), LeaveAll(clients, l.members), next)
  {
    var cs := LeaveAll(clients, l.members);
    var ls := lobbies.Remove(l.lobbyId);
    LeaveAllAt(clients, l.members);
    WithoutIncreasing(lobbies.keys, l.lobbyId);
    forall c | c in cs.entries && cs.entries[c].lobbyIn.Some?
      ensures cs.entries[c].lobbyIn.value in ls.entries && c in ls.entries[cs.entries[c].lobbyIn.value].members
    {
      assert c !in l.members && cs.entries[c] == clients.entries[c];
    }
  }

  /** The clients `delete_lobby(lobby, player_to_ignore)` leaves out of its
      broadcast: the players and `player_to_ignore` when one is given, nobody
      otherwise (the conditional binds looser than `+`). */
  function DeleteIgnoreList(members: seq<ClientId>, playerToIgnore: Option<ClientId>): seq<ClientId> {
    if playerToIgnore.Some? then members + [playerToIgnore.value] else []
  }

  /** Deleting a lobby with no players kicks nobody and ignores only the given player. */
  lemma {:induction false} DeleteEmptiedFacts(lobbies: Dict<LobbyId, Lobby>, clients: Dict<ClientId, ConnectedClient>, id: LobbyId, player: ClientId, sent: seq<Envelope>)
    requires lobbies.Valid() && clients.Valid()
    ensures LeaveAll(clients, []) == clients
    ensures sent + SendAll([], Kicked()) == sent
    ensures DeleteIgnoreList([], Some(player)) == [player]
    ensures InfoToMembers(lobbies.Remove(id), clients, id) == []
    ensures sent + [] + ListBroadcast(lobbies.Remove(id), clients, [player]) == sent + ListBroadcast(lobbies.Remove(id), clients, [player])
  {
    assert [] + [player] == [player];
    assert sent + [] == sent;
  }

  /** Once the last player has gone, no client names the lobby any more. */
  lemma {:induction false} EmptiedKeepsTables(lobbies: Dict<LobbyId, Lobby>, clients: Dict<ClientId, ConnectedClient>, next: int, id: LobbyId, player: ClientId)
    requires StateOk(lobbies, clients, next) && id in lobbies.entries
    requires |RemoveFirst(lobbies.entries[id].members, player)| == 0
    requires player in clients.entries ==> clients.entries[player].lobbyIn != Some(id)
    ensures forall c :: c in clients.entries ==> clients.entries[c].lobbyIn != Some(id)
  {
    RemoveFirstMembers(lobbies.entries[id].members, player);
  }

  lemma {:induction false} RemovalKeepsState(lobbies: Dict<LobbyId, Lobby>, clients: Dict<ClientId, ConnectedClient>, next: int, id: LobbyId, player: ClientId)
    requires StateOk(lobbies, clients, next) && id in lobbies.entries
    requires |RemoveFirst(lobbies.entries[id].members, player)| > 0
    requires player in clients.entries ==> clients.entries[player].lobbyIn != Some(id)
    ensures StateOk(lobbies.Set(id, LobbyAfterRemoval(lobbies.entries[id], player)), clients, next)
  {
    RemovalKeepsHost(lobbies.entries[id], player);
    RemoveFirstMembers(lobbies.entries[id].members, player);
    StoreKeepsState(lobbies, clients, next, id, LobbyAfterRemoval(lobbies.entries[id], player));
  }

  /** The lobby after the whole `ChangeLobbySettingsMessage` branch: the patch,
      then, when only `game_settings` was given, the new `max_players`. */
  function LobbyAfterSettings(l: Lobby, p: SettingsPatch): Lobby {
    var patched := PatchedLobby(l, p);
    if !TouchesLobbyFields(p) && p.gameSettings.To? && NewMaxPlayers(patched, p.gameSettings.value).Some?
    then patched.(maxPlayers := NewMaxPlayers(patched, p.gameSettings.value).value)
    else patched
  }

  /** `max_players` changes only through a patch that gives game settings and
      nothing else, and then takes the value of their `max_players` entry. */
  lemma {:induction false} MaxPlayersFollowsSettingsAlone(l: Lobby, p: SettingsPatch)
    ensures LobbyAfterSettings(l, p).maxPlayers != l.maxPlayers ==>
      && !TouchesLobbyFields(p) && p.gameSettings.To?
      && "max_players" in p.gameSettings.value.values
      && LobbyAfterSettings(l, p).maxPlayers == p.gameSettings.value.values["max_players"]
    ensures !TouchesLobbyFields(p) && p.gameSettings.To? && "max_players" in p.gameSettings.value.values ==>
      LobbyAfterSettings(l, p).maxPlayers == p.gameSettings.value.values["max_players"]
    ensures LobbyAfterSettings(l, p) == PatchedLobby(l, p).(maxPlayers := LobbyAfterSettings(l, p).maxPlayers)
    ensures LobbyInvariant(l) ==> LobbyInvariant(LobbyAfterSettings(l, p))
  {
  }

  /** Whether the settings branch sends the lobby's info to its players:
      some field of the patch is given. */
  predicate SettingsInformMembers(p: SettingsPatch) {
    TouchesLobbyFields(p) || p.gameSettings.To?
  }

  /** Whether the settings branch broadcasts the lobby list: a field other than
      `game_settings` is given, or only `game_settings` is and it changes
      `max_players`. */
  predicate SettingsBroadcast(l: Lobby, p: SettingsPatch) {
    TouchesLobbyFields(p) || (p.gameSettings.To? && NewMaxPlayers(PatchedLobby(l, p), p.gameSettings.value).Some?)
  }

  /** The default patch writes nothing and sends nothing. */
  lemma {:induction false} UnchangedPatchIsNoOp(l: Lobby)
    ensures PatchedLobby(l, DefaultChangeLobbySettings().patch) == l
    ensures LobbyAfterSettings(l, DefaultChangeLobbySettings().patch) == l
    ensures !TouchesLobbyFields(DefaultChangeLobbySettings().patch)
    ensures !SettingsInformMembers(DefaultChangeLobbySettings().patch)
    ensures !SettingsBroadcast(l, DefaultChangeLobbySettings().patch)
  {
  }

  /** After `lobbies[id] = l` the public list shows lobby `id` exactly when `l`
      is public, and shows every other lobby as before. */
  lemma {:induction false} StoredLobbyListed(lobbies: Dict<LobbyId, Lobby>, clients: map<ClientId, ConnectedClient>, id: LobbyId, l: Lobby)
    requires lobbies.Valid() && l.lobbyId == id
    requires forall k :: k in lobbies.entries ==> lobbies.entries[k].lobbyId == k
    ensures Lists(PublicLobbyInfos(lobbies.Set(id, l).keys, lobbies.Set(id, l).entries, clients), id) <==> IsPublic(l)
    ensures forall other :: other != id ==>
      (Lists(PublicLobbyInfos(lobbies.Set(id, l).keys, lobbies.Set(id, l).entries, clients), other) <==>
       Lists(PublicLobbyInfos(lobbies.keys, lobbies.entries, clients), other))
  {
    var stored := lobbies.Set(id, l);
    PublicListExact(stored.keys, stored.entries, clients);
    PublicListExact(lobbies.keys, lobbies.entries, clients);
  }

  /** The session `start_game` installs: the class registered under the
      selected game id, or `None` when no class is (the lookup raises). */
  function StartedGame(l: Lobby): (g: Option<GameServer>)
    ensures g.Some? <==> l.gameSelectedId in GameServersById()
    ensures g.Some? ==> g.value == NewGameServer(GameServersById()[l.gameSelectedId], l.gameSettings, l.host)
  {
    if l.gameSelectedId in GameServersById()
    then Some(NewGameServer(GameServersById()[l.gameSelectedId], l.gameSettings, l.host))
    else None
  }

  /** How many of `messages` are `CreateLobbyMessage`s. */
  function Creates(messages: seq<Message>): nat {
    if messages == [] then 0
    else Creates(messages[..|messages| - 1]) + (if messages[|messages| - 1].CreateLobby? then 1 else 0)
  }

  /** Whether the branch of `listen_to_client` for message `m` from `sender`
      raises: `lobby_in` is `None` where the branch dereferences it, the join
      indexes the lobby table with a stale id, a settings change or a kick
      looks up an id that is not connected, a kicked client is in no lobby, the
      removal of a leaving or kicked player hits `RemovalRaises`, or the last
      acknowledgement starts an unregistered game id. */
  predicate HandleRaises(lobbies: Dict<LobbyId, Lobby>, clients: Dict<ClientId, ConnectedClient>, sender: ClientId, m: Message) {
    var lobbyIn := LobbyOf(clients, sender);
    match m
    case GameData(_) => lobbyIn.None?
    case JoinLobby(lobbyId, _) => lobbyId !in lobbies.entries
    case LeaveLobby =>
      || lobbyIn.None?
      || (lobbyIn.value in lobbies.entries && RemovalRaises(lobbies.entries[lobbyIn.value], sender))
    case ChangeLobbySettings(p) => lobbyIn.None? || (p.hostId.To? && p.hostId.value !in clients.entries)
    case KickPlayerFromLobby(target) =>
      var targetIn := LobbyOf(clients, target);
      || targetIn.None?
      || (targetIn.value in lobbies.entries && RemovalRaises(lobbies.entries[targetIn.value], target))
    case NewChat(_) => lobbyIn.None?
    case StartGameStartTimer(_) => lobbyIn.None?
    case StartGame => lobbyIn.None?
    case GameInitialized =>
      || lobbyIn.None?
      || (lobbyIn.value in lobbies.entries &&
          var counted := lobbies.entries[lobbyIn.value].(initialized := lobbies.entries[lobbyIn.value].initialized + 1);
          counted.initialized >= |counted.members| && StartedGame(counted).None?)
    case _ => false
  }

  /** The lobby table after `remove_player(player)` on lobby `id`: the lobby is
      deleted when its last player has gone and updated otherwise. */
  function LobbiesAfterRemoval(lobbies: Dict<LobbyId, Lobby>, id: LobbyId, player: ClientId): (r: Dict<LobbyId, Lobby>)
    requires lobbies.Valid() && id in lobbies.entries
    ensures r.Valid()
  {
    if |RemoveFirst(lobbies.entries[id].members, player)| == 0 then lobbies.Remove(id)
    else lobbies.Set(id, LobbyAfterRemoval(lobbies.entries[id], player))
  }
}
