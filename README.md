# Lobby server model

A Dafny model of the lobby orchestration of a small multiplayer game server
written in Python. Clients connect over TCP and receive the lowest free client
id. They then create, join and leave lobbies, chat, change lobby settings and
start a game. Once every player has acknowledged, the server runs a
game-specific session: the base `GameServer`, `SnakeServer` or `PongServer`.

The model has seven modules, one per file:

- `Wrappers`, `Sequences` (sequences.dfy): `Option` and the list operations
  the source uses: filtering out an id (`Without`), deleting the first
  occurrence (`RemoveFirst`), distinctness and increasing order.
- `Dicts` (dicts.dfy): Python's insertion-ordered `dict` as a key sequence
  plus a map. Assigning an existing key keeps its position, and `{**d, k: v}`
  assigns pair by pair.
- `SharedAssets` (shared_assets.dfy): the message records, the `"unchanged"`
  sentinel of `ChangeLobbySettingsMessage`, `max_chat_messages`, and the
  `Settings` classes with their defaults.
- `Outbox` (outbox.dfy): `server.send(client, message)`, abstracted as
  appending an envelope (recipient id, message) to an outbox.
- `GameServers` (server_assets.dfy): the game session as a value. It covers:
  - host transfer with its hook;
  - the disconnect handling;
  - the fan-out loops;
  - Pong's start and relay;
  - the id → class registry.
- `Lobbies` (lobbies.dfy): lobby and client records, lobby info, the chat,
  the public list and its recipients, and the settings patch. It also holds
  the consistency predicate of the two server tables and one lemma per
  operation showing that the operation keeps it.
- `LobbyServer` (server.dfy): class `Server`. Its fields are the lobby
  table, the client table, the lobby id counter and the outbox. It has one
  method per branch of the per-client dispatch loop, plus `remove_player`,
  `delete_lobby`, `send_lobbies_to_each_client` and the client id allocation.

The table consistency invariant (`Server.Valid`, i.e. `Lobbies.StateOk`) is
kept by every state-changing method. It says:

- every lobby has a player;
- every host is a player;
- no chat holds more than 50 lines;
- lobby ids are below the counter and increase in table order;
- every client whose `lobby_in` is set is a player of that lobby.

Each method states its exact new tables and the sends it appends to the
outbox, in terms of value-level functions (`ListBroadcast`, `InfoToMembers`,
`LobbiesAfterRemoval`, `LobbyAfterSettings`, ...). Lemmas state what those
functions mean; for example, the public list shows exactly the lobbies that
are neither private nor running a game (`PublicListExact`).

Lobbies, connected clients and game sessions are modelled as records keyed
by their id rather than as shared objects. A game session's player list
starts out as the very list object of its lobby. This is modelled by
`ClientList.SharedWithLobby`, and the first disconnect rebinds it to a list
of its own (`Own`).

## Model

| member | source | states |
|---|---|---|
| LobbyServer.Server.constructor | server/server.py:14-17 | both tables start empty, the lobby id counter at 0, and the state is consistent |
| Lobbies.NewLobby | server/server.py:19-37 | the host is the only player, no game is selected, max players is 10, the chat is empty, the count is 0, there is no game, and the lobby invariant holds |
| Lobbies.CreateKeepsState | server/server.py:17-21 | taking the counter as the new id and incrementing it keeps ids fresh, below the counter and increasing in table order |
| LobbyServer.Server.CreateLobby | server/server.py:217-221 | the sender takes the username, the new lobby is stored under the old counter with the sender as its only player, the counter grows by one, and the list is broadcast to everyone outside a lobby |
| Lobbies.WithLobbyHost | server/server.py:43-47 | only the host changes, and a running game gets the same new host through its own setter |
| GameServers.WithHost | server/server_assets.py:50-54 | the new host is stored, the hook is called with the previous host, and nothing else changes |
| LobbyServer.Server.DetachPlayer | server/server.py:50-54 | the result is the player list with the first entry of the player deleted, and only that client's `lobby_in` is cleared |
| Lobbies.Detached | server/server.py:50-54 | the client table keeps its keys and stays a well-formed dict |
| Lobbies.DetachKeepsState | server/server.py:50-54 | clearing the leaving player's `lobby_in` keeps the tables consistent, and the player no longer names the lobby |
| Lobbies.RemovalKeepsHost | server/server.py:49-61 | after the removal the players are the list without the first entry of the leaver; the host is the first remaining player if the leaver was host, and unchanged otherwise; the host is a player; the game stays present or absent |
| Lobbies.RemovalKeepsState | server/server.py:49-67 | updating a lobby that still has players keeps the tables consistent |
| Lobbies.EmptiedKeepsTables | server/server.py:56-57 | once the last player has left, no client names the lobby |
| LobbyServer.Server.DeleteEmptied | server/server.py:56-58 | the emptied lobby is deleted, nobody is kicked, and the list is broadcast to everyone outside a lobby except the leaver |
| LobbyServer.Server.StoreAfterRemoval | server/server.py:60-64 | the lobby is replaced by its post-removal value, and the tables stay consistent |
| LobbyServer.Server.KeepAfterRemoval | server/server.py:60-67 | the lobby is replaced by its post-removal value, every remaining player receives its full info, then the list is broadcast ignoring the leaver |
| LobbyServer.Server.SettleRemoval | server/server.py:56-67 | once the leaver is off the player list, the lobby table becomes `LobbiesAfterRemoval`, the clients are untouched, the remaining players (if any) receive the info, then the list is broadcast ignoring the leaver |
| LobbyServer.Server.RemovePlayer | server/server.py:49-67 | the lobby table becomes `LobbiesAfterRemoval`, the leaver's `lobby_in` is cleared, and the remaining players (if any) receive the info, then the list broadcast ignoring the leaver; consistency is kept |
| Lobbies.LobbiesAfterRemoval | server/server.py:56-67 | the lobby table after a removal stays a well-formed dict |
| Lobbies.PromotedAfterRemoval | server/server.py:49-61 | definition of the removal's first two steps, the first entry deleted and the host promoted; stated by `RemovalKeepsHost` |
| Lobbies.LobbyAfterRemoval | server/server.py:49-64 | definition of the lobby after `remove_player` when players remain; its meaning is stated by `RemovalKeepsHost` and `RemovalKeepsState` |
| GameServers.OnClientDisconnectPrivate | server/server_assets.py:24-29 | the session's own list is its old list with every entry of the leaver's id filtered out, the others kept in their order; if the host left, the first remaining client becomes host and both hooks fire in order; otherwise the host is unchanged; the leaver is never the new host |
| GameServers.DisconnectPrivateNewHost | server/server_assets.py:25-28 | when the host leaves and another client remains, the new host is the first client, in the session's old order, whose id is not the leaver's |
| GameServers.DisconnectPrivateCounts | server/server_assets.py:26 | every other client keeps its multiplicity and the leaver's drops to zero |
| Lobbies.LobbyInfoOf | server/server.py:69-84 | id, title, the host's `(username, id)` pair, one `(username, id)` pair per player in order, game id and max players are always set; private and game settings are present exactly when `include_in_lobby_info`; chat is present exactly when `include_chat` |
| Lobbies.PlayerTuples | server/server.py:74 | one `(username, id)` pair per player, in order |
| LobbyServer.Server.SendLobbyInfoToMembers | server/server.py:86-94 | the lobby's full info goes to each player in order, skipping the ignored one |
| Lobbies.InfoToMembers | server/server.py:86-94 | definition of the full info to each player of a lobby, nothing once the lobby is gone; used by `RemovePlayer` and `SettleRemoval` |
| LobbyServer.Server.SendEachExcept | server/server.py:91-94 | one message to each recipient other than the skipped one, in order |
| LobbyServer.Server.SendEach | server/server.py:283-284 | one message to each recipient, in order |
| Lobbies.StartedGame | server/server.py:101-105 | a session exists exactly when the selected game id is registered, and it is a fresh session of that class with the lobby's settings and host |
| LobbyServer.Server.StartGameSession | server/server.py:96-109 | the lobby gets the new session, the class's `on_game_start` sends follow, then the list is broadcast; an unregistered game id changes nothing |
| LobbyServer.Server.KickAll | server/server.py:185-187 | each player in turn receives `KickedFromLobbyMessage()` and has `lobby_in` cleared |
| Lobbies.LeaveLobbyIn | server/server.py:187 | clearing one client's `lobby_in` keeps the table's keys and order |
| Lobbies.LeaveAll | server/server.py:185-187 | clearing the players' `lobby_in` keeps the table's keys and order |
| Lobbies.LeaveAllAt | server/server.py:185-187 | exactly the listed players lose their lobby, and every other entry is untouched |
| Lobbies.DeleteKeepsState | server/server.py:184-189 | deleting a lobby after clearing its players keeps the tables consistent |
| Lobbies.DeleteEmptiedFacts | server/server.py:184-191 | for an emptied lobby the ignore list is exactly the leaver, nobody is kicked, and the deleted lobby's players receive no info |
| Lobbies.DeleteIgnoreList | server/server.py:191 | definition of the ignore list of `delete_lobby`; `DeleteEmptiedFacts` states it for an emptied lobby |
| LobbyServer.Server.DeleteLobby | server/server.py:184-191 | each player is kicked and leaves, the lobby leaves the table, and the list is broadcast ignoring the players plus `player_to_ignore` when given, nobody otherwise |
| LobbyServer.Server.SendLobbiesToEachClient | server/server.py:193-204 | exactly `ListBroadcast`: the public list to each client outside a lobby and not ignored, in table order |
| Lobbies.PublicListExact | server/server.py:200-201 | a lobby is listed exactly when it is in the table, not private and has no running game |
| Lobbies.PublicListEntries | server/server.py:200 | each listed entry is the short info of the lobby it names |
| Lobbies.IsPublic | server/server.py:200-201 | definition of the comprehension's filter, a lobby neither private nor in a game; its meaning is stated by `PublicListExact` and `StoredLobbyListed` |
| Lobbies.PublicLobbyInfos | server/server.py:200-201 | definition of the list comprehension; its meaning is stated by `PublicListExact` and `PublicListEntries` |
| Lobbies.LobbyListRecipients | server/server.py:202-203 | definition of the clients the list goes to; its meaning is stated by `RecipientsExact` |
| Lobbies.ListBroadcast | server/server.py:193-204 | definition of the sends of `send_lobbies_to_each_client`; `SendLobbiesToEachClient` is proved to append exactly these |
| Lobbies.StoredLobbyListed | server/server.py:200-201 | after a lobby is written into the table, it is listed exactly when it is public, and every other lobby is listed as before |
| Lobbies.RecipientsExact | server/server.py:202-203 | exactly the connected clients outside a lobby whose id is not ignored receive the list, each once |
| Lobbies.RecipientsStep | server/server.py:202-204 | one step of the broadcast loop appends at most the current client's envelope |
| LobbyServer.Server.ReceiveGameData | server/server.py:210-212 | the payload goes to the running game of the sender's lobby, and only what that game relays is sent |
| LobbyServer.Server.LobbyListRequest | server/server.py:214-215 | the sender alone receives the short info of every lobby, unfiltered |
| Lobbies.AllLobbyInfos | server/server.py:215 | one short info per lobby, in table order |
| Lobbies.JoinLookupAsWritten | server/server.py:224-227 | as written, the lookup finds a lobby exactly when the id is a key |
| Lobbies.StaleJoinRaises | server/server.py:224-227 | as written, a stale id is answered with the rejection and then raises KeyError |
| LobbyServer.Server.JoinLobby | server/server.py:223-231 | corrected: a stale id sends only the rejection and changes nothing. Otherwise the sender joins at the end of the player list, the list is broadcast and every player receives the info with the chat |
| LobbyServer.Server.AddPlayer | server/server.py:227-229 | the joiner's `lobby_in` and username are set, and the joiner is appended to the players |
| LobbyServer.Server.AnnounceJoin | server/server.py:230-231 | the list broadcast, then the full info with the chat to every player of the joined lobby, and nothing else |
| Lobbies.JoinKeepsState | server/server.py:227-229 | a join keeps the tables consistent |
| LobbyServer.Server.Disconnect | server/server.py:311-316 | the client leaves the table, then leaves its lobby if it was in one |
| Lobbies.DisconnectKeepsState | server/server.py:313 | deleting a client keeps the tables consistent |
| LobbyServer.Server.LeaveLobby | server/server.py:236-237 | the sender leaves its lobby, with the removal's sends; a sender in no lobby changes nothing |
| Lobbies.PatchedLobby | server/server.py:242-255 | each of the five fields is written exactly when it is not the sentinel. The host changes only to a current player (corrected), through the lobby's host setter; nothing else changes, and the invariant is kept |
| Lobbies.PatchHostAsWritten | server/server.py:248-249 | as written, any connected client id is installed as host |
| Lobbies.HostOutsideLobby | server/server.py:248-249 | as written, a connected client outside the lobby becomes host and the host-is-a-player invariant breaks |
| Lobbies.UnchangedPatchIsNoOp | server/server.py:242-266 | the all-sentinel patch changes no field, does not touch `max_players`, and sends neither the info nor the list |
| Lobbies.MaxPlayersFollowsSettingsAlone | server/server.py:257-266 | `max_players` changes only when the patch gives game settings and nothing else, and it then takes their `max_players` entry |
| Lobbies.LobbyAfterSettings | server/server.py:240-266 | definition of the lobby after a settings change; its meaning is stated by `PatchedLobby`, `UnchangedPatchIsNoOp` and `MaxPlayersFollowsSettingsAlone` |
| Lobbies.NewMaxPlayers | server/server.py:264-266 | definition of the `max_players` entry that differs from the lobby's, when there is one; used by `MaxPlayersFollowsSettingsAlone` and `ApplyMaxPlayers` |
| LobbyServer.Server.ChangeLobbySettings | server/server.py:239-266 | the lobby becomes `LobbyAfterSettings`; the players other than the old host receive the patched info if any field was given; the list is broadcast if a non-settings field was given or `max_players` changed |
| Lobbies.TouchesLobbyFields | server/server.py:255 | definition of the set test, some of title, privacy, host id and game id given; `UnchangedPatchIsNoOp` states that the default patch gives none |
| Lobbies.SettingsInformMembers | server/server.py:255-260 | definition of when the players receive the patched info, some field given; stated by `ChangeLobbySettings` and `UnchangedPatchIsNoOp` |
| Lobbies.SettingsBroadcast | server/server.py:255-264 | definition of when the list is broadcast, a non-settings field given or a new `max_players`; stated by `ChangeLobbySettings` and `UnchangedPatchIsNoOp` |
| LobbyServer.Server.ApplySettings | server/server.py:240-263 | the same as `ChangeLobbySettings`, for a known lobby |
| LobbyServer.Server.ApplyMaxPlayers | server/server.py:264-266 | a differing `max_players` entry is installed and the list is broadcast; otherwise nothing changes |
| LobbyServer.Server.StoreLobby | server/server.py:240-309 | writing fields of a lobby without changing its players keeps the state consistent |
| Lobbies.StoreKeepsState | server/server.py:240-309 | the same consistency fact, on values |
| LobbyServer.Server.Kick | server/server.py:268-271 | the target leaves its lobby with the removal's sends, then receives `KickedFromLobbyMessage()` |
| Lobbies.ChatLine | server/server.py:274-275 | the line is `"<" + username + "> " + text`, with `None` as `"None"` |
| Lobbies.UsernameText | server/server.py:274-275 | definition of `str(username)` in the chat format, with `None` as `"None"`; stated by `ChatLine` |
| Lobbies.ChatKeepsNewest | server/server.py:277-281 | the chat holds at most 50 lines, ends with the new line, and is the newest suffix of the old chat plus the line |
| Lobbies.ChatEvictsOldest | server/server.py:279-281 | on a full chat the new line evicts exactly the oldest |
| Lobbies.AppendChat | server/server.py:277-281 | definition of the chat after a line is appended and cut; its meaning is stated by `ChatKeepsNewest` and `ChatEvictsOldest` |
| LobbyServer.Server.Chat | server/server.py:273-284 | the sender's lobby chat becomes the truncated append, and every player receives the line |
| LobbyServer.Server.StartGameTimer | server/server.py:286-289 | every player of the sender's lobby except the sender receives the start time |
| Lobbies.Manifest | server/server.py:293-294 | one `Client(username, id)` per player, in order |
| LobbyServer.Server.StartGame | server/server.py:291-300 | every player receives the manifest, the host and the game id, and the initialized count restarts at 0 |
| LobbyServer.Server.GameInitialized | server/server.py:302-309 | the count goes up by one; once it reaches the number of players, a registered game starts with its sends and the list broadcast; otherwise only the count changes |
| LobbyServer.Server.CountInitialized | server/server.py:305-309 | the same as `GameInitialized`, for a known lobby |
| LobbyServer.Server.EndGame | server/server_assets.py:40-44 | the lobby forgets its game, the list is broadcast, then each of the game's clients receives one `GameOverMessage()` |
| LobbyServer.Server.Handle | server/server.py:206-316 | the state stays consistent; only a disconnect removes the sender; only a create advances the counter; server-only messages change nothing |
| LobbyServer.Server.Serve | server/server.py:206-316 | corrected: a message the source raises on does not end the loop, and `Handle` gives it the effect stated under Left out; messages are handled in order until the first disconnect, after which the client is gone; the counter grows by the number of creates handled |
| Lobbies.HandleRaises | server/server.py:206-309 | definition of the messages whose branch raises, given the tables: `lobby_in` is `None` where it is dereferenced, a stale join id, an unconnected host or kick target, a kicked client in no lobby, a leave or kick whose removal meets `RemovalRaises`, or the last acknowledgement for an unregistered game id |
| Lobbies.RemovalRaises | server/server_assets.py:24-28 | definition of the removals that raise IndexError: players remain, the game's host after the promotion at server/server.py:60-61 is the leaver, and the filtered list is empty; an instance is stated by `RepeatedHostRemovalRaises` |
| Lobbies.RepeatedHostRemovalRaises | server/server.py:49-64 | a host listed twice in its lobby, whose game shares the lobby's list, raises on its removal: its own second entry is promoted, so the game's host is still the leaver and its filtered list is empty |
| LobbyServer.Server.ServeAsWritten | server/server.py:206-316 | as written: the first message that raises ends the worker, the client stays registered, and nothing after it is read; a raising first message is the only one handled |
| LobbyServer.RaiseStrandsClient | server/server.py:206-237 | a fresh client in no lobby that sends a leave and then a create: as written, one message is handled, no lobby is created and the client stays registered; corrected, both are handled and one lobby is created |
| LobbyServer.Server.LowestFreeClientId | server/server.py:330-332 | the id is the lowest non-negative integer that is not a key of the client table |
| LobbyServer.Server.Accept | server/server.py:324-335 | the client is registered under the lowest free id with no username and no lobby, and receives `ConnectedMessage(address, id)` |
| Lobbies.AcceptKeepsState | server/server.py:333 | adding a client with no lobby keeps the tables consistent |
| GameServers.RegistryContents | server/server_assets.py:115-116 | the registry maps `None` to GameServer, `"snake"` to SnakeServer and `"pong"` to PongServer, and nothing else |
| GameServers.GameIdOf | application/shared_assets.py:186-217 | definition of each class's `asset_class.game_id`: `None`, `"snake"` and `"pong"`; stated by `RegistryContents` |
| GameServers.GameServersById | server/server_assets.py:116 | definition of the registry; its contents are stated by `RegistryContents` |
| GameServers.NewGameServer | server/server_assets.py:60-77 | a new session runs, has the given settings and host, no hook calls, and shares its lobby's player list |
| GameServers.ClientsOf | server/server_assets.py:60-77 | definition of the list `self.clients` denotes: the lobby's current players while shared, the session's own list after a disconnect |
| GameServers.SendDataToAll | server/server_assets.py:36-38 | exactly one `GameDataMessage` with the same data to each client, in list order |
| GameServers.PongStartVelocity | server/server_assets.py:103-104 | the vertical speed is 6, and the first two clients get `(-6, 6)` and `(6, 6)` |
| GameServers.PongOnGameStart | server/server_assets.py:101-104 | the client at index `i` receives a `BallHit` with velocity `PongStartVelocity(i)`, one each, in order |
| GameServers.PongOnDataReceived | server/server_assets.py:106-112 | a `BallHit` or `PaddleMove` goes to every client whose id differs from the sender's, in order; anything else goes nowhere |
| GameServers.OnGameStart | server/server_assets.py:79-104 | only a Pong session sends at start, one ball per client |
| GameServers.GameStartSends | server/server_assets.py:79-104 | definition of what `on_game_start` sends; `OnGameStart` is proved to return exactly these |
| GameServers.OnDataReceived | server/server_assets.py:82-112 | only a Pong session relays, and only ball hits and paddle moves, to everyone but the sender |
| GameServers.Relayed | server/server_assets.py:82-112 | definition of what `on_data_received` sends; `OnDataReceived` is proved to return exactly these |
| SharedAssets.NewSettings | application/shared_assets.py:197-200 | the settings have exactly the info list's names, each at its default value (element 2) |
| SharedAssets.SetSetting | application/shared_assets.py:202-203 | the named setting takes the value and every other setting is untouched |
| SharedAssets.GameInfoEntries | application/shared_assets.py:191-194 | the base info list has the keys `max_players`, `other_setting` in that order, with defaults 10 and False |
| SharedAssets.GameAssetsInfo | application/shared_assets.py:191-194 | definition of the base info list; its keys and defaults are stated by `GameInfoEntries` |
| SharedAssets.GameDefaults | application/shared_assets.py:189-200 | the base defaults are `max_players = 10` and `other_setting = False`, in that order |
| SharedAssets.SnakeInfoSteps | application/shared_assets.py:209-214 | Snake's info list is the base list with `max_players`, `board_width`, `board_height` assigned in that order |
| SharedAssets.SnakeAssignments | application/shared_assets.py:209-214 | over a base list with the keys `max_players`, `other_setting`, those three assignments keep the two base keys in place, append `board_width` and `board_height`, and give each assigned key its new entry |
| SharedAssets.SnakeAssetsInfo | application/shared_assets.py:209-214 | definition of Snake's info list; its keys and defaults are stated by `SnakeInfoSteps` and `SnakeInfoEntries` |
| SharedAssets.PongAssetsInfo | application/shared_assets.py:220-223 | definition of Pong's info list; its defaults are stated by `PongDefaults` |
| SharedAssets.SnakeInfoEntries | application/shared_assets.py:208-214 | Snake's info list has the keys `max_players`, `other_setting`, `board_width`, `board_height` in that order, with defaults 2, False, 15, 15 |
| SharedAssets.SnakeDefaults | application/shared_assets.py:208-214 | Snake's settings are `max_players = 2`, `board_width = board_height = 15`, plus the inherited `other_setting = False` |
| SharedAssets.PongDefaults | application/shared_assets.py:219-223 | Pong's settings are `max_players = 2` and the inherited `other_setting = False` |
| Dicts.UpdateLookup | application/shared_assets.py:209-214 | in `{**base, pairs}` a key given by the pairs takes its last value, and any other key keeps its base value |
| Dicts.UpdateKeepsOrder | application/shared_assets.py:209-214 | in `{**base, pairs}` the base keys keep their positions, and new keys follow |
| SharedAssets.Kicked | application/shared_assets.py:98-99 | `KickedFromLobbyMessage()` has no reason |
| SharedAssets.DefaultChangeLobbySettings | application/shared_assets.py:104-114 | a default `ChangeLobbySettingsMessage` has all five fields at the sentinel |
| SharedAssets.Style | application/shared_assets.py:35-41 | only the lobby-list request has the `"request"` style; every other message is a `"message"` |
| SharedAssets.TypeTag | application/shared_assets.py:35-168 | definition of each record's `type` attribute |

## Left out

- Sockets, `pickle` framing, `recv`, error printing, the console thread and the port prompt are not modelled. `send` appends to the outbox, and a send never fails.
- Threads and the missing locking are not modelled. Each dispatch step runs to completion. `on_game_start`'s sends come before `start_game`'s list broadcast, although the source runs them in a thread of their own.
- `GameServer.call_on_frame`, `time.time`, `sleep`, FPS and `start_time` are not modelled. `end_game`'s `game_running = False` only stops that loop, so the model drops the session from its lobby instead.
- `send_data` called with a list of clients is not modelled; every call site passes one client.
- Object identity is not modelled: lobbies, clients and sessions are records keyed by id, and a lobby's players are ids looked up in the client table. The source does not check `lobby_in` on a create or a join, so a client can end up a player of two lobbies; on disconnect it leaves only the one its `lobby_in` names. The other lobby keeps its id, and once a new connection reuses that id, the source's lobby still holds the old object with its old username, while the model's `LobbyInfoOf`, `PlayerTuples` and `Manifest` show the new client's username (or `None` while the id is free).
- When the source raises in a dispatch branch (the cases of `Lobbies.HandleRaises`), that client's worker ends; `ServeAsWritten` models this, while `Serve` goes on to the next message (see Findings). `Handle` then changes nothing, with four exceptions: the stale join's rejection is sent and the initialized count stays incremented when `start_game` raises, both as in the source; a settings change naming an unconnected host id applies the rest of the patch and sends as `ChangeLobbySettings` states, where the source writes only the title and the privacy flag before raising; and a leave or kick that meets `RemovalRaises` performs the whole removal with its sends (and the kick's `KickedFromLobbyMessage()`), where the source stops after removing the entry, promoting the host and filtering the game's list.
- LobbyServer.Server.Disconnect: when the teardown's removal meets `Lobbies.RemovalRaises`, the source raises after removing the entry, promoting the host and filtering the game's list, and sends nothing more; the model completes the removal and sends the info and the list.
- Dispatch is on the message constructor. The source compares a `name` attribute, which the message classes in application/shared_assets.py do not declare, and which the success log lines of `Server.send` and `Server.recv` (server/server.py:158, 178) also read outside any `try`, so as written every send and receive would raise; the `type` tag is given by `SharedAssets.TypeTag`.
- LobbyServer.Server.Serve: handles one client's messages in isolation; interleaving with other clients' sessions is not modelled.
- LobbyServer.Server.ServeAsWritten: the message it stops at takes the effect `Handle` gives it; for a settings change naming an unconnected host id that is the whole corrected patch, where the source had written only the title and the privacy flag before raising, and for a leave or kick that meets `Lobbies.RemovalRaises` it is the whole removal with its sends. Its contract names the raising message only when it is the first one.
- LobbyServer.Server.EndGame: modelled as an event the game raises on its own; no game in the model calls it. It takes only the lobby id, so two cases of the source are not captured: a session orphaned when its lobby is deleted (server/server.py:56-58 neither stops nor clears it) would still broadcast the list and send `GameOverMessage()` to its own clients, while the model does nothing for an id not in the table; and a session replaced by a second `start_game` would clear the lobby's new game and send `GameOverMessage()` to its own clients, while the model names a session by its lobby and so can end only the game the lobby holds.
- LobbyServer.Server.Handle: states only the summary effect of each message; the per-branch methods it calls state the exact tables and sends.
- LobbyServer.Server.GameInitialized: acknowledgements are not deduplicated, and `start_game` fires again on later acknowledgements, as in the source.
- LobbyServer.Server.Kick: who sends a kick or a settings change is not checked, as in the source.
- Lobbies.PatchedLobby: a host id that is not a player of the lobby is ignored. The source installs any connected client and raises for an unknown id (see Findings).
- Lobbies.LobbiesAfterRemoval: its own contract only says the result is a well-formed dict. What it means is stated by `RemovePlayer` and `RemovalKeepsHost`.
- GameServers.OnClientDisconnectPrivate: when the host leaves a session with no other client, the source raises IndexError. The model leaves the host unchanged and still records the disconnect hook.
- The `"unchanged"` sentinel is a string the source compares against. A real title `"unchanged"` would read as "not given"; the model's `Patch.Unchanged` cannot collide.
- Setting values are integers and switches. The settings editor's labels, input types and min/max bounds are kept only as data, and the bounds are not enforced.
- Game payloads are opaque: only Pong's `BallHit` and `PaddleMove` kinds are distinguished.
- The client program is not part of this model.

## Findings

| source | as written | input that shows it | evidently intended | confidence | as-written member | corrected member |
|---|---|---|---|---|---|---|
| server/server.py:224-227 | after answering a stale lobby id with "Lobby no longer exists.", the branch falls through and indexes `lobbies` with that id | `JoinLobbyMessage` with a lobby id that is not a key of `lobbies` (the lobby was deleted after the client saw the list) | return after the rejection, changing nothing | high, not executed | Lobbies.StaleJoinRaises | LobbyServer.Server.JoinLobby |
| server/server.py:248-249 | the new host is looked up among all connected clients | lobby 0 with only player 0, then a patch with `host_id` 1, where client 1 is connected but not a player | only a player of the lobby may become host, so the host stays a player | medium, not executed | Lobbies.HostOutsideLobby | Lobbies.PatchedLobby |
| server/server.py:206-316 | `listen_to_client` catches nothing: the first branch that raises ends the client's worker, later messages are never read, and the teardown at lines 313-316 never runs, so the client stays in `clients_connected` and in its lobby | a client in no lobby sends `LeaveLobbyMessage`, then `CreateLobbyMessage` (`LobbyServer.RaiseStrandsClient`) | an illegal message is ignored and the worker goes on, as the file's own note about handling errors asks | medium, not executed | LobbyServer.Server.ServeAsWritten | LobbyServer.Server.Serve |
