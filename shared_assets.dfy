/** The data shared by client and server: constants, the message records of
    the protocol, the "unchanged" sentinel of a settings patch, and each
    game's settings with their defaults. */
module SharedAssets {
  import opened Wrappers
  import opened Dicts

  const MaxChatMessages := 50

  type ClientId = int
  type LobbyId = int

  /** A setting's value. The source stores whatever the settings editor produced;
      the settings it declares are numbers and switches. */
  datatype Value = IntV(i: int) | BoolV(b: bool)

  /** `InputTypeIDs`: which editor the client shows for a setting. */
  datatype InputType = NoInput | NumberInput | SwitchInput

  /** One entry of `setting_info_list`: (text, input type, default value, ...).
      The fourth element, the editor's bounds, is not modelled. */
  datatype SettingInfo = SettingInfo(text: string, inputType: InputType, defaultValue: Value)

  /** An instance of a `Settings` class: its `settings` dictionary. */
  datatype Settings = Settings(values: map<string, Value>)

  /** `GameAssets.Settings.setting_info_list`. */
  function GameAssetsInfo(): Dict<string, SettingInfo> {
    FromPairs([
      ("max_players", SettingInfo("Max Players:", NumberInput, IntV(10))),
      ("other_setting", SettingInfo("Other Setting:", SwitchInput, BoolV(false)))])
  }

  /** `SnakeAssets.Settings.setting_info_list`: the base list updated with three entries. */
  function SnakeAssetsInfo(): Dict<string, SettingInfo> {
    GameAssetsInfo().Update([
      ("max_players", SettingInfo("Max Players:", NumberInput, IntV(2))),
      ("board_width", SettingInfo("Width of Board:", NumberInput, IntV(15))),
      ("board_height", SettingInfo("Height of Board:", NumberInput, IntV(15)))])
  }

  /** `PongAssets.Settings.setting_info_list`: the base list with a new `max_players`. */
  function PongAssetsInfo(): Dict<string, SettingInfo> {
    GameAssetsInfo().Update([
      ("max_players", SettingInfo("Max Players:", NumberInput, IntV(2)))])
  }

  /** `Settings()`: each setting of the info list at its default value. */
  function NewSettings(info: Dict<string, SettingInfo>): (s: Settings)
    ensures s.values.Keys == info.entries.Keys
    ensures forall name :: name in info.entries ==> s.values[name] == info.entries[name].defaultValue
  {
    Settings(map name | name in info.entries :: info.entries[name].defaultValue)
  }

  /** `set_setting(name, value)`: `name` takes `value` and every other setting is untouched. */
  function SetSetting(s: Settings, name: string, value: Value): (r: Settings)
    ensures r.values.Keys == s.values.Keys + {name}
    ensures r.values[name] == value
    ensures forall other :: other in s.values && other != name ==> r.values[other] == s.values[other]
  {
    Settings(s.values[name := value])
  }

  /** The base info list, entry by entry. */
  lemma {:induction false} GameInfoEntries()
    ensures GameAssetsInfo().keys == ["max_players", "other_setting"]
    ensures GameAssetsInfo().entries ==
      map["max_players" := SettingInfo("Max Players:", NumberInput, IntV(10)),
          "other_setting" := SettingInfo("Other Setting:", SwitchInput, BoolV(false))]
  {
    var maxPlayers := ("max_players", SettingInfo("Max Players:", NumberInput, IntV(10)));
    var other := ("other_setting", SettingInfo("Other Setting:", SwitchInput, BoolV(false)));
    var d1 := Empty().Set(maxPlayers.0, maxPlayers.1);
    assert Empty().Update([maxPlayers, other]) == d1.Update([other]) by {
      assert [maxPlayers, other][1..] == [other];
    }
    assert d1.Update([other]) == d1.Set(other.0, other.1) by {
      assert [other][1..] == [];
    }
  }

  lemma {:induction false} GameDefaults()
    ensures NewSettings(GameAssetsInfo()).values == map["max_players" := IntV(10), "other_setting" := BoolV(false)]
    ensures GameAssetsInfo().keys == ["max_players", "other_setting"]
  {
    GameInfoEntries();
  }

  /** Snake overrides `max_players` and adds the board size; `other_setting` is inherited. */
  lemma {:induction false} SnakeDefaults()
    ensures NewSettings(SnakeAssetsInfo()).values.Keys ==
      {"max_players", "other_setting", "board_width", "board_height"}
    ensures NewSettings(SnakeAssetsInfo()).values["max_players"] == IntV(2)
    ensures NewSettings(SnakeAssetsInfo()).values["other_setting"] == BoolV(false)
    ensures NewSettings(SnakeAssetsInfo()).values["board_width"] == IntV(15)
    ensures NewSettings(SnakeAssetsInfo()).values["board_height"] == IntV(15)
    ensures SnakeAssetsInfo().keys == ["max_players", "other_setting", "board_width", "board_height"]
  {
    SnakeInfoEntries();
  }

  /** Snake's info list is the base list with its three entries assigned in turn. */
  lemma {:induction false} SnakeInfoSteps()
    ensures SnakeAssetsInfo() ==
      GameAssetsInfo()
        .Set("max_players", SettingInfo("Max Players:", NumberInput, IntV(2)))
        .Set("board_width", SettingInfo("Width of Board:", NumberInput, IntV(15)))
        .Set("board_height", SettingInfo("Height of Board:", NumberInput, IntV(15)))
  {
    var maxPlayers := ("max_players", SettingInfo("Max Players:", NumberInput, IntV(2)));
    var width := ("board_width", SettingInfo("Width of Board:", NumberInput, IntV(15)));
    var height := ("board_height", SettingInfo("Height of Board:", NumberInput, IntV(15)));
    var d1 := GameAssetsInfo().Set(maxPlayers.0, maxPlayers.1);
    var d2 := d1.Set(width.0, width.1);
    assert GameAssetsInfo().Update([maxPlayers, width, height]) == d1.Update([width, height]) by {
      assert [maxPlayers, width, height][1..] == [width, height];
    }
    assert d1.Update([width, height]) == d2.Update([height]) by {
      assert [width, height][1..] == [height];
    }
    assert d2.Update([height]) == d2.Set(height.0, height.1) by {
      assert [height][1..] == [];
    }
  }

  /** Assigning `max_players` and then the two board entries to a list with
      the base keys keeps their order, appends the board keys, and leaves
      `other_setting` untouched. */
  lemma {:induction false} SnakeAssignments(base: Dict<string, SettingInfo>, maxPlayers: SettingInfo, width: SettingInfo, height: SettingInfo)
    requires base.Valid() && base.keys == ["max_players", "other_setting"]
    ensures base.Set("max_players", maxPlayers).Set("board_width", width).Set("board_height", height).keys ==
      ["max_players", "other_setting", "board_width", "board_height"]
    ensures base.Set("max_players", maxPlayers).Set("board_width", width).Set("board_height", height).entries ==
      base.entries["max_players" := maxPlayers]["board_width" := width]["board_height" := height]
  {
    assert "max_players" in base.entries;
    assert "board_width" !in base.entries && "board_width" != "max_players";
    assert "board_height" !in base.entries && "board_height" != "max_players" && "board_height" != "board_width";
  }

  lemma {:induction false} SnakeInfoEntries()
    ensures SnakeAssetsInfo().keys == ["max_players", "other_setting", "board_width", "board_height"]
    ensures SnakeAssetsInfo().entries["max_players"].defaultValue == IntV(2)
    ensures SnakeAssetsInfo().entries["other_setting"].defaultValue == BoolV(false)
    ensures SnakeAssetsInfo().entries["board_width"].defaultValue == IntV(15)
    ensures SnakeAssetsInfo().entries["board_height"].defaultValue == IntV(15)
  {
    SnakeInfoSteps();
    GameInfoEntries();
    SnakeAssignments(GameAssetsInfo(), SettingInfo("Max Players:", NumberInput, IntV(2)),
      SettingInfo("Width of Board:", NumberInput, IntV(15)), SettingInfo("Height of Board:", NumberInput, IntV(15)));
  }

  /** Pong overrides `max_players` only. */
  lemma {:induction false} PongDefaults()
    ensures NewSettings(PongAssetsInfo()).values == map["max_players" := IntV(2), "other_setting" := BoolV(false)]
    ensures PongAssetsInfo().keys == ["max_players", "other_setting"]
  {
    var maxPlayers := ("max_players", SettingInfo("Max Players:", NumberInput, IntV(2)));
    GameInfoEntries();
    assert GameAssetsInfo().Update([maxPlayers]) == GameAssetsInfo().Set(maxPlayers.0, maxPlayers.1) by {
      assert [maxPlayers][1..] == [];
    }
  }

  /** A field of `ChangeLobbySettingsMessage`: the sentinel `"unchanged"`, or a new value. */
  datatype Patch<T> = Unchanged | To(value: T)

  /** The five fields of `ChangeLobbySettingsMessage`. */
  datatype SettingsPatch = SettingsPatch(
    lobbyTitle: Patch<string>,
    private: Patch<bool>,
    hostId: Patch<ClientId>,
    gameId: Patch<Option<string>>,
    gameSettings: Patch<Settings>)

  /** `Client(username, client_id)`: the lightweight player record of `GameStartedMessage`. */
  datatype Client = Client(username: Option<string>, clientId: ClientId)

  /** A peer address, as `socket.accept` reports it. */
  datatype Address = Address(host: string, port: int)

  /** `Messages.LobbyInfo`. `private`, `chat` and `game_settings` are `None` unless included. */
  datatype LobbyInfo = LobbyInfo(
    lobbyId: LobbyId,
    lobbyTitle: string,
    host: (Option<string>, ClientId),
    players: seq<(Option<string>, ClientId)>,
    gameId: Option<string>,
    maxPlayers: Value,
    private: Option<bool>,
    chat: Option<seq<string>>,
    gameSettings: Option<Settings>)

  /** An opaque game payload. Only its kind matters to the server: Pong relays
      `BallHit` and `PaddleMove`. */
  datatype Payload =
    | BallHit(first: Option<seq<int>>, velocity: (int, int))
    | PaddleMove(body: seq<int>)
    | OtherPayload(body: seq<int>)

  /** The message records of `Messages`. */
  datatype Message =
    | Connected(address: Address, clientId: ClientId)
    | Disconnect
    | LobbyListRequest
    | LobbyList(lobbies: seq<LobbyInfo>)
    | CreateLobby(username: string, lobbyTitle: string, settings: Settings, private: bool)
    | JoinLobby(lobbyId: LobbyId, username: string)
    | KickedFromLobby(reason: Option<string>)
    | LeaveLobby
    | ChangeLobbySettings(patch: SettingsPatch)
    | LobbyInfoMessage(lobbyInfo: LobbyInfo)
    | KickPlayerFromLobby(clientId: ClientId)
    | NewChat(message: string)
    | StartGameStartTimer(startTime: int)
    | StartGame
    | GameStarted(clients: seq<Client>, hostClient: Client, gameId: Option<string>)
    | GameInitialized
    | GameData(data: Payload)
    | GameOver
    | ErrorMessage(error: Option<string>)

  /** `KickedFromLobbyMessage()`: the reason defaults to `None`. */
  function Kicked(): (m: Message)
    ensures m.KickedFromLobby? && m.reason == None
  {
    KickedFromLobby(None)
  }

  /** `ChangeLobbySettingsMessage()`: every field defaults to the sentinel. */
  function DefaultChangeLobbySettings(): (m: Message)
    ensures m.ChangeLobbySettings?
    ensures m.patch.lobbyTitle.Unchanged? && m.patch.private.Unchanged? && m.patch.hostId.Unchanged?
    ensures m.patch.gameId.Unchanged? && m.patch.gameSettings.Unchanged?
  {
    ChangeLobbySettings(SettingsPatch(Unchanged, Unchanged, Unchanged, Unchanged, Unchanged))
  }

  /** The class attribute `type` of each message record: the tag dispatch compares. */
  function TypeTag(m: Message): string {
    match m
    case Connected(_, _) => "connected"
    case Disconnect => "disconnect"
    case LobbyListRequest => "lobby_list_info_request"
    case LobbyList(_) => "lobby_list_info"
    case CreateLobby(_, _, _, _) => "create_lobby"
    case JoinLobby(_, _) => "join_lobby"
    case KickedFromLobby(_) => "kicked_from_lobby"
    case LeaveLobby => "leave_lobby"
    case ChangeLobbySettings(_) => "change_lobby_settings"
    case LobbyInfoMessage(_) => "lobby_info"
    case KickPlayerFromLobby(_) => "kick_player_from_lobby"
    case NewChat(_) => "chat_message"
    case StartGameStartTimer(_) => "start_game_start_timer_message"
    case StartGame => "start_game_message"
    case GameStarted(_, _, _) => "game_started_message"
    case GameInitialized => "game_initialized_message"
    case GameData(_) => "game_data_message"
    case GameOver => "game_over_message"
    case ErrorMessage(_) => "error"
  }

  /** `style`: only the lobby-list request is a `Request`. */
  function Style(m: Message): (s: string)
    ensures s == "request" <==> m.LobbyListRequest?
    ensures s == "request" || s == "message"
  {
    if m.LobbyListRequest? then "request" else "message"
  }
}
