/** The lobby server: the lobby table and the client table, the lobby
    operations, the lobby-list broadcast and one method per branch of the
    per-client dispatch loop. Each dispatch step runs to completion before
    the next one starts. */
module LobbyServer {
  import opened Wrappers
  import opened Sequences
  import opened Dicts
  import opened SharedAssets
  import opened Outbox
  import opened GameServers
  import opened Lobbies

  class Server {
    /** `lobbies`. */
    var lobbies: Dict<LobbyId, Lobby>
    /** `clients_connected`. */
    var clients: Dict<ClientId, ConnectedClient>
    /** `Lobby.available_lobby_id`. */
    var availableLobbyId: nat
    /** Every `server.send`, in order. */
    var outbox: seq<Envelope>

    ghost predicate Valid()
      reads this`lobbies, this`clients, this`availableLobbyId
    {
      StateOk(lobbies, clients, availableLobbyId)
    }

    constructor ()
      ensures Valid()
      ensures lobbies == Empty() && clients == Empty() && availableLobbyId == 0 && outbox == []
    {
      lobbies := Empty();
      clients := Empty();
      availableLobbyId := 0;
      outbox := [];
    }

    /** The id `listen_for_clients` gives a new client: the lowest non-negative
        integer that is not a key of `clients_connected`. */
    method LowestFreeClientId() returns (id: ClientId)
      ensures 0 <= id && id !in clients.entries
      ensures forall k :: 0 <= k < id ==> k in clients.entries
    {
      id := 0;
      while id in clients.entries
        invariant 0 <= id
        invariant forall k :: 0 <= k < id ==> k in clients.entries
        decreases set k | k in clients.entries && k >= id
      {
        ghost var before := set k | k in clients.entries && k >= id;
        id := id + 1;
        assert (set k | k in clients.entries && k >= id) < before by {
          assert id - 1 in before;
        }
      }
    }

    /** One accepted connection: register the client under the lowest free id
        and send it `ConnectedMessage(address, client_id)`. */
    method Accept(address: Address) returns (id: ClientId)
      requires Valid()
      modifies this
      ensures Valid()
      ensures 0 <= id && id !in old(clients.entries)
      ensures forall k :: 0 <= k < id ==> k in old(clients.entries)
      ensures clients == old(clients).Set(id, ConnectedClient(id, address, None, None))
      ensures lobbies == old(lobbies) && availableLobbyId == old(availableLobbyId)
      ensures outbox == old(outbox) + [Envelope(id, Connected(address, id))]
    {
      id := LowestFreeClientId();
      AcceptKeepsState(lobbies, clients, availableLobbyId, id, address);
      clients := clients.Set(id, ConnectedClient(id, address, None, None));
      outbox := outbox + [Envelope(id, Connected(address, id))];
    }

    /** `for member in recipients: server.send(member, message)`. */
    method SendEach(recipients: seq<ClientId>, message: Message)
      modifies this`outbox
      ensures outbox == old(outbox) + SendAll(recipients, message)
    {
      for i := 0 to |recipients|
        invariant outbox == old(outbox) + SendAll(recipients[..i], message)
      {
        SendAllStep(recipients, i, message);
        outbox := outbox + [Envelope(recipients[i], message)];
      }
      assert recipients[..|recipients|] == recipients;
    }

    /** `send_lobbies_to_each_client(ignore)`. */
    method SendLobbiesToEachClient(ignore: seq<ClientId>)
      modifies this`outbox
      ensures outbox == old(outbox) + ListBroadcast(lobbies, clients, ignore)
    {
      var lobbiesToSend := PublicLobbyInfos(lobbies.keys, lobbies.entries, clients.entries);
      var keys := clients.keys;
      for i := 0 to |keys|
        invariant outbox == old(outbox) + SendAll(LobbyListRecipients(keys[..i], clients.entries, ignore), LobbyList(lobbiesToSend))
      {
        RecipientsStep(keys, i, clients.entries, ignore, LobbyList(lobbiesToSend));
        if keys[i] in clients.entries && clients.entries[keys[i]].lobbyIn.None? && keys[i] !in ignore {
          outbox := outbox + [Envelope(keys[i], LobbyList(lobbiesToSend))];
        }
      }
      assert keys[..|keys|] == keys;
    }

    /** `for member in recipients: if member != skip: server.send(member, message)`. */
    method SendEachExcept(recipients: seq<ClientId>, skip: ClientId, message: Message)
      modifies this`outbox
      ensures outbox == old(outbox) + SendAll(Without(recipients, skip), message)
    {
      for i := 0 to |recipients|
        invariant outbox == old(outbox) + SendAll(Without(recipients[..i], skip), message)
      {
        WithoutStep(recipients, i, skip);
        if recipients[i] != skip {
          SendAllSnoc(Without(recipients[..i], skip), recipients[i], message);
          outbox := outbox + [Envelope(recipients[i], message)];
        }
      }
      assert recipients[..|recipients|] == recipients;
    }

    /** `send_lobby_info_to_members(players_to_ignore, include_chat)`: every
        player except `skip` receives the lobby's full info. */
    method SendLobbyInfoToMembers(id: LobbyId, skip: Option<ClientId>, includeChat: bool)
      requires id in lobbies.entries
      modifies this`outbox
      ensures outbox == old(outbox) + SendAll(
        if skip.Some? then Without(lobbies.entries[id].members, skip.value) else lobbies.entries[id].members,
        LobbyInfoMessage(LobbyInfoOf(lobbies.entries[id], clients.entries, true, includeChat)))
    {
      var members := lobbies.entries[id].members;
      var message := LobbyInfoMessage(LobbyInfoOf(lobbies.entries[id], clients.entries, true, includeChat));
      if skip.None? {
        SendEach(members, message);
      } else {
        SendEachExcept(members, skip.value, message);
      }
    }

    /** The loop of `delete_lobby`: each player in turn is sent
        `KickedFromLobbyMessage()` and its `lobby_in` is cleared. */
    method KickAll(members: seq<ClientId>)
      requires clients.Valid()
      modifies this`clients, this`outbox
      ensures clients == LeaveAll(old(clients), members)
      ensures outbox == old(outbox) + SendAll(members, Kicked())
    {
      for i := 0 to |members|
        invariant clients == LeaveAll(old(clients), members[..i])
        invariant outbox == old(outbox) + SendAll(members[..i], Kicked())
      {
        SendAllStep(members, i, Kicked());
        outbox := outbox + [Envelope(members[i], Kicked())];
        assert members[..i + 1][..i] == members[..i];
        clients := LeaveLobbyIn(clients, members[i]);
      }
      assert members[..|members|] == members;
    }

    /** `delete_lobby(lobby, player_to_ignore)` for the lobby `l`: each of its
        players is sent `KickedFromLobbyMessage()` and leaves the lobby, the
        lobby is removed from the table, and the list is broadcast, ignoring
        the players and `playerToIgnore` when one is given (nobody otherwise). */
    method DeleteLobby(l: Lobby, playerToIgnore: Option<ClientId>)
      requires Valid() && l.lobbyId in lobbies.entries
      requires forall c :: c in clients.entries && clients.entries[c].lobbyIn == Some(l.lobbyId) ==> c in l.members
      modifies this`lobbies, this`clients, this`outbox
      ensures Valid()
      ensures lobbies == old(lobbies).Remove(l.lobbyId)
      ensures clients == LeaveAll(old(clients), l.members)
      ensures outbox == old(outbox) + SendAll(l.members, Kicked()) + ListBroadcast(lobbies, clients, DeleteIgnoreList(l.members, playerToIgnore))
    {
      DeleteKeepsState(lobbies, clients, availableLobbyId, l);
      KickAll(l.members);
      lobbies := lobbies.Remove(l.lobbyId);
      assert Valid();
      SendLobbiesToEachClient(DeleteIgnoreList(l.members, playerToIgnore));
    }

    /** The loop of `remove_player`: the first entry of `player` is deleted from
        the lobby's list and that client's `lobby_in` is cleared. */
    method DetachPlayer(id: LobbyId, player: ClientId) returns (remaining: seq<ClientId>)
      requires clients.Valid() && id in lobbies.entries
      modifies this`clients
      ensures remaining == RemoveFirst(lobbies.entries[id].members, player)
      ensures clients == Detached(old(clients), lobbies.entries[id].members, player)
    {
      var members := lobbies.entries[id].members;
      remaining := members;
      var i := 0;
      while i < |members|
        invariant 0 <= i <= |members| && clients == old(clients) && remaining == members
        invariant forall j :: 0 <= j < i ==> members[j] != player
      {
        if members[i] == player {
          clients := LeaveLobbyIn(clients, player);
          assert i == FirstIndex(members, player);
          remaining := members[..i] + members[i + 1..];
          break;
        }
        i := i + 1;
      }
    }

    /** The end of `remove_player` when the last player has gone: the emptied
        lobby is deleted, ignoring the player who left. */
    method DeleteEmptied(id: LobbyId, player: ClientId)
      requires Valid() && id in lobbies.entries
      requires |RemoveFirst(lobbies.entries[id].members, player)| == 0
      requires player in clients.entries ==> clients.entries[player].lobbyIn != Some(id)
      modifies this`lobbies, this`clients, this`outbox
      ensures Valid()
      ensures lobbies == LobbiesAfterRemoval(old(lobbies), id, player) == old(lobbies).Remove(id)
      ensures clients == old(clients)
      ensures outbox == old(outbox) + InfoToMembers(lobbies, clients, id) + ListBroadcast(lobbies, clients, [player])
    {
      EmptiedKeepsTables(lobbies, clients, availableLobbyId, id, player);
      DeleteEmptiedFacts(lobbies, clients, id, player, outbox);
      DeleteLobby(lobbies.entries[id].(members := []), Some(player));
    }

    /** The end of `remove_player` when some player remains: the host is
        promoted if need be, the game is told, the players get the lobby's info
        and the list is broadcast, ignoring the player who left. */
    method KeepAfterRemoval(id: LobbyId, player: ClientId)
      requires Valid() && id in lobbies.entries
      requires |RemoveFirst(lobbies.entries[id].members, player)| > 0
      requires player in clients.entries ==> clients.entries[player].lobbyIn != Some(id)
      modifies this`lobbies, this`clients, this`outbox
      ensures Valid()
      ensures lobbies == LobbiesAfterRemoval(old(lobbies), id, player) == old(lobbies).Set(id, LobbyAfterRemoval(old(lobbies.entries[id]), player))
      ensures clients == old(clients)
      ensures outbox == old(outbox) + InfoToMembers(lobbies, clients, id) + ListBroadcast(lobbies, clients, [player])
    {
      StoreAfterRemoval(id, player);
      SendLobbyInfoToMembers(id, None, false);
      SendLobbiesToEachClient([player]);
    }

    /** `lobbies[id]` after `remove_player(player)` when some player remains. */
    method StoreAfterRemoval(id: LobbyId, player: ClientId)
      requires Valid() && id in lobbies.entries
      requires |RemoveFirst(lobbies.entries[id].members, player)| > 0
      requires player in clients.entries ==> clients.entries[player].lobbyIn != Some(id)
      modifies this`lobbies
      ensures Valid()
      ensures lobbies == old(lobbies).Set(id, LobbyAfterRemoval(old(lobbies.entries[id]), player))
    {
      RemovalKeepsState(lobbies, clients, availableLobbyId, id, player);
      lobbies := lobbies.Set(id, LobbyAfterRemoval(lobbies.entries[id], player));
    }

    /** `Lobby.remove_player(player)` on lobby `id`. */
    method RemovePlayer(id: LobbyId, player: ClientId)
      requires Valid() && id in lobbies.entries
      modifies this`lobbies, this`clients, this`outbox
      ensures Valid()
      ensures lobbies == LobbiesAfterRemoval(old(lobbies), id, player)
      ensures clients == Detached(old(clients), old(lobbies.entries[id].members), player)
      ensures outbox == old(outbox) + InfoToMembers(lobbies, clients, id) + ListBroadcast(lobbies, clients, [player])
    {
      DetachKeepsState(lobbies, clients, availableLobbyId, id, player);
      var remaining := DetachPlayer(id, player);
      SettleRemoval(id, player);
    }

    /** What `remove_player` does once `player` has left `id`'s player list:
        the emptied lobby is deleted, any other is stored and informed. */
    method SettleRemoval(id: LobbyId, player: ClientId)
      requires Valid() && id in lobbies.entries
      requires player in clients.entries ==> clients.entries[player].lobbyIn != Some(id)
      modifies this`lobbies, this`clients, this`outbox
      ensures Valid()
      ensures lobbies == LobbiesAfterRemoval(old(lobbies), id, player)
      ensures clients == old(clients)
      ensures outbox == old(outbox) + InfoToMembers(lobbies, clients, id) + ListBroadcast(lobbies, clients, [player])
    {
      if |RemoveFirst(lobbies.entries[id].members, player)| == 0 {
        DeleteEmptied(id, player);
      } else {
        KeepAfterRemoval(id, player);
      }
    }

    /** The `LobbyListRequest` branch: the sender receives the short info of
        every lobby, private and running ones included, in table order. */
    method LobbyListRequest(sender: ClientId)
      requires Valid()
      modifies this`outbox
      ensures outbox == old(outbox) + [Envelope(sender, LobbyList(AllLobbyInfos(lobbies.keys, lobbies.entries, clients.entries)))]
    {
      var infos := AllLobbyInfos(lobbies.keys, lobbies.entries, clients.entries);
      outbox := outbox + [Envelope(sender, LobbyList(infos))];
    }

    /** The `CreateLobbyMessage` branch: the sender takes the username, hosts a
        new lobby under the next lobby id and is its only player; then the list
        is broadcast. */
    method CreateLobby(sender: ClientId, username: string, title: string, settings: Settings, private: bool)
      requires Valid() && sender in clients.entries
      modifies this
      ensures Valid()
      ensures old(availableLobbyId) !in old(lobbies.entries)
      ensures availableLobbyId == old(availableLobbyId) + 1
      ensures lobbies == old(lobbies).Set(old(availableLobbyId), NewLobby(old(availableLobbyId), sender, settings, title, private))
      ensures clients == old(clients).Set(sender,
        old(clients.entries[sender]).(username := Some(username), lobbyIn := Some(old(availableLobbyId))))
      ensures outbox == old(outbox) + ListBroadcast(lobbies, clients, [])
    {
      CreateKeepsState(lobbies, clients, availableLobbyId, sender, username, settings, title, private);
      var id := availableLobbyId;
      availableLobbyId := id + 1;
      lobbies := lobbies.Set(id, NewLobby(id, sender, settings, title, private));
      clients := clients.Set(sender, clients.entries[sender].(username := Some(username), lobbyIn := Some(id)));
      SendLobbiesToEachClient([]);
    }

    /** The `JoinLobbyMessage` branch, with the missing `return` after the
        rejection restored: a lobby that no longer exists is answered with
        `KickedFromLobbyMessage("Lobby no longer exists.")` and nothing else
        happens. Otherwise the sender takes the username and joins at the end of
        the player list, the list is broadcast and the players receive the full
        info with the chat. */
    method JoinLobby(sender: ClientId, lobbyId: LobbyId, username: string)
      requires Valid() && sender in clients.entries
      modifies this`lobbies, this`clients, this`outbox
      ensures Valid()
      ensures lobbyId !in old(lobbies.entries) ==>
        && lobbies == old(lobbies) && clients == old(clients)
        && outbox == old(outbox) + [Envelope(sender, KickedFromLobby(Some(NoLongerExists)))]
      ensures lobbyId in old(lobbies.entries) ==>
        && lobbies == old(lobbies).Set(lobbyId, old(lobbies.entries[lobbyId]).(members := old(lobbies.entries[lobbyId].members) + [sender]))
        && clients == old(clients).Set(sender, old(clients.entries[sender]).(lobbyIn := Some(lobbyId), username := Some(username)))
        && outbox == old(outbox) + ListBroadcast(lobbies, clients, [])
             + SendAll(lobbies.entries[lobbyId].members, LobbyInfoMessage(LobbyInfoOf(lobbies.entries[lobbyId], clients.entries, true, true)))
    {
      if lobbyId !in lobbies.entries {
        outbox := outbox + [Envelope(sender, KickedFromLobby(Some(NoLongerExists)))];
        return;
      }
      AddPlayer(sender, lobbyId, username);
      AnnounceJoin(lobbyId);
    }

    /** The sends of a successful join: the list broadcast, then the full info
        with the chat to every player. */
    method AnnounceJoin(lobbyId: LobbyId)
      requires lobbyId in lobbies.entries
      modifies this`outbox
      ensures outbox == old(outbox) + ListBroadcast(lobbies, clients, [])
        + SendAll(lobbies.entries[lobbyId].members, LobbyInfoMessage(LobbyInfoOf(lobbies.entries[lobbyId], clients.entries, true, true)))
    {
      SendLobbiesToEachClient([]);
      SendLobbyInfoToMembers(lobbyId, None, true);
    }

    /** The assignments of a successful join. */
    method AddPlayer(sender: ClientId, lobbyId: LobbyId, username: string)
      requires Valid() && sender in clients.entries && lobbyId in lobbies.entries
      modifies this`lobbies, this`clients
      ensures Valid()
      ensures lobbies == old(lobbies).Set(lobbyId, old(lobbies.entries[lobbyId]).(members := old(lobbies.entries[lobbyId].members) + [sender]))
      ensures clients == old(clients).Set(sender, old(clients.entries[sender]).(lobbyIn := Some(lobbyId), username := Some(username)))
    {
      JoinKeepsState(lobbies, clients, availableLobbyId, sender, lobbyId, username);
      clients := clients.Set(sender, clients.entries[sender].(lobbyIn := Some(lobbyId), username := Some(username)));
      lobbies := lobbies.Set(lobbyId, lobbies.entries[lobbyId].(members := lobbies.entries[lobbyId].members + [sender]));
    }

    /** The end of the session after `DisconnectMessage`: the client is deleted
        from `clients_connected`, then leaves its lobby if it is in one. */
    method Disconnect(sender: ClientId)
      requires Valid() && sender in clients.entries
      modifies this`lobbies, this`clients, this`outbox
      ensures Valid()
      ensures clients == old(clients).Remove(sender)
      ensures LobbyOf(old(clients), sender).None? ==> lobbies == old(lobbies) && outbox == old(outbox)
      ensures LobbyOf(old(clients), sender).Some? ==>
        && LobbyOf(old(clients), sender).value in old(lobbies.entries)
        && lobbies == LobbiesAfterRemoval(old(lobbies), LobbyOf(old(clients), sender).value, sender)
        && outbox == old(outbox) + InfoToMembers(lobbies, clients, LobbyOf(old(clients), sender).value) + ListBroadcast(lobbies, clients, [sender])
    {
      var lobbyIn := clients.entries[sender].lobbyIn;
      DisconnectKeepsState(lobbies, clients, availableLobbyId, sender);
      clients := clients.Remove(sender);
      if lobbyIn.Some? {
        ghost var before := clients;
        RemovePlayer(lobbyIn.value, sender);
        assert sender !in before.entries;
      }
    }

    /** The `LeaveLobbyMessage` branch: the sender leaves its lobby. A sender in
        no lobby makes the source raise; nothing changes then. */
    method LeaveLobby(sender: ClientId)
      requires Valid()
      modifies this`lobbies, this`clients, this`outbox
      ensures Valid()
      ensures LobbyOf(old(clients), sender).None? ==> lobbies == old(lobbies) && clients == old(clients) && outbox == old(outbox)
      ensures LobbyOf(old(clients), sender).Some? ==>
        && LobbyOf(old(clients), sender).value in old(lobbies.entries)
        && lobbies == LobbiesAfterRemoval(old(lobbies), LobbyOf(old(clients), sender).value, sender)
        && clients == LeaveLobbyIn(old(clients), sender)
        && LobbyOf(clients, sender).None?
        && outbox == old(outbox) + InfoToMembers(lobbies, clients, LobbyOf(old(clients), sender).value) + ListBroadcast(lobbies, clients, [sender])
    {
      var lobbyIn := LobbyOf(clients, sender);
      if lobbyIn.Some? {
        RemovePlayer(lobbyIn.value, sender);
      }
    }

    /** `lobbies[id] = l` for a lobby whose players do not change. */
    method StoreLobby(id: LobbyId, l: Lobby)
      requires Valid() && id in lobbies.entries
      requires l.lobbyId == id && LobbyInvariant(l) && l.members == lobbies.entries[id].members
      modifies this`lobbies
      ensures Valid()
      ensures lobbies == old(lobbies).Set(id, l)
    {
      StoreKeepsState(lobbies, clients, availableLobbyId, id, l);
      lobbies := lobbies.Set(id, l);
    }

    /** The `ChangeLobbySettingsMessage` branch: the given fields are written;
        the players other than the previous host then receive the lobby's info
        if any field was given, and the list is broadcast if a field other than
        `game_settings` was given or `max_players` changed. A sender in no lobby
        makes the source raise; nothing changes then. */
    method ChangeLobbySettings(sender: ClientId, p: SettingsPatch)
      requires Valid()
      modifies this`lobbies, this`outbox
      ensures Valid()
      ensures LobbyOf(old(clients), sender).None? ==> lobbies == old(lobbies) && outbox == old(outbox)
      ensures LobbyOf(old(clients), sender).Some? ==>
        var id := LobbyOf(old(clients), sender).value;
        var l := old(lobbies.entries[id]);
        && lobbies == old(lobbies).Set(id, LobbyAfterSettings(l, p))
        && outbox == old(outbox)
             + (if SettingsInformMembers(p)
                then SendAll(Without(l.members, l.host), LobbyInfoMessage(LobbyInfoOf(PatchedLobby(l, p), clients.entries, true, false)))
                else [])
             + (if SettingsBroadcast(l, p) then ListBroadcast(lobbies, clients, []) else [])
    {
      var lobbyIn := LobbyOf(clients, sender);
      if lobbyIn.Some? {
        ApplySettings(lobbyIn.value, p);
      }
    }

    /** The settings branch on lobby `id`. */
    method ApplySettings(id: LobbyId, p: SettingsPatch)
      requires Valid() && id in lobbies.entries
      modifies this`lobbies, this`outbox
      ensures Valid()
      ensures
        var l := old(lobbies.entries[id]);
        && lobbies == old(lobbies).Set(id, LobbyAfterSettings(l, p))
        && outbox == old(outbox)
             + (if SettingsInformMembers(p)
                then SendAll(Without(l.members, l.host), LobbyInfoMessage(LobbyInfoOf(PatchedLobby(l, p), clients.entries, true, false)))
                else [])
             + (if SettingsBroadcast(l, p) then ListBroadcast(lobbies, clients, []) else [])
    {
      var l := lobbies.entries[id];
      var patched := PatchedLobby(l, p);
      StoreLobby(id, patched);
      if TouchesLobbyFields(p) {
        SendLobbyInfoToMembers(id, Some(l.host), false);
        SendLobbiesToEachClient([]);
      } else if p.gameSettings.To? {
        SendLobbyInfoToMembers(id, Some(l.host), false);
        SetTwice(old(lobbies), id, patched, LobbyAfterSettings(l, p));
        ApplyMaxPlayers(id, p.gameSettings.value);
      }
    }

    /** The tail of the settings branch when only `game_settings` was given:
        a `max_players` entry that differs from the lobby's is installed and
        the list is broadcast. */
    method ApplyMaxPlayers(id: LobbyId, settings: Settings)
      requires Valid() && id in lobbies.entries
      modifies this`lobbies, this`outbox
      ensures Valid()
      ensures NewMaxPlayers(old(lobbies.entries[id]), settings).None? ==> lobbies == old(lobbies) && outbox == old(outbox)
      ensures NewMaxPlayers(old(lobbies.entries[id]), settings).Some? ==>
        && lobbies == old(lobbies).Set(id, old(lobbies.entries[id]).(maxPlayers := NewMaxPlayers(old(lobbies.entries[id]), settings).value))
        && outbox == old(outbox) + ListBroadcast(lobbies, clients, [])
    {
      var l := lobbies.entries[id];
      var newMax := NewMaxPlayers(l, settings);
      if newMax.Some? {
        StoreLobby(id, l.(maxPlayers := newMax.value));
        SendLobbiesToEachClient([]);
      }
    }

    /** The `KickPlayerFromLobbyMessage` branch: the target leaves its lobby and
        is then sent `KickedFromLobbyMessage()`. Who sends the message is not
        checked. A target that is not connected or in no lobby makes the source
        raise; nothing changes then. */
    method Kick(target: ClientId)
      requires Valid()
      modifies this`lobbies, this`clients, this`outbox
      ensures Valid()
      ensures LobbyOf(old(clients), target).None? ==> lobbies == old(lobbies) && clients == old(clients) && outbox == old(outbox)
      ensures LobbyOf(old(clients), target).Some? ==>
        && LobbyOf(old(clients), target).value in old(lobbies.entries)
        && lobbies == LobbiesAfterRemoval(old(lobbies), LobbyOf(old(clients), target).value, target)
        && clients == LeaveLobbyIn(old(clients), target)
        && LobbyOf(clients, target).None?
        && outbox == old(outbox) + InfoToMembers(lobbies, clients, LobbyOf(old(clients), target).value)
             + ListBroadcast(lobbies, clients, [target]) + [Envelope(target, Kicked())]
    {
      var lobbyIn := LobbyOf(clients, target);
      if lobbyIn.Some? {
        RemovePlayer(lobbyIn.value, target);
        outbox := outbox + [Envelope(target, Kicked())];
      }
    }

    /** The `NewChatMessage` branch: the line `"<username> text"` joins the
        lobby's chat, which keeps its newest 50 lines, and every player receives
        it. A sender in no lobby makes the source raise; nothing changes then. */
    method Chat(sender: ClientId, text: string)
      requires Valid()
      modifies this`lobbies, this`outbox
      ensures Valid()
      ensures LobbyOf(old(clients), sender).None? ==> lobbies == old(lobbies) && outbox == old(outbox)
      ensures LobbyOf(old(clients), sender).Some? ==>
        var id := LobbyOf(old(clients), sender).value;
        var l := old(lobbies.entries[id]);
        var line := ChatLine(UsernameOf(clients.entries, sender), text);
        && lobbies == old(lobbies).Set(id, l.(chat := AppendChat(l.chat, line)))
        && outbox == old(outbox) + SendAll(l.members, NewChat(line))
    {
      var lobbyIn := LobbyOf(clients, sender);
      if lobbyIn.None? {
        return;
      }
      var id := lobbyIn.value;
      var l := lobbies.entries[id];
      var line := ChatLine(UsernameOf(clients.entries, sender), text);
      ChatKeepsNewest(l.chat, line);
      StoreLobby(id, l.(chat := AppendChat(l.chat, line)));
      SendEach(l.members, NewChat(line));
    }

    /** The `StartGameStartTimerMessage` branch: every other player of the
        sender's lobby receives the start time. A sender in no lobby makes the
        source raise; nothing changes then. */
    method StartGameTimer(sender: ClientId, startTime: int)
      requires Valid()
      modifies this`outbox
      ensures LobbyOf(old(clients), sender).None? ==> outbox == old(outbox)
      ensures LobbyOf(old(clients), sender).Some? ==>
        outbox == old(outbox) + SendAll(Without(lobbies.entries[LobbyOf(clients, sender).value].members, sender), StartGameStartTimer(startTime))
    {
      var lobbyIn := LobbyOf(clients, sender);
      if lobbyIn.Some? {
        SendEachExcept(lobbies.entries[lobbyIn.value].members, sender, StartGameStartTimer(startTime));
      }
    }

    /** The `StartGameMessage` branch: every player receives the manifest of the
        players, the host and the selected game id; the initialization count
        restarts at 0. A sender in no lobby makes the source raise; nothing
        changes then. */
    method StartGame(sender: ClientId)
      requires Valid()
      modifies this`lobbies, this`outbox
      ensures Valid()
      ensures LobbyOf(old(clients), sender).None? ==> lobbies == old(lobbies) && outbox == old(outbox)
      ensures LobbyOf(old(clients), sender).Some? ==>
        var id := LobbyOf(old(clients), sender).value;
        var l := old(lobbies.entries[id]);
        && lobbies == old(lobbies).Set(id, l.(initialized := 0))
        && outbox == old(outbox) + SendAll(l.members,
             GameStarted(Manifest(clients.entries, l.members), Client(UsernameOf(clients.entries, l.host), l.host), l.gameSelectedId))
    {
      var lobbyIn := LobbyOf(clients, sender);
      if lobbyIn.None? {
        return;
      }
      var id := lobbyIn.value;
      var l := lobbies.entries[id];
      var manifest := Manifest(clients.entries, l.members);
      var hostClient := Client(UsernameOf(clients.entries, l.host), l.host);
      SendEach(l.members, GameStarted(manifest, hostClient, l.gameSelectedId));
      StoreLobby(id, l.(initialized := 0));
    }

    /** `Lobby.start_game()`: the registered class is instantiated over the
        lobby's own player list, its `on_game_start` sends, and the list is
        broadcast (the lobby now has a game, so it is no longer listed). A game
        id with no registered class makes the lookup raise; nothing changes
        then. */
    method StartGameSession(id: LobbyId)
      requires Valid() && id in lobbies.entries
      modifies this`lobbies, this`outbox
      ensures Valid()
      ensures StartedGame(old(lobbies.entries[id])).None? ==> lobbies == old(lobbies) && outbox == old(outbox)
      ensures StartedGame(old(lobbies.entries[id])).Some? ==>
        var l := old(lobbies.entries[id]);
        && lobbies == old(lobbies).Set(id, l.(currentGame := StartedGame(l)))
        && outbox == old(outbox) + GameStartSends(StartedGame(l).value, l.members) + ListBroadcast(lobbies, clients, [])
    {
      var l := lobbies.entries[id];
      var game := StartedGame(l);
      if game.None? {
        return;
      }
      StoreLobby(id, l.(currentGame := game));
      var sends := OnGameStart(game.value, ClientsOf(game.value, l.members));
      outbox := outbox + sends;
      SendLobbiesToEachClient([]);
    }

    /** The `GameInitializedMessage` branch: the count goes up by one and,
        once it reaches the number of players, the game starts. Acknowledgements
        are not deduplicated. A sender in no lobby makes the source raise;
        nothing changes then. */
    method GameInitialized(sender: ClientId)
      requires Valid()
      modifies this`lobbies, this`outbox
      ensures Valid()
      ensures LobbyOf(old(clients), sender).None? ==> lobbies == old(lobbies) && outbox == old(outbox)
      ensures LobbyOf(old(clients), sender).Some? ==>
        var id := LobbyOf(old(clients), sender).value;
        var counted := old(lobbies.entries[id]).(initialized := old(lobbies.entries[id]).initialized + 1);
        counted.initialized >= |counted.members| && StartedGame(counted).Some? ==>
          && lobbies == old(lobbies).Set(id, counted.(currentGame := StartedGame(counted)))
          && outbox == old(outbox) + GameStartSends(StartedGame(counted).value, counted.members)
               + ListBroadcast(lobbies, clients, [])
      ensures LobbyOf(old(clients), sender).Some? ==>
        var id := LobbyOf(old(clients), sender).value;
        var counted := old(lobbies.entries[id]).(initialized := old(lobbies.entries[id]).initialized + 1);
        !(counted.initialized >= |counted.members| && StartedGame(counted).Some?) ==>
          lobbies == old(lobbies).Set(id, counted) && outbox == old(outbox)
    {
      var lobbyIn := LobbyOf(clients, sender);
      if lobbyIn.None? {
        return;
      }
      CountInitialized(lobbyIn.value);
    }

    /** The count of lobby `id` goes up by one; the game starts once it reaches
        the number of players. */
    method CountInitialized(id: LobbyId)
      requires Valid() && id in lobbies.entries
      modifies this`lobbies, this`outbox
      ensures Valid()
      ensures
        var counted := old(lobbies.entries[id]).(initialized := old(lobbies.entries[id]).initialized + 1);
        counted.initialized >= |counted.members| && StartedGame(counted).Some? ==>
          && lobbies == old(lobbies).Set(id, counted.(currentGame := StartedGame(counted)))
          && outbox == old(outbox) + GameStartSends(StartedGame(counted).value, counted.members)
               + ListBroadcast(lobbies, clients, [])
      ensures
        var counted := old(lobbies.entries[id]).(initialized := old(lobbies.entries[id]).initialized + 1);
        !(counted.initialized >= |counted.members| && StartedGame(counted).Some?) ==>
          lobbies == old(lobbies).Set(id, counted) && outbox == old(outbox)
    {
      var l := lobbies.entries[id];
      var counted := l.(initialized := l.initialized + 1);
      StoreLobby(id, counted);
      if counted.initialized >= |l.members| {
        SetTwice(old(lobbies), id, counted, counted.(currentGame := StartedGame(counted)));
        StartGameSession(id);
      }
    }

    /** `GameServer.end_game()` of lobby `id`'s running game, which the game
        itself calls: the game stops, the lobby forgets it and the list is
        broadcast, then each of the game's clients receives `GameOverMessage()`. */
    method EndGame(id: LobbyId)
      requires Valid()
      modifies this`lobbies, this`outbox
      ensures Valid()
      ensures id !in old(lobbies.entries) || old(lobbies.entries[id]).currentGame.None? ==>
        lobbies == old(lobbies) && outbox == old(outbox)
      ensures id in old(lobbies.entries) && old(lobbies.entries[id]).currentGame.Some? ==>
        var l := old(lobbies.entries[id]);
        && lobbies == old(lobbies).Set(id, l.(currentGame := None))
        && outbox == old(outbox) + ListBroadcast(lobbies, clients, [])
             + SendAll(ClientsOf(l.currentGame.value, l.members), GameOver)
    {
      if id !in lobbies.entries || lobbies.entries[id].currentGame.None? {
        return;
      }
      var l := lobbies.entries[id];
      var game := l.currentGame.value;
      StoreLobby(id, l.(currentGame := None));
      SendLobbiesToEachClient([]);
      SendEach(ClientsOf(game, l.members), GameOver);
    }

    /** The `GameDataMessage` branch: the running game of the sender's lobby, if
        any, receives the payload. A sender in no lobby makes the source raise;
        nothing changes then. */
    method ReceiveGameData(sender: ClientId, data: Payload)
      requires Valid()
      modifies this`outbox
      ensures LobbyOf(old(clients), sender).None? || lobbies.entries[LobbyOf(clients, sender).value].currentGame.None? ==>
        outbox == old(outbox)
      ensures LobbyOf(old(clients), sender).Some? && lobbies.entries[LobbyOf(clients, sender).value].currentGame.Some? ==>
        var l := lobbies.entries[LobbyOf(clients, sender).value];
        outbox == old(outbox) + Relayed(l.currentGame.value, ClientsOf(l.currentGame.value, l.members), sender, data)
    {
      var lobbyIn := LobbyOf(clients, sender);
      if lobbyIn.None? || lobbies.entries[lobbyIn.value].currentGame.None? {
        return;
      }
      var l := lobbies.entries[lobbyIn.value];
      var sends := OnDataReceived(l.currentGame.value, ClientsOf(l.currentGame.value, l.members), sender, data);
      outbox := outbox + sends;
    }

    /** One pass of the dispatch loop of `listen_to_client` for message `m`
        from client `sender`. Messages only the server sends are ignored. */
    method Handle(sender: ClientId, m: Message)
      requires Valid() && sender in clients.entries
      modifies this
      ensures Valid()
      ensures m.Disconnect? ==> clients.entries.Keys == old(clients.entries.Keys) - {sender}
      ensures !m.Disconnect? ==> clients.keys == old(clients.keys)
      ensures availableLobbyId == old(availableLobbyId) + (if m.CreateLobby? then 1 else 0)
      ensures m.Connected? || m.LobbyList? || m.KickedFromLobby? || m.LobbyInfoMessage? || m.GameStarted? ||
              m.GameOver? || m.ErrorMessage? ==>
        lobbies == old(lobbies) && clients == old(clients) && outbox == old(outbox)
    {
      match m
      case GameData(data) => ReceiveGameData(sender, data);
      case LobbyListRequest => LobbyListRequest(sender);
      case CreateLobby(username, title, settings, private) => CreateLobby(sender, username, title, settings, private);
      case JoinLobby(lobbyId, username) => JoinLobby(sender, lobbyId, username);
      case Disconnect => Disconnect(sender);
      case LeaveLobby => LeaveLobby(sender);
      case ChangeLobbySettings(patch) => ChangeLobbySettings(sender, patch);
      case KickPlayerFromLobby(target) => Kick(target);
      case NewChat(text) => Chat(sender, text);
      case StartGameStartTimer(startTime) => StartGameTimer(sender, startTime);
      case StartGame => StartGame(sender);
      case GameInitialized => GameInitialized(sender);
      case Connected(_, _) =>
      case LobbyList(_) =>
      case KickedFromLobby(_) =>
      case LobbyInfoMessage(_) =>
      case GameStarted(_, _, _) =>
      case GameOver =>
      case ErrorMessage(_) =>
    }

    /** `listen_to_client(client)` as written, which catches nothing: the first
        message whose branch raises ends the worker thread, so later messages
        are never read and the teardown that unregisters the client never runs.
        The message it stops at has the effect `Handle` gives it. */
    method ServeAsWritten(sender: ClientId, messages: seq<Message>) returns (handled: nat, crashed: bool)
      requires Valid() && sender in clients.entries
      modifies this
      ensures Valid()
      ensures handled <= |messages|
      ensures forall i :: 0 <= i < handled - 1 ==> !messages[i].Disconnect?
      ensures crashed ==> 0 < handled && !messages[handled - 1].Disconnect? && sender in clients.entries
      ensures !crashed && handled < |messages| ==> 0 < handled && messages[handled - 1].Disconnect?
      ensures !crashed ==> (sender in clients.entries <==> handled == 0 || !messages[handled - 1].Disconnect?)
      ensures |messages| > 0 && HandleRaises(old(lobbies), old(clients), sender, messages[0]) ==> crashed && handled == 1
      ensures availableLobbyId == old(availableLobbyId) + Creates(messages[..handled])
    {
      handled := 0;
      crashed := false;
      while handled < |messages|
        invariant handled <= |messages| && Valid() && sender in clients.entries && !crashed
        invariant forall i :: 0 <= i < handled ==> !messages[i].Disconnect?
        invariant availableLobbyId == old(availableLobbyId) + Creates(messages[..handled])
        invariant handled == 0 ==> lobbies == old(lobbies) && clients == old(clients)
        invariant handled > 0 ==> !HandleRaises(old(lobbies), old(clients), sender, messages[0])
      {
        var m := messages[handled];
        var raises := HandleRaises(lobbies, clients, sender, m);
        Handle(sender, m);
        assert messages[..handled + 1][..handled] == messages[..handled];
        handled := handled + 1;
        if m.Disconnect? {
          return;
        }
        if raises {
          crashed := true;
          return;
        }
      }
    }

    /** `listen_to_client(client)` over the messages that client sends, taken
        alone: each is handled in turn, and the session ends after the first
        `DisconnectMessage`, which removes the client. */
    method Serve(sender: ClientId, messages: seq<Message>) returns (handled: nat)
      requires Valid() && sender in clients.entries
      modifies this
      ensures Valid()
      ensures handled <= |messages|
      ensures forall i :: 0 <= i < handled - 1 ==> !messages[i].Disconnect?
      ensures handled < |messages| ==> 0 < handled && messages[handled - 1].Disconnect?
      ensures sender in clients.entries <==> handled == 0 || !messages[handled - 1].Disconnect?
      ensures availableLobbyId == old(availableLobbyId) + Creates(messages[..handled])
    {
      handled := 0;
      while handled < |messages|
        invariant handled <= |messages| && Valid() && sender in clients.entries
        invariant forall i :: 0 <= i < handled ==> !messages[i].Disconnect?
        invariant availableLobbyId == old(availableLobbyId) + Creates(messages[..handled])
      {
        var m := messages[handled];
        Handle(sender, m);
        assert messages[..handled + 1][..handled] == messages[..handled];
        handled := handled + 1;
        if m.Disconnect? {
          return;
        }
      }
    }
  }

  /** A fresh client that is in no lobby sends `LeaveLobbyMessage`, then
      `CreateLobbyMessage`. As written, the leave raises, the worker stops and
      the create is never read, yet the client stays registered; handled as
      an ignored illegal message, the create goes through. */
  method RaiseStrandsClient(address: Address, username: string, settings: Settings)
    returns (handledAsWritten: nat, createdAsWritten: nat, registeredAsWritten: bool, handledCorrected: nat, createdCorrected: nat)
    ensures handledAsWritten == 1 && createdAsWritten == 0 && registeredAsWritten
    ensures handledCorrected == 2 && createdCorrected == 1
  {
    var messages := [LeaveLobby, CreateLobby(username, "", settings, false)];
    var s := new Server();
    var id := s.Accept(address);
    assert HandleRaises(s.lobbies, s.clients, id, messages[0]);
    var crashed;
    handledAsWritten, crashed := s.ServeAsWritten(id, messages);
    assert messages[..1] == [LeaveLobby];
    createdAsWritten := s.availableLobbyId;
    registeredAsWritten := id in s.clients.entries;
    var t := new Server();
    var id' := t.Accept(address);
    handledCorrected := t.Serve(id', messages);
    assert messages[..2] == messages && messages[..1] == [LeaveLobby];
    createdCorrected := t.availableLobbyId;
  }

}
