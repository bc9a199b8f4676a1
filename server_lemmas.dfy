/** What the server's handlers promise: the tables stay consistent, the
    registration, nickname, channel and disconnect rules hold. */
module ServerLemmas {
  import opened Ascii
  import opened Irc
  import opened Wrappers
  import opened Client
  import opened Channel
  import Message
  import opened Server

  // ------------------------------------------- one client entry replaced

  /** Two entries of the same client in the same channels and equally live. */
  predicate SameMembership(a: ClientState, b: ClientState)
  {
    a.shutdownCompleted == b.shutdownCompleted && a.joinedChannels == b.joinedChannels
  }

  /** Two entries of the same client with the same names and equally live. */
  predicate SameNames(a: ClientState, b: ClientState)
  {
    a.shutdownCompleted == b.shutdownCompleted && a.nickname == b.nickname
    && a.nicknameLowercased == b.nicknameLowercased
  }

  /** Two entries of the same client of the same kind and equally live. */
  predicate SameKind(a: ClientState, b: ClientState)
  {
    a.shutdownCompleted == b.shutdownCompleted && a.isNetworkClient == b.isNetworkClient
  }

  lemma ReplacedMembersJoined(channels: seq<Channel>, clients: map<ClientId, ClientState>, c: ClientId, v: ClientState)
    requires MembersJoined(channels, clients) && c in clients && SameMembership(clients[c], v)
    ensures MembersJoined(channels, clients[c := v])
  {
    var r := clients[c := v];
    forall j | 0 <= j < |channels| ensures MembersList(channels[j].clients, j, r) {
      forall m | m in channels[j].clients ensures Lists(r, m, j) {
        assert MembersList(channels[j].clients, j, clients);
        assert Lists(clients, m, j);
      }
    }
  }

  lemma ReplacedJoinedAreMembers(channels: seq<Channel>, clients: map<ClientId, ClientState>, c: ClientId, v: ClientState)
    requires JoinedAreMembers(channels, clients) && c in clients && SameMembership(clients[c], v)
    ensures JoinedAreMembers(channels, clients[c := v])
  {
    var r := clients[c := v];
    forall m | m in r ensures InChannels(channels, m, r[m]) {
      assert InChannels(channels, m, clients[m]);
    }
  }

  lemma ReplacedNicknamesOwned(clients: map<ClientId, ClientState>, nicknames: map<string, ClientId>, c: ClientId, v: ClientState)
    requires NicknamesOwned(clients, nicknames) && c in clients && SameNames(clients[c], v)
    ensures NicknamesOwned(clients[c := v], nicknames)
  {
  }

  lemma ReplacedNicknamesListed(clients: map<ClientId, ClientState>, nicknames: map<string, ClientId>, c: ClientId, v: ClientState)
    requires NicknamesListed(clients, nicknames) && c in clients && SameNames(clients[c], v)
    ensures NicknamesListed(clients[c := v], nicknames)
  {
    var r := clients[c := v];
    forall m | m in r && !r[m].shutdownCompleted && r[m].nickname != ""
      ensures r[m].nicknameLowercased in nicknames && nicknames[r[m].nicknameLowercased] == m
    {
      assert clients[m].nickname != "";
    }
  }

  lemma ReplacedNetworkListed(clients: map<ClientId, ClientState>, networkClients: set<ClientId>, c: ClientId, v: ClientState)
    requires NetworkListed(clients, networkClients) && c in clients && SameKind(clients[c], v)
    ensures NetworkListed(clients[c := v], networkClients)
  {
    var r := clients[c := v];
    forall m ensures m in networkClients <==> m in r && r[m].isNetworkClient && !r[m].shutdownCompleted {
      assert m in networkClients <==> m in clients && clients[m].isNetworkClient && !clients[m].shutdownCompleted;
    }
  }

  lemma ReplacedRefers(channelIds: map<string, ChannelId>, channels: seq<Channel>, clients: map<ClientId, ClientState>, c: ClientId, v: ClientState)
    requires Refers(channelIds, channels, clients) && c in clients && JoinedFit(v, |channels|)
    ensures Refers(channelIds, channels, clients[c := v])
  {
  }

  lemma RegisteredUpdate(a: map<ClientId, ClientState>, c: ClientId, v: ClientState)
    requires RegisteredMembers(a) && WellNamed(v)
    ensures RegisteredMembers(a[c := v])
  {
  }

  /** One client's entry replaced by one in the same channels, of the same
      kind and keeping the registration rule, with a nickname table that fits
      the new entries: the tables stay consistent. */
  lemma ClientReplaced(s: State, r: State, c: ClientId, v: ClientState)
    requires Consistent(s) && c in s.clients && SameMembership(s.clients[c], v) && SameKind(s.clients[c], v) && WellNamed(v)
    requires r.clients == s.clients[c := v] && r.channels == s.channels && r.channelIds == s.channelIds
    requires r.networkClients == s.networkClients
    requires NicknamesOwned(r.clients, r.nicknames) && NicknamesListed(r.clients, r.nicknames)
    ensures Consistent(r)
  {
    ReplacedRefers(s.channelIds, s.channels, s.clients, c, v);
    ReplacedMembersJoined(s.channels, s.clients, c, v);
    ReplacedJoinedAreMembers(s.channels, s.clients, c, v);
    ReplacedNetworkListed(s.clients, s.networkClients, c, v);
    RegisteredUpdate(s.clients, c, v);
  }

  /** A change of user state keeps the tables consistent when the NICK flag
      still matches the nickname and a registered client stays registered. */
  lemma SetUserStateConsistent(s: State, c: ClientId, u: UserState)
    requires Consistent(s) && c in s.clients
    requires u.hasSentNickMessage <==> s.clients[c].nickname != ""
    requires IsUserRegistered(s.clients[c].userState) ==> IsUserRegistered(u)
    ensures Consistent(SetUserState(s, c, u))
  {
    var v := s.clients[c].(userState := u);
    ReplacedNicknamesOwned(s.clients, s.nicknames, c, v);
    ReplacedNicknamesListed(s.clients, s.nicknames, c, v);
    ClientReplaced(s, SetUserState(s, c, u), c, v);
  }

  // ---------------------------------------------------------- membership

  lemma AddedMembersJoined(channels: seq<Channel>, clients: map<ClientId, ClientState>, c: ClientId, id: ChannelId, status: ClientStatus)
    requires MembersJoined(channels, clients) && c in clients && !clients[c].shutdownCompleted && id < |channels|
    ensures MembersJoined(channels[id := AddClient(channels[id], c, status)], clients[c := AddJoinedChannel(clients[c], id)])
  {
    var chs := channels[id := AddClient(channels[id], c, status)];
    var r := clients[c := AddJoinedChannel(clients[c], id)];
    forall j | 0 <= j < |chs| ensures MembersList(chs[j].clients, j, r) {
      forall m | m in chs[j].clients ensures Lists(r, m, j) {
        if j != id || m != c {
          assert MembersList(channels[j].clients, j, clients);
          assert Lists(clients, m, j);
        }
      }
    }
  }

  lemma AddedJoinedAreMembers(channels: seq<Channel>, clients: map<ClientId, ClientState>, c: ClientId, id: ChannelId, status: ClientStatus)
    requires JoinedAreMembers(channels, clients) && c in clients && id < |channels|
    ensures JoinedAreMembers(channels[id := AddClient(channels[id], c, status)], clients[c := AddJoinedChannel(clients[c], id)])
  {
    var chs := channels[id := AddClient(channels[id], c, status)];
    var r := clients[c := AddJoinedChannel(clients[c], id)];
    forall m | m in r ensures InChannels(chs, m, r[m]) {
      assert InChannels(channels, m, clients[m]);
      forall j | !r[m].shutdownCompleted && j in r[m].joinedChannels ensures j < |chs| && m in chs[j].clients {
        if m != c || j != id {
          assert j in clients[m].joinedChannels;
        }
      }
    }
  }

  /** A registered live client joining a channel keeps the tables consistent. */
  lemma AddMemberConsistent(s: State, c: ClientId, id: ChannelId, status: ClientStatus)
    requires Consistent(s) && Live(s, c) && id < |s.channels| && IsUserRegistered(s.clients[c].userState)
    ensures Consistent(AddMember(s, c, id, status))
  {
    var v := AddJoinedChannel(s.clients[c], id);
    AddedMembersJoined(s.channels, s.clients, c, id, status);
    AddedJoinedAreMembers(s.channels, s.clients, c, id, status);
    ReplacedNicknamesOwned(s.clients, s.nicknames, c, v);
    ReplacedNicknamesListed(s.clients, s.nicknames, c, v);
    ReplacedNetworkListed(s.clients, s.networkClients, c, v);
    RegisteredUpdate(s.clients, c, v);
  }

  lemma RemovedMembersJoined(channels: seq<Channel>, clients: map<ClientId, ClientState>, c: ClientId, id: ChannelId)
    requires MembersJoined(channels, clients) && c in clients && id < |channels|
    ensures MembersJoined(channels[id := RemoveClient(channels[id], c)], clients[c := RemoveJoinedChannel(clients[c], id)])
  {
    var chs := channels[id := RemoveClient(channels[id], c)];
    var r := clients[c := RemoveJoinedChannel(clients[c], id)];
    forall j | 0 <= j < |chs| ensures MembersList(chs[j].clients, j, r) {
      forall m | m in chs[j].clients ensures Lists(r, m, j) {
        assert MembersList(channels[j].clients, j, clients);
        assert Lists(clients, m, j);
      }
    }
  }

  lemma RemovedJoinedAreMembers(channels: seq<Channel>, clients: map<ClientId, ClientState>, c: ClientId, id: ChannelId)
    requires JoinedAreMembers(channels, clients) && c in clients && id < |channels|
    ensures JoinedAreMembers(channels[id := RemoveClient(channels[id], c)], clients[c := RemoveJoinedChannel(clients[c], id)])
  {
    var chs := channels[id := RemoveClient(channels[id], c)];
    var r := clients[c := RemoveJoinedChannel(clients[c], id)];
    forall m | m in r ensures InChannels(chs, m, r[m]) {
      assert InChannels(channels, m, clients[m]);
      forall j | !r[m].shutdownCompleted && j in r[m].joinedChannels ensures j < |chs| && m in chs[j].clients {
        assert j in clients[m].joinedChannels;
      }
    }
  }

  /** Leaving a channel keeps the tables consistent. */
  lemma RemoveMemberConsistent(s: State, c: ClientId, id: ChannelId)
    requires Consistent(s) && c in s.clients && id < |s.channels|
    ensures Consistent(RemoveMember(s, c, id))
  {
    var v := RemoveJoinedChannel(s.clients[c], id);
    RemovedMembersJoined(s.channels, s.clients, c, id);
    RemovedJoinedAreMembers(s.channels, s.clients, c, id);
    ReplacedNicknamesOwned(s.clients, s.nicknames, c, v);
    ReplacedNicknamesListed(s.clients, s.nicknames, c, v);
    ReplacedNetworkListed(s.clients, s.networkClients, c, v);
    RegisteredUpdate(s.clients, c, v);
  }

  // ------------------------------------------------------ frame lemmas

  /** Sending leaves the tables as they are. */
  lemma OutboxOnly(s: State, r: State)
    requires Consistent(s) && r == s.(outbox := r.outbox)
    ensures Consistent(r)
  {
    assert r.channels == s.channels && r.clients == s.clients && r.channelIds == s.channelIds;
  }

  // ------------------------------------------------------------ USER, NICK

  lemma UserConsistent(cfg: Config, s: State, sender: ClientId)
    requires Consistent(s) && Live(s, sender)
    ensures Consistent(User(cfg, s, sender))
  {
    var u := s.clients[sender].userState;
    if !IsUserRegistered(u) {
      var s1 := SetUserState(s, sender, u.(hasSentUserMessage := true));
      SetUserStateConsistent(s, sender, u.(hasSentUserMessage := true));
      if u.hasSentNickMessage {
        OutboxOnly(s1, Welcome(cfg, s1, sender));
      }
    }
  }

  /** The nickname table after an old key has been dropped and the new one inserted. */
  function Renamed(nicknames: map<string, ClientId>, c: ClientState, sender: ClientId, nickname: string): map<string, ClientId>
  {
    (if c.nickname == "" then nicknames else nicknames - {c.nicknameLowercased})[Lower(nickname) := sender]
  }

  /** What an accepted nickname does to the tables: only the sender's entry
      and the nickname table change; the sender's old key goes and the new
      key leads to the sender. */
  lemma RenameFields(cfg: Config, s: State, sender: ClientId, nickname: string)
    requires Sane(s) && sender in s.clients
    requires Lower(nickname) in s.nicknames ==> s.nicknames[Lower(nickname)] == sender
    ensures var r := Rename(cfg, s, sender, nickname);
      var c := s.clients[sender];
      r.channels == s.channels && r.channelIds == s.channelIds && r.networkClients == s.networkClients
      && r.nicknames == Renamed(s.nicknames, c, sender, nickname)
      && r.clients == s.clients[sender := SetNickname(c, nickname, Lower(nickname)).(userState := c.userState.(hasSentNickMessage := true))]
  {
    var c := s.clients[sender];
    var low := Lower(nickname);
    var kept := if c.nickname == "" then s.nicknames else s.nicknames - {c.nicknameLowercased};
    assert low in kept ==> kept[low] == sender;
    assert Insert(kept, low, sender) == kept[low := sender];
  }

  /** The nickname table as an accepted nickname leaves it. */
  lemma RenamedNicknames(s: State, r: State, sender: ClientId, nickname: string)
    requires Consistent(s) && Live(s, sender) && nickname != ""
    requires Lower(nickname) in s.nicknames ==> s.nicknames[Lower(nickname)] == sender
    requires r.nicknames == Renamed(s.nicknames, s.clients[sender], sender, nickname)
    requires r.clients == s.clients[sender := SetNickname(s.clients[sender], nickname, Lower(nickname)).(userState := s.clients[sender].userState.(hasSentNickMessage := true))]
    ensures NicknamesOwned(r.clients, r.nicknames) && NicknamesListed(r.clients, r.nicknames)
  {
    var c := s.clients[sender];
    var low := Lower(nickname);
    forall n | n in r.nicknames
      ensures r.nicknames[n] in r.clients && !r.clients[r.nicknames[n]].shutdownCompleted
        && r.clients[r.nicknames[n]].nicknameLowercased == n && r.clients[r.nicknames[n]].nickname != ""
    {
      if n != low {
        assert s.nicknames[n] != sender;
      }
    }
    forall m | m in r.clients && !r.clients[m].shutdownCompleted && r.clients[m].nickname != ""
      ensures r.clients[m].nicknameLowercased in r.nicknames && r.nicknames[r.clients[m].nicknameLowercased] == m
    {
      if m != sender {
        var k := s.clients[m].nicknameLowercased;
        assert s.nicknames[k] == m;
        assert k != low;
        assert c.nickname != "" ==> k != c.nicknameLowercased;
      }
    }
  }

  /** An accepted nickname keeps the tables consistent. */
  lemma RenameConsistent(cfg: Config, s: State, sender: ClientId, nickname: string)
    requires Consistent(s) && Live(s, sender) && nickname != ""
    requires Lower(nickname) in s.nicknames ==> s.nicknames[Lower(nickname)] == sender
    ensures Consistent(Rename(cfg, s, sender, nickname))
  {
    RenameFields(cfg, s, sender, nickname);
    var r := Rename(cfg, s, sender, nickname);
    RenamedNicknames(s, r, sender, nickname);
    var c := s.clients[sender];
    ClientReplaced(s, r, sender, SetNickname(c, nickname, Lower(nickname)).(userState := c.userState.(hasSentNickMessage := true)));
  }

  /** A refused nickname only sends. */
  lemma NickRefused(cfg: Config, s: State, sender: ClientId, params: seq<string>)
    requires Sane(s) && sender in s.clients
    requires NickCheck(s.clients[sender], s.nicknames, sender, params, true) != Accepted
    ensures Nick(cfg, s, sender, params) == s.(outbox := Nick(cfg, s, sender, params).outbox)
  {
  }

  /** NICK keeps the tables consistent. */
  lemma NickConsistent(cfg: Config, s: State, sender: ClientId, params: seq<string>)
    requires Consistent(s) && Live(s, sender)
    ensures Consistent(Nick(cfg, s, sender, params))
  {
    var r := Nick(cfg, s, sender, params);
    if NickCheck(s.clients[sender], s.nicknames, sender, params, true) == Accepted {
      RenameConsistent(cfg, s, sender, params[0]);
    } else {
      NickRefused(cfg, s, sender, params);
      OutboxOnly(s, r);
    }
  }

  // ------------------------------------------------------------ JOIN, PART

  /** The client is still live and its user state is what it was. */
  ghost predicate Stays(s: State, r: State, c: ClientId)
  {
    Live(s, c) && Live(r, c) && r.clients[c].userState == s.clients[c].userState
  }

  lemma JoinItemConsistent(s: State, sender: ClientId, key: string)
    requires Consistent(s) && Live(s, sender) && IsUserRegistered(s.clients[sender].userState)
    ensures Consistent(JoinItem(s, sender, key)) && Stays(s, JoinItem(s, sender, key), sender)
  {
    var r := JoinItem(s, sender, key);
    if key in s.channelIds {
      var id := s.channelIds[key];
      var ch := s.channels[id];
      var voiced := IsVoiced(s.clients[sender], ch);
      if (voiced || ch.allowObservers) && sender !in ch.clients {
        var s1 := AddMember(s, sender, id, if voiced then Voice else NoStatus);
        AddMemberConsistent(s, sender, id, if voiced then Voice else NoStatus);
        assert r == s1.(outbox := r.outbox);
        OutboxOnly(s1, r);
        return;
      }
    }
    OutboxOnly(s, r);
  }

  lemma {:induction false} JoinItemsConsistent(s: State, sender: ClientId, keys: seq<string>)
    requires Consistent(s) && Live(s, sender) && IsUserRegistered(s.clients[sender].userState)
    ensures Consistent(JoinItems(s, sender, keys)) && Stays(s, JoinItems(s, sender, keys), sender)
    decreases |keys|
  {
    if keys != [] {
      JoinItemConsistent(s, sender, keys[0]);
      JoinItemsConsistent(JoinItem(s, sender, keys[0]), sender, keys[1..]);
    }
  }

  lemma LeaveConsistent(s: State, sender: ClientId, id: ChannelId)
    requires Consistent(s) && Live(s, sender) && id < |s.channels|
    ensures Consistent(Leave(s, sender, id)) && Stays(s, Leave(s, sender, id), sender)
  {
    var ch := s.channels[id];
    var s1 := Broadcast(s, Members(ch), ":" + s.clients[sender].prefix + " PART #" + ch.name);
    OutboxOnly(s, s1);
    RemoveMemberConsistent(s1, sender, id);
  }

  lemma {:induction false} PartItemsConsistent(s: State, sender: ClientId, keys: seq<string>)
    requires Consistent(s) && Live(s, sender)
    ensures Consistent(PartItems(s, sender, keys)) && Stays(s, PartItems(s, sender, keys), sender)
    decreases |keys|
  {
    if keys != [] {
      var key := keys[0];
      if key !in s.channelIds {
        var s1 := Reply(s, sender, ErrNoSuchChannel, [key]);
        OutboxOnly(s, s1);
        PartItemsConsistent(s1, sender, keys[1..]);
      } else if sender !in s.channels[s.channelIds[key]].clients {
        OutboxOnly(s, PartItems(s, sender, keys));
      } else {
        LeaveConsistent(s, sender, s.channelIds[key]);
        PartItemsConsistent(Leave(s, sender, s.channelIds[key]), sender, keys[1..]);
      }
    }
  }

  lemma PartConsistent(s: State, sender: ClientId, params: seq<string>)
    requires Consistent(s) && Live(s, sender)
    ensures Consistent(Part(s, sender, params)) && Stays(s, Part(s, sender, params), sender)
  {
    if IsUserRegistered(s.clients[sender].userState) && params != [] {
      PartItemsConsistent(s, sender, ChannelItems(params[0]));
    } else {
      OutboxOnly(s, Part(s, sender, params));
    }
  }

  lemma {:induction false} PartAllConsistent(s: State, sender: ClientId, ids: seq<ChannelId>)
    requires Consistent(s) && Live(s, sender)
    requires forall i :: 0 <= i < |ids| ==> ids[i] < |s.channels|
    ensures Consistent(PartAll(s, sender, ids)) && Stays(s, PartAll(s, sender, ids), sender)
    decreases |ids|
  {
    if ids != [] {
      var s1 := Part(s, sender, [s.channels[ids[0]].name]);
      PartConsistent(s, sender, [s.channels[ids[0]].name]);
      PartAllConsistent(s1, sender, ids[1..]);
    }
  }

  lemma JoinConsistent(cfg: Config, s: State, sender: ClientId, params: seq<string>)
    requires Consistent(s) && Live(s, sender)
    ensures Consistent(Server.Join(cfg, s, sender, params)) && Stays(s, Server.Join(cfg, s, sender, params), sender)
  {
    var r := Server.Join(cfg, s, sender, params);
    if IsUserRegistered(s.clients[sender].userState) && params != [] {
      var joined := s.clients[sender].joinedChannels;
      AscendingBelow(joined, |s.channels|);
      var s1 := if params[0] == "0" then PartAll(s, sender, Ascending(joined)) else s;
      PartAllConsistent(s, sender, Ascending(joined));
      if MustIdentify(cfg, s1.clients[sender]) {
        OutboxOnly(s1, r);
      } else {
        JoinItemsConsistent(s1, sender, ChannelItems(params[0]));
      }
    } else {
      OutboxOnly(s, r);
    }
  }

  // ------------------------------------------------------------ disconnect

  /** The QUIT walk removes the client from exactly the channels it visits. */
  lemma {:induction false} QuitChannelsFields(s: State, client: ClientId, ids: seq<ChannelId>, handled: set<ClientId>, line: string)
    requires Sane(s)
    requires forall i :: 0 <= i < |ids| ==> ids[i] < |s.channels|
    ensures var r := QuitChannels(s, client, ids, handled, line);
      forall j :: 0 <= j < |s.channels| ==> r.channels[j] == if j in ids then RemoveClient(s.channels[j], client) else s.channels[j]
    decreases |ids|
  {
    if ids != [] {
      var id := ids[0];
      var ch := s.channels[id];
      var s1 := Broadcast(s, Fresh(Members(ch), handled), line);
      var s2 := s1.(channels := s1.channels[id := RemoveClient(ch, client)]);
      QuitChannelsFields(s2, client, ids[1..], handled + ch.clients.Keys, line);
      RemoveClientIdempotent(ch, client);
      assert forall j :: j in ids <==> j == id || j in ids[1..];
    }
  }

  /** What disconnecting a live client does to the tables: it leaves every
      channel, its nickname key goes, it is marked shut down and leaves the
      network client set. */
  lemma DisconnectFields(s: State, client: ClientId, reason: string)
    requires Consistent(s) && Live(s, client)
    ensures var r := Disconnect(s, client, reason);
      var c := s.clients[client];
      |r.channels| == |s.channels| && r.channelIds == s.channelIds
      && (forall j :: 0 <= j < |s.channels| ==> r.channels[j] == RemoveClient(s.channels[j], client))
      && r.nicknames == s.nicknames - {c.nicknameLowercased}
      && r.clients == s.clients[client := c.(shutdownCompleted := true)]
      && r.networkClients == s.networkClients - {client}
  {
    var r := Disconnect(s, client, reason);
    var c := s.clients[client];
    if c.nickname == "" {
      assert c.joinedChannels == {};
      forall j | 0 <= j < |s.channels| ensures r.channels[j] == RemoveClient(s.channels[j], client) {
        RemoveClientIdempotent(s.channels[j], client);
      }
      assert "" !in s.nicknames;
      assert s.nicknames - {c.nicknameLowercased} == s.nicknames;
    } else {
      var ids := Ascending(c.joinedChannels);
      AscendingMembers(c.joinedChannels);
      AscendingBelow(c.joinedChannels, |s.channels|);
      var s0 := QuitChannels(s, client, ids, {}, ":" + c.prefix + " QUIT :" + reason);
      QuitChannelsFields(s, client, ids, {}, ":" + c.prefix + " QUIT :" + reason);
      forall j | 0 <= j < |s.channels| ensures r.channels[j] == RemoveClient(s.channels[j], client) {
        RemoveClientIdempotent(s.channels[j], client);
      }
    }
  }

  /** Tables as a disconnect leaves them are consistent. */
  lemma DisconnectedConsistent(s: State, r: State, client: ClientId)
    requires Consistent(s) && Live(s, client)
    requires |r.channels| == |s.channels| && r.channelIds == s.channelIds
    requires forall j :: 0 <= j < |s.channels| ==> r.channels[j] == RemoveClient(s.channels[j], client)
    requires r.nicknames == s.nicknames - {s.clients[client].nicknameLowercased}
    requires r.clients == s.clients[client := s.clients[client].(shutdownCompleted := true)]
    requires r.networkClients == s.networkClients - {client}
    ensures Consistent(r)
  {
    var c := s.clients[client];
    forall j, m | 0 <= j < |r.channels| && m in r.channels[j].clients
      ensures m in r.clients && !r.clients[m].shutdownCompleted && j in r.clients[m].joinedChannels
    {
      assert m != client && m in s.channels[j].clients;
    }
    forall m, j | m in r.clients && !r.clients[m].shutdownCompleted && j in r.clients[m].joinedChannels
      ensures j < |r.channels| && m in r.channels[j].clients
    {
      assert m != client && j in s.clients[m].joinedChannels;
    }
    forall n | n in r.nicknames
      ensures r.nicknames[n] in r.clients && !r.clients[r.nicknames[n]].shutdownCompleted
        && r.clients[r.nicknames[n]].nicknameLowercased == n && r.clients[r.nicknames[n]].nickname != ""
    {
      assert s.nicknames[n] != client;
    }
    forall m | m in r.clients && !r.clients[m].shutdownCompleted && r.clients[m].nickname != ""
      ensures r.clients[m].nicknameLowercased in r.nicknames && r.nicknames[r.clients[m].nicknameLowercased] == m
    {
      assert s.nicknames[s.clients[m].nicknameLowercased] == m;
    }
    forall j | 0 <= j < |r.channels| ensures r.channels[j].clients.Keys <= r.clients.Keys {
    }
  }

  /** A disconnect keeps the tables consistent and leaves no trace of the
      client in any channel or in the nickname table. */
  lemma DisconnectConsistent(s: State, client: ClientId, reason: string)
    requires Consistent(s) && client in s.clients
    ensures var r := Disconnect(s, client, reason);
      Consistent(r) && !Live(r, client)
      && (forall j :: 0 <= j < |r.channels| ==> client !in r.channels[j].clients)
      && (forall n :: n in r.nicknames ==> r.nicknames[n] != client)
  {
    if Live(s, client) {
      DisconnectFields(s, client, reason);
      DisconnectedConsistent(s, Disconnect(s, client, reason), client);
    }
  }

  lemma QuitConsistent(s: State, sender: ClientId)
    requires Consistent(s) && sender in s.clients
    ensures Consistent(Server.Quit(s, sender))
  {
    if IsUserRegistered(s.clients[sender].userState) {
      DisconnectConsistent(s, sender, "Quit");
    }
  }

  // ------------------------------------------------------- PRIVMSG, NS

  /** Identifying a live client keeps the tables consistent. */
  lemma IdentifyConsistent(s: State, sender: ClientId)
    requires Consistent(s) && Live(s, sender)
    ensures Consistent(s.(clients := s.clients[sender := Identify(s.clients[sender])]))
  {
    var u := Identify(s.clients[sender]).userState;
    assert WellNamed(s.clients[sender]);
    SetUserStateConsistent(s, sender, u);
    assert SetUserState(s, sender, u) == s.(clients := s.clients[sender := Identify(s.clients[sender])]);
  }

  /** PRIVMSG keeps the tables consistent, a message to NickServ included. */
  lemma PrivmsgConsistent(cfg: Config, s: State, sender: ClientId, params: seq<string>)
    requires Consistent(s) && Live(s, sender)
    ensures Consistent(Privmsg(cfg, s, sender, params))
  {
    var r := Privmsg(cfg, s, sender, params);
    if r.clients == s.clients {
      OutboxOnly(s, r);
    } else {
      var t := s.(outbox := r.outbox);
      OutboxOnly(s, t);
      IdentifyConsistent(t, sender);
      assert r == t.(clients := t.clients[sender := Identify(t.clients[sender])]);
    }
  }

  /** NS keeps the tables consistent. */
  lemma NsConsistent(cfg: Config, s: State, sender: ClientId, params: seq<string>)
    requires Consistent(s) && Live(s, sender)
    ensures Consistent(Ns(cfg, s, sender, params))
  {
    if IsUserRegistered(s.clients[sender].userState) {
      PrivmsgConsistent(cfg, s, sender, ["nickserv", SpaceJoin("", params)]);
    }
  }

  // -------------------------------------------------------------- dispatch

  /** Every command handler keeps the tables consistent. */
  lemma HandleConsistent(cfg: Config, s: State, sender: ClientId, h: Message.Handler, params: seq<string>)
    requires Consistent(s) && Live(s, sender)
    ensures Consistent(Handle(cfg, s, sender, h, params))
  {
    var r := Handle(cfg, s, sender, h, params);
    match h
    case Join => JoinConsistent(cfg, s, sender, params);
    case Nick => NickConsistent(cfg, s, sender, params);
    case Part => PartConsistent(s, sender, params);
    case Quit => QuitConsistent(s, sender);
    case User => UserConsistent(cfg, s, sender);
    case Privmsg => PrivmsgConsistent(cfg, s, sender, params);
    case Ns => NsConsistent(cfg, s, sender, params);
    case _ => OutboxOnly(s, r);
  }

  /** Whatever line a live client sends, the tables stay consistent. */
  lemma ReceiveConsistent(cfg: Config, s: State, sender: ClientId, m: string)
    requires Consistent(s) && Live(s, sender)
    ensures Consistent(Receive(cfg, s, sender, m))
  {
    var p := Message.Parse(m);
    if p.Invalid? {
      DisconnectConsistent(s, sender, "Invalid message");
    } else if Message.Dispatch(p).Some? {
      HandleConsistent(cfg, s, sender, Message.Dispatch(p).value, p.params);
    }
  }

  // ------------------------------------------------------ clients arriving

  lemma NewEntryMembersJoined(channels: seq<Channel>, clients: map<ClientId, ClientState>, id: ClientId, v: ClientState)
    requires MembersJoined(channels, clients) && id !in clients
    ensures MembersJoined(channels, clients[id := v])
  {
    var r := clients[id := v];
    forall j | 0 <= j < |channels| ensures MembersList(channels[j].clients, j, r) {
      forall m | m in channels[j].clients ensures Lists(r, m, j) {
        assert MembersList(channels[j].clients, j, clients);
        assert Lists(clients, m, j);
      }
    }
  }

  lemma NewEntryJoinedAreMembers(channels: seq<Channel>, clients: map<ClientId, ClientState>, id: ClientId, v: ClientState)
    requires JoinedAreMembers(channels, clients) && v.joinedChannels == {}
    ensures JoinedAreMembers(channels, clients[id := v])
  {
    var r := clients[id := v];
    forall m | m in r ensures InChannels(channels, m, r[m]) {
      if m != id {
        assert InChannels(channels, m, clients[m]);
      }
    }
  }

  lemma NewEntryNicknamesOwned(clients: map<ClientId, ClientState>, nicknames: map<string, ClientId>, id: ClientId, v: ClientState)
    requires NicknamesOwned(clients, nicknames) && id !in clients
    ensures NicknamesOwned(clients[id := v], nicknames)
  {
  }

  /** A client entry joining the tables, in no channel and keeping the
      registration rule, with the network client set and the nickname table
      fitting it: the tables stay consistent. */
  lemma ClientAdded(s: State, r: State, id: ClientId, v: ClientState)
    requires Consistent(s) && id !in s.clients && v.joinedChannels == {} && WellNamed(v)
    requires r.clients == s.clients[id := v] && r.channels == s.channels && r.channelIds == s.channelIds
    requires r.networkClients == if v.isNetworkClient && !v.shutdownCompleted then s.networkClients + {id} else s.networkClients
    requires NicknamesOwned(r.clients, r.nicknames) && NicknamesListed(r.clients, r.nicknames)
    ensures Consistent(r)
  {
    NewEntryMembersJoined(s.channels, s.clients, id, v);
    NewEntryJoinedAreMembers(s.channels, s.clients, id, v);
    RegisteredUpdate(s.clients, id, v);
    forall m ensures m in r.networkClients <==> m in r.clients && r.clients[m].isNetworkClient && !r.clients[m].shutdownCompleted {
      if m != id {
        assert m in s.networkClients <==> m in s.clients && s.clients[m].isNetworkClient && !s.clients[m].shutdownCompleted;
      }
    }
  }

  /** A new connection keeps the tables consistent and is live with nothing sent. */
  lemma AcceptConsistent(s: State, id: ClientId, initialized: bool)
    requires Consistent(s) && id !in s.clients
    ensures Consistent(Accept(s, id, initialized)) && Live(Accept(s, id, initialized), id)
  {
    var r := Accept(s, id, initialized);
    var v := NewNetworkClient(initialized);
    NewEntryNicknamesOwned(s.clients, s.nicknames, id, v);
    forall m | m in r.clients && !r.clients[m].shutdownCompleted && r.clients[m].nickname != ""
      ensures r.clients[m].nicknameLowercased in r.nicknames && r.nicknames[r.clients[m].nicknameLowercased] == m
    {
      assert m != id && s.clients[m].nickname != "";
    }
    ClientAdded(s, r, id, v);
  }

  lemma {:induction false} JoinAllConsistent(cfg: Config, s: State, c: ClientId, lists: seq<seq<string>>)
    requires Consistent(s) && Live(s, c)
    ensures Consistent(JoinAll(cfg, s, c, lists)) && Stays(s, JoinAll(cfg, s, c, lists), c)
    decreases |lists|
  {
    if lists != [] {
      JoinConsistent(cfg, s, c, lists[0]);
      JoinAllConsistent(cfg, Server.Join(cfg, s, c, lists[0]), c, lists[1..]);
    }
  }

  /** A built-in client whose nickname is not taken keeps the tables consistent. */
  lemma AddVirtualClientConsistent(cfg: Config, s: State, id: ClientId, nickname: string, joins: seq<seq<string>>)
    requires Consistent(s) && id !in s.clients && nickname != "" && Lower(nickname) !in s.nicknames
    ensures Consistent(AddVirtualClient(cfg, s, id, nickname, true, joins))
  {
    var c := NewVirtualClient(nickname);
    var s1 := s.(clients := s.clients[id := c], nicknames := Insert(s.nicknames, c.nicknameLowercased, id));
    assert s1.nicknames == s.nicknames[Lower(nickname) := id];
    forall n | n in s1.nicknames
      ensures s1.nicknames[n] in s1.clients && !s1.clients[s1.nicknames[n]].shutdownCompleted
        && s1.clients[s1.nicknames[n]].nicknameLowercased == n && s1.clients[s1.nicknames[n]].nickname != ""
    {
      if n != Lower(nickname) {
        assert s.nicknames[n] in s.clients;
      }
    }
    forall m | m in s1.clients && !s1.clients[m].shutdownCompleted && s1.clients[m].nickname != ""
      ensures s1.clients[m].nicknameLowercased in s1.nicknames && s1.nicknames[s1.clients[m].nicknameLowercased] == m
    {
      if m != id {
        assert s.nicknames[s.clients[m].nicknameLowercased] == m;
      }
    }
    ClientAdded(s, s1, id, c);
    JoinAllConsistent(cfg, s1, id, joins);
  }

  /** After Init the tables are consistent: every key leads to a channel and
      no channel has members. */
  lemma StartedConsistent(channelIds: map<string, ChannelId>, channels: seq<Channel>)
    requires forall k :: k in channelIds ==> channelIds[k] < |channels|
    requires forall j :: 0 <= j < |channels| ==> channels[j].clients == map[]
    ensures Consistent(Started(channelIds, channels))
  {
  }

  // ------------------------------------------------ the empty nickname

  /** NICK as written takes "" (as in "NICK :") from a registered client
      that may still change its nickname; the key "" then names the client,
      and once the client disconnects with an empty nickname the key stays,
      leading to a client that has been shut down. */
  lemma EmptyNicknameLeaksEntry(cfg: Config, s: State, sender: ClientId, reason: string)
    requires Consistent(s) && Live(s, sender) && IsUserRegistered(s.clients[sender].userState)
    requires !s.clients[sender].userState.isIdentified && s.clients[sender].joinedChannels == {}
    ensures var r1 := NickAsWritten(cfg, s, sender, [""]);
      r1.clients[sender].nickname == "" && "" in r1.nicknames && r1.nicknames[""] == sender
      && var r2 := Disconnect(r1, sender, reason);
      "" in r2.nicknames && r2.nicknames[""] == sender && r2.clients[sender].shutdownCompleted
      && !Consistent(r2)
  {
    var c := s.clients[sender];
    assert c.nickname != "";
    assert "" !in s.nicknames;
    assert NickCheck(c, s.nicknames, sender, [""], false) == Accepted;
    var r1 := NickAsWritten(cfg, s, sender, [""]);
    assert r1 == Rename(cfg, s, sender, "");
    RenameFields(cfg, s, sender, "");
  }

  /** The corrected NICK refuses "" with ERR_NONICKNAMEGIVEN and changes nothing else. */
  lemma EmptyNicknameRefused(cfg: Config, s: State, sender: ClientId)
    requires Sane(s) && sender in s.clients && s.clients[sender].nickname != ""
    requires s.clients[sender].isNetworkClient
    ensures Nick(cfg, s, sender, [""]) == s.(outbox := s.outbox + [NumericReply(sender, ErrNoNicknameGiven, [])])
  {
  }
}
