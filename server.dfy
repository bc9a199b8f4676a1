/** CIRCServer: the server's tables and what each command handler does to
    them, as functions from the state before to the state after. What is sent
    is appended to `outbox`. The loops that compute values (the channel
    lists, the NS text) are written as methods in module ServerLoops. */
module Server {
  import opened Ascii
  import opened Irc
  import opened Wrappers
  import opened Client
  import opened Channel
  import opened Message
  import NickServ
  import Passhash

  /** What the handlers read from the configuration and the build.
      `nickservTable` is NickServ's m_UserPasshashMap (exact-case keys) and
      `sha512` the digest NickServ compares against it. */
  datatype Config = Config(
    name: string,
    motd: seq<string>,
    protected: set<string>,
    build: Build,
    onlineDate: string,
    nickservTable: map<string, seq<Passhash.Byte>>,
    sha512: string -> seq<Passhash.Byte>)

  /** The server's tables. `channelIds` is m_Channels (lowercased name to
      channel), `channels` the channel objects by identity, `clients` every
      client object the server has seen, `nicknames` is m_Nicknames and
      `networkClients` is m_NetworkClients. */
  datatype State = State(
    channelIds: map<string, ChannelId>,
    channels: seq<Channel>,
    clients: map<ClientId, ClientState>,
    nicknames: map<string, ClientId>,
    networkClients: set<ClientId>,
    outbox: seq<Event>)

  /** Every identity the tables hold refers to an object. */
  ghost predicate Sane(s: State)
  {
    Refers(s.channelIds, s.channels, s.clients)
  }

  ghost predicate Refers(channelIds: map<string, ChannelId>, channels: seq<Channel>, clients: map<ClientId, ClientState>)
  {
    (forall k :: k in channelIds ==> channelIds[k] < |channels|)
    && (forall j :: 0 <= j < |channels| ==> channels[j].clients.Keys <= clients.Keys)
    && (forall c :: c in clients ==> JoinedFit(clients[c], |channels|))
  }

  predicate JoinedFit(c: ClientState, n: nat)
  {
    forall j :: j in c.joinedChannels ==> j < n
  }

  /** A handler keeps the tables sane and creates or forgets no client and no channel. */
  ghost predicate Keeps(s: State, r: State)
  {
    Sane(r) && r.clients.Keys == s.clients.Keys && r.channelIds == s.channelIds && |r.channels| == |s.channels|
  }

  ghost predicate Live(s: State, c: ClientId)
  {
    c in s.clients && !s.clients[c].shutdownCompleted
  }

  /** `c` is a live client that lists channel `j` among its joined channels. */
  ghost predicate Lists(clients: map<ClientId, ClientState>, c: ClientId, j: ChannelId)
  {
    c in clients && !clients[c].shutdownCompleted && j in clients[c].joinedChannels
  }

  /** Every member of channel `j` lists it. */
  ghost predicate MembersList(members: map<ClientId, ClientStatus>, j: ChannelId, clients: map<ClientId, ClientState>)
  {
    forall c :: c in members ==> Lists(clients, c, j)
  }

  /** Each member of a channel is a live client that lists the channel. */
  ghost predicate MembersJoined(channels: seq<Channel>, clients: map<ClientId, ClientState>)
  {
    forall j :: 0 <= j < |channels| ==> MembersList(channels[j].clients, j, clients)
  }

  /** If client `c` (whose entry is `v`) is live, each channel it lists has it as a member. */
  ghost predicate InChannels(channels: seq<Channel>, c: ClientId, v: ClientState)
  {
    !v.shutdownCompleted ==> forall j :: j in v.joinedChannels ==> j < |channels| && c in channels[j].clients
  }

  /** Each channel a live client lists has it as a member. */
  ghost predicate JoinedAreMembers(channels: seq<Channel>, clients: map<ClientId, ClientState>)
  {
    forall c :: c in clients ==> InChannels(channels, c, clients[c])
  }

  /** Each key of the nickname table names a live client under its own lowercased nickname. */
  ghost predicate NicknamesOwned(clients: map<ClientId, ClientState>, nicknames: map<string, ClientId>)
  {
    forall n :: n in nicknames ==>
      nicknames[n] in clients && !clients[nicknames[n]].shutdownCompleted
      && clients[nicknames[n]].nicknameLowercased == n && clients[nicknames[n]].nickname != ""
  }

  /** Each live client with a nickname is found under it. */
  ghost predicate NicknamesListed(clients: map<ClientId, ClientState>, nicknames: map<string, ClientId>)
  {
    forall c :: c in clients && !clients[c].shutdownCompleted && clients[c].nickname != "" ==>
      clients[c].nicknameLowercased in nicknames && nicknames[clients[c].nicknameLowercased] == c
  }

  /** A live client has a nickname exactly when it has sent NICK, its
      lowercased nickname is its nickname lowercased, and only registered
      clients are in channels. */
  ghost predicate RegisteredMembers(clients: map<ClientId, ClientState>)
  {
    forall c :: c in clients ==> WellNamed(clients[c])
  }

  /** The registration rule for one client entry. */
  predicate WellNamed(c: ClientState)
  {
    !c.shutdownCompleted ==>
      (c.userState.hasSentNickMessage <==> c.nickname != "")
      && c.nicknameLowercased == Lower(c.nickname)
      && (c.joinedChannels != {} ==> IsUserRegistered(c.userState))
  }

  /** m_NetworkClients holds exactly the live network clients. */
  ghost predicate NetworkListed(clients: map<ClientId, ClientState>, networkClients: set<ClientId>)
  {
    forall c :: c in networkClients <==> c in clients && clients[c].isNetworkClient && !clients[c].shutdownCompleted
  }

  /** What the handlers keep true of the tables. */
  ghost predicate Consistent(s: State)
  {
    Sane(s) && MembersJoined(s.channels, s.clients) && JoinedAreMembers(s.channels, s.clients)
    && NicknamesOwned(s.clients, s.nicknames) && NicknamesListed(s.clients, s.nicknames)
    && RegisteredMembers(s.clients) && NetworkListed(s.clients, s.networkClients)
  }

  // ---------------------------------------------------------------- sending

  function Emit(s: State, events: seq<Event>): State
  {
    s.(outbox := s.outbox + events)
  }

  /** What SendNumericReply sends, with the arguments its template takes:
      only a network client's formatter sends anything. */
  function ReplyTo(c: ClientState, to: ClientId, code: nat, args: seq<string>): seq<Event>
    requires Formattable(code, args)
  {
    if c.isNetworkClient then [NumericReply(to, code, args)] else []
  }

  /** What SendNotice with the server as sender sends: nothing to a virtual client. */
  function NoticeTo(c: ClientState, to: ClientId, text: string): seq<Event>
  {
    if c.isNetworkClient then [ServerNotice(to, text)] else []
  }

  function Reply(s: State, to: ClientId, code: nat, args: seq<string>): State
    requires to in s.clients && Formattable(code, args)
  {
    Emit(s, ReplyTo(s.clients[to], to, code, args))
  }

  function Notify(s: State, to: ClientId, text: string): State
    requires to in s.clients
  {
    Emit(s, NoticeTo(s.clients[to], to, text))
  }

  function Send(s: State, to: ClientId, line: string): State
  {
    Emit(s, [IrcLine(to, line)])
  }

  function Broadcast(s: State, ids: seq<ClientId>, line: string): State
  {
    Emit(s, Lines(ids, line))
  }

  /** A std::map keyed by client pointers, walked in order. */
  ghost function Members(ch: Channel): seq<ClientId>
  {
    Ascending(ch.clients.Keys)
  }

  /** std::map::insert: an existing key keeps its value. */
  function Insert<K, V>(m: map<K, V>, k: K, v: V): (r: map<K, V>)
    ensures k in r && r.Keys == m.Keys + {k}
    ensures k !in m ==> r[k] == v
    ensures forall x :: x in m ==> r[x] == m[x]
  {
    if k in m then m else m[k := v]
  }

  // ------------------------------------------------------ parameter helpers

  function StripHash(p: string): string
  {
    if |p| > 0 && p[0] == '#' then p[1..] else p
  }

  /** The items of a comma-separated channel list: one leading '#' dropped,
      lowercased. */
  function ChannelItems(list: string): (r: seq<string>)
    ensures |r| == |Split(list, ',')|
  {
    var parts := Split(list, ',');
    seq(|parts|, i requires 0 <= i < |parts| => Lower(StripHash(parts[i])))
  }

  /** One word appended as the NAMES and NS loops do it: a space only after a
      non-empty text. */
  function AppendWord(acc: string, w: string): string
  {
    (if acc == "" then acc else acc + " ") + w
  }

  function SpaceJoin(acc: string, words: seq<string>): string
    decreases |words|
  {
    if words == [] then acc else SpaceJoin(AppendWord(acc, words[0]), words[1..])
  }

  // ---------------------------------------------------------- state changes

  /** AddClient on the channel and AddJoinedChannel on the client. */
  function AddMember(s: State, c: ClientId, id: ChannelId, status: ClientStatus): (r: State)
    requires Sane(s) && c in s.clients && id < |s.channels|
    ensures Keeps(s, r)
  {
    s.(channels := s.channels[id := AddClient(s.channels[id], c, status)],
       clients := s.clients[c := AddJoinedChannel(s.clients[c], id)])
  }

  /** RemoveClient on the channel and RemoveJoinedChannel on the client. */
  function RemoveMember(s: State, c: ClientId, id: ChannelId): (r: State)
    requires Sane(s) && c in s.clients && id < |s.channels|
    ensures Keeps(s, r)
  {
    s.(channels := s.channels[id := RemoveClient(s.channels[id], c)],
       clients := s.clients[c := RemoveJoinedChannel(s.clients[c], id)])
  }

  function SetUserState(s: State, c: ClientId, u: UserState): (r: State)
    requires Sane(s) && c in s.clients
    ensures Keeps(s, r)
  {
    s.(clients := s.clients[c := s.clients[c].(userState := u)])
  }

  // ------------------------------------------------------------- welcome

  /** _CheckForPresetNickname: a protected nickname is told to identify. */
  function PresetNotices(cfg: Config, c: ClientState, id: ClientId): seq<Event>
  {
    if c.nicknameLowercased in cfg.protected then
      NoticeTo(c, id, "This nickname is protected.")
      + NoticeTo(c, id, "Please identify with your password in the next " + IdentifyTimeout + " seconds or you will be disconnected.")
      + NoticeTo(c, id, "Use the command /NS IDENTIFY <password> to do so.")
    else []
  }

  const IdentifyTimeout := "240"

  /** One reply of `code` for each line, the line as its argument. */
  function ReplyLines(c: ClientState, id: ClientId, code: nat, lines: seq<string>): (r: seq<Event>)
    requires Formattable(code, [""])
    ensures !c.isNetworkClient ==> r == []
    ensures c.isNetworkClient ==> |r| == |lines| && forall i :: 0 <= i < |lines| ==> r[i] == NumericReply(id, code, [lines[i]])
    decreases |lines|
  {
    if lines == [] then [] else ReplyTo(c, id, code, [lines[0]]) + ReplyLines(c, id, code, lines[1..])
  }

  /** ReceiveMessage_MOTD: a registered client gets the start line, one
      RPL_MOTD per line of the message of the day in order, and the end line. */
  function MotdReplies(cfg: Config, c: ClientState, id: ClientId): (r: seq<Event>)
    ensures !IsUserRegistered(c.userState) || !c.isNetworkClient ==> r == []
    ensures IsUserRegistered(c.userState) && c.isNetworkClient ==>
      |r| == |cfg.motd| + 2 && r[0] == NumericReply(id, RplMotdStart, [cfg.name])
      && (forall i :: 0 <= i < |cfg.motd| ==> r[i + 1] == NumericReply(id, RplMotd, [cfg.motd[i]]))
      && r[|cfg.motd| + 1] == NumericReply(id, RplEndOfMotd, [])
  {
    if !IsUserRegistered(c.userState) then []
    else ReplyTo(c, id, RplMotdStart, [cfg.name]) + ReplyLines(c, id, RplMotd, cfg.motd) + ReplyTo(c, id, RplEndOfMotd, [])
  }

  function Motd(cfg: Config, s: State, c: ClientId): State
    requires c in s.clients
  {
    Emit(s, MotdReplies(cfg, s.clients[c], c))
  }

  /** _WelcomeClient: RPL_WELCOME comes first, and only a network client gets
      the numeric replies; the closing MODE line goes to every client. */
  function WelcomeEvents(cfg: Config, c: ClientState, id: ClientId): (r: seq<Event>)
    ensures c.isNetworkClient ==> |r| > 0 && r[0] == NumericReply(id, RplWelcome, [cfg.name, c.nickname])
    ensures !c.isNetworkClient ==> r == [IrcLine(id, ":" + c.nickname + " MODE " + c.nickname + " :+i")]
  {
    var nick := c.nickname;
    ReplyTo(c, id, RplWelcome, [cfg.name, nick]) + ReplyTo(c, id, RplYourHost, [cfg.name])
    + ReplyTo(c, id, RplCreated, []) + ReplyTo(c, id, RplMyInfo, [cfg.name])
    + MotdReplies(cfg, c, id) + [IrcLine(id, ":" + nick + " MODE " + nick + " :+i")]
    + PresetNotices(cfg, c, id)
  }

  function Welcome(cfg: Config, s: State, c: ClientId): State
    requires c in s.clients
  {
    Emit(s, WelcomeEvents(cfg, s.clients[c], c))
  }

  // ------------------------------------------------------------------ NICK

  /** What ReceiveMessage_NICK decides, in the order it checks. */
  datatype NickVerdict = NoNicknameGiven | Unchanged | Erroneous | InUse | AfterIdentify | AfterJoin | Accepted

  /** The checks of ReceiveMessage_NICK as written when `rejectEmpty` is
      false, and with an empty nickname refused like a missing one when it is
      true (see NickAsWritten). The code makes the last two checks on the
      client that the old key names; they are made on the sender, which that
      key names whenever the tables are Consistent. */
  function NickCheck(c: ClientState, nicknames: map<string, ClientId>, sender: ClientId, params: seq<string>, rejectEmpty: bool): (r: NickVerdict)
    ensures !r.NoNicknameGiven? ==> params != []
    ensures r == Accepted ==>
      params[0] != c.nickname && (rejectEmpty ==> params[0] != "")
      && (Lower(params[0]) in nicknames ==> nicknames[Lower(params[0])] == sender)
  {
    if params == [] then NoNicknameGiven
    else
      var nickname := params[0];
      if nickname == c.nickname then Unchanged
      else if rejectEmpty && nickname == "" then NoNicknameGiven
      else if |nickname| > NicknameLength || !CStringAll(nickname, IsNicknameChar) then Erroneous
      else if Lower(nickname) in nicknames && nicknames[Lower(nickname)] != sender then InUse
      else if c.nickname != "" && c.userState.isIdentified then AfterIdentify
      else if c.nickname != "" && c.joinedChannels != {} then AfterJoin
      else Accepted
  }

  /** What NICK sends when it does not take the nickname. */
  function NickRefusal(c: ClientState, sender: ClientId, params: seq<string>, verdict: NickVerdict): seq<Event>
    requires !verdict.NoNicknameGiven? ==> params != []
  {
    match verdict
    case NoNicknameGiven => ReplyTo(c, sender, ErrNoNicknameGiven, [])
    case Unchanged => []
    case Erroneous => ReplyTo(c, sender, ErrErroneusNickname, [params[0]])
    case InUse => ReplyTo(c, sender, ErrNicknameInUse, [params[0]])
    case AfterIdentify => NoticeTo(c, sender, "You cannot change your nickname after having identified!")
    case AfterJoin => NoticeTo(c, sender, "You cannot change your nickname after having joined a channel!")
    case Accepted => []
  }

  /** ReceiveMessage_NICK: each refusal has its reply, an accepted nickname is taken. */
  function NickWith(cfg: Config, s: State, sender: ClientId, params: seq<string>, rejectEmpty: bool): (r: State)
    requires Sane(s) && sender in s.clients
    ensures Keeps(s, r)
  {
    var verdict := NickCheck(s.clients[sender], s.nicknames, sender, params, rejectEmpty);
    if verdict == Accepted then Rename(cfg, s, sender, params[0])
    else Emit(s, NickRefusal(s.clients[sender], sender, params, verdict))
  }

  /** The accepted nickname replaces the old one: the old key goes (the NICK
      line tells the client), the new key is inserted and both spellings are
      set. A registered client is checked again for a protected nickname;
      otherwise the user state records the NICK and the welcome follows when
      USER was already sent. */
  function Rename(cfg: Config, s: State, sender: ClientId, nickname: string): (r: State)
    requires Sane(s) && sender in s.clients
    ensures Keeps(s, r)
  {
    var c := s.clients[sender];
    var low := Lower(nickname);
    var kept := if c.nickname == "" then s.nicknames else s.nicknames - {c.nicknameLowercased};
    var line := if c.nickname == "" then [] else [IrcLine(sender, ":" + c.prefix + " NICK " + nickname)];
    var u := c.userState;
    var v := SetNickname(c, nickname, low).(userState := u.(hasSentNickMessage := true));
    var after := if IsUserRegistered(u) then PresetNotices(cfg, v, sender)
                 else if u.hasSentUserMessage then WelcomeEvents(cfg, v, sender)
                 else [];
    s.(nicknames := Insert(kept, low, sender), clients := s.clients[sender := v], outbox := s.outbox + line + after)
  }

  /** The NICK handler the rest of the model uses: an empty nickname is refused
      like a missing one. */
  function Nick(cfg: Config, s: State, sender: ClientId, params: seq<string>): (r: State)
    requires Sane(s) && sender in s.clients
    ensures Keeps(s, r)
  {
    NickWith(cfg, s, sender, params, true)
  }

  /** ReceiveMessage_NICK exactly as written. */
  function NickAsWritten(cfg: Config, s: State, sender: ClientId, params: seq<string>): (r: State)
    requires Sane(s) && sender in s.clients
    ensures Keeps(s, r)
  {
    NickWith(cfg, s, sender, params, false)
  }

  // ------------------------------------------------------------------ USER

  /** ReceiveMessage_USER: the parameters are ignored. */
  function User(cfg: Config, s: State, sender: ClientId): (r: State)
    requires Sane(s) && sender in s.clients
    ensures Keeps(s, r)
  {
    var u := s.clients[sender].userState;
    if IsUserRegistered(u) then s
    else
      var s1 := SetUserState(s, sender, u.(hasSentUserMessage := true));
      if u.hasSentNickMessage then Welcome(cfg, s1, sender) else s1
  }

  // ----------------------------------------------------------------- TOPIC

  /** ReceiveMessage_TOPIC: topics are preset, so only the query is answered. */
  function Topic(s: State, sender: ClientId, params: seq<string>): (r: State)
    requires Sane(s) && sender in s.clients
    ensures r == s.(outbox := r.outbox)
  {
    if !IsUserRegistered(s.clients[sender].userState) then s
    else if params == [] then Reply(s, sender, ErrNeedMoreParams, ["TOPIC"])
    else if |params| >= 2 then s
    else
      var key := Lower(StripHash(params[0]));
      if key !in s.channelIds then Reply(s, sender, ErrNoSuchChannel, [key])
      else
        var ch := s.channels[s.channelIds[key]];
        if ch.topic == "" then Reply(s, sender, RplNoTopic, [key])
        else Reply(s, sender, RplTopic, [key, ch.topic])
  }

  // ----------------------------------------------------------------- NAMES

  /** One entry of the NAMES list: "+" for a voiced member, then the nickname. */
  ghost function NameEntry(s: State, ch: Channel, m: ClientId): string
    requires m in ch.clients && m in s.clients
  {
    (if ch.clients[m] == Voice then "+" else "") + s.clients[m].nickname
  }

  /** The entries of the members in the order the member map is walked. */
  ghost function NameEntries(s: State, ch: Channel, ms: seq<ClientId>): (r: seq<string>)
    requires forall i :: 0 <= i < |ms| ==> ms[i] in ch.clients && ms[i] in s.clients
    ensures |r| == |ms|
  {
    seq(|ms|, i requires 0 <= i < |ms| => NameEntry(s, ch, ms[i]))
  }

  ghost function NameList(s: State, id: ChannelId): string
    requires Sane(s) && id < |s.channels|
  {
    var ch := s.channels[id];
    AscendingProperties(ch.clients.Keys);
    SpaceJoin("", NameEntries(s, ch, Members(ch)))
  }

  ghost function NamesItems(s: State, sender: ClientId, keys: seq<string>): (r: State)
    requires Sane(s) && sender in s.clients
    ensures r == s.(outbox := r.outbox)
    decreases |keys|
  {
    if keys == [] then s
    else
      var key := keys[0];
      var s1 := if key in s.channelIds then Reply(s, sender, RplNamReply, [key, NameList(s, s.channelIds[key])]) else s;
      NamesItems(Reply(s1, sender, RplEndOfNames, [key]), sender, keys[1..])
  }

  /** ReceiveMessage_NAMES: nothing without a channel list. */
  ghost function Names(s: State, sender: ClientId, params: seq<string>): (r: State)
    requires Sane(s) && sender in s.clients
    ensures r == s.(outbox := r.outbox)
  {
    if !IsUserRegistered(s.clients[sender].userState) || params == [] then s
    else NamesItems(s, sender, ChannelItems(params[0]))
  }

  // ----------------------------------------------------------------- JOIN

  const ChanServPrefix := NewVirtualClient("ChanServ").prefix

  /** CChanServ::SetClientModeInChannel: a voiced member is announced to the channel. */
  ghost function SetClientModeInChannel(s: State, c: ClientId, id: ChannelId): (r: State)
    requires Sane(s) && id < |s.channels| && c in s.channels[id].clients
    ensures r == s.(outbox := r.outbox)
  {
    var ch := s.channels[id];
    if ch.clients[c] == Voice then
      Broadcast(s, Members(ch), ":" + ChanServPrefix + " MODE #" + ch.name + " +v " + s.clients[c].nickname)
    else s
  }

  /** Virtual clients and allowed users speak; the others may only watch. */
  predicate IsVoiced(c: ClientState, ch: Channel)
  {
    !c.isNetworkClient || c.nicknameLowercased in ch.allowedUsers
  }

  /** One item of a JOIN list. */
  ghost function JoinItem(s: State, sender: ClientId, key: string): (r: State)
    requires Sane(s) && sender in s.clients
    ensures Keeps(s, r)
  {
    if key !in s.channelIds then Reply(s, sender, ErrNoSuchChannel, [key])
    else
      var id := s.channelIds[key];
      var ch := s.channels[id];
      var c := s.clients[sender];
      var voiced := IsVoiced(c, ch);
      if !voiced && !ch.allowObservers then Notify(s, sender, "You are not allowed to join this channel!")
      else if sender in ch.clients then s
      else
        var s1 := AddMember(s, sender, id, if voiced then Voice else NoStatus);
        var s2 := Broadcast(s1, Members(s1.channels[id]), ":" + c.prefix + " JOIN #" + ch.name);
        var s3 := SetClientModeInChannel(s2, sender, id);
        var s4 := Topic(s3, sender, [ch.name]);
        Names(s4, sender, [ch.name])
  }

  ghost function JoinItems(s: State, sender: ClientId, keys: seq<string>): (r: State)
    requires Sane(s) && sender in s.clients
    ensures Keeps(s, r)
    decreases |keys|
  {
    if keys == [] then s else JoinItems(JoinItem(s, sender, keys[0]), sender, keys[1..])
  }

  /** "JOIN 0": a PART of each joined channel, by its configured name. */
  ghost function PartAll(s: State, sender: ClientId, ids: seq<ChannelId>): (r: State)
    requires Sane(s) && sender in s.clients
    requires forall i :: 0 <= i < |ids| ==> ids[i] < |s.channels|
    ensures Keeps(s, r)
    decreases |ids|
  {
    if ids == [] then s else PartAll(Part(s, sender, [s.channels[ids[0]].name]), sender, ids[1..])
  }

  /** The identification a protected nickname still owes. */
  predicate MustIdentify(cfg: Config, c: ClientState)
  {
    c.nicknameLowercased in cfg.protected && !c.userState.isIdentified
  }

  /** ReceiveMessage_JOIN. After "JOIN 0" has parted every channel, "0" is
      still looked up as a channel name. */
  ghost function Join(cfg: Config, s: State, sender: ClientId, params: seq<string>): (r: State)
    requires Sane(s) && sender in s.clients
    ensures Keeps(s, r)
  {
    if !IsUserRegistered(s.clients[sender].userState) then s
    else if params == [] then Reply(s, sender, ErrNeedMoreParams, ["JOIN"])
    else
      var joined := s.clients[sender].joinedChannels;
      AscendingBelow(joined, |s.channels|);
      var s1 := if params[0] == "0" then PartAll(s, sender, Ascending(joined)) else s;
      if MustIdentify(cfg, s1.clients[sender]) then Notify(s1, sender, "Please identify first!")
      else JoinItems(s1, sender, ChannelItems(params[0]))
  }

  // ----------------------------------------------------------------- PART

  /** Leaving a channel: the PART line to every member, the leaver included. */
  ghost function Leave(s: State, sender: ClientId, id: ChannelId): (r: State)
    requires Sane(s) && sender in s.clients && id < |s.channels|
    ensures Keeps(s, r)
  {
    var ch := s.channels[id];
    var s1 := Broadcast(s, Members(ch), ":" + s.clients[sender].prefix + " PART #" + ch.name);
    RemoveMember(s1, sender, id)
  }

  /** The items of a PART list; a channel the sender is not in ends the list. */
  ghost function PartItems(s: State, sender: ClientId, keys: seq<string>): (r: State)
    requires Sane(s) && sender in s.clients
    ensures Keeps(s, r)
    decreases |keys|
  {
    if keys == [] then s
    else
      var key := keys[0];
      if key !in s.channelIds then PartItems(Reply(s, sender, ErrNoSuchChannel, [key]), sender, keys[1..])
      else
        var id := s.channelIds[key];
        if sender !in s.channels[id].clients then Reply(s, sender, ErrNotOnChannel, [key])
        else PartItems(Leave(s, sender, id), sender, keys[1..])
  }

  /** ReceiveMessage_PART; a parting message is ignored. */
  ghost function Part(s: State, sender: ClientId, params: seq<string>): (r: State)
    requires Sane(s) && sender in s.clients
    ensures Keeps(s, r)
  {
    if !IsUserRegistered(s.clients[sender].userState) then s
    else if params == [] then Reply(s, sender, ErrNeedMoreParams, ["PART"])
    else PartItems(s, sender, ChannelItems(params[0]))
  }

  // --------------------------------------------------------------- PRIVMSG

  /** The identities of `ids` other than `x`, in order. */
  function Except(ids: seq<ClientId>, x: ClientId): (r: seq<ClientId>)
    decreases |ids|
  {
    if ids == [] then [] else (if ids[0] == x then [] else [ids[0]]) + Except(ids[1..], x)
  }

  /** The client with its IsIdentified flag set, as a successful IDENTIFY leaves it. */
  function Identify(c: ClientState): ClientState
  {
    c.(userState := c.userState.(isIdentified := true))
  }

  /** The client under `nick` is NickServ: the virtual client that holds "nickserv". */
  predicate IsNickServ(s: State, nick: string, target: ClientId)
  {
    nick == "nickserv" && target in s.clients && !s.clients[target].isNetworkClient
  }

  /** The sender as NickServ's SendPrivateMessage leaves it: identified by a
      correct IDENTIFY, unchanged otherwise. */
  function ToNickServ(cfg: Config, s: State, sender: ClientId, text: string): (r: State)
    requires Sane(s) && sender in s.clients
    ensures Keeps(s, r)
  {
    SetUserState(s, sender, NickServ.Receive(cfg.nickservTable, cfg.sha512, s.clients[sender], text).client.userState)
  }

  /** ReceiveMessage_PRIVMSG: to a channel from a voiced member, or to a
      nickname. A message to NickServ is handled before the handler returns,
      so a correct IDENTIFY identifies the sender. */
  ghost function Privmsg(cfg: Config, s: State, sender: ClientId, params: seq<string>): (r: State)
    requires Sane(s) && sender in s.clients
    ensures r == s.(outbox := r.outbox, clients := r.clients)
    ensures r.clients == s.clients || r.clients == s.clients[sender := Identify(s.clients[sender])]
  {
    if !IsUserRegistered(s.clients[sender].userState) then s
    else if params == [] then Reply(s, sender, ErrNoRecipient, ["PRIVMSG"])
    else if |params| == 1 then Reply(s, sender, ErrNoTextToSend, [])
    else
      var target := params[0];
      if |target| > 0 && target[0] == '#' then
        var key := Lower(target[1..]);
        if key !in s.channelIds then Reply(s, sender, ErrNoSuchChannel, [key])
        else
          var ch := s.channels[s.channelIds[key]];
          if sender !in ch.clients || ch.clients[sender] == NoStatus then Reply(s, sender, ErrCannotSendToChan, [key])
          else Broadcast(s, Except(Members(ch), sender), ":" + s.clients[sender].prefix + " PRIVMSG #" + ch.name + " :" + params[1])
      else
        var nick := Lower(target);
        if nick !in s.nicknames then Reply(s, sender, ErrNoSuchNick, [nick])
        else
          var delivered := Emit(s, [PrivateMessage(s.nicknames[nick], sender, params[1])]);
          if IsNickServ(s, nick, s.nicknames[nick]) then
            NickServ.ReceiveOutcome(cfg.nickservTable, cfg.sha512, s.clients[sender], params[1]);
            ToNickServ(cfg, delivered, sender, params[1])
          else delivered
  }

  /** ReceiveMessage_NS: "NS <words>" is "PRIVMSG nickserv :<words>". */
  ghost function Ns(cfg: Config, s: State, sender: ClientId, params: seq<string>): (r: State)
    requires Sane(s) && sender in s.clients
    ensures r == s.(outbox := r.outbox, clients := r.clients)
    ensures r.clients == s.clients || r.clients == s.clients[sender := Identify(s.clients[sender])]
  {
    if !IsUserRegistered(s.clients[sender].userState) then s
    else Privmsg(cfg, s, sender, ["nickserv", SpaceJoin("", params)])
  }

  // ------------------------------------------------- PING, VERSION, INFO

  function Ping(cfg: Config, s: State, sender: ClientId, params: seq<string>): (r: State)
    requires sender in s.clients
    ensures r == s.(outbox := r.outbox)
  {
    if !IsUserRegistered(s.clients[sender].userState) then s
    else if params == [] then Reply(s, sender, ErrNeedMoreParams, ["PING"])
    else Send(s, sender, ":" + cfg.name + " PONG " + cfg.name + " :" + params[0])
  }

  function Version(cfg: Config, s: State, sender: ClientId): (r: State)
    requires sender in s.clients
    ensures r == s.(outbox := r.outbox)
  {
    Reply(s, sender, RplVersion, [cfg.name])
  }

  /** The seven lines of credits. */
  function InfoLines(cfg: Config): seq<string>
  {
    [cfg.build.productName, cfg.build.versionCopyright, "",
     cfg.build.versionId + " (" + cfg.build.environmentName + ")", "",
     "Birth Date: " + cfg.build.versionDate, "On-line since " + cfg.onlineDate]
  }

  function Info(cfg: Config, s: State, sender: ClientId): (r: State)
    requires sender in s.clients
    ensures r == s.(outbox := r.outbox)
  {
    Emit(s, ReplyLines(s.clients[sender], sender, RplInfo, InfoLines(cfg)))
  }

  // ------------------------------------------------------------ disconnect

  /** The members not yet handled, each once, in the order met. */
  function Fresh(ms: seq<ClientId>, handled: set<ClientId>): (r: seq<ClientId>)
    decreases |ms|
  {
    if ms == [] then []
    else if ms[0] in handled then Fresh(ms[1..], handled)
    else [ms[0]] + Fresh(ms[1..], handled + {ms[0]})
  }

  /** The joined channels one by one: the QUIT line to the members not yet
      told, then the client leaves the channel (its own joined set is left as
      it is). */
  ghost function QuitChannels(s: State, client: ClientId, ids: seq<ChannelId>, handled: set<ClientId>, line: string): (r: State)
    requires Sane(s)
    requires forall i :: 0 <= i < |ids| ==> ids[i] < |s.channels|
    ensures Sane(r) && r.clients == s.clients && r.channelIds == s.channelIds && |r.channels| == |s.channels|
    ensures r.nicknames == s.nicknames && r.networkClients == s.networkClients
    decreases |ids|
  {
    if ids == [] then s
    else
      var id := ids[0];
      var ch := s.channels[id];
      var s1 := Broadcast(s, Fresh(Members(ch), handled), line);
      QuitChannels(s1.(channels := s1.channels[id := RemoveClient(ch, client)]), client, ids[1..], handled + ch.clients.Keys, line)
  }

  /** The QUIT line to every member of a joined channel, the channels left and
      the nickname freed. */
  ghost function QuitAll(s: State, client: ClientId, reason: string): (r: State)
    requires Sane(s) && client in s.clients
    ensures Sane(r) && r.clients == s.clients && r.channelIds == s.channelIds && |r.channels| == |s.channels|
    ensures r.networkClients == s.networkClients
  {
    var c := s.clients[client];
    AscendingBelow(c.joinedChannels, |s.channels|);
    var s0 := QuitChannels(s, client, Ascending(c.joinedChannels), {}, ":" + c.prefix + " QUIT :" + reason);
    s0.(nicknames := s0.nicknames - {c.nicknameLowercased})
  }

  /** DisconnectNetworkClient. A client already shut down is left alone. */
  ghost function Disconnect(s: State, client: ClientId, reason: string): (r: State)
    requires Sane(s) && client in s.clients
    ensures Keeps(s, r)
  {
    var c := s.clients[client];
    if c.shutdownCompleted then s
    else
      var s1 := if c.nickname == "" then s else QuitAll(s, client, reason);
      var bye := if c.initialized then [IrcLine(client, "ERROR :Closing Link: " + NicknameAsTarget(c) + " (" + reason + ")")] else [];
      s1.(clients := s1.clients[client := c.(shutdownCompleted := true)], networkClients := s1.networkClients - {client},
          outbox := s1.outbox + bye)
  }

  /** ReceiveMessage_QUIT: a quit message is ignored. */
  ghost function Quit(s: State, sender: ClientId): (r: State)
    requires Sane(s) && sender in s.clients
    ensures Keeps(s, r)
  {
    if !IsUserRegistered(s.clients[sender].userState) then s else Disconnect(s, sender, "Quit")
  }

  // --------------------------------------------------------------- dispatch

  /** A handler of the command table applied to a network client's message. */
  ghost function Handle(cfg: Config, s: State, sender: ClientId, h: Handler, params: seq<string>): (r: State)
    requires Sane(s) && sender in s.clients
    ensures Keeps(s, r)
  {
    match h
    case Info => Info(cfg, s, sender)
    case Join => Join(cfg, s, sender, params)
    case Motd => Motd(cfg, s, sender)
    case Names => Names(s, sender, params)
    case Nick => Nick(cfg, s, sender, params)
    case Ns => Ns(cfg, s, sender, params)
    case Part => Part(s, sender, params)
    case Ping => Ping(cfg, s, sender, params)
    case Pong => s
    case Privmsg => Privmsg(cfg, s, sender, params)
    case Quit => Quit(s, sender)
    case Topic => Topic(s, sender, params)
    case User => User(cfg, s, sender)
    case Version => Version(cfg, s, sender)
  }

  /** _ReceiveMessage: an invalid line disconnects, an unknown command is ignored. */
  ghost function Receive(cfg: Config, s: State, sender: ClientId, m: string): (r: State)
    requires Sane(s) && sender in s.clients
    ensures Keeps(s, r)
  {
    var p := Parse(m);
    if p.Invalid? then Disconnect(s, sender, "Invalid message")
    else match Dispatch(p)
      case None => s
      case Some(h) => Handle(cfg, s, sender, h, p.params)
  }

  // ------------------------------------------------------ clients arriving

  /** _HandleNewConnection: the new client joins m_NetworkClients. */
  function Accept(s: State, id: ClientId, initialized: bool): (r: State)
    requires Sane(s) && id !in s.clients
    ensures Sane(r) && r.clients.Keys == s.clients.Keys + {id}
  {
    s.(clients := s.clients[id := NewNetworkClient(initialized)], networkClients := s.networkClients + {id})
  }

  /** The JOINs a virtual client's PostInit issues. */
  ghost function JoinAll(cfg: Config, s: State, c: ClientId, lists: seq<seq<string>>): (r: State)
    requires Sane(s) && c in s.clients
    ensures Keeps(s, r)
    decreases |lists|
  {
    if lists == [] then s else JoinAll(cfg, Join(cfg, s, c, lists[0]), c, lists[1..])
  }

  /** AddVirtualClient: after a successful Init the nickname is taken
      unchecked (an existing key is kept) and PostInit runs its JOINs. */
  ghost function AddVirtualClient(cfg: Config, s: State, id: ClientId, nickname: string, initialized: bool, joins: seq<seq<string>>): (r: State)
    requires Sane(s) && id !in s.clients
    ensures Sane(r)
  {
    if !initialized then s
    else
      var c := NewVirtualClient(nickname);
      var s1 := s.(clients := s.clients[id := c], nicknames := Insert(s.nicknames, c.nicknameLowercased, id));
      JoinAll(cfg, s1, id, joins)
  }

  /** ChanServ's PostInit: one JOIN per configured channel. */
  function ChannelJoins(channels: seq<Channel>): (r: seq<seq<string>>)
    ensures |r| == |channels|
    ensures forall j :: 0 <= j < |r| ==> |r[j]| == 1 && r[j][0] == Lower(channels[j].name)
  {
    seq(|channels|, j requires 0 <= j < |channels| => [Lower(channels[j].name)])
  }

  /** The server right after Init: the loaded channels and nobody else. */
  function Started(channelIds: map<string, ChannelId>, channels: seq<Channel>): State
  {
    State(channelIds, channels, map[], map[], {}, [])
  }
}
