/** Who receives what: the recipients of the JOIN, PART, PRIVMSG and QUIT
    lines, stated as "once to each of these clients and to nobody else". */
module ServerDelivery {
  import opened Ascii
  import opened Irc
  import opened Client
  import opened Channel
  import opened Server
  import opened ServerLemmas
  import NickServ

  predicate Distinct(q: seq<nat>)
  {
    forall i, j :: 0 <= i < j < |q| ==> q[i] != q[j]
  }

  /** The events after the first |s.outbox| are the new ones. */
  ghost predicate Extends(s: State, r: State)
  {
    |s.outbox| <= |r.outbox| && r.outbox[..|s.outbox|] == s.outbox
  }

  /** `tail` is `line` sent once to each of `recipients` and to nobody else. */
  ghost predicate OncePerRecipient(tail: seq<Event>, recipients: set<ClientId>, line: string)
  {
    (forall i :: 0 <= i < |tail| ==> tail[i] == IrcLine(tail[i].to, line) && tail[i].to in recipients)
    && (forall m :: m in recipients ==> exists i :: 0 <= i < |tail| && tail[i].to == m)
    && (forall i, j :: 0 <= i < j < |tail| ==> tail[i].to != tail[j].to)
  }

  // ------------------------------------------------------------ sequences

  lemma DistinctCons(h: nat, t: seq<nat>)
    requires Distinct(t) && h !in t
    ensures Distinct([h] + t)
  {
    var q := [h] + t;
    forall i, j | 0 <= i < j < |q| ensures q[i] != q[j] {
      assert q[j] == t[j - 1];
      if i > 0 {
        assert q[i] == t[i - 1];
      }
    }
  }

  lemma DistinctTail(q: seq<nat>)
    requires Distinct(q) && q != []
    ensures Distinct(q[1..]) && q[0] !in q[1..]
  {
    forall i, j | 0 <= i < j < |q[1..]| ensures q[1..][i] != q[1..][j] {
      assert q[1..][i] == q[i + 1] && q[1..][j] == q[j + 1];
    }
    forall j | 0 <= j < |q[1..]| ensures q[1..][j] != q[0] {
      assert q[1..][j] == q[j + 1];
    }
  }

  lemma DistinctAppend(a: seq<nat>, b: seq<nat>)
    requires Distinct(a) && Distinct(b)
    requires forall m :: m in a ==> m !in b
    ensures Distinct(a + b)
  {
    var q := a + b;
    forall i, j | 0 <= i < j < |q| ensures q[i] != q[j] {
      if j < |a| {
        assert q[i] == a[i] && q[j] == a[j];
      } else if i >= |a| {
        assert q[i] == b[i - |a|] && q[j] == b[j - |a|];
      } else {
        assert q[i] == a[i] && q[j] == b[j - |a|] && a[i] in a;
      }
    }
  }

  lemma LinesAppend(a: seq<ClientId>, b: seq<ClientId>, line: string)
    ensures Lines(a + b, line) == Lines(a, line) + Lines(b, line)
  {
  }

  lemma LinesConcat(a: seq<Event>, f: seq<ClientId>, rest: seq<ClientId>, line: string)
    ensures a + Lines(f, line) + Lines(rest, line) == a + Lines(f + rest, line)
  {
    LinesAppend(f, rest, line);
  }

  /** A list of distinct clients holding exactly `recipients` gets the line
      once each. */
  lemma LinesOnce(q: seq<ClientId>, recipients: set<ClientId>, line: string)
    requires Distinct(q)
    requires forall m :: m in q <==> m in recipients
    ensures OncePerRecipient(Lines(q, line), recipients, line)
  {
    var t := Lines(q, line);
    forall m | m in recipients ensures exists i :: 0 <= i < |t| && t[i].to == m {
      var i :| 0 <= i < |q| && q[i] == m;
      assert t[i].to == m;
    }
  }

  lemma MembersOnce(ch: Channel, line: string)
    ensures OncePerRecipient(Lines(Members(ch), line), ch.clients.Keys, line)
  {
    AscendingProperties(ch.clients.Keys);
    LinesOnce(Members(ch), ch.clients.Keys, line);
  }

  lemma EmitExtends(s: State, events: seq<Event>)
    ensures Extends(s, Emit(s, events))
    ensures Emit(s, events).outbox[|s.outbox|..] == events
  {
  }

  lemma ExtendsTrans(a: State, b: State, c: State)
    requires Extends(a, b) && Extends(b, c)
    ensures Extends(a, c)
    ensures c.outbox[|a.outbox|..] == b.outbox[|a.outbox|..] + c.outbox[|b.outbox|..]
  {
    assert c.outbox[..|a.outbox|] == c.outbox[..|b.outbox|][..|a.outbox|];
    assert c.outbox[|a.outbox|..] == c.outbox[|a.outbox|..|b.outbox|] + c.outbox[|b.outbox|..];
    assert c.outbox[|a.outbox|..|b.outbox|] == c.outbox[..|b.outbox|][|a.outbox|..];
  }

  // ------------------------------------------------------------- PRIVMSG

  /** Except drops exactly `x` and keeps the others distinct. */
  lemma {:induction false} ExceptFacts(ids: seq<ClientId>, x: ClientId)
    requires Distinct(ids)
    ensures forall m :: m in Except(ids, x) <==> m in ids && m != x
    ensures Distinct(Except(ids, x))
    decreases |ids|
  {
    if ids != [] {
      DistinctTail(ids);
      ExceptFacts(ids[1..], x);
      assert forall m :: m in ids <==> m == ids[0] || m in ids[1..];
      if ids[0] != x {
        DistinctCons(ids[0], Except(ids[1..], x));
      }
    }
  }

  /** A channel PRIVMSG from a voiced member goes once to every other member
      and to nobody else; from anyone else it is refused with
      ERR_CANNOTSENDTOCHAN and nothing is delivered. */
  lemma PrivmsgToChannel(cfg: Config, s: State, sender: ClientId, params: seq<string>)
    requires Sane(s) && sender in s.clients && IsUserRegistered(s.clients[sender].userState)
    requires |params| >= 2 && |params[0]| > 0 && params[0][0] == '#'
    requires Lower(params[0][1..]) in s.channelIds
    ensures var r := Privmsg(cfg, s, sender, params);
      var key := Lower(params[0][1..]);
      var ch := s.channels[s.channelIds[key]];
      var line := ":" + s.clients[sender].prefix + " PRIVMSG #" + ch.name + " :" + params[1];
      Extends(s, r)
      && (sender in ch.clients && ch.clients[sender] == Voice ==>
            OncePerRecipient(r.outbox[|s.outbox|..], ch.clients.Keys - {sender}, line))
      && (!(sender in ch.clients && ch.clients[sender] == Voice) ==>
            r.outbox == s.outbox + (if s.clients[sender].isNetworkClient then [NumericReply(sender, ErrCannotSendToChan, [key])] else []))
  {
    var key := Lower(params[0][1..]);
    var ch := s.channels[s.channelIds[key]];
    var line := ":" + s.clients[sender].prefix + " PRIVMSG #" + ch.name + " :" + params[1];
    var r := Privmsg(cfg, s, sender, params);
    if sender in ch.clients && ch.clients[sender] == Voice {
      var q := Except(Members(ch), sender);
      AscendingProperties(ch.clients.Keys);
      ExceptFacts(Members(ch), sender);
      LinesOnce(q, ch.clients.Keys - {sender}, line);
      assert r == Emit(s, Lines(q, line));
      EmitExtends(s, Lines(q, line));
    } else {
      EmitExtends(s, ReplyTo(s.clients[sender], sender, ErrCannotSendToChan, [key]));
    }
  }

  /** A PRIVMSG to a nickname reaches, as a private message, the live client
      whose nickname is that one up to case; an unknown nickname is answered
      with ERR_NOSUCHNICK and the lowercased name. */
  lemma PrivmsgToNickname(cfg: Config, s: State, sender: ClientId, params: seq<string>, target: ClientId)
    requires Consistent(s) && sender in s.clients && IsUserRegistered(s.clients[sender].userState)
    requires |params| >= 2 && !(|params[0]| > 0 && params[0][0] == '#')
    ensures var r := Privmsg(cfg, s, sender, params);
      Live(s, target) && s.clients[target].nickname != "" && Lower(s.clients[target].nickname) == Lower(params[0]) ==>
        r.outbox == s.outbox + [PrivateMessage(target, sender, params[1])]
    ensures var r := Privmsg(cfg, s, sender, params);
      Lower(params[0]) !in s.nicknames && s.clients[sender].isNetworkClient ==>
        r.outbox == s.outbox + [NumericReply(sender, ErrNoSuchNick, [Lower(params[0])])]
  {
  }

  /** A PRIVMSG to NickServ hands it the text and, before the handler
      returns, identifies the sender exactly when NickServ's IDENTIFY accepts;
      nothing else changes, and the tables stay consistent. */
  lemma PrivmsgToNickServ(cfg: Config, s: State, sender: ClientId, params: seq<string>, ns: ClientId)
    requires Consistent(s) && Live(s, sender) && IsUserRegistered(s.clients[sender].userState)
    requires |params| >= 2 && Lower(params[0]) == "nickserv"
    requires "nickserv" in s.nicknames && s.nicknames["nickserv"] == ns && ns in s.clients && !s.clients[ns].isNetworkClient
    ensures var r := Privmsg(cfg, s, sender, params);
      && r.outbox == s.outbox + [PrivateMessage(ns, sender, params[1])]
      && r == s.(outbox := r.outbox, clients := s.clients[sender := r.clients[sender]])
      && (r.clients[sender].userState.isIdentified <==>
            s.clients[sender].userState.isIdentified
            || (NickServ.CommandOf(params[1]) == "IDENTIFY"
                && NickServ.IdentifyVerdict(cfg.nickservTable, cfg.sha512, s.clients[sender], NickServ.ParametersOf(params[1])) == NickServ.Accepted))
      && Consistent(r)
  {
    assert Lower(params[0])[0] == ToLower(params[0][0]);
    var r := Privmsg(cfg, s, sender, params);
    var delivered := Emit(s, [PrivateMessage(ns, sender, params[1])]);
    assert r == ToNickServ(cfg, delivered, sender, params[1]);
    NickServ.ReceiveOutcome(cfg.nickservTable, cfg.sha512, s.clients[sender], params[1]);
    PrivmsgConsistent(cfg, s, sender, params);
  }

  /** "NS IDENTIFY <password>" identifies the sender exactly when it was
      identified already or the digest of the password is the one NickServ
      holds under the sender's nickname, spelled as the sender spells it. */
  lemma NsIdentify(cfg: Config, s: State, sender: ClientId, password: string, ns: ClientId)
    requires Consistent(s) && Live(s, sender) && IsUserRegistered(s.clients[sender].userState)
    requires ' ' !in password
    requires "nickserv" in s.nicknames && s.nicknames["nickserv"] == ns && ns in s.clients && !s.clients[ns].isNetworkClient
    ensures var r := Ns(cfg, s, sender, ["IDENTIFY", password]);
      && r.outbox == s.outbox + [PrivateMessage(ns, sender, "IDENTIFY " + password)]
      && r == s.(outbox := r.outbox, clients := s.clients[sender := r.clients[sender]])
      && (r.clients[sender].userState.isIdentified <==>
            s.clients[sender].userState.isIdentified
            || (s.clients[sender].nickname in cfg.nickservTable
                && cfg.nickservTable[s.clients[sender].nickname] == cfg.sha512(password)))
      && Consistent(r)
  {
    var text := "IDENTIFY " + password;
    calc {
      SpaceJoin("", ["IDENTIFY", password]);
      { assert ["IDENTIFY", password][1..] == [password]; }
      SpaceJoin(AppendWord("", "IDENTIFY"), [password]);
      SpaceJoin(AppendWord("IDENTIFY", password), []);
      text;
    }
    FindUnique(text, ' ', 0, 8);
    assert text[..8] == "IDENTIFY";
    assert text[9..] == password;
    FindUnique(password, ' ', 0, |password|);
    assert NickServ.ParametersOf(text) == [password];
    PrivmsgToNickServ(cfg, s, sender, ["nickserv", text], ns);
    NickServ.IdentifyMeaning(cfg.nickservTable, cfg.sha512, s.clients[sender], [password]);
  }

  // ---------------------------------------------------------------- JOIN

  lemma TopicExtends(s: State, sender: ClientId, params: seq<string>)
    requires Sane(s) && sender in s.clients
    ensures Extends(s, Topic(s, sender, params))
  {
  }

  lemma {:induction false} NamesItemsExtends(s: State, sender: ClientId, keys: seq<string>)
    requires Sane(s) && sender in s.clients
    ensures Extends(s, NamesItems(s, sender, keys))
    decreases |keys|
  {
    if keys != [] {
      var key := keys[0];
      var s1 := if key in s.channelIds then Reply(s, sender, RplNamReply, [key, NameList(s, s.channelIds[key])]) else s;
      var s2 := Reply(s1, sender, RplEndOfNames, [key]);
      NamesItemsExtends(s2, sender, keys[1..]);
      ExtendsTrans(s, s1, s2);
      ExtendsTrans(s, s2, NamesItems(s2, sender, keys[1..]));
    }
  }

  /** What follows the JOIN line adds to the outbox and changes no table. */
  lemma JoinTailExtends(s: State, sender: ClientId, id: ChannelId, name: string)
    requires Sane(s) && sender in s.clients && id < |s.channels| && sender in s.channels[id].clients
    ensures var s4 := Topic(SetClientModeInChannel(s, sender, id), sender, [name]);
      Extends(s, Names(s4, sender, [name])) && Names(s4, sender, [name]) == s.(outbox := Names(s4, sender, [name]).outbox)
  {
    var s3 := SetClientModeInChannel(s, sender, id);
    var s4 := Topic(s3, sender, [name]);
    assert Extends(s, s3);
    TopicExtends(s3, sender, [name]);
    ExtendsTrans(s, s3, s4);
    if IsUserRegistered(s4.clients[sender].userState) {
      NamesItemsExtends(s4, sender, ChannelItems(name));
    }
    ExtendsTrans(s, s4, Names(s4, sender, [name]));
  }

  /** JOIN of an unknown channel: ERR_NOSUCHCHANNEL and no table changes. */
  lemma JoinUnknownChannel(s: State, sender: ClientId, key: string)
    requires Sane(s) && sender in s.clients && key !in s.channelIds
    ensures var r := JoinItem(s, sender, key);
      r == s.(outbox := r.outbox)
      && (s.clients[sender].isNetworkClient ==> r.outbox == s.outbox + [NumericReply(sender, ErrNoSuchChannel, [key])])
  {
  }

  /** A network client that is not an allowed user of a channel without
      observers is refused with a notice and joins nothing. */
  lemma JoinRefused(s: State, sender: ClientId, key: string)
    requires Sane(s) && sender in s.clients && key in s.channelIds
    requires !IsVoiced(s.clients[sender], s.channels[s.channelIds[key]]) && !s.channels[s.channelIds[key]].allowObservers
    ensures var r := JoinItem(s, sender, key);
      r == s.(outbox := r.outbox)
      && r.outbox == s.outbox + [ServerNotice(sender, "You are not allowed to join this channel!")]
  {
  }

  /** Joining a channel again, when the client may join it, changes nothing
      and sends nothing. */
  lemma JoinAgain(s: State, sender: ClientId, key: string)
    requires Sane(s) && sender in s.clients && key in s.channelIds
    requires var ch := s.channels[s.channelIds[key]];
      sender in ch.clients && (IsVoiced(s.clients[sender], ch) || ch.allowObservers)
    ensures JoinItem(s, sender, key) == s
  {
  }

  /** The status an admitted client gets. */
  function JoinStatus(c: ClientState, ch: Channel): ClientStatus
  {
    if IsVoiced(c, ch) then Voice else NoStatus
  }

  /** An admitted client's JOIN: after AddMember only the outbox changes, and
      it starts with the JOIN line to the members. */
  lemma JoinAdmittedSteps(s: State, sender: ClientId, key: string)
    requires Sane(s) && sender in s.clients && key in s.channelIds
    requires var ch := s.channels[s.channelIds[key]];
      sender !in ch.clients && (IsVoiced(s.clients[sender], ch) || ch.allowObservers)
    ensures var r := JoinItem(s, sender, key);
      var id := s.channelIds[key];
      var ch := s.channels[id];
      var s1 := AddMember(s, sender, id, JoinStatus(s.clients[sender], ch));
      var events := Lines(Members(s1.channels[id]), ":" + s.clients[sender].prefix + " JOIN #" + ch.name);
      r == s1.(outbox := r.outbox) && Extends(s, r) && |s.outbox| + |events| <= |r.outbox|
      && r.outbox[|s.outbox|..|s.outbox| + |events|] == events
  {
    var id := s.channelIds[key];
    var ch := s.channels[id];
    var c := s.clients[sender];
    var s1 := AddMember(s, sender, id, JoinStatus(c, ch));
    var line := ":" + c.prefix + " JOIN #" + ch.name;
    var events := Lines(Members(s1.channels[id]), line);
    var s2 := Broadcast(s1, Members(s1.channels[id]), line);
    var r := JoinItem(s, sender, key);
    assert r == Names(Topic(SetClientModeInChannel(s2, sender, id), sender, [ch.name]), sender, [ch.name]);
    JoinTailExtends(s2, sender, id, ch.name);
    assert r.outbox[..|s2.outbox|] == s2.outbox;
    assert s2.outbox == s.outbox + events;
  }

  /** An admitted client becomes a member with Voice exactly when it is a
      virtual client or an allowed user (NoStatus otherwise), the channel is
      added to its joined set, no other channel or client changes, and the
      JOIN line goes once to every member, the newcomer included. */
  lemma JoinAdmitted(s: State, sender: ClientId, key: string)
    requires Sane(s) && sender in s.clients && key in s.channelIds
    requires var ch := s.channels[s.channelIds[key]];
      sender !in ch.clients && (IsVoiced(s.clients[sender], ch) || ch.allowObservers)
    ensures var r := JoinItem(s, sender, key);
      var id := s.channelIds[key];
      AdmittedTables(s, r, sender, id)
      && AdmittedLine(s, r, id, ":" + s.clients[sender].prefix + " JOIN #" + s.channels[id].name)
  {
    var id := s.channelIds[key];
    var ch := s.channels[id];
    var c := s.clients[sender];
    JoinAdmittedSteps(s, sender, key);
    var r := JoinItem(s, sender, key);
    var s1 := AddMember(s, sender, id, JoinStatus(c, ch));
    assert r.channels == s1.channels && r.clients == s1.clients && r.nicknames == s1.nicknames;
    assert r.networkClients == s1.networkClients && r.channelIds == s1.channelIds;
    AdmittedTablesFacts(s, r, sender, id);
    AdmittedLineFacts(s, r, id, ":" + c.prefix + " JOIN #" + ch.name);
  }

  /** The tables after an admitted JOIN of `sender` to channel `id`: the
      newcomer is a member with the status it is due, the old members keep
      theirs, the client lists the channel, and nothing else changes. */
  ghost predicate AdmittedTables(s: State, r: State, sender: ClientId, id: ChannelId)
    requires sender in s.clients && id < |s.channels|
  {
    var ch := s.channels[id];
    var c := s.clients[sender];
    id < |r.channels| &&
    var now := r.channels[id];
    r.channels == s.channels[id := now] && now.clients.Keys == ch.clients.Keys + {sender}
    && (forall m :: m in ch.clients ==> now.clients[m] == ch.clients[m])
    && (now.clients[sender] == Voice <==> !c.isNetworkClient || c.nicknameLowercased in ch.allowedUsers)
    && r.clients == s.clients[sender := c.(joinedChannels := c.joinedChannels + {id})]
    && r.nicknames == s.nicknames && r.networkClients == s.networkClients && r.channelIds == s.channelIds
  }

  /** The first events an admitted JOIN sends: `line` once to each member of
      channel `id` as it is afterwards. */
  ghost predicate AdmittedLine(s: State, r: State, id: ChannelId, line: string)
  {
    id < |r.channels| &&
    var now := r.channels[id];
    Extends(s, r) && |s.outbox| + |now.clients.Keys| <= |r.outbox|
    && OncePerRecipient(r.outbox[|s.outbox|..|s.outbox| + |now.clients.Keys|], now.clients.Keys, line)
  }

  lemma AdmittedTablesFacts(s: State, r: State, sender: ClientId, id: ChannelId)
    requires sender in s.clients && id < |s.channels| && sender !in s.channels[id].clients
    requires var ch := s.channels[id];
      var c := s.clients[sender];
      r.channels == s.channels[id := AddClient(ch, sender, JoinStatus(c, ch))]
      && r.clients == s.clients[sender := AddJoinedChannel(c, id)]
      && r.nicknames == s.nicknames && r.networkClients == s.networkClients && r.channelIds == s.channelIds
    ensures AdmittedTables(s, r, sender, id)
  {
    var ch := s.channels[id];
    assert r.channels[id] == AddClient(ch, sender, JoinStatus(s.clients[sender], ch));
  }

  lemma AdmittedLineFacts(s: State, r: State, id: ChannelId, line: string)
    requires id < |r.channels| && Extends(s, r)
    requires var now := r.channels[id];
      |s.outbox| + |Members(now)| <= |r.outbox| && r.outbox[|s.outbox|..|s.outbox| + |Members(now)|] == Lines(Members(now), line)
    ensures AdmittedLine(s, r, id, line)
  {
    MembersOnce(r.channels[id], line);
    AscendingLength(r.channels[id].clients.Keys);
  }

  // ---------------------------------------------------------------- PART

  /** ChanServ's MODE line: to each member of the channel once when the
      client has voice, and nothing at all when it has no status. */
  lemma ModeAnnounced(s: State, c: ClientId, id: ChannelId)
    requires Sane(s) && id < |s.channels| && c in s.channels[id].clients
    ensures var r := SetClientModeInChannel(s, c, id);
      var ch := s.channels[id];
      (ch.clients[c] == Voice ==>
         Extends(s, r)
         && OncePerRecipient(r.outbox[|s.outbox|..], ch.clients.Keys, ":" + ChanServPrefix + " MODE #" + ch.name + " +v " + s.clients[c].nickname))
      && (ch.clients[c] == NoStatus ==> r == s)
  {
    var ch := s.channels[id];
    if ch.clients[c] == Voice {
      var line := ":" + ChanServPrefix + " MODE #" + ch.name + " +v " + s.clients[c].nickname;
      MembersOnce(ch, line);
      EmitExtends(s, Lines(Members(ch), line));
    }
  }

  /** Leaving a channel: the PART line goes once to every member, the leaver
      included, and the client is removed from the channel and the channel
      from the client, nothing else. */
  lemma LeaveRules(s: State, sender: ClientId, id: ChannelId)
    requires Sane(s) && sender in s.clients && id < |s.channels|
    ensures var r := Leave(s, sender, id);
      var ch := s.channels[id];
      var c := s.clients[sender];
      r.channels == s.channels[id := ch.(clients := ch.clients - {sender})]
      && r.clients == s.clients[sender := c.(joinedChannels := c.joinedChannels - {id})]
      && r.nicknames == s.nicknames && r.networkClients == s.networkClients && r.channelIds == s.channelIds
      && Extends(s, r)
      && OncePerRecipient(r.outbox[|s.outbox|..], ch.clients.Keys, ":" + c.prefix + " PART #" + ch.name)
  {
    var ch := s.channels[id];
    MembersOnce(ch, ":" + s.clients[sender].prefix + " PART #" + ch.name);
  }

  // ----------------------------------------------------------------- QUIT

  /** Fresh keeps each member not yet handled, once. */
  lemma {:induction false} FreshFacts(ms: seq<ClientId>, handled: set<ClientId>)
    ensures forall m :: m in Fresh(ms, handled) <==> m in ms && m !in handled
    ensures Distinct(Fresh(ms, handled))
    decreases |ms|
  {
    if ms != [] {
      assert forall m :: m in ms <==> m == ms[0] || m in ms[1..];
      if ms[0] in handled {
        FreshFacts(ms[1..], handled);
      } else {
        FreshFacts(ms[1..], handled + {ms[0]});
        DistinctCons(ms[0], Fresh(ms[1..], handled + {ms[0]}));
      }
    }
  }

  /** The recipients of the QUIT walk over the channels `ids`. */
  ghost function QuitList(channels: seq<Channel>, ids: seq<ChannelId>, handled: set<ClientId>): seq<ClientId>
    requires forall i :: 0 <= i < |ids| ==> ids[i] < |channels|
    decreases |ids|
  {
    if ids == [] then []
    else Fresh(Members(channels[ids[0]]), handled) + QuitList(channels, ids[1..], handled + channels[ids[0]].clients.Keys)
  }

  /** `m` is a member of one of the channels `ids`. */
  ghost predicate Reached(channels: seq<Channel>, ids: seq<ChannelId>, m: ClientId)
  {
    exists i :: 0 <= i < |ids| && ids[i] < |channels| && m in channels[ids[i]].clients
  }

  /** The walk reaches each member of the visited channels that was not
      handled before, once. */
  lemma {:induction false} QuitListFacts(channels: seq<Channel>, ids: seq<ChannelId>, handled: set<ClientId>)
    requires forall i :: 0 <= i < |ids| ==> ids[i] < |channels|
    ensures forall m :: m in QuitList(channels, ids, handled) <==> m !in handled && Reached(channels, ids, m)
    ensures Distinct(QuitList(channels, ids, handled))
    decreases |ids|
  {
    if ids != [] {
      var ch := channels[ids[0]];
      var f := Fresh(Members(ch), handled);
      var rest := QuitList(channels, ids[1..], handled + ch.clients.Keys);
      QuitListFacts(channels, ids[1..], handled + ch.clients.Keys);
      FreshFacts(Members(ch), handled);
      AscendingMembers(ch.clients.Keys);
      DistinctAppend(f, rest);
      forall m ensures Reached(channels, ids, m) <==> m in ch.clients || Reached(channels, ids[1..], m) {
        if Reached(channels, ids, m) && m !in ch.clients {
          var i :| 0 <= i < |ids| && ids[i] < |channels| && m in channels[ids[i]].clients;
          assert ids[1..][i - 1] == ids[i];
        }
        if Reached(channels, ids[1..], m) {
          var i :| 0 <= i < |ids[1..]| && ids[1..][i] < |channels| && m in channels[ids[1..][i]].clients;
          assert ids[i + 1] == ids[1..][i];
        }
        if m in ch.clients {
          assert ids[0] < |channels| && m in channels[ids[0]].clients;
        }
      }
    }
  }

  /** The walk reads only the channels it visits. */
  lemma {:induction false} QuitListFrame(a: seq<Channel>, b: seq<Channel>, ids: seq<ChannelId>, handled: set<ClientId>)
    requires forall i :: 0 <= i < |ids| ==> ids[i] < |a| && ids[i] < |b| && a[ids[i]] == b[ids[i]]
    ensures QuitList(a, ids, handled) == QuitList(b, ids, handled)
    decreases |ids|
  {
    if ids != [] {
      QuitListFrame(a, b, ids[1..], handled + a[ids[0]].clients.Keys);
    }
  }

  /** Over distinct channels the QUIT walk sends the line to QuitList. */
  lemma {:induction false} QuitChannelsOutbox(s: State, client: ClientId, ids: seq<ChannelId>, handled: set<ClientId>, line: string)
    requires Sane(s) && Distinct(ids)
    requires forall i :: 0 <= i < |ids| ==> ids[i] < |s.channels|
    ensures QuitChannels(s, client, ids, handled, line).outbox == s.outbox + Lines(QuitList(s.channels, ids, handled), line)
    decreases |ids|
  {
    if ids != [] {
      var id := ids[0];
      var ch := s.channels[id];
      var f := Fresh(Members(ch), handled);
      var s2 := Broadcast(s, f, line).(channels := s.channels[id := RemoveClient(ch, client)]);
      var rest := QuitList(s2.channels, ids[1..], handled + ch.clients.Keys);
      QuitChannelsFirst(s, client, ids, handled, line);
      DistinctTail(ids);
      QuitChannelsOutbox(s2, client, ids[1..], handled + ch.clients.Keys, line);
      QuitListRest(s.channels, ids, handled, RemoveClient(ch, client));
      assert QuitList(s.channels, ids, handled) == f + rest;
      LinesConcat(s.outbox, f, rest, line);
    }
  }

  /** The first channel of the QUIT walk. */
  lemma QuitChannelsFirst(s: State, client: ClientId, ids: seq<ChannelId>, handled: set<ClientId>, line: string)
    requires Sane(s) && ids != []
    requires forall i :: 0 <= i < |ids| ==> ids[i] < |s.channels|
    ensures var ch := s.channels[ids[0]];
      var s2 := Broadcast(s, Fresh(Members(ch), handled), line).(channels := s.channels[ids[0] := RemoveClient(ch, client)]);
      Sane(s2) && (forall i :: 0 <= i < |ids[1..]| ==> ids[1..][i] < |s2.channels|)
      && QuitChannels(s, client, ids, handled, line) == QuitChannels(s2, client, ids[1..], handled + ch.clients.Keys, line)
  {
  }

  /** Changing the first channel visited does not change the rest of the walk. */
  lemma QuitListRest(channels: seq<Channel>, ids: seq<ChannelId>, handled: set<ClientId>, replaced: Channel)
    requires Distinct(ids) && ids != []
    requires forall i :: 0 <= i < |ids| ==> ids[i] < |channels|
    ensures var ch := channels[ids[0]];
      QuitList(channels, ids, handled)
      == Fresh(Members(ch), handled) + QuitList(channels[ids[0] := replaced], ids[1..], handled + ch.clients.Keys)
  {
    var b := channels[ids[0] := replaced];
    DistinctTail(ids);
    forall i | 0 <= i < |ids[1..]| ensures ids[1..][i] < |b| && channels[ids[1..][i]] == b[ids[1..][i]] {
      assert ids[1..][i] in ids[1..];
    }
    QuitListFrame(channels, b, ids[1..], handled + channels[ids[0]].clients.Keys);
  }

  /** The members of the channels a client has joined, the client among them. */
  ghost function CoMembers(s: State, client: ClientId): set<ClientId>
    requires client in s.clients
  {
    set j, m | j in s.clients[client].joinedChannels && j < |s.channels| && m in s.channels[j].clients :: m
  }

  /** The channels walked in order reach exactly the co-members. */
  lemma CoMembersReached(s: State, client: ClientId)
    requires client in s.clients
    ensures var ids := Ascending(s.clients[client].joinedChannels);
      forall m :: m in CoMembers(s, client) <==> Reached(s.channels, ids, m)
  {
    var joined := s.clients[client].joinedChannels;
    var ids := Ascending(joined);
    AscendingMembers(joined);
    forall m ensures m in CoMembers(s, client) <==> Reached(s.channels, ids, m) {
      if Reached(s.channels, ids, m) {
        var i :| 0 <= i < |ids| && ids[i] < |s.channels| && m in s.channels[ids[i]].clients;
        assert ids[i] in joined;
      }
      if m in CoMembers(s, client) {
        var j :| j in joined && j < |s.channels| && m in s.channels[j].clients;
        var i :| 0 <= i < |ids| && ids[i] == j;
      }
    }
  }

  /** What a disconnect of a live client with a nickname sends: the QUIT walk,
      then the closing line. */
  lemma DisconnectOutbox(s: State, client: ClientId, reason: string)
    requires Sane(s) && Live(s, client) && s.clients[client].nickname != ""
    requires JoinedFit(s.clients[client], |s.channels|)
    ensures var c := s.clients[client];
      var ids := Ascending(c.joinedChannels);
      (forall i :: 0 <= i < |ids| ==> ids[i] < |s.channels|)
      && Disconnect(s, client, reason).outbox
         == s.outbox + Lines(QuitList(s.channels, ids, {}), ":" + c.prefix + " QUIT :" + reason)
            + (if c.initialized then [IrcLine(client, "ERROR :Closing Link: " + NicknameAsTarget(c) + " (" + reason + ")")] else [])
  {
    var c := s.clients[client];
    var ids := Ascending(c.joinedChannels);
    AscendingProperties(c.joinedChannels);
    AscendingBelow(c.joinedChannels, |s.channels|);
    QuitChannelsOutbox(s, client, ids, {}, ":" + c.prefix + " QUIT :" + reason);
  }

  /** Who gets the QUIT line of a disconnect: nobody when the client never
      had a nickname. */
  ghost function QuitRecipients(s: State, client: ClientId): seq<ClientId>
    requires Sane(s) && client in s.clients
  {
    var c := s.clients[client];
    AscendingBelow(c.joinedChannels, |s.channels|);
    if c.nickname == "" then [] else QuitList(s.channels, Ascending(c.joinedChannels), {})
  }

  /** The closing line of a disconnect, sent when the connection was initialized. */
  function ClosingLines(c: ClientState, client: ClientId, reason: string): seq<Event>
  {
    if c.initialized then [IrcLine(client, "ERROR :Closing Link: " + NicknameAsTarget(c) + " (" + reason + ")")] else []
  }

  /** The QUIT recipients are the co-members, each listed once. */
  lemma QuitRecipientsFacts(s: State, client: ClientId)
    requires Consistent(s) && Live(s, client)
    ensures Distinct(QuitRecipients(s, client))
    ensures forall m :: m in QuitRecipients(s, client) <==> m in CoMembers(s, client)
  {
    var c := s.clients[client];
    if c.nickname == "" {
      assert WellNamed(c);
      assert c.joinedChannels == {};
    } else {
      var ids := Ascending(c.joinedChannels);
      AscendingBelow(c.joinedChannels, |s.channels|);
      QuitListFacts(s.channels, ids, {});
      CoMembersReached(s, client);
    }
  }

  /** A disconnect sends the QUIT line to its recipients, then the closing line. */
  lemma DisconnectSends(s: State, client: ClientId, reason: string)
    requires Consistent(s) && Live(s, client)
    ensures var c := s.clients[client];
      Disconnect(s, client, reason).outbox
      == s.outbox + Lines(QuitRecipients(s, client), ":" + c.prefix + " QUIT :" + reason) + ClosingLines(c, client, reason)
  {
    var c := s.clients[client];
    if c.nickname != "" {
      assert JoinedFit(c, |s.channels|);
      DisconnectOutbox(s, client, reason);
    }
  }

  /** A distinct list holding exactly `recipients`, sent between `pre` and
      `post`, gives the line once to each recipient. */
  lemma OnceBetween(pre: seq<Event>, q: seq<ClientId>, post: seq<Event>, recipients: set<ClientId>, line: string)
    requires Distinct(q) && forall m :: m in q <==> m in recipients
    ensures var box := pre + Lines(q, line) + post;
      box[..|pre|] == pre && |pre| + |post| <= |box|
      && OncePerRecipient(box[|pre|..|box| - |post|], recipients, line)
      && box[|box| - |post|..] == post
  {
    var box := pre + Lines(q, line) + post;
    LinesOnce(q, recipients, line);
    assert box[|pre|..|box| - |post|] == Lines(q, line);
  }

  /** Disconnecting a live client sends the QUIT line once to each member of
      each channel it had joined (itself included) and to nobody else, then
      the closing ERROR line when the connection was initialized. */
  lemma QuitOncePerCoMember(s: State, client: ClientId, reason: string)
    requires Consistent(s) && Live(s, client)
    ensures var r := Disconnect(s, client, reason);
      var c := s.clients[client];
      var k := if c.initialized then 1 else 0;
      Extends(s, r) && |s.outbox| + k <= |r.outbox|
      && OncePerRecipient(r.outbox[|s.outbox|..|r.outbox| - k], CoMembers(s, client), ":" + c.prefix + " QUIT :" + reason)
      && (c.initialized ==> r.outbox[|r.outbox| - 1] == IrcLine(client, "ERROR :Closing Link: " + NicknameAsTarget(c) + " (" + reason + ")"))
  {
    var c := s.clients[client];
    var bye := ClosingLines(c, client, reason);
    QuitRecipientsFacts(s, client);
    DisconnectSends(s, client, reason);
    OnceBetween(s.outbox, QuitRecipients(s, client), bye, CoMembers(s, client), ":" + c.prefix + " QUIT :" + reason);
    if c.initialized {
      var box := Disconnect(s, client, reason).outbox;
      assert box[|box| - 1] == box[|box| - 1..][0];
    }
  }

  /** A second disconnect of the same client changes nothing. */
  lemma DisconnectTwice(s: State, client: ClientId, reason: string, again: string)
    requires Sane(s) && client in s.clients
    ensures var r := Disconnect(s, client, reason);
      Disconnect(r, client, again) == r
  {
  }
}
