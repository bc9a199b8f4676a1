/** What the command handlers do, stated against the rules of the protocol
    rather than the steps of the code. */
module ServerProperties {
  import opened Ascii
  import opened Irc
  import opened Wrappers
  import opened Client
  import opened Channel
  import Message
  import opened Server
  import opened ServerLemmas

  // ---------------------------------------------------------- registration

  /** The first event a handler sends is the RPL_WELCOME of a client. */
  ghost predicate Welcomed(cfg: Config, s: State, r: State, c: ClientId)
    requires c in r.clients
  {
    |r.outbox| > |s.outbox| && r.outbox[|s.outbox|] == NumericReply(c, RplWelcome, [cfg.name, r.clients[c].nickname])
  }

  /** The welcome opens with RPL_WELCOME to the client and changes no table. */
  lemma WelcomeFirst(cfg: Config, s: State, c: ClientId)
    requires c in s.clients && s.clients[c].isNetworkClient
    ensures Welcome(cfg, s, c) == s.(outbox := Welcome(cfg, s, c).outbox)
    ensures Welcomed(cfg, s, Welcome(cfg, s, c), c)
  {
  }

  /** USER: the client is registered afterwards exactly when it had sent NICK,
      and the welcome goes out exactly when USER is the second of the two. */
  lemma UserRegisters(cfg: Config, s: State, sender: ClientId)
    requires Sane(s) && sender in s.clients && s.clients[sender].isNetworkClient
    ensures var r := User(cfg, s, sender);
      var u := s.clients[sender].userState;
      r.clients[sender].userState.hasSentUserMessage
      && (IsUserRegistered(r.clients[sender].userState) <==> u.hasSentNickMessage)
      && (Welcomed(cfg, s, r, sender) <==> !u.hasSentUserMessage && u.hasSentNickMessage)
  {
    var u := s.clients[sender].userState;
    if !IsUserRegistered(u) && u.hasSentNickMessage {
      var s1 := SetUserState(s, sender, u.(hasSentUserMessage := true));
      WelcomeFirst(cfg, s1, sender);
    }
  }

  /** The conditions under which NICK takes the new nickname. */
  ghost predicate NickAccepted(s: State, sender: ClientId, params: seq<string>)
    requires sender in s.clients
  {
    var c := s.clients[sender];
    params != [] && params[0] != c.nickname && params[0] != ""
    && |params[0]| <= NicknameLength && CStringAll(params[0], IsNicknameChar)
    && (Lower(params[0]) in s.nicknames ==> s.nicknames[Lower(params[0])] == sender)
    && (c.nickname != "" ==> !c.userState.isIdentified && c.joinedChannels == {})
  }

  /** NICK takes the nickname exactly when the rules allow it. */
  lemma NickVerdictAccepted(s: State, sender: ClientId, params: seq<string>)
    requires sender in s.clients
    ensures NickCheck(s.clients[sender], s.nicknames, sender, params, true) == Accepted <==> NickAccepted(s, sender, params)
  {
  }

  /** NICK: an accepted nickname replaces the sender's old key in the table by
      the new lowercased one and records both spellings; a refused one changes
      no table. */
  lemma NickOutcome(cfg: Config, s: State, sender: ClientId, params: seq<string>)
    requires Consistent(s) && Live(s, sender)
    ensures var r := Nick(cfg, s, sender, params);
      var c := s.clients[sender];
      NickAccepted(s, sender, params) ==>
        r.nicknames == Renamed(s.nicknames, c, sender, params[0])
        && r.clients[sender].nickname == params[0] && r.clients[sender].nicknameLowercased == Lower(params[0])
        && r.clients == s.clients[sender := r.clients[sender]]
        && r.channels == s.channels
    ensures var r := Nick(cfg, s, sender, params);
      !NickAccepted(s, sender, params) ==> r == s.(outbox := r.outbox)
  {
    NickVerdictAccepted(s, sender, params);
    if NickAccepted(s, sender, params) {
      RenameFields(cfg, s, sender, params[0]);
    } else {
      NickRefused(cfg, s, sender, params);
    }
  }

  /** NICK's refusals from a network client, each with its reply, in the order the rules are checked. */
  lemma NickRefusals(cfg: Config, s: State, sender: ClientId, params: seq<string>)
    requires Sane(s) && sender in s.clients && s.clients[sender].isNetworkClient
    ensures var r := Nick(cfg, s, sender, params);
      params == [] || (params[0] != s.clients[sender].nickname && params[0] == "") ==>
        r.outbox == s.outbox + [NumericReply(sender, ErrNoNicknameGiven, [])]
    ensures var r := Nick(cfg, s, sender, params);
      params != [] && params[0] == s.clients[sender].nickname ==> r == s
    ensures var r := Nick(cfg, s, sender, params);
      params != [] && params[0] != s.clients[sender].nickname && params[0] != ""
      && (|params[0]| > NicknameLength || !CStringAll(params[0], IsNicknameChar)) ==>
        r.outbox == s.outbox + [NumericReply(sender, ErrErroneusNickname, [params[0]])]
    ensures var r := Nick(cfg, s, sender, params);
      NickCheck(s.clients[sender], s.nicknames, sender, params, true) == InUse <==>
        params != [] && params[0] != s.clients[sender].nickname && params[0] != ""
        && |params[0]| <= NicknameLength && CStringAll(params[0], IsNicknameChar)
        && Lower(params[0]) in s.nicknames && s.nicknames[Lower(params[0])] != sender
    ensures var r := Nick(cfg, s, sender, params);
      NickCheck(s.clients[sender], s.nicknames, sender, params, true) == InUse ==>
        r.outbox == s.outbox + [NumericReply(sender, ErrNicknameInUse, [params[0]])]
  {
  }

  /** A first nickname from a client that has sent USER is welcomed. */
  lemma FirstNickWelcomes(cfg: Config, s: State, sender: ClientId, nickname: string)
    requires Sane(s) && sender in s.clients && s.clients[sender].isNetworkClient
    requires s.clients[sender].nickname == "" && !s.clients[sender].userState.hasSentNickMessage
    ensures Welcomed(cfg, s, Rename(cfg, s, sender, nickname), sender) <==> s.clients[sender].userState.hasSentUserMessage
  {
  }

  /** A change of an existing nickname opens with the NICK line, not a welcome. */
  lemma NickChangeNotWelcomed(cfg: Config, s: State, sender: ClientId, nickname: string)
    requires Sane(s) && sender in s.clients && s.clients[sender].nickname != ""
    ensures !Welcomed(cfg, s, Rename(cfg, s, sender, nickname), sender)
  {
    var r := Rename(cfg, s, sender, nickname);
    assert r.outbox[|s.outbox|] == IrcLine(sender, ":" + s.clients[sender].prefix + " NICK " + nickname);
  }

  /** NICK: the welcome goes out exactly when a first nickname is accepted
      from a client that has sent USER. */
  lemma NickRegisters(cfg: Config, s: State, sender: ClientId, params: seq<string>)
    requires Consistent(s) && Live(s, sender) && s.clients[sender].isNetworkClient
    ensures var r := Nick(cfg, s, sender, params);
      var u := s.clients[sender].userState;
      Welcomed(cfg, s, r, sender) <==> NickAccepted(s, sender, params) && !u.hasSentNickMessage && u.hasSentUserMessage
  {
    var c := s.clients[sender];
    var r := Nick(cfg, s, sender, params);
    NickVerdictAccepted(s, sender, params);
    match NickCheck(c, s.nicknames, sender, params, true)
    case Accepted =>
      if c.nickname == "" {
        FirstNickWelcomes(cfg, s, sender, params[0]);
      } else {
        NickChangeNotWelcomed(cfg, s, sender, params[0]);
      }
    case _ =>
  }
}
