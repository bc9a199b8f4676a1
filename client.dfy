/** What the server keeps about each connected or built-in client (CClient, the
    client half of CNetworkClient, CVirtualClient), the target of replies, the
    sender prefix, and the formatter of numeric replies. */
module Client {
  import opened Ascii
  import opened Irc
  import opened Wrappers

  /** The fields of a CClient object. `isNetworkClient` tells a CNetworkClient
      from a CVirtualClient; `initialized` and `shutdownCompleted` belong to
      network clients only (IsInitialized, HasCompletedShutdown). */
  datatype ClientState = ClientState(
    nickname: string,
    nicknameLowercased: string,
    prefix: string,
    userState: UserState,
    joinedChannels: set<ChannelId>,
    isNetworkClient: bool,
    initialized: bool,
    shutdownCompleted: bool)

  /** A freshly accepted network client: no nickname yet, nothing sent. */
  function NewNetworkClient(initialized: bool): (c: ClientState)
    ensures c.isNetworkClient && !c.shutdownCompleted && c.initialized == initialized
    ensures c.nickname == "" && c.joinedChannels == {}
    ensures !c.userState.hasSentNickMessage && !c.userState.hasSentUserMessage && !c.userState.isIdentified
    ensures !IsUserRegistered(c.userState)
  {
    ClientState("", "", "", UserState(false, false, false), {}, true, initialized, false)
  }

  /** A built-in client: its lowercased nickname is computed once, its prefix
      names the "virtual" host, and it counts as registered and identified. */
  function NewVirtualClient(nickname: string): (c: ClientState)
    ensures !c.isNetworkClient
    ensures c.nickname == nickname && c.nicknameLowercased == Lower(nickname)
    ensures c.prefix == nickname + "!" + Lower(nickname) + "@virtual"
    ensures IsUserRegistered(c.userState) && c.userState.isIdentified
    ensures c.joinedChannels == {}
  {
    ClientState(nickname, Lower(nickname), nickname + "!" + Lower(nickname) + "@virtual",
                UserState(true, true, true), {}, false, true, false)
  }

  /** The target written into replies: "*" while no nickname is set. */
  function NicknameAsTarget(c: ClientState): (r: string)
    ensures r != ""
    ensures c.nickname != "" ==> r == c.nickname
    ensures c.nickname == "" ==> r == "*"
  {
    if c.nickname == "" then "*" else c.nickname
  }

  /** CNetworkClient::SetNickname: both spellings and the "network" prefix. */
  function SetNickname(c: ClientState, nickname: string, lowercased: string): (r: ClientState)
    ensures r == c.(nickname := nickname, nicknameLowercased := lowercased,
                    prefix := nickname + "!" + lowercased + "@network")
  {
    c.(nickname := nickname, nicknameLowercased := lowercased,
       prefix := nickname + "!" + lowercased + "@network")
  }

  function AddJoinedChannel(c: ClientState, channel: ChannelId): (r: ClientState)
    ensures channel in r.joinedChannels
    ensures r.joinedChannels == c.joinedChannels + {channel}
    ensures r == c.(joinedChannels := r.joinedChannels)
  {
    c.(joinedChannels := c.joinedChannels + {channel})
  }

  function RemoveJoinedChannel(c: ClientState, channel: ChannelId): (r: ClientState)
    ensures channel !in r.joinedChannels
    ensures r.joinedChannels == c.joinedChannels - {channel}
    ensures r == c.(joinedChannels := r.joinedChannels)
  {
    c.(joinedChannels := c.joinedChannels - {channel})
  }

  /** Adding and removing a channel are idempotent, and removing undoes adding. */
  lemma JoinedChannelsLaws(c: ClientState, channel: ChannelId)
    ensures AddJoinedChannel(AddJoinedChannel(c, channel), channel) == AddJoinedChannel(c, channel)
    ensures RemoveJoinedChannel(RemoveJoinedChannel(c, channel), channel) == RemoveJoinedChannel(c, channel)
    ensures channel !in c.joinedChannels ==> RemoveJoinedChannel(AddJoinedChannel(c, channel), channel) == c
    ensures channel in c.joinedChannels ==> AddJoinedChannel(c, channel) == c
  {
    assert channel !in c.joinedChannels ==> c.joinedChannels + {channel} - {channel} == c.joinedChannels;
    assert channel in c.joinedChannels ==> c.joinedChannels + {channel} == c.joinedChannels;
  }

  /** The user name between the first '!' and the following '@' of a server
      line, as the LogBot and the VoteBot read it back; None when the line has
      no such part (a line from the server itself has no '!'). */
  function SenderName(m: string): (r: Option<string>)
    ensures r.Some? ==> '@' !in r.value
  {
    var bang := Find(m, '!', 0);
    if bang == |m| then None
    else
      var at := Find(m, '@', bang + 1);
      if at == |m| then None
      else
        SliceAvoids(m, '@', bang + 1, at);
        Some(m[bang + 1..at])
  }

  /** A line that starts with a prefix the server builds gives back the
      lowercased nickname as its user name: the two bots rely on this. */
  lemma {:induction false} SenderOfPrefix(nickname: string, lowercased: string, host: string, rest: string)
    requires '!' !in nickname && '@' !in lowercased && '!' !in lowercased
    ensures SenderName(":" + nickname + "!" + lowercased + "@" + host + rest) == Some(lowercased)
  {
    var m := ":" + nickname + "!" + lowercased + "@" + host + rest;
    var tail := lowercased + "@" + host + rest;
    assert m == (":" + nickname) + ['!'] + tail;
    FindAfter(":" + nickname, '!', tail);
    var bang := |nickname| + 1;
    assert m[bang + 1..] == tail;
    assert tail == lowercased + ['@'] + (host + rest);
    FindAfter(lowercased, '@', host + rest);
    FindSuffix(m, '@', bang + 1);
    assert m[bang + 1..bang + 1 + |lowercased|] == lowercased;
  }

  /** What the two bots read off a line the server hands them: the user name
      (as SenderName), the command after the first space following the '@',
      and the position of the space that ends the command (|m| when none). */
  datatype LineHead = LineHead(sender: string, command: string, end: nat)

  function HeadOf(m: string): (r: Option<LineHead>)
    ensures r.Some? ==> r.value.end <= |m| && ' ' !in r.value.command
  {
    var bang := Find(m, '!', 0);
    if bang == |m| then None
    else
      var at := Find(m, '@', bang + 1);
      if at == |m| then None
      else
        var sp := Find(m, ' ', at);
        if sp == |m| then None
        else
          var end := Find(m, ' ', sp + 1);
          SliceAvoids(m, ' ', sp + 1, end);
          Some(LineHead(m[bang + 1..at], m[sp + 1..end], end))
  }

  /** Nicknames the server accepts consist of letters and '_' only. */
  predicate IsNicknameChar(c: char)
  {
    IsUpper(c) || IsLower(c) || c == '_'
  }

  /** Every prefix the server hands out has the shape the bots parse. */
  lemma PrefixesAreParsed(c: ClientState, nickname: string, rest: string)
    requires forall i :: 0 <= i < |nickname| ==> IsNicknameChar(nickname[i])
    ensures SenderName(":" + SetNickname(c, nickname, Lower(nickname)).prefix + rest) == Some(Lower(nickname))
    ensures SenderName(":" + NewVirtualClient(nickname).prefix + rest) == Some(Lower(nickname))
  {
    var low := Lower(nickname);
    assert '!' !in nickname by {
      forall i | 0 <= i < |nickname| ensures nickname[i] != '!' {
        assert IsNicknameChar(nickname[i]);
      }
    }
    assert '@' !in low && '!' !in low by {
      forall i | 0 <= i < |low| ensures low[i] != '@' && low[i] != '!' {
        assert IsNicknameChar(nickname[i]);
      }
    }
    assert ":" + SetNickname(c, nickname, low).prefix + rest == ":" + nickname + "!" + low + "@" + "network" + rest;
    assert ":" + NewVirtualClient(nickname).prefix + rest == ":" + nickname + "!" + low + "@" + "virtual" + rest;
    SenderOfPrefix(nickname, low, "network", rest);
    SenderOfPrefix(nickname, low, "virtual", rest);
  }

  /** The two decimal digits' value of a 3-character reply code. */
  function DigitValue(c: char): int
  {
    c as int - '0' as int
  }

  /** The reply code written with "%03d". */
  function Digits3(code: nat): (r: string)
    requires code < 1000
    ensures |r| == 3 && IsDigit(r[0]) && IsDigit(r[1]) && IsDigit(r[2])
    ensures DigitValue(r[0]) * 100 + DigitValue(r[1]) * 10 + DigitValue(r[2]) == code
  {
    [('0' as int + code / 100) as char, ('0' as int + code / 10 % 10) as char, ('0' as int + code % 10) as char]
  }

  /** The reply template of each code, cut at its "%s" directives. */
  function Template(code: nat, build: Build): (r: Option<seq<string>>)
    ensures r.Some? ==> |r.value| >= 1 && code < 1000
  {
    if code == RplWelcome then Some([":Welcome to the ", " Internet Relay Chat Network ", ""])
    else if code == RplYourHost then Some([":Your host is ", ", running version " + build.versionId])
    else if code == RplCreated then Some([":This server was created " + build.versionDate])
    else if code == RplMyInfo then Some(["", " " + build.versionId + " iv i"])
    else if code == RplNoTopic then Some(["#", " :No topic is set"])
    else if code == RplTopic then Some(["#", " :", ""])
    else if code == RplVersion then Some([build.versionId + ". ", " :" + build.productName])
    else if code == RplNamReply then Some(["= #", " :", ""])
    else if code == RplEndOfNames then Some(["#", " :End of NAMES list"])
    else if code == RplInfo then Some([":", ""])
    else if code == RplMotd then Some([":- ", ""])
    else if code == RplEndOfInfo then Some([":End of INFO list"])
    else if code == RplMotdStart then Some([":- ", " Message of the day - "])
    else if code == RplEndOfMotd then Some([":End of MOTD command."])
    else if code == ErrNoSuchNick then Some(["", " :No such nick/channel"])
    else if code == ErrNoSuchChannel then Some(["#", " :No such channel"])
    else if code == ErrCannotSendToChan then Some(["#", " :Cannot send to channel"])
    else if code == ErrNoRecipient then Some([":No recipient given (", ")"])
    else if code == ErrNoTextToSend then Some([":No text to send"])
    else if code == ErrNoNicknameGiven then Some([":No nickname given"])
    else if code == ErrErroneusNickname then Some(["", " :Erroneous Nickname"])
    else if code == ErrNicknameInUse then Some(["", " :Nickname is already in use"])
    else if code == ErrNotOnChannel then Some(["#", " :You're not on that channel"])
    else if code == ErrNeedMoreParams then Some(["", " :Not enough parameters"])
    else None
  }

  /** How many arguments the template of `code` takes. */
  function Arity(code: nat): nat
  {
    var t := Template(code, Build("", "", "", "", ""));
    if t.Some? then |t.value| - 1 else 0
  }

  /** A numeric reply the formatter can write out: `code` has a template and
      `args` fills its "%s" directives exactly. */
  predicate Formattable(code: nat, args: seq<string>)
  {
    Template(code, Build("", "", "", "", "")).Some? && |args| == Arity(code)
  }

  /** A formattable reply can be written out under every build. */
  lemma FormattableHasLine(code: nat, args: seq<string>, build: Build)
    requires Formattable(code, args)
    ensures Template(code, build).Some? && |args| == Arity(code)
    ensures code < 1000
  {
  }

  /** The arity does not depend on the build strings. */
  lemma ArityOfTemplate(code: nat, build: Build)
    requires Template(code, build).Some?
    ensures |Template(code, build).value| == Arity(code) + 1
  {
  }

  /** A template's pieces with the arguments between them. */
  function Fill(pieces: seq<string>, args: seq<string>): string
    requires |pieces| == |args| + 1
    decreases |args|
  {
    if |args| == 0 then pieces[0]
    else Fill(pieces[..|pieces| - 1], args[..|args| - 1]) + args[|args| - 1] + pieces[|pieces| - 1]
  }

  /** What section 2.4 of RFC 2812 asks for: the sender prefix, the three-digit
      code and the target, before the reply's own text. */
  function Header(serverName: string, code: nat, target: string): string
    requires code < 1000
  {
    ":" + serverName + " " + Digits3(code) + " " + target + " "
  }

  /** The whole numeric reply line. */
  function ReplyLine(serverName: string, code: nat, target: string, build: Build, args: seq<string>): (r: string)
    requires Template(code, build).Some? && |args| == Arity(code)
    ensures |r| >= |Header(serverName, code, target)| && r[..|Header(serverName, code, target)|] == Header(serverName, code, target)
  {
    ArityOfTemplate(code, build);
    Header(serverName, code, target) + Fill(Template(code, build).value, args)
  }

  /** CClient::CNumericReplyFormatter: collects the arguments of one numeric
      reply and hands the formatted line to SendIRCMessage as soon as the
      template's last argument has arrived. Made without a client (what a
      virtual client returns) it is a dummy that sends nothing. */
  class NumericReplyFormatter {
    const active: bool
    ghost const header: string
    ghost const template: seq<string>
    var text: string
    var pieces: seq<string>
    ghost var args: seq<string>
    var sent: seq<string>

    ghost predicate Valid()
      reads this
    {
      if active then
        |template| >= 1 && |args| + |pieces| + 1 == |template|
        && pieces == template[|args| + 1..]
        && text == header + Fill(template[..|args| + 1], args)
        && sent == (if pieces == [] then [text] else [])
      else sent == []
    }

    /** The header's three arguments are filled in at once; a template without
        arguments is sent right away. */
    constructor (target: Option<string>, serverName: string, code: nat, build: Build)
      requires target.Some? ==> Template(code, build).Some?
      ensures Valid() && args == []
      ensures active == target.Some?
      ensures active ==> header == Header(serverName, code, target.value) && template == Template(code, build).value
    {
      active := target.Some?;
      args := [];
      if target.Some? {
        var t := Template(code, build).value;
        header := Header(serverName, code, target.value);
        template := t;
        text := Header(serverName, code, target.value) + t[0];
        pieces := t[1..];
        sent := if |t| == 1 then [text] else [];
        assert t[..1] == [t[0]];
      } else {
        header := "";
        template := [];
        text := "";
        pieces := [];
        sent := [];
      }
    }

    /** operator%: one more argument; the line goes out when it was the last. */
    method Feed(arg: string)
      requires Valid()
      requires active ==> pieces != []
      modifies this
      ensures Valid()
      ensures active ==> args == old(args) + [arg]
      ensures active ==> (sent != [] <==> |args| + 1 == |template|)
      ensures active && sent != [] ==> sent == [header + Fill(template, args)]
      ensures !active ==> sent == []
    {
      if active {
        var k := |args|;
        ghost var next := args + [arg];
        assert template[..k + 2][..k + 1] == template[..k + 1];
        assert next[..k] == args;
        assert template[k + 1] == pieces[0];
        text := text + arg + pieces[0];
        pieces := pieces[1..];
        args := next;
        assert template[..|args| + 1] == template[..k + 2];
        if pieces == [] {
          assert template[..|args| + 1] == template;
          sent := [text];
        }
      }
    }
  }
}
