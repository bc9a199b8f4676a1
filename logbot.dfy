/** CLogBot: a built-in client that writes what happens in some channels to
    one log per channel. It reads back the lines the server sends it
    (":nick!user@host COMMAND params"), and logs JOIN, PART, PRIVMSG and QUIT.
    A log is the sequence of lines written to it; timestamps come from the
    clock and are given to each call as an opaque string. */
module LogBot {
  import opened Ascii
  import opened Irc
  import opened Wrappers
  import opened Client
  import opened Channel
  import opened Message
  import Server

  /** One line of a log; Text gives its exact wording. */
  datatype LogLine =
    | Joined(stamp: string, nickname: string, channel: string, voiced: bool)
    | Left(stamp: string, nickname: string, channel: string)
    | Said(stamp: string, nickname: string, text: string)
    | Quitted(stamp: string, nickname: string, reason: string)

  const VoiceStatus := " with voice status"

  function Text(l: LogLine): string
  {
    match l
    case Joined(stamp, nickname, channel, voiced) =>
      stamp + " " + nickname + " has joined " + channel + (if voiced then VoiceStatus else "") + "\n"
    case Left(stamp, nickname, channel) => stamp + " " + nickname + " has left " + channel + "\n"
    case Said(stamp, nickname, text) => stamp + " <" + nickname + "> " + text + "\n"
    case Quitted(stamp, nickname, reason) => stamp + " " + nickname + " has quit the server (" + reason + ")\n"
  }

  predicate EndsWith(s: string, suffix: string)
  {
    |suffix| <= |s| && s[|s| - |suffix|..] == suffix
  }

  /** The JOIN line mentions voice status exactly for a voiced member (the
      channel as the server writes it holds no space). */
  lemma VoiceMention(stamp: string, nickname: string, channel: string, voiced: bool)
    requires ' ' !in channel
    ensures EndsWith(Text(Joined(stamp, nickname, channel, voiced)), VoiceStatus + "\n") <==> voiced
  {
    var before := stamp + " " + nickname + " has joined ";
    var t := Text(Joined(stamp, nickname, channel, voiced));
    var suffix := VoiceStatus + "\n";
    if voiced {
      assert t == before + channel + suffix;
    } else {
      assert t == before + channel + "\n";
      // the spaces of " with voice status" cannot line up with those of
      // " has joined " followed by a channel without spaces
      var h := |t| - 1;
      var L := |channel|;
      assert |before| >= 12 && h == |before| + L;
      assert forall j :: h - L <= j < h ==> t[j] == channel[j - (h - L)];
      assert t[h - L - 1] == ' ' && t[h - L - 8] == ' ';
      if L >= 7 {
        assert t[h - 7] != suffix[11];
      } else if L == 6 {
        assert t[h - 14] != suffix[4];
      } else {
        assert t[h - L - 1] != suffix[17 - L];
      }
    }
  }

  // --------------------------------------------------------------- reading

  /** The lowercased channel key of "#name", as the handlers compute it. */
  function ChannelKey(p: string): string
    requires |p| > 0
  {
    Lower(p[1..])
  }

  /** What the bot's asserts demand of a line with a '!': a user name and a
      command, a sender the server knows, and for each logged command the
      parameters it expects; a JOIN to a logged channel comes from a member. */
  ghost predicate Readable(m: string, logged: set<string>, s: Server.State)
  {
    Server.Sane(s)
    && (Find(m, '!', 0) < |m| ==>
      && HeadOf(m).Some?
      && HeadOf(m).value.sender in s.nicknames
      && s.nicknames[HeadOf(m).value.sender] in s.clients
      && FitsCommand(HeadOf(m).value.command, Rest(m, HeadOf(m).value.end), s.nicknames[HeadOf(m).value.sender], logged, s))
  }

  ghost predicate FitsCommand(command: string, params: seq<string>, sender: ClientId, logged: set<string>, s: Server.State)
    requires Server.Sane(s)
  {
    && (command == "JOIN" ==>
      |params| == 1 && |params[0]| > 0 && params[0][0] == '#'
      && (ChannelKey(params[0]) in logged ==>
        ChannelKey(params[0]) in s.channelIds && sender in s.channels[s.channelIds[ChannelKey(params[0])]].clients))
    && (command == "PART" ==> |params| == 1 && |params[0]| > 0 && params[0][0] == '#')
    && (command == "PRIVMSG" ==> |params| == 2 && |params[0]| > 0 && params[0][0] == '#')
    && (command == "QUIT" ==> |params| == 1)
  }

  /** The line a message produces and the logs it goes to. */
  datatype Entry = Entry(line: LogLine, targets: set<string>)

  /** SendIRCMessage's decision: nothing for a line without '!' or with a
      command other than the four; JOIN, PART and PRIVMSG go to the log of
      their channel if it is logged; QUIT to the logs of every logged channel
      the sender had joined. */
  ghost function EntryOf(m: string, stamp: string, logged: set<string>, s: Server.State): (r: Option<Entry>)
    requires Readable(m, logged, s)
    requires logged <= s.channelIds.Keys
  {
    if Find(m, '!', 0) == |m| then None
    else
      var head := HeadOf(m).value;
      var params := Rest(m, head.end);
      var id := s.nicknames[head.sender];
      var nickname := s.clients[id].nickname;
      if head.command == "JOIN" then
        var key := ChannelKey(params[0]);
        if key !in logged then Some(Entry(Joined(stamp, nickname, params[0], false), {}))
        else
          var voiced := s.channels[s.channelIds[key]].clients[id] == Voice;
          Some(Entry(Joined(stamp, nickname, params[0], voiced), {key}))
      else if head.command == "PART" then
        Some(Entry(Left(stamp, nickname, params[0]), {ChannelKey(params[0])} * logged))
      else if head.command == "PRIVMSG" then
        Some(Entry(Said(stamp, nickname, params[1]), {ChannelKey(params[0])} * logged))
      else if head.command == "QUIT" then
        Some(Entry(Quitted(stamp, nickname, params[0]), QuitTargets(logged, s.channelIds, s.clients[id].joinedChannels)))
      else None
  }

  /** The logged channels whose channel object the client has joined. */
  function QuitTargets(logged: set<string>, channelIds: map<string, ChannelId>, joined: set<ChannelId>): (r: set<string>)
    requires logged <= channelIds.Keys
    ensures forall k :: k in r <==> k in logged && channelIds[k] in joined
  {
    set k | k in logged && channelIds[k] in joined
  }

  /** The logs after a line was written to `targets`. */
  function Append(streams: map<string, seq<string>>, targets: set<string>, text: string): (r: map<string, seq<string>>)
    ensures r.Keys == streams.Keys
    ensures forall k :: k in streams ==> r[k] == if k in targets then streams[k] + [text] else streams[k]
  {
    map k | k in streams :: if k in targets then streams[k] + [text] else streams[k]
  }

  /** Writing to no existing log changes nothing. */
  lemma AppendNowhere(streams: map<string, seq<string>>, targets: set<string>, text: string)
    requires targets * streams.Keys == {}
    ensures Append(streams, targets, text) == streams
  {
    forall k | k in streams ensures k !in targets {
      assert k !in targets * streams.Keys;
    }
  }

  /** Which logs a message reaches: none without a '!', and otherwise only
      logged ones, and for JOIN, PART and PRIVMSG only its own channel's. */
  lemma EntryTargets(m: string, stamp: string, logged: set<string>, s: Server.State)
    requires Readable(m, logged, s)
    requires logged <= s.channelIds.Keys
    ensures var e := EntryOf(m, stamp, logged, s);
      && (Find(m, '!', 0) == |m| ==> e.None?)
      && (e.Some? ==> e.value.targets <= logged)
      && (e.Some? ==> HeadOf(m).Some? && HeadOf(m).value.command in {"JOIN", "PART", "PRIVMSG", "QUIT"})
      && (e.Some? && !e.value.line.Quitted? ==> e.value.targets <= {ChannelKey(Rest(m, HeadOf(m).value.end)[0])})
  {
    if Find(m, '!', 0) < |m| {
      var head := HeadOf(m).value;
      var e := EntryOf(m, stamp, logged, s);
      if head.command == "QUIT" {
        assert e.value.line.Quitted?;
      }
    }
  }

  /** The converse for JOIN, PART and PRIVMSG: to a logged channel the line is
      written to exactly that channel's log, with the nickname of the client
      the sender name finds, the channel as given and, for PRIVMSG, the text. */
  lemma EntryReaches(m: string, stamp: string, logged: set<string>, s: Server.State)
    requires Readable(m, logged, s)
    requires logged <= s.channelIds.Keys
    requires Find(m, '!', 0) < |m| && HeadOf(m).Some?
    requires HeadOf(m).value.command in {"JOIN", "PART", "PRIVMSG"}
    requires ChannelKey(Rest(m, HeadOf(m).value.end)[0]) in logged
    ensures var head := HeadOf(m).value;
      var params := Rest(m, head.end);
      var id := s.nicknames[head.sender];
      var key := ChannelKey(params[0]);
      var e := EntryOf(m, stamp, logged, s);
      && e.Some? && e.value.targets == {key}
      && (head.command == "JOIN" ==>
            e.value.line == Joined(stamp, s.clients[id].nickname, params[0], s.channels[s.channelIds[key]].clients[id] == Voice))
      && (head.command == "PART" ==> e.value.line == Left(stamp, s.clients[id].nickname, params[0]))
      && (head.command == "PRIVMSG" ==> e.value.line == Said(stamp, s.clients[id].nickname, params[1]))
  {
    var key := ChannelKey(Rest(m, HeadOf(m).value.end)[0]);
    assert {key} * logged == {key};
  }

  /** A QUIT goes to exactly the logged channels the sender is in. */
  lemma QuitTargetsJoined(m: string, stamp: string, logged: set<string>, s: Server.State)
    requires Readable(m, logged, s)
    requires logged <= s.channelIds.Keys
    requires Find(m, '!', 0) < |m| && HeadOf(m).value.command == "QUIT"
    ensures var e := EntryOf(m, stamp, logged, s);
      && e.Some? && e.value.line.Quitted?
      && forall k :: k in e.value.targets <==>
           k in logged && s.channelIds[k] in s.clients[s.nicknames[HeadOf(m).value.sender]].joinedChannels
  {
    var head := HeadOf(m).value;
    var id := s.nicknames[head.sender];
    assert EntryOf(m, stamp, logged, s).value.targets == QuitTargets(logged, s.channelIds, s.clients[id].joinedChannels);
  }

  // -------------------------------------------------------------------- Init

  /** Init's exceptions. */
  datatype InitError = NoChannels | NoLogPath | UnknownChannel(name: string) | CannotOpen(file: string)

  function Wording(e: InitError): string
  {
    match e
    case NoChannels => "You have to set the channel names for LogBot!"
    case NoLogPath => "You have to set the log path for LogBot!"
    case UnknownChannel(_) => "LogBot configuration contains an invalid channel name!"
    case CannotOpen(_) => "Could not open the log file for writing!"
  }

  /** The file a channel is logged to; `separator` is PATH_SEPARATOR and
      `stamp` the date and time Init runs. */
  function LogFileName(logPath: string, separator: string, stamp: string, name: string): string
  {
    logPath + separator + stamp + " - " + name + ".log"
  }

  /** The channel loop of Init: each name's lowercased key, in order, until a
      name that is no channel or whose file does not open. */
  function Opened(names: seq<string>, channelIds: map<string, ChannelId>, fileName: string -> string,
                  opens: string -> bool): (r: Result<set<string>, InitError>)
    ensures r.Ok? ==> r.value <= channelIds.Keys
    decreases |names|
  {
    if names == [] then Ok({})
    else
      var name := names[|names| - 1];
      match Opened(names[..|names| - 1], channelIds, fileName, opens)
      case Err(e) => Err(e)
      case Ok(keys) =>
        if Lower(name) !in channelIds then Err(UnknownChannel(name))
        else if !opens(fileName(name)) then Err(CannotOpen(fileName(name)))
        else Ok(keys + {Lower(name)})
  }

  /** Every configured channel is logged under its lowercased name exactly
      when all of them exist and their files open. */
  lemma {:induction false} OpenedMeaning(names: seq<string>, channelIds: map<string, ChannelId>,
                                         fileName: string -> string, opens: string -> bool)
    ensures Opened(names, channelIds, fileName, opens).Ok? <==>
      forall i :: 0 <= i < |names| ==> Lower(names[i]) in channelIds && opens(fileName(names[i]))
    ensures Opened(names, channelIds, fileName, opens).Ok? ==>
      Opened(names, channelIds, fileName, opens).value == set i | 0 <= i < |names| :: Lower(names[i])
    decreases |names|
  {
    if names != [] {
      var init := names[..|names| - 1];
      OpenedMeaning(init, channelIds, fileName, opens);
      assert forall i :: 0 <= i < |init| ==> init[i] == names[i];
      var all := set i | 0 <= i < |names| :: Lower(names[i]);
      var before := set i | 0 <= i < |init| :: Lower(init[i]);
      assert all == before + {Lower(names[|names| - 1])} by {
        forall k | k in all ensures k in before + {Lower(names[|names| - 1])} {
          var i :| 0 <= i < |names| && Lower(names[i]) == k;
          if i < |init| {
            assert Lower(init[i]) == k;
          }
        }
      }
    }
  }

  /** CLogBot: the logs of m_ChannelStreamMap by lowercased channel name. */
  class LogBot {
    var streams: map<string, seq<string>>

    constructor ()
      ensures streams == map[]
    {
      streams := map[];
    }

    /** Init: a missing configuration file disables the bot (Ok(false));
        otherwise the channel list and log path must be set and every channel
        must exist and its log open. */
    method Init(configExists: bool, names: seq<string>, logPath: string, separator: string, stamp: string,
                channelIds: map<string, ChannelId>, opens: string -> bool) returns (r: Result<bool, InitError>)
      modifies this
      ensures !configExists ==> r == Ok(false) && streams == old(streams)
      ensures configExists && names == [] ==> r == Err(NoChannels) && streams == old(streams)
      ensures configExists && names != [] && logPath == "" ==> r == Err(NoLogPath) && streams == old(streams)
      ensures configExists && names != [] && logPath != "" ==>
        var o := Opened(names, channelIds, name => LogFileName(logPath, separator, stamp, name), opens);
        && (o.Ok? ==> r == Ok(true) && streams == old(streams) + map k | k in o.value - old(streams).Keys :: [])
        && (o.Err? ==> r == Err(o.error) && streams == old(streams))
    {
      if !configExists {
        return Ok(false);
      }
      if names == [] {
        return Err(NoChannels);
      }
      if logPath == "" {
        return Err(NoLogPath);
      }
      var fileName := name => LogFileName(logPath, separator, stamp, name);
      var logs := streams;
      for i := 0 to |names|
        invariant Opened(names[..i], channelIds, fileName, opens).Ok?
        invariant logs == streams + map k | k in Opened(names[..i], channelIds, fileName, opens).value - streams.Keys :: []
      {
        assert names[..i + 1][..i] == names[..i];
        var key := Lower(names[i]);
        if key !in channelIds {
          OpenedFails(names, i, channelIds, fileName, opens);
          return Err(UnknownChannel(names[i]));
        }
        if !opens(fileName(names[i])) {
          OpenedFails(names, i, channelIds, fileName, opens);
          return Err(CannotOpen(fileName(names[i])));
        }
        if key !in logs {
          logs := logs[key := []];
        }
      }
      assert names[..|names|] == names;
      streams := logs;
      r := Ok(true);
    }

    /** SendIRCMessage: the line of the message goes to the logs it is for. */
    method SendIRCMessage(m: string, stamp: string, s: Server.State)
      modifies this
      requires Readable(m, streams.Keys, s)
      requires streams.Keys <= s.channelIds.Keys
      ensures var e := EntryOf(m, stamp, old(streams).Keys, s);
        streams == if e.None? then old(streams) else Append(old(streams), e.value.targets, Text(e.value.line))
    {
      ghost var e := EntryOf(m, stamp, streams.Keys, s);
      var bang := Find(m, '!', 0);
      if bang == |m| {
        return;
      }
      var head := HeadOf(m).value;
      var params := ExtractParameters(m, head.end);
      var id := s.nicknames[head.sender];
      var nickname := s.clients[id].nickname;
      var line: LogLine;
      if head.command == "JOIN" {
        var key := ChannelKey(params[0]);
        if key !in streams {
          AppendNowhere(streams, {}, Text(Joined(stamp, nickname, params[0], false)));
          return;
        }
        var voiced := s.channels[s.channelIds[key]].clients[id] == Voice;
        line := Joined(stamp, nickname, params[0], voiced);
        assert e == Some(Entry(line, {key}));
        Write(key, Text(line));
      } else if head.command == "PART" || head.command == "PRIVMSG" {
        var key := ChannelKey(params[0]);
        line := if head.command == "PART" then Left(stamp, nickname, params[0]) else Said(stamp, nickname, params[1]);
        assert e == Some(Entry(line, {key} * streams.Keys));
        if key !in streams {
          AppendNowhere(streams, {key} * streams.Keys, Text(line));
          return;
        }
        assert {key} * streams.Keys == {key};
        Write(key, Text(line));
      } else if head.command == "QUIT" {
        var joined := s.clients[id].joinedChannels;
        line := Quitted(stamp, nickname, params[0]);
        assert e == Some(Entry(line, QuitTargets(streams.Keys, s.channelIds, joined)));
        WriteAll(QuitTargets(streams.Keys, s.channelIds, joined), Text(line));
      }
    }

    /** PostInit: one JOIN per logged channel, with its lowercased name as the
        only parameter, each logged channel exactly once. */
    method PostInit() returns (joins: seq<seq<string>>)
      ensures |joins| == |streams.Keys|
      ensures forall j :: 0 <= j < |joins| ==> |joins[j]| == 1 && joins[j][0] in streams
      ensures forall k :: k in streams ==> exists j :: 0 <= j < |joins| && joins[j] == [k]
      ensures forall i, j :: 0 <= i < j < |joins| ==> joins[i] != joins[j]
    {
      var todo := streams.Keys;
      joins := [];
      while todo != {}
        invariant todo <= streams.Keys
        invariant |joins| + |todo| == |streams.Keys|
        invariant forall j :: 0 <= j < |joins| ==> |joins[j]| == 1 && joins[j][0] in streams.Keys - todo
        invariant forall k :: k in streams.Keys - todo ==> exists j :: 0 <= j < |joins| && joins[j] == [k]
        invariant forall i, j :: 0 <= i < j < |joins| ==> joins[i] != joins[j]
        decreases todo
      {
        var k :| k in todo;
        ghost var before := joins;
        joins := joins + [[k]];
        forall q | q in streams.Keys - (todo - {k}) ensures exists j :: 0 <= j < |joins| && joins[j] == [q] {
          if q == k {
            assert joins[|before|] == [q];
          } else {
            var j :| 0 <= j < |before| && before[j] == [q];
            assert joins[j] == [q];
          }
        }
        todo := todo - {k};
      }
      assert streams.Keys - todo == streams.Keys;
    }

    /** One line onto one log. */
    method Write(key: string, text: string)
      modifies this
      requires key in streams
      ensures streams == Append(old(streams), {key}, text)
    {
      streams := streams[key := streams[key] + [text]];
    }

    /** The QUIT loop over all logs. */
    method WriteAll(targets: set<string>, text: string)
      modifies this
      ensures streams == Append(old(streams), targets, text)
    {
      var todo := streams.Keys;
      ghost var before := streams;
      while todo != {}
        invariant todo <= before.Keys && streams.Keys == before.Keys
        invariant forall k :: k in streams ==>
          streams[k] == if k in targets && k !in todo then before[k] + [text] else before[k]
        decreases todo
      {
        var k :| k in todo;
        if k in targets {
          streams := streams[k := streams[k] + [text]];
        }
        todo := todo - {k};
      }
    }
  }

  /** The first failing name makes the whole loop fail with its error. */
  lemma OpenedFails(names: seq<string>, i: nat, channelIds: map<string, ChannelId>, fileName: string -> string, opens: string -> bool)
    requires i < |names| && Opened(names[..i], channelIds, fileName, opens).Ok?
    requires Lower(names[i]) !in channelIds || !opens(fileName(names[i]))
    ensures Opened(names, channelIds, fileName, opens) ==
      if Lower(names[i]) !in channelIds then Err(UnknownChannel(names[i])) else Err(CannotOpen(fileName(names[i])))
  {
    OpenedPrefix(names, i + 1, channelIds, fileName, opens);
    assert names[..i + 1][..i] == names[..i];
  }

  /** An error of a prefix is the error of the whole list. */
  lemma {:induction false} OpenedPrefix(names: seq<string>, n: nat, channelIds: map<string, ChannelId>, fileName: string -> string, opens: string -> bool)
    requires n <= |names| && Opened(names[..n], channelIds, fileName, opens).Err?
    ensures Opened(names, channelIds, fileName, opens) == Opened(names[..n], channelIds, fileName, opens)
    decreases |names| - n
  {
    if n < |names| {
      assert names[..n + 1][..n] == names[..n];
      OpenedPrefix(names, n + 1, channelIds, fileName, opens);
    } else {
      assert names[..n] == names;
    }
  }
}
