/** Splitting a received line into command and parameters, and the table of
    commands a network client may use. */
module Message {
  import opened Ascii
  import opened Wrappers

  /** The parameters in what follows the space after the command: a parameter
      starting with ':' takes the rest of the line, any other one runs up to the
      next space (section 2.3.1 of RFC 2812). */
  function Params(rest: string): (r: seq<string>)
    ensures |r| >= 1
    decreases |rest|
  {
    if |rest| > 0 && rest[0] == ':' then [rest[1..]]
    else
      var i := Find(rest, ' ', 0);
      if i == |rest| then [rest] else [rest[..i]] + Params(rest[i + 1..])
  }

  datatype Parsed = Invalid | Command(name: string, params: seq<string>)

  /** A line parsed as CNetworkClient::_ReceiveMessage does it: a leading prefix
      is dropped up to the first space (no space at all makes the line invalid),
      the command is upper-cased, the parameters follow. */
  function Parse(m: string): Parsed
  {
    if |m| > 0 && m[0] == ':' then
      var sp := Find(m, ' ', 0);
      if sp == |m| then Invalid else Body(m, sp + 1)
    else Body(m, 0)
  }

  function Body(m: string, offset: nat): Parsed
    requires offset <= |m|
  {
    var pos := Find(m, ' ', offset);
    Command(Upper(m[offset..pos]), Rest(m, pos))
  }

  /** Params read in place: the parameters of m[offset..] in terms of positions of m. */
  lemma ParamsAt(m: string, offset: nat)
    requires offset <= |m|
    ensures offset < |m| && m[offset] == ':' ==> Params(m[offset..]) == [m[offset + 1..]]
    ensures !(offset < |m| && m[offset] == ':') ==>
      Params(m[offset..]) == [m[offset..Find(m, ' ', offset)]] + Rest(m, Find(m, ' ', offset))
  {
    if offset < |m| && m[offset] == ':' {
      SuffixSlices(m, offset, offset);
    } else {
      var next := Find(m, ' ', offset);
      FindSuffix(m, ' ', offset);
      if next < |m| {
        SuffixSlices(m, offset, next);
      } else {
        assert m[offset..] == m[offset..next];
      }
    }
  }

  /** The parameters after the space at `pos`, none when `pos` is |m|. */
  function Rest(m: string, pos: nat): seq<string>
    requires pos <= |m|
  {
    if pos == |m| then [] else Params(m[pos + 1..])
  }

  /** The parameter loop of _ReceiveMessage, started at the position of the space
      that ends the command (|m| when there is none). */
  method ExtractParameters(m: string, position: nat) returns (params: seq<string>)
    requires position <= |m|
    ensures params == Rest(m, position)
  {
    params := [];
    var pos := position;
    while pos != |m|
      invariant position <= pos <= |m|
      invariant Rest(m, position) == params + Rest(m, pos)
      decreases |m| - pos
    {
      var offset := pos + 1;
      ParamsAt(m, offset);
      assert Rest(m, pos) == Params(m[offset..]);
      if offset < |m| && m[offset] == ':' {
        params := params + [m[offset + 1..]];
        break;
      }
      var next := Find(m, ' ', offset);
      assert params + Rest(m, pos) == (params + [m[offset..next]]) + Rest(m, next);
      params := params + [m[offset..next]];
      pos := next;
    }
  }

  /** CNetworkClient::_ReceiveMessage up to the handler lookup. */
  method ParseMessage(m: string) returns (r: Parsed)
    ensures r == Parse(m)
  {
    var offset := 0;
    if |m| > 0 && m[0] == ':' {
      offset := Find(m, ' ', 0);
      if offset == |m| {
        return Invalid;
      }
      offset := offset + 1;
    }
    var position := Find(m, ' ', offset);
    var command := Upper(m[offset..position]);
    var params := ExtractParameters(m, position);
    r := Command(command, params);
  }

  /** A parameter that can stand before the last one: no space, no leading ':'. */
  predicate IsMiddle(p: string)
  {
    ' ' !in p && (|p| == 0 || p[0] != ':')
  }

  /** Each middle parameter after a space, then the trailing one after " :". */
  function Tail(middle: seq<string>, trailing: Option<string>): string
  {
    if |middle| == 0 then (if trailing.Some? then " :" + trailing.value else "")
    else " " + middle[0] + Tail(middle[1..], trailing)
  }

  /** A message as a client writes it (section 2.3.1 of RFC 2812). */
  function Encode(prefix: Option<string>, command: string, middle: seq<string>, trailing: Option<string>): string
  {
    (if prefix.Some? then ":" + prefix.value + " " else "") + command + Tail(middle, trailing)
  }

  function Flatten(middle: seq<string>, trailing: Option<string>): seq<string>
  {
    middle + (if trailing.Some? then [trailing.value] else [])
  }

  lemma ParamsOfTrailing(t: string)
    ensures Params((" :" + t)[1..]) == [t]
  {
    assert (" :" + t)[1..] == ":" + t;
    assert (":" + t)[1..] == t;
  }

  lemma ParamsOfMiddle(p: string, more: string)
    requires IsMiddle(p)
    requires |more| > 0 && more[0] == ' '
    ensures Params((" " + p + more)[1..]) == [p] + Params(more[1..])
  {
    var rest := (" " + p + more)[1..];
    assert rest == p + [' '] + more[1..];
    FindAfter(p, ' ', more[1..]);
    assert rest[..|p|] == p;
    assert rest[|p| + 1..] == more[1..];
  }

  lemma ParamsOfLast(p: string)
    requires IsMiddle(p)
    ensures Params((" " + p)[1..]) == [p]
  {
    assert (" " + p)[1..] == p;
    FindAbsent(p, ' ', 0);
  }

  /** A single middle parameter and no trailing one. */
  lemma TailOfLast(middle: seq<string>)
    requires |middle| == 1 && IsMiddle(middle[0])
    ensures |Tail(middle, None)| > 0 && Tail(middle, None)[0] == ' '
    ensures Params(Tail(middle, None)[1..]) == Flatten(middle, None)
  {
    assert Tail(middle[1..], None) == "";
    assert Tail(middle, None) == " " + middle[0];
    ParamsOfLast(middle[0]);
  }

  /** A middle parameter in front of a tail that parses. */
  lemma TailOfMiddle(middle: seq<string>, trailing: Option<string>)
    requires |middle| > 0 && IsMiddle(middle[0])
    requires |Tail(middle[1..], trailing)| > 0 && Tail(middle[1..], trailing)[0] == ' '
    requires Params(Tail(middle[1..], trailing)[1..]) == Flatten(middle[1..], trailing)
    ensures |Tail(middle, trailing)| > 0 && Tail(middle, trailing)[0] == ' '
    ensures Params(Tail(middle, trailing)[1..]) == Flatten(middle, trailing)
  {
    var p := middle[0];
    var more := Tail(middle[1..], trailing);
    assert Tail(middle, trailing) == " " + p + more;
    ParamsOfMiddle(p, more);
    assert Flatten(middle, trailing) == [p] + Flatten(middle[1..], trailing);
  }

  lemma {:induction false} ParamsOfTail(middle: seq<string>, trailing: Option<string>)
    requires forall i :: 0 <= i < |middle| ==> IsMiddle(middle[i])
    requires |middle| > 0 || trailing.Some?
    ensures |Tail(middle, trailing)| > 0 && Tail(middle, trailing)[0] == ' '
    ensures Params(Tail(middle, trailing)[1..]) == Flatten(middle, trailing)
    decreases |middle|
  {
    if |middle| == 0 {
      ParamsOfTrailing(trailing.value);
    } else if |middle| == 1 && trailing.None? {
      TailOfLast(middle);
    } else {
      ParamsOfTail(middle[1..], trailing);
      TailOfMiddle(middle, trailing);
    }
  }

  /** The command runs up to the first space of what follows it. */
  lemma CommandEnd(m: string, offset: nat, command: string, t: string)
    requires offset <= |m| && m[offset..] == command + t
    requires ' ' !in command
    requires |t| == 0 || t[0] == ' '
    ensures offset + |command| <= |m| && m[offset..offset + |command|] == command
    ensures Find(m, ' ', offset) == offset + |command|
    ensures |t| > 0 ==> m[offset + |command| + 1..] == t[1..]
  {
    var pos := offset + |command|;
    FindSuffix(m, ' ', offset);
    if |t| > 0 {
      assert command + t == command + [' '] + t[1..];
      FindAfter(command, ' ', t[1..]);
    } else {
      FindAbsent(command, ' ', 0);
    }
    assert m[offset..pos] == (command + t)[..|command|];
  }

  lemma BodyOfEncoding(m: string, offset: nat, command: string, middle: seq<string>, trailing: Option<string>)
    requires offset <= |m| && m[offset..] == command + Tail(middle, trailing)
    requires ' ' !in command
    requires forall i :: 0 <= i < |middle| ==> IsMiddle(middle[i])
    ensures Body(m, offset) == Command(Upper(command), Flatten(middle, trailing))
  {
    var t := Tail(middle, trailing);
    if |middle| > 0 || trailing.Some? {
      ParamsOfTail(middle, trailing);
      BodyWithParams(m, offset, command, t);
    } else {
      BodyWithParams(m, offset, command, "");
    }
  }

  lemma BodyWithParams(m: string, offset: nat, command: string, t: string)
    requires offset <= |m| && m[offset..] == command + t
    requires ' ' !in command
    requires |t| == 0 || t[0] == ' '
    ensures |t| == 0 ==> Body(m, offset) == Command(Upper(command), [])
    ensures |t| > 0 ==> Body(m, offset) == Command(Upper(command), Params(t[1..]))
  {
    CommandEnd(m, offset, command, t);
  }

  lemma FindPrefixEnd(prefix: string, body: string)
    requires ' ' !in prefix
    ensures Find(":" + prefix + " " + body, ' ', 0) == |prefix| + 1
  {
    var m := ":" + prefix + " " + body;
    assert m == (":" + prefix) + [' '] + body;
    FindAfter(":" + prefix, ' ', body);
  }

  /** Parsing what a client wrote gives back its command, upper-cased, and its
      parameters: the prefix is dropped and the trailing parameter loses its ':'. */
  lemma ParseEncode(prefix: Option<string>, command: string, middle: seq<string>, trailing: Option<string>)
    requires ' ' !in command
    requires prefix.Some? ==> ' ' !in prefix.value
    requires prefix.None? ==> |command| == 0 || command[0] != ':'
    requires forall i :: 0 <= i < |middle| ==> IsMiddle(middle[i])
    ensures Parse(Encode(prefix, command, middle, trailing)) == Command(Upper(command), Flatten(middle, trailing))
  {
    var body := command + Tail(middle, trailing);
    if prefix.Some? {
      assert Encode(prefix, command, middle, trailing) == ":" + prefix.value + " " + body;
      ParseWithPrefix(prefix.value, body);
    } else {
      assert Encode(prefix, command, middle, trailing) == body;
      NoPrefix(command, middle, trailing);
      ParseBody(body);
    }
    assert body[0..] == body;
    BodyOfEncoding(body, 0, command, middle, trailing);
  }

  /** A prefix is dropped together with the space after it. */
  lemma ParseWithPrefix(prefix: string, body: string)
    requires ' ' !in prefix
    ensures Parse(":" + prefix + " " + body) == Body(body, 0)
  {
    var m := ":" + prefix + " " + body;
    FindPrefixEnd(prefix, body);
    BodyAfter(m, |prefix| + 2, body);
  }

  /** The body of a line read at an offset is the body of what follows it. */
  lemma BodyAfter(m: string, offset: nat, body: string)
    requires offset <= |m| && m[offset..] == body
    ensures Body(m, offset) == Body(body, 0)
  {
    FindSuffix(m, ' ', offset);
    assert body[0..] == body;
    var pos := Find(m, ' ', offset);
    assert m[offset..pos] == body[..pos - offset];
    if pos < |m| {
      assert m[pos + 1..] == body[pos - offset + 1..];
    }
  }

  /** A line without a prefix is all body. */
  lemma ParseBody(m: string)
    requires |m| == 0 || m[0] != ':'
    ensures Parse(m) == Body(m, 0)
  {
  }

  /** Without a prefix the line does not start with ':'. */
  lemma NoPrefix(command: string, middle: seq<string>, trailing: Option<string>)
    requires |command| == 0 || command[0] != ':'
    ensures |command + Tail(middle, trailing)| == 0 || (command + Tail(middle, trailing))[0] != ':'
  {
    var m := command + Tail(middle, trailing);
    if |command| > 0 {
      assert m[0] == command[0];
    } else if |middle| > 0 {
      assert m == " " + middle[0] + Tail(middle[1..], trailing);
    } else if trailing.Some? {
      assert m == " :" + trailing.value;
    }
  }

  /** The handlers CIRCServer offers to network clients. */
  datatype Handler =
    | Info | Join | Motd | Names | Nick | Ns | Part | Ping | Pong | Privmsg | Quit | Topic | User | Version

  const CommandHandlers: map<string, Handler> := map[
    "INFO" := Info, "JOIN" := Join, "MOTD" := Motd, "NAMES" := Names, "NICK" := Nick,
    "NS" := Ns, "PART" := Part, "PING" := Ping, "PONG" := Pong, "PRIVMSG" := Privmsg,
    "QUIT" := Quit, "TOPIC" := Topic, "USER" := User, "VERSION" := Version]

  /** A command is dispatched only when its upper-cased name is in the table;
      NOTICE and MODE, among others, are ignored. */
  function Dispatch(p: Parsed): (r: Option<Handler>)
    ensures r.Some? ==> p.Command? && p.name in CommandHandlers && CommandHandlers[p.name] == r.value
    ensures p.Command? && p.name in CommandHandlers ==> r.Some?
  {
    if p.Command? && p.name in CommandHandlers then Some(CommandHandlers[p.name]) else None
  }
}
