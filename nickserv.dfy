/** CNickServ: the built-in client that network clients identify with. A
    private message to it is split into an upper-cased command and the
    parameters between single spaces; IDENTIFY compares the SHA-512 digest of
    the password with the digest stored for the exact-case nickname. */
module NickServ {
  import opened Ascii
  import opened Irc
  import opened Wrappers
  import opened Client
  import opened Passhash

  /** What NickServ says, one constructor per notice of CNickServ.cpp; the
      help texts are numbered line by line. */
  datatype Reply =
    | AlreadyIdentified
    | PasswordFirst
    | NoPasswordKnown
    | NicknameCaseHint
    | InvalidPassword
    | PasswordCaseHint
    | IdentifySucceeded
    | InvalidCommand
    | GeneralHelp(line: nat)
    | IdentifyHelp(line: nat)

  const GeneralHelpText: seq<string> := [
    "***** NickServ Help *****",
    "General Help:",
    "",
    "NickServ allows you to identify with your nickname using the given password.",
    "You cannot join a channel before having identified!",
    "",
    "For more information about a command, type:",
    "/NS HELP <command>",
    "",
    "This NickServ supports the following commands:",
    "IDENTIFY    Identifies using a password.",
    "***** End of Help *****"]

  const IdentifyHelpText: seq<string> := [
    "***** NickServ Help *****",
    "Help for IDENTIFY:",
    "",
    "IDENTIFY identifies you with the IRC Server, so that you can join channels.",
    "If you don't identify, you will be disconnected after 240 seconds.",
    "",
    "Syntax: IDENTIFY <password>",
    "",
    "Example:",
    "   /NS IDENTIFY ThisIsMyRandomPassword",
    "***** End of Help *****"]

  function Wording(r: Reply): string
  {
    match r
    case AlreadyIdentified => "You are already identified!"
    case PasswordFirst => "You need to specify your password as the first parameter!"
    case NoPasswordKnown => "No password is known for this nickname!"
    case NicknameCaseHint => "Ensure that your nickname is spelled correctly (they are case-sensitive)."
    case InvalidPassword => "Invalid password!"
    case PasswordCaseHint => "Ensure that your password is spelled correctly (it is case-sensitive)."
    case IdentifySucceeded => "You have successfully identified!"
    case InvalidCommand => "Invalid command. Use /NS HELP for a command listing."
    case GeneralHelp(i) => if i < |GeneralHelpText| then GeneralHelpText[i] else ""
    case IdentifyHelp(i) => if i < |IdentifyHelpText| then IdentifyHelpText[i] else ""
  }

  /** A notice to the client with identity `to`. */
  datatype Notice = Notice(to: ClientId, reply: Reply)

  const NickServPrefix := NewVirtualClient("NickServ").prefix

  /** The line CNetworkClient::SendNotice queues for a notice from NickServ. */
  function NoticeLine(receiver: ClientState, r: Reply): string
  {
    ":" + NickServPrefix + " NOTICE " + NicknameAsTarget(receiver) + " :" + Wording(r)
  }

  function Notices(to: ClientId, rs: seq<Reply>): (r: seq<Notice>)
    ensures |r| == |rs|
    ensures forall i :: 0 <= i < |rs| ==> r[i] == Notice(to, rs[i])
  {
    seq(|rs|, i requires 0 <= i < |rs| => Notice(to, rs[i]))
  }

  // ------------------------------------------------------- splitting a message

  /** The command: the text before the first space, upper-cased. */
  function CommandOf(text: string): string
  {
    Upper(text[..Find(text, ' ', 0)])
  }

  /** The pieces after the separator at `pos`, none when `pos` is |text|. */
  function PiecesAfter(text: string, sep: char, pos: nat): seq<string>
    requires pos <= |text|
  {
    if pos == |text| then [] else Split(text[pos + 1..], sep)
  }

  /** The parameters: every piece between single spaces after the command. */
  function ParametersOf(text: string): seq<string>
  {
    PiecesAfter(text, ' ', Find(text, ' ', 0))
  }

  lemma SplitHead(s: string, sep: char, i: nat)
    requires i < |s| && Find(s, sep, 0) == i
    ensures Split(s, sep) == [s[..i]] + Split(s[i + 1..], sep)
  {
  }

  /** Split read in place: the pieces of text[offset..] in positions of
      text, `next` being the first separator at or after `offset`. */
  lemma SplitAt(text: string, sep: char, offset: nat, next: nat)
    requires offset <= next <= |text|
    requires next < |text| ==> text[next] == sep
    requires forall j :: offset <= j < next ==> text[j] != sep
    ensures Split(text[offset..], sep) == [text[offset..next]] + PiecesAfter(text, sep, next)
  {
    var rest := text[offset..];
    forall j | 0 <= j < next - offset ensures rest[j] != sep {
      assert rest[j] == text[offset + j];
    }
    if next < |text| {
      assert rest[next - offset] == sep;
      FindUnique(rest, sep, 0, next - offset);
      SplitHead(rest, sep, next - offset);
      assert rest[..next - offset] == text[offset..next];
      assert rest[next - offset + 1..] == text[next + 1..];
    } else {
      FindUnique(rest, sep, 0, next - offset);
      assert rest == text[offset..next];
    }
  }

  /** The parameter loop of CNickServ::SendPrivateMessage. */
  method SplitMessage(text: string) returns (command: string, params: seq<string>)
    ensures command == CommandOf(text)
    ensures params == ParametersOf(text)
  {
    var position := Find(text, ' ', 0);
    command := Upper(text[..position]);
    params := [];
    while position != |text|
      invariant position <= |text|
      invariant ParametersOf(text) == params + PiecesAfter(text, ' ', position)
      decreases |text| - position
    {
      var offset := position + 1;
      position := Find(text, ' ', offset);
      SplitAt(text, ' ', offset, position);
      params := params + [text[offset..position]];
    }
  }

  /** One more parameter than there are spaces after the command: empty
      pieces between two spaces count. */
  lemma {:induction false} SplitCount(s: string, sep: char)
    ensures |Split(s, sep)| == multiset(s)[sep] + 1
    decreases |s|
  {
    var i := Find(s, sep, 0);
    if i == |s| {
      assert sep !in s;
    } else {
      SplitCount(s[i + 1..], sep);
      Around(s, i);
      assert sep !in s[..i] by { SliceAvoids(s, sep, 0, i); }
      assert multiset(s) == multiset(s[..i]) + multiset{sep} + multiset(s[i + 1..]) by {
        assert s == s[..i] + [sep] + s[i + 1..];
      }
    }
  }

  /** What follows the first separator, split, loses nothing. */
  lemma PiecesAfterFirst(text: string, sep: char, p: nat)
    requires p <= |text|
    requires p < |text| ==> text[p] == sep
    requires forall j :: 0 <= j < p ==> text[j] != sep
    ensures PiecesAfter(text, sep, p) == [] <==> sep !in text
    ensures sep in text ==> Join(PiecesAfter(text, sep, p), sep) == text[p + 1..]
    ensures |PiecesAfter(text, sep, p)| == multiset(text)[sep]
  {
    if p == |text| {
      assert sep !in text;
      assert multiset(text)[sep] == 0;
    } else {
      JoinSplit(text[p + 1..], sep);
      SplitCount(text[p + 1..], sep);
      assert sep !in text[..p] by { SliceAvoids(text, sep, 0, p); }
      assert multiset(text) == multiset(text[..p]) + multiset{sep} + multiset(text[p + 1..]) by {
        Around(text, p);
      }
    }
  }

  /** The parameters lose nothing: no space means none, otherwise they are
      the rest of the message, one piece per space-separated field. */
  lemma ParametersMeaning(text: string)
    ensures ParametersOf(text) == [] <==> ' ' !in text
    ensures ' ' in text ==> Join(ParametersOf(text), ' ') == text[Find(text, ' ', 0) + 1..]
    ensures |ParametersOf(text)| == multiset(text)[' ']
  {
    PiecesAfterFirst(text, ' ', Find(text, ' ', 0));
  }

  // ----------------------------------------------------------------- IDENTIFY

  /** _ReceiveCommand_IDENTIFY's checks, in the order they are made. */
  datatype Verdict = Already | NoParameter | UnknownNickname | WrongPassword | Accepted

  function IdentifyVerdict(passhashes: map<string, seq<Byte>>, sha512: string -> seq<Byte>,
                           c: ClientState, params: seq<string>): Verdict
  {
    if c.userState.isIdentified then Already
    else if params == [] then NoParameter
    else if c.nickname !in passhashes then UnknownNickname
    else if passhashes[c.nickname] != sha512(params[0]) then WrongPassword
    else Accepted
  }

  function VerdictReplies(v: Verdict): seq<Reply>
  {
    match v
    case Already => [AlreadyIdentified]
    case NoParameter => [PasswordFirst]
    case UnknownNickname => [NoPasswordKnown, NicknameCaseHint]
    case WrongPassword => [InvalidPassword, PasswordCaseHint]
    case Accepted => [IdentifySucceeded]
  }

  /** The client after IDENTIFY: only an accepted password changes it. */
  function Identified(c: ClientState, v: Verdict): ClientState
  {
    if v == Accepted then c.(userState := c.userState.(isIdentified := true)) else c
  }

  /** A client becomes identified exactly when it was not, gave a first
      parameter, and the digest of that parameter is the one stored under its
      nickname as spelled; nothing else about it changes. */
  lemma IdentifyMeaning(passhashes: map<string, seq<Byte>>, sha512: string -> seq<Byte>, c: ClientState, params: seq<string>)
    ensures var v := IdentifyVerdict(passhashes, sha512, c, params);
      (v == Accepted <==>
        !c.userState.isIdentified && params != [] && c.nickname in passhashes
        && passhashes[c.nickname] == sha512(params[0]))
      && Identified(c, v).userState.isIdentified == (c.userState.isIdentified || v == Accepted)
      && Identified(c, v).(userState := c.userState) == c
      && Identified(c, v).userState.hasSentNickMessage == c.userState.hasSentNickMessage
      && Identified(c, v).userState.hasSentUserMessage == c.userState.hasSentUserMessage
      && (v == Accepted <==> Identified(c, v) != c)
  {
  }

  // ------------------------------------------------------------------- HELP

  function HelpReplies(params: seq<string>): seq<Reply>
  {
    if params == [] then seq(|GeneralHelpText|, i requires 0 <= i < |GeneralHelpText| => GeneralHelp(i))
    else if Upper(params[0]) == "IDENTIFY" then seq(|IdentifyHelpText|, i requires 0 <= i < |IdentifyHelpText| => IdentifyHelp(i))
    else []
  }

  /** HELP only sends help lines, the general ones without a parameter. */
  lemma HelpOnlyHelps(params: seq<string>)
    ensures forall i :: 0 <= i < |HelpReplies(params)| ==> HelpReplies(params)[i].GeneralHelp? || HelpReplies(params)[i].IdentifyHelp?
    ensures params == [] ==> |HelpReplies(params)| == |GeneralHelpText| && HelpReplies(params)[0] == GeneralHelp(0)
    ensures params != [] && Upper(params[0]) != "IDENTIFY" ==> HelpReplies(params) == []
  {
  }

  // ---------------------------------------------------------------- dispatch

  /** What a private message does: the client afterwards and the notices. */
  datatype Outcome = Outcome(client: ClientState, replies: seq<Reply>)

  function Receive(passhashes: map<string, seq<Byte>>, sha512: string -> seq<Byte>, c: ClientState, text: string): Outcome
  {
    var command := CommandOf(text);
    var params := ParametersOf(text);
    if command == "HELP" then Outcome(c, HelpReplies(params))
    else if command == "IDENTIFY" then
      var v := IdentifyVerdict(passhashes, sha512, c, params);
      Outcome(Identified(c, v), VerdictReplies(v))
    else Outcome(c, [InvalidCommand])
  }

  /** Only IDENTIFY changes the client, and only by identifying it; any other
      unknown command answers with the one "Invalid command" notice. */
  lemma ReceiveOutcome(passhashes: map<string, seq<Byte>>, sha512: string -> seq<Byte>, c: ClientState, text: string)
    ensures var o := Receive(passhashes, sha512, c, text);
      && (o.client == c || o.client == c.(userState := c.userState.(isIdentified := true)))
      && (o.client != c ==> CommandOf(text) == "IDENTIFY" && !c.userState.isIdentified)
      && (CommandOf(text) != "HELP" && CommandOf(text) != "IDENTIFY" ==> o == Outcome(c, [InvalidCommand]))
      && (|o.replies| > 0 || (CommandOf(text) == "HELP" && ParametersOf(text) != []))
  {
  }

  /** CNickServ: the exact-case passhash table of NickServ_Users.ini and the
      notices sent so far. `sha512` stands for OpenSSL's SHA512. */
  class NickServ {
    const sha512: string -> seq<Byte>
    var passhashes: map<string, seq<Byte>>
    var sent: seq<Notice>

    constructor (sha512: string -> seq<Byte>)
      ensures this.sha512 == sha512 && passhashes == map[] && sent == []
    {
      this.sha512 := sha512;
      passhashes := map[];
      sent := [];
    }

    /** Init: every entry of the users file, keys as written, inserted so
        that a key already present keeps its digest. */
    method Init(users: seq<Setting>) returns (error: Option<string>)
      modifies this
      ensures Table(users, false).Ok? ==> error == None && passhashes == Table(users, false).value + old(passhashes)
      ensures Table(users, false).Err? ==> error == Some(LengthError) && passhashes == old(passhashes)
      ensures sent == old(sent)
    {
      var table := LoadPasshashes(users, false);
      if table.Err? {
        return Some(table.error);
      }
      passhashes := table.value + passhashes;
      error := None;
    }

    method Help(to: ClientId, params: seq<string>)
      modifies this
      ensures sent == old(sent) + Notices(to, HelpReplies(params))
      ensures passhashes == old(passhashes)
    {
      sent := sent + Notices(to, HelpReplies(params));
    }

    method Identify(to: ClientId, c: ClientState, params: seq<string>) returns (r: ClientState)
      modifies this
      ensures r == Identified(c, IdentifyVerdict(passhashes, sha512, c, params))
      ensures sent == old(sent) + Notices(to, VerdictReplies(IdentifyVerdict(passhashes, sha512, c, params)))
      ensures passhashes == old(passhashes)
    {
      r := c;
      if c.userState.isIdentified {
        sent := sent + [Notice(to, AlreadyIdentified)];
        return;
      }
      if params == [] {
        sent := sent + [Notice(to, PasswordFirst)];
        return;
      }
      if c.nickname !in passhashes {
        sent := sent + [Notice(to, NoPasswordKnown), Notice(to, NicknameCaseHint)];
        return;
      }
      var passhash := sha512(params[0]);
      if passhashes[c.nickname] != passhash {
        sent := sent + [Notice(to, InvalidPassword), Notice(to, PasswordCaseHint)];
        return;
      }
      r := c.(userState := c.userState.(isIdentified := true));
      sent := sent + [Notice(to, IdentifySucceeded)];
    }

    /** SendPrivateMessage from the network client `c` with identity `to`;
        the result is `c` as the handler leaves it. */
    method SendPrivateMessage(to: ClientId, c: ClientState, text: string) returns (r: ClientState)
      requires c.isNetworkClient
      modifies this
      ensures r == Receive(passhashes, sha512, c, text).client
      ensures sent == old(sent) + Notices(to, Receive(passhashes, sha512, c, text).replies)
      ensures passhashes == old(passhashes)
    {
      var command, params := SplitMessage(text);
      if command == "HELP" {
        Help(to, params);
        r := c;
      } else if command == "IDENTIFY" {
        r := Identify(to, c, params);
      } else {
        sent := sent + [Notice(to, InvalidCommand)];
        r := c;
      }
    }
  }
}
