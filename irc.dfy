/** Protocol constants, the per-user state, channel statuses and what the model
    records as sent to a client. */
module Irc {

  /** Longest message including its CR LF terminator (section 2.3 of RFC 2812). */
  const IrcMessageLength := 512
  const MotdLineLength := 80
  const NicknameLength := 30

  const RplWelcome := 1
  const RplYourHost := 2
  const RplCreated := 3
  const RplMyInfo := 4
  const RplNoTopic := 331
  const RplTopic := 332
  const RplVersion := 351
  const RplNamReply := 353
  const RplEndOfNames := 366
  const RplInfo := 371
  const RplMotd := 372
  const RplEndOfInfo := 374
  const RplMotdStart := 375
  const RplEndOfMotd := 376
  const ErrNoSuchNick := 401
  const ErrNoSuchChannel := 403
  const ErrCannotSendToChan := 404
  const ErrNoRecipient := 411
  const ErrNoTextToSend := 412
  const ErrNoNicknameGiven := 431
  const ErrErroneusNickname := 432
  const ErrNicknameInUse := 433
  const ErrNotOnChannel := 442
  const ErrNeedMoreParams := 461

  /** A client object's identity: the C++ code compares CClient pointers. */
  type ClientId = nat

  /** A channel object's identity: the position at which the server created it. */
  type ChannelId = nat

  /** One key=value line as the configuration-file lexer hands it over. */
  datatype Setting = Setting(key: string, value: string)

  /** The strings the build puts into version.h. */
  datatype Build = Build(versionId: string, versionDate: string, productName: string,
                         versionCopyright: string, environmentName: string)

  datatype UserState = UserState(hasSentNickMessage: bool, hasSentUserMessage: bool, isIdentified: bool)

  predicate IsUserRegistered(s: UserState)
  {
    s.hasSentNickMessage && s.hasSentUserMessage
  }

  datatype ClientStatus = NoStatus | Voice

  /** What reaches a client: a raw protocol line, a numeric reply (its code and
      the arguments filled into the reply's template), a notice from the server,
      or a private message from another client. */
  datatype Event =
    | IrcLine(to: ClientId, line: string)
    | NumericReply(to: ClientId, code: nat, args: seq<string>)
    | ServerNotice(to: ClientId, text: string)
    | PrivateMessage(to: ClientId, from: ClientId, text: string)

  /** The same line sent to each of `ids`, in order. */
  function Lines(ids: seq<ClientId>, line: string): (r: seq<Event>)
    ensures |r| == |ids|
    ensures forall i :: 0 <= i < |ids| ==> r[i] == IrcLine(ids[i], line)
  {
    seq(|ids|, i requires 0 <= i < |ids| => IrcLine(ids[i], line))
  }

  predicate IsMin(m: ClientId, s: set<ClientId>)
  {
    m in s && forall x :: x in s ==> m <= x
  }

  ghost function Min(s: set<ClientId>): (m: ClientId)
    requires s != {}
    ensures IsMin(m, s)
  {
    var x :| x in s;
    if s == {x} then x
    else
      var y := Min(s - {x});
      assert forall z :: z in s ==> z == x || z in s - {x};
      if x < y then x else y
  }

  lemma MinUnique(m: ClientId, s: set<ClientId>)
    requires IsMin(m, s)
    ensures m == Min(s)
  {
  }

  /** The identities of `s` in increasing order: the order in which the C++ code
      walks a std::map keyed by client pointers. */
  ghost function Ascending(s: set<ClientId>): (r: seq<ClientId>)
    decreases |s|
  {
    if s == {} then []
    else
      var m := Min(s);
      [m] + Ascending(s - {m})
  }

  /** Ascending lists every identity of the set once, smallest first. */
  lemma AscendingProperties(s: set<ClientId>)
    ensures |Ascending(s)| == |s|
    ensures forall x :: x in Ascending(s) <==> x in s
    ensures forall i, j :: 0 <= i < j < |Ascending(s)| ==> Ascending(s)[i] < Ascending(s)[j]
  {
    AscendingLength(s);
    AscendingMembers(s);
    AscendingSorted(s);
  }

  lemma {:induction false} AscendingLength(s: set<ClientId>)
    ensures |Ascending(s)| == |s|
    decreases |s|
  {
    if s != {} {
      AscendingLength(s - {Min(s)});
    }
  }

  lemma {:induction false} AscendingMembers(s: set<ClientId>)
    ensures forall x :: x in Ascending(s) <==> x in s
    decreases |s|
  {
    if s != {} {
      var m := Min(s);
      AscendingMembers(s - {m});
      assert Ascending(s) == [m] + Ascending(s - {m});
    }
  }

  lemma {:induction false} AscendingSorted(s: set<ClientId>)
    ensures forall i, j :: 0 <= i < j < |Ascending(s)| ==> Ascending(s)[i] < Ascending(s)[j]
    decreases |s|
  {
    if s != {} {
      var m := Min(s);
      var rest := Ascending(s - {m});
      AscendingSorted(s - {m});
      AscendingMembers(s - {m});
      var r := Ascending(s);
      assert r == [m] + rest;
      forall i, j | 0 <= i < j < |r| ensures r[i] < r[j] {
        if i > 0 {
          assert r[i] == rest[i - 1] && r[j] == rest[j - 1];
        } else {
          assert r[j] == rest[j - 1] && rest[j - 1] in s - {m};
        }
      }
    }
  }

  /** Identities below a bound stay below it when listed. */
  lemma AscendingBelow(s: set<ClientId>, n: nat)
    requires forall x :: x in s ==> x < n
    ensures forall i :: 0 <= i < |Ascending(s)| ==> Ascending(s)[i] < n
  {
    AscendingMembers(s);
    forall i | 0 <= i < |Ascending(s)| ensures Ascending(s)[i] < n {
      assert Ascending(s)[i] in Ascending(s);
    }
  }

  /** Walks the identities of `s` in increasing order. */
  method Enumerate(s: set<ClientId>) returns (r: seq<ClientId>)
    ensures r == Ascending(s)
  {
    r := [];
    var rest := s;
    while rest != {}
      invariant rest <= s
      invariant Ascending(s) == r + Ascending(rest)
      decreases |rest|
    {
      var m :| IsMin(m, rest) by {
        assert IsMin(Min(rest), rest);
      }
      MinUnique(m, rest);
      r := r + [m];
      rest := rest - {m};
    }
  }
}
