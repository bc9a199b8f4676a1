/** CVoteBot: a built-in client that lets the members of one channel vote
    secretly on a question that an administrator sets up in private messages.
    The module states each command as a function from the bot's state before
    to its state after plus what it sends; the class VoteBot performs the same
    steps on its fields. */
module Voting {
  import opened Ascii
  import opened Irc
  import opened Wrappers
  import opened Client

  /** What the bot sends: a private message or a notice to one client, or a
      PRIVMSG to its channel (which the server hands on to the members). */
  datatype BotEvent =
    | Private(to: ClientId, reply: Reply)
    | Notice(to: ClientId, reply: Reply)
    | ToChannel(reply: Reply)

  /** One participant's entry: whether an answer came in, and the option. */
  datatype VoteParameters = VoteParameters(hasVoted: bool, option: nat)

  type Votes = map<ClientId, VoteParameters>

  /** What Init fixes: the abstention option's text, the lowercased
      administrators, the channel's name and the time limit in minutes. */
  datatype BotConfig = BotConfig(abstention: string, adminUsers: set<string>, channelName: string, timeLimit: nat)

  /** The fields the commands change. `timerArmed` says that the deadline
      timer is waiting. */
  datatype Ballot = Ballot(
    currentAdmin: string,
    options: seq<string>,
    question: string,
    timerArmed: bool,
    voteCount: nat,
    votes: Votes,
    voteStarted: bool)

  /** A command's outcome: the new state and what was sent, in order. */
  datatype Step = Step(ballot: Ballot, out: seq<BotEvent>)

  /** What the bot says, one constructor per message of CVoteBot.cpp with the
      values it fills in; Wording gives the text. */
  datatype Reply =
    | IdentifyFirst
    | NothingToCancel
    | CanceledBy(nickname: string)
    | ResetDone
    | UsedBy(admin: string)
    | TypeCancel
    | AlreadyRunning
    | BeingPrepared
    | EnterQuestion(channel: string)
    | EnterOption(abstention: string)
    | OptionAdded
    | InvalidCommand
    | NotMine(channel: string)
    | QuestionFirst
    | TwoOptions
    | WantOpinion(admin: string)
    | QuestionIs(question: string)
    | PossibleOptions
    | OptionLine(index: nat, option: string)
    | SendNumber
    | AnswerWithin(minutes: nat, abstention: string)
    | NoMembers
    | AskingAll(admin: string)
    | NotAllowed
    | EnterNumber
    | OutOfRange
    | VoteChanged
    | VoteCast
    | ResultsIn(channel: string)
    | VoteOver
    | AnswersFollow
    | Tallied(option: string, count: nat)
    | TotalVotes(count: nat)
    | HelpTitle
    | HelpPurpose
    | HelpChannel(channel: string)
    | Blank
    | HelpAdministrator
    | HelpNew
    | HelpAbstention(abstention: string)
    | HelpStart
    | HelpTime(minutes: nat, abstention: string)
    | HelpCancel
    | HelpEnd

  /** The exact text of each reply, numbers in decimal. */
  function Wording(r: Reply): string
  {
    match r
    case IdentifyFirst => "Please identify first!"
    case NothingToCancel => "There is nothing to cancel."
    case CanceledBy(nickname) => "The running vote has been canceled by " + nickname
    case ResetDone => "Everything has been reset."
    case UsedBy(admin) => "This VoteBot is currently being used by " + admin + "."
    case TypeCancel => "You have to type \"CANCEL\" if you want to cancel all running actions and use it yourself."
    case AlreadyRunning => "A vote is already running. You have to cancel it first if you want to prepare a new one."
    case BeingPrepared => "A vote is currently being prepared. You have to cancel it first if you want to prepare a new one."
    case EnterQuestion(channel) => "Please enter the question you want to vote on in #" + channel + "."
    case EnterOption(abstention) =>
      "Please enter a vote option now. The \"" + abstention + "\" option will automatically be added to the available options."
    case OptionAdded => "This option has been added. Enter another one or \"START\" to start the vote."
    case InvalidCommand => "Invalid command. Type \"HELP\" for more information."
    case NotMine(channel) => "I'm VoteBot for #" + channel + ", and you're not my administrator :-P"
    case QuestionFirst => "Please enter a question first. Type \"HELP\" for more information."
    case TwoOptions => "Please enter at least two voting options. Type \"HELP\" for more information."
    case WantOpinion(admin) => admin + " has set up a vote and I want your opinion."
    case QuestionIs(question) => "Question: " + question
    case PossibleOptions => "Possible options:"
    case OptionLine(index, option) => "   " + Decimal(index) + " - " + option
    case SendNumber => "Please send me the number of your option."
    case AnswerWithin(minutes, abstention) =>
      "If you don't answer within " + Decimal(minutes) + " minutes, your vote will be counted as \"" + abstention + "\"."
    case NoMembers => "The channel has no members."
    case AskingAll(admin) => admin + " has set up a vote and I'm asking all of you in private messages now."
    case NotAllowed => "You're not allowed to participate in this vote."
    case EnterNumber => "Please enter a number."
    case OutOfRange => "This number is out of range."
    case VoteChanged =>
      "Your vote has been changed. You can still change your decision again as long as the others are not yet done."
    case VoteCast => "Your vote has been cast. You can still change your decision as long as the others are not yet done."
    case ResultsIn(channel) => "All votes are in. The results are available in #" + channel + "."
    case VoteOver => "The vote is over. Here are the results!"
    case AnswersFollow => "Answers:"
    case Tallied(option, count) => "   " + option + " - " + Decimal(count) + " votes"
    case TotalVotes(count) => "Total number of votes: " + Decimal(count)
    case HelpTitle => "***** VoteBot Help *****"
    case HelpPurpose => "VoteBot enables all users on a channel to secretly vote on a question."
    case HelpChannel(channel) => "This VoteBot is responsible for the channel #" + channel + "."
    case Blank => ""
    case HelpAdministrator => "As an administrator of this VoteBot, you can set up the questions."
    case HelpNew => "Just type \"NEW\" and I will ask you about your question and the possible vote options."
    case HelpAbstention(abstention) => "The \"" + abstention + "\" option will automatically be added to the available options."
    case HelpStart =>
      "When you're done, type \"START\" and I will put this question to all channel members in private messages."
    case HelpTime(minutes, abstention) =>
      "They have " + Decimal(minutes) + " minutes to answer, otherwise their vote will be counted as \"" + abstention + "\"."
    case HelpCancel => "You can always cancel the question setup and even the running vote by typing \"CANCEL\"."
    case HelpEnd => "***** End of Help *****"
  }

  // Init's error messages.
  const EmptyAbstention := "The abstention_translation value may not be empty!"
  const NoAdministrator := "You have to set at least one administrator for this VoteBot!"
  const NoChannel := "You have to set the channel name for this VoteBot!"
  const NoTimeLimit := "You have to set a time limit for this VoteBot!"
  const InvalidChannel := "This VoteBot configuration contains an invalid channel name!"

  /** The state _Reset leaves. */
  const Idle: Ballot := Ballot("", [], "", false, 0, map[], false)

  /** The participants whose answer has come in. */
  function Voted(votes: Votes): set<ClientId>
  {
    set k | k in votes && votes[k].hasVoted
  }

  predicate OptionsFit(b: Ballot)
  {
    forall k :: k in b.votes ==> b.votes[k].option < |b.options|
  }

  /** What the bot keeps true between commands: the vote counter is the number
      of entries that have voted, every option is in range and an entry without
      an answer holds the abstention, a running vote waits for somebody, and
      only a running vote has entries and an armed timer. */
  predicate Invariant(b: Ballot)
  {
    && b.voteCount == |Voted(b.votes)|
    && OptionsFit(b)
    && (forall k :: k in b.votes && !b.votes[k].hasVoted ==> b.votes[k].option == 0)
    && (b.voteStarted ==> b.voteCount < |b.votes|)
    && (!b.voteStarted ==> b.votes == map[])
    && b.timerArmed == b.voteStarted
  }

  /** The invariant without its "somebody is still missing" part: what holds
      right after an answer or a departure, before _CheckVotes. */
  predicate Settled(b: Ballot)
  {
    && b.voteCount == |Voted(b.votes)|
    && OptionsFit(b)
    && (forall k :: k in b.votes && !b.votes[k].hasVoted ==> b.votes[k].option == 0)
    && (!b.voteStarted ==> b.votes == map[])
    && b.timerArmed == b.voteStarted
  }

  lemma VotedBound(votes: Votes)
    ensures |Voted(votes)| <= |votes|
  {
    assert Voted(votes) <= votes.Keys;
    SubsetCard(Voted(votes), votes.Keys);
  }

  lemma {:induction false} SubsetCard(a: set<ClientId>, b: set<ClientId>)
    requires a <= b
    ensures |a| <= |b|
    decreases |b|
  {
    if a != {} {
      var x :| x in a;
      SubsetCard(a - {x}, b - {x});
    }
  }

  // ---------------------------------------------------------------- results

  /** Every listed identity has an entry whose option is below n. */
  predicate Covers(votes: Votes, keys: seq<ClientId>, n: nat)
  {
    forall j :: 0 <= j < |keys| ==> keys[j] in votes && votes[keys[j]].option < n
  }

  predicate Distinct(keys: seq<ClientId>)
  {
    forall a, b :: 0 <= a < b < |keys| ==> keys[a] != keys[b]
  }

  /** The per-option counts the loop of _CheckVotes accumulates over `keys`. */
  function Tally(votes: Votes, keys: seq<ClientId>, n: nat): (r: seq<nat>)
    requires Covers(votes, keys, n)
    ensures |r| == n
    decreases |keys|
  {
    if keys == [] then seq(n, _ => 0)
    else
      var t := Tally(votes, keys[..|keys| - 1], n);
      var o := votes[keys[|keys| - 1]].option;
      t[o := t[o] + 1]
  }

  function Sum(a: seq<nat>): nat
    decreases |a|
  {
    if a == [] then 0 else Sum(a[..|a| - 1]) + a[|a| - 1]
  }

  lemma {:induction false} SumZeros(n: nat)
    ensures Sum(seq(n, _ => 0)) == 0
  {
    if n > 0 {
      assert seq(n, _ => 0)[..n - 1] == seq(n - 1, _ => 0);
      SumZeros(n - 1);
    }
  }

  /** Counting one more vote for one option adds one to the total. */
  lemma {:induction false} SumBump(a: seq<nat>, o: nat)
    requires o < |a|
    ensures Sum(a[o := a[o] + 1]) == Sum(a) + 1
    decreases |a|
  {
    var b := a[o := a[o] + 1];
    if o == |a| - 1 {
      assert b[..|b| - 1] == a[..|a| - 1];
    } else {
      assert b[..|b| - 1] == a[..|a| - 1][o := a[o] + 1];
      SumBump(a[..|a| - 1], o);
    }
  }

  /** The tallies add up to the number of participants counted. */
  lemma {:induction false} TallySum(votes: Votes, keys: seq<ClientId>, n: nat)
    requires Covers(votes, keys, n)
    ensures Sum(Tally(votes, keys, n)) == |keys|
    decreases |keys|
  {
    if keys == [] {
      SumZeros(n);
    } else {
      var init := keys[..|keys| - 1];
      TallySum(votes, init, n);
      SumBump(Tally(votes, init, n), votes[keys[|keys| - 1]].option);
    }
  }

  /** The participants among `keys` whose option is `i`. */
  function Choosing(votes: Votes, keys: seq<ClientId>, i: nat): set<ClientId>
  {
    set k | k in keys && k in votes && votes[k].option == i
  }

  lemma ChoosingSnoc(votes: Votes, init: seq<ClientId>, x: ClientId, i: nat)
    ensures Choosing(votes, init + [x], i)
         == if x in votes && votes[x].option == i then Choosing(votes, init, i) + {x} else Choosing(votes, init, i)
  {
  }

  /** Each tally is the number of distinct participants who chose that option. */
  lemma {:induction false} TallyCounts(votes: Votes, keys: seq<ClientId>, n: nat, i: nat)
    requires Covers(votes, keys, n) && Distinct(keys) && i < n
    ensures Tally(votes, keys, n)[i] == |Choosing(votes, keys, i)|
    decreases |keys|
  {
    if keys == [] {
      assert Choosing(votes, keys, i) == {};
    } else {
      var init := keys[..|keys| - 1];
      var x := keys[|keys| - 1];
      assert Distinct(init) && Covers(votes, init, n);
      TallyCounts(votes, init, n, i);
      assert x !in Choosing(votes, init, i) by {
        forall a | 0 <= a < |init| ensures init[a] != x {
          assert init[a] == keys[a];
        }
      }
      assert keys == init + [x];
      ChoosingSnoc(votes, init, x, i);
    }
  }

  /** Listing the entries in ascending order covers them once each. */
  lemma KeysCover(votes: Votes, n: nat)
    requires forall k :: k in votes ==> votes[k].option < n
    ensures Covers(votes, Ascending(votes.Keys), n) && Distinct(Ascending(votes.Keys))
    ensures |Ascending(votes.Keys)| == |votes|
    ensures forall i :: Choosing(votes, Ascending(votes.Keys), i) == set k | k in votes && votes[k].option == i
  {
    AscendingProperties(votes.Keys);
    var keys := Ascending(votes.Keys);
    forall j | 0 <= j < |keys| ensures keys[j] in votes {
      assert keys[j] in keys;
    }
  }

  /** The results of a finished vote: the tallies count, option by option, the
      participants who chose it, and they add up to the number of participants. */
  lemma ResultsAddUp(votes: Votes, n: nat)
    requires forall k :: k in votes ==> votes[k].option < n
    ensures Covers(votes, Ascending(votes.Keys), n)
    ensures Sum(Tally(votes, Ascending(votes.Keys), n)) == |votes|
    ensures forall i :: 0 <= i < n ==>
      Tally(votes, Ascending(votes.Keys), n)[i] == |set k | k in votes && votes[k].option == i|
  {
    KeysCover(votes, n);
    TallySum(votes, Ascending(votes.Keys), n);
    forall i | 0 <= i < n
      ensures Tally(votes, Ascending(votes.Keys), n)[i] == |set k | k in votes && votes[k].option == i|
    {
      TallyCounts(votes, Ascending(votes.Keys), n, i);
    }
  }

  // ------------------------------------------------------------- messages

  function Privates(to: ClientId, lines: seq<Reply>): (r: seq<BotEvent>)
    ensures |r| == |lines|
  {
    seq(|lines|, i requires 0 <= i < |lines| => Private(to, lines[i]))
  }

  function Notices(to: ClientId, lines: seq<Reply>): (r: seq<BotEvent>)
    ensures |r| == |lines|
  {
    seq(|lines|, i requires 0 <= i < |lines| => Notice(to, lines[i]))
  }

  /** "   %u - %s" for each option. */
  function OptionLines(options: seq<string>): (r: seq<Reply>)
    ensures |r| == |options|
  {
    seq(|options|, i requires 0 <= i < |options| => OptionLine(i, options[i]))
  }

  /** What START tells each participant. */
  function InvitationLines(cfg: BotConfig, admin: string, question: string, options: seq<string>): seq<Reply>
  {
    [WantOpinion(admin), QuestionIs(question), PossibleOptions]
    + OptionLines(options)
    + [SendNumber,
       AnswerWithin(cfg.timeLimit, cfg.abstention)]
  }

  /** The invitations START sends while walking the members in order: only
      network clients are asked. */
  function Invitations(ids: seq<ClientId>, network: set<ClientId>, lines: seq<Reply>): seq<BotEvent>
    decreases |ids|
  {
    if ids == [] then []
    else
      Invitations(ids[..|ids| - 1], network, lines)
      + (if ids[|ids| - 1] in network then Privates(ids[|ids| - 1], lines) else [])
  }

  lemma InvitationsSnoc(ids: seq<ClientId>, i: nat, network: set<ClientId>, lines: seq<Reply>)
    requires i < |ids|
    ensures Invitations(ids[..i + 1], network, lines)
         == Invitations(ids[..i], network, lines) + (if ids[i] in network then Privates(ids[i], lines) else [])
  {
    assert ids[..i + 1][..i] == ids[..i];
  }

  /** m_Votes after START's inserts: every network member gets an entry with
      option 0 and no answer; an entry that is already there is kept
      (std::map::insert). */
  function Seed(votes: Votes, ids: seq<ClientId>, network: set<ClientId>): Votes
    decreases |ids|
  {
    if ids == [] then votes
    else
      var v := Seed(votes, ids[..|ids| - 1], network);
      var c := ids[|ids| - 1];
      if c in network && c !in v then v[c := VoteParameters(false, 0)] else v
  }

  lemma SeedSnoc(votes: Votes, ids: seq<ClientId>, i: nat, network: set<ClientId>)
    requires i < |ids|
    ensures var v := Seed(votes, ids[..i], network);
      Seed(votes, ids[..i + 1], network)
        == if ids[i] in network && ids[i] !in v then v[ids[i] := VoteParameters(false, 0)] else v
  {
    assert ids[..i + 1][..i] == ids[..i];
  }

  /** START keeps the entries it finds and adds a fresh one for each network
      member without one. */
  lemma {:induction false} SeedMeaning(votes: Votes, ids: seq<ClientId>, network: set<ClientId>)
    ensures forall k :: k in Seed(votes, ids, network) <==> k in votes || (k in ids && k in network)
    ensures forall k :: k in votes ==> Seed(votes, ids, network)[k] == votes[k]
    ensures forall k :: k in Seed(votes, ids, network) && k !in votes ==>
      Seed(votes, ids, network)[k] == VoteParameters(false, 0)
    decreases |ids|
  {
    if ids != [] {
      var init := ids[..|ids| - 1];
      SeedMeaning(votes, init, network);
      assert ids == init + [ids[|ids| - 1]];
    }
  }

  /** The lines the channel is told when the vote is over. */
  function AnswerLines(options: seq<string>, counts: seq<nat>): (r: seq<BotEvent>)
    requires |counts| == |options|
    ensures |r| == |options|
  {
    seq(|options|, i requires 0 <= i < |options| => ToChannel(Tallied(options[i], counts[i])))
  }

  function AllIn(keys: seq<ClientId>, channelName: string): (r: seq<BotEvent>)
    ensures |r| == |keys|
  {
    seq(|keys|, i requires 0 <= i < |keys| =>
      Private(keys[i], ResultsIn(channelName)))
  }

  /** What _CheckVotes sends once all votes are in: a note to each
      participant, then the question and the tally of each option to the
      channel. */
  function ResultEvents(cfg: BotConfig, b: Ballot, keys: seq<ClientId>): seq<BotEvent>
    requires Covers(b.votes, keys, |b.options|)
  {
    AllIn(keys, cfg.channelName)
    + [ToChannel(VoteOver), ToChannel(QuestionIs(b.question)), ToChannel(AnswersFollow)]
    + AnswerLines(b.options, Tally(b.votes, keys, |b.options|))
    + [ToChannel(TotalVotes(|b.votes|))]
  }

  // ------------------------------------------------------------- commands

  /** _CheckVotes: once the counter reaches the number of entries, publish the
      results and reset. */
  ghost function CheckStep(cfg: BotConfig, b: Ballot): (r: Step)
    requires OptionsFit(b)
  {
    if b.voteCount == |b.votes| then
      KeysCover(b.votes, |b.options|);
      Step(Idle, ResultEvents(cfg, b, Ascending(b.votes.Keys)))
    else Step(b, [])
  }

  /** _CheckVotes resets exactly when the counter has reached the number of
      entries, and then the vote is over; a settled state it leaves alone
      satisfies the invariant. */
  lemma CheckStepOutcome(cfg: BotConfig, b: Ballot)
    requires OptionsFit(b)
    ensures b.voteCount == |b.votes| ==> CheckStep(cfg, b).ballot == Idle
    ensures b.voteCount != |b.votes| ==> CheckStep(cfg, b) == Step(b, [])
    ensures Settled(b) || b.voteCount == |b.votes| ==> Invariant(CheckStep(cfg, b).ballot)
  {
    if b.voteCount != |b.votes| && Settled(b) {
      VotedBound(b.votes);
    }
  }

  function Cancel(b: Ballot, sender: ClientId, nickname: string): (r: Step)
  {
    if b.currentAdmin == "" then Step(b, [Private(sender, NothingToCancel)])
    else
      Step(Idle, (if b.voteStarted then [ToChannel(CanceledBy(nickname))] else [])
                 + [Private(sender, ResetDone)])
  }

  /** CANCEL does nothing when nobody has started a setup and otherwise resets
      everything, telling the channel when a running vote was stopped. */
  lemma CancelOutcome(b: Ballot, sender: ClientId, nickname: string)
    ensures b.currentAdmin == "" ==> Cancel(b, sender, nickname).ballot == b
    ensures b.currentAdmin != "" ==> Cancel(b, sender, nickname).ballot == Idle
    ensures (exists e :: e in Cancel(b, sender, nickname).out && e.ToChannel?) <==> b.currentAdmin != "" && b.voteStarted
  {
    var out := Cancel(b, sender, nickname).out;
    if b.currentAdmin != "" && b.voteStarted {
      assert out[0].ToChannel?;
    }
  }

  function HelpLines(cfg: BotConfig): seq<Reply>
  {
    [HelpTitle, HelpPurpose, HelpChannel(cfg.channelName), Blank,
     HelpAdministrator, HelpNew, HelpAbstention(cfg.abstention), Blank,
     HelpStart, HelpTime(cfg.timeLimit, cfg.abstention), Blank,
     HelpCancel, HelpEnd]
  }

  /** _ReceiveCommand_NEW as written: a second NEW while the question is still
      awaited passes both checks and appends the abstention option again. */
  function NewAsWritten(cfg: BotConfig, b: Ballot, sender: ClientId, nickname: string): (r: Step)
  {
    if b.voteStarted then
      Step(b, [Private(sender, AlreadyRunning)])
    else if b.question != "" then
      Step(b, [Private(sender, BeingPrepared)])
    else
      Step(b.(options := b.options + [cfg.abstention], currentAdmin := nickname),
           [Private(sender, EnterQuestion(cfg.channelName))])
  }

  /** _ReceiveCommand_NEW as intended: a setup already under way (an
      administrator holds the lock) counts as "being prepared" too. */
  function New(cfg: BotConfig, b: Ballot, sender: ClientId, nickname: string): (r: Step)
  {
    if b.voteStarted then
      Step(b, [Private(sender, AlreadyRunning)])
    else if b.question != "" || b.currentAdmin != "" then
      Step(b, [Private(sender, BeingPrepared)])
    else
      Step(b.(options := b.options + [cfg.abstention], currentAdmin := nickname),
           [Private(sender, EnterQuestion(cfg.channelName))])
  }

  /** NEW is refused, with no change, while a vote runs or is being prepared;
      from the reset state it locks the bot to the sender and the options are
      exactly the abstention. */
  lemma NewOutcome(cfg: BotConfig, b: Ballot, sender: ClientId, nickname: string)
    ensures b.voteStarted || b.question != "" || b.currentAdmin != "" ==> New(cfg, b, sender, nickname).ballot == b
    ensures b == Idle ==> New(cfg, b, sender, nickname).ballot.options == [cfg.abstention]
    ensures b == Idle ==> New(cfg, b, sender, nickname).ballot.currentAdmin == nickname
  {
  }

  /** A second NEW before the question leaves the option list as it was. */
  lemma NewTwice(cfg: BotConfig, sender: ClientId, nickname: string)
    requires nickname != ""
    ensures New(cfg, New(cfg, Idle, sender, nickname).ballot, sender, nickname).ballot.options == [cfg.abstention]
  {
  }

  /** As written, two NEW commands in a row give the abstention twice, so a
      question with a single real option reaches the three options START asks for. */
  lemma DoubleNewDuplicatesAbstention(cfg: BotConfig, sender: ClientId, nickname: string)
    ensures NewAsWritten(cfg, NewAsWritten(cfg, Idle, sender, nickname).ballot, sender, nickname).ballot.options
         == [cfg.abstention, cfg.abstention]
  {
  }

  /** START: with a question and at least two options besides the abstention,
      every network client among the members is asked and gets an entry;
      the vote starts unless nobody qualified. */
  ghost function StartStep(cfg: BotConfig, b: Ballot, sender: ClientId, members: set<ClientId>, network: set<ClientId>): (r: Step)
  {
    if b.question == "" then
      Step(b, [Private(sender, QuestionFirst)])
    else if |b.options| < 3 then
      Step(b, [Private(sender, TwoOptions)])
    else
      var ids := Ascending(members);
      var votes := Seed(b.votes, ids, network);
      var invites := Invitations(ids, network, InvitationLines(cfg, b.currentAdmin, b.question, b.options));
      if votes == map[] then
        Step(b, invites + [Private(sender, NoMembers)])
      else
        Step(b.(votes := votes, timerArmed := true, voteStarted := true),
             invites + [ToChannel(AskingAll(b.currentAdmin))])
  }

  /** `v` keeps every entry of `before` and adds fresh ones only. */
  predicate Extends(before: Votes, v: Votes)
  {
    && (forall k :: k in before ==> k in v && v[k] == before[k])
    && (forall k :: k in v && k !in before ==> v[k] == VoteParameters(false, 0))
  }

  lemma SeedExtends(votes: Votes, members: set<ClientId>, network: set<ClientId>)
    ensures Extends(votes, Seed(votes, Ascending(members), network))
    ensures Seed(votes, Ascending(members), network).Keys == votes.Keys + (members * network)
  {
    AscendingMembers(members);
    SeedMeaning(votes, Ascending(members), network);
  }

  lemma ExtendsVoted(before: Votes, v: Votes)
    requires Extends(before, v)
    ensures Voted(v) == Voted(before)
  {
  }

  lemma ExtendsEmpty(before: Votes, v: Votes)
    requires Extends(before, v) && v == map[]
    ensures before == map[]
  {
    assert before.Keys <= v.Keys;
    assert before.Keys == {};
  }

  /** Seeding a nonempty list of entries into a valid state starts a valid vote. */
  lemma SeededInvariant(b: Ballot, v: Votes)
    requires Invariant(b) && |b.options| > 0 && Extends(b.votes, v) && v != map[]
    ensures Invariant(b.(votes := v, timerArmed := true, voteStarted := true))
  {
    ExtendsVoted(b.votes, v);
    VotedBound(b.votes);
    assert |v| > 0 by {
      var k :| k in v;
      assert k in v.Keys;
    }
    if b.voteStarted {
      assert b.votes.Keys <= v.Keys;
      SubsetCard(b.votes.Keys, v.Keys);
    }
  }

  /** START without a question or with fewer than three options changes
      nothing; otherwise the entries are the old ones plus one per network
      member, fresh ones without an answer on option 0, and the vote runs
      exactly when there is an entry. */
  lemma StartOutcome(cfg: BotConfig, b: Ballot, sender: ClientId, members: set<ClientId>, network: set<ClientId>)
    requires Invariant(b)
    ensures b.question == "" || |b.options| < 3 ==> StartStep(cfg, b, sender, members, network).ballot == b
    ensures b.question != "" && |b.options| >= 3 ==>
      var r := StartStep(cfg, b, sender, members, network).ballot;
      && r.votes.Keys == b.votes.Keys + (members * network)
      && Extends(b.votes, r.votes)
      && (r.voteStarted <==> r.votes != map[])
      && r.voteCount == b.voteCount
    ensures Invariant(StartStep(cfg, b, sender, members, network).ballot)
  {
    if b.question != "" && |b.options| >= 3 {
      var v := Seed(b.votes, Ascending(members), network);
      SeedExtends(b.votes, members, network);
      if v != map[] {
        SeededInvariant(b, v);
      } else {
        ExtendsEmpty(b.votes, v);
      }
    }
  }

  /** The state after a valid answer, before _CheckVotes. */
  function Cast(b: Ballot, sender: ClientId, n: nat): (r: Ballot)
    requires sender in b.votes
  {
    if b.votes[sender].hasVoted then b.(votes := b.votes[sender := VoteParameters(true, n)])
    else b.(votes := b.votes[sender := VoteParameters(true, n)], voteCount := b.voteCount + 1)
  }

  /** An answer records the option and marks the sender as having voted; the
      counter grows exactly on the sender's first answer, so it keeps counting
      the entries that have voted. */
  lemma CastCounts(b: Ballot, sender: ClientId, n: nat)
    requires Invariant(b) && b.voteStarted && sender in b.votes && n < |b.options|
    ensures Cast(b, sender, n).votes[sender] == VoteParameters(true, n)
    ensures Cast(b, sender, n).voteCount == b.voteCount + (if b.votes[sender].hasVoted then 0 else 1)
    ensures Settled(Cast(b, sender, n))
  {
    var r := Cast(b, sender, n);
    if b.votes[sender].hasVoted {
      assert Voted(r.votes) == Voted(b.votes);
    } else {
      assert Voted(r.votes) == Voted(b.votes) + {sender};
    }
  }

  /** _ReceiveVote: only participants may answer, with a decimal number below
      the number of options. An empty answer passes the digit check; the
      extraction from the empty stream then stores nothing and the code reads
      an uninitialised number, where the model takes option 0. */
  ghost function Vote(cfg: BotConfig, b: Ballot, sender: ClientId, text: string): (r: Step)
    requires OptionsFit(b)
  {
    if sender !in b.votes then Step(b, [Private(sender, NotAllowed)])
    else if !AllDigits(text) then Step(b, [Private(sender, EnterNumber)])
    else
      var n := DecimalValue(text);
      if n >= |b.options| then Step(b, [Private(sender, OutOfRange)])
      else
        var said := if b.votes[sender].hasVoted
          then VoteChanged
          else VoteCast;
        var c := CheckStep(cfg, Cast(b, sender, n));
        Step(c.ballot, [Private(sender, said)] + c.out)
  }

  /** An answer from a non-participant, one that is not a number, or one out
      of range changes nothing; an accepted one is recorded and then checked. */
  lemma VoteOutcome(cfg: BotConfig, b: Ballot, sender: ClientId, text: string)
    requires Invariant(b) && b.voteStarted
    ensures sender !in b.votes || !AllDigits(text) || DecimalValue(text) >= |b.options| ==>
      Vote(cfg, b, sender, text).ballot == b
    ensures sender in b.votes && AllDigits(text) && DecimalValue(text) < |b.options| ==>
      Vote(cfg, b, sender, text).ballot == CheckStep(cfg, Cast(b, sender, DecimalValue(text))).ballot
    ensures Invariant(Vote(cfg, b, sender, text).ballot)
  {
    if sender in b.votes && AllDigits(text) && DecimalValue(text) < |b.options| {
      CastCounts(b, sender, DecimalValue(text));
      CheckStepOutcome(cfg, Cast(b, sender, DecimalValue(text)));
    }
  }

  /** The text of a line the server gives the bot while a vote runs has the
      shape the bot asserts: a prefix with '!' and '@', then a command; a PART
      or QUIT comes from a nickname the server knows. */
  predicate Readable(m: string, nicknames: map<string, ClientId>)
  {
    && |m| > 0 && m[0] == ':'
    && HeadOf(m).Some?
    && (HeadOf(m).value.command == "PART" || HeadOf(m).value.command == "QUIT" ==> HeadOf(m).value.sender in nicknames)
  }

  /** The state after a participant left, before _CheckVotes. */
  function Drop(b: Ballot, c: ClientId): (r: Ballot)
    requires Invariant(b) && b.voteStarted && c in b.votes
  {
    if b.votes[c].hasVoted then
      assert c in Voted(b.votes);
      b.(votes := b.votes - {c}, voteCount := b.voteCount - 1)
    else b.(votes := b.votes - {c})
  }

  /** A participant who leaves loses the entry, and the counter loses one
      exactly when that participant had voted. */
  lemma DropCounts(b: Ballot, c: ClientId)
    requires Invariant(b) && b.voteStarted && c in b.votes
    ensures Drop(b, c).votes == b.votes - {c}
    ensures Drop(b, c).voteCount == b.voteCount - (if b.votes[c].hasVoted then 1 else 0)
    ensures Settled(Drop(b, c))
  {
    var r := Drop(b, c);
    if b.votes[c].hasVoted {
      assert Voted(r.votes) == Voted(b.votes) - {c};
    } else {
      assert Voted(r.votes) == Voted(b.votes);
    }
  }

  /** SendIRCMessage: while a vote runs, a PART or QUIT line removes its
      sender's entry. */
  ghost function Leave(cfg: BotConfig, b: Ballot, m: string, nicknames: map<string, ClientId>): (r: Step)
    requires Invariant(b)
    requires b.voteStarted ==> Readable(m, nicknames)
  {
    if !b.voteStarted then Step(b, [])
    else
      var head := HeadOf(m).value;
      if head.command != "PART" && head.command != "QUIT" then Step(b, [])
      else
        var c := nicknames[head.sender];
        if c !in b.votes then Step(b, [])
        else
          DropCounts(b, c);
          CheckStep(cfg, Drop(b, c))
  }

  /** Only a PART or QUIT from a participant during a vote changes anything. */
  lemma LeaveOutcome(cfg: BotConfig, b: Ballot, m: string, nicknames: map<string, ClientId>)
    requires Invariant(b)
    requires b.voteStarted ==> Readable(m, nicknames)
    ensures !b.voteStarted ==> Leave(cfg, b, m, nicknames) == Step(b, [])
    ensures Invariant(Leave(cfg, b, m, nicknames).ballot)
    ensures b.voteStarted && (HeadOf(m).value.command == "PART" || HeadOf(m).value.command == "QUIT") ==>
      nicknames[HeadOf(m).value.sender] !in Leave(cfg, b, m, nicknames).ballot.votes
  {
    if b.voteStarted {
      var head := HeadOf(m).value;
      if head.command == "PART" || head.command == "QUIT" {
        var c := nicknames[head.sender];
        if c in b.votes {
          DropCounts(b, c);
          CheckStepOutcome(cfg, Drop(b, c));
        }
      }
    }
  }

  /** _VoteDeadline: on expiry every entry counts as voted, which ends the
      vote; a cancelled wait does nothing. */
  ghost function Deadline(cfg: BotConfig, b: Ballot, expired: bool): (r: Step)
    requires Invariant(b) && (expired ==> b.timerArmed)
  {
    if !expired then Step(b, []) else CheckStep(cfg, b.(voteCount := |b.votes|))
  }

  /** The expiry publishes the results (abstention for whoever did not answer)
      and resets the bot; a cancelled wait leaves everything as it was. */
  lemma DeadlineOutcome(cfg: BotConfig, b: Ballot, expired: bool)
    requires Invariant(b) && (expired ==> b.timerArmed)
    ensures !expired ==> Deadline(cfg, b, expired) == Step(b, [])
    ensures expired ==> Deadline(cfg, b, expired).ballot == Idle
    ensures expired ==> Covers(b.votes, Ascending(b.votes.Keys), |b.options|)
                        && Deadline(cfg, b, expired).out == ResultEvents(cfg, b, Ascending(b.votes.Keys))
    ensures Invariant(Deadline(cfg, b, expired).ballot)
  {
    if expired {
      KeysCover(b.votes, |b.options|);
    }
  }

  /** An administrator's text that is no command, before the vote runs: the
      question first, then one option per message. */
  function AdminText(cfg: BotConfig, b: Ballot, sender: ClientId, text: string): (r: Step)
  {
    if b.question == "" && b.currentAdmin != "" then
      Step(b.(question := text),
           [Private(sender, EnterOption(cfg.abstention))])
    else if b.question != "" then
      Step(b.(options := b.options + [text]),
           [Private(sender, OptionAdded)])
    else Step(b, [Private(sender, InvalidCommand)])
  }

  /** Which branch of SendPrivateMessage a message takes. */
  datatype Route =
    | Unidentified
    | CancelCmd
    | HelpCmd
    | Locked
    | NewCmd
    | StartCmd
    | Setup
    | Answer
    | Stranger

  /** SendPrivateMessage's dispatch, in the order the code tests: identification
      first; an administrator's commands are case-insensitive, CANCEL and HELP
      are open to every administrator and the rest only to the one holding the
      lock; everything else is an answer to a running vote. */
  function RouteOf(cfg: BotConfig, b: Ballot, who: ClientState, text: string): (r: Route)
  {
    if !who.userState.isIdentified then Unidentified
    else if who.nicknameLowercased in cfg.adminUsers then
      var command := Upper(text);
      if command == "CANCEL" then CancelCmd
      else if command == "HELP" then HelpCmd
      else if b.currentAdmin != "" && b.currentAdmin != who.nickname then Locked
      else if command == "NEW" then NewCmd
      else if command == "START" then StartCmd
      else if !b.voteStarted then Setup
      else Answer
    else if b.voteStarted then Answer
    else Stranger
  }

  /** Who may do what: the commands are for identified administrators only,
      and only CANCEL and HELP pass the lock of another administrator; a
      message is taken as an answer exactly when a vote runs and it is no
      command an administrator may give. */
  lemma RouteRights(cfg: BotConfig, b: Ballot, who: ClientState, text: string)
    ensures var r := RouteOf(cfg, b, who, text);
      r in {CancelCmd, HelpCmd, Locked, NewCmd, StartCmd, Setup} ==>
        who.userState.isIdentified && who.nicknameLowercased in cfg.adminUsers
    ensures var r := RouteOf(cfg, b, who, text);
      r in {NewCmd, StartCmd, Setup} ==> b.currentAdmin == "" || b.currentAdmin == who.nickname
    ensures RouteOf(cfg, b, who, text) == Locked <==>
      who.userState.isIdentified && who.nicknameLowercased in cfg.adminUsers
      && Upper(text) != "CANCEL" && Upper(text) != "HELP" && b.currentAdmin != "" && b.currentAdmin != who.nickname
    ensures RouteOf(cfg, b, who, text) == Answer <==>
      who.userState.isIdentified && b.voteStarted
      && (who.nicknameLowercased in cfg.adminUsers ==>
            Upper(text) !in {"CANCEL", "HELP", "NEW", "START"} && (b.currentAdmin == "" || b.currentAdmin == who.nickname))
    ensures RouteOf(cfg, b, who, text) == Setup ==> !b.voteStarted
  {
  }

  /** The effect of a private message, branch by branch. */
  ghost function PrivateStep(cfg: BotConfig, b: Ballot, sender: ClientId, who: ClientState, text: string,
                             members: set<ClientId>, network: set<ClientId>): (r: Step)
    requires Invariant(b)
  {
    match RouteOf(cfg, b, who, text)
    case Unidentified => Step(b, [Private(sender, IdentifyFirst)])
    case CancelCmd => Cancel(b, sender, who.nickname)
    case HelpCmd => Step(b, Notices(sender, HelpLines(cfg)))
    case Locked => Step(b, [Private(sender, UsedBy(b.currentAdmin)), Private(sender, TypeCancel)])
    case NewCmd => New(cfg, b, sender, who.nickname)
    case StartCmd => StartStep(cfg, b, sender, members, network)
    case Setup => AdminText(cfg, b, sender, text)
    case Answer => Vote(cfg, b, sender, text)
    case Stranger => Step(b, [Private(sender, NotMine(cfg.channelName))])
  }

  /** Every private message keeps the invariant, in particular the vote
      counter; only CANCEL, NEW, START, setup text and answers change the state. */
  lemma PrivateStepOutcome(cfg: BotConfig, b: Ballot, sender: ClientId, who: ClientState, text: string,
                           members: set<ClientId>, network: set<ClientId>)
    requires Invariant(b)
    ensures RouteOf(cfg, b, who, text) in {Unidentified, HelpCmd, Locked, Stranger} ==>
      PrivateStep(cfg, b, sender, who, text, members, network).ballot == b
    ensures Invariant(PrivateStep(cfg, b, sender, who, text, members, network).ballot)
  {
    match RouteOf(cfg, b, who, text)
    case StartCmd => StartOutcome(cfg, b, sender, members, network);
    case Answer => VoteOutcome(cfg, b, sender, text);
    case _ =>
  }

  // ----------------------------------------------------------------- Init

  /** The values the configuration-file lexer hands over for one VoteBot,
      defaults filled in ("Abstention", no administrators, no channel, 0). */
  datatype VoteBotOptions = VoteBotOptions(abstention: string, admins: seq<string>, channel: string, timeLimit: nat)

  /** Init. Without its configuration file the bot is disabled (`Ok(None)`);
      otherwise the sanity checks come in the order the code makes them.
      `channels` maps lowercased channel names to the channels' names. */
  function Configure(file: Option<VoteBotOptions>, channels: map<string, string>): (r: Result<Option<BotConfig>, string>)
  {
    match file
    case None => Ok(None)
    case Some(o) =>
      if o.abstention == "" then Err(EmptyAbstention)
      else if o.admins == [] then Err(NoAdministrator)
      else if o.channel == "" then Err(NoChannel)
      else if o.timeLimit == 0 then Err(NoTimeLimit)
      else if Lower(o.channel) !in channels then Err(InvalidChannel)
      else Ok(Some(BotConfig(o.abstention, set a | a in o.admins :: Lower(a), channels[Lower(o.channel)], o.timeLimit)))
  }

  /** A configuration file is accepted exactly when every value is set and the
      channel exists; then the administrators are the lowercased names and the
      channel is the one the server knows. */
  lemma ConfigureOutcome(o: VoteBotOptions, channels: map<string, string>)
    ensures Configure(Some(o), channels).Ok? <==>
      o.abstention != "" && o.admins != [] && o.channel != "" && o.timeLimit > 0 && Lower(o.channel) in channels
    ensures Configure(Some(o), channels).Ok? ==>
      var cfg := Configure(Some(o), channels).value.value;
      && cfg.channelName == channels[Lower(o.channel)]
      && cfg.abstention == o.abstention && cfg.timeLimit == o.timeLimit
      && (forall a :: a in o.admins ==> Lower(a) in cfg.adminUsers)
      && (forall u :: u in cfg.adminUsers ==> exists a :: a in o.admins && Lower(a) == u)
  {
  }

  /** The loop that lowercases the administrators into a set. */
  method LowerAdmins(admins: seq<string>) returns (users: set<string>)
    ensures users == set a | a in admins :: Lower(a)
  {
    users := {};
    var i := 0;
    while i < |admins|
      invariant i <= |admins|
      invariant users == set a | a in admins[..i] :: Lower(a)
    {
      assert admins[..i + 1] == admins[..i] + [admins[i]];
      users := users + {Lower(admins[i])};
      i := i + 1;
    }
    assert admins[..i] == admins;
  }

  // ---------------------------------------------------------------- class

  class VoteBot {
    const abstention: string
    const adminUsers: set<string>
    const channelName: string
    const timeLimit: nat
    var currentAdmin: string
    var options: seq<string>
    var question: string
    var timerArmed: bool
    var voteCount: nat
    var votes: Votes
    var voteStarted: bool
    /** Everything the bot has sent so far. */
    var sent: seq<BotEvent>

    function Config(): BotConfig
    {
      BotConfig(abstention, adminUsers, channelName, timeLimit)
    }

    function Current(): Ballot
      reads this
    {
      Ballot(currentAdmin, options, question, timerArmed, voteCount, votes, voteStarted)
    }

    predicate Valid()
      reads this
    {
      Invariant(Current())
    }

    /** The constructor and Init: configured, and reset. */
    constructor (cfg: BotConfig)
      ensures Config() == cfg && Current() == Idle && sent == [] && Valid()
    {
      abstention, adminUsers, channelName, timeLimit := cfg.abstention, cfg.adminUsers, cfg.channelName, cfg.timeLimit;
      currentAdmin, options, question, timerArmed := "", [], "", false;
      voteCount, votes, voteStarted := 0, map[], false;
      sent := [];
      new;
    }

    /** _Reset: no administrator, no options, no question, no entries, no
      running vote, the timer cancelled. */
    method Reset()
      modifies this
      ensures Current() == Idle && sent == old(sent)
    {
      currentAdmin := "";
      options := [];
      question := "";
      timerArmed := false;
      voteCount := 0;
      votes := map[];
      voteStarted := false;
    }

    /** CClient::SendPrivateMessage to one client. */
    method Say(to: ClientId, reply: Reply)
      modifies this
      ensures Current() == old(Current()) && sent == old(sent) + [Private(to, reply)]
    {
      sent := sent + [Private(to, reply)];
    }

    /** _SendToChannel. */
    method Announce(reply: Reply)
      modifies this
      ensures Current() == old(Current()) && sent == old(sent) + [ToChannel(reply)]
    {
      sent := sent + [ToChannel(reply)];
    }

    /** The counting loop of _CheckVotes, on an array of one counter per option. */
    method Count(keys: seq<ClientId>) returns (counts: seq<nat>)
      requires Covers(votes, keys, |options|)
      ensures counts == Tally(votes, keys, |options|)
    {
      var results := new nat[|options|](_ => 0);
      assert results[..] == Tally(votes, keys[..0], |options|);
      var i := 0;
      while i < |keys|
        invariant i <= |keys| && results.Length == |options|
        invariant results[..] == Tally(votes, keys[..i], |options|)
      {
        var o := votes[keys[i]].option;
        assert keys[..i + 1][..i] == keys[..i];
        results[o] := results[o] + 1;
        i := i + 1;
      }
      assert keys[..i] == keys;
      counts := results[..];
    }

    /** The note to every participant that the results are in. */
    method NotifyAll(keys: seq<ClientId>)
      modifies this
      ensures Current() == old(Current()) && sent == old(sent) + AllIn(keys, channelName)
    {
      var i := 0;
      while i < |keys|
        invariant i <= |keys| && Current() == old(Current())
        invariant sent == old(sent) + AllIn(keys[..i], channelName)
      {
        assert AllIn(keys[..i + 1], channelName) == AllIn(keys[..i], channelName) + [Private(keys[i], ResultsIn(channelName))];
        Say(keys[i], ResultsIn(channelName));
        i := i + 1;
      }
      assert keys[..i] == keys;
    }

    /** One line per option with its count. */
    method AnnounceAnswers(counts: seq<nat>)
      modifies this
      requires |counts| == |options|
      ensures Current() == old(Current()) && sent == old(sent) + AnswerLines(options, counts)
    {
      var j := 0;
      while j < |options|
        invariant j <= |options| && Current() == old(Current())
        invariant sent == old(sent) + AnswerLines(options, counts)[..j]
      {
        assert AnswerLines(options, counts)[..j + 1] == AnswerLines(options, counts)[..j]
          + [ToChannel(Tallied(options[j], counts[j]))];
        Announce(Tallied(options[j], counts[j]));
        j := j + 1;
      }
      assert AnswerLines(options, counts)[..j] == AnswerLines(options, counts);
    }

    /** _CheckVotes: when every entry has voted, publish the results and reset. */
    method CheckVotes()
      modifies this
      requires OptionsFit(Current())
      ensures Current() == CheckStep(Config(), old(Current())).ballot
      ensures sent == old(sent) + CheckStep(Config(), old(Current())).out
    {
      if voteCount == |votes| {
        var keys := Enumerate(votes.Keys);
        KeysCover(votes, |options|);
        var counts := Count(keys);
        NotifyAll(keys);
        Announce(VoteOver);
        Announce(QuestionIs(question));
        Announce(AnswersFollow);
        AnnounceAnswers(counts);
        Announce(TotalVotes(|votes|));
        ResultsOrder(old(sent), AllIn(keys, channelName), ToChannel(VoteOver), ToChannel(QuestionIs(question)),
                     ToChannel(AnswersFollow), AnswerLines(options, counts), ToChannel(TotalVotes(|votes|)));
        Reset();
      }
    }

    /** The invitation for one participant, with its loop over the options. */
    method Invite(to: ClientId)
      modifies this
      ensures Current() == old(Current())
      ensures sent == old(sent) + Privates(to, InvitationLines(Config(), currentAdmin, question, options))
    {
      var lead := [WantOpinion(currentAdmin), QuestionIs(question), PossibleOptions];
      var i := 0;
      while i < |lead|
        invariant i <= |lead| && Current() == old(Current())
        invariant sent == old(sent) + Privates(to, lead[..i])
      {
        assert Privates(to, lead[..i + 1]) == Privates(to, lead[..i]) + [Private(to, lead[i])];
        Say(to, lead[i]);
        i := i + 1;
      }
      assert lead[..i] == lead;
      var k := 0;
      while k < |options|
        invariant k <= |options| && Current() == old(Current())
        invariant sent == old(sent) + Privates(to, lead + OptionLines(options)[..k])
      {
        assert lead + OptionLines(options)[..k + 1] == (lead + OptionLines(options)[..k]) + [OptionLines(options)[k]];
        assert Privates(to, lead + OptionLines(options)[..k + 1])
            == Privates(to, lead + OptionLines(options)[..k]) + [Private(to, OptionLines(options)[k])];
        Say(to, OptionLine(k, options[k]));
        k := k + 1;
      }
      assert OptionLines(options)[..k] == OptionLines(options);
      var tail := [SendNumber,
                   AnswerWithin(timeLimit, abstention)];
      assert InvitationLines(Config(), currentAdmin, question, options) == lead + OptionLines(options) + tail;
      PrivatesConcat(to, lead + OptionLines(options), tail);
      Say(to, tail[0]);
      Say(to, tail[1]);
    }

    /** START's loop over the channel's members: each network client gets an
        entry (an existing one is kept) and the invitation. */
    method InviteAll(ids: seq<ClientId>, network: set<ClientId>)
      modifies this
      ensures Current() == old(Current()).(votes := Seed(old(votes), ids, network))
      ensures sent == old(sent) + Invitations(ids, network, InvitationLines(Config(), currentAdmin, question, options))
    {
      ghost var b := Current();
      ghost var lines := InvitationLines(Config(), currentAdmin, question, options);
      var i := 0;
      while i < |ids|
        invariant i <= |ids|
        invariant Current() == b.(votes := votes)
        invariant votes == Seed(b.votes, ids[..i], network)
        invariant sent == old(sent) + Invitations(ids[..i], network, lines)
      {
        var c := ids[i];
        InvitationsSnoc(ids, i, network, lines);
        SeedSnoc(b.votes, ids, i, network);
        if c in network {
          if c !in votes {
            votes := votes[c := VoteParameters(false, 0)];
          }
          Invite(c);
          Assoc(old(sent), Invitations(ids[..i], network, lines), Privates(c, lines));
        }
        i := i + 1;
      }
      assert ids[..i] == ids;
    }

    /** _ReceiveCommand_START: the member loop, then the announcement. */
    method Start(sender: ClientId, members: set<ClientId>, network: set<ClientId>)
      modifies this
      ensures Current() == StartStep(Config(), old(Current()), sender, members, network).ballot
      ensures sent == old(sent) + StartStep(Config(), old(Current()), sender, members, network).out
    {
      if question == "" {
        Say(sender, QuestionFirst);
        return;
      }
      if |options| < 3 {
        Say(sender, TwoOptions);
        return;
      }
      ghost var b := Current();
      ghost var lines := InvitationLines(Config(), currentAdmin, question, options);
      var ids := Enumerate(members);
      InviteAll(ids, network);
      SeedExtends(b.votes, members, network);
      if votes == map[] {
        ExtendsEmpty(b.votes, votes);
        Say(sender, NoMembers);
        Assoc(old(sent), Invitations(ids, network, lines), [Private(sender, NoMembers)]);
        return;
      }
      Announce(AskingAll(currentAdmin));
      Assoc(old(sent), Invitations(ids, network, lines), [ToChannel(AskingAll(currentAdmin))]);
      timerArmed := true;
      voteStarted := true;
    }

    /** _ReceiveVote. */
    method ReceiveVote(sender: ClientId, text: string)
      modifies this
      requires Valid() && voteStarted
      ensures Current() == Vote(Config(), old(Current()), sender, text).ballot
      ensures sent == old(sent) + Vote(Config(), old(Current()), sender, text).out
      ensures Valid()
    {
      if sender !in votes {
        Say(sender, NotAllowed);
        return;
      }
      if !AllDigits(text) {
        Say(sender, EnterNumber);
        return;
      }
      var n := DecimalValue(text);
      if n >= |options| {
        Say(sender, OutOfRange);
        return;
      }
      ghost var cast := Cast(Current(), sender, n);
      CastCounts(Current(), sender, n);
      var said := if votes[sender].hasVoted then VoteChanged else VoteCast;
      if votes[sender].hasVoted {
        votes := votes[sender := VoteParameters(true, n)];
      } else {
        votes := votes[sender := VoteParameters(true, n)];
        voteCount := voteCount + 1;
      }
      Say(sender, said);
      assert Current() == cast;
      CheckVotes();
      Assoc(old(sent), [Private(sender, said)], CheckStep(Config(), cast).out);
      CheckStepOutcome(Config(), cast);
    }

    /** _VoteDeadline: `expired` is false when the wait was cancelled. */
    method VoteDeadline(expired: bool)
      modifies this
      requires Valid() && (expired ==> timerArmed)
      ensures Current() == Deadline(Config(), old(Current()), expired).ballot
      ensures sent == old(sent) + Deadline(Config(), old(Current()), expired).out
      ensures Valid()
    {
      DeadlineOutcome(Config(), Current(), expired);
      if expired {
        voteCount := |votes|;
        CheckVotes();
      }
    }

    /** SendIRCMessage: a participant who parts or quits during a vote is
      taken off the list. */
    method SendIRCMessage(m: string, nicknames: map<string, ClientId>)
      modifies this
      requires Valid() && (voteStarted ==> Readable(m, nicknames))
      ensures Current() == Leave(Config(), old(Current()), m, nicknames).ballot
      ensures sent == old(sent) + Leave(Config(), old(Current()), m, nicknames).out
      ensures Valid()
    {
      ghost var b := Current();
      if voteStarted {
        var head := HeadOf(m).value;
        if head.command == "PART" || head.command == "QUIT" {
          var c := nicknames[head.sender];
          if c in votes {
            ghost var dropped := Drop(b, c);
            DropCounts(b, c);
            if votes[c].hasVoted {
              voteCount := voteCount - 1;
            }
            votes := votes - {c};
            assert Current() == dropped;
            CheckVotes();
          }
        }
      }
      LeaveOutcome(Config(), b, m, nicknames);
    }

    /** SendPrivateMessage, the bot's only input from users. `members` are the
      channel's members and `network` the network clients among all clients. */
    method SendPrivateMessage(sender: ClientId, who: ClientState, text: string,
                              members: set<ClientId>, network: set<ClientId>)
      modifies this
      requires Valid()
      ensures Current() == PrivateStep(Config(), old(Current()), sender, who, text, members, network).ballot
      ensures sent == old(sent) + PrivateStep(Config(), old(Current()), sender, who, text, members, network).out
      ensures Valid()
    {
      ghost var b := Current();
      match RouteOf(Config(), Current(), who, text) {
        case Unidentified => Say(sender, IdentifyFirst);
        case CancelCmd => CancelCommand(sender, who.nickname);
        case HelpCmd => Help(sender);
        case Locked =>
          Say(sender, UsedBy(currentAdmin));
          Say(sender, TypeCancel);
        case NewCmd => NewCommand(sender, who.nickname);
        case StartCmd => Start(sender, members, network);
        case Setup => SetupText(sender, text);
        case Answer =>
          RouteRights(Config(), b, who, text);
          ReceiveVote(sender, text);
        case Stranger => Say(sender, NotMine(channelName));
      }
      PrivateStepOutcome(Config(), b, sender, who, text, members, network);
    }

    /** _ReceiveCommand_CANCEL. */
    method CancelCommand(sender: ClientId, nickname: string)
      modifies this
      ensures Current() == Cancel(old(Current()), sender, nickname).ballot
      ensures sent == old(sent) + Cancel(old(Current()), sender, nickname).out
    {
      if currentAdmin == "" {
        Say(sender, NothingToCancel);
        return;
      }
      if voteStarted {
        Announce(CanceledBy(nickname));
      }
      Reset();
      Say(sender, ResetDone);
    }

    /** The administrator's question or next option while no vote runs. */
    method SetupText(sender: ClientId, text: string)
      modifies this
      ensures Current() == AdminText(Config(), old(Current()), sender, text).ballot
      ensures sent == old(sent) + AdminText(Config(), old(Current()), sender, text).out
    {
      if question == "" && currentAdmin != "" {
        question := text;
        Say(sender, EnterOption(abstention));
      } else if question != "" {
        options := options + [text];
        Say(sender, OptionAdded);
      } else {
        Say(sender, InvalidCommand);
      }
    }

    /** _ReceiveCommand_HELP: notices only. */
    method Help(to: ClientId)
      modifies this
      ensures Current() == old(Current()) && sent == old(sent) + Notices(to, HelpLines(Config()))
    {
      var lines := HelpLines(Config());
      var i := 0;
      while i < |lines|
        invariant i <= |lines| && Current() == old(Current())
        invariant sent == old(sent) + Notices(to, lines[..i])
      {
        assert Notices(to, lines[..i + 1]) == Notices(to, lines[..i]) + [Notice(to, lines[i])];
        sent := sent + [Notice(to, lines[i])];
        i := i + 1;
      }
      assert lines[..i] == lines;
    }

    /** _ReceiveCommand_NEW, refusing a second NEW while a setup is under way. */
    method NewCommand(sender: ClientId, nickname: string)
      modifies this
      ensures Current() == New(Config(), old(Current()), sender, nickname).ballot
      ensures sent == old(sent) + New(Config(), old(Current()), sender, nickname).out
    {
      if voteStarted {
        Say(sender, AlreadyRunning);
        return;
      }
      if question != "" || currentAdmin != "" {
        Say(sender, BeingPrepared);
        return;
      }
      Say(sender, EnterQuestion(channelName));
      options := options + [abstention];
      currentAdmin := nickname;
    }
  }

  lemma Assoc(a: seq<BotEvent>, b: seq<BotEvent>, c: seq<BotEvent>)
    ensures a + b + c == a + (b + c)
  {
  }

  lemma ResultsOrder(s: seq<BotEvent>, a: seq<BotEvent>, x: BotEvent, y: BotEvent, z: BotEvent, l: seq<BotEvent>, t: BotEvent)
    ensures s + a + [x] + [y] + [z] + l + [t] == s + (a + [x, y, z] + l + [t])
  {
  }

  lemma PrivatesConcat(to: ClientId, a: seq<Reply>, b: seq<Reply>)
    ensures Privates(to, a + b) == Privates(to, a) + Privates(to, b)
  {
  }
}
