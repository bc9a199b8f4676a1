# rosev_ircsystem in Dafny

A model of the core of rosev_ircsystem, the small IRC server ReactOS runs
for its meetings, and of the script that provisions its users.

**Wire framing.** `Network` keeps CNetworkClient's 1024-byte input buffer
as an `array<char>` in a class. `HandleNewData` walks it as
`_HandleNewData` does with one change: its scan starts one character before
the new characters, not at the first of them. That is the correction in the
first row under "## Findings"; the scan as written is modelled only by the
function `FrameAsWritten`. `HandleNewData` is proved to hand on exactly the
lines that `Frame` cuts from the text:
- a line ends at LF, and one CR before the LF is dropped;
- a line over 512 bytes, terminator included, disconnects;
- the scan stops once a handler has closed the socket;
- an unfinished remainder is kept, and it disconnects at 512 bytes or more.

The send queue is first in, first out, with at most one write in flight.

**Parsing.** `Message` parses a received line as section 2.3 of RFC 2812
describes, and as `_ReceiveMessage` codes it:
- a prefix is dropped up to the first space;
- the command is upper-cased;
- middle parameters are split at single spaces, and a `:` parameter takes
  the rest of the line.

The parse is proved to invert writing a message out. `Dispatch` is the
table of the fourteen commands.

**The server.** `Server` models CIRCServer's tables as one value: the
channel map, the channels, the clients, the nickname table and the set of
network clients. Each command handler is a function from the state before
to the state after, and what it sends is appended to an outbox of events.
Three modules state what the handlers do:
- `ServerLemmas`: one invariant, `Consistent`, is kept by every handler and
  by every received line, with the corrected NICK of the second row under
  "## Findings" (the code's NICK breaks it on "NICK :"). It says that members and joined sets mirror each
  other, that the nickname table and the clients agree, that only
  registered clients are in channels, and that `m_NetworkClients` is
  exactly the live network clients.
- `ServerProperties`: NICK and USER against the registration rules of
  sections 3.1.2 and 3.1.3 of RFC 2812.
- `ServerDelivery`: who receives the JOIN, PART, PRIVMSG, MODE and QUIT
  lines, stated as "once to each of these clients and to nobody else".
  It also states that a PRIVMSG or NS to NickServ identifies the sender
  exactly when NickServ's IDENTIFY accepts, before the handler returns.

`ServerLoops` holds the two loops that compute values, the channel-list
do-while and the NS text.

**Channels.** `ChannelSetup` reads the channel configuration in `Init`.
`Channel` and `Client` hold the CChannel, CClient, CVirtualClient and
numeric-reply-formatter pieces.

**The bots.** `NickServ` splits a command and decides IDENTIFY. `Voting`
is the VoteBot class and its state machine:
- admin lock, question, options, start, votes, tally and reset;
- a vote count that tracks the "has voted" flags;
- a tally whose counts sum to the number of voters.

`LogBot` re-parses the server's lines and chooses the logs they go to.

**Configuration.** `Configuration` holds the command-line decision and the
post-processing of the configuration files. `Passhash` decodes the
128-digit passhashes shared by the configuration and NickServ.

**Provisioning.** `Provisioning` models scripts/add_irc_users.php:
- a 16-character password from a 60-character alphabet, with randomness
  as an index oracle;
- one `meeting=<nickname>` line and one `<nickname>=<hash>` line per CSV
  row, in row order;
- the mail made by single-pass `strtr` substitution.

Where descriptions of the system and its code differ, the model follows
the code:
- The provisioning script takes the nickname verbatim from the first CSV
  field. It normalises nothing, uses no LDAP, and its alphabet has 60
  characters, not 57.
- The channel-name check of `Init` tests `_` twice, so `-` is refused
  despite its comment (src/CIRCServer.cpp:254-258). It is modelled as
  written.
- An empty vote answer passes the digit check. `VoteStream >> Number` then
  meets the end of an empty stream before any digit, sets the fail bit and
  stores nothing, so `Number` is read uninitialised. The model takes option 0
  there (see "## Left out").
- ChanServ is taken to exist. JOIN asserts that it does
  (src/CIRCServer.cpp:408-409). In this revision nothing creates it:
  src/main.cpp:90-93 adds only NickServ and LogBot as virtual clients, and
  src/CVoteBotManager.cpp:38 adds the VoteBots. That a client is registered
  under "chanserv" is an assumption of the model, not something the program
  sets up.

## Model

| member | source | states |
|---|---|---|
| Ascii.Lower | src/CVirtualClient.cpp:15-16 | std::transform with tolower keeps the length and maps each character by the C locale's tolower |
| Ascii.LowerIdempotent | src/CIRCServer.cpp:372 | lowercasing an already lowercased name changes nothing, so map keys stored lowercased are found again |
| Ascii.Find | src/CLogBot.cpp:206-213 | find_first_of gives the first position at or after the start that holds the character, or the end (npos) when none does |
| Ascii.Split | src/CIRCServer.cpp:359-423 | the pieces between separators, never empty as a list and each free of the separator |
| Ascii.JoinSplit | src/CIRCServer.cpp:359-423 | the pieces written back with the separator between them are the original text |
| Ascii.SplitJoin | src/CNickServ.cpp:139-152 | pieces free of the separator, joined and split again, come back unchanged |
| Ascii.CheckCString | src/CIRCServer.cpp:255-262 | the while(*p) check loop returns true exactly when every character before the first NUL passes the test |
| Irc.AscendingProperties | src/CChannel.h:31 | walking a map keyed by client pointers visits every client once, in increasing order |
| Irc.Enumerate | src/CChannel.h:31 | the walk over a client-keyed map yields exactly that increasing order |
| Channel.NewChannel | src/CChannel.cpp:11-14 | a new channel has the given name, topic, allowed users and observer flag and no members |
| Channel.AddClient | src/CChannel.cpp:16-20 | insert adds the client; a member already present keeps its status; no setting changes |
| Channel.RemoveClient | src/CChannel.cpp:22-26 | erase removes exactly that client and keeps the others' statuses and every setting |
| Channel.AddClientIdempotent | src/CChannel.cpp:16-20 | adding twice is adding once, and adding a member is a no-op |
| Channel.RemoveClientIdempotent | src/CChannel.cpp:22-26 | removing twice is removing once, and removing a non-member is a no-op |
| Channel.RemoveUndoesAdd | src/CChannel.cpp:16-26 | removing a client just added gives back the channel as it was |
| Client.NewNetworkClient | src/CNetworkClient.cpp:31-37 | a new network client has no nickname, no channels, has sent neither NICK nor USER and is not identified or registered |
| Client.NewVirtualClient | src/CVirtualClient.cpp:11-22 | a built-in client stores its nickname and lowercased nickname, has the prefix nick!lowercased@virtual and counts as registered and identified |
| Client.NicknameAsTarget | src/CClient.cpp:80-89 | replies are addressed to the nickname, or to "*" while none is set |
| Client.AddJoinedChannel | src/CClient.cpp:74-78 | the channel joins the set and nothing else in the client changes |
| Client.RemoveJoinedChannel | src/CClient.cpp:91-95 | the channel leaves the set and nothing else in the client changes |
| Client.JoinedChannelsLaws | src/CClient.cpp:74-95 | adding and removing are idempotent and removing undoes adding |
| Client.SenderName | src/CLogBot.cpp:204-215 | the user name read off a line lies between the first '!' and the next '@' and holds no '@'; a line without '!' has none |
| Client.SenderOfPrefix | src/CLogBot.cpp:204-215 | a line starting with a prefix nick!lowercased@host gives back the lowercased nickname as its user name |
| Client.HeadOf | src/CLogBot.cpp:204-227 | the command read off a line is the word after the first space following the '@', ends before the next space and holds none |
| Client.PrefixesAreParsed | src/CNetworkClient.cpp:325-331 | for every nickname the server accepts, both the network prefix and the virtual prefix give back the lowercased nickname to the bots |
| Client.Digits3 | src/CClient.cpp:52 | "%03d" writes a code below 1000 as three digits whose decimal value is the code |
| Client.Template | src/CClient.cpp:12-36 | a code with a template is below 1000; every reply the server sends has a template whose arity is its argument count, because Server.ReplyTo, Server.Reply and Server.ReplyLines require Client.Formattable of the code and arguments |
| Client.FormattableHasLine | src/CClient.cpp:12-53 | a reply the server may send (Client.Formattable) has a template under every build and fills its "%s" directives exactly, so the formatter writes the whole line |
| Client.ArityOfTemplate | src/CClient.cpp:12-36 | the number of "%s" directives of a template does not depend on the build strings |
| Client.ReplyLine | src/CClient.cpp:51-53 | a numeric reply starts with the server name, the three-digit code and the target, as section 2.4 of RFC 2812 asks |
| Client.NumericReplyFormatter.constructor | src/CClient.cpp:39-56 | with a client the header is filled in and a template without arguments is sent at once; without one the formatter is a dummy |
| Client.NumericReplyFormatter.Feed | src/CClient.cpp:58-66 | each argument is appended and the line goes out exactly when the template's last argument has arrived, as header plus filled template |
| Ascii.ToUpper | src/CNetworkClient.cpp:229 | toupper turns 'a'..'z' into 'A'..'Z' and keeps every other character, so no lower-case letter is left |
| Ascii.Upper | src/CNetworkClient.cpp:229 | std::transform with toupper keeps the length and maps each character by toupper |
| Ascii.DecimalRoundTrip | src/CVoteBot.cpp:138 | the option number "%u" prints is a digit string that `stream >> number` (line 181) reads back as the same number |
| Client.SetNickname | src/CNetworkClient.cpp:326-331 | both spellings are stored and the prefix becomes nickname!lowercased@network, every other field kept; what this means for the bots and the tables is proved by Client.PrefixesAreParsed and ServerLemmas.RenameFields |
| ChannelSetup.UsersMapMeaning | src/CIRCServer.cpp:209-231 | a lowercased channel has an entry exactly when some Channel_Users line names it, and a user is allowed in it exactly when some line names both |
| ChannelSetup.ReadChannelUsers | src/CIRCServer.cpp:212-231 | the loop builds exactly the users map of the lines |
| ChannelSetup.ReadChannelObservers | src/CIRCServer.cpp:234-245 | the loop collects exactly the lowercased channels whose value is "true" |
| ChannelSetup.AddChannelFacts | src/CIRCServer.cpp:252-277 | one Channels line is accepted exactly when its name passes the character check and has allowed users; the table then stays sound and holds its name |
| ChannelSetup.AddChannelsFacts | src/CIRCServer.cpp:252-278 | the remaining lines are all added exactly when each is acceptable, and the table then covers each of their names |
| ChannelSetup.LoadChannelsFacts | src/CIRCServer.cpp:247-278 | the channel table is built exactly when the file has lines and each is acceptable; every name then leads to a channel made from an acceptable line |
| ChannelSetup.LoadedChannelsAreEmpty | src/CIRCServer.cpp:277 | every preset channel starts without members |
| ChannelSetup.ReadChannels | src/CIRCServer.cpp:247-278 | the loop with its three exceptions gives exactly the outcome LoadChannels describes |
| Passhash.HexValue | src/CConfiguration.cpp:138 | a hexadecimal digit's value is below 16 |
| Passhash.Strtol16 | src/CConfiguration.cpp:138 | strtol with base 16 on two characters gives 16 times the first digit plus the second when both are hexadecimal digits, and a value between -15 and 255 for any input |
| Passhash.Decode | src/CConfiguration.cpp:130-138 | a passhash decodes exactly when it has 128 characters, into 64 bytes each taken from its two characters; otherwise the length error |
| Passhash.DecodePasshash | src/CNickServ.cpp:29-37 | the loop over the fixed 64-byte buffer computes exactly Decode |
| Passhash.HexChar | scripts/add_irc_users.php:36 | each hexadecimal character written is a digit whose value is the nibble |
| Passhash.Encode | scripts/add_irc_users.php:36 | a digest is written as two characters per byte |
| Passhash.DecodeEncode | src/CConfiguration.cpp:134-138 | a digest written by the provisioning script is decoded back to the same 64 bytes |
| Passhash.Table | src/CConfiguration.cpp:127-145 | the only failure of loading a users file is the length error |
| Passhash.TableOk | src/CConfiguration.cpp:134-135 | the table is built exactly when every passhash has 128 characters |
| Passhash.TableKeys | src/CConfiguration.cpp:140-144 | the table's keys are exactly the entries' keys (lowercased for the server, as written for NickServ) |
| Passhash.TableFirst | src/CConfiguration.cpp:144 | under each key stands the digest of the first entry with that key, as std::map::insert keeps it |
| Passhash.LoadPasshashes | src/CNickServ.cpp:26-40 | the loop over a users file computes exactly Table |
| Configuration.FileLines | src/CConfiguration.cpp:116 | no line std::getline reads holds a line break |
| Configuration.FirstLong | src/CConfiguration.cpp:116-122 | the position of the first MOTD line over 80 characters: every line before it is short enough |
| Configuration.ReadErrorMeaning | src/CConfiguration.cpp:107-160 | loading succeeds exactly when the MOTD opened, no MOTD line exceeds 80 characters, every passhash has 128 characters, and name, port, a protocol and (on Posix) a pidfile are given |
| Configuration.Parsed | src/CConfiguration.cpp:60-78 | the stored flags are the options given, the service flags only on Win32, and verbosity is switched off in daemon or service mode once the line is accepted |
| Configuration.Configuration.constructor | src/CConfiguration.cpp:11-24 | a new configuration has no MOTD and no passhashes |
| Configuration.Configuration.ParseParameters | src/CConfiguration.cpp:26-81 | the result is true exactly when no option was unknown and a directory or --version (or on Win32 --uninstall-service) was given; an unknown option stores nothing |
| Configuration.Configuration.AppendMotd | src/CConfiguration.cpp:115-122 | the lines before the first over-long one are appended, and the result says whether there was none |
| Configuration.Configuration.ReadConfigFiles | src/CConfiguration.cpp:83-161 | the error is the first exception the checks throw, in their order; values, MOTD and passhash table are what the code leaves behind, except as listed under "## Left out" |
| Configuration.InsertedPasshashes | src/CConfiguration.cpp:144 | inserting the file's entries keeps every digest already present and adds each new lowercased nickname with its first entry's digest |
| NickServ.Notices | src/CNickServ.cpp:47-130 | the notices go to the one sender, one per reply, in order |
| NickServ.SplitMessage | src/CNickServ.cpp:138-152 | the loop gives the upper-cased text before the first space as command and the pieces between single spaces as parameters |
| NickServ.SplitAt | src/CNickServ.cpp:145-152 | one round of the loop: the piece up to the next space, then the pieces after it |
| NickServ.SplitCount | src/CNickServ.cpp:145-152 | one more piece than separators: empty pieces between two spaces count |
| NickServ.ParametersMeaning | src/CNickServ.cpp:138-152 | no space means no parameters; otherwise the parameters joined with spaces are the rest of the message, one per space |
| NickServ.IdentifyMeaning | src/CNickServ.cpp:87-130 | a client becomes identified exactly when it was not, gave a first parameter, and the digest of that parameter is the one stored under its nickname as spelled; nothing else changes |
| NickServ.HelpOnlyHelps | src/CNickServ.cpp:46-85 | HELP sends only help lines: the general text without parameters, the IDENTIFY text for IDENTIFY in any case, nothing for another topic |
| NickServ.ReceiveOutcome | src/CNickServ.cpp:132-166 | only IDENTIFY can change the client, and only by identifying it; an unknown command gets the one "Invalid command" notice; every message but HELP with an unknown topic gets an answer |
| NickServ.NickServ.constructor | src/CNickServ.cpp:11-17 | NickServ starts with no passhashes and nothing sent |
| NickServ.NickServ.Init | src/CNickServ.cpp:19-44 | the users file's entries, keyed as written, are inserted (a key already present keeps its digest), or a passhash that is not 128 characters long gives the length error |
| NickServ.NickServ.Help | src/CNickServ.cpp:46-85 | sends exactly the help notices |
| NickServ.NickServ.Identify | src/CNickServ.cpp:87-130 | the client and the notices are those of the verdict of the four checks in their order |
| NickServ.NickServ.SendPrivateMessage | src/CNickServ.cpp:132-166 | the client and the notices are those of Receive, and the table does not change |
| Provisioning.Password | scripts/add_irc_users.php:32-34 | a password has 16 characters, each from the 60-character alphabet |
| Provisioning.GeneratePassword | scripts/add_irc_users.php:32-34 | the counting-down loop appends the characters of the 16 draws in the order drawn |
| Provisioning.Position | scripts/add_irc_users.php:11 | the position of a character of the alphabet holds that character |
| Provisioning.DrawOf | scripts/add_irc_users.php:34 | every alphabet character is picked by some draw |
| Provisioning.EveryPasswordPossible | scripts/add_irc_users.php:32-34 | every 16-character string over the alphabet is the password of some sequence of draws |
| Provisioning.SubstituteClean | scripts/add_irc_users.php:41 | strtr passes literal text that holds no key unchanged |
| Provisioning.SubstituteTemplate | scripts/add_irc_users.php:15-18 | a mail template whose literal text holds no key comes out with NICKNAME and PASSWORD filled in by the row's nickname and password |
| Provisioning.KeyFirst | scripts/add_irc_users.php:41 | NICKNAME at the front is replaced by the nickname and scanning goes on after it |
| Provisioning.KeySecond | scripts/add_irc_users.php:41 | PASSWORD at the front is replaced by the password and scanning goes on after it |
| Provisioning.NoRescan | scripts/add_irc_users.php:41 | a nickname that reads "PASSWORD" is not replaced again: strtr does not rescan what it filled in |
| Provisioning.UserEntries | scripts/add_irc_users.php:36-38 | Users.ini gets one line per row, the nickname as given and the lowercase hexadecimal digest of that row's password |
| Provisioning.ChannelEntries | scripts/add_irc_users.php:37 | Channel_Users.ini gets one line per row, meeting=nickname |
| Provisioning.AddUsers | scripts/add_irc_users.php:28-43 | the row loop writes both files line by line in row order and sends one mail per row, to the row's address with the fixed subject and sender and the template filled in |
| Provisioning.IniTextSnoc | scripts/add_irc_users.php:37-38 | each fwrite appends one key=value line and a line break |
| Provisioning.ReadBack | src/CConfiguration.cpp:127 | read back line by line, each written file gives its key=value lines again, in order, as long as no nickname holds a line break |
| Provisioning.SplitTerminated | scripts/add_irc_users.php:37-38 | lines each ended by a line break split into those lines and an empty last piece |
| Provisioning.UsersFileProtects | src/CIRCServer.cpp:47-58 | Users.ini loads into the server's table and marks each row's nickname as protected under the digest of the password mailed to that row |
| Provisioning.IdentifyWithMailedPassword | src/CNickServ.cpp:87-130 | used as NickServ's users file as well, it loads, and the holder of a row's nickname identifies with the password mailed to that row |
| LogBot.VoiceMention | src/CLogBot.cpp:53-59 | a JOIN line ends in " with voice status" exactly when the member is voiced |
| LogBot.QuitTargets | src/CLogBot.cpp:108-121 | a QUIT reaches exactly the logged channels whose channel object the sender has joined |
| LogBot.Append | src/CLogBot.cpp:76 | writing a line appends it to exactly the targeted logs and leaves the others alone |
| LogBot.AppendNowhere | src/CLogBot.cpp:41-42 | a line for a channel that is not logged changes no log |
| LogBot.EntryTargets | src/CLogBot.cpp:198-255 | a server line (no '!') is not logged; otherwise only JOIN, PART, PRIVMSG and QUIT are, only to logged channels, and JOIN, PART and PRIVMSG only to their own channel's log |
| LogBot.EntryReaches | src/CLogBot.cpp:198-255 | a JOIN, PART or PRIVMSG to a logged channel is written to exactly that channel's log, with the nickname of the client the sender name finds and the channel as given; a JOIN with whether that client has voice, a PRIVMSG with its text |
| LogBot.QuitTargetsJoined | src/CLogBot.cpp:98-122 | a QUIT is logged to exactly the logged channels the sender is in |
| LogBot.Opened | src/CLogBot.cpp:160-180 | the logged keys are channels of the server |
| LogBot.OpenedMeaning | src/CLogBot.cpp:160-180 | every configured channel is logged under its lowercased name exactly when all of them exist and their files open |
| LogBot.OpenedFails | src/CLogBot.cpp:166-176 | the first name that is no channel or whose file does not open decides the exception |
| LogBot.OpenedPrefix | src/CLogBot.cpp:161-180 | an exception thrown for an earlier name is the outcome of the whole loop |
| LogBot.LogBot.constructor | src/CLogBot.cpp:11-19 | the bot starts with no logs |
| LogBot.LogBot.Init | src/CLogBot.cpp:124-184 | a missing configuration file disables the bot, an empty channel list or log path is an error, and otherwise the logs are opened for exactly the configured channels or the first failing one's error is returned |
| LogBot.LogBot.SendIRCMessage | src/CLogBot.cpp:198-255 | the logs afterwards are the old ones with the message's line appended to the logs EntryOf names |
| LogBot.LogBot.PostInit | src/CLogBot.cpp:186-196 | one JOIN per logged channel, with its lowercased name as the only parameter, each exactly once |
| LogBot.LogBot.Write | src/CLogBot.cpp:94-95 | one line onto one log |
| LogBot.LogBot.WriteAll | src/CLogBot.cpp:108-121 | the loop over all logs appends the line to exactly the targeted ones |
| Voting.TallySum | src/CVoteBot.cpp:23-28 | the per-option counts of a finished vote add up to the number of participants counted |
| Voting.TallyCounts | src/CVoteBot.cpp:26-28 | each option's count is the number of distinct participants whose entry holds that option |
| Voting.KeysCover | src/CVoteBot.cpp:26 | walking m_Votes in key order visits every entry exactly once, each with an option in range |
| Voting.ResultsAddUp | src/CVoteBot.cpp:20-39 | the published results count, option by option, the participants who chose it, and the counts total the number of entries |
| Voting.SeedMeaning | src/CVoteBot.cpp:121-129 | START's inserts keep every existing entry, add exactly the network members without one, and a new entry has no answer and option 0 |
| Voting.CheckStepOutcome | src/CVoteBot.cpp:17-42 | _CheckVotes resets the bot exactly when the counter equals the number of entries, changes and sends nothing otherwise, and leaves a state satisfying the bot's invariant |
| Voting.CancelOutcome | src/CVoteBot.cpp:44-61 | CANCEL changes nothing when no administrator holds the bot, otherwise resets it; the channel is told exactly when a running vote was stopped |
| Voting.NewOutcome | src/CVoteBot.cpp:81-101 | with the corrected NEW: NEW is refused without change while a vote runs, a question is set or an administrator holds the setup lock (the code checks only the first two); from the reset state it locks the bot to the sender with the abstention as the only option |
| Voting.NewTwice | src/CVoteBot.cpp:84-100 | with the setup lock counted as "being prepared", a repeated NEW leaves the options at the single abstention |
| Voting.DoubleNewDuplicatesAbstention | src/CVoteBot.cpp:90-97 | as written, two NEW commands before the question leave the abstention in the options twice |
| Voting.SeedExtends | src/CVoteBot.cpp:121-129 | after START's member loop the entries are the old ones plus one per network member of the channel, the old ones unchanged |
| Voting.SeededInvariant | src/CVoteBot.cpp:145-157 | starting a vote with at least one entry keeps the invariant: counter, option range, armed timer and somebody still to answer |
| Voting.StartOutcome | src/CVoteBot.cpp:103-158 | START without a question or with fewer than three options changes nothing; otherwise every network member gets an entry, the counter is unchanged, the vote runs exactly when there is an entry, and the invariant holds |
| Voting.CastCounts | src/CVoteBot.cpp:188-200 | an accepted answer records the option and marks the sender as voted; the counter grows by one exactly on the sender's first answer |
| Voting.VoteOutcome | src/CVoteBot.cpp:160-203 | an answer from a non-participant, one with a non-digit or one out of range changes nothing; an accepted one is cast and then checked; the invariant holds after; an empty answer, which the code reads as an uninitialised number, is taken as option 0 |
| Voting.DropCounts | src/CVoteBot.cpp:344-353 | a participant who leaves loses the entry, and the counter drops by one exactly when that participant had voted |
| Voting.LeaveOutcome | src/CVoteBot.cpp:309-356 | outside a vote a server line changes nothing; during a vote a PART or QUIT removes its sender's entry; the invariant holds after |
| Voting.DeadlineOutcome | src/CVoteBot.cpp:227-236 | a cancelled wait changes nothing; an expiry publishes the results with the unanswered entries on the abstention and resets the bot |
| Voting.RouteRights | src/CVoteBot.cpp:358-437 | only identified administrators reach the commands; only CANCEL and HELP pass another administrator's lock; a message is taken as an answer exactly when a vote runs and it is no command open to the sender |
| Voting.PrivateStepOutcome | src/CVoteBot.cpp:358-437 | with the corrected NEW: every private message keeps the invariant; unidentified senders, HELP, a locked bot and strangers change no state |
| Voting.ConfigureOutcome | src/CVoteBot.cpp:265-294 | a VoteBot file is accepted exactly when the abstention, administrators, channel and time limit are set and the channel exists; then the administrators are the lowercased names and the channel is the server's |
| Voting.LowerAdmins | src/CVoteBot.cpp:290-294 | the administrator set is exactly the lowercased configured names |
| Voting.VoteBot.constructor | src/CVoteBot.cpp:11-15 | a new bot holds its configuration, is in the reset state, has sent nothing and satisfies the invariant |
| Voting.VoteBot.Reset | src/CVoteBot.cpp:205-215 | _Reset leaves no administrator, options, question or entries, a zero counter, no running vote and no armed timer |
| Voting.VoteBot.Announce | src/CVoteBot.cpp:217-225 | _SendToChannel sends one PRIVMSG to the bot's channel and changes no state |
| Voting.VoteBot.Count | src/CVoteBot.cpp:23-28 | the counting loop yields, per option, the tally of the entries it walks |
| Voting.VoteBot.NotifyAll | src/CVoteBot.cpp:26-29 | every participant, in key order, is told that the results are in the channel |
| Voting.VoteBot.AnnounceAnswers | src/CVoteBot.cpp:36-37 | one channel line per option with its count, in option order |
| Voting.VoteBot.CheckVotes | src/CVoteBot.cpp:17-42 | the bot's new state and messages are those of the _CheckVotes step |
| Voting.VoteBot.Invite | src/CVoteBot.cpp:133-141 | a participant gets the invitation: who set up the vote, the question, each option with its number, and the time limit |
| Voting.VoteBot.InviteAll | src/CVoteBot.cpp:121-143 | the member loop seeds the entries and sends each network member the invitation, members in order |
| Voting.VoteBot.Start | src/CVoteBot.cpp:103-158 | the bot's new state and messages are those of the START step |
| Voting.VoteBot.ReceiveVote | src/CVoteBot.cpp:160-203 | the bot's new state and messages are those of the answer step, and the invariant is kept; an empty answer, which the code reads as an uninitialised number, is taken as option 0 |
| Voting.VoteBot.VoteDeadline | src/CVoteBot.cpp:227-236 | the bot's new state and messages are those of the deadline step, and the invariant is kept |
| Voting.VoteBot.SendIRCMessage | src/CVoteBot.cpp:309-356 | the bot's new state and messages are those of the departure step, and the invariant is kept |
| Voting.VoteBot.SendPrivateMessage | src/CVoteBot.cpp:358-437 | with the corrected NEW: the bot's new state and messages are those of the dispatched branch, and the invariant is kept |
| Voting.VoteBot.CancelCommand | src/CVoteBot.cpp:44-61 | the bot's new state and messages are those of the CANCEL step |
| Voting.VoteBot.SetupText | src/CVoteBot.cpp:405-426 | an administrator's text sets the question when one is awaited and otherwise adds an option, or is refused without a setup |
| Voting.VoteBot.Help | src/CVoteBot.cpp:63-79 | HELP sends the thirteen help notices, with the channel, abstention and time limit filled in, and changes no state |
| Voting.VoteBot.NewCommand | src/CVoteBot.cpp:81-101 | the bot's new state and messages are those of NEW with the setup lock counted as "being prepared" |
| Message.ExtractParameters | src/CNetworkClient.cpp:231-248 | the parameter loop yields the parameters of the text after the command: space-separated pieces, a piece starting with ':' taking the rest of the line without its ':' |
| Message.ParseMessage | src/CNetworkClient.cpp:203-248 | the received line parses to its upper-cased command and parameters, a prefix dropped up to the first space; a prefixed line without a space is invalid |
| Message.ParseEncode | src/CNetworkClient.cpp:203-248 | a line written as RFC 2812 describes (optional prefix, command, middle parameters, optional trailing parameter) parses back to its upper-cased command and its parameters |
| Message.Dispatch | src/CNetworkClient.cpp:13-29 | a command reaches a handler exactly when its upper-cased name is one of the fourteen in the table, and then the handler listed for it |
| Network.FramePartsSplits | src/CNetworkClient.cpp:59-117 | a read hands on the pieces between line feeds in order, each without one trailing carriage return; when it goes on, every complete line was handed on, all lines were short enough, and the last piece is kept |
| Network.FrameSplits | src/CNetworkClient.cpp:48-117 | stated on remainder plus new characters: the lines handed on are a prefix of the stream's lines; a read that goes on hands on all of them and keeps an unfinished line shorter than IRC_MESSAGE_LENGTH |
| Network.SplitCrLfAsWritten | src/CNetworkClient.cpp:55-70 | as written, "NICK a" CR in one read and LF in the next hands on "NICK a" CR; with the scan starting one character earlier it hands on "NICK a" |
| Network.NetworkClient.constructor | src/CNetworkClient.cpp:31-37 | a new client has an empty remainder, an empty send queue, no write in progress and nothing written |
| Network.NetworkClient.HandleNewData | src/CNetworkClient.cpp:39-120 | with the scan started one character before the new characters (the corrected framing, not the code's start at the first new character): a read error disconnects with its message and changes nothing; otherwise the lines handed on and the outcome are those of the read on remainder plus new characters, and a read that goes on keeps the unfinished line as the new remainder |
| Network.NetworkClient.Read | src/CNetworkClient.cpp:48-50 | the new characters land right behind the remainder, followed by a NUL |
| Network.NetworkClient.ScanLines | src/CNetworkClient.cpp:59-99 | started one character before the new characters (the corrected framing): the scan loop ends the read exactly as the framing of the buffered text does, or reaches the NUL with the unfinished line left from the last line start |
| Network.NetworkClient.ScanStep | src/CNetworkClient.cpp:59-98 | one pass of the loop keeps the scan's invariant, or ends the read as the framing does |
| Network.NetworkClient.LineEndingAt | src/CNetworkClient.cpp:66-70 | the line ending at a position is 2 for CR LF, 1 for a bare LF and 0 otherwise |
| Network.NetworkClient.EndLine | src/CNetworkClient.cpp:72-96 | a line longer than IRC_MESSAGE_LENGTH with its terminator disconnects with "Message too long"; otherwise it is handed on, and the scan stops there exactly when handling it closed the socket |
| Network.NetworkClient.KeepRemainder | src/CNetworkClient.cpp:113-117 | the unfinished line is moved to the front of the buffer and becomes the remainder |
| Network.NetworkClient.ProcessSendQueue | src/CNetworkClient.cpp:180-195 | with a queued line and no write in progress, the first line is written and leaves the queue; otherwise nothing changes |
| Network.NetworkClient.SendIRCMessage | src/CNetworkClient.cpp:286-291 | the line with CR LF is written at once when no write is in progress and queued behind the others otherwise; lines go out in the order sent |
| Network.NetworkClient.HandleSend | src/CNetworkClient.cpp:122-134 | a failed write disconnects with its message and changes nothing; a finished one writes the next queued line, if any |
| Server.Insert | src/CIRCServer.cpp:127 | std::map::insert adds the key; an absent key gets the value and every key already present keeps its value |
| Server.ChannelItems | src/CIRCServer.cpp:359-369 | a channel list gives one item per comma-separated piece |
| Server.AddMember | src/CChannel.cpp:17-20 | a member joining a channel keeps the tables sane and adds or drops no client and no channel |
| Server.RemoveMember | src/CChannel.cpp:23-26 | a member leaving a channel keeps the tables sane and adds or drops no client and no channel |
| Server.SetUserState | src/CIRCServer.cpp:599-611 | writing a client's user state keeps the tables sane and adds or drops no client and no channel |
| Server.ReplyLines | src/CIRCServer.cpp:437-438 | a network client gets one numeric reply per line, in order, each with its line as argument; a virtual client gets nothing |
| Server.MotdReplies | src/CIRCServer.cpp:429-443 | an unregistered or virtual client gets nothing; otherwise the start line, one RPL_MOTD per MOTD line in order, and the end line |
| Server.WelcomeEvents | src/CIRCServer.cpp:98-118 | a network client's welcome opens with RPL_WELCOME carrying the server name and nickname; a virtual client gets only the closing MODE line |
| Server.NickCheck | src/CIRCServer.cpp:520-592 | every verdict other than "no nickname given" has a parameter; an accepted one is a new, well-formed, free nickname of a client still allowed to change it |
| Server.NickWith | src/CIRCServer.cpp:515-614 | NICK keeps the tables sane and adds or drops no client and no channel |
| Server.Rename | src/CIRCServer.cpp:570-613 | taking an accepted nickname keeps the tables sane and adds or drops no client and no channel |
| Server.Nick | src/CIRCServer.cpp:515-614 | the NICK handler used by the dispatcher (an empty nickname refused) keeps the tables sane and adds or drops no client and no channel |
| Server.NickAsWritten | src/CIRCServer.cpp:515-614 | NICK as written keeps the tables sane and adds or drops no client and no channel |
| Server.User | src/CIRCServer.cpp:894-912 | USER keeps the tables sane and adds or drops no client and no channel |
| Server.Topic | src/CIRCServer.cpp:847-884 | TOPIC only answers: no table changes |
| Server.NameEntries | src/CIRCServer.cpp:486-497 | one NAMES entry per member |
| Server.NamesItems | src/CIRCServer.cpp:467-506 | the NAMES list walk only answers: no table changes |
| Server.Names | src/CIRCServer.cpp:448-507 | NAMES only answers: no table changes |
| Server.SetClientModeInChannel | src/CChanServ.cpp:37-51 | ChanServ's MODE announcement only sends: no table changes |
| Server.JoinItem | src/CIRCServer.cpp:372-419 | one JOIN item keeps the tables sane and adds or drops no client and no channel |
| Server.JoinItems | src/CIRCServer.cpp:359-423 | the JOIN list walk keeps the tables sane and adds or drops no client and no channel |
| Server.PartAll | src/CIRCServer.cpp:330-344 | "JOIN 0" keeps the tables sane and adds or drops no client and no channel |
| Server.Join | src/CIRCServer.cpp:318-424 | JOIN keeps the tables sane and adds or drops no client and no channel |
| Server.Leave | src/CIRCServer.cpp:692-701 | leaving one channel keeps the tables sane and adds or drops no client and no channel |
| Server.PartItems | src/CIRCServer.cpp:664-704 | the PART list walk keeps the tables sane and adds or drops no client and no channel |
| Server.Part | src/CIRCServer.cpp:647-705 | PART keeps the tables sane and adds or drops no client and no channel |
| Server.Privmsg | src/CIRCServer.cpp:759-825 | PRIVMSG changes no table except the sender's identified flag, which only a message to NickServ can set; its effect is stated in ServerDelivery.PrivmsgToNickServ |
| Server.ToNickServ | src/CNickServ.cpp:125-127 | NickServ's answer to the sender's text, applied to the sender before the handler returns, keeps the tables sane and adds or drops nothing |
| Server.Ns | src/CIRCServer.cpp:620-642 | NS changes no table except the sender's identified flag, as PRIVMSG to NickServ does; its effect is stated in ServerDelivery.NsIdentify |
| Server.Ping | src/CIRCServer.cpp:716-732 | PING only answers: no table changes |
| Server.Version | src/CIRCServer.cpp:919-923 | VERSION only answers: no table changes |
| Server.Info | src/CIRCServer.cpp:303-313 | INFO only answers: no table changes |
| Server.QuitChannels | src/CIRCServer.cpp:145-165 | the QUIT walk over the joined channels keeps the tables sane and changes neither the clients, the nickname table, the network client set nor the channel keys |
| Server.QuitAll | src/CIRCServer.cpp:140-170 | announcing the QUIT keeps the tables sane and changes neither the clients, the network client set nor the channel keys |
| Server.Disconnect | src/CIRCServer.cpp:132-184 | a disconnect keeps the tables sane and adds or drops no client and no channel |
| Server.Quit | src/CIRCServer.cpp:830-840 | QUIT keeps the tables sane and adds or drops no client and no channel |
| Server.Handle | src/CNetworkClient.cpp:13-29 | with the corrected NICK: every handler of the command table keeps the tables sane and adds or drops no client and no channel; PRIVMSG and NS to NickServ apply IDENTIFY to the sender |
| Server.Receive | src/CNetworkClient.cpp:203-257 | with the corrected NICK: receiving a line keeps the tables sane and adds or drops no client and no channel; "NS IDENTIFY <password>" identifies the sender as ServerDelivery.NsIdentify states |
| Server.Accept | src/CIRCServer.cpp:66-83 | a new connection adds exactly the new client and keeps the tables sane |
| Server.JoinAll | src/CChanServ.cpp:24-34 | a virtual client's JOINs keep the tables sane and add or drop no client and no channel |
| Server.AddVirtualClient | src/CIRCServer.cpp:120-130 | adding a virtual client keeps the tables sane |
| Server.ChannelJoins | src/CChanServ.cpp:24-34 | one JOIN per configured channel, its only parameter the channel's lowercased name |
| ServerProperties.WelcomeFirst | src/CIRCServer.cpp:98-106 | the welcome opens with RPL_WELCOME to the client and changes no table |
| ServerProperties.UserRegisters | src/CIRCServer.cpp:894-912 | after USER the client has sent USER, is registered exactly when it had sent NICK, and is welcomed exactly when USER is the second of the two |
| ServerProperties.NickVerdictAccepted | src/CIRCServer.cpp:520-592 | with the corrected NICK: NICK accepts exactly a given, changed, non-empty nickname of at most NICKNAME_LENGTH characters from [A-Za-z_], free or held by the sender, from a client without a nickname or one neither identified nor in a channel |
| ServerProperties.NickOutcome | src/CIRCServer.cpp:515-614 | an accepted nickname replaces the sender's old key by the new lowercased one and sets both spellings, touching no other client and no channel; a refused one changes no table |
| ServerProperties.NickRefusals | src/CIRCServer.cpp:520-568 | with the corrected NICK: a missing or empty nickname gets ERR_NONICKNAMEGIVEN, the current nickname is a silent no-op, a long or badly formed one gets ERR_ERRONEUSNICKNAME, and one held by another client gets ERR_NICKNAMEINUSE, exactly then |
| ServerProperties.FirstNickWelcomes | src/CIRCServer.cpp:598-613 | a first nickname is welcomed exactly when USER was already sent |
| ServerProperties.NickChangeNotWelcomed | src/CIRCServer.cpp:590-591 | renaming a client that has a nickname opens with the NICK line, not a welcome |
| ServerProperties.NickRegisters | src/CIRCServer.cpp:515-614 | NICK welcomes exactly when it accepts a first nickname from a client that has sent USER |
| ServerLemmas.SetUserStateConsistent | src/CIRCServer.cpp:599-611 | a user-state update that keeps the NICK flag matching the nickname and keeps a registered client registered keeps the tables consistent |
| ServerLemmas.AddMemberConsistent | src/CIRCServer.cpp:394-396 | a registered live client joining a channel keeps members and joined sets mirrored and the tables consistent |
| ServerLemmas.RemoveMemberConsistent | src/CIRCServer.cpp:697-698 | a client leaving a channel keeps the tables consistent |
| ServerLemmas.UserConsistent | src/CIRCServer.cpp:894-912 | USER keeps the tables consistent |
| ServerLemmas.RenameFields | src/CIRCServer.cpp:592-611 | taking a nickname drops the old key, maps the new lowercased key to the sender, sets both spellings and the NICK flag, and changes no other client, no channel and the network client set not at all |
| ServerLemmas.RenamedNicknames | src/CIRCServer.cpp:592-596 | after the key swap every key names a live client under its own lowercased nickname and every live named client is found under its key |
| ServerLemmas.RenameConsistent | src/CIRCServer.cpp:570-613 | taking a non-empty nickname that is free or the sender's keeps the tables consistent |
| ServerLemmas.NickRefused | src/CIRCServer.cpp:520-568 | a NICK the checks refuse changes no table |
| ServerLemmas.NickConsistent | src/CIRCServer.cpp:515-614 | with the corrected NICK: NICK keeps the tables consistent |
| ServerLemmas.JoinItemConsistent | src/CIRCServer.cpp:372-419 | one JOIN item keeps the tables consistent and the sender live with its user state |
| ServerLemmas.JoinItemsConsistent | src/CIRCServer.cpp:359-423 | the JOIN list keeps the tables consistent and the sender live with its user state |
| ServerLemmas.LeaveConsistent | src/CIRCServer.cpp:692-701 | leaving a channel keeps the tables consistent and the sender live with its user state |
| ServerLemmas.PartItemsConsistent | src/CIRCServer.cpp:664-704 | the PART list keeps the tables consistent and the sender live with its user state |
| ServerLemmas.PartConsistent | src/CIRCServer.cpp:647-705 | PART keeps the tables consistent and the sender live with its user state |
| ServerLemmas.PartAllConsistent | src/CIRCServer.cpp:330-344 | "JOIN 0" keeps the tables consistent and the sender live with its user state |
| ServerLemmas.JoinConsistent | src/CIRCServer.cpp:318-424 | JOIN keeps the tables consistent and the sender live with its user state |
| ServerLemmas.QuitChannelsFields | src/CIRCServer.cpp:145-165 | the QUIT walk removes the client from exactly the channels it visits |
| ServerLemmas.DisconnectFields | src/CIRCServer.cpp:140-179 | a disconnect removes the client from every channel and its key from the nickname table, marks it shut down and drops it from the network client set, and changes nothing else |
| ServerLemmas.DisconnectedConsistent | src/CIRCServer.cpp:140-179 | tables as a disconnect leaves them are consistent |
| ServerLemmas.DisconnectConsistent | src/CIRCServer.cpp:132-184 | after a disconnect the tables are consistent, the client is not live, no channel has it as a member and no nickname key names it |
| ServerLemmas.QuitConsistent | src/CIRCServer.cpp:830-840 | QUIT keeps the tables consistent |
| ServerLemmas.IdentifyConsistent | src/CNickServ.cpp:125-127 | setting a live client's identified flag keeps the tables consistent |
| ServerLemmas.PrivmsgConsistent | src/CIRCServer.cpp:759-825 | PRIVMSG keeps the tables consistent, an IDENTIFY sent to NickServ included |
| ServerLemmas.NsConsistent | src/CIRCServer.cpp:620-642 | NS keeps the tables consistent |
| ServerLemmas.HandleConsistent | src/CNetworkClient.cpp:13-29 | with the corrected NICK: every handler of the command table keeps the tables consistent |
| ServerLemmas.ReceiveConsistent | src/CNetworkClient.cpp:203-257 | with the corrected NICK: whatever line a live client sends, the tables stay consistent |
| ServerLemmas.AcceptConsistent | src/CIRCServer.cpp:66-83 | a new connection keeps the tables consistent and is live |
| ServerLemmas.JoinAllConsistent | src/CChanServ.cpp:24-34 | a virtual client's JOINs keep the tables consistent and the client live with its user state |
| ServerLemmas.AddVirtualClientConsistent | src/CIRCServer.cpp:120-130 | a virtual client whose nickname is not taken joins with the tables consistent |
| ServerLemmas.StartedConsistent | src/CIRCServer.cpp:247-278 | the server right after Init, with channels and no members, is consistent |
| ServerLemmas.EmptyNicknameLeaksEntry | src/CIRCServer.cpp:527-596 | as written, "NICK :" from a registered client takes the empty nickname under key ""; after a disconnect the key still names the shut-down client and the tables are no longer consistent |
| ServerLemmas.EmptyNicknameRefused | src/CIRCServer.cpp:521-534 | the corrected NICK answers an empty nickname with ERR_NONICKNAMEGIVEN and changes nothing else |
| ServerDelivery.ExceptFacts | src/CIRCServer.cpp:804-806 | the recipients other than the sender are exactly the others, each once |
| ServerDelivery.FreshFacts | src/CIRCServer.cpp:155-160 | the members not yet told are exactly those, each once |
| ServerDelivery.LinesOnce | src/CIRCServer.cpp:148-153 | a line sent along a list without repeats reaches each recipient once and nobody else |
| ServerDelivery.PrivmsgToChannel | src/CIRCServer.cpp:777-807 | a channel message from a voiced member reaches every other member once and nobody else; from anyone else it gets ERR_CANNOTSENDTOCHAN (a network sender) and nothing is delivered |
| ServerDelivery.PrivmsgToNickServ | src/CIRCServer.cpp:808-824 | a PRIVMSG to the virtual client under "nickserv" hands it the text and identifies the sender exactly when it was identified or the text is IDENTIFY and NickServ's four checks accept; no other client and no other table changes, and the tables stay consistent |
| ServerDelivery.NsIdentify | src/CNickServ.cpp:103-127 | "NS IDENTIFY <password>" identifies the sender exactly when it was identified or the digest of the password is the one NickServ holds under the sender's exact-case nickname; nothing else changes and the tables stay consistent |
| ServerDelivery.PrivmsgToNickname | src/CIRCServer.cpp:808-824 | a private message to a live client's nickname, in any case, is delivered to that client alone; an unknown nickname gets ERR_NOSUCHNICK |
| ServerDelivery.JoinUnknownChannel | src/CIRCServer.cpp:372-376 | joining a channel that does not exist changes no table and gets ERR_NOSUCHCHANNEL |
| ServerDelivery.JoinRefused | src/CIRCServer.cpp:379-387 | a client that is neither virtual nor allowed is refused with a notice, and no table changes, when the channel has no observers |
| ServerDelivery.JoinAgain | src/CIRCServer.cpp:390-392 | re-joining a channel changes nothing at all |
| ServerDelivery.JoinAdmittedSteps | src/CIRCServer.cpp:394-402 | an admitted client is added with its status and the JOIN line goes to every member, the new one included, before any other reply |
| ServerDelivery.JoinAdmitted | src/CIRCServer.cpp:379-402 | an admitted client joins with Voice when virtual or allowed and NoStatus otherwise, and every member gets the JOIN line once |
| ServerDelivery.ModeAnnounced | src/CChanServ.cpp:37-51 | the MODE +v line goes once to each member when the client has voice, and nothing is sent for a member without status |
| ServerDelivery.LeaveRules | src/CIRCServer.cpp:692-701 | leaving removes the client from the channel and the channel from its joined set, and the PART line goes once to each member, the leaver included |
| ServerDelivery.QuitListFacts | src/CIRCServer.cpp:145-161 | the QUIT recipients are exactly the members of the channels walked not told before, each once |
| ServerDelivery.CoMembersReached | src/CIRCServer.cpp:148-153 | the members of the joined channels are exactly those the walk reaches |
| ServerDelivery.DisconnectOutbox | src/CIRCServer.cpp:140-179 | a disconnect sends the QUIT line along the walk's recipient list and then, to an initialised client, the closing ERROR line |
| ServerDelivery.QuitRecipientsFacts | src/CIRCServer.cpp:148-161 | the QUIT recipient list has no repeats and holds exactly the co-members |
| ServerDelivery.DisconnectSends | src/CIRCServer.cpp:132-184 | a disconnect's outbox is the QUIT line to the co-members and then the closing lines |
| ServerDelivery.QuitOncePerCoMember | src/CIRCServer.cpp:145-179 | each co-member gets the QUIT line exactly once and nobody else does, and an initialised client's last line is the closing ERROR |
| ServerDelivery.DisconnectTwice | src/CIRCServer.cpp:137-138 | disconnecting a client already shut down changes nothing |
| ServerLoops.ChannelList | src/CIRCServer.cpp:359-369 | the do-while over the channel list yields, for each comma-separated piece, the piece with one leading '#' dropped and lowercased |
| ServerLoops.JoinParameters | src/CIRCServer.cpp:629-637 | the NS loop joins the parameters with a space before each one once the text is not empty |
| ServerLoops.SpaceJoinIsJoin | src/CIRCServer.cpp:629-637 | once the text is not empty, the loop's result is the words joined by single spaces |
| ServerLoops.NsTextSplits | src/CIRCServer.cpp:620-642 | with a non-empty first word and no spaces in the words, the NS text is the words joined by spaces, and NickServ's split at spaces gives them back |

## Left out

- Sockets, SSL, acceptors and asynchronous reads and writes (CPlainNetworkClient, CSSLNetworkClient, the acceptor part of CIRCServer, Shutdown) are I/O. A read is a chunk of characters that arrives, and a write is a buffer recorded in `written`. Write errors come in as parameters.
- The nick, identify, ping and pong deadlines and their timers (src/CNetworkClient.cpp:137-178, 260-284) and PONG are clock events and are not modelled. The VoteBot timer is the deadline event `VoteDeadline`, which carries whether the timer was cancelled.
- Process plumbing (main.cpp, run_nt_service.cpp, run_posix_daemon.cpp) is not part of this model.
- The config-file lexers (boost::program_options, std::getline on the ini files, PHP's fgetcsv) are foreign libraries. Their output arrives as ordered key=value entries, typed values or CSV fields, and only the post-processing is modelled. CVoteBotManager is glue over those entries and is left out.
- SHA-512 (OpenSSL's SHA512 and PHP's hash) is an uninterpreted function parameter. mt_rand is an index oracle. mail() produces Mail values, and fopen/fwrite produce the text of the two ini files. The script's echo output is left out.
- The log timestamp and the server's online date come from the clock and are opaque string parameters. The values of version.h are a `Build` parameter.
- The wording of the NickServ and VoteBot HELP texts is kept only as far as "HELP sends only help notices".
- The server is modelled as a value with handler functions, not as a class updated in place, so sharing between objects is not modelled. What a handler sends is an event list in place of calls into each client's send queue. Map walks over client pointers are walks in increasing client identity.
- Server.ChannelJoins: ChanServ's PostInit JOINs its channels in creation order, where the code walks m_Channels in the order of their lowercased keys (src/CChanServ.cpp:27-33).
- LogBot.LogBot.PostInit: it sends one JOIN per logged channel in an unspecified order, where the code walks m_ChannelStreamMap in increasing key order (src/CLogBot.cpp:190). Only the set of JOINs is promised, not their order.
- Server.NickWith, Server.Nick, Server.NickAsWritten, Server.Rename, Server.User, Server.JoinItem, Server.JoinItems, Server.Join, Server.PartAll, Server.Leave, Server.PartItems, Server.Part, Server.Disconnect, Server.Quit, Server.Handle, Server.Receive, Server.JoinAll: their own contracts state only that the tables stay sane and no client or channel appears or disappears. What each does is stated by the lemmas of ServerLemmas, ServerProperties and ServerDelivery.
- Server.Topic, Server.Names, Server.NamesItems, Server.NameEntries, Server.Ping, Server.Version, Server.Info, Server.SetClientModeInChannel: their own contracts state only that no table changes, and that of Server.NameEntries only the number of entries. The replies of TOPIC, NAMES, PING, VERSION and INFO have no further property, and MODE is stated in ServerDelivery.
- Server.QuitAll, Server.QuitChannels, Server.AddVirtualClient: their own contracts state sanity and the tables kept. The disconnect's effect is stated by ServerLemmas.DisconnectFields and ServerDelivery.QuitOncePerCoMember.
- Server.Privmsg, Server.Ns, Server.Handle, Server.Receive: a message to a virtual client is one PrivateMessage event. For NickServ (the virtual client under "nickserv") the model also applies its IDENTIFY to the sender, as src/CNickServ.cpp:125-127 does before the handler returns. What a VoteBot does with a message is modelled on the bot's own state in Voting. Its answers are private PRIVMSGs to the sender and to the vote's participants (src/CVoteBot.cpp:86-199, queued as ":%s PRIVMSG %s :%s" by src/CNetworkClient.cpp:322), HELP notices and channel PRIVMSGs (src/CVoteBot.cpp:224). They change no server table and are not appended to the server's outbox. NickServ's notice replies (NickServ.Notices, carried by NickServ.Receive) are likewise not appended to the server's outbox.
- Server.NickCheck: the code reads the identified flag and the joined channels of the client found under the old nickname key. The model reads them off the sender, which is the same client whenever the tables are consistent.
- NickServ.NickServ.Init: on a passhash of the wrong length the code has already inserted the entries before it. The model leaves the table as it was, since the server stops on that exception.
- Configuration.Configuration.ReadConfigFiles: on a passhash of the wrong length the code has already inserted the entries before it. The model leaves the table as it was, for the same reason.
- LogBot.LogBot.Init: when a channel does not exist or its log does not open, the code has already opened the logs before it. The model leaves the logs as they were, for the same reason.
- Voting.VoteBot.ReceiveVote: an answer is read as the unbounded value of its digits. A number too wide for the C++ variable, which `operator>>` would make fail, is not modelled.
- Voting.Vote, Voting.VoteOutcome, Voting.VoteBot.ReceiveVote: an empty answer passes the digit check and then reads an uninitialised Number, because the extraction from an empty stream fails before storing anything. That behaviour is undefined; the model takes option 0.
- Network.NetworkClient.HandleNewData, Network.NetworkClient.ScanLines: the scan starts one character before the new characters, which is the corrected framing. The code's start at the first new character (src/CNetworkClient.cpp:57) is modelled only by Network.FrameAsWritten and Network.SplitCrLfAsWritten, not by the class.
- Text is Dafny's `string`, a sequence of Unicode characters, while the code works on bytes (std::string, the char[1024] input buffer, PHP strings and the SHA-512 input). One `char` of the model stands for one byte, and no character above 255 is meant to occur. The lengths 30 (NICKNAME_LENGTH), 80 (the MOTD line), 512 (the IRC line) and 1024 (the input buffer) are counted in these chars. Multibyte encodings are not modelled.
- Server.Nick, Server.Handle, Server.Receive, ServerLemmas.NickConsistent, ServerLemmas.HandleConsistent, ServerLemmas.ReceiveConsistent, ServerProperties.NickVerdictAccepted, ServerProperties.NickRefusals: they use the corrected NICK of the second row under "## Findings", which refuses "NICK :" with ERR_NONICKNAMEGIVEN. The code accepts that line from a registered client that has a nickname, is not identified and is in no channel (src/CIRCServer.cpp:527-596), and it then breaks `Consistent`. That behaviour is modelled only by Server.NickAsWritten and ServerLemmas.EmptyNicknameLeaksEntry.
- Voting.New, Voting.NewOutcome, Voting.PrivateStep, Voting.PrivateStepOutcome, Voting.VoteBot.SendPrivateMessage, Voting.VoteBot.NewCommand: they use the corrected NEW of the third row under "## Findings", which also refuses NEW while an administrator holds the setup lock. The code checks only for a running vote and a question (src/CVoteBot.cpp:84-97), so a second NEW from the lock holder appends the abstention again. That behaviour is modelled only by Voting.NewAsWritten and Voting.DoubleNewDuplicatesAbstention.
- CChannel's constructor and AddClient in src/CChannel.cpp do not match src/CChannel.h. The model follows the header's map from client to status.

## Findings

| source | as written | input that shows it | evidently intended | confidence | as-written member | corrected member |
|---|---|---|---|---|---|---|
| src/CNetworkClient.cpp:55-70 | the scan for line endings starts at the first new character, so a CR that ended the previous read is not paired with the LF that opens this one | "NICK a" CR in one read, then LF in the next: the line "NICK a" CR is handed on | start the scan one character earlier, so CR LF split over two reads ends the line "NICK a" | not executed | Network.FrameAsWritten; Network.SplitCrLfAsWritten | Network.Frame; Network.FrameSplits |
| src/CIRCServer.cpp:527-596 | "NICK :" passes every check: the empty nickname differs from the current one, is not too long, and the character check of an empty string succeeds. The key "" is then inserted, and DisconnectNetworkClient skips the erase for an empty nickname | a registered, unidentified client in no channel sends "NICK :" and then disconnects: the key "" still names the shut-down client | an empty nickname refused with ERR_NONICKNAMEGIVEN like a missing one | not executed | Server.NickAsWritten; ServerLemmas.EmptyNicknameLeaksEntry | Server.Nick; ServerLemmas.EmptyNicknameRefused |
| src/CVoteBot.cpp:90-97 | NEW checks only for a running vote and a question, and appends the abstention option | an administrator sends NEW twice before the question: the options are the abstention twice, so one real option reaches the three START asks for | a setup in progress (an administrator holding the lock) refused as "being prepared" | not executed | Voting.NewAsWritten; Voting.DoubleNewDuplicatesAbstention | Voting.New; Voting.NewTwice |
