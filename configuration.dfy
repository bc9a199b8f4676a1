/** CConfiguration: the command-line decision of ParseParameters and the
    post-processing of the configuration files in ReadConfigFiles. The
    lexers (boost::program_options, std::getline) are not modelled: the
    command line arrives as the options they recognised, the main file as
    its typed values with their defaults, the users file as its key=value
    entries and the MOTD file as its text. */
module Configuration {
  import opened Ascii
  import opened Irc
  import opened Wrappers
  import opened Passhash

  datatype Platform = Win32 | Posix

  /** The options the command-line parser recognised. `unknownOption` is the
      parser's unknown_option exception; on Posix the two service flags do
      not exist (passing them is an unknown option), and `daemonService` is
      --daemon there and --service on Win32. */
  datatype CommandLine = CommandLine(
    unknownOption: bool,
    path: string,
    installService: bool,
    uninstallService: bool,
    daemonService: bool,
    verbose: bool,
    printVersion: bool)

  type Port = p: int | 0 <= p < 0x1_0000

  /** MainConfig.ini's values, with the defaults for absent keys applied. */
  datatype MainConfig = MainConfig(
    pidFile: string,
    name: string,
    port: Port,
    useIPv4: bool,
    useIPv6: bool,
    sslCertificate: string,
    sslPrivateKey: string,
    useSsl: bool)

  /** The exceptions ReadConfigFiles throws, in the order it can throw them. */
  datatype ConfigError = MotdMissing | MotdTooLong | BadPasshash | NoName | NoPort | NoProtocol | NoPidFile

  function Message(e: ConfigError): string
  {
    match e
    case MotdMissing => "Could not open the Motd file!"
    case MotdTooLong => "Motd file exceeds line length of 80 characters!"
    case BadPasshash => LengthError
    case NoName => "You need to specify a server name!"
    case NoPort => "You need to specify a port to listen on!"
    case NoProtocol => "You need to enable either IPv4 or IPv6 (or both)!"
    case NoPidFile => "You need to specify a pidfile under Posix environments!"
  }

  // -------------------------------------------------------- ParseParameters

  /** The program goes on exactly when the options were all known and a
      configuration directory or --version was given; on Win32
      --uninstall-service alone is enough too. */
  predicate Accepts(platform: Platform, args: CommandLine)
  {
    !args.unknownOption
    && (args.path != "" || args.printVersion || (platform == Win32 && args.uninstallService))
  }

  /** Verbosity as it stands after an accepted command line. */
  predicate Verbose(args: CommandLine)
  {
    args.verbose && !args.daemonService
  }

  // -------------------------------------------------------------- the MOTD

  /** The lines std::getline reads from a text: the pieces between '\n', the
      empty piece after a final '\n' not counted. */
  function FileLines(text: string): (r: seq<string>)
    ensures forall i :: 0 <= i < |r| ==> '\n' !in r[i]
  {
    if text == "" then []
    else
      var pieces := Split(text, '\n');
      if pieces[|pieces| - 1] == "" then pieces[..|pieces| - 1] else pieces
  }

  /** The position of the first line longer than MOTD_LINE_LENGTH, or |lines|. */
  function FirstLong(lines: seq<string>): (r: nat)
    ensures r <= |lines|
    ensures forall j :: 0 <= j < r ==> |lines[j]| <= MotdLineLength
    ensures r < |lines| ==> |lines[r]| > MotdLineLength
    decreases |lines|
  {
    if lines == [] || |lines[0]| > MotdLineLength then 0 else 1 + FirstLong(lines[1..])
  }

  // ----------------------------------------------------------- the outcome

  /** The first exception ReadConfigFiles throws, if any. */
  function ReadError(platform: Platform, main: MainConfig, motdFile: Option<string>, users: seq<Setting>): Option<ConfigError>
  {
    if motdFile.None? then Some(MotdMissing)
    else if FirstLong(FileLines(motdFile.value)) < |FileLines(motdFile.value)| then Some(MotdTooLong)
    else if Table(users, true).Err? then Some(BadPasshash)
    else if main.name == "" then Some(NoName)
    else if main.port == 0 then Some(NoPort)
    else if !main.useIPv4 && !main.useIPv6 then Some(NoProtocol)
    else if platform == Posix && main.pidFile == "" then Some(NoPidFile)
    else None
  }

  /** Loading succeeds exactly when the MOTD file opened, no MOTD line is
      longer than 80 characters, every passhash has 128 characters, and the
      server name, port, protocols and (on Posix) pidfile are given. */
  lemma ReadErrorMeaning(platform: Platform, main: MainConfig, motdFile: Option<string>, users: seq<Setting>)
    ensures ReadError(platform, main, motdFile, users).None? <==>
      && motdFile.Some?
      && (forall i :: 0 <= i < |FileLines(motdFile.value)| ==> |FileLines(motdFile.value)[i]| <= MotdLineLength)
      && AllWellSized(users)
      && main.name != "" && main.port != 0 && (main.useIPv4 || main.useIPv6)
      && (platform == Posix ==> main.pidFile != "")
  {
    TableOk(users, true);
  }

  /** What ParseParameters stores: the directory and the flags. */
  datatype Flags = Flags(
    configPath: string,
    installService: bool,
    uninstallService: bool,
    runAsDaemonService: bool,
    verbose: bool,
    printVersion: bool)

  /** The flags after a command line without unknown options: the options as
      given (the service flags exist on Win32 only) and, when the line is
      accepted, verbosity off in daemon or service mode. */
  function Parsed(platform: Platform, before: Flags, args: CommandLine): (f: Flags)
    ensures f.configPath == args.path && f.runAsDaemonService == args.daemonService && f.printVersion == args.printVersion
    ensures platform == Win32 ==> f.installService == args.installService && f.uninstallService == args.uninstallService
    ensures platform == Posix ==> f.installService == before.installService && f.uninstallService == before.uninstallService
    ensures f.verbose == if Accepts(platform, args) then Verbose(args) else args.verbose
  {
    Flags(args.path,
          if platform == Win32 then args.installService else before.installService,
          if platform == Win32 then args.uninstallService else before.uninstallService,
          args.daemonService,
          if Accepts(platform, args) then Verbose(args) else args.verbose,
          args.printVersion)
  }

  /** The configuration: the command-line flags, the main file's values, the
      MOTD and the passhash table keyed by lowercased nickname. */
  class Configuration {
    const platform: Platform
    var flags: Flags
    var settings: MainConfig
    var motd: seq<string>
    var userPasshashes: map<string, seq<Byte>>

    constructor (platform: Platform)
      ensures this.platform == platform && motd == [] && userPasshashes == map[]
    {
      this.platform := platform;
      flags := Flags("", false, false, false, false, false);
      settings := MainConfig("", "", 0, false, false, "", "", false);
      motd, userPasshashes := [], map[];
    }

    /** ParseParameters: an unknown option returns before anything is stored;
        otherwise the options are stored, daemon or service mode turns
        verbosity off when the line is accepted, and the result says whether
        to go on. */
    method ParseParameters(args: CommandLine) returns (ok: bool)
      modifies this
      ensures ok == Accepts(platform, args)
      ensures flags == if args.unknownOption then old(flags) else Parsed(platform, old(flags), args)
      ensures settings == old(settings) && motd == old(motd) && userPasshashes == old(userPasshashes)
    {
      if args.unknownOption {
        return false;
      }
      var f := flags.(configPath := args.path, runAsDaemonService := args.daemonService,
                      verbose := args.verbose, printVersion := args.printVersion);
      if platform == Win32 {
        f := f.(installService := args.installService, uninstallService := args.uninstallService);
      }
      flags := f;
      if f.configPath == "" && !f.printVersion {
        if platform == Posix || !f.uninstallService {
          return false;
        }
      }
      if f.runAsDaemonService {
        flags := f.(verbose := false);
      }
      ok := true;
    }

    /** The getline loop: lines are appended until one is too long. */
    method AppendMotd(lines: seq<string>) returns (complete: bool)
      modifies this
      ensures complete == (FirstLong(lines) == |lines|)
      ensures motd == old(motd) + lines[..FirstLong(lines)]
      ensures flags == old(flags) && settings == old(settings) && userPasshashes == old(userPasshashes)
    {
      var first := FirstLong(lines);
      for i := 0 to |lines|
        invariant i <= first
        invariant motd == old(motd) + lines[..i]
        invariant flags == old(flags) && settings == old(settings) && userPasshashes == old(userPasshashes)
      {
        if |lines[i]| > MotdLineLength {
          assert i == first;
          return false;
        }
        motd := motd + [lines[i]];
      }
      assert lines[..|lines|] == lines;
      complete := true;
    }

    /** ReadConfigFiles: the main file's values are stored (the pidfile on
        Posix only), the MOTD lines are appended up to the first over-long
        one, the users file is decoded and inserted (keys already present keep
        their digest), and then the sanity checks run. `error` is the
        exception thrown, if any. */
    method ReadConfigFiles(main: MainConfig, motdFile: Option<string>, users: seq<Setting>) returns (error: Option<ConfigError>)
      modifies this
      ensures error == ReadError(platform, main, motdFile, users)
      ensures settings == if platform == Posix then main else main.(pidFile := old(settings.pidFile))
      ensures motdFile.None? ==> motd == old(motd)
      ensures motdFile.Some? ==> motd == old(motd) + FileLines(motdFile.value)[..FirstLong(FileLines(motdFile.value))]
      ensures userPasshashes ==
        if error.None? || error.value.NoName? || error.value.NoPort? || error.value.NoProtocol? || error.value.NoPidFile?
        then Table(users, true).value + old(userPasshashes) else old(userPasshashes)
      ensures flags == old(flags)
    {
      settings := if platform == Posix then main else main.(pidFile := settings.pidFile);
      if motdFile.None? {
        return Some(MotdMissing);
      }
      var complete := AppendMotd(FileLines(motdFile.value));
      if !complete {
        return Some(MotdTooLong);
      }

      var table := LoadPasshashes(users, true);
      if table.Err? {
        return Some(BadPasshash);
      }
      userPasshashes := table.value + userPasshashes;

      if settings.name == "" {
        return Some(NoName);
      }
      if settings.port == 0 {
        return Some(NoPort);
      }
      if !settings.useIPv4 && !settings.useIPv6 {
        return Some(NoProtocol);
      }
      if platform == Posix && settings.pidFile == "" {
        return Some(NoPidFile);
      }
      error := None;
    }
  }

  /** The table keeps digests already present and adds the file's entries
      under their lowercased nicknames, the first entry of each winning. */
  lemma InsertedPasshashes(existing: map<string, seq<Byte>>, users: seq<Setting>, i: nat)
    requires Table(users, true).Ok?
    requires i < |users|
    requires forall j :: 0 <= j < i ==> Lower(users[j].key) != Lower(users[i].key)
    ensures Lower(users[i].key) in Table(users, true).value + existing
    ensures Lower(users[i].key) !in existing ==>
      Ok((Table(users, true).value + existing)[Lower(users[i].key)]) == Decode(users[i].value)
    ensures forall k :: k in existing ==> (Table(users, true).value + existing)[k] == existing[k]
  {
    TableFirst(users, true, i);
  }
}
