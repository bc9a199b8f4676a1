/** The channel part of CIRCServer::Init: which users may speak in which
    channel, which channels allow observers, and the preset channels
    themselves, read from the key=value lines of three configuration files. */
module ChannelSetup {
  import opened Ascii
  import opened Irc
  import opened Wrappers
  import opened Channel

  /** Channel_Users: each line `channel=user`, both lowercased, collected per channel. */
  function UsersMap(lines: seq<Setting>): map<string, set<string>>
    decreases |lines|
  {
    if lines == [] then map[]
    else
      var m := UsersMap(lines[..|lines| - 1]);
      var k := Lower(lines[|lines| - 1].key);
      m[k := (if k in m then m[k] else {}) + {Lower(lines[|lines| - 1].value)}]
  }

  /** A lowercased user is allowed in a lowercased channel exactly when some
      line names both, and a channel has an entry exactly when some line names it. */
  lemma {:induction false} UsersMapMeaning(lines: seq<Setting>, k: string, u: string)
    ensures k in UsersMap(lines) <==> exists i :: 0 <= i < |lines| && Lower(lines[i].key) == k
    ensures (k in UsersMap(lines) && u in UsersMap(lines)[k])
      <==> exists i :: 0 <= i < |lines| && Lower(lines[i].key) == k && Lower(lines[i].value) == u
    decreases |lines|
  {
    if lines != [] {
      var init := lines[..|lines| - 1];
      UsersMapMeaning(init, k, u);
      assert forall i :: 0 <= i < |init| ==> init[i] == lines[i];
      if exists i :: 0 <= i < |lines| && Lower(lines[i].key) == k {
        var i :| 0 <= i < |lines| && Lower(lines[i].key) == k;
        if i < |init| {
          assert Lower(init[i].key) == k;
        }
      }
      if exists i :: 0 <= i < |lines| && Lower(lines[i].key) == k && Lower(lines[i].value) == u {
        var i :| 0 <= i < |lines| && Lower(lines[i].key) == k && Lower(lines[i].value) == u;
        if i < |init| {
          assert Lower(init[i].key) == k && Lower(init[i].value) == u;
        }
      }
    }
  }

  /** The loop that fills ChannelUsersMap. */
  method ReadChannelUsers(lines: seq<Setting>) returns (users: map<string, set<string>>)
    ensures users == UsersMap(lines)
  {
    users := map[];
    var i := 0;
    while i < |lines|
      invariant i <= |lines|
      invariant users == UsersMap(lines[..i])
    {
      var channel := Lower(lines[i].key);
      var user := Lower(lines[i].value);
      assert lines[..i + 1][..i] == lines[..i] && lines[..i + 1][i] == lines[i];
      assert UsersMap(lines[..i + 1]) == users[channel := (if channel in users then users[channel] else {}) + {user}];
      if channel !in users {
        assert {} + {user} == {user};
        users := users[channel := {user}];
      } else {
        users := users[channel := users[channel] + {user}];
      }
      i := i + 1;
    }
    assert lines[..i] == lines;
  }

  /** Channel_Observers: the lowercased channels whose value is exactly "true". */
  function ObserversSet(lines: seq<Setting>): (r: set<string>)
  {
    set i | 0 <= i < |lines| && lines[i].value == "true" :: Lower(lines[i].key)
  }

  method ReadChannelObservers(lines: seq<Setting>) returns (observers: set<string>)
    ensures observers == ObserversSet(lines)
  {
    observers := {};
    var i := 0;
    while i < |lines|
      invariant i <= |lines|
      invariant observers == ObserversSet(lines[..i])
    {
      assert forall j :: 0 <= j < i ==> lines[..i + 1][j] == lines[..i][j];
      if lines[i].value == "true" {
        observers := observers + {Lower(lines[i].key)};
      }
      i := i + 1;
    }
    assert lines[..i] == lines;
  }

  /** The characters the name check lets through: letters, digits and '_'.
      The comment in the code also promises '-', but the test compares with
      '_' twice, so '-' is refused. */
  predicate IsChannelChar(c: char)
  {
    IsUpper(c) || IsLower(c) || IsDigit(c) || c == '_'
  }

  /** The channels made so far and the map from lowercased name to channel. */
  datatype Channels = Channels(list: seq<Channel>, ids: map<string, ChannelId>)

  /** The table the server keeps: every key leads to a channel of that name. */
  ghost predicate Indexed(c: Channels)
  {
    forall k :: k in c.ids ==> c.ids[k] < |c.list| && Lower(c.list[c.ids[k]].name) == k
  }

  /** One line of the Channels file: the name check, the user lookup, then a
      new channel unless one of that lowercased name exists (ptr_map::insert
      keeps the first). */
  function AddChannel(users: map<string, set<string>>, observers: set<string>, line: Setting, c: Channels): (r: Result<Channels, string>)
  {
    if !CStringAll(line.key, IsChannelChar) then Err("Illegal channel name!")
    else
      var k := Lower(line.key);
      if k !in users then Err("No allowed users were set for this channel!")
      else if k in c.ids then Ok(c)
      else Ok(Channels(c.list + [NewChannel(line.key, line.value, users[k], k in observers)], c.ids[k := |c.list|]))
  }

  /** The lines from `from` on, added in order; the first failure stops. */
  function AddChannels(users: map<string, set<string>>, observers: set<string>, lines: seq<Setting>, from: nat, c: Channels): Result<Channels, string>
    requires from <= |lines|
    decreases |lines| - from
  {
    if from == |lines| then Ok(c)
    else
      var r := AddChannel(users, observers, lines[from], c);
      if r.Err? then r else AddChannels(users, observers, lines, from + 1, r.value)
  }

  /** The whole channel set-up, with its three errors. */
  function LoadChannels(users: map<string, set<string>>, observers: set<string>, lines: seq<Setting>): Result<Channels, string>
  {
    if lines == [] then Err("You need to specify at least one channel!")
    else AddChannels(users, observers, lines, 0, Channels([], map[]))
  }

  /** A line accepted by the checks. */
  predicate Acceptable(users: map<string, set<string>>, line: Setting)
  {
    CStringAll(line.key, IsChannelChar) && Lower(line.key) in users
  }

  predicate AllAcceptable(users: map<string, set<string>>, lines: seq<Setting>, from: nat)
  {
    forall i :: from <= i < |lines| ==> Acceptable(users, lines[i])
  }

  /** A channel made from a line carries that line's settings and no members. */
  predicate MadeFrom(users: map<string, set<string>>, observers: set<string>, lines: seq<Setting>, ch: Channel)
  {
    exists i :: 0 <= i < |lines| && Acceptable(users, lines[i])
      && ch == NewChannel(lines[i].key, lines[i].value, users[Lower(lines[i].key)], Lower(lines[i].key) in observers)
  }

  /** An indexed table whose every channel comes from an acceptable line. */
  ghost predicate Sound(users: map<string, set<string>>, observers: set<string>, lines: seq<Setting>, c: Channels)
  {
    Indexed(c) && forall j :: 0 <= j < |c.list| ==> MadeFrom(users, observers, lines, c.list[j])
  }

  /** Every line from `from` on has its lowercased name in the table. */
  predicate Covers(lines: seq<Setting>, from: nat, c: Channels)
  {
    forall i :: from <= i < |lines| ==> Lower(lines[i].key) in c.ids
  }

  /** Adding one line succeeds exactly when it is acceptable, and then keeps
      the table sound, keeps its keys and records the line's key. */
  lemma AddChannelFacts(users: map<string, set<string>>, observers: set<string>, lines: seq<Setting>, i: nat, c: Channels)
    requires i < |lines| && Sound(users, observers, lines, c)
    ensures AddChannel(users, observers, lines[i], c).Ok? <==> Acceptable(users, lines[i])
    ensures AddChannel(users, observers, lines[i], c).Ok? ==>
      var d := AddChannel(users, observers, lines[i], c).value;
      Sound(users, observers, lines, d) && Lower(lines[i].key) in d.ids && c.ids.Keys <= d.ids.Keys
  {
    var r := AddChannel(users, observers, lines[i], c);
    if r.Ok? && Lower(lines[i].key) !in c.ids {
      var k := Lower(lines[i].key);
      var ch := NewChannel(lines[i].key, lines[i].value, users[k], k in observers);
      assert r.value.list == c.list + [ch];
      assert MadeFrom(users, observers, lines, ch);
      forall j | 0 <= j < |r.value.list| ensures MadeFrom(users, observers, lines, r.value.list[j]) {
        if j < |c.list| {
          assert r.value.list[j] == c.list[j];
        }
      }
    }
  }

  /** Adding the lines from `from` on succeeds exactly when each of them is
      acceptable, and then the table stays sound and holds every one of their
      lowercased names. */
  lemma {:induction false} AddChannelsFacts(users: map<string, set<string>>, observers: set<string>, lines: seq<Setting>, from: nat, c: Channels)
    requires from <= |lines| && Sound(users, observers, lines, c)
    ensures AddChannels(users, observers, lines, from, c).Ok? <==> AllAcceptable(users, lines, from)
    ensures AddChannels(users, observers, lines, from, c).Ok? ==>
      var d := AddChannels(users, observers, lines, from, c).value;
      Sound(users, observers, lines, d) && Covers(lines, from, d) && c.ids.Keys <= d.ids.Keys
    decreases |lines| - from
  {
    if from < |lines| {
      AddChannelFacts(users, observers, lines, from, c);
      var r := AddChannel(users, observers, lines[from], c);
      if r.Ok? {
        AddChannelsFacts(users, observers, lines, from + 1, r.value);
      }
    }
  }

  /** What Init promises about the channel table: it is built exactly when the
      file has lines and each is acceptable; then each line's lowercased name
      leads to a channel of that name, and every channel carries the settings
      of one acceptable line and has no members yet. */
  lemma LoadChannelsFacts(users: map<string, set<string>>, observers: set<string>, lines: seq<Setting>)
    ensures LoadChannels(users, observers, lines).Ok? <==> lines != [] && AllAcceptable(users, lines, 0)
    ensures LoadChannels(users, observers, lines).Ok? ==>
      var c := LoadChannels(users, observers, lines).value;
      Sound(users, observers, lines, c) && Covers(lines, 0, c)
  {
    if lines != [] {
      AddChannelsFacts(users, observers, lines, 0, Channels([], map[]));
    }
  }

  /** The channel that a table lookup finds has no members after loading. */
  lemma LoadedChannelsAreEmpty(users: map<string, set<string>>, observers: set<string>, lines: seq<Setting>, c: Channels, j: nat)
    requires Sound(users, observers, lines, c) && j < |c.list|
    ensures c.list[j].clients == map[]
  {
    assert MadeFrom(users, observers, lines, c.list[j]);
  }

  /** The loop over the Channels file. */
  method ReadChannels(users: map<string, set<string>>, observers: set<string>, lines: seq<Setting>) returns (r: Result<Channels, string>)
    ensures r == LoadChannels(users, observers, lines)
  {
    if lines == [] {
      return Err("You need to specify at least one channel!");
    }
    var c := Channels([], map[]);
    var i := 0;
    while i < |lines|
      invariant i <= |lines|
      invariant AddChannels(users, observers, lines, i, c) == LoadChannels(users, observers, lines)
    {
      var line := lines[i];
      var ok := CheckCString(line.key, IsChannelChar);
      if !ok {
        return Err("Illegal channel name!");
      }
      var k := Lower(line.key);
      if k !in users {
        return Err("No allowed users were set for this channel!");
      }
      if k !in c.ids {
        c := Channels(c.list + [NewChannel(line.key, line.value, users[k], k in observers)], c.ids[k := |c.list|]);
      }
      i := i + 1;
    }
    return Ok(c);
  }
}
