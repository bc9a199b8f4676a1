/** add_irc_users.php: for every row of Users.csv a random password is drawn,
    its SHA-512 digest is written to Users.ini and the nickname to
    Channel_Users.ini, and a mail made from a template goes to the row's
    address. The random numbers, the digest, the files and the mailer are the
    environment: mt_rand is an oracle giving the n-th index drawn, the digest a
    function, and each file the text written to it. */
module Provisioning {
  import opened Ascii
  import opened Irc
  import opened Passhash
  import Configuration
  import NickServ
  import Client

  const ChannelName := "meeting"
  const MailFrom := "ReactOS IRC Server <administrator@reactos.org>"
  const MailSubject := "Credentials for the upcoming IRC meeting"
  const PasswordCharacters := "abcdefghijklmnopqrstuvwxyzABCDEFGHIJKLMNPQRSTUVWXYZ123456789"
  const PasswordLength := 16
  const NicknameToken := "NICKNAME"
  const PasswordToken := "PASSWORD"

  /** A value of mt_rand(0, strlen(PASSWORD_CHARACTERS) - 1). */
  type Draw = d: int | 0 <= d < 60

  // -------------------------------------------------------------- passwords

  /** The password made from draws start .. start + 15, in the order drawn. */
  function Password(pick: nat -> Draw, start: nat): (pw: string)
    ensures |pw| == PasswordLength
    ensures forall i :: 0 <= i < |pw| ==> pw[i] in PasswordCharacters
  {
    seq(PasswordLength, i requires 0 <= i < PasswordLength => PasswordCharacters[pick(start + i)])
  }

  /** The counting-down loop that appends one drawn character at a time. */
  method GeneratePassword(pick: nat -> Draw, start: nat) returns (password: string)
    ensures password == Password(pick, start)
  {
    password := "";
    var i := PasswordLength;
    var drawn := 0;
    while i - 1 >= 0
      invariant 0 <= i <= PasswordLength && drawn == PasswordLength - i
      invariant password == Password(pick, start)[..drawn]
    {
      i := i - 1;
      password := password + [PasswordCharacters[pick(start + drawn)]];
      drawn := drawn + 1;
    }
    assert password == Password(pick, start)[..PasswordLength];
  }

  /** The first position of `c` in `s`, or |s|. */
  function Position(s: string, c: char): (r: nat)
    ensures r <= |s|
    ensures c in s ==> r < |s| && s[r] == c
  {
    if s == [] then 0 else if s[0] == c then 0 else 1 + Position(s[1..], c)
  }

  /** The draw that picks `c`. */
  function DrawOf(c: char): (d: Draw)
    ensures c in PasswordCharacters ==> PasswordCharacters[d] == c
  {
    if c in PasswordCharacters then Position(PasswordCharacters, c) else 0
  }

  /** Every string of 16 characters of the alphabet is the password of some
      sequence of draws. */
  lemma EveryPasswordPossible(w: string, start: nat)
    requires |w| == PasswordLength
    requires forall i :: 0 <= i < |w| ==> w[i] in PasswordCharacters
    ensures exists pick: nat -> Draw :: Password(pick, start) == w
  {
    var pick: nat -> Draw := n => if start <= n < start + |w| then DrawOf(w[n - start]) else 0;
    forall i | 0 <= i < |w| ensures Password(pick, start)[i] == w[i] {
      assert PasswordCharacters[DrawOf(w[i])] == w[i];
      DrawnAt(pick, start, w[i], i);
    }
    assert Password(pick, start) == w;
  }

  /** The character drawn at one position is the one its draw picks. */
  lemma DrawnAt(pick: nat -> Draw, start: nat, c: char, i: nat)
    requires i < PasswordLength
    requires PasswordCharacters[pick(start + i)] == c
    ensures Password(pick, start)[i] == c
  {
  }

  // ---------------------------------------------------------- substitution

  /** The key at the front of `u`, or a key cut off by the end of `u`. */
  predicate Opens(u: string, key: string)
  {
    if |u| >= |key| then u[..|key|] == key else u == key[..|u|]
  }

  /** strtr with two keys of the same length: at each position a key that
      starts there is replaced and scanning goes on after it; the
      replacement is not scanned again. */
  function Substitute(t: string, k1: string, v1: string, k2: string, v2: string): (r: string)
    requires |k1| == |k2| > 0
    decreases |t|
  {
    if t == [] then []
    else if |t| >= |k1| && t[..|k1|] == k1 then v1 + Substitute(t[|k1|..], k1, v1, k2, v2)
    else if |t| >= |k2| && t[..|k2|] == k2 then v2 + Substitute(t[|k2|..], k1, v1, k2, v2)
    else [t[0]] + Substitute(t[1..], k1, v1, k2, v2)
  }

  /** A mail template cut into literal text and the two placeholders. */
  datatype Piece = Literal(text: string) | NicknameHere | PasswordHere

  /** The template as written, a placeholder standing as its key. */
  function Template(pieces: seq<Piece>, k1: string, k2: string): string
  {
    if pieces == [] then ""
    else
      (match pieces[0]
       case Literal(text) => text
       case NicknameHere => k1
       case PasswordHere => k2) + Template(pieces[1..], k1, k2)
  }

  /** The mail as meant, each placeholder filled in. */
  function Render(pieces: seq<Piece>, v1: string, v2: string): string
  {
    if pieces == [] then ""
    else
      (match pieces[0]
       case Literal(text) => text
       case NicknameHere => v1
       case PasswordHere => v2) + Render(pieces[1..], v1, v2)
  }

  /** No key starts inside the literal, not even one cut by its end. */
  predicate Clean(text: string, k1: string, k2: string)
  {
    forall j :: 0 <= j < |text| ==> !Opens(text[j..], k1) && !Opens(text[j..], k2)
  }

  /** Literal text free of keys passes through unchanged. */
  lemma {:induction false} SubstituteClean(text: string, rest: string, k1: string, v1: string, k2: string, v2: string)
    requires |k1| == |k2| > 0
    requires Clean(text, k1, k2)
    ensures Substitute(text + rest, k1, v1, k2, v2) == text + Substitute(rest, k1, v1, k2, v2)
    decreases |text|
  {
    if text != [] {
      var t := text + rest;
      assert text[0..] == text;
      NoKeyAtFront(text, rest, k1);
      NoKeyAtFront(text, rest, k2);
      assert Substitute(t, k1, v1, k2, v2) == [t[0]] + Substitute(t[1..], k1, v1, k2, v2);
      assert Clean(text[1..], k1, k2) by {
        forall j | 0 <= j < |text| - 1 ensures !Opens(text[1..][j..], k1) && !Opens(text[1..][j..], k2) {
          assert text[1..][j..] == text[j + 1..];
        }
      }
      SubstituteClean(text[1..], rest, k1, v1, k2, v2);
      assert t[1..] == text[1..] + rest;
      calc {
        Substitute(t, k1, v1, k2, v2);
        [t[0]] + Substitute(text[1..] + rest, k1, v1, k2, v2);
        [t[0]] + (text[1..] + Substitute(rest, k1, v1, k2, v2));
        ([t[0]] + text[1..]) + Substitute(rest, k1, v1, k2, v2);
        { assert text == [t[0]] + text[1..]; }
        text + Substitute(rest, k1, v1, k2, v2);
      }
    } else {
      assert text + rest == rest;
    }
  }

  /** A key that does not open `text` does not stand at the front of text + rest. */
  lemma NoKeyAtFront(text: string, rest: string, key: string)
    requires text != [] && !Opens(text, key)
    ensures |text + rest| >= |key| ==> (text + rest)[..|key|] != key
  {
    var t := text + rest;
    if |t| >= |key| {
      if |text| >= |key| {
        assert t[..|key|] == text[..|key|];
      } else {
        assert exists i :: 0 <= i < |text| && text[i] != key[..|text|][i];
        var i :| 0 <= i < |text| && text[i] != key[i];
        assert t[..|key|][i] != key[i];
      }
    }
  }

  /** A template whose literals hold no key comes out as the mail meant, and
      what was filled in is not substituted again. */
  lemma {:induction false} SubstituteTemplate(pieces: seq<Piece>, k1: string, v1: string, k2: string, v2: string)
    requires |k1| == |k2| > 0 && k1 != k2
    requires forall i :: 0 <= i < |pieces| && pieces[i].Literal? ==> Clean(pieces[i].text, k1, k2)
    ensures Substitute(Template(pieces, k1, k2), k1, v1, k2, v2) == Render(pieces, v1, v2)
    decreases |pieces|
  {
    if pieces != [] {
      var rest := Template(pieces[1..], k1, k2);
      SubstituteTemplate(pieces[1..], k1, v1, k2, v2);
      match pieces[0]
      case Literal(text) =>
        SubstituteClean(text, rest, k1, v1, k2, v2);
      case NicknameHere =>
        KeyFirst(k1, rest, k1, v1, k2, v2);
      case PasswordHere =>
        KeySecond(rest, k1, v1, k2, v2);
    }
  }

  lemma KeyFirst(key: string, rest: string, k1: string, v1: string, k2: string, v2: string)
    requires |k1| == |k2| > 0 && key == k1
    ensures Substitute(key + rest, k1, v1, k2, v2) == v1 + Substitute(rest, k1, v1, k2, v2)
  {
    assert (key + rest)[..|k1|] == k1;
    assert (key + rest)[|k1|..] == rest;
  }

  lemma KeySecond(rest: string, k1: string, v1: string, k2: string, v2: string)
    requires |k1| == |k2| > 0 && k1 != k2
    ensures Substitute(k2 + rest, k1, v1, k2, v2) == v2 + Substitute(rest, k1, v1, k2, v2)
  {
    assert (k2 + rest)[..|k2|] == k2;
    assert (k2 + rest)[|k2|..] == rest;
  }

  /** A nickname that reads "PASSWORD" stays so in the mail. */
  lemma NoRescan(password: string)
    ensures Substitute(NicknameToken, NicknameToken, PasswordToken, PasswordToken, password) == PasswordToken
  {
    KeyFirst(NicknameToken, "", NicknameToken, PasswordToken, PasswordToken, password);
    assert NicknameToken + "" == NicknameToken;
  }

  // ------------------------------------------------------------ the files

  /** One Users.csv row: fgetcsv's first two fields. */
  datatype Row = Row(nickname: string, address: string)

  datatype Mail = Mail(to: string, subject: string, body: string, headers: string)

  /** Row r uses draws 16r .. 16r + 15. */
  function PasswordOf(pick: nat -> Draw, r: nat): string
  {
    Password(pick, PasswordLength * r)
  }

  /** The Users.ini entries written for the rows: the nickname as given and
      the digest in lower-case hexadecimal, as hash("sha512") writes it. */
  function UserEntries(rows: seq<Row>, pick: nat -> Draw, sha512: string -> seq<Byte>): (r: seq<Setting>)
    ensures |r| == |rows|
    ensures forall i :: 0 <= i < |rows| ==> r[i] == Setting(rows[i].nickname, Encode(sha512(PasswordOf(pick, i))))
  {
    seq(|rows|, i requires 0 <= i < |rows| => Setting(rows[i].nickname, Encode(sha512(PasswordOf(pick, i)))))
  }

  /** The Channel_Users.ini entries: the channel name, then the nickname. */
  function ChannelEntries(rows: seq<Row>): (r: seq<Setting>)
    ensures |r| == |rows|
    ensures forall i :: 0 <= i < |rows| ==> r[i] == Setting(ChannelName, rows[i].nickname)
  {
    seq(|rows|, i requires 0 <= i < |rows| => Setting(ChannelName, rows[i].nickname))
  }

  function SettingLine(s: Setting): string
  {
    s.key + "=" + s.value
  }

  /** A file of key=value lines, each ended by '\n', as the fwrite calls
      leave it. */
  function IniText(entries: seq<Setting>): string
  {
    if entries == [] then ""
    else IniText(entries[..|entries| - 1]) + SettingLine(entries[|entries| - 1]) + "\n"
  }

  function MailOf(row: Row, template: string, password: string): Mail
  {
    Mail(row.address, MailSubject, Substitute(template, NicknameToken, row.nickname, PasswordToken, password),
         "From: " + MailFrom)
  }

  /** The row loop: both files written line by line and one mail per row. */
  method AddUsers(rows: seq<Row>, template: string, pick: nat -> Draw, sha512: string -> seq<Byte>)
    returns (channelUsers: string, users: string, mails: seq<Mail>)
    ensures channelUsers == IniText(ChannelEntries(rows))
    ensures users == IniText(UserEntries(rows, pick, sha512))
    ensures |mails| == |rows|
    ensures forall i :: 0 <= i < |rows| ==> mails[i] == MailOf(rows[i], template, PasswordOf(pick, i))
  {
    channelUsers, users, mails := "", "", [];
    for r := 0 to |rows|
      invariant channelUsers == IniText(ChannelEntries(rows[..r]))
      invariant users == IniText(UserEntries(rows[..r], pick, sha512))
      invariant |mails| == r
      invariant forall i :: 0 <= i < r ==> mails[i] == MailOf(rows[i], template, PasswordOf(pick, i))
    {
      var nickname := rows[r].nickname;
      var password := GeneratePassword(pick, PasswordLength * r);
      var passhash := Encode(sha512(password));
      assert password == PasswordOf(pick, r);
      SnocEntries(rows, r, pick, sha512);
      IniTextSnoc(ChannelEntries(rows[..r]), Setting(ChannelName, nickname));
      IniTextSnoc(UserEntries(rows[..r], pick, sha512), Setting(nickname, passhash));
      channelUsers := channelUsers + SettingLine(Setting(ChannelName, nickname)) + "\n";
      users := users + SettingLine(Setting(nickname, passhash)) + "\n";
      assert channelUsers == IniText(ChannelEntries(rows[..r + 1]));
      assert users == IniText(UserEntries(rows[..r + 1], pick, sha512));
      MailsSnoc(mails, rows, template, pick, r);
      mails := mails + [MailOf(rows[r], template, password)];
    }
    assert rows[..|rows|] == rows;
  }

  /** The entries of one more row are the entries so far and that row's. */
  lemma SnocEntries(rows: seq<Row>, r: nat, pick: nat -> Draw, sha512: string -> seq<Byte>)
    requires r < |rows|
    ensures ChannelEntries(rows[..r + 1]) == ChannelEntries(rows[..r]) + [Setting(ChannelName, rows[r].nickname)]
    ensures UserEntries(rows[..r + 1], pick, sha512) ==
      UserEntries(rows[..r], pick, sha512) + [Setting(rows[r].nickname, Encode(sha512(PasswordOf(pick, r))))]
  {
  }

  /** One more mail keeps the mails in step with the rows. */
  lemma MailsSnoc(mails: seq<Mail>, rows: seq<Row>, template: string, pick: nat -> Draw, r: nat)
    requires |mails| == r < |rows|
    requires forall i :: 0 <= i < r ==> mails[i] == MailOf(rows[i], template, PasswordOf(pick, i))
    ensures var more := mails + [MailOf(rows[r], template, PasswordOf(pick, r))];
      forall i :: 0 <= i <= r ==> more[i] == MailOf(rows[i], template, PasswordOf(pick, i))
  {
  }

  lemma IniTextSnoc(entries: seq<Setting>, e: Setting)
    ensures IniText(entries + [e]) == IniText(entries) + SettingLine(e) + "\n"
  {
    assert (entries + [e])[..|entries|] == entries;
  }

  // ------------------------------------------------------- reading back

  function EntryLines(entries: seq<Setting>): (r: seq<string>)
    ensures |r| == |entries|
    ensures forall i :: 0 <= i < |entries| ==> r[i] == SettingLine(entries[i])
  {
    seq(|entries|, i requires 0 <= i < |entries| => SettingLine(entries[i]))
  }

  lemma {:induction false} JoinSnoc(parts: seq<string>, x: string, sep: char)
    requires |parts| >= 1
    ensures Join(parts + [x], sep) == Join(parts, sep) + [sep] + x
    decreases |parts|
  {
    if |parts| > 1 {
      JoinSnoc(parts[1..], x, sep);
      assert (parts + [x])[1..] == parts[1..] + [x];
    }
  }

  lemma {:induction false} IniTextJoin(entries: seq<Setting>)
    requires entries != []
    ensures IniText(entries) == Join(EntryLines(entries), '\n') + "\n"
    decreases |entries|
  {
    var init := entries[..|entries| - 1];
    if init != [] {
      IniTextJoin(init);
      JoinSnoc(EntryLines(init), SettingLine(entries[|entries| - 1]), '\n');
      assert EntryLines(entries) == EntryLines(init) + [SettingLine(entries[|entries| - 1])];
    } else {
      assert EntryLines(entries) == [SettingLine(entries[0])];
    }
  }

  /** Read back line by line, a file gives its key=value lines again as long
      as no nickname or value holds a line break. */
  lemma ReadBack(entries: seq<Setting>)
    requires forall i :: 0 <= i < |entries| ==> '\n' !in entries[i].key && '\n' !in entries[i].value
    ensures Configuration.FileLines(IniText(entries)) == EntryLines(entries)
  {
    if entries != [] {
      var lines := EntryLines(entries);
      var text := IniText(entries);
      assert Split(text, '\n') == lines + [""] by {
        LinesFree(entries);
        IniTextJoin(entries);
        SplitTerminated(lines, '\n');
      }
      assert (lines + [""])[..|lines|] == lines;
    }
  }

  /** Lines joined and terminated by a separator they do not hold split into
      those lines and an empty last piece. */
  lemma SplitTerminated(lines: seq<string>, sep: char)
    requires |lines| >= 1
    requires forall i :: 0 <= i < |lines| ==> sep !in lines[i]
    ensures Split(Join(lines, sep) + [sep], sep) == lines + [""]
  {
    JoinSnoc(lines, "", sep);
    assert Join(lines, sep) + [sep] == Join(lines + [""], sep);
    forall i | 0 <= i < |lines + [""]| ensures sep !in (lines + [""])[i] {
      if i < |lines| {
        assert (lines + [""])[i] == lines[i];
      }
    }
    SplitJoin(lines + [""], sep);
  }

  lemma LinesFree(entries: seq<Setting>)
    requires forall i :: 0 <= i < |entries| ==> '\n' !in entries[i].key && '\n' !in entries[i].value
    ensures forall i :: 0 <= i < |EntryLines(entries)| ==> '\n' !in EntryLines(entries)[i]
  {
    var lines := EntryLines(entries);
    forall i | 0 <= i < |lines| ensures '\n' !in lines[i] {
      assert lines[i] == entries[i].key + "=" + entries[i].value;
    }
  }

  // -------------------------------------------------- end to end with NickServ

  /** Users.ini loads into the server's table, which marks the nickname of a
      row (the first row with that lowercased nickname) as protected, under
      the digest of the password mailed to that row. */
  lemma UsersFileProtects(rows: seq<Row>, pick: nat -> Draw, sha512: string -> seq<Byte>, r: nat)
    requires forall w :: |sha512(w)| == DigestLength
    requires r < |rows|
    requires forall q :: 0 <= q < r ==> Lower(rows[q].nickname) != Lower(rows[r].nickname)
    ensures Table(UserEntries(rows, pick, sha512), true).Ok?
    ensures var table := Table(UserEntries(rows, pick, sha512), true).value;
      Lower(rows[r].nickname) in table && table[Lower(rows[r].nickname)] == sha512(PasswordOf(pick, r))
  {
    var entries := UserEntries(rows, pick, sha512);
    TableOk(entries, true);
    TableFirst(entries, true, r);
    DecodeEncode(sha512(PasswordOf(pick, r)));
  }

  /** Used as NickServ_Users.ini as well, the file loads into NickServ's
      table, and a client holding the nickname of a row (the first row with
      that nickname) identifies with the password mailed to that row. */
  lemma IdentifyWithMailedPassword(rows: seq<Row>, pick: nat -> Draw, sha512: string -> seq<Byte>,
                                   r: nat, c: Client.ClientState)
    requires forall w :: |sha512(w)| == DigestLength
    requires r < |rows|
    requires forall q :: 0 <= q < r ==> rows[q].nickname != rows[r].nickname
    requires c.nickname == rows[r].nickname && !c.userState.isIdentified
    ensures Table(UserEntries(rows, pick, sha512), false).Ok?
    ensures NickServ.IdentifyVerdict(Table(UserEntries(rows, pick, sha512), false).value, sha512, c,
                                     [PasswordOf(pick, r)]) == NickServ.Accepted
  {
    var entries := UserEntries(rows, pick, sha512);
    TableOk(entries, false);
    TableFirst(entries, false, r);
    DecodeEncode(sha512(PasswordOf(pick, r)));
  }
}
