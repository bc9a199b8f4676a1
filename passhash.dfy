/** The passhashes of the users files: 128 hexadecimal characters decoded into
    the 64 bytes of a SHA-512 digest, and the table from nickname to digest
    that CConfiguration::ReadConfigFiles and CNickServ::Init fill. */
module Passhash {
  import opened Ascii
  import opened Irc
  import opened Wrappers

  /** One byte of a digest, as memcmp compares it. */
  type Byte = b: int | 0 <= b < 256

  const DigestLength := 64

  const LengthError := "Length of a passhash must be 128 characters!"

  predicate IsHexDigit(c: char)
  {
    '0' <= c <= '9' || 'a' <= c <= 'f' || 'A' <= c <= 'F'
  }

  function HexValue(c: char): (r: nat)
    requires IsHexDigit(c)
    ensures r < 16
  {
    if '0' <= c <= '9' then c as int - '0' as int
    else if 'a' <= c <= 'f' then c as int - 'a' as int + 10
    else c as int - 'A' as int + 10
  }

  /** isspace in the C locale. */
  predicate IsSpace(c: char)
  {
    c == ' ' || c == '\t' || c == '\n' || c == '\U{B}' || c == '\U{C}' || c == '\r'
  }

  /** strtol(s, NULL, 16) on the two-character string [a, b]: leading white
      space and one sign are skipped, then as many hexadecimal digits as
      follow are read; no digit at all gives 0. ("0x" followed by no digit
      reads as the single digit 0.) */
  function Strtol16(a: char, b: char): (r: int)
    ensures -15 <= r <= 255
    ensures IsHexDigit(a) && IsHexDigit(b) ==> r == 16 * HexValue(a) + HexValue(b)
  {
    if IsHexDigit(a) then
      if IsHexDigit(b) then 16 * HexValue(a) + HexValue(b) else HexValue(a)
    else if IsSpace(a) || a == '+' then
      if IsHexDigit(b) then HexValue(b) else 0
    else if a == '-' then
      if IsHexDigit(b) then 0 - HexValue(b) as int else 0
    else 0
  }

  /** static_cast<char> of the long: the low eight bits. */
  function ToByte(v: int): Byte
  {
    v % 256
  }

  /** The passhash check and the byte loop of CConfiguration.cpp:134-138 and
      CNickServ.cpp:33-37: byte i comes from characters 2i and 2i+1. */
  function Decode(hex: string): (r: Result<seq<Byte>, string>)
    ensures r.Ok? <==> |hex| == 2 * DigestLength
    ensures r.Err? ==> r.error == LengthError
    ensures r.Ok? ==> |r.value| == DigestLength
    ensures r.Ok? ==> forall i :: 0 <= i < DigestLength ==> r.value[i] == ToByte(Strtol16(hex[2 * i], hex[2 * i + 1]))
  {
    if |hex| != 2 * DigestLength then Err(LengthError)
    else Ok(seq(DigestLength, i requires 0 <= i < DigestLength => ToByte(Strtol16(hex[2 * i], hex[2 * i + 1]))))
  }

  /** The decoding loop over a fixed-size buffer. */
  method DecodePasshash(hex: string) returns (r: Result<seq<Byte>, string>)
    ensures r == Decode(hex)
  {
    if |hex| != 2 * DigestLength {
      return Err(LengthError);
    }
    var binary := new Byte[DigestLength];
    for i := 0 to DigestLength
      invariant forall j :: 0 <= j < i ==> binary[j] == ToByte(Strtol16(hex[2 * j], hex[2 * j + 1]))
    {
      binary[i] := ToByte(Strtol16(hex[2 * i], hex[2 * i + 1]));
    }
    assert binary[..] == Decode(hex).value;
    r := Ok(binary[..]);
  }

  // ---------------------------------------------------------------- encoding

  function HexChar(v: nat): (c: char)
    requires v < 16
    ensures IsHexDigit(c) && HexValue(c) == v
  {
    if v < 10 then ('0' as int + v) as char else ('a' as int + v - 10) as char
  }

  /** Lower-case hexadecimal, two characters per byte, high half first: how
      PHP's hash() and the sha512sum tool write a digest. */
  function Encode(bytes: seq<Byte>): (hex: string)
    ensures |hex| == 2 * |bytes|
  {
    seq(2 * |bytes|, k requires 0 <= k < 2 * |bytes| =>
      if k % 2 == 0 then HexChar(bytes[k / 2] / 16) else HexChar(bytes[k / 2] % 16))
  }

  /** A digest written in hexadecimal is decoded back to itself. */
  lemma DecodeEncode(bytes: seq<Byte>)
    requires |bytes| == DigestLength
    ensures Decode(Encode(bytes)) == Ok(bytes)
  {
    var hex := Encode(bytes);
    var d := Decode(hex).value;
    forall i | 0 <= i < DigestLength ensures d[i] == bytes[i] {
      assert (2 * i) / 2 == i && (2 * i) % 2 == 0;
      assert (2 * i + 1) / 2 == i && (2 * i + 1) % 2 == 1;
      assert hex[2 * i] == HexChar(bytes[i] / 16);
      assert hex[2 * i + 1] == HexChar(bytes[i] % 16);
      assert Strtol16(hex[2 * i], hex[2 * i + 1]) == 16 * (bytes[i] / 16) + bytes[i] % 16;
    }
    assert d == bytes;
  }

  // ------------------------------------------------------------------ tables

  /** The key a users-file entry is stored under: lowercased by the server's
      configuration, taken as written by NickServ. */
  function KeyOf(s: Setting, lowercase: bool): string
  {
    if lowercase then Lower(s.key) else s.key
  }

  /** The entries decoded and inserted in order. std::map::insert keeps the
      first digest stored under a key; the first bad passhash aborts. */
  function Table(users: seq<Setting>, lowercase: bool): (r: Result<map<string, seq<Byte>>, string>)
    ensures r.Err? ==> r.error == LengthError
    decreases |users|
  {
    if users == [] then Ok(map[])
    else
      var last := users[|users| - 1];
      match Table(users[..|users| - 1], lowercase)
      case Err(e) => Err(e)
      case Ok(m) =>
        match Decode(last.value)
        case Err(e) => Err(e)
        case Ok(h) =>
          var k := KeyOf(last, lowercase);
          Ok(if k in m then m else m[k := h])
  }

  predicate AllWellSized(users: seq<Setting>)
  {
    forall i :: 0 <= i < |users| ==> |users[i].value| == 2 * DigestLength
  }

  /** The table is built exactly when every passhash has 128 characters. */
  lemma {:induction false} TableOk(users: seq<Setting>, lowercase: bool)
    ensures Table(users, lowercase).Ok? <==> AllWellSized(users)
    decreases |users|
  {
    if users != [] {
      var init := users[..|users| - 1];
      TableOk(init, lowercase);
      assert AllWellSized(users) <==> AllWellSized(init) && |users[|users| - 1].value| == 2 * DigestLength by {
        assert forall i :: 0 <= i < |init| ==> init[i] == users[i];
      }
    }
  }

  /** The keys are the entries' keys. */
  lemma {:induction false} TableKeys(users: seq<Setting>, lowercase: bool)
    requires Table(users, lowercase).Ok?
    ensures Table(users, lowercase).value.Keys == set i | 0 <= i < |users| :: KeyOf(users[i], lowercase)
    decreases |users|
  {
    if users != [] {
      var init := users[..|users| - 1];
      TableKeys(init, lowercase);
      var all := set i | 0 <= i < |users| :: KeyOf(users[i], lowercase);
      var before := set i | 0 <= i < |init| :: KeyOf(init[i], lowercase);
      assert all == before + {KeyOf(users[|users| - 1], lowercase)} by {
        forall k | k in all ensures k in before + {KeyOf(users[|users| - 1], lowercase)} {
          var i :| 0 <= i < |users| && KeyOf(users[i], lowercase) == k;
          if i < |init| {
            assert init[i] == users[i];
          }
        }
        forall k | k in before ensures k in all {
          var i :| 0 <= i < |init| && KeyOf(init[i], lowercase) == k;
          assert init[i] == users[i];
        }
      }
    }
  }

  /** Under each key stands the digest of the first entry with that key. */
  lemma {:induction false} TableFirst(users: seq<Setting>, lowercase: bool, i: nat)
    requires Table(users, lowercase).Ok?
    requires i < |users|
    requires forall j :: 0 <= j < i ==> KeyOf(users[j], lowercase) != KeyOf(users[i], lowercase)
    ensures KeyOf(users[i], lowercase) in Table(users, lowercase).value
    ensures Ok(Table(users, lowercase).value[KeyOf(users[i], lowercase)]) == Decode(users[i].value)
    decreases |users|
  {
    var init := users[..|users| - 1];
    var k := KeyOf(users[i], lowercase);
    var m := Table(init, lowercase).value;
    if i < |init| {
      TableFirst(init, lowercase, i);
      assert init[i] == users[i];
    } else {
      TableKeys(init, lowercase);
      assert forall j :: 0 <= j < |init| ==> init[j] == users[j];
    }
  }

  /** The loop of CConfiguration::ReadConfigFiles and CNickServ::Init over
      the entries of a users file. */
  method LoadPasshashes(users: seq<Setting>, lowercase: bool) returns (r: Result<map<string, seq<Byte>>, string>)
    ensures r == Table(users, lowercase)
  {
    var table: map<string, seq<Byte>> := map[];
    for i := 0 to |users|
      invariant Table(users[..i], lowercase) == Ok(table)
    {
      assert users[..i + 1][..i] == users[..i];
      var binary := DecodePasshash(users[i].value);
      if binary.Err? {
        TableOk(users, lowercase);
        return Err(binary.error);
      }
      var k := KeyOf(users[i], lowercase);
      if k !in table {
        table := table[k := binary.value];
      }
    }
    assert users[..|users|] == users;
    r := Ok(table);
  }
}
