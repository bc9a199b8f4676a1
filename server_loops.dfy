/** The two loops of CIRCServer that build values: the do-while over a
    comma-separated channel list shared by JOIN, PART and NAMES, and the
    concatenation of NS's parameters. Each is proved to compute the function
    the handlers of module Server are written with. */
module ServerLoops {
  import opened Ascii
  import opened Server

  /** Splitting a suffix at the next separator: the piece before it, then the
      pieces of what follows it. */
  lemma SplitStep(s: string, sep: char, offset: nat, position: nat)
    requires offset <= position <= |s|
    requires position < |s| ==> s[position] == sep
    requires forall j :: offset <= j < position ==> s[j] != sep
    ensures Split(s[offset..], sep) ==
      if position == |s| then [s[offset..]] else [s[offset..position]] + Split(s[position + 1..], sep)
  {
    var t := s[offset..];
    var i := position - offset;
    forall j | 0 <= j < i ensures t[j] != sep {
      assert t[j] == s[offset + j];
    }
    if position < |s| {
      assert t[i] == s[position];
      assert t[..i] == s[offset..position];
      assert t[i + 1..] == s[position + 1..];
    }
    FindUnique(t, sep, 0, i);
  }

  /** The item a piece gives: one leading '#' dropped, lowercased. */
  function Items(pieces: seq<string>): (r: seq<string>)
    ensures |r| == |pieces|
  {
    seq(|pieces|, i requires 0 <= i < |pieces| => Lower(StripHash(pieces[i])))
  }

  lemma ItemsSnoc(pieces: seq<string>, p: string)
    ensures Items(pieces + [p]) == Items(pieces) + [Lower(StripHash(p))]
  {
  }

  /** Skipping the '#' at the item's start is StripHash. */
  lemma SkipHash(s: string, offset: nat, start: nat, position: nat)
    requires offset <= start <= position <= |s|
    requires start == offset || (start == offset + 1 && s[offset] == '#')
    requires start == offset ==> offset == position || s[offset] != '#'
    ensures StripHash(s[offset..position]) == s[start..position]
  {
    if start == offset + 1 {
      assert s[offset..position][1..] == s[start..position];
    }
  }

  /** The do-while of ReceiveMessage_JOIN, _PART and _NAMES over Parameters[0]:
      at each item a leading '#' is skipped, the text up to the next ',' is
      lowercased, and the loop ends after the item that reaches the end. */
  method ChannelList(channels: string) returns (items: seq<string>)
    ensures items == ChannelItems(channels)
  {
    items := [];
    var offset := 0;
    ghost var done: seq<string> := [];
    assert channels[0..] == channels;
    while true
      invariant offset <= |channels|
      invariant items == Items(done)
      invariant Split(channels, ',') == done + Split(channels[offset..], ',')
      decreases |channels| - offset
    {
      var start := offset;
      if start < |channels| && channels[start] == '#' {
        start := start + 1;
      }
      var position := Find(channels, ',', start);
      ListStep(channels, ',', '#', offset, start, position, done);
      SkipHash(channels, offset, start, position);
      ItemsSnoc(done, channels[offset..position]);
      items := items + [Lower(channels[start..position])];
      done := done + [channels[offset..position]];
      if position == |channels| {
        ItemsOfSplit(channels, done);
        return;
      }
      offset := position + 1;
    }
  }

  /** One round of the loop keeps the pieces seen in step. */
  lemma ListStep(s: string, sep: char, hash: char, offset: nat, start: nat, position: nat, done: seq<string>)
    requires hash != sep
    requires offset <= start <= position <= |s|
    requires start == offset || (start == offset + 1 && s[offset] == hash)
    requires position < |s| ==> s[position] == sep
    requires forall j :: start <= j < position ==> s[j] != sep
    requires Split(s, sep) == done + Split(s[offset..], sep)
    ensures position == |s| ==> Split(s, sep) == done + [s[offset..position]]
    ensures position < |s| ==> Split(s, sep) == (done + [s[offset..position]]) + Split(s[position + 1..], sep)
  {
    SplitStep(s, sep, offset, position);
    if position == |s| {
      assert s[offset..] == s[offset..position];
    }
  }

  lemma ItemsOfSplit(channels: string, pieces: seq<string>)
    requires pieces == Split(channels, ',')
    ensures ChannelItems(channels) == Items(pieces)
  {
  }

  /** The NS loop: a space before every parameter once the text is not empty. */
  method JoinParameters(params: seq<string>) returns (parameter: string)
    ensures parameter == SpaceJoin("", params)
  {
    parameter := "";
    for i := 0 to |params|
      invariant SpaceJoin(parameter, params[i..]) == SpaceJoin("", params)
    {
      assert params[i..][1..] == params[i + 1..];
      if parameter != "" {
        parameter := parameter + " ";
      }
      parameter := parameter + params[i];
    }
  }

  /** Once the text is not empty, each further parameter follows a space. */
  lemma {:induction false} SpaceJoinIsJoin(acc: string, words: seq<string>)
    requires acc != ""
    ensures SpaceJoin(acc, words) == Ascii.Join([acc] + words, ' ')
    decreases |words|
  {
    if words != [] {
      var next := acc + " " + words[0];
      SpaceJoinIsJoin(next, words[1..]);
      if |words| == 1 {
        assert [next] + words[1..] == [next];
      } else {
        assert ([acc] + words)[1..] == words;
        assert words[1..] == ([next] + words[1..])[1..];
      }
    }
  }

  /** When the first parameter is not empty, the NS text is the parameters
      with single spaces between them, and a split at spaces (as NickServ
      does it) gives back parameters that hold no space. */
  lemma NsTextSplits(words: seq<string>)
    requires words != [] && words[0] != ""
    requires forall i :: 0 <= i < |words| ==> ' ' !in words[i]
    ensures SpaceJoin("", words) == Ascii.Join(words, ' ')
    ensures Split(SpaceJoin("", words), ' ') == words
  {
    assert AppendWord("", words[0]) == words[0];
    SpaceJoinIsJoin(words[0], words[1..]);
    assert [words[0]] + words[1..] == words;
    SplitJoin(words, ' ');
  }
}
