/** Character classes, case mapping, searching and splitting, as the C library
    (in the "C" locale) and std::string provide them to the server. */
module Ascii {

  predicate IsUpper(c: char) { 'A' <= c <= 'Z' }
  predicate IsLower(c: char) { 'a' <= c <= 'z' }
  predicate IsDigit(c: char) { '0' <= c <= '9' }

  /** tolower: 'A'..'Z' become 'a'..'z', every other character is kept. */
  function ToLower(c: char): (r: char)
    ensures !IsUpper(r)
    ensures IsUpper(c) ==> IsLower(r) && r as int == c as int + 32
    ensures !IsUpper(c) ==> r == c
  {
    if IsUpper(c) then (c as int + 32) as char else c
  }

  /** toupper: 'a'..'z' become 'A'..'Z', every other character is kept. */
  function ToUpper(c: char): (r: char)
    ensures !IsLower(r)
    ensures IsLower(c) ==> IsUpper(r) && r as int == c as int - 32
    ensures !IsLower(c) ==> r == c
  {
    if IsLower(c) then (c as int - 32) as char else c
  }

  /** std::transform(s.begin(), s.end(), s.begin(), tolower) */
  function Lower(s: string): (r: string)
    ensures |r| == |s|
    ensures forall i :: 0 <= i < |s| ==> r[i] == ToLower(s[i])
  {
    seq(|s|, i requires 0 <= i < |s| => ToLower(s[i]))
  }

  /** std::transform(s.begin(), s.end(), s.begin(), toupper) */
  function Upper(s: string): (r: string)
    ensures |r| == |s|
    ensures forall i :: 0 <= i < |s| ==> r[i] == ToUpper(s[i])
  {
    seq(|s|, i requires 0 <= i < |s| => ToUpper(s[i]))
  }

  lemma LowerIdempotent(s: string)
    ensures Lower(Lower(s)) == Lower(s)
  {
  }

  lemma LowerAppend(a: string, b: string)
    ensures Lower(a + b) == Lower(a) + Lower(b)
  {
  }

  /** s.find_first_of(c, from): the first position at or after `from` that holds
      `c`, or |s| (standing for std::string::npos) when there is none. */
  function Find(s: string, c: char, from: nat): (r: nat)
    ensures r <= |s|
    ensures r < |s| ==> from <= r && s[r] == c
    ensures forall j :: from <= j < r ==> s[j] != c
    decreases |s| - from
  {
    if from >= |s| then |s| else if s[from] == c then from else Find(s, c, from + 1)
  }

  /** The three facts of Find's contract pin its value down. */
  lemma FindUnique(s: string, c: char, from: nat, r: nat)
    requires r <= |s|
    requires r < |s| ==> from <= r && s[r] == c
    requires forall j :: from <= j < r ==> s[j] != c
    ensures Find(s, c, from) == r
  {
    var f := Find(s, c, from);
  }

  /** Slices of a suffix are slices of the whole string. */
  lemma SuffixSlices(s: string, k: nat, j: nat)
    requires k <= j < |s|
    ensures s[k..][..j - k] == s[k..j]
    ensures s[k..][j - k + 1..] == s[j + 1..]
  {
  }

  /** Searching a suffix is searching the whole string from the suffix's start. */
  lemma FindSuffix(s: string, c: char, k: nat)
    requires k <= |s|
    ensures Find(s[k..], c, 0) + k == Find(s, c, k)
  {
    var f := Find(s[k..], c, 0);
    forall j | k <= j < f + k ensures s[j] != c {
      assert s[k..][j - k] == s[j];
    }
    if f < |s[k..]| {
      assert s[k..][f] == s[f + k];
    }
    FindUnique(s, c, k, f + k);
  }

  /** A string without `c` followed by `c`: the search stops right there. */
  lemma FindAfter(a: string, c: char, b: string)
    requires c !in a
    ensures Find(a + [c] + b, c, 0) == |a|
  {
    var s := a + [c] + b;
    forall j | 0 <= j < |a| ensures s[j] != c {
      assert s[j] == a[j];
    }
    FindUnique(s, c, 0, |a|);
  }

  lemma FindAbsent(s: string, c: char, from: nat)
    requires forall j :: from <= j < |s| ==> s[j] != c
    ensures Find(s, c, from) == |s|
  {
    FindUnique(s, c, from, |s|);
  }

  /** The pieces of `s` between occurrences of `sep`, as the servers' do-while
      loops over find_first_of(sep) produce them: always at least one piece. */
  function Split(s: string, sep: char): (r: seq<string>)
    ensures |r| >= 1
    ensures forall i :: 0 <= i < |r| ==> sep !in r[i]
    decreases |s|
  {
    var i := Find(s, sep, 0);
    if i == |s| then [s] else [s[..i]] + Split(s[i + 1..], sep)
  }

  /** A slice between two positions none of which holds `c` does not contain `c`. */
  lemma SliceAvoids(s: string, c: char, from: nat, to: nat)
    requires from <= to <= |s|
    requires forall j :: from <= j < to ==> s[j] != c
    ensures c !in s[from..to]
  {
    forall k | 0 <= k < to - from ensures s[from..to][k] != c {
      assert s[from..to][k] == s[from + k];
    }
  }

  /** A string is what stands before position i, s[i], and what follows. */
  lemma Around(s: string, i: nat)
    requires i < |s|
    ensures s == s[..i] + [s[i]] + s[i + 1..]
  {
  }

  /** The two sides of a separator are recovered by slicing. */
  lemma Pieces(a: string, c: char, b: string)
    ensures (a + [c] + b)[..|a|] == a
    ensures (a + [c] + b)[|a| + 1..] == b
  {
  }

  /** The pieces written out again with `sep` between each two of them. */
  function Join(parts: seq<string>, sep: char): string
  {
    if |parts| == 0 then "" else if |parts| == 1 then parts[0] else parts[0] + [sep] + Join(parts[1..], sep)
  }

  /** Splitting loses nothing: the pieces joined again give back the string. */
  lemma {:induction false} JoinSplit(s: string, sep: char)
    ensures Join(Split(s, sep), sep) == s
    decreases |s|
  {
    var i := Find(s, sep, 0);
    if i < |s| {
      JoinSplit(s[i + 1..], sep);
      Around(s, i);
    }
  }

  /** Joining pieces free of `sep` and splitting again gives back the pieces. */
  lemma {:induction false} SplitJoin(parts: seq<string>, sep: char)
    requires |parts| >= 1
    requires forall i :: 0 <= i < |parts| ==> sep !in parts[i]
    ensures Split(Join(parts, sep), sep) == parts
    decreases |parts|
  {
    if |parts| == 1 {
      FindAbsent(parts[0], sep, 0);
    } else {
      var rest := Join(parts[1..], sep);
      FindAfter(parts[0], sep, rest);
      Pieces(parts[0], sep, rest);
      SplitJoin(parts[1..], sep);
    }
  }

  /** What a C function sees of a std::string through c_str(): the characters
      before the first NUL. */
  function CString(s: string): (r: string)
    ensures '\0' !in r
    ensures '\0' !in s ==> r == s
  {
    var n := Find(s, '\0', 0);
    assert forall j :: 0 <= j < n ==> s[..n][j] == s[j];
    if '\0' !in s then FindAbsent(s, '\0', 0); s[..n] else s[..n]
  }

  /** Every character up to the first NUL satisfies `ok`: what a `while(*p)`
      loop over c_str() checks. */
  predicate CStringAll(s: string, ok: char -> bool)
  {
    forall i :: 0 <= i < |CString(s)| ==> ok(CString(s)[i])
  }

  /** The C-style check loop: stops at the NUL, fails at the first bad character. */
  method CheckCString(s: string, ok: char -> bool) returns (r: bool)
    ensures r == CStringAll(s, ok)
  {
    var n := Find(s, '\0', 0);
    var i := 0;
    while i < |s| && s[i] != '\0'
      invariant i <= n
      invariant forall j :: 0 <= j < i ==> ok(s[j])
      decreases |s| - i
    {
      if !ok(s[i]) {
        assert CString(s)[i] == s[i];
        return false;
      }
      i := i + 1;
    }
    FindUnique(s, '\0', 0, i);
    assert forall j :: 0 <= j < |CString(s)| ==> CString(s)[j] == s[j];
    return true;
  }

  // ------------------------------------------------------- decimal numbers

  /** A number written in decimal without leading zeros, as "%u" prints it. */
  function Decimal(n: nat): (r: string)
    ensures |r| > 0
    decreases n
  {
    if n < 10 then [('0' as int + n) as char]
    else Decimal(n / 10) + [('0' as int + n % 10) as char]
  }

  predicate AllDigits(s: string)
  {
    forall i :: 0 <= i < |s| ==> IsDigit(s[i])
  }

  /** The value of a string of decimal digits, as `stream >> number` reads it
      (unbounded: a value too wide for the C++ variable is not modelled). */
  function DecimalValue(s: string): nat
    requires AllDigits(s)
    decreases |s|
  {
    if s == [] then 0
    else DecimalValue(s[..|s| - 1]) * 10 + (s[|s| - 1] as int - '0' as int)
  }

  /** What "%u" prints is a digit string that reads back as the same number. */
  lemma {:induction false} DecimalRoundTrip(n: nat)
    ensures AllDigits(Decimal(n))
    ensures DecimalValue(Decimal(n)) == n
    decreases n
  {
    if n >= 10 {
      DecimalRoundTrip(n / 10);
      var d := Decimal(n / 10);
      assert Decimal(n)[..|Decimal(n)| - 1] == d;
    }
  }
}
