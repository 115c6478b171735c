/** String helpers with the semantics of the Rust `str` methods the source calls.
    Case mapping and whitespace are ASCII only (the source's are Unicode-aware). */
module Text {
  import opened Wrappers

  // ---------------------------------------------------------------- case and whitespace

  function LowerChar(c: char): char
  {
    if 'A' <= c <= 'Z' then (c as int + 32) as char else c
  }

  /** `str::to_lowercase`, restricted to ASCII letters. */
  function Lower(s: string): (r: string)
    ensures |r| == |s|
    ensures forall i :: 0 <= i < |s| ==> r[i] == LowerChar(s[i])
  {
    seq(|s|, i requires 0 <= i < |s| => LowerChar(s[i]))
  }

  /** ASCII white space: space, tab, line feed, vertical tab, form feed, carriage return. */
  predicate IsSpace(c: char)
  {
    c == ' ' || 9 <= c as int <= 13
  }

  function TrimStart(s: string): (r: string)
    ensures |r| <= |s| && r == s[|s| - |r|..]
    ensures |r| > 0 ==> !IsSpace(r[0])
  {
    if |s| > 0 && IsSpace(s[0]) then TrimStart(s[1..]) else s
  }

  function TrimEnd(s: string): (r: string)
    ensures |r| <= |s| && r == s[..|r|]
    ensures |r| > 0 ==> !IsSpace(r[|r| - 1])
  {
    if |s| > 0 && IsSpace(s[|s| - 1]) then TrimEnd(s[..|s| - 1]) else s
  }

  /** `str::trim`. */
  function Trim(s: string): string
  {
    TrimEnd(TrimStart(s))
  }

  /** No white space at either end. */
  predicate Trimmed(s: string)
  {
    |s| == 0 || (!IsSpace(s[0]) && !IsSpace(s[|s| - 1]))
  }

  /** `trim` gives a trimmed string, made of characters of its argument. */
  lemma TrimIsTrimmed(s: string)
    ensures Trimmed(Trim(s))
    ensures forall c :: c in Trim(s) ==> c in s
  {
    var t := TrimStart(s);
    var r := TrimEnd(t);
    if |r| > 0 {
      assert r[0] == t[0];
    }
    forall c | c in r
      ensures c in s
    {
      var i :| 0 <= i < |r| && r[i] == c;
      assert t[i] == c;
      assert s[|s| - |t| + i] == c;
    }
  }

  /** One space on each side of a trimmed string is trimmed away. */
  lemma TrimPadded(s: string)
    requires Trimmed(s)
    ensures Trim(" " + s + " ") == s
  {
    var t := " " + s + " ";
    assert t[1..] == s + " ";
    if |s| == 0 {
      assert TrimStart(t) == TrimStart(t[1..]) == "";
    } else {
      assert TrimStart(s + " ") == s + " ";
      assert (s + " ")[..|s|] == s;
      assert TrimEnd(s) == s;
    }
  }

  /** A trimmed string is its own trim, and so is one space before it. */
  lemma TrimOfTrimmed(s: string)
    requires Trimmed(s)
    ensures Trim(s) == s
    ensures Trim(" " + s) == s
  {
    assert (" " + s)[1..] == s;
  }

  // ---------------------------------------------------------------- searching

  predicate StartsWith(s: string, prefix: string)
  {
    |prefix| <= |s| && s[..|prefix|] == prefix
  }

  lemma StartsWithFirst(s: string, prefix: string)
    ensures StartsWith(s, prefix) && |prefix| > 0 ==> s[0] == prefix[0]
  {
    if StartsWith(s, prefix) && |prefix| > 0 {
      assert s[..|prefix|][0] == s[0];
    }
  }

  predicate EndsWith(s: string, suffix: string)
  {
    |suffix| <= |s| && s[|s| - |suffix|..] == suffix
  }

  /** `t` occurs in `s` starting at index `p`. */
  predicate OccursAt(s: string, t: string, p: int)
  {
    0 <= p <= |s| - |t| && s[p..p + |t|] == t
  }

  /** `str::contains`: substring containment. */
  ghost predicate Contains(s: string, t: string)
  {
    exists p :: OccursAt(s, t, p)
  }

  /** A substring of a substring is a substring. */
  lemma ContainsTransitive(s: string, t: string, u: string)
    requires Contains(s, t) && Contains(t, u)
    ensures Contains(s, u)
  {
    var p :| OccursAt(s, t, p);
    var q :| OccursAt(t, u, q);
    forall k | 0 <= k < |u|
      ensures s[p + q..p + q + |u|][k] == u[k]
    {
      assert u[k] == t[q + k] == s[p + q + k];
    }
    assert OccursAt(s, u, p + q);
  }

  lemma StartsWithContains(s: string, t: string)
    requires StartsWith(s, t)
    ensures Contains(s, t)
  {
    assert OccursAt(s, t, 0);
  }

  /** The start of a contained string is contained. */
  lemma ContainsStartOf(s: string, t: string, u: string)
    requires Contains(s, t) && StartsWith(t, u)
    ensures Contains(s, u)
  {
    StartsWithContains(t, u);
    ContainsTransitive(s, t, u);
  }

  /** `str::find(c)`: the index of the first occurrence of `c`. */
  function FindFirst(s: string, c: char): (r: Option<nat>)
    ensures r.None? ==> c !in s
    ensures r.Some? ==> r.value < |s| && s[r.value] == c && c !in s[..r.value]
  {
    if |s| == 0 then None
    else if s[0] == c then Some(0)
    else match FindFirst(s[1..], c)
      case None => None
      case Some(i) => Some(i + 1)
  }

  /** `str::rfind(c)`: the index of the last occurrence of `c`. */
  function FindLast(s: string, c: char): (r: Option<nat>)
    ensures r.None? ==> c !in s
    ensures r.Some? ==> r.value < |s| && s[r.value] == c && c !in s[r.value + 1..]
  {
    if |s| == 0 then None
    else if s[|s| - 1] == c then Some(|s| - 1)
    else FindLast(s[..|s| - 1], c)
  }

  /** `find` returns the first occurrence when there is one... */
  lemma FindFirstAt(s: string, c: char, i: nat)
    requires i < |s| && s[i] == c && c !in s[..i]
    ensures FindFirst(s, c) == Some(i)
  {
  }

  /** ... and nothing when there is none. */
  lemma FindFirstAbsent(s: string, c: char)
    requires c !in s
    ensures FindFirst(s, c) == None
  {
  }

  lemma FindLastAt(s: string, c: char, i: nat)
    requires i < |s| && s[i] == c && c !in s[i + 1..]
    ensures FindLast(s, c) == Some(i)
  {
  }

  lemma FindLastAbsent(s: string, c: char)
    requires c !in s
    ensures FindLast(s, c) == None
  {
  }

  /** `str::split(c)`: the pieces between occurrences of `c`, empty ones included. */
  function Split(s: string, c: char): (r: seq<string>)
    ensures |r| > 0
    ensures forall i :: 0 <= i < |r| ==> c !in r[i]
    decreases |s|
  {
    match FindFirst(s, c)
    case None => [s]
    case Some(i) => [s[..i]] + Split(s[i + 1..], c)
  }

  /** The first piece of a split is the text before the first separator, or all of
      the text when there is none. */
  lemma SplitFirstPiece(s: string, c: char)
    ensures StartsWith(s, Split(s, c)[0])
    ensures Split(s, c)[0] == s || s[|Split(s, c)[0]|] == c
  {
  }

  /** `[&str]::join(sep)`. */
  function Join(parts: seq<string>, sep: string): string
  {
    if |parts| == 0 then ""
    else if |parts| == 1 then parts[0]
    else parts[0] + sep + Join(parts[1..], sep)
  }

  /** A join starts with its first part. */
  lemma JoinStartsWith(parts: seq<string>, sep: string)
    requires |parts| > 0
    ensures StartsWith(Join(parts, sep), parts[0])
  {
  }

  /** Each part after the first, with a space before it. */
  function Spaced(parts: seq<string>): (r: seq<string>)
    ensures |r| == |parts|
    ensures forall i :: 0 <= i < |parts| ==> r[i] == " " + parts[i]
  {
    seq(|parts|, i requires 0 <= i < |parts| => " " + parts[i])
  }

  /** Splitting a `", "`-join of comma-free parts at the commas gives the parts back,
      each after the first led by the space of the separator. */
  lemma SplitJoined(parts: seq<string>)
    requires |parts| > 0
    requires forall p :: p in parts ==> ',' !in p
    ensures Split(Join(parts, ", "), ',') == [parts[0]] + Spaced(parts[1..])
  {
    assert forall i :: 0 <= i < |parts| ==> parts[i] in parts;
    assert "" + Join(parts, ", ") == Join(parts, ", ");
    assert "" + parts[0] == parts[0];
    SplitJoin("", parts);
  }

  /** The same after any comma-free text. */
  lemma {:induction false} SplitJoin(q: string, parts: seq<string>)
    requires ',' !in q && |parts| > 0
    requires forall i :: 0 <= i < |parts| ==> ',' !in parts[i]
    ensures Split(q + Join(parts, ", "), ',') == [q + parts[0]] + Spaced(parts[1..])
    decreases |parts|
  {
    if |parts| == 1 {
      assert q + Join(parts, ", ") == q + parts[0];
      FindFirstAbsent(q + parts[0], ',');
      assert Spaced(parts[1..]) == [];
    } else {
      var others := parts[1..];
      var rest := Join(others, ", ");
      JoinCons(parts, ", ");
      assert q + Join(parts, ", ") == (q + parts[0]) + "," + (" " + rest);
      assert forall i :: 0 <= i < |others| ==> others[i] == parts[i + 1];
      SplitJoin(" ", others);
      SplitAtFirst(q + parts[0], " " + rest);
      SplitJoinStep(q + parts[0], others, Split(q + Join(parts, ", "), ','), Split(" " + rest, ','));
    }
  }

  /** One more part in front: its piece, then the spaced pieces of the others. */
  lemma SplitJoinStep(head: string, others: seq<string>, pieces: seq<string>, tail: seq<string>)
    requires |others| > 0
    requires pieces == [head] + tail && tail == [" " + others[0]] + Spaced(others[1..])
    ensures pieces == [head] + Spaced(others)
  {
    assert Spaced(others) == [" " + others[0]] + Spaced(others[1..]);
  }

  lemma JoinCons(parts: seq<string>, sep: string)
    requires |parts| > 1
    ensures Join(parts, sep) == parts[0] + sep + Join(parts[1..], sep)
  {
  }

  /** Text before the first comma is the first piece of the split. */
  lemma SplitAtFirst(head: string, tail: string)
    requires ',' !in head
    ensures Split(head + "," + tail, ',') == [head] + Split(tail, ',')
  {
    var s := head + "," + tail;
    assert s[..|head|] == head && s[|head| + 1..] == tail;
    FindFirstAt(s, ',', |head|);
  }

  // ---------------------------------------------------------------- decimal numbers

  predicate IsDigit(c: char)
  {
    '0' <= c <= '9'
  }

  predicate AllDigits(s: string)
  {
    forall i :: 0 <= i < |s| ==> IsDigit(s[i])
  }

  function DigitChar(d: nat): char
    requires d < 10
  {
    (48 + d) as char
  }

  /** The value of a string of decimal digits, most significant first. */
  function DigitsValue(s: string): nat
    requires AllDigits(s)
  {
    if |s| == 0 then 0 else DigitsValue(s[..|s| - 1]) * 10 + (s[|s| - 1] as int - 48)
  }

  /** Rust's `{}` formatting of an unsigned integer. */
  function Decimal(n: nat): (r: string)
    ensures |r| > 0 && AllDigits(r)
  {
    if n < 10 then [DigitChar(n)] else Decimal(n / 10) + [DigitChar(n % 10)]
  }

  lemma {:induction false} DecimalValue(n: nat)
    ensures DigitsValue(Decimal(n)) == n
  {
    if n >= 10 {
      DecimalValue(n / 10);
      var r := Decimal(n);
      assert r[..|r| - 1] == Decimal(n / 10);
    }
  }

  /** `str::parse::<u16>()`: an optional `+`, then at least one ASCII digit,
      with a value of at most 65535. */
  function ParseU16(s: string): (r: Option<nat>)
    ensures r.Some? ==> r.value <= 0xFFFF
  {
    if |s| == 0 || s == "+" then None
    else
      var digits := if s[0] == '+' then s[1..] else s;
      if AllDigits(digits) && DigitsValue(digits) <= 0xFFFF then Some(DigitsValue(digits)) else None
  }

  /** Parsing inverts decimal formatting on the whole `u16` range. */
  lemma DecimalParsesBack(n: nat)
    requires n <= 0xFFFF
    ensures ParseU16(Decimal(n)) == Some(n)
  {
    DecimalValue(n);
    var d := Decimal(n);
    assert IsDigit(d[0]);
  }

  // ---------------------------------------------------------------- hexadecimal numbers

  function HexChar(d: nat): char
    requires d < 16
  {
    if d < 10 then (48 + d) as char else (87 + d) as char
  }

  predicate IsHexDigit(c: char)
  {
    '0' <= c <= '9' || 'a' <= c <= 'f'
  }

  predicate AllHex(s: string)
  {
    forall i :: 0 <= i < |s| ==> IsHexDigit(s[i])
  }

  function HexDigitValue(c: char): nat
    requires IsHexDigit(c)
  {
    if c <= '9' then c as int - 48 else c as int - 87
  }

  function HexValue(s: string): nat
    requires AllHex(s)
  {
    if |s| == 0 then 0 else HexValue(s[..|s| - 1]) * 16 + HexDigitValue(s[|s| - 1])
  }

  /** Lower-case hexadecimal digits of `n`, without leading zeros. */
  function HexDigits(n: nat): (r: string)
    ensures |r| > 0 && AllHex(r)
  {
    if n < 16 then [HexChar(n)] else HexDigits(n / 16) + [HexChar(n % 16)]
  }

  function Zeros(k: nat): (r: string)
    ensures |r| == k && AllHex(r)
  {
    seq(k, _ => '0')
  }

  /** Rust's `{:0width$x}` formatting: zero-padded to at least `width` digits. */
  function PaddedHex(n: nat, width: nat): (r: string)
    ensures AllHex(r) && |r| >= width
  {
    var d := HexDigits(n);
    if |d| >= width then d else Zeros(width - |d|) + d
  }

  lemma {:induction false} HexDigitsValue(n: nat)
    ensures HexValue(HexDigits(n)) == n
  {
    if n >= 16 {
      HexDigitsValue(n / 16);
      var r := HexDigits(n);
      assert r[..|r| - 1] == HexDigits(n / 16);
    }
  }

  lemma {:induction false} LeadingZerosValue(k: nat, s: string)
    requires AllHex(s)
    ensures HexValue(Zeros(k) + s) == HexValue(s)
    decreases |s|
  {
    var z := Zeros(k) + s;
    if |s| == 0 {
      assert z == Zeros(k);
      ZerosValue(k);
    } else {
      assert z[..|z| - 1] == Zeros(k) + s[..|s| - 1];
      LeadingZerosValue(k, s[..|s| - 1]);
    }
  }

  lemma {:induction false} ZerosValue(k: nat)
    ensures HexValue(Zeros(k)) == 0
  {
    if k > 0 {
      assert Zeros(k)[..k - 1] == Zeros(k - 1);
      ZerosValue(k - 1);
    }
  }

  /** Zero-padded hexadecimal formatting is injective: the number is read back. */
  lemma PaddedHexValue(n: nat, width: nat)
    ensures HexValue(PaddedHex(n, width)) == n
  {
    HexDigitsValue(n);
    var d := HexDigits(n);
    if |d| < width {
      assert PaddedHex(n, width) == Zeros(width - |d|) + d;
      LeadingZerosValue(width - |d|, d);
    } else {
      assert PaddedHex(n, width) == d;
    }
  }
}
