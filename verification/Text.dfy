/** The text handling the service relies on: splitting, trimming, decimal numbers and
    hexadecimal, over strings of bytes. */
module Text {
  import opened Entities
  import opened Int64

  /** The parts of `s` between separators; one part more than there are separators. */
  function Split(s: string, sep: char): (parts: seq<string>)
    ensures |parts| >= 1
    ensures forall p | p in parts :: sep !in p
    ensures sep !in s ==> parts == [s]
  {
    if sep !in s then [s]
    else
      var i := FirstIndex(s, sep);
      [s[..i]] + Split(s[i + 1..], sep)
  }

  function FirstIndex(s: string, c: char): (i: nat)
    requires c in s
    ensures i < |s| && s[i] == c && c !in s[..i]
  {
    if s[0] == c then 0
    else
      assert c in s[1..];
      var j := FirstIndex(s[1..], c);
      assert s[..j + 1] == [s[0]] + s[1..][..j];
      j + 1
  }

  /** Splits at the first separator only, if there is one. */
  function Cut(s: string, sep: char): (r: Option<(string, string)>)
    ensures r.Some? ==> s == r.value.0 + [sep] + r.value.1 && sep !in r.value.0
    ensures r.None? <==> sep !in s
  {
    if sep !in s then None
    else
      var i := FirstIndex(s, sep);
      Some((s[..i], s[i + 1..]))
  }

  lemma FirstIndexIs(a: string, c: char, b: string)
    requires c !in a
    ensures FirstIndex(a + [c] + b, c) == |a|
  {
    var s := a + [c] + b;
    var i := FirstIndex(s, c);
    assert s[|a|] == c;
    assert forall k | 0 <= k < |a| :: s[k] == a[k] && s[k] != c;
    assert forall k | 0 <= k < i :: s[..i][k] == s[k] && s[k] != c;
  }

  lemma SplitAt(a: string, sep: char, b: string)
    requires sep !in a
    ensures Split(a + [sep] + b, sep) == [a] + Split(b, sep)
  {
    FirstIndexIs(a, sep, b);
    var s := a + [sep] + b;
    assert s[..|a|] == a && s[|a| + 1..] == b;
    assert s[|a|] == sep;
  }

  lemma CutAt(a: string, sep: char, b: string)
    requires sep !in a
    ensures Cut(a + [sep] + b, sep) == Some((a, b))
  {
    FirstIndexIs(a, sep, b);
    var s := a + [sep] + b;
    assert s[..|a|] == a && s[|a| + 1..] == b;
    assert s[|a|] == sep;
  }

  predicate IsSpace(c: char) {
    c == ' ' || c == '\t' || c == '\n' || c == '\r' || c == 11 as char || c == 12 as char
  }

  /** Without the white space at either end. */
  function TrimSpace(s: string): (r: string)
    ensures |r| <= |s|
    ensures r != "" ==> !IsSpace(r[0]) && !IsSpace(r[|r| - 1])
  {
    if s == "" then ""
    else if IsSpace(s[0]) then TrimSpace(s[1..])
    else if IsSpace(s[|s| - 1]) then TrimSpace(s[..|s| - 1])
    else s
  }

  predicate AllSpace(s: string) {
    forall i | 0 <= i < |s| :: IsSpace(s[i])
  }

  /** Nothing at the ends to remove. */
  predicate IsCore(s: string) {
    s != "" ==> !IsSpace(s[0]) && !IsSpace(s[|s| - 1])
  }

  lemma {:induction false} TrimDropsBefore(before: string, rest: string)
    requires AllSpace(before)
    ensures TrimSpace(before + rest) == TrimSpace(rest)
  {
    if before == "" {
      assert before + rest == rest;
    } else {
      TrimDropsBefore(before[1..], rest);
      assert (before + rest)[1..] == before[1..] + rest;
    }
  }

  lemma {:induction false} TrimDropsAfter(core: string, after: string)
    requires AllSpace(after) && IsCore(core)
    ensures TrimSpace(core + after) == core
    decreases |after|
  {
    var s := core + after;
    if after == "" {
      assert s == core;
    } else if core == "" {
      TrimDropsBefore(after, "");
      assert s == after + "";
    } else {
      TrimDropsAfter(core, after[..|after| - 1]);
      assert s[..|s| - 1] == core + after[..|after| - 1];
    }
  }

  /** White space around a text that neither begins nor ends with any is what is removed. */
  lemma TrimDropsPadding(before: string, core: string, after: string)
    requires AllSpace(before) && AllSpace(after) && IsCore(core)
    ensures TrimSpace(before + core + after) == core
  {
    assert before + core + after == before + (core + after);
    TrimDropsBefore(before, core + after);
    TrimDropsAfter(core, after);
  }

  /** What counts as white space: the six ASCII characters, and no letter, digit or mark. */
  lemma SpacesAre(c: char)
    ensures IsSpace(c) <==> c in {' ', '\t', '\n', '\r', '\U{000b}', '\U{000c}'}
  {
  }

  // ---- decimal ----

  predicate IsDigit(c: char) {
    '0' <= c <= '9'
  }

  predicate AllDigits(s: string) {
    forall i | 0 <= i < |s| :: IsDigit(s[i])
  }

  function DecimalValue(s: string): nat
    requires AllDigits(s)
  {
    if s == "" then 0
    else 10 * DecimalValue(s[..|s| - 1]) + (s[|s| - 1] - '0') as nat
  }

  /** A signed decimal number that fits 64 bits; None when it does not parse. */
  function ParseInt64(s: string): (r: Option<int>)
    ensures r.Some? ==> Fits(r.value)
  {
    if s == "" then None
    else
      var signed := s[0] == '+' || s[0] == '-';
      var digits := if signed then s[1..] else s;
      if digits == "" || !AllDigits(digits) then None
      else
        var v: int := if s[0] == '-' then 0 - DecimalValue(digits) else DecimalValue(digits);
        if Fits(v) then Some(v) else None
  }

  /** The canonical decimal text of a number. */
  function FormatNat(n: nat): (s: string)
    ensures s != "" && AllDigits(s)
  {
    var last := [('0' as int + n % 10) as char];
    if n < 10 then last else FormatNat(n / 10) + last
  }

  function FormatInt(n: int): string {
    if n < 0 then "-" + FormatNat(-n) else FormatNat(n)
  }

  lemma {:induction false} DecimalOfFormat(n: nat)
    ensures DecimalValue(FormatNat(n)) == n
  {
    var s := FormatNat(n);
    var last := ('0' as int + n % 10) as char;
    if n < 10 {
      assert s == [last] && s[..0] == "";
    } else {
      DecimalOfFormat(n / 10);
      assert s[..|s| - 1] == FormatNat(n / 10);
    }
  }

  /** Reading back the text of a 64-bit number gives the number. */
  lemma ParseUndoesFormat(n: int)
    requires Fits(n)
    ensures ParseInt64(FormatInt(n)) == Some(n)
    ensures TrimSpace(FormatInt(n)) == FormatInt(n)
  {
    var s := FormatInt(n);
    var digits := FormatNat(if n < 0 then -n else n);
    DecimalOfFormat(if n < 0 then -n else n);
    assert IsDigit(digits[0]) && IsDigit(digits[|digits| - 1]);
    if n < 0 {
      assert s[1..] == digits;
    }
  }

  /** Leading zeros change nothing, and a plus sign is allowed. */
  lemma {:induction false} PaddedParses(zeros: nat, n: nat)
    requires Fits(n)
    ensures ParseInt64(Zeros(zeros) + FormatNat(n)) == Some(n)
    ensures ParseInt64("+" + FormatNat(n)) == Some(n)
  {
    var digits := FormatNat(n);
    PaddedValue(zeros, n);
    DecimalOfFormat(n);
    assert ("+" + digits)[1..] == digits;
    var padded := Zeros(zeros) + digits;
    assert IsDigit(padded[0]);
  }

  function Zeros(n: nat): (s: string)
    ensures |s| == n && forall i | 0 <= i < n :: s[i] == '0'
  {
    seq(n, _ => '0')
  }

  lemma {:induction false} PaddedValue(zeros: nat, n: nat)
    ensures AllDigits(Zeros(zeros) + FormatNat(n))
    ensures DecimalValue(Zeros(zeros) + FormatNat(n)) == n
  {
    var s := Zeros(zeros) + FormatNat(n);
    var last := [('0' as int + n % 10) as char];
    if n < 10 {
      assert s[..|s| - 1] == Zeros(zeros);
      ZerosAreZero(zeros);
    } else {
      PaddedValue(zeros, n / 10);
      assert FormatNat(n) == FormatNat(n / 10) + last;
      assert s[..|s| - 1] == Zeros(zeros) + FormatNat(n / 10);
    }
  }

  lemma {:induction false} ZerosAreZero(n: nat)
    ensures DecimalValue(Zeros(n)) == 0
  {
    if n > 0 {
      assert Zeros(n)[..n - 1] == Zeros(n - 1);
      ZerosAreZero(n - 1);
    }
  }

  /** A number that does not fit 64 bits is refused, as is a text with anything but digits
      after its sign. */
  lemma OthersDoNotParse(n: int, s: string, i: nat)
    ensures !Fits(n) ==> ParseInt64(FormatInt(n)) == None
    ensures i < |s| && !IsDigit(s[i]) && (i > 0 || (s[i] != '+' && s[i] != '-')) ==> ParseInt64(s) == None
    ensures ParseInt64("") == ParseInt64("+") == ParseInt64("-") == None
  {
    var digits := FormatNat(if n < 0 then -n else n);
    DecimalOfFormat(if n < 0 then -n else n);
    assert IsDigit(digits[0]);
    assert n < 0 ==> FormatInt(n)[1..] == digits;
    if 0 < i < |s| {
      assert s[1..][i - 1] == s[i];
    }
    assert "+"[1..] == "" && "-"[1..] == "";
  }

  // ---- hexadecimal ----

  predicate IsHexDigit(c: char) {
    '0' <= c <= '9' || 'a' <= c <= 'f' || 'A' <= c <= 'F'
  }

  predicate IsHex(s: string) {
    forall i | 0 <= i < |s| :: IsHexDigit(s[i])
  }

  function HexDigit(n: nat): (c: char)
    requires n < 16
    ensures IsHexDigit(c)
  {
    if n < 10 then ('0' as int + n) as char else ('a' as int + n - 10) as char
  }

  function HexEncode(bytes: seq<Byte>): (s: string)
    ensures IsHex(s) && |s| == 2 * |bytes|
  {
    if bytes == [] then ""
    else [HexDigit(bytes[0] / 16), HexDigit(bytes[0] % 16)] + HexEncode(bytes[1..])
  }

  lemma TrimKeepsHex(s: string)
    requires IsHex(s)
    ensures TrimSpace(s) == s
  {
    if s != "" {
      assert IsHexDigit(s[0]) && IsHexDigit(s[|s| - 1]);
    }
  }

  function HexValue(c: char): int {
    if '0' <= c <= '9' then c as int - '0' as int
    else if 'a' <= c <= 'f' then c as int - 'a' as int + 10
    else -1
  }

  /** The bytes two hexadecimal characters at a time stand for, high half first. */
  function HexDecode(s: string): seq<int> {
    if |s| < 2 then [] else [16 * HexValue(s[0]) + HexValue(s[1])] + HexDecode(s[2..])
  }

  /** Reading the encoding back gives the bytes, so no two byte strings share one. */
  lemma {:induction false} HexReadsBack(bytes: seq<Byte>)
    ensures HexDecode(HexEncode(bytes)) == bytes
  {
    if bytes != [] {
      var rest := HexEncode(bytes[1..]);
      var s := HexEncode(bytes);
      assert s == [HexDigit(bytes[0] / 16), HexDigit(bytes[0] % 16)] + rest;
      assert s[2..] == rest;
      HexReadsBack(bytes[1..]);
    }
  }

  /** The encoding is in lower case. */
  lemma {:induction false} HexIsLowerCase(bytes: seq<Byte>)
    ensures forall i | 0 <= i < 2 * |bytes| :: '0' <= HexEncode(bytes)[i] <= '9' || 'a' <= HexEncode(bytes)[i] <= 'f'
  {
    if bytes != [] {
      HexIsLowerCase(bytes[1..]);
    }
  }

  lemma HexIsInjective(a: seq<Byte>, b: seq<Byte>)
    requires HexEncode(a) == HexEncode(b)
    ensures a == b
  {
    HexReadsBack(a);
    HexReadsBack(b);
  }

  /** Joining the parts with the separator gives the text back. */
  function Join(parts: seq<string>, sep: char): string {
    if parts == [] then "" else if |parts| == 1 then parts[0] else parts[0] + [sep] + Join(parts[1..], sep)
  }

  lemma JoinMore(first: string, rest: seq<string>, sep: char)
    requires rest != []
    ensures Join([first] + rest, sep) == first + [sep] + Join(rest, sep)
  {
    assert ([first] + rest)[1..] == rest;
  }

  lemma SplitFirst(s: string, sep: char)
    requires sep in s
    ensures Split(s, sep) == [s[..FirstIndex(s, sep)]] + Split(s[FirstIndex(s, sep) + 1..], sep)
  {
  }

  lemma JoinOne(s: string, sep: char)
    ensures Join([s], sep) == s
  {
  }

  lemma CutTogether(s: string, i: nat, sep: char)
    requires i < |s| && s[i] == sep
    ensures s[..i] + [sep] + s[i + 1..] == s
  {
  }

  lemma {:induction false} JoinUndoesSplit(s: string, sep: char)
    ensures Join(Split(s, sep), sep) == s
    decreases |s|
  {
    if sep !in s {
      JoinOne(s, sep);
    } else {
      var i := FirstIndex(s, sep);
      var rest := s[i + 1..];
      SplitFirst(s, sep);
      JoinUndoesSplit(rest, sep);
      var parts := Split(rest, sep);
      JoinMore(s[..i], parts, sep);
      CutTogether(s, i, sep);
    }
  }
}
