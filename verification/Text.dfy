/** Strings as the bot handles them: case, blanks, hexadecimal and decimal numerals (ASCII). */
module Text {
  import opened Prelude

  // --- case and blanks -----------------------------------------------------

  function LowerChar(c: char): char {
    if 'A' <= c <= 'Z' then c + 32 as char else c
  }

  function Lower(s: string): (r: string)
    ensures |r| == |s|
    ensures forall i :: 0 <= i < |s| ==> r[i] == LowerChar(s[i])
  {
    seq(|s|, i requires 0 <= i < |s| => LowerChar(s[i]))
  }

  predicate IsBlank(c: char) {
    c == ' ' || '\t' <= c <= '\r' || '\U{1C}' <= c <= '\U{1F}'
  }

  function StripLeft(s: string): string {
    if s != "" && IsBlank(s[0]) then StripLeft(s[1..]) else s
  }

  function StripRight(s: string): string {
    if s != "" && IsBlank(s[|s| - 1]) then StripRight(s[..|s| - 1]) else s
  }

  function Strip(s: string): string {
    StripRight(StripLeft(s))
  }

  ghost predicate NoBlanks(s: string) {
    forall c :: c in s ==> !IsBlank(c)
  }

  predicate StartsWith(s: string, prefix: string) {
    |prefix| <= |s| && s[..|prefix|] == prefix
  }

  /** The ASCII characters that Python's strip removes. */
  const BLANKS := " \t\n\U{0B}\U{0C}\r\U{1C}\U{1D}\U{1E}\U{1F}"

  ghost predicate OnlyBlanks(s: string) {
    forall c :: c in s ==> c in BLANKS
  }

  /** Text that neither begins nor ends with a blank. */
  predicate Bare(s: string) {
    s != "" ==> s[0] !in BLANKS && s[|s| - 1] !in BLANKS
  }

  lemma BlankIff(c: char)
    ensures IsBlank(c) <==> c in BLANKS
  {
    if IsBlank(c) {
      assert c == ' ' || c == BLANKS[1] || c == BLANKS[2] || c == BLANKS[3] || c == BLANKS[4] || c == BLANKS[5]
             || c == BLANKS[6] || c == BLANKS[7] || c == BLANKS[8] || c == BLANKS[9];
    }
  }

  /** Stripping takes away the blanks around a text, and nothing of the text. */
  lemma {:induction false} StripTakesBlanks(before: string, core: string, after: string)
    requires OnlyBlanks(before) && OnlyBlanks(after) && Bare(core)
    ensures Strip(before + core + after) == core
  {
    var s := before + core + after;
    if before != "" {
      BlankIff(s[0]);
      assert before[0] in before && s[1..] == before[1..] + core + after;
      StripTakesBlanks(before[1..], core, after);
    } else if core == "" {
      AllStripped(after);
      assert s == after;
    } else {
      BlankIff(s[0]);
      assert s == core + after && StripLeft(s) == s;
      RightStripped(core, after);
    }
  }

  lemma {:induction false} AllStripped(s: string)
    requires OnlyBlanks(s)
    ensures StripLeft(s) == ""
  {
    if s != "" {
      BlankIff(s[0]);
      AllStripped(s[1..]);
    }
  }

  lemma {:induction false} RightStripped(core: string, after: string)
    requires core != "" && Bare(core) && OnlyBlanks(after)
    ensures StripRight(core + after) == core
  {
    var s := core + after;
    BlankIff(s[|s| - 1]);
    if after != "" {
      assert s[..|s| - 1] == core + after[..|after| - 1];
      RightStripped(core, after[..|after| - 1]);
    } else {
      assert s == core;
    }
  }

  lemma LowerIdempotent(s: string)
    ensures Lower(Lower(s)) == Lower(s)
  {
  }

  lemma LowerConcat(a: string, b: string)
    ensures Lower(a + b) == Lower(a) + Lower(b)
  {
  }

  const UPPER := "ABCDEFGHIJKLMNOPQRSTUVWXYZ"
  const LOWER := "abcdefghijklmnopqrstuvwxyz"

  /** Lower case replaces the 26 capital letters and nothing else. */
  lemma LowerLetters(s: string, i: nat)
    requires i < |s|
    ensures forall k :: 0 <= k < 26 && s[i] == UPPER[k] ==> Lower(s)[i] == LOWER[k]
    ensures s[i] !in UPPER ==> Lower(s)[i] == s[i]
  {
    forall k | 0 <= k < 26 ensures UPPER[k] as int == 'A' as int + k && LOWER[k] as int == 'a' as int + k {
    }
    if 'A' <= s[i] <= 'Z' {
      assert s[i] == UPPER[s[i] as int - 'A' as int];
    }
  }

  // --- hexadecimal ---------------------------------------------------------

  predicate IsHexDigit(c: char) {
    '0' <= c <= '9' || 'a' <= c <= 'f' || 'A' <= c <= 'F'
  }

  function HexValue(c: char): (v: nat)
    requires IsHexDigit(c)
    ensures v < 16
  {
    if '0' <= c <= '9' then (c - '0') as nat
    else if 'a' <= c <= 'f' then (c - 'a') as nat + 10
    else (c - 'A') as nat + 10
  }

  function HexDigit(v: nat): (c: char)
    requires v < 16
    ensures IsHexDigit(c) && HexValue(c) == v && LowerChar(c) == c
  {
    "0123456789abcdef"[v]
  }

  predicate AllHex(s: string) {
    forall c :: c in s ==> IsHexDigit(c)
  }

  function HexNumber(s: string): nat
    requires AllHex(s)
  {
    if s == "" then 0 else 16 * HexNumber(s[..|s| - 1]) + HexValue(s[|s| - 1])
  }

  /** Python's int(s, 16) on a plain numeral, with or without the 0x prefix; None is its ValueError. */
  function ParseHex(s: string): Option<nat> {
    var body := if StartsWith(s, "0x") || StartsWith(s, "0X") then s[2..] else s;
    if body != "" && AllHex(body) then Some(HexNumber(body)) else None
  }

  function Pow16(n: nat): nat {
    if n == 0 then 1 else 16 * Pow16(n - 1)
  }

  /** The last `width` hexadecimal digits of `n`, most significant first. */
  function HexDigits(n: nat, width: nat): (s: string)
    ensures |s| == width && AllHex(s) && Lower(s) == s
  {
    if width == 0 then ""
    else
      var front, last := HexDigits(n / 16, width - 1), [HexDigit(n % 16)];
      LowerConcat(front, last);
      front + last
  }

  lemma {:induction false} HexRoundTrip(n: nat, width: nat)
    requires n < Pow16(width)
    ensures HexNumber(HexDigits(n, width)) == n
  {
    if width > 0 {
      HexRoundTrip(n / 16, width - 1);
      var front := HexDigits(n / 16, width - 1);
      assert HexDigits(n, width) == front + [HexDigit(n % 16)];
      hide HexDigits, Lower;
      assert (front + [HexDigit(n % 16)])[..width - 1] == front;
    }
  }

  lemma LowerHex(c: char)
    requires IsHexDigit(c)
    ensures IsHexDigit(LowerChar(c)) && HexDigit(HexValue(c)) == LowerChar(c)
  {
  }

  lemma LowerAppend(w: string)
    requires w != "" && IsHexDigit(w[|w| - 1])
    ensures Lower(w) == Lower(w[..|w| - 1]) + [HexDigit(HexValue(w[|w| - 1]))]
  {
    LowerHex(w[|w| - 1]);
    hide HexDigit, HexValue;
  }

  lemma LastHexDigit(n: nat, width: nat, front: nat, less: nat, last: nat)
    requires last < 16 && n == 16 * front + last && width == less + 1
    ensures HexDigits(n, width) == HexDigits(front, less) + [HexDigit(last)]
  {
    assert n / 16 == front && n % 16 == last;
  }

  /** Every hexadecimal text is, up to letter case, the digits of its number. */
  lemma {:induction false} HexDigitsOfNumber(w: string)
    requires AllHex(w)
    ensures HexNumber(w) < Pow16(|w|) && HexDigits(HexNumber(w), |w|) == Lower(w)
  {
    if w != "" {
      var front, last := w[..|w| - 1], w[|w| - 1];
      HexDigitsOfNumber(front);
      LastHexDigit(HexNumber(w), |w|, HexNumber(front), |front|, HexValue(last));
      LowerAppend(w);
      hide HexNumber, HexDigits, AllHex, Lower, HexValue, HexDigit, IsHexDigit;
    } else {
      assert Lower(w) == "";
    }
  }

  /** The text consists of the hexadecimal digits of n, in any letter case. */
  predicate Spells(w: string, n: nat) {
    w != "" && n < Pow16(|w|) && Lower(w) == HexDigits(n, |w|)
  }

  predicate Prefixes(s: string) {
    StartsWith(s, "0x") || StartsWith(s, "0X")
  }

  lemma SpellsHex(w: string, n: nat)
    requires Spells(w, n)
    ensures AllHex(w) && HexNumber(w) == n
  {
    forall i | 0 <= i < |w| ensures IsHexDigit(w[i]) {
      assert Lower(w)[i] in HexDigits(n, |w|);
    }
    HexDigitsOfNumber(w);
    HexRoundTrip(HexNumber(w), |w|);
    HexRoundTrip(n, |w|);
  }

  /** A numeral is read exactly if it spells its number, with or without the prefix. */
  lemma ParseHexIff(s: string, n: nat)
    ensures ParseHex(s) == Some(n) <==> Spells(if Prefixes(s) then s[2..] else s, n)
  {
    hide HexNumber, HexDigits, AllHex, Pow16, Lower;
    var body := if Prefixes(s) then s[2..] else s;
    if ParseHex(s) == Some(n) {
      HexDigitsOfNumber(body);
    }
    if Spells(body, n) {
      SpellsHex(body, n);
    }
  }

  // --- decimal -------------------------------------------------------------

  predicate IsDecDigit(c: char) { '0' <= c <= '9' }

  function DecDigit(v: nat): (c: char)
    requires v < 10
    ensures IsDecDigit(c) && (c - '0') as nat == v
  {
    "0123456789"[v]
  }

  predicate AllDec(s: string) {
    forall i :: 0 <= i < |s| ==> IsDecDigit(s[i])
  }

  /** Python's str(n). */
  function Dec(n: nat): (s: string)
    ensures s != "" && AllDec(s) && (s[0] == '0' <==> n == 0) && (n == 0 ==> s == "0")
  {
    if n < 10 then [DecDigit(n)] else Dec(n / 10) + [DecDigit(n % 10)]
  }

  function ParseDec(s: string): nat
    requires AllDec(s)
  {
    if s == "" then 0 else 10 * ParseDec(s[..|s| - 1]) + (s[|s| - 1] - '0') as nat
  }

  lemma {:induction false} DecRoundTrip(n: nat)
    ensures ParseDec(Dec(n)) == n
  {
    if n < 10 {
      assert Dec(n)[..0] == "";
    } else {
      DecRoundTrip(n / 10);
      assert Dec(n)[..|Dec(n)| - 1] == Dec(n / 10);
    }
  }

  predicate GroupedDigits(s: string) {
    && s != "" && IsDecDigit(s[0])
    && (forall i :: 0 <= i < |s| ==> IsDecDigit(s[i]) || s[i] == '_')
    && (forall i :: 0 <= i < |s| && s[i] == '_' ==> i + 1 < |s| && IsDecDigit(s[i + 1]))
  }

  function Ungrouped(s: string): (r: string)
    requires forall i :: 0 <= i < |s| ==> IsDecDigit(s[i]) || s[i] == '_'
    ensures AllDec(r)
  {
    if s == "" then ""
    else if s[0] == '_' then Ungrouped(s[1..]) else [s[0]] + Ungrouped(s[1..])
  }

  /** Python's int(s): blanks around, a sign, digits with single underscores between; None is its ValueError. */
  function ParseInt(s: string): Option<int> {
    var t := Strip(s);
    var signed := t != "" && (t[0] == '+' || t[0] == '-');
    var body := if signed then t[1..] else t;
    if !GroupedDigits(body) then None
    else
      var n: int := ParseDec(Ungrouped(body));
      Some(if signed && t[0] == '-' then -n else n)
  }

  lemma StripNothing(s: string)
    requires NoBlanks(s)
    ensures Strip(s) == s
  {
  }

  lemma {:induction false} UngroupedDigits(s: string)
    requires AllDec(s)
    ensures Ungrouped(s) == s
  {
    if s != "" {
      UngroupedDigits(s[1..]);
      assert [s[0]] + s[1..] == s;
    }
  }

  lemma {:induction false} UngroupedPair(a: string, b: string)
    requires AllDec(a) && AllDec(b)
    ensures forall i :: 0 <= i < |a + "_" + b| ==> IsDecDigit((a + "_" + b)[i]) || (a + "_" + b)[i] == '_'
    ensures Ungrouped(a + "_" + b) == a + b
  {
    var s := a + "_" + b;
    if a == "" {
      assert s[1..] == b;
      UngroupedDigits(b);
      assert a + b == b;
    } else {
      assert s[1..] == a[1..] + "_" + b;
      UngroupedPair(a[1..], b);
      assert [a[0]] + (a[1..] + b) == a + b;
    }
  }

  /** A decimal numeral is read as its number, with a sign, blanks around and an underscore between its digits. */
  lemma NumeralIsRead(n: nat, before: string, after: string)
    requires OnlyBlanks(before) && OnlyBlanks(after)
    ensures ParseInt(before + Dec(n) + after) == Some(n)
    ensures ParseInt(before + ("+" + Dec(n)) + after) == Some(n)
    ensures ParseInt(before + ("-" + Dec(n)) + after) == Some(0 - n)
  {
    hide Strip, Dec, Ungrouped, ParseDec;
    var d := Dec(n);
    DecRoundTrip(n);
    UngroupedDigits(d);
    DigitsAreBare(d);
    StripTakesBlanks(before, d, after);
    StripTakesBlanks(before, "+" + d, after);
    StripTakesBlanks(before, "-" + d, after);
    assert ("+" + d)[1..] == d && ("-" + d)[1..] == d;
  }

  lemma DigitsAreBare(d: string)
    requires AllDec(d) && d != ""
    ensures Bare(d) && Bare("+" + d) && Bare("-" + d)
    ensures d[0] != '+' && d[0] != '-' && GroupedDigits(d)
  {
    BlankIff(d[0]);
    BlankIff(d[|d| - 1]);
    BlankIff('+');
    BlankIff('-');
  }

  lemma UnderscoresAreSkipped(a: string, b: string)
    requires AllDec(a) && AllDec(b) && a != "" && b != ""
    ensures ParseInt(a + "_" + b) == Some(ParseDec(a + b))
  {
    hide Strip, Ungrouped, ParseDec;
    var s := a + "_" + b;
    DigitsAreBare(a);
    DigitsAreBare(b);
    UngroupedPair(a, b);
    assert "" + s + "" == s;
    StripTakesBlanks("", s, "");
  }
}
