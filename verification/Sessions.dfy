/** Signed session tokens of the web panel: URL-safe base64 without padding (RFC 4648, section 5), and a signature. */
module Sessions {
  import opened Prelude
  import opened Text

  type Byte = x: int | 0 <= x < 256

  // --- base64 -------------------------------------------------------------------------------

  function Digit(v: nat): char
    requires v < 64
  {
    if v < 26 then ('A' as int + v) as char
    else if v < 52 then ('a' as int + v - 26) as char
    else if v < 62 then ('0' as int + v - 52) as char
    else if v == 62 then '-' else '_'
  }

  /** The decoder reads both alphabets and skips any other character. */
  function DigitValue(c: char): (r: Option<nat>)
    ensures r.Some? ==> r.value < 64
  {
    if 'A' <= c <= 'Z' then Some((c - 'A') as nat)
    else if 'a' <= c <= 'z' then Some((c - 'a') as nat + 26)
    else if '0' <= c <= '9' then Some((c - '0') as nat + 52)
    else if c == '-' || c == '+' then Some(62)
    else if c == '_' || c == '/' then Some(63)
    else None
  }

  /** Three bytes as four digits of six bits. */
  function FirstFour(data: seq<Byte>): string
    requires |data| >= 3
  {
    [Digit(data[0] / 4), Digit(data[0] % 4 * 16 + data[1] / 16),
     Digit(data[1] % 16 * 4 + data[2] / 64), Digit(data[2] % 64)]
  }

  function Digits(data: seq<Byte>): string {
    if data == [] then ""
    else if |data| == 1 then [Digit(data[0] / 4), Digit(data[0] % 4 * 16)]
    else if |data| == 2 then [Digit(data[0] / 4), Digit(data[0] % 4 * 16 + data[1] / 16), Digit(data[1] % 16 * 4)]
    else FirstFour(data) + Digits(data[3..])
  }

  function Pads(n: nat): string {
    seq(n, _ => '=')
  }

  /** `urlsafe_b64encode`: padded to a multiple of four. */
  function Encode(data: seq<Byte>): string {
    Digits(data) + Pads((3 - |data| % 3) % 3)
  }

  function WithoutPads(s: string): string {
    if s != "" && s[|s| - 1] == '=' then WithoutPads(s[..|s| - 1]) else s
  }

  function B64(data: seq<Byte>): string {
    WithoutPads(Encode(data))
  }

  predicate LeftFits(pos: nat, left: nat) {
    pos < 4 && (pos == 1 ==> left < 64) && (pos == 2 ==> left < 16) && (pos == 3 ==> left < 4)
  }

  /** The lenient scanner of Python's decoder: `pos` digits of the current four are read, of which `left` is left
      over. */
  function Scan(s: string, pos: nat, left: nat, pads: nat, out: seq<Byte>): Option<seq<Byte>>
    requires LeftFits(pos, left)
  {
    if s == "" then if pos == 0 then Some(out) else None
    else if s[0] == '=' then
      if pos >= 2 && pos + pads + 1 >= 4 then Some(out)
      else Scan(s[1..], pos, left, if pos >= 2 then pads + 1 else pads, out)
    else
      match DigitValue(s[0])
      case None => Scan(s[1..], pos, left, pads, out)
      case Some(v) =>
        if pos == 0 then Scan(s[1..], 1, v, 0, out)
        else if pos == 1 then Scan(s[1..], 2, v % 16, 0, out + [left * 4 + v / 16])
        else if pos == 2 then Scan(s[1..], 3, v % 4, 0, out + [left * 16 + v / 4])
        else Scan(s[1..], 0, 0, 0, out + [left * 64 + v])
  }

  function Unb64(s: string): Option<seq<Byte>> {
    Scan(s + Pads((4 - |s| % 4) % 4), 0, 0, 0, [])
  }

  predicate IsDigit(c: char) {
    c != '=' && c != '.' && DigitValue(c).Some?
  }

  lemma DigitRoundTrip(v: nat)
    requires v < 64
    ensures DigitValue(Digit(v)) == Some(v) && IsDigit(Digit(v))
  {
  }

  /** The digits are those of the URL-safe alphabet; the decoder also takes the two of the standard one. */
  lemma UrlSafe(v: nat)
    requires v < 64
    ensures v < 26 ==> Digit(v) == UPPER[v]
    ensures 26 <= v < 52 ==> Digit(v) == LOWER[v - 26]
    ensures 52 <= v < 62 ==> Digit(v) == "0123456789"[v - 52]
    ensures Digit(62) == '-' && Digit(63) == '_' && DigitValue('+') == Some(62) && DigitValue('/') == Some(63)
  {
  }

  /** The three endings of RFC 4648, section 10: the bytes of "foobar", "fooba" and "foob". */
  lemma KnownEncodings()
    ensures Encode([102, 111, 111, 98, 97, 114]) == "Zm9vYmFy"
    ensures Encode([102, 111, 111, 98, 97]) == "Zm9vYmE="
    ensures Encode([102, 111, 111, 98]) == "Zm9vYg=="
  {
    var data: seq<Byte> := [102, 111, 111, 98, 97, 114];
    assert data[3..] == [98, 97, 114] && data[..5][3..] == [98, 97] && data[..4][3..] == [98];
    assert [102, 111, 111, 98, 97] == data[..5] && [102, 111, 111, 98] == data[..4];
    assert FirstFour(data) == "Zm9v" && FirstFour(data[3..]) == "YmFy" && data[3..][3..] == [];
  }

  lemma {:induction false} DigitCount(data: seq<Byte>)
    ensures |Digits(data)| % 4 == if |data| % 3 == 0 then 0 else |data| % 3 + 1
  {
    hide FirstFour, Digit;
    if |data| >= 3 {
      assert Digits(data) == FirstFour(data) + Digits(data[3..]);
      DigitCount(data[3..]);
      hide Digits;
      FourMore(data, Digits(data[3..]));
      assert |data[3..]| % 3 == |data| % 3;
    }
  }

  lemma FourMore(data: seq<Byte>, rest: string)
    requires |data| >= 3
    ensures |FirstFour(data) + rest| % 4 == |rest| % 4
  {
    hide Digit;
  }

  lemma FourAreDigits(data: seq<Byte>)
    requires |data| >= 3
    ensures forall i :: 0 <= i < 4 ==> IsDigit(FirstFour(data)[i])
  {
    hide IsDigit, Digit;
    DigitRoundTrip(data[0] / 4);
    DigitRoundTrip(data[0] % 4 * 16 + data[1] / 16);
    DigitRoundTrip(data[1] % 16 * 4 + data[2] / 64);
    DigitRoundTrip(data[2] % 64);
  }

  lemma RestAreDigits(data: seq<Byte>)
    requires |data| < 3
    ensures forall i :: 0 <= i < |Digits(data)| ==> IsDigit(Digits(data)[i])
  {
    hide IsDigit, Digit;
    if |data| == 1 {
      DigitRoundTrip(data[0] / 4);
      DigitRoundTrip(data[0] % 4 * 16);
    } else if |data| == 2 {
      DigitRoundTrip(data[0] / 4);
      DigitRoundTrip(data[0] % 4 * 16 + data[1] / 16);
      DigitRoundTrip(data[1] % 16 * 4);
    }
  }

  lemma {:induction false} OnlyDigits(data: seq<Byte>)
    ensures forall i :: 0 <= i < |Digits(data)| ==> IsDigit(Digits(data)[i])
  {
    hide IsDigit, Digit;
    if |data| >= 3 {
      assert Digits(data) == FirstFour(data) + Digits(data[3..]);
      OnlyDigits(data[3..]);
      FourAreDigits(data);
      hide Digits, FirstFour;
    } else {
      RestAreDigits(data);
    }
  }

  lemma {:induction false} PadsDropped(s: string, n: nat)
    requires forall c :: c in s ==> c != '='
    ensures WithoutPads(s + Pads(n)) == s
  {
    if n == 0 {
      assert s + Pads(0) == s && (s != "" ==> s[|s| - 1] in s);
    } else {
      PadsDropped(s, n - 1);
      assert (s + Pads(n))[..|s| + n - 1] == s + Pads(n - 1);
    }
  }

  lemma EqualsIsNoDigit()
    ensures !IsDigit('=') && !IsDigit('.')
  {
  }

  /** What is stripped is padding only, and the decoder puts back exactly as much. */
  lemma PaddingIsRecomputed(data: seq<Byte>)
    ensures B64(data) == Digits(data)
    ensures B64(data) + Pads((4 - |B64(data)| % 4) % 4) == Encode(data)
    ensures forall i :: 0 <= i < |B64(data)| ==> IsDigit(B64(data)[i])
  {
    hide WithoutPads, Digits, IsDigit, DigitValue;
    OnlyDigits(data);
    DigitCount(data);
    EqualsIsNoDigit();
    PadsDropped(Digits(data), (3 - |data| % 3) % 3);
  }

  lemma ScanDigit(v: nat, rest: string, pos: nat, left: nat, pads: nat, out: seq<Byte>)
    requires v < 64 && LeftFits(pos, left)
    ensures Scan([Digit(v)] + rest, pos, left, pads, out)
            == if pos == 0 then Scan(rest, 1, v, 0, out)
               else if pos == 1 then Scan(rest, 2, v % 16, 0, out + [left * 4 + v / 16])
               else if pos == 2 then Scan(rest, 3, v % 4, 0, out + [left * 16 + v / 4])
               else Scan(rest, 0, 0, 0, out + [left * 64 + v])
  {
    DigitRoundTrip(v);
    assert ([Digit(v)] + rest)[1..] == rest;
  }

  /** The decoder skips whatever is neither a digit nor padding. */
  lemma ScanSkips(c: char, rest: string, pos: nat, left: nat, pads: nat, out: seq<Byte>)
    requires LeftFits(pos, left) && c !in {'-', '_', '+', '/', '='}
    requires !('A' <= c <= 'Z') && !('a' <= c <= 'z') && !('0' <= c <= '9')
    ensures Scan([c] + rest, pos, left, pads, out) == Scan(rest, pos, left, pads, out)
  {
    assert ([c] + rest)[1..] == rest;
  }

  /** One byte in its first two digits. */
  lemma ScanTwo(a: Byte, low: nat, rest: string, out: seq<Byte>)
    requires low < 16
    ensures Scan([Digit(a / 4), Digit(a % 4 * 16 + low)] + rest, 0, 0, 0, out) == Scan(rest, 2, low, 0, out + [a])
  {
    hide Scan, Digit;
    var second := [Digit(a % 4 * 16 + low)] + rest;
    assert [Digit(a / 4), Digit(a % 4 * 16 + low)] + rest == [Digit(a / 4)] + second;
    ScanDigit(a / 4, second, 0, 0, 0, out);
    ScanDigit(a % 4 * 16 + low, rest, 1, a / 4, 0, out);
    assert a / 4 * 4 + (a % 4 * 16 + low) / 16 == a && (a % 4 * 16 + low) % 16 == low;
  }

  lemma ScanThree(a: Byte, b: Byte, low: nat, rest: string, out: seq<Byte>)
    requires low < 4
    ensures Scan([Digit(a / 4), Digit(a % 4 * 16 + b / 16), Digit(b % 16 * 4 + low)] + rest, 0, 0, 0, out)
            == Scan(rest, 3, low, 0, out + [a, b])
  {
    hide Scan, Digit;
    var third := [Digit(b % 16 * 4 + low)] + rest;
    assert [Digit(a / 4), Digit(a % 4 * 16 + b / 16), Digit(b % 16 * 4 + low)] + rest
        == [Digit(a / 4), Digit(a % 4 * 16 + b / 16)] + third;
    ScanTwo(a, b / 16, third, out);
    ScanDigit(b % 16 * 4 + low, rest, 2, b / 16, 0, out + [a]);
    assert b / 16 * 16 + (b % 16 * 4 + low) / 4 == b && (b % 16 * 4 + low) % 4 == low;
    assert out + [a] + [b] == out + [a, b];
  }

  lemma ScanFour(a: Byte, b: Byte, c: Byte, rest: string, out: seq<Byte>)
    ensures Scan([Digit(a / 4), Digit(a % 4 * 16 + b / 16), Digit(b % 16 * 4 + c / 64), Digit(c % 64)] + rest, 0, 0,
                 0, out)
            == Scan(rest, 0, 0, 0, out + [a, b, c])
  {
    hide Scan, Digit;
    var fourth := [Digit(c % 64)] + rest;
    assert [Digit(a / 4), Digit(a % 4 * 16 + b / 16), Digit(b % 16 * 4 + c / 64), Digit(c % 64)] + rest
        == [Digit(a / 4), Digit(a % 4 * 16 + b / 16), Digit(b % 16 * 4 + c / 64)] + fourth;
    ScanThree(a, b, c / 64, fourth, out);
    ScanDigit(c % 64, rest, 3, c / 64, 0, out + [a, b]);
    assert c / 64 * 64 + c % 64 == c;
    assert out + [a, b] + [c] == out + [a, b, c];
  }

  lemma ScanPads(left: nat, out: seq<Byte>)
    ensures left < 4 ==> Scan("=", 3, left, 0, out) == Some(out)
    ensures left < 16 ==> Scan("==", 2, left, 0, out) == Some(out)
  {
    assert "=="[1..] == "=";
  }

  lemma EncodeFour(data: seq<Byte>)
    requires |data| >= 3
    ensures Encode(data) == FirstFour(data) + Encode(data[3..])
  {
    hide Digit, Pads;
    assert Digits(data) == FirstFour(data) + Digits(data[3..]);
    hide Digits;
    assert |data[3..]| % 3 == |data| % 3;
  }

  lemma EncodeRest(data: seq<Byte>)
    ensures |data| == 0 ==> Encode(data) == ""
    ensures |data| == 1 ==> Encode(data) == [Digit(data[0] / 4), Digit(data[0] % 4 * 16)] + "=="
    ensures |data| == 2 ==>
              Encode(data) == [Digit(data[0] / 4), Digit(data[0] % 4 * 16 + data[1] / 16),
                               Digit(data[1] % 16 * 4)] + "="
  {
    hide Digit;
  }

  lemma {:induction false} ScanDigits(data: seq<Byte>, out: seq<Byte>)
    ensures Scan(Encode(data), 0, 0, 0, out) == Some(out + data)
  {
    hide Encode, Digits, Digit;
    EncodeRest(data);
    ScanPads(0, out + data);
    if |data| >= 3 {
      EncodeFour(data);
      ScanFour(data[0], data[1], data[2], Encode(data[3..]), out);
      hide Scan;
      ScanDigits(data[3..], out + [data[0], data[1], data[2]]);
      assert out + [data[0], data[1], data[2]] + data[3..] == out + data;
    } else if |data| == 2 {
      ScanThree(data[0], data[1], 0, "=", out);
      assert data == [data[0], data[1]];
    } else if |data| == 1 {
      ScanTwo(data[0], 0, "==", out);
      assert data == [data[0]];
    } else {
      assert out + data == out;
    }
  }

  /** Decoding inverts encoding for every byte string. */
  lemma Base64RoundTrip(data: seq<Byte>)
    ensures Unb64(B64(data)) == Some(data)
  {
    PaddingIsRecomputed(data);
    ScanDigits(data, []);
    assert [] + data == data;
  }

  // --- tokens ---------------------------------------------------------------------------------

  /** JSON values as far as an expiry is concerned; the last stands for null, lists and objects. */
  datatype Value = Words(text: string) | Number(number: int) | Flag(flag: bool) | NoNumber

  type Payload = map<string, Value>

  /** The keyed hash, and JSON with its UTF-8 bytes; None is any error or anything but an object. */
  datatype Manager = Manager(
    mac: string -> seq<Byte>, dumps: Payload -> seq<Byte>, loads: seq<Byte> -> Option<Payload>, ttl: nat)

  function Sign(m: Manager, text: string): string {
    B64(m.mac(text))
  }

  function Stamped(m: Manager, payload: Payload, now: int): Payload {
    payload["iat" := Number(now)]["exp" := Number(now + m.ttl)]
  }

  function Create(m: Manager, payload: Payload, now: int): string {
    var b := B64(m.dumps(Stamped(m, payload, now)));
    b + "." + Sign(m, b)
  }

  /** Where `rsplit(".", 1)` cuts. */
  function LastDot(s: string): (r: Option<nat>)
    ensures r.Some? ==> r.value < |s| && s[r.value] == '.'
  {
    if s == "" then None else if s[|s| - 1] == '.' then Some(|s| - 1) else LastDot(s[..|s| - 1])
  }

  /** `int(payload.get("exp", 0))`; None is the error it raises. */
  function Expiry(p: Payload): Option<int> {
    if "exp" !in p then Some(0)
    else
      match p["exp"]
      case Number(n) => Some(n)
      case Flag(f) => Some(if f then 1 else 0)
      case Words(text) => ParseInt(text)
      case NoNumber => None
  }

  /** What becomes of a token; `Raised` is an error that the caller sees. */
  datatype Verdict = Refused | Raised | Accepted(payload: Payload)

  function Stored(m: Manager, b: string): Option<Payload> {
    match Unb64(b)
    case None => None
    case Some(raw) => m.loads(raw)
  }

  function Verify(m: Manager, token: string, now: int): Verdict {
    match LastDot(token)
    case None => Refused
    case Some(i) =>
      var b, sig := token[..i], token[i + 1..];
      if sig != Sign(m, b) then Refused
      else
        match Stored(m, b)
        case None => Refused
        case Some(p) =>
          match Expiry(p)
          case None => Raised
          case Some(exp) => if exp < now then Refused else Accepted(p)
  }

  lemma {:induction false} CutAtLastDot(b: string, sig: string)
    requires '.' !in sig
    ensures LastDot(b + "." + sig) == Some(|b|)
  {
    var s := b + "." + sig;
    if sig != "" {
      CutAtLastDot(b, sig[..|sig| - 1]);
      assert s[..|s| - 1] == b + "." + sig[..|sig| - 1];
    }
  }

  lemma SignatureHasNoDot(m: Manager, text: string)
    ensures '.' !in Sign(m, text)
  {
    hide IsDigit;
    PaddingIsRecomputed(m.mac(text));
    EqualsIsNoDigit();
  }

  /** The text is signed in this token and decodes to this payload. */
  predicate Carries(m: Manager, token: string, b: string, p: Payload) {
    token == b + "." + Sign(m, b) && Stored(m, b) == Some(p)
  }

  lemma CarriedIsVerified(m: Manager, token: string, b: string)
    requires token == b + "." + Sign(m, b)
    ensures LastDot(token) == Some(|b|) && token[..|b|] == b && token[|b| + 1..] == Sign(m, b)
  {
    SignatureHasNoDot(m, b);
    CutAtLastDot(b, Sign(m, b));
  }

  lemma VerifiedIsCarried(m: Manager, token: string, now: int)
    requires !Verify(m, token, now).Refused?
    ensures var b := token[..LastDot(token).value]; Stored(m, b).Some? && Carries(m, token, b, Stored(m, b).value)
  {
    var i := LastDot(token).value;
    assert token == token[..i] + "." + token[i + 1..];
  }

  /** A token is accepted exactly if it is some text, a dot and the signature of that text, and the text decodes to a
      payload that has not expired; verification raises exactly if such a payload's expiry is no number. So a text has
      one token only, however leniently it decodes. */
  lemma AcceptedExactly(m: Manager, token: string, now: int, p: Payload)
    ensures Verify(m, token, now) == Accepted(p)
            <==> exists b :: Carries(m, token, b, p) && Expiry(p).Some? && Expiry(p).value >= now
    ensures Verify(m, token, now) == Raised <==> exists b, q :: Carries(m, token, b, q) && Expiry(q).None?
  {
    forall b, q | Carries(m, token, b, q)
      ensures Verify(m, token, now) == match Expiry(q)
                                       case None => Raised
                                       case Some(exp) => if exp < now then Refused else Accepted(q)
    {
      CarriedIsVerified(m, token, b);
    }
    if !Verify(m, token, now).Refused? {
      VerifiedIsCarried(m, token, now);
    }
  }

  ghost predicate Faithful(m: Manager) {
    forall p :: m.loads(m.dumps(p)) == Some(p)
  }

  /** A created token gives back its payload with its two stamps up to and including its expiry second, and nothing
      afterwards. */
  lemma CreatedVerifiesUntilExpiry(m: Manager, payload: Payload, created: int, now: int)
    requires Faithful(m)
    ensures var p: Payload := payload["iat" := Number(created)]["exp" := Number(created + m.ttl)];
            Verify(m, Create(m, payload, created), now) == if now <= created + m.ttl then Accepted(p) else Refused
  {
    var p := Stamped(m, payload, created);
    var b := B64(m.dumps(p));
    Base64RoundTrip(m.dumps(p));
    CarriedIsVerified(m, Create(m, payload, created), b);
    assert Stored(m, b) == Some(p);
  }

  /** How long a signed text is accepted, by the expiry in its payload: a number, or a numeral with blanks around, up to
      and including it; a flag counts as 1 or 0, and so does a missing expiry; anything else raises. */
  lemma AcceptedUntil(m: Manager, b: string, p: Payload, now: int, n: nat, before: string, after: string)
    requires Stored(m, b) == Some(p) && OnlyBlanks(before) && OnlyBlanks(after)
    ensures var v := Verify(m, b + "." + Sign(m, b), now);
            && ("exp" !in p ==> v == if now <= 0 then Accepted(p) else Refused)
            && ("exp" in p ==>
                  match p["exp"]
                  case Number(exp) => v == if now <= exp then Accepted(p) else Refused
                  case Flag(f) => v == if now <= (if f then 1 else 0) then Accepted(p) else Refused
                  case Words(text) => text == before + Dec(n) + after ==> v == if now <= n then Accepted(p) else Refused
                  case NoNumber => v == Raised)
  {
    hide Dec, ParseInt, Stored, Sign, OnlyBlanks;
    CarriedIsVerified(m, b + "." + Sign(m, b), b);
    NumeralIsRead(n, before, after);
  }
}
