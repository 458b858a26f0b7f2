/** Location, session and lifetime written into a proxy user name (SmartProxy) or password (IPRoyal), and decoders. */
module Credentials {
  import opened Text

  datatype Location = Location(area: string, state: string, city: string, life: int, session: string)

  // --- encoding ----------------------------------------------------------------------------

  function WithoutSpaces(s: string): (r: string)
    ensures ' ' !in r
  {
    if s == "" then ""
    else if s[0] == ' ' then WithoutSpaces(s[1..]) else [s[0]] + WithoutSpaces(s[1..])
  }

  function NormalizeCode(s: string): string {
    WithoutSpaces(Strip(s))
  }

  function Cleaned(loc: Location): Location {
    Location(NormalizeCode(loc.area), NormalizeCode(loc.state), NormalizeCode(loc.city), loc.life, Strip(loc.session))
  }

  function Join(parts: seq<string>): string
    requires parts != []
  {
    if |parts| == 1 then parts[0] else parts[0] + "_" + Join(parts[1..])
  }

  /** "key-value" for every pair with a value, in order. */
  function Fields(pairs: seq<(string, string)>): seq<string> {
    if pairs == [] then []
    else
      var rest := Fields(pairs[1..]);
      if pairs[0].1 == "" then rest else [pairs[0].0 + "-" + pairs[0].1] + rest
  }

  const SMART_MAX_LIFE := 1440
  const IPROYAL_MAX_LIFE := 10080

  /** Minutes in effect: none, or 1 up to the product's maximum. */
  function ClampLife(life: int, max: nat): nat {
    if life <= 0 then 0 else if life > max then max else life
  }

  function SmartPairs(c: Location): seq<(string, string)> {
    [("area", c.area), ("state", c.state), ("city", c.city),
     ("life", if c.life > 0 then Dec(ClampLife(c.life, SMART_MAX_LIFE)) else ""), ("session", c.session)]
  }

  function BuildUsername(base: string, loc: Location): string {
    Join([base] + Fields(SmartPairs(Cleaned(loc))))
  }

  /** Whole hours in hours, anything else in minutes. */
  function IproyalLifetime(minutes: int): string {
    var m := if minutes < 1 then 1 else if minutes > IPROYAL_MAX_LIFE then IPROYAL_MAX_LIFE else minutes;
    if m % 60 == 0 then Dec(m / 60) + "h" else Dec(m) + "m"
  }

  function IproyalPairs(c: Location): seq<(string, string)> {
    [("country", Lower(c.area)), ("state", Lower(c.state)), ("city", Lower(c.city)), ("session", c.session),
     ("lifetime", if c.life > 0 then IproyalLifetime(c.life) else "")]
  }

  function BuildIproyalPassword(base: string, loc: Location): string {
    Join([base] + Fields(IproyalPairs(Cleaned(loc))))
  }

  // --- decoding ----------------------------------------------------------------------------

  function Split(s: string): (r: seq<string>)
    ensures |r| >= 1
    ensures forall i :: 0 <= i < |r| ==> '_' !in r[i]
  {
    if s == "" then [""]
    else
      var rest := Split(s[1..]);
      if s[0] == '_' then [""] + rest else [[s[0]] + rest[0]] + rest[1..]
  }

  /** The value of the first part that reads "key-value". */
  function Lookup(parts: seq<string>, key: string): string {
    if parts == [] then ""
    else if StartsWith(parts[0], key + "-") then parts[0][|key| + 1..]
    else Lookup(parts[1..], key)
  }

  function Minutes(s: string): nat {
    if AllDec(s) then ParseDec(s) else 0
  }

  function LifetimeMinutes(s: string): nat {
    if s == "" || !AllDec(s[..|s| - 1]) then 0
    else if s[|s| - 1] == 'h' then 60 * ParseDec(s[..|s| - 1])
    else if s[|s| - 1] == 'm' then ParseDec(s[..|s| - 1])
    else 0
  }

  function DecodeUsername(base: string, s: string): Location {
    var parts := Split(if |base| <= |s| then s[|base|..] else "");
    Location(Lookup(parts, "area"), Lookup(parts, "state"), Lookup(parts, "city"),
             Minutes(Lookup(parts, "life")), Lookup(parts, "session"))
  }

  function DecodePassword(base: string, s: string): Location {
    var parts := Split(if |base| <= |s| then s[|base|..] else "");
    Location(Lookup(parts, "country"), Lookup(parts, "state"), Lookup(parts, "city"),
             LifetimeMinutes(Lookup(parts, "lifetime")), Lookup(parts, "session"))
  }

  // --- splitting undoes joining --------------------------------------------------------------

  lemma {:induction false} SplitFirst(p: string, s: string)
    requires '_' !in p
    ensures Split(p + "_" + s) == [p] + Split(s)
    ensures Split(p) == [p]
  {
    if p == "" {
      assert ("_" + s)[1..] == s;
      assert p + "_" + s == "_" + s;
    } else {
      SplitFirst(p[1..], s);
      assert (p + "_" + s)[1..] == p[1..] + "_" + s;
      assert [p[0]] + p[1..] == p;
    }
  }

  lemma {:induction false} SplitJoin(parts: seq<string>)
    requires parts != [] && forall p :: p in parts ==> '_' !in p
    ensures Split(Join(parts)) == parts
  {
    if |parts| == 1 {
      SplitFirst(parts[0], "");
    } else {
      SplitJoin(parts[1..]);
      SplitFirst(parts[0], Join(parts[1..]));
    }
  }

  /** What follows a fixed base is split back into the fields, whatever characters the base has. */
  lemma AfterBase(base: string, fields: seq<string>)
    requires forall p :: p in fields ==> '_' !in p
    ensures var s := Join([base] + fields); |base| <= |s| && Split(s[|base|..]) == [""] + fields
  {
    var s := Join([base] + fields);
    assert ([base] + fields)[1..] == fields && ([""] + fields)[1..] == fields;
    assert s[|base|..] == Join([""] + fields);
    SplitJoin([""] + fields);
  }

  // --- looking up ------------------------------------------------------------------------------

  lemma OtherKey(key: string, other: string, value: string)
    requires '-' !in key && '-' !in other && key != other
    ensures !StartsWith(other + "-" + value, key + "-")
  {
    var s, k := other + "-" + value, key + "-";
    if |k| <= |s| {
      if |key| < |other| {
        assert s[..|k|][|key|] == other[|key|] && k[|key|] == '-';
      } else if |key| > |other| {
        assert s[..|k|][|other|] == '-' && k[|other|] == key[|other|];
      } else {
        assert s[..|k|][..|key|] == other && k[..|key|] == key;
      }
    }
  }

  predicate GoodKeys(pairs: seq<(string, string)>) {
    && (forall i :: 0 <= i < |pairs| ==> '-' !in pairs[i].0 && '_' !in pairs[i].0)
    && (forall i, j :: 0 <= i < j < |pairs| ==> pairs[i].0 != pairs[j].0)
  }

  lemma {:induction false} LookupMissing(pairs: seq<(string, string)>, key: string)
    requires GoodKeys(pairs) && '-' !in key && forall i :: 0 <= i < |pairs| ==> pairs[i].0 != key
    ensures Lookup(Fields(pairs), key) == ""
  {
    if pairs != [] {
      LookupMissing(pairs[1..], key);
      OtherKey(key, pairs[0].0, pairs[0].1);
      if pairs[0].1 != "" {
        assert Fields(pairs)[1..] == Fields(pairs[1..]);
      }
    }
  }

  lemma {:induction false} LookupField(pairs: seq<(string, string)>, i: nat)
    requires GoodKeys(pairs) && i < |pairs|
    ensures Lookup(Fields(pairs), pairs[i].0) == pairs[i].1
  {
    var (k, v) := pairs[0];
    if v != "" {
      assert Fields(pairs)[1..] == Fields(pairs[1..]);
    }
    if i == 0 {
      LookupMissing(pairs[1..], k);
      assert (k + "-" + v)[|k| + 1..] == v && (k + "-" + v)[..|k| + 1] == k + "-";
    } else {
      LookupField(pairs[1..], i - 1);
      OtherKey(pairs[i].0, k, v);
    }
  }

  lemma {:induction false} FieldsArePlain(pairs: seq<(string, string)>)
    requires GoodKeys(pairs) && forall i :: 0 <= i < |pairs| ==> '_' !in pairs[i].1
    ensures forall p :: p in Fields(pairs) ==> '_' !in p
  {
    if pairs != [] {
      FieldsArePlain(pairs[1..]);
    }
  }

  lemma {:induction false} LookupIsPlain(parts: seq<string>, key: string)
    requires forall i :: 0 <= i < |parts| ==> '_' !in parts[i]
    ensures '_' !in Lookup(parts, key)
  {
    if parts != [] {
      LookupIsPlain(parts[1..], key);
    }
  }

  lemma LookupAfterBase(base: string, pairs: seq<(string, string)>, i: nat)
    requires GoodKeys(pairs) && i < |pairs| && forall j :: 0 <= j < |pairs| ==> '_' !in pairs[j].1
    ensures var s := Join([base] + Fields(pairs));
            |base| <= |s| && Lookup(Split(s[|base|..]), pairs[i].0) == pairs[i].1
  {
    FieldsArePlain(pairs);
    AfterBase(base, Fields(pairs));
    LookupField(pairs, i);
    assert ([""] + Fields(pairs))[1..] == Fields(pairs);
  }

  // --- round trips --------------------------------------------------------------------------------

  predicate Plain(c: Location) {
    '_' !in c.area && '_' !in c.state && '_' !in c.city && '_' !in c.session
  }

  lemma DecIsPlain(n: nat)
    ensures '_' !in Dec(n)
  {
  }

  /** The user name gives back the cleaned location with the life in effect, exactly if no part contains an
      underscore (codes and sessions that the bot's validators accept never do). */
  lemma UsernameRoundTrip(base: string, loc: Location)
    ensures var c := Cleaned(loc);
            DecodeUsername(base, BuildUsername(base, loc)) == c.(life := ClampLife(c.life, SMART_MAX_LIFE)) <==>
                Plain(c)
  {
    hide Split, Lookup, Join, Fields, Dec, ParseDec, Strip, WithoutSpaces;
    var c := Cleaned(loc);
    var s, pairs := BuildUsername(base, loc), SmartPairs(c);
    if Plain(c) {
      DecIsPlain(ClampLife(c.life, SMART_MAX_LIFE));
      DecRoundTrip(ClampLife(c.life, SMART_MAX_LIFE));
      forall i | 0 <= i < 5 ensures |base| <= |s| && Lookup(Split(s[|base|..]), pairs[i].0) == pairs[i].1 {
        LookupAfterBase(base, pairs, i);
      }
      assert ParseDec("") == 0 by { NothingIsZero(); }
      assert pairs[0].1 == c.area && pairs[1].1 == c.state && pairs[2].1 == c.city && pairs[4].1 == c.session;
      assert Minutes(pairs[3].1) == ClampLife(c.life, SMART_MAX_LIFE);
    } else {
      var parts := Split(if |base| <= |s| then s[|base|..] else "");
      LookupIsPlain(parts, "area");
      LookupIsPlain(parts, "state");
      LookupIsPlain(parts, "city");
      LookupIsPlain(parts, "session");
    }
  }

  lemma NothingIsZero()
    ensures ParseDec("") == 0
  {
  }

  /** The lifetime, in hours or minutes, stands for the minutes brought into 1 to 10080. */
  lemma LifetimeRoundTrip(minutes: int)
    ensures LifetimeMinutes(IproyalLifetime(minutes)) == if minutes < 1 then 1 else ClampLife(minutes, IPROYAL_MAX_LIFE)
    ensures '_' !in IproyalLifetime(minutes) && IproyalLifetime(minutes) != ""
  {
    var m := if minutes < 1 then 1 else ClampLife(minutes, IPROYAL_MAX_LIFE);
    var n := if m % 60 == 0 then m / 60 else m;
    DecRoundTrip(n);
    DecIsPlain(n);
    assert IproyalLifetime(minutes)[..|Dec(n)|] == Dec(n);
  }

  function Lowered(c: Location): Location {
    c.(area := Lower(c.area), state := Lower(c.state), city := Lower(c.city))
  }

  lemma LowerIsPlain(s: string)
    ensures '_' in Lower(s) <==> '_' in s
  {
    if '_' in s {
      var i :| 0 <= i < |s| && s[i] == '_';
      assert Lower(s)[i] == '_';
    }
  }

  /** The password gives back the cleaned location in lower case with the life in effect, whether it was written in
      hours or in minutes, exactly if no part contains an underscore. */
  lemma PasswordRoundTrip(base: string, loc: Location)
    ensures var c := Cleaned(loc);
            DecodePassword(base, BuildIproyalPassword(base, loc))
            == Lowered(c).(life := ClampLife(c.life, IPROYAL_MAX_LIFE))
            <==> Plain(c)
  {
    hide Split, Lookup, Join, Fields, Dec, ParseDec, Strip, WithoutSpaces, IproyalLifetime, LifetimeMinutes;
    var c := Cleaned(loc);
    var s, pairs := BuildIproyalPassword(base, loc), IproyalPairs(c);
    LowerIsPlain(c.area);
    LowerIsPlain(c.state);
    LowerIsPlain(c.city);
    if Plain(c) {
      if c.life > 0 {
        LifetimeRoundTrip(c.life);
      }
      forall i | 0 <= i < 5 ensures |base| <= |s| && Lookup(Split(s[|base|..]), pairs[i].0) == pairs[i].1 {
        LookupAfterBase(base, pairs, i);
      }
      NoLifetime();
      assert pairs[0].1 == Lower(c.area) && pairs[1].1 == Lower(c.state) && pairs[2].1 == Lower(c.city);
      assert pairs[3].1 == c.session && LifetimeMinutes(pairs[4].1) == ClampLife(c.life, IPROYAL_MAX_LIFE);
    } else {
      var parts := Split(if |base| <= |s| then s[|base|..] else "");
      LookupIsPlain(parts, "country");
      LookupIsPlain(parts, "state");
      LookupIsPlain(parts, "city");
      LookupIsPlain(parts, "session");
    }
  }

  lemma NoLifetime()
    ensures LifetimeMinutes("") == 0
  {
  }

  // --- a new session is a new credential ------------------------------------------------------------

  /** With any base, changing the session changes the user name and the password, whatever else changes with it. */
  lemma NewSessionNewCredential(base: string, a: Location, b: Location)
    requires Plain(Cleaned(a)) && Plain(Cleaned(b)) && Strip(a.session) != Strip(b.session)
    ensures BuildUsername(base, a) != BuildUsername(base, b)
    ensures BuildIproyalPassword(base, a) != BuildIproyalPassword(base, b)
  {
    hide BuildUsername, BuildIproyalPassword, DecodeUsername, DecodePassword, Plain;
    UsernameRoundTrip(base, a);
    UsernameRoundTrip(base, b);
    PasswordRoundTrip(base, a);
    PasswordRoundTrip(base, b);
  }

  predicate IsCodeChar(c: char) {
    'A' <= c <= 'Z' || 'a' <= c <= 'z' || '0' <= c <= '9' || c == '-'
  }

  predicate AllCode(s: string) {
    forall i :: 0 <= i < |s| ==> IsCodeChar(s[i])
  }

  predicate EndsLine(s: string) {
    |s| > 1 && s[|s| - 1] == '\n'
  }

  /** `validate_code`: empty, or letters, digits and hyphens, after which Python's `$` lets one newline through. */
  predicate ValidCode(s: string) {
    AllCode(s) || (EndsLine(s) && AllCode(s[..|s| - 1]))
  }

  /** A valid code has no underscore, and cleaning drops nothing but that newline. */
  lemma CodesAreClean(s: string)
    requires ValidCode(s)
    ensures '_' !in s
    ensures NormalizeCode(s) == if EndsLine(s) then s[..|s| - 1] else s
  {
    hide Strip, WithoutSpaces;
    var code := if EndsLine(s) then s[..|s| - 1] else s;
    assert NoBlanks(code);
    if EndsLine(s) {
      StripNewline(code);
      assert s == code + "\n";
    } else {
      StripNothing(code);
    }
    NoSpacesToDrop(code);
  }

  lemma StripNewline(code: string)
    requires NoBlanks(code) && code != ""
    ensures Strip(code + "\n") == code
  {
    var s := code + "\n";
    assert s[0] == code[0] && code[0] in code;
    assert StripLeft(s) == s;
    StripNothing(code);
    assert StripLeft(code) == code;
    assert s[..|s| - 1] == code && s[|s| - 1] == '\n';
  }

  lemma {:induction false} NoSpacesToDrop(s: string)
    requires ' ' !in s
    ensures WithoutSpaces(s) == s
  {
    if s != "" {
      NoSpacesToDrop(s[1..]);
    }
  }

  // --- the strings, character by character ----------------------------------------------------------

  /** The text with blanks around it. */
  ghost predicate Wraps(s: string, core: string) {
    Bare(core) && exists before, after :: OnlyBlanks(before) && OnlyBlanks(after) && s == before + core + after
  }

  /** What the parts of a location stand for: codes and a session without underscore, each with blanks around it. */
  ghost predicate StandsFor(loc: Location, area: string, state: string, city: string, session: string) {
    && AllCode(area) && AllCode(state) && AllCode(city) && '_' !in session
    && Wraps(loc.area, area) && Wraps(loc.state, state) && Wraps(loc.city, city) && Wraps(loc.session, session)
  }

  lemma StripUnwraps(s: string, core: string)
    requires Wraps(s, core)
    ensures Strip(s) == core
  {
    hide Strip, OnlyBlanks, Bare;
    var before, after :| OnlyBlanks(before) && OnlyBlanks(after) && s == before + core + after;
    StripTakesBlanks(before, core, after);
  }

  lemma CleanedIs(loc: Location, area: string, state: string, city: string, session: string)
    requires StandsFor(loc, area, state, city, session)
    ensures Cleaned(loc) == Location(area, state, city, loc.life, session) && Plain(Cleaned(loc))
  {
    hide Strip, WithoutSpaces, Wraps;
    StripUnwraps(loc.area, area);
    StripUnwraps(loc.state, state);
    StripUnwraps(loc.city, city);
    StripUnwraps(loc.session, session);
    NoSpacesToDrop(area);
    NoSpacesToDrop(state);
    NoSpacesToDrop(city);
  }

  lemma {:induction false} SpacesDrop(a: string, b: string)
    ensures WithoutSpaces(a + b) == WithoutSpaces(a) + WithoutSpaces(b) && WithoutSpaces(" ") == ""
  {
    if a == "" {
      assert a + b == b;
    } else {
      assert (a + b)[1..] == a[1..] + b;
      SpacesDrop(a[1..], b);
    }
  }

  /** Spaces inside a code are dropped too: cleaning "New York" gives "NewYork". */
  lemma InnerSpacesDrop(a: string, b: string)
    requires AllCode(a) && AllCode(b) && a != "" && b != ""
    ensures NormalizeCode(a + " " + b) == a + b
  {
    hide Strip, WithoutSpaces;
    var s := a + " " + b;
    BlankIff(s[0]);
    BlankIff(s[|s| - 1]);
    assert Bare(s) && "" + s + "" == s;
    StripTakesBlanks("", s, "");
    SpacesDrop(a + " ", b);
    SpacesDrop(a, " ");
    NoSpacesToDrop(a);
    NoSpacesToDrop(b);
  }

  /** A field of a credential; one without a value is left out. */
  function Part(key: string, value: string): string {
    if value == "" then "" else "_" + key + "-" + value
  }

  function Parts(pairs: seq<(string, string)>): string {
    if pairs == [] then "" else Part(pairs[0].0, pairs[0].1) + Parts(pairs[1..])
  }

  lemma {:induction false} JoinedParts(base: string, pairs: seq<(string, string)>)
    ensures Join([base] + Fields(pairs)) == base + Parts(pairs)
    decreases |pairs|
  {
    if pairs == [] {
      assert base + "" == base;
    } else {
      var (k, v) := pairs[0];
      if v == "" {
        JoinedParts(base, pairs[1..]);
      } else {
        var rest := [k + "-" + v] + Fields(pairs[1..]);
        assert ([base] + Fields(pairs))[1..] == rest;
        JoinedParts(k + "-" + v, pairs[1..]);
      }
    }
  }

  lemma FirstPart(pairs: seq<(string, string)>, from: nat)
    requires from < |pairs|
    ensures Parts(pairs[from..]) == Part(pairs[from].0, pairs[from].1) + Parts(pairs[from + 1..])
  {
    assert pairs[from..][1..] == pairs[from + 1..];
  }

  lemma FiveParts(p: seq<(string, string)>)
    requires |p| == 5
    ensures Parts(p) == Part(p[0].0, p[0].1) + Part(p[1].0, p[1].1) + Part(p[2].0, p[2].1) + Part(p[3].0, p[3].1)
                        + Part(p[4].0, p[4].1)
  {
    assert p[0..] == p && Parts(p[5..]) == "";
    hide Parts, Part;
    FirstPart(p, 0);
    FirstPart(p, 1);
    FirstPart(p, 2);
    FirstPart(p, 3);
    FirstPart(p, 4);
    FiveTexts(Part(p[0].0, p[0].1), Part(p[1].0, p[1].1), Part(p[2].0, p[2].1), Part(p[3].0, p[3].1),
              Part(p[4].0, p[4].1));
  }

  lemma FiveTexts(a: string, b: string, c: string, d: string, e: string)
    ensures a + (b + (c + (d + (e + "")))) == a + b + c + d + e
  {
    assert d + (e + "") == d + e;
    assert c + (d + e) == c + d + e;
    assert b + (c + d + e) == b + c + d + e;
  }

  lemma UsernameOf(base: string, loc: Location)
    ensures var c := Cleaned(loc);
            BuildUsername(base, loc)
            == base + Part("area", c.area) + Part("state", c.state) + Part("city", c.city)
               + Part("life", if c.life > 0 then Dec(ClampLife(c.life, 1440)) else "") + Part("session", c.session)
  {
    hide Cleaned, Dec, Join, Fields, Parts, Part;
    var p := SmartPairs(Cleaned(loc));
    JoinedParts(base, p);
    FiveParts(p);
    SixTexts(base, Part(p[0].0, p[0].1), Part(p[1].0, p[1].1), Part(p[2].0, p[2].1), Part(p[3].0, p[3].1),
             Part(p[4].0, p[4].1));
  }

  lemma PasswordOf(base: string, loc: Location)
    ensures var c := Cleaned(loc);
            BuildIproyalPassword(base, loc)
            == base + Part("country", Lower(c.area)) + Part("state", Lower(c.state)) + Part("city", Lower(c.city))
               + Part("session", c.session) + Part("lifetime", if c.life > 0 then IproyalLifetime(c.life) else "")
  {
    hide Cleaned, Dec, Join, Fields, Parts, Part, IproyalLifetime, Lower;
    var p := IproyalPairs(Cleaned(loc));
    JoinedParts(base, p);
    FiveParts(p);
    SixTexts(base, Part(p[0].0, p[0].1), Part(p[1].0, p[1].1), Part(p[2].0, p[2].1), Part(p[3].0, p[3].1),
             Part(p[4].0, p[4].1));
  }

  lemma SixTexts(base: string, a: string, b: string, c: string, d: string, e: string)
    ensures base + (a + b + c + d + e) == base + a + b + c + d + e
  {
  }

  /** The user name: the base, then area, state, city, life and session in this order, each only if it is set; blanks
      around a part do not count, and the life is at most 1440 minutes. Decoding it gives the parts back. */
  lemma UsernameIs(base: string, loc: Location, area: string, state: string, city: string, session: string)
    ensures StandsFor(loc, area, state, city, session) ==>
              var minutes := if loc.life <= 0 then 0 else if loc.life > 1440 then 1440 else loc.life;
              && BuildUsername(base, loc)
                 == base + Part("area", area) + Part("state", state) + Part("city", city)
                    + Part("life", if minutes == 0 then "" else Dec(minutes)) + Part("session", session)
              && DecodeUsername(base, BuildUsername(base, loc)) == Location(area, state, city, minutes, session)
  {
    hide Part, Dec, Cleaned, StandsFor, DecodeUsername, BuildUsername, Plain;
    if StandsFor(loc, area, state, city, session) {
      CleanedIs(loc, area, state, city, session);
      UsernameRoundTrip(base, loc);
      UsernameOf(base, loc);
    }
  }

  /** The password: the base, then country, state, city, session and lifetime in this order, each only if it is set, the
      first three in lower case; the lifetime is at most 10080 minutes, and in hours if they are whole. */
  lemma PasswordIs(base: string, loc: Location, area: string, state: string, city: string, session: string)
    ensures StandsFor(loc, area, state, city, session) ==>
              var minutes := if loc.life <= 0 then 0 else if loc.life > 10080 then 10080 else loc.life;
              var lifetime := if minutes == 0 then ""
                              else if minutes % 60 == 0 then Dec(minutes / 60) + "h" else Dec(minutes) + "m";
              && BuildIproyalPassword(base, loc)
                 == base + Part("country", Lower(area)) + Part("state", Lower(state)) + Part("city", Lower(city))
                    + Part("session", session) + Part("lifetime", lifetime)
              && DecodePassword(base, BuildIproyalPassword(base, loc))
                 == Location(Lower(area), Lower(state), Lower(city), minutes, session)
  {
    hide Part, Dec, Cleaned, StandsFor, DecodePassword, BuildIproyalPassword, Plain, Lower;
    if StandsFor(loc, area, state, city, session) {
      CleanedIs(loc, area, state, city, session);
      PasswordRoundTrip(base, loc);
      PasswordOf(base, loc);
    }
  }
}
