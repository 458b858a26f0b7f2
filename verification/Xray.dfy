/** The Xray configuration: outbounds looked up by tag, and an ordered list of routing rules of which the first match
    decides. */
module Xray {
  import opened Prelude

  /** An outbound of the bot, or one that somebody else wrote. */
  datatype Body = Proxy(host: string, port: int, user: string, pass: string) | Other(text: string)

  datatype Outbound = Outbound(tag: string, body: Body)

  /** A rule; no inbound tags means any inbound. `others` are its further conditions (domains, addresses, ...). */
  datatype Rule = Rule(isField: bool, inbounds: seq<string>, others: set<string>, target: string)

  datatype Config = Config(outbounds: seq<Outbound>, rules: seq<Rule>)

  // --- what the operations compute ------------------------------------------------------------

  /** `get_outbound`. */
  function Tagged(obs: seq<Outbound>, tag: string): Option<Outbound> {
    if obs == [] then None
    else if obs[0].tag == tag then Some(obs[0])
    else Tagged(obs[1..], tag)
  }

  function CountTag(obs: seq<Outbound>, tag: string): nat {
    if obs == [] then 0 else (if obs[0].tag == tag then 1 else 0) + CountTag(obs[1..], tag)
  }

  /** `upsert_outbound`: in place of the first with the tag, else at the end. */
  function Upserted(obs: seq<Outbound>, ob: Outbound): seq<Outbound> {
    if obs == [] then [ob]
    else if obs[0].tag == ob.tag then [ob] + obs[1..]
    else [obs[0]] + Upserted(obs[1..], ob)
  }

  /** `remove_outbound`. */
  function Untagged(obs: seq<Outbound>, tag: string): seq<Outbound> {
    if obs == [] then []
    else if obs[0].tag == tag then Untagged(obs[1..], tag)
    else [obs[0]] + Untagged(obs[1..], tag)
  }

  predicate Names(r: Rule, inbound: string) {
    r.isField && inbound in r.inbounds
  }

  /** `remove_routing_rule_by_inbound`: a rule that names the inbound goes as a whole. */
  function Unnamed(rules: seq<Rule>, inbound: string): seq<Rule> {
    if rules == [] then []
    else if Names(rules[0], inbound) then Unnamed(rules[1..], inbound)
    else [rules[0]] + Unnamed(rules[1..], inbound)
  }

  function OwnRule(inbound: string, target: string): Rule {
    Rule(true, [inbound], {}, target)
  }

  /** `upsert_routing_rule`. */
  function Routed(rules: seq<Rule>, inbound: string, target: string): seq<Rule> {
    [OwnRule(inbound, target)] + Unnamed(rules, inbound)
  }

  /** The edit of `_apply_outbound`. */
  function Applied(c: Config, inbound: string, ob: Outbound): Config {
    Config(Upserted(c.outbounds, ob), Routed(c.rules, inbound, ob.tag))
  }

  /** `cleanup_config_for`. */
  function CleanedUp(c: Config, inbound: string, tag: string): Config {
    Config(Untagged(c.outbounds, tag), Unnamed(c.rules, inbound))
  }

  // --- routing ----------------------------------------------------------------------------------

  /** The rule matches traffic of this inbound for which exactly the conditions `holding` hold. */
  predicate Matches(r: Rule, inbound: string, holding: set<string>) {
    (r.inbounds == [] || inbound in r.inbounds) && r.others <= holding
  }

  function FirstMatch(rules: seq<Rule>, inbound: string, holding: set<string>): Option<Rule> {
    if rules == [] then None
    else if Matches(rules[0], inbound, holding) then Some(rules[0])
    else FirstMatch(rules[1..], inbound, holding)
  }

  // --- the operations in place -------------------------------------------------------------------

  class XrayConfig {
    var outbounds: seq<Outbound>
    var rules: seq<Rule>

    function Value(): Config
      reads this
    {
      Config(outbounds, rules)
    }

    constructor (c: Config)
      ensures Value() == c
    {
      outbounds, rules := c.outbounds, c.rules;
    }

    method UpsertOutbound(ob: Outbound)
      modifies this
      ensures Value() == old(Value()).(outbounds := Upserted(old(outbounds), ob))
    {
      var i := 0;
      while i < |outbounds|
        invariant i <= |outbounds|
        invariant outbounds == old(outbounds) && rules == old(rules)
        invariant Upserted(outbounds, ob) == outbounds[..i] + Upserted(outbounds[i..], ob)
      {
        if outbounds[i].tag == ob.tag {
          assert outbounds[i := ob] == outbounds[..i] + ([ob] + outbounds[i..][1..]);
          outbounds := outbounds[i := ob];
          return;
        }
        assert outbounds[..i + 1] + Upserted(outbounds[i + 1..], ob)
            == outbounds[..i] + ([outbounds[i]] + Upserted(outbounds[i..][1..], ob));
        i := i + 1;
      }
      assert outbounds[..i] == outbounds;
      outbounds := outbounds + [ob];
    }

    method RemoveOutbound(tag: string) returns (changed: bool)
      modifies this
      ensures Value() == old(Value()).(outbounds := Untagged(old(outbounds), tag))
      ensures changed <==> CountTag(old(outbounds), tag) > 0
    {
      var kept := [];
      for i := 0 to |outbounds|
        invariant Untagged(outbounds, tag) == kept + Untagged(outbounds[i..], tag)
        invariant |kept| + CountTag(outbounds, tag) == i + CountTag(outbounds[i..], tag)
      {
        assert outbounds[i..][1..] == outbounds[i + 1..];
        if outbounds[i].tag != tag {
          assert kept + ([outbounds[i]] + Untagged(outbounds[i + 1..], tag))
              == (kept + [outbounds[i]]) + Untagged(outbounds[i + 1..], tag);
          kept := kept + [outbounds[i]];
        }
      }
      changed := |kept| != |outbounds|;
      outbounds := kept;
    }

    method GetOutbound(tag: string) returns (r: Option<Outbound>)
      ensures r == Tagged(outbounds, tag)
    {
      for i := 0 to |outbounds|
        invariant Tagged(outbounds, tag) == Tagged(outbounds[i..], tag)
      {
        if outbounds[i].tag == tag {
          return Some(outbounds[i]);
        }
        assert outbounds[i..][1..] == outbounds[i + 1..];
      }
      r := None;
    }

    method RemoveRules(inbound: string) returns (changed: bool)
      modifies this
      ensures Value() == old(Value()).(rules := Unnamed(old(rules), inbound))
      ensures changed <==> exists r :: r in old(rules) && Names(r, inbound)
    {
      var kept := [];
      for i := 0 to |rules|
        invariant Unnamed(rules, inbound) == kept + Unnamed(rules[i..], inbound)
        invariant |kept| <= i && (|kept| == i <==> forall k :: 0 <= k < i ==> !Names(rules[k], inbound))
      {
        assert rules[i..][1..] == rules[i + 1..];
        if !Names(rules[i], inbound) {
          assert kept + ([rules[i]] + Unnamed(rules[i + 1..], inbound))
              == (kept + [rules[i]]) + Unnamed(rules[i + 1..], inbound);
          kept := kept + [rules[i]];
        }
      }
      changed := |kept| != |rules|;
      rules := kept;
    }

    method UpsertRule(inbound: string, target: string)
      modifies this
      ensures Value() == old(Value()).(rules := Routed(old(rules), inbound, target))
    {
      var _ := RemoveRules(inbound);
      rules := [OwnRule(inbound, target)] + rules;
    }

    method CleanUp(inbound: string, tag: string)
      modifies this
      ensures Value() == CleanedUp(old(Value()), inbound, tag)
    {
      var _ := RemoveRules(inbound);
      var _ := RemoveOutbound(tag);
    }
  }

  // --- outbounds form a table keyed by tag ----------------------------------------------------------

  lemma {:induction false} AbsentTag(obs: seq<Outbound>, tag: string)
    ensures CountTag(obs, tag) == 0 <==> Untagged(obs, tag) == obs
    ensures CountTag(obs, tag) == 0 <==> Tagged(obs, tag).None?
    ensures |Untagged(obs, tag)| + CountTag(obs, tag) == |obs|
  {
    if obs != [] {
      AbsentTag(obs[1..], tag);
    }
  }

  /** After an upsert the tag is found as written and at least once, and only a new tag adds an entry; every other tag
      is found as before. */
  lemma {:induction false} LookupUpserted(obs: seq<Outbound>, ob: Outbound, tag: string)
    ensures Tagged(Upserted(obs, ob), tag) == if tag == ob.tag then Some(ob) else Tagged(obs, tag)
    ensures CountTag(Upserted(obs, ob), tag)
            == if tag == ob.tag && CountTag(obs, tag) == 0 then 1 else CountTag(obs, tag)
  {
    if obs != [] {
      LookupUpserted(obs[1..], ob, tag);
    }
  }

  lemma {:induction false} LookupUntagged(obs: seq<Outbound>, gone: string, tag: string)
    ensures Tagged(Untagged(obs, gone), tag) == if tag == gone then None else Tagged(obs, tag)
    ensures CountTag(Untagged(obs, gone), tag) == if tag == gone then 0 else CountTag(obs, tag)
  {
    if obs != [] {
      LookupUntagged(obs[1..], gone, tag);
    }
  }

  /** The last write wins, at the place of the first. */
  lemma {:induction false} LastUpsertWins(obs: seq<Outbound>, first: Outbound, last: Outbound)
    requires first.tag == last.tag
    ensures Upserted(Upserted(obs, first), last) == Upserted(obs, last)
  {
    if obs != [] && obs[0].tag != last.tag {
      LastUpsertWins(obs[1..], first, last);
      assert Upserted(obs, first)[1..] == Upserted(obs[1..], first);
    }
  }

  /** An upsert takes the place of the first outbound with the tag; a new tag goes to the end, so that the first
      outbound, which is Xray's default, stays the first. */
  lemma {:induction false} UpsertPlace(before: seq<Outbound>, was: Outbound, after: seq<Outbound>, ob: Outbound)
    requires forall o :: o in before ==> o.tag != ob.tag
    ensures Upserted(before, ob) == before + [ob]
    ensures was.tag == ob.tag ==> Upserted(before + [was] + after, ob) == before + [ob] + after
  {
    if before == [] {
      assert (before + [was] + after)[1..] == after;
    } else {
      assert (before + [was] + after)[1..] == before[1..] + [was] + after;
      UpsertPlace(before[1..], was, after, ob);
    }
  }

  /** Everything else keeps its order. */
  lemma {:induction false} UpsertKeepsOthers(obs: seq<Outbound>, ob: Outbound)
    ensures Untagged(Upserted(obs, ob), ob.tag) == Untagged(obs, ob.tag)
  {
    if obs != [] && obs[0].tag != ob.tag {
      UpsertKeepsOthers(obs[1..], ob);
      assert Upserted(obs, ob)[1..] == Upserted(obs[1..], ob);
    }
  }

  // --- rules --------------------------------------------------------------------------------------------

  lemma {:induction false} NothingNamed(rules: seq<Rule>, inbound: string)
    ensures |Unnamed(rules, inbound)| <= |rules|
    ensures Unnamed(rules, inbound) == rules <==> forall r :: r in rules ==> !Names(r, inbound)
  {
    if rules != [] {
      NothingNamed(rules[1..], inbound);
      if !Names(rules[0], inbound) {
        assert Unnamed(rules, inbound)[1..] == Unnamed(rules[1..], inbound);
      }
    }
  }

  lemma {:induction false} UnnamedTwice(rules: seq<Rule>, inbound: string)
    ensures Unnamed(Unnamed(rules, inbound), inbound) == Unnamed(rules, inbound)
    ensures forall r :: r in Unnamed(rules, inbound) <==> r in rules && !(r.isField && inbound in r.inbounds)
  {
    if rules != [] {
      UnnamedTwice(rules[1..], inbound);
      if !Names(rules[0], inbound) {
        assert Unnamed(rules, inbound)[1..] == Unnamed(rules[1..], inbound);
      }
    }
  }

  lemma UnnamedRouted(rules: seq<Rule>, inbound: string, target: string)
    ensures Unnamed(Routed(rules, inbound, target), inbound) == Unnamed(rules, inbound)
  {
    assert Routed(rules, inbound, target)[1..] == Unnamed(rules, inbound);
    UnnamedTwice(rules, inbound);
  }

  /** Applying again changes only the outbound to the last one written; applying the same again changes nothing. */
  lemma LastApplyWins(c: Config, inbound: string, first: Outbound, last: Outbound)
    requires first.tag == last.tag
    ensures Applied(Applied(c, inbound, first), inbound, last) == Applied(c, inbound, last)
  {
    LastUpsertWins(c.outbounds, first, last);
    UnnamedRouted(c.rules, inbound, first.tag);
  }

  predicate Mentions(c: Config, inbound: string, tag: string) {
    CountTag(c.outbounds, tag) > 0 || exists r :: r in c.rules && Names(r, inbound)
  }

  /** Cleaning up after an upsert of both gives back the configuration exactly if it mentioned neither tag. */
  lemma CleanupUndoesApply(c: Config, inbound: string, ob: Outbound)
    ensures CleanedUp(Applied(c, inbound, ob), inbound, ob.tag) == c <==> !Mentions(c, inbound, ob.tag)
  {
    UpsertKeepsOthers(c.outbounds, ob);
    AbsentTag(c.outbounds, ob.tag);
    UnnamedRouted(c.rules, inbound, ob.tag);
    NothingNamed(c.rules, inbound);
  }

  // --- routing of one inbound and of the others -------------------------------------------------------------

  lemma {:induction false} FirstMatchIsThere(rules: seq<Rule>, inbound: string, holding: set<string>)
    ensures var m := FirstMatch(rules, inbound, holding);
            if m.Some? then m.value in rules && Matches(m.value, inbound, holding)
            else forall r :: r in rules ==> !Matches(r, inbound, holding)
  {
    if rules != [] {
      FirstMatchIsThere(rules[1..], inbound, holding);
    }
  }

  /** A rule decides for the traffic that reaches it if it names its inbound or none at all, and all its further
      conditions hold; otherwise the rules behind it do. */
  lemma FirstRuleDecides(r: Rule, rest: seq<Rule>, inbound: string, holding: set<string>)
    ensures FirstMatch([r] + rest, inbound, holding)
            == if (|r.inbounds| == 0 || inbound in r.inbounds) && (forall c :: c in r.others ==> c in holding)
               then Some(r)
               else FirstMatch(rest, inbound, holding)
  {
    assert ([r] + rest)[1..] == rest;
  }

  lemma {:induction false} FirstMatchUnnamed(rules: seq<Rule>, inbound: string, other: string, holding: set<string>)
    requires FirstMatch(rules, other, holding).Some? ==> !Names(FirstMatch(rules, other, holding).value, inbound)
    ensures FirstMatch(Unnamed(rules, inbound), other, holding) == FirstMatch(rules, other, holding)
  {
    if rules != [] {
      if !Matches(rules[0], other, holding) {
        FirstMatchUnnamed(rules[1..], inbound, other, holding);
      }
      if !Names(rules[0], inbound) {
        assert Unnamed(rules, inbound)[1..] == Unnamed(rules[1..], inbound);
      }
    }
  }

  /** Traffic of the routed inbound goes to the outbound, whatever else holds; the deciding rule of any traffic of
      another inbound stays the same exactly if it does not name the routed one. */
  lemma OtherRoutingKeptIff(rules: seq<Rule>, inbound: string, target: string, other: string, holding: set<string>)
    requires other != inbound
    ensures FirstMatch(Routed(rules, inbound, target), inbound, holding) == Some(Rule(true, [inbound], {}, target))
    ensures var m := FirstMatch(rules, other, holding);
            FirstMatch(Routed(rules, inbound, target), other, holding) == m <==> !(m.Some? && Names(m.value, inbound))
  {
    var m := FirstMatch(rules, other, holding);
    assert Routed(rules, inbound, target)[1..] == Unnamed(rules, inbound);
    if m.Some? && Names(m.value, inbound) {
      FirstMatchIsThere(Unnamed(rules, inbound), other, holding);
      UnnamedTwice(rules, inbound);
    } else {
      FirstMatchUnnamed(rules, inbound, other, holding);
    }
  }

  /** No rule that names this inbound names another one. */
  predicate NamedAlone(rules: seq<Rule>, inbound: string) {
    forall r, t :: r in rules && Names(r, inbound) && t in r.inbounds ==> t == inbound
  }

  /** If removed rules name only the routed inbound, all traffic of all others is routed as before. */
  lemma OtherRoutingKept(rules: seq<Rule>, inbound: string, target: string, other: string, holding: set<string>)
    requires other != inbound && NamedAlone(rules, inbound)
    ensures FirstMatch(Routed(rules, inbound, target), other, holding) == FirstMatch(rules, other, holding)
    ensures FirstMatch(Unnamed(rules, inbound), other, holding) == FirstMatch(rules, other, holding)
  {
    var m := FirstMatch(rules, other, holding);
    FirstMatchIsThere(rules, other, holding);
    FirstMatchUnnamed(rules, inbound, other, holding);
    OtherRoutingKeptIff(rules, inbound, target, other, holding);
  }

  /** A rule that names two inbounds is removed whole, so routing one of them takes the rule away from the other. */
  lemma SharedRuleIsLost(rules: seq<Rule>, inbound: string, target: string, other: string, previous: string)
    requires other != inbound
    requires FirstMatch(rules, other, {}) == Some(Rule(true, [inbound, other], {}, previous))
    ensures FirstMatch(Routed(rules, inbound, target), other, {}) != FirstMatch(rules, other, {})
  {
    OtherRoutingKeptIff(rules, inbound, target, other, {});
  }
}
