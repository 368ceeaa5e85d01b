/** Configuration validation: AMP chain names and deployment rules. */
module Config {
  import opened Types

  // ---------- AMP names ----------

  // Chains by name, each with its optional AMP alias.
  type Chains = map<string, Option<string>>

  function Effective(chains: Chains, name: string): string
    requires name in chains
  {
    if chains[name].Some? then chains[name].value else name
  }

  ghost predicate Injective(chains: Chains) {
    forall n, m :: n in chains && m in chains && Effective(chains, n) == Effective(chains, m) ==> n == m
  }

  /** No effective name is the name of another chain. */
  ghost predicate NoCollision(chains: Chains) {
    forall n :: n in chains && Effective(chains, n) in chains ==> Effective(chains, n) == n
  }

  predicate Collides(chains: Chains, name: string)
    requires name in chains
  {
    chains[name].Some? && chains[name].value in chains && chains[chains[name].value] != chains[name]
  }

  /** The AMP part of `ChainSection::validate`; chains come in any order. */
  method ValidateAmpNames(chains: Chains) returns (ok: bool)
    ensures ok <==> Injective(chains) && NoCollision(chains)
  {
    var seen: map<string, string> := map[];
    var todo := chains.Keys;
    while todo != {}
      invariant todo <= chains.Keys
      invariant forall n :: n in chains.Keys - todo ==> Effective(chains, n) in seen && seen[Effective(chains, n)] == n
      invariant forall e :: e in seen ==> seen[e] in chains.Keys - todo && Effective(chains, seen[e]) == e
      invariant forall n :: n in chains.Keys - todo ==> !Collides(chains, n)
      decreases todo
    {
      var name :| name in todo;
      var effective := Effective(chains, name);
      if effective in seen {
        assert seen[effective] != name;
        return false;
      }
      if Collides(chains, name) {
        CollisionShows(chains, name);
        return false;
      }
      seen := seen[effective := name];
      todo := todo - {name};
    }
    assert chains.Keys - todo == chains.Keys;
    NoneCollides(chains);
    ok := true;
  }

  lemma CollisionShows(chains: Chains, name: string)
    requires name in chains && Collides(chains, name)
    ensures !NoCollision(chains)
  {
    assert Effective(chains, name) in chains && Effective(chains, name) != name;
  }

  lemma NoneCollides(chains: Chains)
    requires Injective(chains) && forall n :: n in chains ==> !Collides(chains, n)
    ensures NoCollision(chains)
  {
    forall n | n in chains && Effective(chains, n) in chains
      ensures Effective(chains, n) == n
    {
      assert Effective(chains, Effective(chains, n)) == Effective(chains, n);
    }
  }

  /** `amp_chain_names`: effective names to chain names, later entries winning. */
  method AmpChainNames(chains: Chains) returns (names: map<string, string>)
    requires Injective(chains)
    ensures names.Keys == set n | n in chains :: Effective(chains, n)
    ensures forall n :: n in chains ==> names[Effective(chains, n)] == n
    ensures |names| == |chains|
  {
    names := map[];
    var todo := chains.Keys;
    while todo != {}
      invariant todo <= chains.Keys
      invariant names.Keys == set n | n in chains && n !in todo :: Effective(chains, n)
      invariant forall n :: n in chains && n !in todo ==> Effective(chains, n) in names && names[Effective(chains, n)] == n
      invariant |names| + |todo| == |chains|
      decreases todo
    {
      var name :| name in todo;
      assert Effective(chains, name) !in names;
      names := names[Effective(chains, name) := name];
      todo := todo - {name};
    }
  }

  /** Unknown names pass through. */
  function Resolve(names: map<string, string>, name: string): string {
    if name in names then names[name] else name
  }

  /** After validation both a chain's AMP name and its own name resolve to the chain. */
  lemma ResolvesToChain(chains: Chains, names: map<string, string>, name: string)
    requires Injective(chains) && NoCollision(chains) && name in chains
    requires names.Keys == set n | n in chains :: Effective(chains, n)
    requires forall n :: n in chains ==> names[Effective(chains, n)] == n
    ensures Resolve(names, Effective(chains, name)) == name
    ensures Resolve(names, name) == name
  {
    assert Effective(chains, name) in names;
    if name in names {
      var n :| n in chains && Effective(chains, n) == name;
    }
  }

  // ---------- deployment rules ----------

  const ANY_NAME := ".*"

  // `networks` absent means any network.
  datatype Rule = Rule(name: string, networks: Option<seq<string>>, shards: seq<string>, indexers: seq<string>)
  {
    ghost predicate IsDefault() {
      name == ANY_NAME && networks.None?
    }
  }

  // Which names are valid nodes and shards, and what a pattern matches in full.
  datatype Rules = Rules(validNode: string -> bool, validShard: string -> bool, fullMatch: (string, string) -> bool)
  {
    ghost predicate RuleValid(r: Rule) {
      && r.indexers != []
      && (forall i :: 0 <= i < |r.indexers| ==> validNode(r.indexers[i]))
      && (forall i :: 0 <= i < |r.shards| ==> validShard(r.shards[i]))
    }

    ghost predicate Matches(r: Rule, name: string, network: string) {
      (r.networks.Some? ==> network in r.networks.value) && fullMatch(r.name, name)
    }
  }

  /** `Deployment::validate`: all rules are valid and exactly the last one is a default. */
  method ValidateRules(env: Rules, rules: seq<Rule>) returns (ok: bool)
    ensures ok <==> && rules != [] && (forall i :: 0 <= i < |rules| ==> env.RuleValid(rules[i]))
                    && forall i :: 0 <= i < |rules| ==> (rules[i].IsDefault() <==> i == |rules| - 1)
  {
    if rules == [] {
      return false;
    }
    var default := false;
    for i := 0 to |rules|
      invariant forall j :: 0 <= j < i ==> env.RuleValid(rules[j])
      invariant forall j :: 0 <= j < i - 1 ==> !rules[j].IsDefault()
      invariant default <==> i > 0 && rules[i - 1].IsDefault()
    {
      var rule := rules[i];
      if rule.indexers == [] {
        return false;
      }
      if exists k :: 0 <= k < |rule.indexers| && !env.validNode(rule.indexers[k]) {
        return false;
      }
      if exists k :: 0 <= k < |rule.shards| && !env.validShard(rule.shards[k]) {
        return false;
      }
      if default {
        return false;
      }
      default := rule.networks.None? && rule.name == ANY_NAME;
    }
    ok := default;
  }

  datatype Placement = Placed(shards: seq<string>, indexers: seq<string>) | Unplaced | Invalid

  /** `place`: the first rule that matches. */
  method Place(env: Rules, rules: seq<Rule>, name: string, network: string) returns (p: Placement)
    ensures p == Unplaced <==> forall i :: 0 <= i < |rules| ==> !env.Matches(rules[i], name, network)
    ensures forall i :: 0 <= i < |rules| && env.Matches(rules[i], name, network) &&
                        (forall j :: 0 <= j < i ==> !env.Matches(rules[j], name, network)) ==>
              if (forall k :: 0 <= k < |rules[i].indexers| ==> env.validNode(rules[i].indexers[k])) &&
                 (forall k :: 0 <= k < |rules[i].shards| ==> env.validShard(rules[i].shards[k]))
              then p == Placed(rules[i].shards, rules[i].indexers) else p == Invalid
  {
    for i := 0 to |rules|
      invariant forall j :: 0 <= j < i ==> !env.Matches(rules[j], name, network)
    {
      if (rules[i].networks.None? || network in rules[i].networks.value) && env.fullMatch(rules[i].name, name) {
        if (forall k :: 0 <= k < |rules[i].indexers| ==> env.validNode(rules[i].indexers[k])) &&
           (forall k :: 0 <= k < |rules[i].shards| ==> env.validShard(rules[i].shards[k])) {
          return Placed(rules[i].shards, rules[i].indexers);
        }
        return Invalid;
      }
    }
    p := Unplaced;
  }

  /** Validated rules place every deployment whose name the any-name pattern matches in full. */
  method PlaceValidated(env: Rules, rules: seq<Rule>, name: string, network: string) returns (p: Placement)
    requires rules != [] && forall i :: 0 <= i < |rules| ==> env.RuleValid(rules[i])
    requires rules[|rules| - 1].IsDefault()
    ensures env.fullMatch(ANY_NAME, name) ==> p.Placed? && p.indexers != []
    ensures p != Invalid
  {
    p := Place(env, rules, name, network);
    FirstMatch(env, rules, name, network);
    assert env.fullMatch(ANY_NAME, name) ==> env.Matches(rules[|rules| - 1], name, network);
  }

  lemma {:induction false} FirstMatch(env: Rules, rules: seq<Rule>, name: string, network: string)
    ensures (exists i :: 0 <= i < |rules| && env.Matches(rules[i], name, network)) ==>
            exists i :: 0 <= i < |rules| && env.Matches(rules[i], name, network) &&
                        forall j :: 0 <= j < i ==> !env.Matches(rules[j], name, network)
  {
    if rules != [] {
      var n := |rules| - 1;
      FirstMatch(env, rules[..n], name, network);
      if exists i :: 0 <= i < n && env.Matches(rules[i], name, network) {
        var i :| 0 <= i < n && env.Matches(rules[i], name, network);
        assert env.Matches(rules[..n][i], name, network);
        var k :| 0 <= k < n && env.Matches(rules[..n][k], name, network) &&
                 forall j :: 0 <= j < k ==> !env.Matches(rules[..n][j], name, network);
        assert env.Matches(rules[k], name, network);
        assert forall j :: 0 <= j < k ==> rules[..n][j] == rules[j];
      }
    }
  }
}
