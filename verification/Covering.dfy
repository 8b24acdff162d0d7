/** What an access pattern covers, read off the text alone, and who may therefore see, publish and subscribe. */
module Covering {
  import opened Basics
  import opened Catalogs

  /** A name with at least the dot after the prefix. */
  ghost predicate Below(prefix: string, name: string) {
    exists rest: string :: name == prefix + "." + rest
  }

  ghost predicate IsWildcard(pattern: string) {
    exists prefix: string :: pattern == prefix + ".*"
  }

  /** Everything below the prefix of a wildcard, or the one name it spells out. */
  ghost predicate Covers(pattern: string, name: string) {
    || (exists prefix: string :: pattern == prefix + ".*" && Below(prefix, name))
    || (!IsWildcard(pattern) && pattern == name)
  }

  /** The dot belongs to the prefix: "home.*" covers "home.light" and "home.", but neither "home" nor "homework". */
  lemma WildcardCovers(prefix: string, name: string)
    ensures PatternMatches(prefix + ".*", name) <==> Below(prefix, name)
  {
    var pattern := prefix + ".*";
    assert pattern[|pattern| - 2..] == ".*" && pattern[..|pattern| - 1] == prefix + ".";
    if prefix + "." <= name {
      assert name == prefix + "." + name[|prefix| + 1..];
    }
  }

  /** A pattern without the suffix covers itself and nothing else; in particular a lone star is no wildcard. */
  lemma PlainCovers(pattern: string, name: string)
    requires !IsWildcard(pattern)
    ensures PatternMatches(pattern, name) <==> pattern == name
  {
    WildcardIsSuffix(pattern);
  }

  lemma WildcardIsSuffix(pattern: string)
    ensures IsWildcard(pattern) <==> |pattern| >= 2 && pattern[|pattern| - 2..] == ".*"
  {
    if |pattern| >= 2 && pattern[|pattern| - 2..] == ".*" {
      assert pattern == pattern[..|pattern| - 2] + ".*";
    }
  }

  lemma MatchesIffCovers(pattern: string, name: string)
    ensures PatternMatches(pattern, name) <==> Covers(pattern, name)
  {
    if IsWildcard(pattern) {
      var prefix :| pattern == prefix + ".*";
      WildcardCovers(prefix, name);
      forall other: string | pattern == other + ".*" ensures other == prefix {
        assert other == pattern[..|pattern| - 2] && prefix == pattern[..|pattern| - 2];
      }
    } else {
      PlainCovers(pattern, name);
    }
  }

  ghost predicate SomeCovers(patterns: seq<string>, name: string) {
    exists i :: 0 <= i < |patterns| && Covers(patterns[i], name)
  }

  lemma MatchesAnyIffCovers(patterns: seq<string>, name: string)
    ensures MatchesAny(patterns, name) <==> SomeCovers(patterns, name)
  {
    forall i | 0 <= i < |patterns| ensures PatternMatches(patterns[i], name) <==> Covers(patterns[i], name) {
      MatchesIffCovers(patterns[i], name);
    }
  }

  // ---------- who may do what ----------

  /** A user sees a path exactly if the state ACL of some active slot has a pattern for it that covers the path. */
  lemma SeesIffCovered(configs: map<string, Config>, user: string, path: string)
    ensures CanSee(configs, user, path)
            <==> exists slot :: slot in configs && user in configs[slot].stateACL && SomeCovers(configs[slot].stateACL[user], path)
  {
    forall slot | slot in configs && user in configs[slot].stateACL
      ensures Sees(configs[slot], user, path) <==> SomeCovers(configs[slot].stateACL[user], path)
    {
      MatchesAnyIffCovers(configs[slot].stateACL[user], path);
    }
  }

  /** It may publish a topic exactly if some event ACL has such a pattern among those for publishing ... */
  lemma PublishesIffCovered(configs: map<string, Config>, user: string, topic: string)
    ensures CanPublish(configs, user, topic)
            <==> exists slot :: slot in configs && user in configs[slot].eventACL && SomeCovers(configs[slot].eventACL[user].publish, topic)
  {
    forall slot | slot in configs && user in configs[slot].eventACL
      ensures Publishes(configs[slot], user, topic) <==> SomeCovers(configs[slot].eventACL[user].publish, topic)
    {
      MatchesAnyIffCovers(configs[slot].eventACL[user].publish, topic);
    }
  }

  /** ... and subscribe to one exactly if there is one among those for subscribing. */
  lemma SubscribesIffCovered(configs: map<string, Config>, user: string, topic: string)
    ensures CanSubscribe(configs, user, topic)
            <==> exists slot :: slot in configs && user in configs[slot].eventACL && SomeCovers(configs[slot].eventACL[user].subscribe, topic)
  {
    forall slot | slot in configs && user in configs[slot].eventACL
      ensures Subscribes(configs[slot], user, topic) <==> SomeCovers(configs[slot].eventACL[user].subscribe, topic)
    {
      MatchesAnyIffCovers(configs[slot].eventACL[user].subscribe, topic);
    }
  }

  /** A user to whom every active slot grants only what is below a prefix. */
  ghost predicate GrantedOnly(configs: map<string, Config>, user: string, prefix: string) {
    forall slot, i :: slot in configs && user in configs[slot].stateACL && 0 <= i < |configs[slot].stateACL[user]| ==>
      configs[slot].stateACL[user][i] == prefix + ".*"
  }

  /** Such a user is shown no path and no value outside of it, in no frame. */
  lemma OutsideIsHidden(c: Catalog, user: string, prefix: string)
    requires GrantedOnly(c.configs, user, prefix)
    ensures forall path :: path in VisibleState(c, user) ==> Below(prefix, path)
    ensures forall e :: e in PathEntries(c, user) ==> Below(prefix, e.1)
    ensures forall e :: e in StateEntries(c, user) ==>
              exists path :: path in c.state && Below(prefix, path) && e == (IdOf(c.paths.byName, path), c.state[path])
  {
    forall path | CanSee(c.configs, user, path) ensures Below(prefix, path) {
      var slot :| slot in c.configs && Sees(c.configs[slot], user, path);
      var i :| 0 <= i < |c.configs[slot].stateACL[user]| && PatternMatches(c.configs[slot].stateACL[user][i], path);
      WildcardCovers(prefix, path);
    }
  }

  // ---------- what the dictionaries list ----------

  /** The declared names of some active slot. */
  ghost predicate IsDeclared(kind: Kind, configs: map<string, Config>, name: string) {
    exists slot :: slot in configs && name in Declared(kind, configs[slot])
  }

  lemma OwnedIffDeclared(kind: Kind, owners: map<string, string>, configs: map<string, Config>, name: string)
    requires OwnersInv(kind, owners, configs)
    ensures name in owners <==> IsDeclared(kind, configs, name)
  {
  }

  /** A user is listed exactly the declared paths it may see, each under the ID the dictionary leads back from. */
  lemma PathsListed(c: Catalog, next: int, user: string, id: int, path: string)
    requires CatalogInv(c) && NamesInv(c.paths, next)
    ensures (id, path) in PathEntries(c, user)
            <==> IsDeclared(Path, c.configs, path) && CanSee(c.configs, user, path) && path in c.paths.byName && c.paths.byName[path] == id
    ensures (id, path) in PathEntries(c, user) ==> id in c.paths.byID && c.paths.byID[id] == path
  {
    OwnedIffDeclared(Path, c.stateOwners, c.configs, path);
  }

  /** ... exactly the declared topics it may publish or subscribe to ... */
  lemma TopicsListed(c: Catalog, next: int, user: string, id: int, topic: string)
    requires CatalogInv(c) && NamesInv(c.topics, next)
    ensures (id, topic) in TopicEntries(c, user)
            <==> && IsDeclared(Topic, c.configs, topic) && (CanPublish(c.configs, user, topic) || CanSubscribe(c.configs, user, topic))
                 && topic in c.topics.byName && c.topics.byName[topic] == id
  {
    OwnedIffDeclared(Topic, c.topicOwners, c.configs, topic);
    if (id, topic) in TopicEntries(c, user) {
      var t :| t in c.topicOwners && (CanPublish(c.configs, user, t) || CanSubscribe(c.configs, user, t))
               && (id, topic) == (IdOf(c.topics.byName, t), NameOf(c.topics.byID, IdOf(c.topics.byName, t)));
      assert t == topic;
    }
  }

  /** ... and every declared function. */
  lemma FunctionsListed(c: Catalog, next: int, id: int, name: string)
    requires CatalogInv(c) && NamesInv(c.functions, next)
    ensures (id, name) in FunctionEntries(c)
            <==> IsDeclared(Function, c.configs, name) && name in c.functions.byName && c.functions.byName[name] == id
  {
    OwnedIffDeclared(Function, c.functionOwners, c.configs, name);
    if (id, name) in FunctionEntries(c) {
      var n :| n in c.functionOwners && (id, name) == (IdOf(c.functions.byName, n), NameOf(c.functions.byID, IdOf(c.functions.byName, n)));
      assert n == name;
    }
  }
}
