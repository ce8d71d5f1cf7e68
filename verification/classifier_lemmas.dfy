/** What the constructor promises about the groups it builds. */
module ClassifierLemmas {
  import opened Wrappers
  import opened JsStrings
  import opened PermissionTypes
  import opened Classifier

  /* ---------------------------------------------------------------------
     Page names
     --------------------------------------------------------------------- */

  /** No proper suffix of `content/page_` starts with its first letter, so
      two occurrences of it never overlap. */
  lemma PagePrefixHasNoSelfOverlap(d: int)
    requires 0 < d < |PagePrefix|
    ensures PagePrefix[d] != PagePrefix[0]
  {
  }

  /** Stripping through the marker of `<dir>content/page_<rest>` leaves
      `<rest>` when the marker does not occur again in `<rest>`. */
  lemma {:induction false} StripConventionalPrefix(dir: string, rest: string)
    requires NoLineTerminator(dir)
    requires !Contains(rest, PagePrefix)
    ensures StripThroughLast(dir + PagePrefix + rest, PagePrefix) == rest
  {
    var s := dir + PagePrefix + rest;
    var k := |dir|;
    var P := PagePrefix;
    assert s[..k] == dir;
    assert s[k..k + |P|] == P;
    assert s[k + |P|..] == rest;
    assert LeadingMatchAt(s, P, k);
    forall j | k < j
      ensures !LeadingMatchAt(s, P, j)
    {
      if OccursAt(s, P, j) {
        assert s[j] == s[j..j + |P|][0];
        if j < k + |P| {
          assert s[j] == P[j - k];
          PagePrefixHasNoSelfOverlap(j - k);
        } else {
          var i := j - k - |P|;
          assert rest[i..i + |P|] == s[j..j + |P|];
          assert OccursAt(rest, P, i);
        }
      }
    }
    assert IsLastLeadingMatch(s, P, k);
  }

  /** Removing the first `.js` of `<name>.js` leaves `<name>` when `.js`
      does not occur in `<name>`. */
  lemma {:induction false} ReplaceTrailingExtension(name: string)
    requires !Contains(name, JsExtension)
    ensures ReplaceFirst(name + JsExtension, JsExtension, "") == name
  {
    var t := name + JsExtension;
    var n := |name|;
    assert t[n..n + 3] == JsExtension;
    forall j | 0 <= j < n
      ensures !OccursAt(t, JsExtension, j)
    {
      if OccursAt(t, JsExtension, j) {
        if j + 3 <= n {
          assert name[j..j + 3] == t[j..j + 3];
          assert OccursAt(name, JsExtension, j);
        } else {
          OccurrenceChar(t, JsExtension, j, n - j);
          assert false;
        }
      }
    }
    assert IsFirstOccurrence(t, JsExtension, n);
    assert t[..n] + "" + t[n + 3..] == name;
  }

  /** The page script convention round-trips: a script named
      `<dir>content/page_<name>.js` yields the page name `<name>`, whatever
      directory precedes the marker, provided the directory is on one line
      and the name itself holds neither the marker nor `.js`. */
  lemma PageNameOfConventionalScript(dir: string, name: string)
    requires NoLineTerminator(dir)
    requires !Contains(name, PagePrefix)
    requires !Contains(name, JsExtension)
    ensures PageName(dir + PagePrefix + name + JsExtension) == name
  {
    var t := name + JsExtension;
    assert dir + PagePrefix + name + JsExtension == dir + PagePrefix + t;
    assert !Contains(t, PagePrefix) by {
      forall j | OccursAt(t, PagePrefix, j)
        ensures false
      {
        if j + |PagePrefix| <= |name| {
          assert name[j..j + |PagePrefix|] == t[j..j + |PagePrefix|];
          assert OccursAt(name, PagePrefix, j);
        } else {
          OccurrenceChar(t, PagePrefix, j, |PagePrefix| - 1);
          assert false;
        }
      }
    }
    StripConventionalPrefix(dir, t);
    ReplaceTrailingExtension(name);
  }

  /** The example the convention is named after. */
  lemma ChatPageName()
    ensures PageName("content/page_chat.js") == "chat"
  {
    assert !Contains("chat", PagePrefix);
    MissingCharRulesOut("chat", JsExtension, 0);
    assert NoLineTerminator("");
    PageNameOfConventionalScript("", "chat");
    assert "" + PagePrefix + "chat" + JsExtension == "content/page_chat.js";
  }

  /* ---------------------------------------------------------------------
     Partition over rules
     --------------------------------------------------------------------- */

  /** Every match pattern of every rule that declares `matches` lands in
      exactly one of `required`, `player` or one page group: the three
      together hold the same patterns, with the same multiplicities, as
      the rules themselves. */
  lemma {:induction false} PartitionOverRules(rules: seq<ContentScript>)
    ensures multiset(RoutedMatches(rules, ToRequired) + RoutedMatches(rules, ToPlayer) + FlattenMatches(PageGroups(rules)))
         == multiset(DeclaredMatches(rules))
    decreases |rules|
  {
    if |rules| > 0 {
      var rule := rules[0];
      var rest := rules[1..];
      PartitionOverRules(rest);
      FlattenMatchesAppend(PageContribution(rule), PageGroups(rest));
      RuleContributions(rule);
      assert RoutedMatches(rules, ToRequired) == Contribution(rule, ToRequired) + RoutedMatches(rest, ToRequired);
      assert RoutedMatches(rules, ToPlayer) == Contribution(rule, ToPlayer) + RoutedMatches(rest, ToPlayer);
      assert FlattenMatches(PageGroups(rules)) == FlattenMatches(PageContribution(rule)) + FlattenMatches(PageGroups(rest));
      assert DeclaredMatches(rules) == rule.matches.GetOr([]) + DeclaredMatches(rest);
    }
  }

  /** One rule's match list goes to exactly one group. */
  lemma RuleContributions(rule: ContentScript)
    ensures multiset(Contribution(rule, ToRequired) + Contribution(rule, ToPlayer) + FlattenMatches(PageContribution(rule)))
         == multiset(rule.matches.GetOr([]))
  {
    var pc := PageContribution(rule);
    if pc != [] {
      assert pc[1..] == [];
      assert FlattenMatches(pc) == rule.matches.value;
    }
  }

  /** The constructor keeps every declared match pattern, in one group
      each: the partition property stated on the finished handler. */
  lemma ClassifyPartitions(m: Manifest)
    ensures multiset(GroupMatches(Classify(m))) == multiset(DeclaredMatches(m.contentScripts))
    ensures |GroupMatches(Classify(m))| == |DeclaredMatches(m.contentScripts)|
  {
    PartitionOverRules(m.contentScripts);
    var h := Classify(m);
    assert multiset(GroupMatches(h)) == multiset(DeclaredMatches(m.contentScripts));
    assert |multiset(GroupMatches(h))| == |multiset(DeclaredMatches(m.contentScripts))|;
  }

  /* ---------------------------------------------------------------------
     One more rule
     --------------------------------------------------------------------- */

  lemma {:induction false} ClassifyRulesSnoc(acc: Handler, rules: seq<ContentScript>, rule: ContentScript)
    ensures ClassifyRules(acc, rules + [rule]) == Step(ClassifyRules(acc, rules), rule)
    decreases |rules|
  {
    if |rules| == 0 {
      assert rules + [rule] == [rule];
      assert [rule][1..] == [];
    } else {
      assert (rules + [rule])[1..] == rules[1..] + [rule];
      ClassifyRulesSnoc(Step(acc, rules[0]), rules[1..], rule);
    }
  }

  /** What appending one rule to the manifest does to the constructed
      handler: a rule without `matches` changes nothing; an unrecognised
      rule extends `required.match` only; a player rule extends
      `player.match` only; a page rule appends exactly one fresh page group
      and leaves `required` and `player` alone. */
  lemma AppendRule(m: Manifest, rule: ContentScript)
    ensures var h := Classify(m);
            var h' := Classify(m.(contentScripts := m.contentScripts + [rule]));
            match RouteOf(rule)
            case Skipped => h' == h
            case ToRequired =>
              h' == h.(required := h.required.(matches := h.required.matches + rule.matches.value))
            case ToPlayer =>
              h' == h.(player := h.player.(matches := h.player.matches + rule.matches.value))
            case ToPage(name) =>
              h' == h.(pages := h.pages + [Group(Some(name), rule.matches.value, None, Unknown)])
  {
    ClassifyRulesSnoc(Initial(WithoutAllUrls(m.hostPermissions)), m.contentScripts, rule);
  }

  /* ---------------------------------------------------------------------
     Concrete manifests
     --------------------------------------------------------------------- */

  /** A rule with matches and no scripts is a baseline requirement. */
  lemma UnscriptedRuleIsRequired()
    ensures var h := Classify(Manifest([], [ContentScript(Some(["https://a.example/*"]), None)]));
            && h.required.matches == ["https://a.example/*"]
            && h.required.api == Some([])
            && h.player.matches == []
            && h.pages == []
  {
    var rules := [ContentScript(Some(["https://a.example/*"]), None)];
    assert rules[1..] == [];
  }

  /** A page script gives a page group named after it. */
  lemma ChatScriptIsPage()
    ensures var h := Classify(Manifest([], [ContentScript(Some(["https://b.example/*"]), Some(["content/page_chat.js"]))]));
            && h.pages == [Group(Some("chat"), ["https://b.example/*"], None, Unknown)]
            && h.required.matches == []
            && h.player.matches == []
  {
    var js := ["content/page_chat.js"];
    assert OccursAt(js[0], PagePrefix, 0);
    MissingCharRulesOut(js[0], IframeScript, 1);
    ChatPageName();
    var rules := [ContentScript(Some(["https://b.example/*"]), Some(js))];
    assert rules[1..] == [];
    assert RouteOf(rules[0]) == ToPage("chat");
  }

  /** The lookup does not try the page convention first: when the first
      recognised script is the iframe script, the rule goes to `player` even
      though a page script follows it. */
  lemma IframeBeforePageGoesToPlayer()
    ensures RouteOf(ContentScript(Some(["https://c.example/*"]), Some(["iframe.js", "content/page_chat.js"]))) == ToPlayer
  {
    var js := ["iframe.js", "content/page_chat.js"];
    assert OccursAt(js[0], IframeScript, 0);
    assert FirstRecognised(js, 0);
  }

  /** A script that is both a page script and the iframe script sends its
      rule to `player`, and no page group is created. */
  lemma PageScriptNamingIframeGoesToPlayer()
    ensures RouteOf(ContentScript(Some(["https://d.example/*"]), Some(["content/page_video/iframe.js"]))) == ToPlayer
  {
    var js := ["content/page_video/iframe.js"];
    assert OccursAt(js[0], IframeScript, 19);
    assert FirstRecognised(js, 0);
  }

  /** An empty `matches` list is truthy in the source and still routed: a
      page rule with no patterns yields a page group with no patterns. */
  lemma EmptyMatchesStillRouted()
    ensures RouteOf(ContentScript(Some([]), Some(["content/page_chat.js"]))) == ToPage("chat")
  {
    var js := ["content/page_chat.js"];
    assert OccursAt(js[0], PagePrefix, 0);
    MissingCharRulesOut(js[0], IframeScript, 1);
    ChatPageName();
  }
}
