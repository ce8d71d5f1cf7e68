/** What checking and requesting promise about the groups' statuses. */
module CoordinatorLemmas {
  import opened Wrappers
  import opened PermissionTypes
  import opened Classifier
  import opened ClassifierLemmas
  import opened Coordinator

  /** The targeted query on `matches` is not consulted when the snapshot
      already lists every pattern: two hosts that differ only in that
      answer yield the same judgement. */
  lemma MatchQuerySkippedWhenListed(g: Group, snapshot: seq<string>, c1: seq<string> -> bool, c2: seq<string> -> bool)
    requires AllListed(g.matches, snapshot)
    requires g.api.Some? ==> c1(g.api.value) == c2(g.api.value)
    ensures TestElement(g, snapshot, c1) == TestElement(g, snapshot, c2)
  {
  }

  /** The host's two answers agree: whatever `getAll` lists is also
      contained according to the targeted query. */
  ghost predicate Coherent(host: Host) {
    forall xs :: AllListed(xs, host.origins) ==> host.contains(xs)
  }

  /** With a coherent host the targeted query alone decides: a group is
      granted exactly when the host contains its patterns and, if it has
      them, its `api` origins. The snapshot is only a shortcut. */
  lemma TargetedQueryDecides(g: Group, host: Host)
    requires Coherent(host)
    ensures TestElement(g, host.origins, host.contains).status
         == if host.contains(g.matches) && (g.api.None? || host.contains(g.api.value)) then Granted else Denied
  {
    if AllListed(g.matches, host.origins) {
      assert host.contains(g.matches);
    }
  }

  /** A status is a function of the host and the group's lists alone:
      what a group showed before a check has no bearing on what it shows
      after. */
  lemma CheckForgetsStatus(h1: Handler, h2: Handler, host: Host)
    requires SameRequirements(h1, h2)
    ensures CheckPermissions(h1, host) == CheckPermissions(h2, host)
  {
    var r1 := CheckPermissions(h1, host);
    var r2 := CheckPermissions(h2, host);
    assert |r1.pages| == |r2.pages|;
    forall i | 0 <= i < |r1.pages|
      ensures r1.pages[i] == r2.pages[i]
    {
      assert SameRequirement(h1.pages[i], h2.pages[i]);
    }
  }

  /** Checking twice against the same host changes nothing more. */
  lemma CheckIdempotent(h: Handler, host: Host)
    ensures CheckPermissions(CheckPermissions(h, host), host) == CheckPermissions(h, host)
  {
    CheckForgetsStatus(CheckPermissions(h, host), h, host);
  }

  /** The host contains every group's patterns and `api` origins. */
  predicate ContainsEverything(h: Handler, contains: seq<string> -> bool) {
    && contains(h.required.matches) && (h.required.api.Some? ==> contains(h.required.api.value))
    && contains(h.player.matches) && (h.player.api.Some? ==> contains(h.player.api.value))
    && forall i :: 0 <= i < |h.pages| ==>
         contains(h.pages[i].matches) && (h.pages[i].api.Some? ==> contains(h.pages[i].api.value))
  }

  /** A host that contains everything leaves every group granted. */
  lemma CheckGrantsAllWhenHostContainsEverything(h: Handler, host: Host)
    requires ContainsEverything(h, host.contains)
    ensures AllGranted(CheckPermissions(h, host))
  {
  }

  /** A request after which the host contains everything leaves every group
      granted, and the browser's boolean is passed through unchanged. */
  lemma RequestGrantsAllWhenHostContainsEverything(h: Handler, request: seq<string> -> Reply)
    requires ContainsEverything(h, request(RequestOrigins(h)).after.contains)
    ensures AllGranted(RequestPermissions(h, request).handler)
    ensures RequestPermissions(h, request).granted == request(RequestOrigins(h)).granted
  {
    CheckGrantsAllWhenHostContainsEverything(h, request(RequestOrigins(h)).after);
  }

  /** Right after construction, the request asks for every match pattern
      the manifest's content scripts declare and every host permission but
      `<all_urls>`, each as many times as it is declared. */
  lemma RequestCoversManifest(m: Manifest)
    ensures multiset(RequestOrigins(Classify(m)))
         == multiset(DeclaredMatches(m.contentScripts)) + multiset(WithoutAllUrls(m.hostPermissions))
  {
    ClassifyPartitions(m);
  }

  /** A freshly constructed handler, requested: every group is decided, and
      the groups' lists are those the constructor built. */
  lemma RequestAfterConstruction(m: Manifest, request: seq<string> -> Reply)
    ensures var h := Classify(m);
            var r := RequestPermissions(h, request);
            && AllUnknown(h)
            && AllDecided(r.handler)
            && r.handler.required.api == Some(WithoutAllUrls(m.hostPermissions))
            && multiset(GroupMatches(r.handler)) == multiset(DeclaredMatches(m.contentScripts))
  {
    var h := Classify(m);
    var r := RequestPermissions(h, request);
    ClassifyPartitions(m);
    SameRequirementsKeepMatches(h, r.handler);
  }

  lemma {:induction false} FlattenSamePages(p1: seq<Group>, p2: seq<Group>)
    requires |p1| == |p2|
    requires forall i :: 0 <= i < |p1| ==> SameRequirement(p1[i], p2[i])
    ensures FlattenMatches(p1) == FlattenMatches(p2)
    decreases |p1|
  {
    if |p1| > 0 {
      FlattenSamePages(p1[1..], p2[1..]);
    }
  }

  /** Changing statuses never changes which patterns the groups hold. */
  lemma SameRequirementsKeepMatches(h1: Handler, h2: Handler)
    requires SameRequirements(h1, h2)
    ensures GroupMatches(h1) == GroupMatches(h2)
    ensures RequestOrigins(h1) == RequestOrigins(h2)
  {
    FlattenSamePages(h1.pages, h2.pages);
  }

  /** The first check of a handler built from a manifest with one
      unscripted rule grants `required` once the host lists its pattern and
      contains the (empty) `api` list. */
  lemma UnscriptedRuleGrantedWhenListed(contains: seq<string> -> bool)
    requires contains([])
    ensures var h := Classify(Manifest([], [ContentScript(Some(["https://a.example/*"]), None)]));
            CheckPermissions(h, Host(["https://a.example/*"], contains)).required.status == Granted
  {
    UnscriptedRuleIsRequired();
  }
}
