/** The `PermissionsHandler` constructor: routes every content-script rule
    of the manifest into the `required` group, the `player` group, or a new
    named `pages` group, and seeds `required.api` from the manifest's host
    permissions. */
module Classifier {
  import opened Wrappers
  import opened JsStrings
  import opened PermissionTypes

  /** The host-permission entry that stands for every site. */
  const AllUrls: string := "<all_urls>"
  /** The path fragment that marks a page content script. */
  const PagePrefix: string := "content/page_"
  /** The file name fragment that marks the player iframe script. */
  const IframeScript: string := "iframe.js"
  const JsExtension: string := ".js"

  /* ---------------------------------------------------------------------
     required.api
     --------------------------------------------------------------------- */

  /** `host_permissions.filter(el => el !== '<all_urls>')`. */
  function WithoutAllUrls(hosts: seq<string>): (r: seq<string>)
    ensures forall x :: multiset(r)[x] == if x == AllUrls then 0 else multiset(hosts)[x]
    decreases |hosts|
  {
    if |hosts| == 0 then []
    else
      assert hosts == [hosts[0]] + hosts[1..];
      (if hosts[0] == AllUrls then [] else [hosts[0]]) + WithoutAllUrls(hosts[1..])
  }

  /** The filter keeps the order of what it keeps: filtering distributes
      over concatenation. */
  lemma {:induction false} WithoutAllUrlsAppend(a: seq<string>, b: seq<string>)
    ensures WithoutAllUrls(a + b) == WithoutAllUrls(a) + WithoutAllUrls(b)
    decreases |a|
  {
    if |a| == 0 {
      assert a + b == b;
    } else {
      assert (a + b)[1..] == a[1..] + b;
      WithoutAllUrlsAppend(a[1..], b);
    }
  }

  /* ---------------------------------------------------------------------
     Script recognition
     --------------------------------------------------------------------- */

  /** `/content\/page_/.test(e)`. */
  predicate IsPageScript(script: string) {
    Contains(script, PagePrefix)
  }

  /** `e.includes('iframe.js')`. */
  predicate IsIframeScript(script: string) {
    Contains(script, IframeScript)
  }

  /** The predicate handed to `page.js.find`. */
  predicate Recognised(script: string) {
    IsPageScript(script) || IsIframeScript(script)
  }

  /** `js[i]` is the script `find` returns: the first recognised one. */
  predicate FirstRecognised(js: seq<string>, i: int) {
    0 <= i < |js| && Recognised(js[i]) && forall j :: 0 <= j < i ==> !Recognised(js[j])
  }

  predicate NoneRecognised(js: seq<string>) {
    forall i :: 0 <= i < |js| ==> !Recognised(js[i])
  }

  /** `js.find(Recognised)` searching from index `k`. */
  function FindScriptFrom(js: seq<string>, k: nat): (r: Option<nat>)
    requires k <= |js|
    ensures r.Some? ==> k <= r.value < |js| && Recognised(js[r.value])
    ensures r.Some? ==> forall j :: k <= j < r.value ==> !Recognised(js[j])
    ensures r.None? ==> forall j :: k <= j < |js| ==> !Recognised(js[j])
    decreases |js| - k
  {
    if k == |js| then None
    else if Recognised(js[k]) then Some(k)
    else FindScriptFrom(js, k + 1)
  }

  /** `js.find(Recognised)`, as the index of the script found. */
  function FindScript(js: seq<string>): (r: Option<nat>)
    ensures r.Some? ==> FirstRecognised(js, r.value)
    ensures r.None? <==> NoneRecognised(js)
  {
    FindScriptFrom(js, 0)
  }

  /** `script.replace(/^.*content\/page_/, '').replace('.js', '')`. */
  function PageName(script: string): string {
    ReplaceFirst(StripThroughLast(script, PagePrefix), JsExtension, "")
  }

  /* ---------------------------------------------------------------------
     Routing one rule
     --------------------------------------------------------------------- */

  /** Where the constructor sends one content-script rule. */
  datatype Route = Skipped | ToRequired | ToPlayer | ToPage(name: string)

  /** The decision the `forEach` callback takes for one rule: skip a rule
      without `matches` (an empty list is still processed); send it to
      `required` when `js` is absent or holds no recognised script;
      otherwise the first recognised script decides, and a script naming
      `iframe.js` sends it to `player` even when it is a page script too. */
  function RouteOf(rule: ContentScript): (r: Route)
    ensures r.Skipped? <==> rule.matches.None?
    ensures r.ToRequired? <==> rule.matches.Some? && (rule.js.None? || NoneRecognised(rule.js.value))
    ensures r.ToPlayer? <==>
              && rule.matches.Some? && rule.js.Some?
              && exists i :: FirstRecognised(rule.js.value, i) && IsIframeScript(rule.js.value[i])
    ensures r.ToPage? ==>
              && rule.matches.Some? && rule.js.Some?
              && exists i :: FirstRecognised(rule.js.value, i) && !IsIframeScript(rule.js.value[i])
                             && r.name == PageName(rule.js.value[i])
  {
    if rule.matches.None? then Skipped
    else
      var found := if rule.js.Some? then FindScript(rule.js.value) else None;
      match found
      case None => ToRequired
      case Some(i) =>
        var script := rule.js.value[i];
        assert forall j :: FirstRecognised(rule.js.value, j) ==> j == i;
        if IsIframeScript(script) then ToPlayer
        else ToPage(PageName(script))
  }

  /** The `forEach` callback: the handler after one rule has been routed. */
  function Step(acc: Handler, rule: ContentScript): Handler {
    match RouteOf(rule)
    case Skipped => acc
    case ToRequired =>
      acc.(required := acc.required.(matches := acc.required.matches + rule.matches.value))
    case ToPlayer =>
      acc.(player := acc.player.(matches := acc.player.matches + rule.matches.value))
    case ToPage(name) =>
      acc.(pages := acc.pages + [Group(Some(name), rule.matches.value, None, Unknown)])
  }

  /* ---------------------------------------------------------------------
     Reference definitions, one group at a time
     --------------------------------------------------------------------- */

  /** What one rule adds to the group `target` stands for. */
  function Contribution(rule: ContentScript, target: Route): seq<string> {
    if RouteOf(rule) == target then rule.matches.GetOr([]) else []
  }

  /** The page group one rule adds, if it is routed to a page. */
  function PageContribution(rule: ContentScript): seq<Group> {
    match RouteOf(rule)
    case ToPage(name) => [Group(Some(name), rule.matches.value, None, Unknown)]
    case _ => []
  }

  /** The match lists of the rules routed to `target`, in rule order. */
  function RoutedMatches(rules: seq<ContentScript>, target: Route): seq<string>
    decreases |rules|
  {
    if |rules| == 0 then [] else Contribution(rules[0], target) + RoutedMatches(rules[1..], target)
  }

  /** One fresh page group per rule routed to a page, in rule order. */
  function PageGroups(rules: seq<ContentScript>): (r: seq<Group>)
    ensures forall i :: 0 <= i < |r| ==> r[i].status == Unknown && r[i].api.None? && r[i].name.Some?
    decreases |rules|
  {
    if |rules| == 0 then [] else PageContribution(rules[0]) + PageGroups(rules[1..])
  }

  /** The match lists of every rule that declares one, in rule order. */
  function DeclaredMatches(rules: seq<ContentScript>): seq<string>
    decreases |rules|
  {
    if |rules| == 0 then []
    else rules[0].matches.GetOr([]) + DeclaredMatches(rules[1..])
  }

  /* ---------------------------------------------------------------------
     The constructor
     --------------------------------------------------------------------- */

  /** The handler before any rule is routed: `required.api` already holds
      the filtered host permissions. */
  function Initial(api: seq<string>): Handler {
    Handler(Group(None, [], Some(api), Unknown), Group(None, [], None, Unknown), [])
  }

  /** `content_scripts.forEach(...)`, one rule after the other. */
  function ClassifyRules(acc: Handler, rules: seq<ContentScript>): (r: Handler)
    ensures r.required == acc.required.(matches := acc.required.matches + RoutedMatches(rules, ToRequired))
    ensures r.player == acc.player.(matches := acc.player.matches + RoutedMatches(rules, ToPlayer))
    ensures r.pages == acc.pages + PageGroups(rules)
    decreases |rules|
  {
    if |rules| == 0 then acc
    else
      var r := ClassifyRules(Step(acc, rules[0]), rules[1..]);
      StepRoutes(acc, rules[0]);
      SeqAssoc(acc.required.matches, Contribution(rules[0], ToRequired), RoutedMatches(rules[1..], ToRequired));
      SeqAssoc(acc.player.matches, Contribution(rules[0], ToPlayer), RoutedMatches(rules[1..], ToPlayer));
      SeqAssoc(acc.pages, PageContribution(rules[0]), PageGroups(rules[1..]));
      r
  }

  lemma SeqAssoc<T>(a: seq<T>, b: seq<T>, c: seq<T>)
    ensures a + b + c == a + (b + c)
  {
  }

  /** One step of the fold adds exactly the rule's own contribution to each
      of the three groups. */
  lemma StepRoutes(acc: Handler, rule: ContentScript)
    ensures Step(acc, rule).required == acc.required.(matches := acc.required.matches + Contribution(rule, ToRequired))
    ensures Step(acc, rule).player == acc.player.(matches := acc.player.matches + Contribution(rule, ToPlayer))
    ensures Step(acc, rule).pages == acc.pages + PageContribution(rule)
  {
  }

  /** The constructor of `PermissionsHandler`, with the manifest as input. */
  function Classify(m: Manifest): (h: Handler)
    ensures h.required == Group(None, RoutedMatches(m.contentScripts, ToRequired), Some(WithoutAllUrls(m.hostPermissions)), Unknown)
    ensures h.player == Group(None, RoutedMatches(m.contentScripts, ToPlayer), None, Unknown)
    ensures h.pages == PageGroups(m.contentScripts)
    ensures AllUnknown(h)
  {
    ClassifyRules(Initial(WithoutAllUrls(m.hostPermissions)), m.contentScripts)
  }
}
