/** The runtime half of `PermissionsHandler`: judging each group against
    the browser's grants (`testPermissionElement`, `checkPermissions`) and
    asking for every origin at once (`requestPermissions`). The browser's
    permission API is a parameter: a `Host` is its state as seen during
    one call. */
module Coordinator {
  import opened Wrappers
  import opened PermissionTypes

  /** The browser's grants during one call: `origins` is what
      `chrome.permissions.getAll()` lists, `contains` answers
      `chrome.permissions.contains({ origins })`. */
  datatype Host = Host(origins: seq<string>, contains: seq<string> -> bool)

  /** What `chrome.permissions.request` yields: whether the user granted
      the request, and the browser's grants once the prompt is over. */
  datatype Reply = Reply(granted: bool, after: Host)

  /** The outcome of `requestPermissions`: the returned boolean and the
      handler with its statuses re-evaluated. */
  datatype Requested = Requested(granted: bool, handler: Handler)

  /** Every group of the handler is `Granted`. */
  predicate AllGranted(h: Handler) {
    && h.required.status == Granted
    && h.player.status == Granted
    && forall i :: 0 <= i < |h.pages| ==> h.pages[i].status == Granted
  }

  /** Every pattern of `xs` is listed in the snapshot. */
  predicate AllListed(xs: seq<string>, snapshot: seq<string>) {
    forall i :: 0 <= i < |xs| ==> xs[i] in snapshot
  }

  /** When a group is judged denied: its patterns are neither all listed
      in the snapshot nor contained according to the targeted query, or
      it declares `api` origins the targeted query does not contain. */
  predicate Denies(g: Group, snapshot: seq<string>, contains: seq<string> -> bool) {
    || (!AllListed(g.matches, snapshot) && !contains(g.matches))
    || (g.api.Some? && !contains(g.api.value))
  }

  /** `testPermissionElement`: the group with its status decided. The
      targeted query on `matches` is only asked when the snapshot does not
      already list every pattern. */
  function TestElement(g: Group, snapshot: seq<string>, contains: seq<string> -> bool): (r: Group)
    ensures r.status != Unknown
    ensures r.status == Denied <==> Denies(g, snapshot, contains)
    ensures SameRequirement(g, r)
  {
    if !AllListed(g.matches, snapshot) && !contains(g.matches) then g.(status := Denied)
    else if g.api.Some? && !contains(g.api.value) then g.(status := Denied)
    else g.(status := Granted)
  }

  /** `checkPermissions`: one snapshot of the grants, then every group
      judged against it. */
  function CheckPermissions(h: Handler, host: Host): (r: Handler)
    ensures AllDecided(r)
    ensures SameRequirements(h, r)
    ensures r.required.status == Denied <==> Denies(h.required, host.origins, host.contains)
    ensures r.player.status == Denied <==> Denies(h.player, host.origins, host.contains)
    ensures forall i :: 0 <= i < |h.pages| ==>
              (r.pages[i].status == Denied <==> Denies(h.pages[i], host.origins, host.contains))
  {
    var snapshot := host.origins;
    Handler(
      TestElement(h.required, snapshot, host.contains),
      TestElement(h.player, snapshot, host.contains),
      seq(|h.pages|, i requires 0 <= i < |h.pages| => TestElement(h.pages[i], snapshot, host.contains)))
  }

  /** The origins `requestPermissions` asks for: `required.match`, then
      `required.api` when present, then `player.match`, then every page's
      `match`, duplicates kept. */
  function RequestOrigins(h: Handler): (r: seq<string>)
    ensures r == h.required.matches + h.required.api.GetOr([]) + h.player.matches + FlattenMatches(h.pages)
    ensures multiset(r) == multiset(GroupMatches(h)) + multiset(h.required.api.GetOr([]))
    ensures |r| == |GroupMatches(h)| + |h.required.api.GetOr([])|
  {
    var withApi := if h.required.api.Some? then h.required.matches + h.required.api.value else h.required.matches;
    var withPlayer := withApi + h.player.matches;
    withPlayer + FlattenMatches(h.pages)
  }

  /** `requestPermissions`: one request for every origin, then a full
      `checkPermissions` against the grants as they stand afterwards; the
      browser's boolean is returned as it came. */
  function RequestPermissions(h: Handler, request: seq<string> -> Reply): (r: Requested)
    ensures r.granted == request(RequestOrigins(h)).granted
    ensures AllDecided(r.handler)
    ensures SameRequirements(h, r.handler)
    ensures var after := request(RequestOrigins(h)).after;
            && (r.handler.required.status == Denied <==> Denies(h.required, after.origins, after.contains))
            && (r.handler.player.status == Denied <==> Denies(h.player, after.origins, after.contains))
            && forall i :: 0 <= i < |h.pages| ==>
                 (r.handler.pages[i].status == Denied <==> Denies(h.pages[i], after.origins, after.contains))
  {
    var reply := request(RequestOrigins(h));
    Requested(reply.granted, CheckPermissions(h, reply.after))
  }
}
