/** The data the permission handler works on: the manifest it reads at
    construction, and the requirement groups it builds from it. */
module PermissionTypes {
  import opened Wrappers

  /** `permissionType`: the status a group shows to the user interface. */
  datatype Status = Granted | Denied | Unknown

  /** `permissionElement`: one requirement group. `matches` is the source's
      `match` list (origin patterns from content-script rules), `api` the
      optional list of origins declared at the top level of the manifest,
      and `status` the value behind the reactive reference. */
  datatype Group = Group(name: Option<string>, matches: seq<string>, api: Option<seq<string>>, status: Status)

  /** `permissionsObject`: the three getters of the handler read these
      fields directly. */
  datatype Handler = Handler(required: Group, player: Group, pages: seq<Group>)

  /** One content-script rule of the manifest; both lists may be absent. */
  datatype ContentScript = ContentScript(matches: Option<seq<string>>, js: Option<seq<string>>)

  /** The parts of the extension manifest the constructor reads. */
  datatype Manifest = Manifest(hostPermissions: seq<string>, contentScripts: seq<ContentScript>)

  /** `pages.flatMap(page => page.match)`. */
  function FlattenMatches(pages: seq<Group>): (r: seq<string>)
    ensures |pages| == 0 ==> r == []
    ensures forall i :: 0 <= i < |pages| ==> multiset(pages[i].matches) <= multiset(r)
    decreases |pages|
  {
    if |pages| == 0 then [] else pages[0].matches + FlattenMatches(pages[1..])
  }

  /** One page contributes exactly its own patterns. */
  lemma FlattenMatchesSingleton(g: Group)
    ensures FlattenMatches([g]) == g.matches
  {
    assert [g][1..] == [];
  }

  /** Flattening keeps page order: it distributes over concatenation.
      With `FlattenMatchesSingleton` this determines the result for every
      list of pages. */
  lemma {:induction false} FlattenMatchesAppend(a: seq<Group>, b: seq<Group>)
    ensures FlattenMatches(a + b) == FlattenMatches(a) + FlattenMatches(b)
    decreases |a|
  {
    if |a| == 0 {
      assert a + b == b;
    } else {
      assert (a + b)[1..] == a[1..] + b;
      FlattenMatchesAppend(a[1..], b);
    }
  }

  /** Every match pattern held by some group, in group order. */
  function GroupMatches(h: Handler): seq<string> {
    h.required.matches + h.player.matches + FlattenMatches(h.pages)
  }

  /** Every group of the handler has left `Unknown`. */
  predicate AllDecided(h: Handler) {
    && h.required.status != Unknown
    && h.player.status != Unknown
    && forall i :: 0 <= i < |h.pages| ==> h.pages[i].status != Unknown
  }

  /** Every group of the handler is still `Unknown`. */
  predicate AllUnknown(h: Handler) {
    && h.required.status == Unknown
    && h.player.status == Unknown
    && forall i :: 0 <= i < |h.pages| ==> h.pages[i].status == Unknown
  }

  /** `g` and `g'` agree on everything but their status. */
  predicate SameRequirement(g: Group, g': Group) {
    g.name == g'.name && g.matches == g'.matches && g.api == g'.api
  }

  /** `h` and `h'` hold the same groups with the same lists, in the same
      order; only statuses may differ. */
  predicate SameRequirements(h: Handler, h': Handler) {
    && SameRequirement(h.required, h'.required)
    && SameRequirement(h.player, h'.player)
    && |h.pages| == |h'.pages|
    && forall i :: 0 <= i < |h.pages| ==> SameRequirement(h.pages[i], h'.pages[i])
  }
}
