/**
 Compose pull policies, the service inventory and the image pull plan
 (engine/nasty-apps/src/lib.rs: ComposePullPolicy, compose_pull_due,
 parse_compose_inventory, compose_image_plan_from_path).

 Services that share an image have their policies merged.  The merge is shown to be the
 join of a total order along which "due for a pull" only grows, so a merged policy is due
 exactly when one of its parts is, and the plan depends neither on the order of the services
 nor on their number.
 */
module PullPolicy {
  import opened Base
  import D = ComposeDuration

  datatype Policy = Missing | Always | Refresh(interval: int) | Skip

  function Min(a: int, b: int): int {
    if a <= b then a else b
  }

  function Merge(a: Policy, b: Policy): Policy {
    match (a, b)
    case (Always, _) => Always
    case (_, Always) => Always
    case (Refresh(x), Refresh(y)) => Refresh(Min(x, y))
    case (Refresh(_), _) => a
    case (_, Refresh(_)) => b
    case (Missing, _) => Missing
    case (_, Missing) => Missing
    case (Skip, Skip) => Skip
  }

  // What Docker knows of an image: absent, or present with the time it was last tagged.
  datatype Local = Absent | Present(tagged: Option<int>)

  predicate Due(p: Policy, local: Local, now: int) {
    match p
    case Always => true
    case Missing => local.Absent?
    case Refresh(interval) => local.Absent? || local.tagged.None? || now - local.tagged.value > interval
    case Skip => false
  }

  // ------------------------------------------------------------------ merging is a join

  // b pulls at least as often as a.
  predicate AtMost(a: Policy, b: Policy) {
    match (a, b)
    case (Skip, _) => true
    case (_, Always) => true
    case (Missing, Missing) => true
    case (Missing, Refresh(_)) => true
    case (Refresh(x), Refresh(y)) => y <= x
    case _ => false
  }

  lemma AtMostIsTotalOrder(a: Policy, b: Policy, c: Policy)
    ensures AtMost(a, a)
    ensures AtMost(a, b) || AtMost(b, a)
    ensures AtMost(a, b) && AtMost(b, a) ==> a == b
    ensures AtMost(a, b) && AtMost(b, c) ==> AtMost(a, c)
  {
  }

  /** Merge is the least upper bound in that order, hence associative, commutative and
      idempotent, and it always returns one of its arguments. */
  lemma MergeIsJoin(a: Policy, b: Policy, c: Policy)
    ensures AtMost(a, Merge(a, b)) && AtMost(b, Merge(a, b))
    ensures AtMost(a, c) && AtMost(b, c) ==> AtMost(Merge(a, b), c)
    ensures Merge(a, b) == a || Merge(a, b) == b
    ensures Merge(a, b) == Merge(b, a) && Merge(a, a) == a
    ensures Merge(Merge(a, b), c) == Merge(a, Merge(b, c))
  {
  }

  /** A policy that pulls at least as often is due whenever the other is; so a merged policy
      is due exactly when one of the two is. */
  lemma DueFollowsOrder(a: Policy, b: Policy, local: Local, now: int)
    ensures AtMost(a, b) && Due(a, local, now) ==> Due(b, local, now)
    ensures Due(Merge(a, b), local, now) <==> Due(a, local, now) || Due(b, local, now)
  {
  }

  // ------------------------------------------------------------------ policies as written

  const DAY: int := 86_400 * D.SECOND

  // The text of a service's pull policy.
  function ParsePolicy(value: Option<string>): Option<Policy> {
    if value.None? then Some(Missing)
    else
      var text := value.value;
      if text == "always" then Some(Always)
      else if text == "missing" || text == "if_not_present" then Some(Missing)
      else if NeverPulls(text) then Some(Skip)
      else if text == "daily" then Some(Refresh(DAY))
      else if text == "weekly" then Some(Refresh(7 * DAY))
      else if "every_" <= text then
        var interval := D.Duration(text[6..]);
        if interval.None? then None else Some(Refresh(interval.value))
      else None
  }

  predicate NeverPulls(text: string) {
    text == "never" || text == "build"
  }

  // The image filter looks at the text, the policy table at the parsed value; they agree.
  lemma SkipIsNeverOrBuild(value: Option<string>)
    ensures ParsePolicy(value) == Some(Skip) <==> value.Some? && NeverPulls(value.value)
  {
  }

  // ------------------------------------------------------------------ services

  datatype Service = Service(name: string, image: Option<string>, policy: Option<string>)

  // Active services are known only for an effective inventory; a static one counts them all.
  predicate Counts(active: Option<set<string>>, s: Service) {
    active.None? || s.name in active.value
  }

  // s counts, runs the image, and asks for policy p.
  predicate Asks(active: Option<set<string>>, s: Service, image: string, p: Policy) {
    Counts(active, s) && s.image == Some(image) && ParsePolicy(s.policy) == Some(p)
  }

  ghost predicate AskedFor(services: seq<Service>, active: Option<set<string>>, image: string, p: Policy) {
    exists s | s in services :: Asks(active, s, image, p)
  }

  ghost predicate AllAtMost(services: seq<Service>, active: Option<set<string>>, image: string, p: Policy) {
    forall s, q | s in services && Asks(active, s, image, q) :: AtMost(q, p)
  }

  // p is the strongest policy that a service asks for the image.
  ghost predicate Strongest(services: seq<Service>, active: Option<set<string>>, image: string, p: Policy) {
    AskedFor(services, active, image, p) && AllAtMost(services, active, image, p)
  }

  /** There is at most one strongest policy, whatever the order and repetition of services. */
  lemma StrongestIsUnique(a: seq<Service>, b: seq<Service>, active: Option<set<string>>, image: string, p: Policy, q: Policy)
    requires forall s :: s in a <==> s in b
    requires Strongest(a, active, image, p) && Strongest(b, active, image, q)
    ensures p == q
  {
    var s :| s in a && Asks(active, s, image, p);
    var t :| t in b && Asks(active, t, image, q);
    assert AtMost(p, q) && AtMost(q, p);
    AtMostIsTotalOrder(p, q, q);
  }

  // ------------------------------------------------------------------ the inventory

  datatype Inventory = Inventory(images: set<string>, policies: map<string, Policy>)

  predicate Readable(services: seq<Service>, active: Option<set<string>>) {
    forall s | s in services && Counts(active, s) :: ParsePolicy(s.policy).Some?
  }

  // Every key has its strongest policy, and every image asked for is a key.
  ghost predicate Merged(services: seq<Service>, active: Option<set<string>>, table: map<string, Policy>) {
    && (forall image | image in table :: Strongest(services, active, image, table[image]))
    && (forall s, image, p | s in services && Asks(active, s, image, p) :: image in table)
  }

  // Does the image of s enter the list of images?
  predicate Lists(active: Option<set<string>>, s: Service) {
    Counts(active, s) && s.image.Some? && (active.None? || s.policy.None? || !NeverPulls(s.policy.value))
  }

  function Images(services: seq<Service>, active: Option<set<string>>): set<string> {
    set s | s in services && Lists(active, s) :: s.image.value
  }

  lemma StrongestExtends(services: seq<Service>, active: Option<set<string>>, s: Service, image: string, before: Policy, p: Policy)
    requires Strongest(services, active, image, before) && Asks(active, s, image, p)
    ensures Strongest(services + [s], active, image, Merge(before, p))
  {
    var m := Merge(before, p);
    MergeIsJoin(before, p, m);
    var t :| t in services && Asks(active, t, image, before);
    assert t in services + [s] && s in services + [s];
    forall u, q | u in services + [s] && Asks(active, u, image, q)
      ensures AtMost(q, m)
    {
      if u in services {
        AtMostIsTotalOrder(q, before, m);
      }
    }
  }

  lemma StrongestStarts(services: seq<Service>, active: Option<set<string>>, s: Service, image: string, p: Policy)
    requires forall t, q | t in services :: !Asks(active, t, image, q)
    requires Asks(active, s, image, p)
    ensures Strongest(services + [s], active, image, p)
  {
    assert s in services + [s];
    AtMostIsTotalOrder(p, p, p);
  }

  lemma StrongestStays(services: seq<Service>, active: Option<set<string>>, s: Service, image: string, p: Policy)
    requires Strongest(services, active, image, p) && forall q :: !Asks(active, s, image, q)
    ensures Strongest(services + [s], active, image, p)
  {
    var t :| t in services && Asks(active, t, image, p);
    assert t in services + [s];
  }

  // One service is added to the table.
  function Added(table: map<string, Policy>, image: string, p: Policy): map<string, Policy> {
    if image in table then table[image := Merge(table[image], p)] else table[image := p]
  }

  lemma AddedIsMerged(services: seq<Service>, active: Option<set<string>>, s: Service, image: string, p: Policy, table: map<string, Policy>)
    requires Merged(services, active, table) && Asks(active, s, image, p)
    ensures Merged(services + [s], active, Added(table, image, p))
  {
    var after := Added(table, image, p);
    forall i | i in after
      ensures Strongest(services + [s], active, i, after[i])
    {
      if i != image {
        StrongestStays(services, active, s, i, after[i]);
      } else if image in table {
        StrongestExtends(services, active, s, image, table[image], p);
      } else {
        StrongestStarts(services, active, s, image, p);
      }
    }
  }

  lemma SkippedIsMerged(services: seq<Service>, active: Option<set<string>>, s: Service, table: map<string, Policy>)
    requires Merged(services, active, table) && forall image, p :: !Asks(active, s, image, p)
    ensures Merged(services + [s], active, table)
  {
    forall i | i in table
      ensures Strongest(services + [s], active, i, table[i])
    {
      StrongestStays(services, active, s, i, table[i]);
    }
  }

  // The loop over the services that fills the policy table.
  method CollectPolicies(services: seq<Service>, active: Option<set<string>>) returns (table: map<string, Policy>)
    requires Readable(services, active)
    ensures Merged(services, active, table)
  {
    table := map[];
    var i := 0;
    assert services[..0] == [];
    while i < |services|
      invariant 0 <= i <= |services|
      invariant Merged(services[..i], active, table)
    {
      var s := services[i];
      assert services[..i + 1] == services[..i] + [s];
      if !Counts(active, s) || s.image.None? {
        SkippedIsMerged(services[..i], active, s, table);
      } else {
        var p := ParsePolicy(s.policy).value;
        AddedIsMerged(services[..i], active, s, s.image.value, p, table);
        table := Added(table, s.image.value, p);
      }
      i := i + 1;
    }
    assert services[..|services|] == services;
  }

  method CollectImages(services: seq<Service>, active: Option<set<string>>) returns (images: set<string>)
    ensures images == Images(services, active)
  {
    images := {};
    for i := 0 to |services|
      invariant images == Images(services[..i], active)
    {
      var s := services[i];
      assert services[..i + 1] == services[..i] + [s];
      if Lists(active, s) {
        images := images + {s.image.value};
      }
    }
    assert services[..|services|] == services;
  }

  function WithoutSkips(table: map<string, Policy>): map<string, Policy> {
    map image | image in table && table[image] != Skip :: table[image]
  }

  // The table is the strongest non-Skip policies.
  ghost predicate IsTable(services: seq<Service>, active: Option<set<string>>, policies: map<string, Policy>) {
    forall image, p ::
      (image in policies && policies[image] == p) <==> (p != Skip && Strongest(services, active, image, p))
  }

  /** The inventory is refused exactly when a counted policy does not parse.  Otherwise its
      table holds, for each image that some counted service would pull, the strongest policy
      asked for. */
  method ParseInventory(services: seq<Service>, active: Option<set<string>>) returns (r: Option<Inventory>)
    ensures r.Some? <==> Readable(services, active)
    ensures r.Some? ==> r.value.images == Images(services, active)
    ensures r.Some? ==> IsTable(services, active, r.value.policies)
  {
    if exists s | s in services :: Counts(active, s) && ParsePolicy(s.policy).None? {
      return None;
    }
    var images := CollectImages(services, active);
    var table := CollectPolicies(services, active);
    r := Some(Inventory(images, WithoutSkips(table)));
    forall image, p | Strongest(services, active, image, p)
      ensures image in table && table[image] == p
    {
      var s :| s in services && Asks(active, s, image, p);
      assert image in table;
      StrongestIsUnique(services, services, active, image, p, table[image]);
    }
  }

  // ------------------------------------------------------------------ the plan

  datatype Plan = Plan(images: set<string>, pulls: set<string>)

  function LocalOf(docker: map<string, Local>, image: string): Local {
    if image in docker then docker[image] else Absent
  }

  // An active service that needs its image pulled.
  predicate Needs(active: set<string>, s: Service, docker: map<string, Local>, now: int) {
    && s.name in active && s.image.Some? && ParsePolicy(s.policy).Some?
    && Due(ParsePolicy(s.policy).value, LocalOf(docker, s.image.value), now)
  }

  function Needed(services: seq<Service>, active: set<string>, docker: map<string, Local>, now: int): set<string> {
    set s | s in services && Needs(active, s, docker, now) :: s.image.value
  }

  // The images of an effective inventory are those of services that may pull at all.
  lemma ListedHasPolicy(services: seq<Service>, active: set<string>, image: string)
    requires Readable(services, Some(active)) && image in Images(services, Some(active))
    ensures exists s, p :: s in services && Asks(Some(active), s, image, p) && p != Skip
  {
    var s :| s in services && Lists(Some(active), s) && s.image.value == image;
    SkipIsNeverOrBuild(s.policy);
    assert Asks(Some(active), s, image, ParsePolicy(s.policy).value);
  }

  lemma StrongestDue(services: seq<Service>, active: set<string>, image: string, p: Policy, docker: map<string, Local>, now: int)
    requires Strongest(services, Some(active), image, p)
    ensures Due(p, LocalOf(docker, image), now) <==> image in Needed(services, active, docker, now)
  {
    var local := LocalOf(docker, image);
    if Due(p, local, now) {
      var s :| s in services && Asks(Some(active), s, image, p);
      assert Needs(active, s, docker, now);
    }
    if image in Needed(services, active, docker, now) {
      var s :| s in services && Needs(active, s, docker, now) && s.image.value == image;
      var q := ParsePolicy(s.policy).value;
      assert Asks(Some(active), s, image, q);
      DueFollowsOrder(q, p, local, now);
    }
  }

  // Skip never makes an image needed, so every needed image is listed.
  lemma NeededIsListed(services: seq<Service>, active: set<string>, docker: map<string, Local>, now: int)
    ensures Needed(services, active, docker, now) <= Images(services, Some(active))
  {
    forall image | image in Needed(services, active, docker, now)
      ensures image in Images(services, Some(active))
    {
      var s :| s in services && Needs(active, s, docker, now) && s.image.value == image;
      SkipIsNeverOrBuild(s.policy);
      assert Lists(Some(active), s);
    }
  }

  /** The effective pull plan holds exactly the images that some active service needs, and
      the lookup of a listed image in the policy table never fails. */
  method ImagePlan(services: seq<Service>, active: set<string>, docker: map<string, Local>, now: int)
    returns (r: Option<Plan>)
    ensures r.Some? <==> Readable(services, Some(active))
    ensures r.Some? ==> r.value.images == Images(services, Some(active))
    ensures r.Some? ==> r.value.pulls == Needed(services, active, docker, now)
  {
    var inventory := ParseInventory(services, Some(active));
    if inventory.None? {
      return None;
    }
    var images, policies := inventory.value.images, inventory.value.policies;
    var todo, pulls := images, {};
    ghost var needed := Needed(services, active, docker, now);
    while todo != {}
      invariant todo <= images && pulls == needed * (images - todo)
      decreases |todo|
    {
      var image :| image in todo;
      DueIsNeeded(services, active, image, policies, docker, now);
      var policy := policies[image];
      if Due(policy, Inspected(policy, docker, image), now) {
        pulls := pulls + {image};
      }
      todo := todo - {image};
    }
    NeededIsListed(services, active, docker, now);
    r := Some(Plan(images, pulls));
  }

  // For an `always` image Docker is not asked; its policy is due whatever the answer.
  function Inspected(policy: Policy, docker: map<string, Local>, image: string): Local {
    if policy == Always then Absent else LocalOf(docker, image)
  }

  lemma DueIsNeeded(services: seq<Service>, active: set<string>, image: string, policies: map<string, Policy>, docker: map<string, Local>, now: int)
    requires Readable(services, Some(active)) && image in Images(services, Some(active))
    requires IsTable(services, Some(active), policies)
    ensures image in policies
    ensures Due(policies[image], Inspected(policies[image], docker, image), now) <==> image in Needed(services, active, docker, now)
  {
    ListedIsInTable(services, active, image, policies);
    StrongestDue(services, active, image, policies[image], docker, now);
  }

  lemma ListedIsInTable(services: seq<Service>, active: set<string>, image: string, policies: map<string, Policy>)
    requires Readable(services, Some(active)) && image in Images(services, Some(active))
    requires IsTable(services, Some(active), policies)
    ensures image in policies && Strongest(services, Some(active), image, policies[image])
  {
    ListedHasPolicy(services, active, image);
    var s, p :| s in services && Asks(Some(active), s, image, p) && p != Skip;
    var q := StrongestExists(services, Some(active), image, s, p);
    assert q != Skip;
    assert image in policies && policies[image] == q;
  }

  lemma {:induction false} StrongestExists(services: seq<Service>, active: Option<set<string>>, image: string, s: Service, p: Policy) returns (q: Policy)
    requires s in services && Asks(active, s, image, p)
    ensures Strongest(services, active, image, q) && AtMost(p, q)
  {
    var front, last := services[..|services| - 1], services[|services| - 1];
    assert services == front + [last];
    if t, r :| t in front && Asks(active, t, image, r) {
      var best := StrongestExists(front, active, image, t, r);
      if u :| Asks(active, last, image, u) {
        StrongestExtends(front, active, last, image, best, u);
        q := Merge(best, u);
      } else {
        StrongestStays(front, active, last, image, best);
        q := best;
      }
    } else {
      StrongestStarts(front, active, last, image, p);
      q := p;
    }
  }

  /** In a static inventory, which keeps images that are never pulled, the same lookup would
      fail exactly for the images whose every service says never or build. */
  lemma StaticLookupFailsIff(services: seq<Service>, policies: map<string, Policy>, image: string)
    requires Readable(services, None) && IsTable(services, None, policies) && image in Images(services, None)
    ensures image !in policies <==> forall s | s in services && s.image == Some(image) :: s.policy.Some? && NeverPulls(s.policy.value)
  {
    if image !in policies {
      forall s | s in services && s.image == Some(image)
        ensures s.policy.Some? && NeverPulls(s.policy.value)
      {
        SkipIsNeverOrBuild(s.policy);
        var p := ParsePolicy(s.policy).value;
        var q := StrongestExists(services, None, image, s, p);
        assert !(q != Skip && Strongest(services, None, image, q));
      }
    } else {
      var p := policies[image];
      assert Strongest(services, None, image, p) && p != Skip;
      var s :| s in services && Asks(None, s, image, p);
      SkipIsNeverOrBuild(s.policy);
    }
  }
}
