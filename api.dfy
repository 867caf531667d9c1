/** The family-tree graph walk of people/api.py: the `include_inactive`
    switch, the family and membership querysets with their orderings, and
    `FamilyFullTreeAPIView.get`, a breadth-first walk from one family across
    every family that any member also belongs to. The database is a value;
    each queryset is a function of it. */
module Api {
  import opened Wrappers
  import opened Text
  import opened Seqs
  import opened Ordering
  import opened Dates
  import opened Models
  import opened Serializers

  /** The rows the walk reads. A membership carries the family, person and
      role rows it is joined to; `families` is the family table that
      `_family_queryset` reads. */
  datatype Db = Db(
    families: seq<Family>,
    memberships: seq<FamilyMember>,
    relationships: seq<Relationship>,
    persons: map<Id, Person>)

  // ---------------------------------------------------------------------
  // The include_inactive switch
  // ---------------------------------------------------------------------

  const TrueFlags: set<string> := {"true", "1", "yes"}

  /** `_should_include_inactive`: the query parameter, lower-cased (not
      stripped), is one of "true", "1", "yes"; a missing parameter is "". */
  function ShouldIncludeInactive(flag: Option<string>): (r: bool)
    ensures flag.None? ==> !r
    ensures r ==> flag.Some? && |flag.value| in {1, 3, 4}
  {
    Lower(flag.GetOr("")) in TrueFlags
  }

  /** The switch ignores ASCII case, and surrounding spaces turn it off. */
  lemma IncludeInactiveSpelling()
    ensures ShouldIncludeInactive(Some("TRUE")) && ShouldIncludeInactive(Some("Yes"))
    ensures ShouldIncludeInactive(Some("1"))
    ensures !ShouldIncludeInactive(Some(" true")) && !ShouldIncludeInactive(Some("false"))
    ensures !ShouldIncludeInactive(Some(""))
  {
    assert Lower("TRUE") == "true";
    assert Lower("Yes") == "yes";
    assert Lower("1") == "1";
    assert Lower(" true")[0] == ' ';
  }

  /** Two spellings that differ only in ASCII case decide the same way. */
  lemma IncludeInactiveCaseInsensitive(a: string, b: string)
    requires Lower(a) == Lower(b)
    ensures ShouldIncludeInactive(Some(a)) == ShouldIncludeInactive(Some(b))
  {
  }

  // ---------------------------------------------------------------------
  // Querysets
  // ---------------------------------------------------------------------

  /** `_family_queryset(include_inactive).filter(pk=id).first()`: the family
      with that primary key, hidden when it is inactive and inactive families
      are excluded. */
  function VisibleFamily(db: Db, id: Id, incl: bool): (r: Option<Family>)
    ensures r.Some? ==> r.value in db.families && r.value.id == id && (incl || r.value.isActive)
    ensures r.None? <==> forall k :: 0 <= k < |db.families| ==>
      !(db.families[k].id == id && (incl || db.families[k].isActive))
  {
    var hits := Filter(db.families, (f: Family) => f.id == id && (incl || f.isActive));
    if hits == [] then None else Some(hits[0])
  }

  /** The ordering of a family's memberships: role display order, first
      name, last name, person id (a missing name sorts as ""). */
  function MemberKey(m: FamilyMember): Key {
    [IntPart(m.role.displayOrder), StrPart(m.person.firstName.GetOr("")),
     StrPart(m.person.lastName.GetOr("")), IntPart(m.person.id)]
  }

  /** `family.memberships.all()` under `_membership_queryset`: every
      membership of the family, in `MemberKey` order. */
  function MembersOf(db: Db, familyId: Id): (r: seq<FamilyMember>)
    ensures forall m :: m in r <==> m in db.memberships && m.family.id == familyId
    ensures SortedBy(r, MemberKey)
  {
    var p := (m: FamilyMember) => m.family.id == familyId;
    var r := SortBy(Filter(db.memberships, p), MemberKey);
    assert forall m :: m in r <==> m in db.memberships && p(m) by {
      forall m ensures m in r <==> m in db.memberships && p(m) {
        assert m in r <==> m in multiset(Filter(db.memberships, p));
        FilterMembership(db.memberships, p, m);
      }
    }
    r
  }

  /** The ordering of a person's memberships: role display order, the four
      family last names, family id. */
  function PersonMembershipKey(m: FamilyMember): Key {
    [IntPart(m.role.displayOrder),
     StrPart(m.family.firstLastName.GetOr("")), StrPart(m.family.secondLastName.GetOr("")),
     StrPart(m.family.thirdLastName.GetOr("")), StrPart(m.family.fourthLastName.GetOr("")),
     IntPart(m.family.id)]
  }

  /** `person.family_memberships.all()` under
      `_person_family_memberships_queryset`: the person's memberships,
      restricted to active families unless inactive ones are included, in
      `PersonMembershipKey` order. */
  function PersonMemberships(db: Db, personId: Id, incl: bool): (r: seq<FamilyMember>)
    ensures forall m :: m in r <==>
      m in db.memberships && m.person.id == personId && (incl || m.family.isActive)
    ensures SortedBy(r, PersonMembershipKey)
  {
    var p := (m: FamilyMember) => m.person.id == personId && (incl || m.family.isActive);
    var r := SortBy(Filter(db.memberships, p), PersonMembershipKey);
    assert forall m :: m in r <==> m in db.memberships && p(m) by {
      forall m ensures m in r <==> m in db.memberships && p(m) {
        assert m in r <==> m in multiset(Filter(db.memberships, p));
        FilterMembership(db.memberships, p, m);
      }
    }
    r
  }

  /** `FamilyTreeSerializer(family).data` with the family's memberships
      prefetched. */
  function FamilyPayloadOf(db: Db, f: Family, today: Date): (r: FamilyPayload)
    ensures r.id == f.id && r.memberCount == |MembersOf(db, f.id)|
  {
    ProjectFamily(f, MembersOf(db, f.id), db.persons, db.relationships, today)
  }

  /** The payload the walk emits for a family id, if the family is visible. */
  function PayloadFor(db: Db, id: Id, incl: bool, today: Date): (r: Option<FamilyPayload>)
    ensures r.Some? <==> VisibleFamily(db, id, incl).Some?
    ensures r.Some? ==> r.value.id == id
  {
    match VisibleFamily(db, id, incl)
    case None => None
    case Some(f) => Some(FamilyPayloadOf(db, f, today))
  }

  // ---------------------------------------------------------------------
  // Connections and the response
  // ---------------------------------------------------------------------

  /** One edge of the graph: a person of `fromFamily` who also belongs to
      `toFamily`, with the role held there. The person row stands for the
      `person_id` and `person_full_name` entries, which are its id and
      `PersonFullName` of it. */
  datatype Connection = Connection(
    person: Person,
    fromFamily: Id,
    toFamily: Id,
    roleInToFamily: string,
    roleInToFamilyName: string,
    isPrimaryInToFamily: bool)

  /** The response body. */
  datatype FullTree = FullTree(
    rootFamilyId: Id,
    familyCount: nat,
    includeInactive: bool,
    families: seq<FamilyPayload>,
    connections: seq<Connection>)

  /** The one error: the starting family is not visible (HTTP 404). */
  datatype ApiError = FamilyNotFound

  /** The edge recorded for membership `m` of family `fromId` and the same
      person's membership `om`. */
  function ConnectionOf(fromId: Id, m: FamilyMember, om: FamilyMember): Connection {
    Connection(m.person, fromId, om.family.id, om.role.code, om.role.name, om.isPrimary)
  }

  /** The de-duplication key of an edge: person, from, to. */
  function Triple(c: Connection): (Id, Id, Id) {
    (c.person.id, c.fromFamily, c.toFamily)
  }

  function Triples(cs: seq<Connection>): set<(Id, Id, Id)> {
    set c | c in cs :: Triple(c)
  }

  /** The two `continue` filters of the inner loop: the other family is
      active (unless inactive ones are included) and is not the family being
      expanded. */
  predicate Crosses(om: FamilyMember, fromId: Id, incl: bool) {
    (incl || om.family.isActive) && om.family.id != fromId
  }

  /** A membership `m` of family `fromId` and a membership `om` of the same
      person that the walk follows out of `fromId`: `om` is listed among the
      person's memberships and passes both filters. */
  ghost predicate IsBridge(db: Db, incl: bool, fromId: Id, m: FamilyMember, om: FamilyMember) {
    && m in db.memberships && m.family.id == fromId
    && om in db.memberships && om.person.id == m.person.id && Crosses(om, fromId, incl)
  }

  /** An edge is the recording of some bridge. */
  ghost predicate Justified(db: Db, incl: bool, c: Connection) {
    exists m, om :: IsBridge(db, incl, c.fromFamily, m, om) && c == ConnectionOf(c.fromFamily, m, om)
  }

  function Ids(ps: seq<FamilyPayload>): set<Id> {
    set k | 0 <= k < |ps| :: ps[k].id
  }

  function QueueIds(q: seq<Family>): set<Id> {
    set k | 0 <= k < |q| :: q[k].id
  }

  /** Some edge into `to` leaves one of the families `from`. */
  ghost predicate ReachedFrom(cs: seq<Connection>, to: Id, from: set<Id>) {
    exists c :: c in cs && c.toFamily == to && c.fromFamily in from
  }

  /** What the response promises about itself: the root comes first, every
      family appears once and is the serialized visible family of that id,
      every edge is the recording of a bridge out of an emitted family, no
      (person, from, to) key twice, and every family after the first is
      entered by an edge from a family emitted before it. */
  ghost predicate Sound(db: Db, rootId: Id, incl: bool, today: Date, t: FullTree) {
    && t.rootFamilyId == rootId
    && t.includeInactive == incl
    && t.familyCount == |t.families|
    && |t.families| >= 1 && t.families[0].id == rootId
    && (forall i, j :: 0 <= i < j < |t.families| ==> t.families[i].id != t.families[j].id)
    && (forall k {:trigger PayloadFor(db, t.families[k].id, incl, today)} :: 0 <= k < |t.families| ==>
          PayloadFor(db, t.families[k].id, incl, today) == Some(t.families[k]))
    && (forall i, j :: 0 <= i < j < |t.connections| ==> Triple(t.connections[i]) != Triple(t.connections[j]))
    && (forall k :: 0 <= k < |t.connections| ==>
          t.connections[k].fromFamily in Ids(t.families) && Justified(db, incl, t.connections[k]))
    && (forall k :: 1 <= k < |t.families| ==> ReachedFrom(t.connections, t.families[k].id, Ids(t.families[..k])))
  }

  /** Nothing is missing: every bridge out of an emitted family has its key
      among the edges, and its target is emitted unless it is not visible. */
  ghost predicate Closed(db: Db, incl: bool, t: FullTree) {
    forall k, m, om :: 0 <= k < |t.families| && IsBridge(db, incl, t.families[k].id, m, om) ==>
      && (m.person.id, t.families[k].id, om.family.id) in Triples(t.connections)
      && (VisibleFamily(db, om.family.id, incl).Some? ==> om.family.id in Ids(t.families))
  }

  // ---------------------------------------------------------------------
  // The walk
  // ---------------------------------------------------------------------

  /** The local state of `get`: visited and enqueued family ids, the queue
      of looked-up families, the emitted payloads, the edges and their
      keys. */
  datatype Walk = Walk(
    visited: set<Id>,
    enqueued: set<Id>,
    queue: seq<Family>,
    families: seq<FamilyPayload>,
    connections: seq<Connection>,
    seen: set<(Id, Id, Id)>)

  /** Every family id the walk can enqueue. */
  function Universe(db: Db, rootId: Id): set<Id> {
    {rootId} + set m | m in db.memberships :: m.family.id
  }

  /** Shrinks with every iteration of the outer loop. */
  function Measure(db: Db, rootId: Id, w: Walk): nat {
    |Universe(db, rootId) - w.enqueued| + |w.queue|
  }

  /** The queue holds visible, enqueued families, each the root or entered
      by an edge from a visited family. */
  ghost predicate QueueOk(db: Db, rootId: Id, incl: bool, queue: seq<Family>, enqueued: set<Id>,
                          visited: set<Id>, cs: seq<Connection>) {
    forall k :: 0 <= k < |queue| ==>
      && VisibleFamily(db, queue[k].id, incl) == Some(queue[k]) && queue[k].id in enqueued
      && (queue[k].id == rootId || ReachedFrom(cs, queue[k].id, visited))
  }

  /** The payloads emitted so far: one per visited id, each the payload of
      the visible family of that id, the root first, each later one entered
      by an edge from an earlier one. */
  ghost predicate PayloadOk(db: Db, rootId: Id, incl: bool, today: Date, families: seq<FamilyPayload>,
                            visited: set<Id>, cs: seq<Connection>) {
    && visited == Ids(families)
    && (forall i, j :: 0 <= i < j < |families| ==> families[i].id != families[j].id)
    && (forall k {:trigger PayloadFor(db, families[k].id, incl, today)} :: 0 <= k < |families| ==>
          PayloadFor(db, families[k].id, incl, today) == Some(families[k]))
    && (|families| > 0 ==> families[0].id == rootId)
    && (forall k :: 1 <= k < |families| ==> ReachedFrom(cs, families[k].id, Ids(families[..k])))
  }

  /** The edges so far: their keys are `seen`, no key twice, each the
      recording of a bridge out of a visited family. */
  ghost predicate EdgesOk(db: Db, incl: bool, cs: seq<Connection>, seen: set<(Id, Id, Id)>, visited: set<Id>) {
    && seen == Triples(cs)
    && (forall i, j :: 0 <= i < j < |cs| ==> Triple(cs[i]) != Triple(cs[j]))
    && (forall k :: 0 <= k < |cs| ==> cs[k].fromFamily in visited && Justified(db, incl, cs[k]))
  }

  /** Every enqueued id is visited, queued, or names no visible family. */
  ghost predicate Accounted(db: Db, rootId: Id, incl: bool, visited: set<Id>, enqueued: set<Id>, queue: seq<Family>) {
    && visited <= enqueued <= Universe(db, rootId)
    && (forall x :: x in enqueued ==> x in visited || x in QueueIds(queue) || VisibleFamily(db, x, incl).None?)
  }

  /** The invariant of the walk, whichever family is being expanded. */
  ghost predicate Common(db: Db, rootId: Id, incl: bool, today: Date, w: Walk) {
    && QueueOk(db, rootId, incl, w.queue, w.enqueued, w.visited, w.connections)
    && PayloadOk(db, rootId, incl, today, w.families, w.visited, w.connections)
    && EdgesOk(db, incl, w.connections, w.seen, w.visited)
    && Accounted(db, rootId, incl, w.visited, w.enqueued, w.queue)
  }

  /** Every crossing membership of `m`'s person has its key recorded and its
      family enqueued. */
  ghost predicate MemberHandled(db: Db, incl: bool, fromId: Id, m: FamilyMember, seen: set<(Id, Id, Id)>, enq: set<Id>) {
    forall om :: om in db.memberships && om.person.id == m.person.id && Crosses(om, fromId, incl) ==>
      (m.person.id, fromId, om.family.id) in seen && om.family.id in enq
  }

  /** Every membership of family `fromId` is handled. */
  ghost predicate Handled(db: Db, incl: bool, fromId: Id, seen: set<(Id, Id, Id)>, enq: set<Id>) {
    forall m :: m in db.memberships && m.family.id == fromId ==> MemberHandled(db, incl, fromId, m, seen, enq)
  }

  /** The steps of the walk only add keys and enqueued ids. */
  predicate Grows(w: Walk, w': Walk) {
    && w'.visited == w.visited && w'.families == w.families
    && w.seen <= w'.seen && w.enqueued <= w'.enqueued
  }

  /** The innermost loop of `get`, for one membership `m` of `family`: walks
      the person's memberships, records each new edge and enqueues each new
      family (looked up again; a family that is no longer visible stays
      enqueued but is not queued). */
  method FollowPerson(db: Db, rootId: Id, incl: bool, today: Date, family: Family, m: FamilyMember, w: Walk)
    returns (w': Walk)
    requires m in db.memberships && m.family.id == family.id
    requires Common(db, rootId, incl, today, w) && family.id in w.visited
    ensures Common(db, rootId, incl, today, w') && Grows(w, w')
    ensures Measure(db, rootId, w') <= Measure(db, rootId, w)
    ensures MemberHandled(db, incl, family.id, m, w'.seen, w'.enqueued)
  {
    var others := PersonMemberships(db, m.person.id, incl);
    w' := w;
    for j := 0 to |others|
      invariant Common(db, rootId, incl, today, w') && Grows(w, w')
      invariant Measure(db, rootId, w') <= Measure(db, rootId, w)
      invariant Covered(others, j, m.person.id, family.id, incl, w'.seen, w'.enqueued)
    {
      var before := w';
      w' := CrossTo(db, rootId, incl, today, family, m, others[j], w');
      CoveredStep(others, j, m.person.id, family.id, incl, before.seen, before.enqueued, w'.seen, w'.enqueued);
    }
    forall om | om in db.memberships && om.person.id == m.person.id && Crosses(om, family.id, incl)
      ensures (m.person.id, family.id, om.family.id) in w'.seen && om.family.id in w'.enqueued
    {
      assert om in others;
      var b :| 0 <= b < |others| && others[b] == om;
    }
  }

  /** The first `n` memberships of `ms` that cross out of `fromId` have
      their key recorded and their family enqueued. */
  ghost predicate Covered(ms: seq<FamilyMember>, n: int, pid: Id, fromId: Id, incl: bool,
                          seen: set<(Id, Id, Id)>, enq: set<Id>) {
    forall b :: 0 <= b < n && b < |ms| && Crosses(ms[b], fromId, incl) ==>
      (pid, fromId, ms[b].family.id) in seen && ms[b].family.id in enq
  }

  lemma CoveredStep(ms: seq<FamilyMember>, n: nat, pid: Id, fromId: Id, incl: bool,
                    seen: set<(Id, Id, Id)>, enq: set<Id>, seen': set<(Id, Id, Id)>, enq': set<Id>)
    requires n < |ms| && Covered(ms, n, pid, fromId, incl, seen, enq)
    requires seen <= seen' && enq <= enq'
    requires Crosses(ms[n], fromId, incl) ==> (pid, fromId, ms[n].family.id) in seen' && ms[n].family.id in enq'
    ensures Covered(ms, n + 1, pid, fromId, incl, seen', enq')
  {
  }

  /** One pass of the innermost loop: the person's membership `om` in
      another family. An inactive family (unless requested) and the family
      itself are skipped; a new key is recorded as an edge; a new family id
      is enqueued and, if it is still visible, its row is queued. */
  method CrossTo(db: Db, rootId: Id, incl: bool, today: Date, family: Family, m: FamilyMember,
                 om: FamilyMember, w: Walk) returns (w': Walk)
    requires m in db.memberships && m.family.id == family.id
    requires om in db.memberships && om.person.id == m.person.id
    requires Common(db, rootId, incl, today, w) && family.id in w.visited
    ensures Common(db, rootId, incl, today, w') && Grows(w, w')
    ensures Measure(db, rootId, w') <= Measure(db, rootId, w)
    ensures Crosses(om, family.id, incl) ==>
      (m.person.id, family.id, om.family.id) in w'.seen && om.family.id in w'.enqueued
  {
    w' := w;
    var otherFamily := om.family;
    if !incl && !otherFamily.isActive {
      return;
    }
    if otherFamily.id == family.id {
      return;
    }
    var key := (m.person.id, family.id, otherFamily.id);
    if key !in w'.seen {
      var c := ConnectionOf(family.id, m, om);
      assert IsBridge(db, incl, family.id, m, om);
      AppendConnection(db, rootId, incl, today, w', c);
      w' := w'.(seen := w'.seen + {key}, connections := w'.connections + [c]);
    }
    if otherFamily.id !in w'.enqueued {
      KeyReaches(db, rootId, incl, today, w', key);
      EnqueueStep(db, rootId, incl, today, w', otherFamily.id);
      w' := w'.(enqueued := w'.enqueued + {otherFamily.id});
      var nextFamily := VisibleFamily(db, otherFamily.id, incl);
      if nextFamily.None? {
        return;
      }
      w' := w'.(queue := w'.queue + [nextFamily.value]);
    }
  }

  /** A recorded key out of a visited family reaches its target. */
  lemma KeyReaches(db: Db, rootId: Id, incl: bool, today: Date, w: Walk, key: (Id, Id, Id))
    requires Common(db, rootId, incl, today, w)
    requires key in w.seen && key.1 in w.visited
    ensures ReachedFrom(w.connections, key.2, w.visited)
  {
    var c :| c in w.connections && Triple(c) == key;
  }

  /** The middle loop of `get`: every membership of `family` in order. */
  method ExpandFamily(db: Db, rootId: Id, incl: bool, today: Date, family: Family, w: Walk)
    returns (w': Walk)
    requires Common(db, rootId, incl, today, w) && family.id in w.visited
    requires HandledExcept(db, incl, w.visited, family.id, w.seen, w.enqueued)
    ensures Common(db, rootId, incl, today, w') && Grows(w, w')
    ensures Measure(db, rootId, w') <= Measure(db, rootId, w)
    ensures forall fid :: fid in w'.visited ==> Handled(db, incl, fid, w'.seen, w'.enqueued)
  {
    var members := MembersOf(db, family.id);
    w' := w;
    for i := 0 to |members|
      invariant Common(db, rootId, incl, today, w') && Grows(w, w')
      invariant Measure(db, rootId, w') <= Measure(db, rootId, w)
      invariant HandledExcept(db, incl, w.visited, family.id, w'.seen, w'.enqueued)
      invariant MembersHandled(db, incl, family.id, members, i, w'.seen, w'.enqueued)
    {
      ghost var before := w';
      assert members[i] in members;
      w' := FollowPerson(db, rootId, incl, today, family, members[i], w');
      HandledExceptGrows(db, incl, w.visited, family.id, before.seen, before.enqueued, w'.seen, w'.enqueued);
      MembersHandledStep(db, incl, family.id, members, i, before.seen, before.enqueued, w'.seen, w'.enqueued);
    }
    MembersHandledAll(db, incl, family.id, members, w'.seen, w'.enqueued);
    HandledEverywhere(db, incl, w'.visited, family.id, w'.seen, w'.enqueued);
  }

  /** Every family of `ids` but `skip` is handled. */
  ghost predicate HandledExcept(db: Db, incl: bool, ids: set<Id>, skip: Id, seen: set<(Id, Id, Id)>, enq: set<Id>) {
    forall fid :: fid in ids && fid != skip ==> Handled(db, incl, fid, seen, enq)
  }

  /** The first `n` memberships of `members` are handled. */
  ghost predicate MembersHandled(db: Db, incl: bool, fromId: Id, members: seq<FamilyMember>, n: int,
                                 seen: set<(Id, Id, Id)>, enq: set<Id>) {
    forall a :: 0 <= a < n && a < |members| ==> MemberHandled(db, incl, fromId, members[a], seen, enq)
  }

  lemma HandledExceptGrows(db: Db, incl: bool, ids: set<Id>, skip: Id,
                           seen: set<(Id, Id, Id)>, enq: set<Id>, seen': set<(Id, Id, Id)>, enq': set<Id>)
    requires HandledExcept(db, incl, ids, skip, seen, enq) && seen <= seen' && enq <= enq'
    ensures HandledExcept(db, incl, ids, skip, seen', enq')
  {
    forall fid | fid in ids && fid != skip ensures Handled(db, incl, fid, seen', enq') {
      HandledGrows(db, incl, fid, seen, enq, seen', enq');
    }
  }

  lemma MembersHandledStep(db: Db, incl: bool, fromId: Id, members: seq<FamilyMember>, n: nat,
                           seen: set<(Id, Id, Id)>, enq: set<Id>, seen': set<(Id, Id, Id)>, enq': set<Id>)
    requires n < |members| && MembersHandled(db, incl, fromId, members, n, seen, enq)
    requires seen <= seen' && enq <= enq'
    requires MemberHandled(db, incl, fromId, members[n], seen', enq')
    ensures MembersHandled(db, incl, fromId, members, n + 1, seen', enq')
  {
    forall a | 0 <= a < n ensures MemberHandled(db, incl, fromId, members[a], seen', enq') {
      MemberHandledGrows(db, incl, fromId, members[a], seen, enq, seen', enq');
    }
  }

  lemma MembersHandledAll(db: Db, incl: bool, fromId: Id, members: seq<FamilyMember>,
                          seen: set<(Id, Id, Id)>, enq: set<Id>)
    requires members == MembersOf(db, fromId)
    requires MembersHandled(db, incl, fromId, members, |members|, seen, enq)
    ensures Handled(db, incl, fromId, seen, enq)
  {
    forall m | m in db.memberships && m.family.id == fromId
      ensures MemberHandled(db, incl, fromId, m, seen, enq)
    {
      assert m in members;
      var a :| 0 <= a < |members| && members[a] == m;
    }
  }

  lemma HandledEverywhere(db: Db, incl: bool, ids: set<Id>, last: Id, seen: set<(Id, Id, Id)>, enq: set<Id>)
    requires HandledExcept(db, incl, ids, last, seen, enq) && Handled(db, incl, last, seen, enq)
    ensures forall fid :: fid in ids ==> Handled(db, incl, fid, seen, enq)
  {
  }

  /** `FamilyFullTreeAPIView.get`: 404 when the starting family is not
      visible; otherwise the breadth-first walk from it, which emits each
      reachable visible family once, records every crossing edge once and
      reports the number of families emitted. */
  method FullTreeGet(db: Db, rootId: Id, incl: bool, today: Date) returns (res: Result<FullTree, ApiError>)
    ensures res.Failure? <==> VisibleFamily(db, rootId, incl).None?
    ensures res.Success? ==> Sound(db, rootId, incl, today, res.value) && Closed(db, incl, res.value)
  {
    var rootFamily := VisibleFamily(db, rootId, incl);
    if rootFamily.None? {
      return Failure(FamilyNotFound);
    }
    var root := rootFamily.value;
    var w := Walk({}, {root.id}, [root], [], [], {});
    StartWalk(db, rootId, incl, today, root);
    while w.queue != []
      invariant Common(db, rootId, incl, today, w)
      invariant w.families == [] ==> w.queue == [root]
      invariant forall fid :: fid in w.visited ==> Handled(db, incl, fid, w.seen, w.enqueued)
      decreases Measure(db, rootId, w)
    {
      var family := w.queue[0];
      PopStep(db, rootId, incl, today, w);
      w := w.(queue := w.queue[1..]);
      if family.id in w.visited {
        continue;
      }
      assert family.id == rootId ==> w.families == [] by {
        if w.families != [] {
          assert w.families[0].id in Ids(w.families);
        }
      }
      VisitStep(db, rootId, incl, today, w, family);
      w := w.(visited := w.visited + {family.id}, families := w.families + [FamilyPayloadOf(db, family, today)]);
      w := ExpandFamily(db, rootId, incl, today, family, w);
    }
    var t := FullTree(root.id, |w.families|, incl, w.families, w.connections);
    FinishedWalkClosed(db, rootId, incl, today, w, t);
    res := Success(t);
  }

  // ---------------------------------------------------------------------
  // Steps of the walk proof
  // ---------------------------------------------------------------------

  /** Enqueuing a new id of the universe shrinks what is left of it. */
  lemma ShrinkUniverse(u: set<Id>, e: set<Id>, x: Id)
    requires x in u && x !in e
    ensures |u - (e + {x})| == |u - e| - 1
  {
    assert u - e == (u - (e + {x})) + {x};
  }

  /** An edge into `to` stays when edges are added or more sources count. */
  lemma ReachedGrows(cs: seq<Connection>, extra: seq<Connection>, to: Id, from: set<Id>, from': set<Id>)
    requires ReachedFrom(cs, to, from) && from <= from'
    ensures ReachedFrom(cs + extra, to, from')
  {
    var d :| d in cs && d.toFamily == to && d.fromFamily in from;
    assert d in cs + extra;
  }

  /** The walk's state before the first iteration. */
  lemma StartWalk(db: Db, rootId: Id, incl: bool, today: Date, root: Family)
    requires VisibleFamily(db, rootId, incl) == Some(root)
    ensures Common(db, rootId, incl, today, Walk({}, {root.id}, [root], [], [], {}))
  {
    assert QueueIds([root]) == {root.id} by {
      assert [root][0].id == root.id;
    }
    assert Ids([]) == {};
    assert Triples([]) == {};
  }

  lemma QueueOkAppendEdge(db: Db, rootId: Id, incl: bool, queue: seq<Family>, enqueued: set<Id>,
                          visited: set<Id>, cs: seq<Connection>, c: Connection)
    requires QueueOk(db, rootId, incl, queue, enqueued, visited, cs)
    ensures QueueOk(db, rootId, incl, queue, enqueued, visited, cs + [c])
  {
    forall k | 0 <= k < |queue| && queue[k].id != rootId
      ensures ReachedFrom(cs + [c], queue[k].id, visited)
    {
      ReachedGrows(cs, [c], queue[k].id, visited, visited);
    }
  }

  lemma PayloadOkAppendEdge(db: Db, rootId: Id, incl: bool, today: Date, families: seq<FamilyPayload>,
                            visited: set<Id>, cs: seq<Connection>, c: Connection)
    requires PayloadOk(db, rootId, incl, today, families, visited, cs)
    ensures PayloadOk(db, rootId, incl, today, families, visited, cs + [c])
  {
    forall k | 1 <= k < |families|
      ensures ReachedFrom(cs + [c], families[k].id, Ids(families[..k]))
    {
      ReachedGrows(cs, [c], families[k].id, Ids(families[..k]), Ids(families[..k]));
    }
  }

  lemma EdgesOkAppend(db: Db, incl: bool, cs: seq<Connection>, seen: set<(Id, Id, Id)>, visited: set<Id>, c: Connection)
    requires EdgesOk(db, incl, cs, seen, visited)
    requires c.fromFamily in visited && Justified(db, incl, c) && Triple(c) !in seen
    ensures EdgesOk(db, incl, cs + [c], seen + {Triple(c)}, visited)
  {
    TriplesAppend(cs, c);
    DistinctTriplesAppend(cs, seen, c);
    JustifiedAppend(db, incl, cs, visited, c);
  }

  lemma TriplesAppend(cs: seq<Connection>, c: Connection)
    ensures Triples(cs + [c]) == Triples(cs) + {Triple(c)}
  {
    assert forall x :: x in cs + [c] <==> x in cs || x == c;
  }

  lemma DistinctTriplesAppend(cs: seq<Connection>, seen: set<(Id, Id, Id)>, c: Connection)
    requires seen == Triples(cs) && Triple(c) !in seen
    requires forall i, j :: 0 <= i < j < |cs| ==> Triple(cs[i]) != Triple(cs[j])
    ensures var cs' := cs + [c]; forall i, j :: 0 <= i < j < |cs'| ==> Triple(cs'[i]) != Triple(cs'[j])
  {
    var cs' := cs + [c];
    assert forall k :: 0 <= k < |cs| ==> cs'[k] == cs[k] && Triple(cs[k]) in seen;
  }

  lemma JustifiedAppend(db: Db, incl: bool, cs: seq<Connection>, visited: set<Id>, c: Connection)
    requires forall k :: 0 <= k < |cs| ==> cs[k].fromFamily in visited && Justified(db, incl, cs[k])
    requires c.fromFamily in visited && Justified(db, incl, c)
    ensures var cs' := cs + [c]; forall k :: 0 <= k < |cs'| ==> cs'[k].fromFamily in visited && Justified(db, incl, cs'[k])
  {
    var cs' := cs + [c];
    assert forall k :: 0 <= k < |cs| ==> cs'[k] == cs[k];
  }

  /** Recording a new edge out of a visited family keeps the invariant. */
  lemma AppendConnection(db: Db, rootId: Id, incl: bool, today: Date, w: Walk, c: Connection)
    requires Common(db, rootId, incl, today, w)
    requires c.fromFamily in w.visited && Justified(db, incl, c) && Triple(c) !in w.seen
    ensures Common(db, rootId, incl, today, w.(seen := w.seen + {Triple(c)}, connections := w.connections + [c]))
  {
    QueueOkAppendEdge(db, rootId, incl, w.queue, w.enqueued, w.visited, w.connections, c);
    PayloadOkAppendEdge(db, rootId, incl, today, w.families, w.visited, w.connections, c);
    EdgesOkAppend(db, incl, w.connections, w.seen, w.visited, c);
  }

  lemma QueueOkEnqueue(db: Db, rootId: Id, incl: bool, queue: seq<Family>, enqueued: set<Id>,
                       visited: set<Id>, cs: seq<Connection>, x: Id)
    requires QueueOk(db, rootId, incl, queue, enqueued, visited, cs)
    requires ReachedFrom(cs, x, visited)
    ensures QueueOk(db, rootId, incl, queue, enqueued + {x}, visited, cs)
    ensures VisibleFamily(db, x, incl).Some? ==>
      QueueOk(db, rootId, incl, queue + [VisibleFamily(db, x, incl).value], enqueued + {x}, visited, cs)
  {
    if VisibleFamily(db, x, incl).Some? {
      var q := queue + [VisibleFamily(db, x, incl).value];
      assert forall k :: 0 <= k < |queue| ==> q[k] == queue[k];
    }
  }

  lemma AccountedEnqueue(db: Db, rootId: Id, incl: bool, visited: set<Id>, enqueued: set<Id>, queue: seq<Family>, x: Id)
    requires Accounted(db, rootId, incl, visited, enqueued, queue) && x in Universe(db, rootId)
    ensures VisibleFamily(db, x, incl).None? ==> Accounted(db, rootId, incl, visited, enqueued + {x}, queue)
    ensures VisibleFamily(db, x, incl).Some? ==>
      Accounted(db, rootId, incl, visited, enqueued + {x}, queue + [VisibleFamily(db, x, incl).value])
  {
    if VisibleFamily(db, x, incl).Some? {
      var f := VisibleFamily(db, x, incl).value;
      var q := queue + [f];
      assert QueueIds(q) == QueueIds(queue) + {x} by {
        assert forall k :: 0 <= k < |queue| ==> q[k] == queue[k];
        assert q[|queue|] == f;
      }
    }
  }

  /** Enqueuing a new id entered from a visited family, and queuing its
      family when it is visible, keeps the invariant. */
  lemma EnqueueStep(db: Db, rootId: Id, incl: bool, today: Date, w: Walk, x: Id)
    requires Common(db, rootId, incl, today, w)
    requires x !in w.enqueued && x in Universe(db, rootId)
    requires ReachedFrom(w.connections, x, w.visited)
    ensures var w1 := w.(enqueued := w.enqueued + {x});
      && Measure(db, rootId, w1) + 1 == Measure(db, rootId, w)
      && (VisibleFamily(db, x, incl).None? ==> Common(db, rootId, incl, today, w1))
      && (VisibleFamily(db, x, incl).Some? ==>
            Common(db, rootId, incl, today, w1.(queue := w1.queue + [VisibleFamily(db, x, incl).value])))
  {
    ShrinkUniverse(Universe(db, rootId), w.enqueued, x);
    QueueOkEnqueue(db, rootId, incl, w.queue, w.enqueued, w.visited, w.connections, x);
    AccountedEnqueue(db, rootId, incl, w.visited, w.enqueued, w.queue, x);
  }

  /** Taking the head off the queue: the head is visible, enqueued, and
      either the root or entered from a visited family; the rest of the
      queue keeps the invariant, with the head's id accounted for once it is
      visited. */
  lemma PopStep(db: Db, rootId: Id, incl: bool, today: Date, w: Walk)
    requires Common(db, rootId, incl, today, w) && w.queue != []
    ensures var f, rest := w.queue[0], w.queue[1..];
      && VisibleFamily(db, f.id, incl) == Some(f) && f.id in w.enqueued
      && (f.id == rootId || ReachedFrom(w.connections, f.id, w.visited))
      && QueueOk(db, rootId, incl, rest, w.enqueued, w.visited, w.connections)
      && Accounted(db, rootId, incl, w.visited + {f.id}, w.enqueued, rest)
      && (f.id in w.visited ==> Accounted(db, rootId, incl, w.visited, w.enqueued, rest))
  {
    var rest := w.queue[1..];
    assert forall k :: 0 <= k < |rest| ==> rest[k] == w.queue[k + 1];
    assert QueueIds(w.queue) <= QueueIds(rest) + {w.queue[0].id} by {
      forall x | x in QueueIds(w.queue) ensures x in QueueIds(rest) + {w.queue[0].id} {
        var k :| 0 <= k < |w.queue| && w.queue[k].id == x;
        if k > 0 {
          assert rest[k - 1].id == x;
        }
      }
    }
  }

  lemma QueueOkWiden(db: Db, rootId: Id, incl: bool, queue: seq<Family>, enqueued: set<Id>,
                     visited: set<Id>, cs: seq<Connection>, x: Id)
    requires QueueOk(db, rootId, incl, queue, enqueued, visited, cs)
    ensures QueueOk(db, rootId, incl, queue, enqueued, visited + {x}, cs)
  {
    forall k | 0 <= k < |queue| && queue[k].id != rootId
      ensures ReachedFrom(cs, queue[k].id, visited + {x})
    {
      ReachedGrows(cs, [], queue[k].id, visited, visited + {x});
      assert cs + [] == cs;
    }
  }

  lemma PayloadOkVisit(db: Db, rootId: Id, incl: bool, today: Date, families: seq<FamilyPayload>,
                       visited: set<Id>, cs: seq<Connection>, p: FamilyPayload)
    requires PayloadOk(db, rootId, incl, today, families, visited, cs)
    requires PayloadFor(db, p.id, incl, today) == Some(p) && p.id !in visited
    requires p.id == rootId || ReachedFrom(cs, p.id, visited)
    requires p.id == rootId ==> families == []
    ensures PayloadOk(db, rootId, incl, today, families + [p], visited + {p.id}, cs)
  {
    IdsAppend(families, p);
    DistinctAppend(families, visited, p);
    PayloadForAppend(db, incl, today, families, p);
    EnteredAppend(families, visited, cs, p);
  }

  lemma IdsAppend(families: seq<FamilyPayload>, p: FamilyPayload)
    ensures Ids(families + [p]) == Ids(families) + {p.id}
  {
    var ps := families + [p];
    assert forall k :: 0 <= k < |families| ==> ps[k] == families[k];
    forall x | x in Ids(ps) ensures x in Ids(families) + {p.id} {
      var k :| 0 <= k < |ps| && ps[k].id == x;
    }
    assert ps[|families|] == p;
  }

  lemma DistinctAppend(families: seq<FamilyPayload>, visited: set<Id>, p: FamilyPayload)
    requires visited == Ids(families) && p.id !in visited
    requires forall i, j :: 0 <= i < j < |families| ==> families[i].id != families[j].id
    ensures var ps := families + [p]; forall i, j :: 0 <= i < j < |ps| ==> ps[i].id != ps[j].id
  {
    var ps := families + [p];
    assert forall k :: 0 <= k < |families| ==> ps[k] == families[k] && families[k].id in visited;
  }

  lemma PayloadForAppend(db: Db, incl: bool, today: Date, families: seq<FamilyPayload>, p: FamilyPayload)
    requires PayloadFor(db, p.id, incl, today) == Some(p)
    requires forall k {:trigger PayloadFor(db, families[k].id, incl, today)} :: 0 <= k < |families| ==>
      PayloadFor(db, families[k].id, incl, today) == Some(families[k])
    ensures var ps := families + [p];
      forall k {:trigger PayloadFor(db, ps[k].id, incl, today)} :: 0 <= k < |ps| ==>
        PayloadFor(db, ps[k].id, incl, today) == Some(ps[k])
  {
    var ps := families + [p];
    forall k | 0 <= k < |ps| ensures PayloadFor(db, ps[k].id, incl, today) == Some(ps[k]) {
      if k < |families| {
        assert ps[k] == families[k];
        assert PayloadFor(db, families[k].id, incl, today) == Some(families[k]);
      }
    }
  }

  lemma EnteredAppend(families: seq<FamilyPayload>, visited: set<Id>, cs: seq<Connection>, p: FamilyPayload)
    requires visited == Ids(families)
    requires |families| > 0 ==> ReachedFrom(cs, p.id, visited)
    requires forall k :: 1 <= k < |families| ==> ReachedFrom(cs, families[k].id, Ids(families[..k]))
    ensures var ps := families + [p];
      forall k :: 1 <= k < |ps| ==> ReachedFrom(cs, ps[k].id, Ids(ps[..k]))
  {
    var ps := families + [p];
    forall k | 1 <= k < |ps| ensures ReachedFrom(cs, ps[k].id, Ids(ps[..k])) {
      if k < |families| {
        assert ps[k] == families[k];
        assert ps[..k] == families[..k];
      } else {
        assert ps[..k] == families;
      }
    }
  }

  lemma EdgesOkWiden(db: Db, incl: bool, cs: seq<Connection>, seen: set<(Id, Id, Id)>, visited: set<Id>, x: Id)
    requires EdgesOk(db, incl, cs, seen, visited)
    ensures EdgesOk(db, incl, cs, seen, visited + {x})
  {
  }

  /** Emitting the payload of a popped family that was not yet visited keeps
      the invariant. */
  lemma VisitStep(db: Db, rootId: Id, incl: bool, today: Date, w: Walk, f: Family)
    requires VisibleFamily(db, f.id, incl) == Some(f) && f.id !in w.visited
    requires f.id == rootId || ReachedFrom(w.connections, f.id, w.visited)
    requires f.id == rootId ==> w.families == []
    requires QueueOk(db, rootId, incl, w.queue, w.enqueued, w.visited, w.connections)
    requires PayloadOk(db, rootId, incl, today, w.families, w.visited, w.connections)
    requires EdgesOk(db, incl, w.connections, w.seen, w.visited)
    requires Accounted(db, rootId, incl, w.visited + {f.id}, w.enqueued, w.queue)
    ensures Common(db, rootId, incl, today,
                   w.(visited := w.visited + {f.id}, families := w.families + [FamilyPayloadOf(db, f, today)]))
  {
    QueueOkWiden(db, rootId, incl, w.queue, w.enqueued, w.visited, w.connections, f.id);
    var p := FamilyPayloadOf(db, f, today);
    assert PayloadFor(db, f.id, incl, today) == Some(p);
    PayloadOkVisit(db, rootId, incl, today, w.families, w.visited, w.connections, p);
    EdgesOkWiden(db, incl, w.connections, w.seen, w.visited, f.id);
  }

  /** A handled membership stays handled as keys and ids are added. */
  lemma MemberHandledGrows(db: Db, incl: bool, fromId: Id, m: FamilyMember,
                           seen: set<(Id, Id, Id)>, enq: set<Id>, seen': set<(Id, Id, Id)>, enq': set<Id>)
    requires MemberHandled(db, incl, fromId, m, seen, enq) && seen <= seen' && enq <= enq'
    ensures MemberHandled(db, incl, fromId, m, seen', enq')
  {
  }

  lemma HandledGrows(db: Db, incl: bool, fromId: Id,
                     seen: set<(Id, Id, Id)>, enq: set<Id>, seen': set<(Id, Id, Id)>, enq': set<Id>)
    requires Handled(db, incl, fromId, seen, enq) && seen <= seen' && enq <= enq'
    ensures Handled(db, incl, fromId, seen', enq')
  {
    forall m | m in db.memberships && m.family.id == fromId ensures MemberHandled(db, incl, fromId, m, seen', enq') {
      MemberHandledGrows(db, incl, fromId, m, seen, enq, seen', enq');
    }
  }

  /** When the queue is empty the invariant gives the response's promises. */
  lemma FinishedWalkClosed(db: Db, rootId: Id, incl: bool, today: Date, w: Walk, t: FullTree)
    requires Common(db, rootId, incl, today, w) && w.queue == []
    requires w.families == [] ==> w.queue != []
    requires forall fid :: fid in w.visited ==> Handled(db, incl, fid, w.seen, w.enqueued)
    requires t == FullTree(rootId, |w.families|, incl, w.families, w.connections)
    ensures Sound(db, rootId, incl, today, t) && Closed(db, incl, t)
  {
    FinishedSound(db, rootId, incl, today, w.families, w.visited, w.connections, w.seen, t);
    assert QueueIds(w.queue) == {};
    FinishedClosed(db, rootId, incl, w.visited, w.enqueued, w.seen, t);
  }

  lemma FinishedSound(db: Db, rootId: Id, incl: bool, today: Date, families: seq<FamilyPayload>,
                      visited: set<Id>, cs: seq<Connection>, seen: set<(Id, Id, Id)>, t: FullTree)
    requires PayloadOk(db, rootId, incl, today, families, visited, cs)
    requires EdgesOk(db, incl, cs, seen, visited)
    requires families != []
    requires t == FullTree(rootId, |families|, incl, families, cs)
    ensures Sound(db, rootId, incl, today, t)
  {
  }

  lemma FinishedClosed(db: Db, rootId: Id, incl: bool, visited: set<Id>, enqueued: set<Id>,
                       seen: set<(Id, Id, Id)>, t: FullTree)
    requires visited == Ids(t.families) && seen == Triples(t.connections)
    requires forall x :: x in enqueued ==> x in visited || VisibleFamily(db, x, incl).None?
    requires forall fid :: fid in visited ==> Handled(db, incl, fid, seen, enqueued)
    ensures Closed(db, incl, t)
  {
    forall k, m, om | 0 <= k < |t.families| && IsBridge(db, incl, t.families[k].id, m, om)
      ensures (m.person.id, t.families[k].id, om.family.id) in Triples(t.connections)
      ensures VisibleFamily(db, om.family.id, incl).Some? ==> om.family.id in Ids(t.families)
    {
      var fid := t.families[k].id;
      assert fid in visited;
      assert MemberHandled(db, incl, fid, m, seen, enqueued);
    }
  }

  // ---------------------------------------------------------------------
  // What the response means
  // ---------------------------------------------------------------------

  /** One hop of the graph: some person of family `a` also belongs to
      family `b`, which the walk may cross into. */
  ghost predicate Hop(db: Db, incl: bool, a: Id, b: Id) {
    exists m, om :: IsBridge(db, incl, a, m, om) && om.family.id == b
  }

  /** A path of visible families from the root, each hop a bridge. */
  ghost predicate VisiblePath(db: Db, rootId: Id, incl: bool, path: seq<Id>) {
    && |path| >= 1 && path[0] == rootId
    && (forall k :: 0 <= k < |path| ==> VisibleFamily(db, path[k], incl).Some?)
    && (forall k :: 0 <= k < |path| - 1 ==> Hop(db, incl, path[k], path[k + 1]))
  }

  /** Every family reachable from the root through visible families is in
      the response. */
  lemma {:induction false} ReachableFamiliesIncluded(db: Db, rootId: Id, incl: bool, today: Date, t: FullTree, path: seq<Id>)
    requires Sound(db, rootId, incl, today, t) && Closed(db, incl, t)
    requires VisiblePath(db, rootId, incl, path)
    ensures path[|path| - 1] in Ids(t.families)
    decreases |path|
  {
    if |path| == 1 {
      assert t.families[0].id == rootId;
    } else {
      var prefix := PathPrefix(db, rootId, incl, path);
      ReachableFamiliesIncluded(db, rootId, incl, today, t, prefix);
      ClosedHop(db, incl, t, path[|path| - 2], path[|path| - 1]);
    }
  }

  lemma PathPrefix(db: Db, rootId: Id, incl: bool, path: seq<Id>) returns (prefix: seq<Id>)
    requires VisiblePath(db, rootId, incl, path) && |path| > 1
    ensures prefix == path[..|path| - 1] && VisiblePath(db, rootId, incl, prefix)
  {
    prefix := path[..|path| - 1];
    assert forall k :: 0 <= k < |prefix| ==> prefix[k] == path[k];
  }

  /** A hop out of an emitted family into a visible one lands on an emitted family. */
  lemma ClosedHop(db: Db, incl: bool, t: FullTree, a: Id, b: Id)
    requires Closed(db, incl, t) && a in Ids(t.families)
    requires Hop(db, incl, a, b) && VisibleFamily(db, b, incl).Some?
    ensures b in Ids(t.families)
  {
    var m, om :| IsBridge(db, incl, a, m, om) && om.family.id == b;
    var k :| 0 <= k < |t.families| && t.families[k].id == a;
  }

  /** Every family in the response is reachable from the root through
      visible families: the path follows recorded edges backwards. */
  lemma {:induction false} EmittedFamiliesReachable(db: Db, rootId: Id, incl: bool, today: Date, t: FullTree, k: nat)
    returns (path: seq<Id>)
    requires Sound(db, rootId, incl, today, t) && k < |t.families|
    ensures VisiblePath(db, rootId, incl, path) && path[|path| - 1] == t.families[k].id
    decreases k
  {
    if k == 0 {
      EmittedVisible(db, rootId, incl, today, t, 0);
      path := [rootId];
    } else {
      var k', c := EnteredBy(db, rootId, incl, today, t, k);
      var before := EmittedFamiliesReachable(db, rootId, incl, today, t, k');
      EdgeIsHop(db, incl, c);
      EmittedVisible(db, rootId, incl, today, t, k);
      path := ExtendPath(db, rootId, incl, before, t.families[k].id);
    }
  }

  lemma EmittedVisible(db: Db, rootId: Id, incl: bool, today: Date, t: FullTree, k: nat)
    requires Sound(db, rootId, incl, today, t) && k < |t.families|
    ensures VisibleFamily(db, t.families[k].id, incl).Some?
  {
    assert PayloadFor(db, t.families[k].id, incl, today).Some?;
  }

  /** A family after the first is entered by an edge from an earlier one. */
  lemma EnteredBy(db: Db, rootId: Id, incl: bool, today: Date, t: FullTree, k: nat)
    returns (k': nat, c: Connection)
    requires Sound(db, rootId, incl, today, t) && 1 <= k < |t.families|
    ensures k' < k && c.fromFamily == t.families[k'].id && c.toFamily == t.families[k].id
    ensures Justified(db, incl, c)
  {
    assert ReachedFrom(t.connections, t.families[k].id, Ids(t.families[..k]));
    c :| c in t.connections && c.toFamily == t.families[k].id && c.fromFamily in Ids(t.families[..k]);
    var j :| 0 <= j < k && t.families[..k][j].id == c.fromFamily;
    k' := j;
    var i :| 0 <= i < |t.connections| && t.connections[i] == c;
  }

  lemma EdgeIsHop(db: Db, incl: bool, c: Connection)
    requires Justified(db, incl, c)
    ensures Hop(db, incl, c.fromFamily, c.toFamily)
  {
    var m, om :| IsBridge(db, incl, c.fromFamily, m, om) && c == ConnectionOf(c.fromFamily, m, om);
  }

  lemma ExtendPath(db: Db, rootId: Id, incl: bool, before: seq<Id>, next: Id) returns (path: seq<Id>)
    requires VisiblePath(db, rootId, incl, before)
    requires Hop(db, incl, before[|before| - 1], next) && VisibleFamily(db, next, incl).Some?
    ensures path == before + [next] && VisiblePath(db, rootId, incl, path)
  {
    path := before + [next];
    forall k | 0 <= k < |path| ensures VisibleFamily(db, path[k], incl).Some? {
      if k < |before| {
        assert path[k] == before[k];
      }
    }
    forall k | 0 <= k < |path| - 1 ensures Hop(db, incl, path[k], path[k + 1]) {
      if k < |before| - 1 {
        assert path[k] == before[k] && path[k + 1] == before[k + 1];
      } else {
        assert path[k] == before[|before| - 1] && path[k + 1] == next;
      }
    }
  }

  /** What one edge says: its person is a member of the source family and
      holds, in a different target family, the role the edge reports; the
      target is active unless inactive families were requested. */
  lemma ConnectionMeaning(db: Db, rootId: Id, incl: bool, today: Date, t: FullTree, k: nat)
    requires Sound(db, rootId, incl, today, t) && k < |t.connections|
    ensures var c := t.connections[k];
      && c.fromFamily != c.toFamily
      && (exists m :: m in db.memberships && m.family.id == c.fromFamily && m.person == c.person)
      && (exists om :: om in db.memberships && om.person.id == c.person.id && om.family.id == c.toFamily
                       && (incl || om.family.isActive)
                       && om.role.code == c.roleInToFamily && om.role.name == c.roleInToFamilyName
                       && om.isPrimary == c.isPrimaryInToFamily)
  {
    var c := t.connections[k];
    assert Justified(db, incl, c);
    var m, om :| IsBridge(db, incl, c.fromFamily, m, om) && c == ConnectionOf(c.fromFamily, m, om);
    assert om in db.memberships;
  }
}
