/** The read-side projection (people/serializers.py): completed years between
    dates, the partner seen from one person, the lookup-row label, the
    deduplicated and sorted relationship list of a profile, and the nested
    family / member / person payload built from them. "Today" is a
    parameter. */
module Serializers {
  import opened Wrappers
  import opened Json
  import opened Seqs
  import opened Ordering
  import opened Dates
  import opened Models

  // ---------------------------------------------------------------------
  // Completed years
  // ---------------------------------------------------------------------

  /** The same day and month `n` years later (a plain triple; no calendar
      adjustment). */
  function ShiftYears(d: Date, n: int): Date {
    d.(year := d.year + n)
  }

  /** `_years_between(start_date, end_date)`: nothing without a start; 0 when
      the comparison date (the end, or today when there is no end) precedes
      the start; otherwise the number of whole years completed, i.e. the
      largest `n` for which the start shifted by `n` years is not after the
      comparison date. */
  function YearsBetween(start: Option<Date>, end: Option<Date>, today: Date): (r: Option<int>)
    ensures r.None? <==> start.None?
    ensures r.Some? ==> r.value >= 0
    ensures start.Some? && Before(end.GetOr(today), start.value) ==> r == Some(0)
    ensures start.Some? && !Before(end.GetOr(today), start.value) ==>
      !Before(end.GetOr(today), ShiftYears(start.value, r.value))
      && Before(end.GetOr(today), ShiftYears(start.value, r.value + 1))
  {
    if start.None? then None
    else
      var s := start.value;
      var c := end.GetOr(today);
      if Before(c, s) then Some(0)
      else
        var years := c.year - s.year;
        Some(if MonthDayBefore(c, s) then years - 1 else years)
  }

  /** The worked examples: a day short of the birthday, on the birthday, and
      a comparison date before the start. */
  lemma YearsBetweenExamples(today: Date)
    ensures YearsBetween(Some(Date(1990, 6, 15)), Some(Date(2024, 6, 14)), today) == Some(33)
    ensures YearsBetween(Some(Date(1990, 6, 15)), Some(Date(2024, 6, 15)), today) == Some(34)
    ensures YearsBetween(Some(Date(2025, 1, 1)), Some(Date(2024, 1, 1)), today) == Some(0)
    ensures YearsBetween(None, Some(Date(2024, 1, 1)), today) == None
  {
  }

  /** `get_age_years` / `age_years` of a person reference: the whole years
      completed from the birth date up to today, 0 for a birth date after
      today. */
  function AgeYears(p: Person, today: Date): (r: Option<int>)
    ensures r.None? <==> p.dateOfBirth.None?
    ensures r.Some? ==> r.value >= 0
    ensures p.dateOfBirth.Some? && Before(today, p.dateOfBirth.value) ==> r == Some(0)
    ensures p.dateOfBirth.Some? && !Before(today, p.dateOfBirth.value) ==>
      !Before(today, ShiftYears(p.dateOfBirth.value, r.value))
      && Before(today, ShiftYears(p.dateOfBirth.value, r.value + 1))
  {
    YearsBetween(p.dateOfBirth, None, today)
  }

  /** `get_relationship_years`: the years from the start to the end date. */
  function RelationshipYears(rel: Relationship, today: Date): (r: Option<int>)
    ensures r.None? <==> rel.startedOn.None?
    ensures rel.endedOn.Some? ==> r == YearsBetween(rel.startedOn, rel.endedOn, rel.endedOn.value)
  {
    YearsBetween(rel.startedOn, rel.endedOn, today)
  }

  /** A relationship that has not ended is counted up to today. */
  lemma OngoingRelationshipRunsToToday(rel: Relationship, today: Date)
    requires IsCurrent(rel)
    ensures RelationshipYears(rel, today) == YearsBetween(rel.startedOn, Some(today), today)
  {
  }

  // ---------------------------------------------------------------------
  // Partner and reference payloads
  // ---------------------------------------------------------------------

  /** `get_partner`: the stored partner when the base person is stored as
      `person`, the stored person otherwise. Seen from either side of the
      relationship it is the other side. */
  function PartnerOf(rel: Relationship, base: Id): (r: Id)
    ensures r == rel.person || r == rel.partner
    ensures InRelationship(rel, base) ==> {r, base} == {rel.person, rel.partner}
    ensures InRelationship(rel, base) && rel.person != rel.partner ==> r != base
  {
    if rel.person == base then rel.partner else rel.person
  }

  /** `_code_label(instance)`: nothing for no instance; otherwise its id, its
      code when the model has one, and a label taken from `label`, else
      `name`, else the instance's string form. */
  function CodeLabel(inst: Option<LookupRow>): (r: Option<map<string, Value>>)
    ensures r.None? <==> inst.None?
    ensures r.Some? ==>
      var row := inst.value;
      && r.value.Keys == {"id", "label"} + (if row.code.Some? then {"code"} else {})
      && r.value["id"] == Int(row.id)
      && (row.code.Some? ==> r.value["code"] == Str(row.code.value))
      && (row.labelText.Some? ==> r.value["label"] == Str(row.labelText.value))
      && (row.labelText.None? && row.name.Some? ==> r.value["label"] == Str(row.name.value))
      && (row.labelText.None? && row.name.None? ==> r.value["label"] == Str(row.display))
  {
    match inst
    case None => None
    case Some(row) =>
      var data := map["id" := Int(row.id)];
      var data := if row.code.Some? then data["code" := Str(row.code.value)] else data;
      var shown :=
        if row.labelText.Some? then row.labelText.value
        else if row.name.Some? then row.name.value
        else row.display;
      Some(data["label" := Str(shown)])
  }

  /** `_person_reference`: id, full name, gender label and age of a person. */
  datatype PersonRef = PersonRef(
    id: Id, fullName: string, gender: Option<map<string, Value>>, ageYears: Option<int>)

  function PersonReference(persons: map<Id, Person>, id: Id, today: Date): (r: Option<PersonRef>)
    ensures r.Some? <==> id in persons
    ensures r.Some? ==> r.value.id == id && r.value.fullName == PersonFullName(persons[id])
    ensures r.Some? ==> r.value.gender == CodeLabel(persons[id].gender) && r.value.ageYears == AgeYears(persons[id], today)
  {
    if id !in persons then None
    else
      var p := persons[id];
      Some(PersonRef(id, PersonFullName(p), CodeLabel(p.gender), AgeYears(p, today)))
  }

  // ---------------------------------------------------------------------
  // The relationships of a profile
  // ---------------------------------------------------------------------
  /** Keeps the first relationship of each id not in `seen`, in order: no id
      twice, none from `seen`, and only relationships of the input. */
  function DedupFrom(rels: seq<Relationship>, seen: set<Id>): (r: seq<Relationship>)
    ensures forall i, j :: 0 <= i < j < |r| ==> r[i].id != r[j].id
    ensures forall i :: 0 <= i < |r| ==> r[i].id !in seen && r[i] in rels
  {
    if rels == [] then []
    else if rels[0].id in seen then DedupFrom(rels[1..], seen)
    else [rels[0]] + DedupFrom(rels[1..], seen + {rels[0].id})
  }

  /** The first occurrence of every id outside `seen` is kept. */
  lemma {:induction false} DedupKeepsFirst(rels: seq<Relationship>, seen: set<Id>, k: nat)
    requires k < |rels| && rels[k].id !in seen
    requires forall j :: 0 <= j < k ==> rels[j].id != rels[k].id
    ensures rels[k] in DedupFrom(rels, seen)
    decreases k
  {
    if k > 0 {
      var seen' := if rels[0].id in seen then seen else seen + {rels[0].id};
      assert rels[1..][k - 1] == rels[k];
      DedupKeepsFirst(rels[1..], seen', k - 1);
    }
  }

  /** Every id of the input outside `seen` appears in the output. */
  lemma DedupCovers(rels: seq<Relationship>, seen: set<Id>, k: nat)
    requires k < |rels| && rels[k].id !in seen
    ensures exists i :: 0 <= i < |DedupFrom(rels, seen)| && DedupFrom(rels, seen)[i].id == rels[k].id
  {
    var f :| 0 <= f <= k && rels[f].id == rels[k].id && forall j :: 0 <= j < f ==> rels[j].id != rels[k].id by {
      FirstWithId(rels, k);
    }
    DedupKeepsFirst(rels, seen, f);
  }

  /** Some position at or before `k` is the first with `rels[k]`'s id. */
  lemma {:induction false} FirstWithId(rels: seq<Relationship>, k: nat)
    requires k < |rels|
    ensures exists f :: 0 <= f <= k && rels[f].id == rels[k].id && forall j :: 0 <= j < f ==> rels[j].id != rels[k].id
    decreases k
  {
    if exists j :: 0 <= j < k && rels[j].id == rels[k].id {
      var j :| 0 <= j < k && rels[j].id == rels[k].id;
      FirstWithId(rels, j);
    } else {
      var f := k;
      assert 0 <= f <= k && rels[f].id == rels[k].id && forall j :: 0 <= j < f ==> rels[j].id != rels[k].id;
    }
  }

  /** One step of `DedupFrom` after an already kept prefix `acc`. */
  lemma DedupAdvance(acc: seq<Relationship>, x: Relationship, rest: seq<Relationship>, seen: set<Id>)
    ensures acc + DedupFrom([x] + rest, seen)
      == if x.id in seen then acc + DedupFrom(rest, seen)
         else (acc + [x]) + DedupFrom(rest, seen + {x.id})
  {
    assert ([x] + rest)[1..] == rest;
    if x.id !in seen {
      assert acc + ([x] + DedupFrom(rest, seen + {x.id})) == (acc + [x]) + DedupFrom(rest, seen + {x.id});
    }
  }

  /** The loop of `get_relationships`: each id once, the first occurrence
      kept. */
  function DedupById(rels: seq<Relationship>): seq<Relationship> {
    DedupFrom(rels, {})
  }

  /** The sort key of `get_relationships`: the start date (an unset one as
      `date.min`), then the primary key. */
  function RelationshipKey(r: Relationship): Key {
    DateKey(r.startedOn.GetOr(MinDate)) + [IntPart(r.id)]
  }

  /** `_collect_relationships`: those stored with the person as `person`,
      then those stored with the person as `partner`. */
  function CollectRelationships(asPerson: seq<Relationship>, asPartner: seq<Relationship>): seq<Relationship> {
    asPerson + asPartner
  }

  /** What `get_relationships` lists, before each entry is serialized. */
  function ProfileRelationships(asPerson: seq<Relationship>, asPartner: seq<Relationship>): seq<Relationship> {
    SortBy(DedupById(CollectRelationships(asPerson, asPartner)), RelationshipKey)
  }

  /** `get_relationships`: drop repeated ids keeping the first, then sort
      ascending by (start date or `date.min`, primary key). */
  method GetRelationships(asPerson: seq<Relationship>, asPartner: seq<Relationship>)
    returns (out: seq<Relationship>)
    ensures out == ProfileRelationships(asPerson, asPartner)
  {
    var collected := CollectRelationships(asPerson, asPartner);
    var relationships: seq<Relationship> := [];
    var seenIds: set<Id> := {};
    for i := 0 to |collected|
      invariant relationships + DedupFrom(collected[i..], seenIds) == DedupById(collected)
    {
      var rel := collected[i];
      DedupStep(collected, i, relationships, seenIds);
      if rel.id in seenIds {
        continue;
      }
      seenIds := seenIds + {rel.id};
      relationships := relationships + [rel];
    }
    assert collected[|collected|..] == [];
    assert relationships == DedupById(collected);
    out := SortBy(relationships, RelationshipKey);
  }

  /** One pass of the `get_relationships` loop keeps the invariant that
      what has been kept, followed by the de-duplication of the rest, is the
      de-duplication of the whole list. */
  lemma DedupStep(collected: seq<Relationship>, i: nat, kept: seq<Relationship>, seenIds: set<Id>)
    requires i < |collected|
    requires kept + DedupFrom(collected[i..], seenIds) == DedupById(collected)
    ensures collected[i].id in seenIds ==>
      kept + DedupFrom(collected[i + 1..], seenIds) == DedupById(collected)
    ensures collected[i].id !in seenIds ==>
      (kept + [collected[i]]) + DedupFrom(collected[i + 1..], seenIds + {collected[i].id}) == DedupById(collected)
  {
    assert collected[i..] == [collected[i]] + collected[i + 1..];
    DedupAdvance(kept, collected[i], collected[i + 1..], seenIds);
  }

  /** The listed relationships are exactly the collected ones, each id once:
      every listed entry was collected, every collected id is listed. */
  lemma ProfileRelationshipsContent(asPerson: seq<Relationship>, asPartner: seq<Relationship>)
    ensures var out, all := ProfileRelationships(asPerson, asPartner), asPerson + asPartner;
      && (forall i, j :: 0 <= i < j < |out| ==> out[i].id != out[j].id)
      && (forall i :: 0 <= i < |out| ==> out[i] in all)
      && (forall k :: 0 <= k < |all| ==> exists i :: 0 <= i < |out| && out[i].id == all[k].id)
  {
    var all := asPerson + asPartner;
    var d := DedupById(all);
    var out := ProfileRelationships(asPerson, asPartner);
    assert multiset(out) == multiset(d);
    forall i, j | 0 <= i < j < |out| ensures out[i].id != out[j].id {
      DistinctIdsFromMultiset(d, out, i, j);
    }
    forall i | 0 <= i < |out| ensures out[i] in all {
      assert out[i] in multiset(d);
    }
    forall k | 0 <= k < |all| ensures exists i :: 0 <= i < |out| && out[i].id == all[k].id {
      DedupCovers(all, {}, k);
      var i :| 0 <= i < |d| && d[i].id == all[k].id;
      assert d[i] in multiset(out);
    }
  }

  /** In a sequence without repeated ids no element occurs twice. */
  lemma {:induction false} CountAtMostOne(d: seq<Relationship>, x: Relationship)
    requires forall a, b :: 0 <= a < b < |d| ==> d[a].id != d[b].id
    ensures multiset(d)[x] <= 1
    decreases |d|
  {
    if d != [] {
      CountAtMostOne(d[1..], x);
      assert d == [d[0]] + d[1..];
      if d[0] == x {
        assert x !in d[1..];
      }
    }
  }

  /** An element at two positions occurs at least twice. */
  lemma TwoOccurrences(s: seq<Relationship>, i: nat, j: nat)
    requires i < j < |s|
    ensures s[i] == s[j] ==> multiset(s)[s[i]] >= 2
  {
    assert s == s[..i] + [s[i]] + s[i + 1..j] + [s[j]] + s[j + 1..];
  }

  /** In a sequence without repeated ids, an id names one element. */
  lemma SameIdSameElement(d: seq<Relationship>, x: Relationship, y: Relationship)
    requires forall a, b :: 0 <= a < b < |d| ==> d[a].id != d[b].id
    requires x in multiset(d) && y in multiset(d)
    ensures x.id == y.id ==> x == y
  {
    var a :| 0 <= a < |d| && d[a] == x;
    var b :| 0 <= b < |d| && d[b] == y;
  }

  /** A permutation of a sequence with distinct ids has distinct ids. */
  lemma DistinctIdsFromMultiset(d: seq<Relationship>, out: seq<Relationship>, i: nat, j: nat)
    requires multiset(out) == multiset(d)
    requires forall a, b :: 0 <= a < b < |d| ==> d[a].id != d[b].id
    requires i < j < |out|
    ensures out[i].id != out[j].id
  {
    CountAtMostOne(d, out[i]);
    TwoOccurrences(out, i, j);
    SameIdSameElement(d, out[i], out[j]);
  }

  /** The listed relationships ascend by start date, a missing start counting
      as the earliest date, and then by primary key; nothing is reversed. */
  lemma ProfileRelationshipsOrder(asPerson: seq<Relationship>, asPartner: seq<Relationship>)
    ensures var out := ProfileRelationships(asPerson, asPartner);
      forall i, j :: 0 <= i < j < |out| ==>
        var a, b := out[i].startedOn.GetOr(MinDate), out[j].startedOn.GetOr(MinDate);
        Before(a, b) || (a == b && out[i].id < out[j].id)
  {
    var out := ProfileRelationships(asPerson, asPartner);
    ProfileRelationshipsContent(asPerson, asPartner);
    forall i, j | 0 <= i < j < |out|
      ensures var a, b := out[i].startedOn.GetOr(MinDate), out[j].startedOn.GetOr(MinDate);
        Before(a, b) || (a == b && out[i].id < out[j].id)
    {
      assert KeyLe(RelationshipKey(out[i]), RelationshipKey(out[j]));
      RelationshipKeyOrder(out[i], out[j]);
    }
  }

  /** Between relationships with different ids, the sort key orders by
      start date (missing as the earliest date), then by id. */
  lemma RelationshipKeyOrder(r: Relationship, s: Relationship)
    requires r.id != s.id && KeyLe(RelationshipKey(r), RelationshipKey(s))
    ensures var a, b := r.startedOn.GetOr(MinDate), s.startedOn.GetOr(MinDate);
      Before(a, b) || (a == b && r.id < s.id)
  {
    var a, b := r.startedOn.GetOr(MinDate), s.startedOn.GetOr(MinDate);
    assert RelationshipKey(r) != RelationshipKey(s) by {
      assert RelationshipKey(r)[3] == IntPart(r.id);
      assert RelationshipKey(s)[3] == IntPart(s.id);
    }
    DateKeyOrder(a, b, [IntPart(r.id)], [IntPart(s.id)]);
    assert [IntPart(r.id)][1..] == [] && [IntPart(s.id)][1..] == [];
  }

  /** A missing start date sorts no later than any representable one. */
  lemma MissingStartSortsFirst(r: Relationship, s: Relationship)
    requires r.startedOn.None? && s.startedOn.Some? && ValidDate(s.startedOn.value)
    ensures !Before(s.startedOn.GetOr(MinDate), r.startedOn.GetOr(MinDate))
  {
    MinDateEarliest(s.startedOn.value);
  }

  // ---------------------------------------------------------------------
  // Nested payloads
  // ---------------------------------------------------------------------

  datatype RelationshipPayload = RelationshipPayload(
    id: Id,
    relationshipType: RelationshipType,
    startedOn: Option<Date>,
    endedOn: Option<Date>,
    relationshipYears: Option<int>,
    isCurrent: bool,
    partner: Option<PersonRef>)

  datatype PersonProfile = PersonProfile(
    id: Id,
    fullName: string,
    firstName: Option<string>,
    lastName: Option<string>,
    gender: Option<map<string, Value>>,
    dateOfBirth: Option<Date>,
    ageYears: Option<int>,
    isDeceased: bool,
    dateOfDeath: Option<Date>,
    relationships: seq<RelationshipPayload>)

  datatype MemberPayload = MemberPayload(
    id: Id,
    role: FamilyRole,
    isPrimary: bool,
    joinedDate: Option<Date>,
    leftDate: Option<Date>,
    person: PersonProfile)

  datatype FamilyPayload = FamilyPayload(
    id: Id,
    name: string,
    fullLastName: string,
    description: Option<string>,
    isActive: bool,
    memberCount: nat,
    members: seq<MemberPayload>)

  /** `PersonRelationshipSerializer` with the profile's person as context:
      the partner shown is the other side. */
  function ProjectRelationship(persons: map<Id, Person>, base: Id, rel: Relationship, today: Date): (r: RelationshipPayload)
    ensures r.id == rel.id && r.isCurrent == IsCurrent(rel)
    ensures r.relationshipType == rel.relType && r.startedOn == rel.startedOn && r.endedOn == rel.endedOn
    ensures r.relationshipYears == RelationshipYears(rel, today)
    ensures r.partner == PersonReference(persons, PartnerOf(rel, base), today)
    ensures r.partner.Some? ==> r.partner.value.id == PartnerOf(rel, base)
  {
    RelationshipPayload(
      rel.id, rel.relType, rel.startedOn, rel.endedOn, RelationshipYears(rel, today), IsCurrent(rel),
      PersonReference(persons, PartnerOf(rel, base), today))
  }

  /** The relationships prefetched for a person. */
  function AsPerson(rels: seq<Relationship>, p: Id): seq<Relationship> {
    Filter(rels, (r: Relationship) => r.person == p)
  }

  function AsPartner(rels: seq<Relationship>, p: Id): seq<Relationship> {
    Filter(rels, (r: Relationship) => r.partner == p)
  }

  /** `PersonProfileSerializer`: the identity fields, the age and the
      relationship list, each relationship seen from this person. */
  function ProjectPerson(persons: map<Id, Person>, rels: seq<Relationship>, p: Person, today: Date): (r: PersonProfile)
    ensures r.id == p.id && r.relationships == ProfileEntries(persons, rels, p.id, today)
  {
    PersonProfile(
      p.id, PersonFullName(p), p.firstName, p.lastName, CodeLabel(p.gender), p.dateOfBirth,
      AgeYears(p, today), p.isDeceased, p.dateOfDeath, ProfileEntries(persons, rels, p.id, today))
  }

  /** The identity fields of a profile: the person's names, full name,
      gender label, birth date and age up to today, deceased flag and death
      date. */
  lemma ProjectPersonIdentity(persons: map<Id, Person>, rels: seq<Relationship>, p: Person, today: Date)
    ensures var r := ProjectPerson(persons, rels, p, today);
      && r.fullName == PersonFullName(p) && r.ageYears == AgeYears(p, today)
      && r.firstName == p.firstName && r.lastName == p.lastName && r.gender == CodeLabel(p.gender)
      && r.dateOfBirth == p.dateOfBirth && r.isDeceased == p.isDeceased && r.dateOfDeath == p.dateOfDeath
  {
  }

  /** The `relationships` entry of a profile: each listed relationship
      serialized with the profile's person as context, in order. */
  function ProfileEntries(persons: map<Id, Person>, rels: seq<Relationship>, pid: Id, today: Date)
    : (r: seq<RelationshipPayload>)
    ensures var listed := ProfileRelationships(AsPerson(rels, pid), AsPartner(rels, pid));
      && |r| == |listed|
      && forall k :: 0 <= k < |listed| ==> r[k] == ProjectRelationship(persons, pid, listed[k], today)
  {
    var listed := ProfileRelationships(AsPerson(rels, pid), AsPartner(rels, pid));
    seq(|listed|, k requires 0 <= k < |listed| => ProjectRelationship(persons, pid, listed[k], today))
  }

  /** The profile lists every stored relationship the person is on either
      side of, each once, and nothing else; each entry shows the other side
      as its partner. */
  lemma ProfileCoversRelationships(persons: map<Id, Person>, rels: seq<Relationship>, pid: Id, today: Date)
    ensures var entries := ProfileEntries(persons, rels, pid, today);
      && (forall i, j :: 0 <= i < j < |entries| ==> entries[i].id != entries[j].id)
      && (forall k :: 0 <= k < |rels| && InRelationship(rels[k], pid) ==>
            exists i :: 0 <= i < |entries| && entries[i].id == rels[k].id)
      && (forall i :: 0 <= i < |entries| ==>
            exists k :: (0 <= k < |rels| && InRelationship(rels[k], pid) && rels[k].id == entries[i].id
              && (entries[i].partner.Some? ==> entries[i].partner.value.id == PartnerOf(rels[k], pid))))
  {
    ProfileEntriesDistinct(persons, rels, pid, today);
    ProfileEntriesComplete(persons, rels, pid, today);
    ProfileEntriesFromRelationships(persons, rels, pid, today);
  }

  lemma ProfileEntriesDistinct(persons: map<Id, Person>, rels: seq<Relationship>, pid: Id, today: Date)
    ensures var entries := ProfileEntries(persons, rels, pid, today);
      forall i, j :: 0 <= i < j < |entries| ==> entries[i].id != entries[j].id
  {
    var listed := ProfileRelationships(AsPerson(rels, pid), AsPartner(rels, pid));
    var entries := ProfileEntries(persons, rels, pid, today);
    ProfileRelationshipsContent(AsPerson(rels, pid), AsPartner(rels, pid));
    forall i, j | 0 <= i < j < |entries| ensures entries[i].id != entries[j].id {
      assert entries[i].id == listed[i].id && entries[j].id == listed[j].id;
    }
  }

  lemma ProfileEntriesComplete(persons: map<Id, Person>, rels: seq<Relationship>, pid: Id, today: Date)
    ensures var entries := ProfileEntries(persons, rels, pid, today);
      forall k :: 0 <= k < |rels| && InRelationship(rels[k], pid) ==>
        exists i :: 0 <= i < |entries| && entries[i].id == rels[k].id
  {
    var listed := ProfileRelationships(AsPerson(rels, pid), AsPartner(rels, pid));
    var entries := ProfileEntries(persons, rels, pid, today);
    forall k | 0 <= k < |rels| && InRelationship(rels[k], pid)
      ensures exists i :: 0 <= i < |entries| && entries[i].id == rels[k].id
    {
      var i := ListedHasRelationship(rels, pid, k);
      assert entries[i].id == listed[i].id;
    }
  }

  lemma ProfileEntriesFromRelationships(persons: map<Id, Person>, rels: seq<Relationship>, pid: Id, today: Date)
    ensures var entries := ProfileEntries(persons, rels, pid, today);
      forall i :: 0 <= i < |entries| ==>
        exists k :: (0 <= k < |rels| && InRelationship(rels[k], pid) && rels[k].id == entries[i].id
          && (entries[i].partner.Some? ==> entries[i].partner.value.id == PartnerOf(rels[k], pid)))
  {
    var entries := ProfileEntries(persons, rels, pid, today);
    forall i | 0 <= i < |entries|
      ensures exists k :: (0 <= k < |rels| && InRelationship(rels[k], pid) && rels[k].id == entries[i].id
        && (entries[i].partner.Some? ==> entries[i].partner.value.id == PartnerOf(rels[k], pid)))
    {
      var k := EntryFromRelationship(persons, rels, pid, today, i);
    }
  }

  /** Entry `i` of the profile comes from a stored relationship `k` of the
      person and shows its other side. */
  lemma EntryFromRelationship(persons: map<Id, Person>, rels: seq<Relationship>, pid: Id, today: Date, i: nat)
    returns (k: nat)
    requires i < |ProfileEntries(persons, rels, pid, today)|
    ensures var e := ProfileEntries(persons, rels, pid, today)[i];
      k < |rels| && InRelationship(rels[k], pid) && rels[k].id == e.id
      && (e.partner.Some? ==> e.partner.value.id == PartnerOf(rels[k], pid))
  {
    var listed := ProfileRelationships(AsPerson(rels, pid), AsPartner(rels, pid));
    k := ListedIsRelationship(rels, pid, i);
    assert ProfileEntries(persons, rels, pid, today)[i]
        == ProjectRelationship(persons, pid, listed[i], today);
  }

  /** A stored relationship of the person is listed in the profile. */
  lemma ListedHasRelationship(rels: seq<Relationship>, pid: Id, k: nat) returns (i: nat)
    requires k < |rels| && InRelationship(rels[k], pid)
    ensures var listed := ProfileRelationships(AsPerson(rels, pid), AsPartner(rels, pid));
      i < |listed| && listed[i].id == rels[k].id
  {
    var asPerson, asPartner := AsPerson(rels, pid), AsPartner(rels, pid);
    var listed := ProfileRelationships(asPerson, asPartner);
    var m := CollectedIndex(rels, pid, k);
    ProfileRelationshipsContent(asPerson, asPartner);
    i :| 0 <= i < |listed| && listed[i].id == (asPerson + asPartner)[m].id;
  }

  /** A stored relationship of the person is among the collected ones. */
  lemma CollectedIndex(rels: seq<Relationship>, pid: Id, k: nat) returns (m: nat)
    requires k < |rels| && InRelationship(rels[k], pid)
    ensures m < |AsPerson(rels, pid) + AsPartner(rels, pid)|
    ensures (AsPerson(rels, pid) + AsPartner(rels, pid))[m] == rels[k]
  {
    var asPerson, asPartner := AsPerson(rels, pid), AsPartner(rels, pid);
    var x := rels[k];
    if x.person == pid {
      assert x in asPerson;
      m :| m < |asPerson| && asPerson[m] == x;
    } else {
      assert x in asPartner;
      var n :| 0 <= n < |asPartner| && asPartner[n] == x;
      m := |asPerson| + n;
    }
  }

  /** A listed relationship is a stored relationship of the person. */
  lemma ListedIsRelationship(rels: seq<Relationship>, pid: Id, i: nat) returns (k: nat)
    requires i < |ProfileRelationships(AsPerson(rels, pid), AsPartner(rels, pid))|
    ensures k < |rels| && rels[k] == ProfileRelationships(AsPerson(rels, pid), AsPartner(rels, pid))[i]
    ensures InRelationship(rels[k], pid)
  {
    var asPerson, asPartner := AsPerson(rels, pid), AsPartner(rels, pid);
    var x := ProfileRelationships(asPerson, asPartner)[i];
    ProfileRelationshipsContent(asPerson, asPartner);
    assert x in asPerson + asPartner;
    k :| 0 <= k < |rels| && rels[k] == x;
  }

  /** `FamilyMemberSerializer`: the membership's own fields and the
      member's profile. */
  function ProjectMember(persons: map<Id, Person>, rels: seq<Relationship>, m: FamilyMember, today: Date): (r: MemberPayload)
    ensures && r.id == m.id && r.role == m.role && r.isPrimary == m.isPrimary
            && r.joinedDate == m.joinedDate && r.leftDate == m.leftDate
            && r.person == ProjectPerson(persons, rels, m.person, today)
  {
    MemberPayload(m.id, m.role, m.isPrimary, m.joinedDate, m.leftDate, ProjectPerson(persons, rels, m.person, today))
  }

  /** `get_member_count`: the length of the prefetched membership list when
      there is one, otherwise the number of stored memberships of the
      family. */
  function MemberCount(prefetched: Option<seq<FamilyMember>>, all: seq<FamilyMember>, familyId: Id): (n: nat)
    ensures prefetched.Some? ==> n == |prefetched.value|
    ensures prefetched.None? ==> n == |Filter(all, (m: FamilyMember) => m.family.id == familyId)|
  {
    if prefetched.Some? then |prefetched.value|
    else Count(all, (m: FamilyMember) => m.family.id == familyId)
  }

  /** The two ways of counting agree when the prefetched list holds the
      family's memberships, in any order. */
  lemma MemberCountAgrees(prefetched: seq<FamilyMember>, all: seq<FamilyMember>, familyId: Id)
    requires multiset(prefetched) == multiset(Filter(all, (m: FamilyMember) => m.family.id == familyId))
    ensures MemberCount(Some(prefetched), all, familyId) == MemberCount(None, all, familyId)
  {
    assert |multiset(prefetched)| == |prefetched|;
    assert |multiset(Filter(all, (m: FamilyMember) => m.family.id == familyId))|
        == |Filter(all, (m: FamilyMember) => m.family.id == familyId)|;
  }

  /** `FamilyTreeSerializer`: the family's fields, its display name, the
      member count and one payload per prefetched membership, in order. */
  function ProjectFamily(f: Family, members: seq<FamilyMember>, persons: map<Id, Person>,
                         rels: seq<Relationship>, today: Date): (r: FamilyPayload)
    ensures r.id == f.id && r.isActive == f.isActive
    ensures r.name == r.fullLastName == FullLastName(f)
    ensures r.memberCount == |members| == |r.members|
    ensures forall k :: 0 <= k < |members| ==> r.members[k] == ProjectMember(persons, rels, members[k], today)
  {
    FamilyPayload(
      f.id, FullLastName(f), FullLastName(f), f.description, f.isActive,
      MemberCount(Some(members), [], f.id),
      seq(|members|, k requires 0 <= k < |members| => ProjectMember(persons, rels, members[k], today)))
  }
}
