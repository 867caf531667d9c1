/** The entities of the genealogy store (people/models.py): people, families,
    memberships, typed relationships and marriages, the derived display
    strings and queries on them, and the write-time rules that keep
    relationships and marriages consistent. */
module Models {
  import opened Wrappers
  import opened Text
  import opened Seqs
  import opened Ordering
  import opened Dates

  /** Primary keys are positive integers, as the database assigns them. */
  type Id = x: int | x >= 1 witness 1

  /** The relationship-type code that marks a dating relationship. */
  const DatingCode: string := "dating"

  /** A row of a lookup table (gender, marital status, ...): its id, which of
      the attributes `code`, `label` and `name` its model declares (with their
      values), and its `str()`. */
  datatype LookupRow = LookupRow(
    id: Id, code: Option<string>, labelText: Option<string>, name: Option<string>, display: string)

  /** A person; a foreign key to a name catalog entry is the entry's `value`
      when set. */
  datatype Person = Person(
    id: Id,
    firstName: Option<string>,
    lastName: Option<string>,
    gender: Option<LookupRow>,
    dateOfBirth: Option<Date>,
    isDeceased: bool,
    dateOfDeath: Option<Date>,
    causeOfDeath: Option<string>)

  /** A family; each of the four last-name foreign keys is the catalog
      entry's `value` when set. */
  datatype Family = Family(
    id: Id,
    firstLastName: Option<string>,
    secondLastName: Option<string>,
    thirdLastName: Option<string>,
    fourthLastName: Option<string>,
    description: Option<string>,
    isActive: bool)

  datatype FamilyRole = FamilyRole(id: Id, code: string, name: string, displayOrder: nat)

  /** A membership row with the family, person and role rows it joins to. */
  datatype FamilyMember = FamilyMember(
    id: Id,
    family: Family,
    person: Person,
    role: FamilyRole,
    isPrimary: bool,
    joinedDate: Option<Date>,
    leftDate: Option<Date>)

  datatype RelationshipType = RelationshipType(id: Id, code: string, labelText: string)

  /** A stored relationship between two people; `createdAt` is the creation
      timestamp as an integer. */
  datatype Relationship = Relationship(
    id: Id,
    person: Id,
    partner: Id,
    relType: RelationshipType,
    startedOn: Option<Date>,
    endedOn: Option<Date>,
    createdAt: int)

  datatype Marriage = Marriage(
    id: Id,
    husband: Id,
    wife: Id,
    marriedOn: Date,
    endedOn: Option<Date>,
    endReason: Option<string>)

  /** The reasons a write is refused: a required side missing, a
      self-relationship, a violated partial unique index, a name catalog
      entry colliding with a stored one, an unknown id. */
  datatype WriteError =
    | MissingParty
    | SelfRelationship
    | ActiveRelationshipExists
    | ActiveMarriageAsHusband
    | ActiveMarriageAsWife
    | DuplicateName
    | NotFound

  // ---------------------------------------------------------------------
  // Display strings
  // ---------------------------------------------------------------------

  /** `Person.__str__`: first name and last name joined by a space, with the
      surrounding whitespace stripped. */
  function PersonFullName(p: Person): (r: string)
    ensures Trimmed(r)
  {
    Strip(p.firstName.GetOr("") + " " + p.lastName.GetOr(""))
  }

  /** For names stored without surrounding whitespace: "first last", or the
      one that is set, or "" when neither is. */
  lemma PersonFullNameCases(p: Person)
    requires Trimmed(p.firstName.GetOr("")) && Trimmed(p.lastName.GetOr(""))
    ensures var first, last := p.firstName.GetOr(""), p.lastName.GetOr("");
      PersonFullName(p) ==
        if first != "" && last != "" then first + " " + last
        else if first != "" then first
        else last
  {
    var first, last := p.firstName.GetOr(""), p.lastName.GetOr("");
    assert PersonFullName(p) == Strip(first + " " + last);
    StripSpaced(first, last);
  }

  /** A last-name part as `" ".join` keeps it: unset and empty values are
      dropped. */
  function PresentPart(part: Option<string>): (r: seq<string>)
    ensures |r| <= 1 && forall k :: 0 <= k < |r| ==> r[k] != ""
  {
    if part.Some? && part.value != "" then [part.value] else []
  }

  /** The set last-name parts, first to fourth. */
  function LastNameParts(f: Family): (r: seq<string>)
    ensures forall k :: 0 <= k < |r| ==> r[k] != ""
  {
    PresentPart(f.firstLastName) + PresentPart(f.secondLastName)
    + PresentPart(f.thirdLastName) + PresentPart(f.fourthLastName)
  }

  predicate NoLastNames(f: Family) {
    f.firstLastName.GetOr("") == "" && f.secondLastName.GetOr("") == ""
    && f.thirdLastName.GetOr("") == "" && f.fourthLastName.GetOr("") == ""
  }

  /** `Family.full_last_name` (also `Family.name`): the set parts joined by
      single spaces; empty exactly when no part is set. */
  function FullLastName(f: Family): (r: string)
    ensures r == "" <==> NoLastNames(f)
  {
    JoinEmptyIff(LastNameParts(f), " ");
    Join(LastNameParts(f), " ")
  }

  /** With all four parts set, they appear first to fourth with one space
      between each two. */
  lemma FullLastNameAllParts(f: Family, a: string, b: string, c: string, d: string)
    requires a != "" && b != "" && c != "" && d != ""
    requires f.firstLastName == Some(a) && f.secondLastName == Some(b)
    requires f.thirdLastName == Some(c) && f.fourthLastName == Some(d)
    ensures FullLastName(f) == a + " " + b + " " + c + " " + d
  {
    var parts := LastNameParts(f);
    assert parts == [a, b, c, d];
    assert parts[1..] == [b, c, d] && parts[1..][1..] == [c, d] && parts[1..][1..][1..] == [d];
    assert Join([c, d], " ") == c + " " + d;
    assert Join([b, c, d], " ") == b + " " + (c + " " + d);
    assert Join(parts, " ") == a + " " + (b + " " + (c + " " + d));
  }

  /** Unset parts leave no gap: with only the first and the third set, the
      name is those two with one space. */
  lemma FullLastNameSkipsUnset(f: Family, a: string, c: string)
    requires a != "" && c != ""
    requires f.firstLastName == Some(a) && f.secondLastName.GetOr("") == ""
    requires f.thirdLastName == Some(c) && f.fourthLastName.GetOr("") == ""
    ensures FullLastName(f) == a + " " + c
  {
    assert LastNameParts(f) == [a, c];
    assert LastNameParts(f)[1..] == [c];
  }

  const FamilyPrefix: string := "Family #"

  /** `Family.__str__`: the full last name, or "Family #<pk>" when it is
      empty; the fallback names the family's id in decimal. */
  function FamilyLabel(f: Family): (r: string)
    ensures r != ""
    ensures !NoLastNames(f) ==> r == FullLastName(f)
    ensures NoLastNames(f) ==>
      |r| > |FamilyPrefix| && r[..|FamilyPrefix|] == FamilyPrefix
      && IsDigits(r[|FamilyPrefix|..]) && ParseNat(r[|FamilyPrefix|..]) == f.id
  {
    var full := FullLastName(f);
    if full != "" then full
    else
      var r := FamilyPrefix + NatToString(f.id);
      assert r[|FamilyPrefix|..] == NatToString(f.id);
      ParseNatToString(f.id);
      r
  }

  // ---------------------------------------------------------------------
  // Name catalogs (PersonName, LastName, Nickname)
  // ---------------------------------------------------------------------

  /** The `normalized_value` a catalog entry stores: its value (empty when
      unset) stripped and lower-cased. */
  function Normalize(value: Option<string>): (r: string)
    ensures Trimmed(r) && NoUpper(r)
    ensures |r| <= |value.GetOr("")|
  {
    Lower(Strip(value.GetOr("")))
  }

  /** Normalizing an already normalized value changes nothing. */
  lemma NormalizeIdempotent(value: Option<string>)
    ensures Normalize(Some(Normalize(value))) == Normalize(value)
  {
    var s := Strip(value.GetOr(""));
    var n := Lower(s);
    assert Normalize(value) == n;
    assert Normalize(Some(n)) == Lower(Strip(n));
    StripLower(s);
    StripTrimmed(s);
    assert Strip(n) == n;
    LowerOfLower(n);
  }

  /** A name catalog entry. `Save` writes the normalized form just before the
      row is persisted, whatever it held before. */
  class NameEntry {
    var value: Option<string>
    var normalizedValue: string

    constructor (value: Option<string>)
      ensures this.value == value && normalizedValue == ""
    {
      this.value := value;
      normalizedValue := "";
    }

    method Save()
      modifies this`normalizedValue
      ensures normalizedValue == Normalize(value)
    {
      var normalized := Lower(Strip(value.GetOr("")));
      normalizedValue := normalized;
    }
  }

  /** A stored catalog row. */
  datatype CatalogRow = CatalogRow(id: Id, value: string, normalizedValue: string)

  /** What the catalog table keeps true: distinct ids, a unique
      `normalized_value`, and every `normalized_value` written by `save()`
      from its value. (The unique `value` follows: see
      `CatalogValuesUnique`.) */
  ghost predicate CatalogConsistent(rows: seq<CatalogRow>) {
    (forall i, j :: 0 <= i < j < |rows| ==> rows[i].id != rows[j].id)
    && (forall i, j :: 0 <= i < j < |rows| ==> rows[i].normalizedValue != rows[j].normalizedValue)
    && (forall i :: 0 <= i < |rows| ==> rows[i].normalizedValue == Normalize(Some(rows[i].value)))
  }

  /** In a consistent catalog the `value` column is unique too: equal values
      would have equal normalized values. */
  lemma CatalogValuesUnique(rows: seq<CatalogRow>, i: nat, j: nat)
    requires CatalogConsistent(rows) && i < j < |rows|
    ensures rows[i].value != rows[j].value
  {
  }

  /** So a new entry collides exactly when its normalized form is taken. */
  lemma CatalogCollidesOnNormalized(rows: seq<CatalogRow>, value: string)
    requires CatalogConsistent(rows)
    ensures CatalogCollides(rows, value) <==>
      exists k :: 0 <= k < |rows| && rows[k].normalizedValue == Normalize(Some(value))
  {
    if CatalogCollides(rows, value) {
      var k :| 0 <= k < |rows| && (rows[k].value == value || rows[k].normalizedValue == Normalize(Some(value)));
      assert rows[k].normalizedValue == Normalize(Some(rows[k].value));
    }
  }

  /** Whether a new entry with this value would collide with a stored row on
      either unique column. */
  predicate CatalogCollides(rows: seq<CatalogRow>, value: string) {
    exists k :: 0 <= k < |rows| && (rows[k].value == value || rows[k].normalizedValue == Normalize(Some(value)))
  }

  /** Adding a non-colliding entry with a fresh id keeps the catalog
      consistent. */
  lemma CatalogAcceptKeepsConsistent(rows: seq<CatalogRow>, id: Id, value: string)
    requires CatalogConsistent(rows) && !CatalogCollides(rows, value)
    requires forall k :: 0 <= k < |rows| ==> rows[k].id != id
    ensures CatalogConsistent(rows + [CatalogRow(id, value, Normalize(Some(value)))])
  {
    var row := CatalogRow(id, value, Normalize(Some(value)));
    AppendKeepsIdsDistinct(rows, row);
    AppendKeepsNormalizedUnique(rows, row);
    AppendKeepsNormalizedDerived(rows, row);
  }

  lemma AppendKeepsIdsDistinct(rows: seq<CatalogRow>, row: CatalogRow)
    requires forall i, j :: 0 <= i < j < |rows| ==> rows[i].id != rows[j].id
    requires forall k :: 0 <= k < |rows| ==> rows[k].id != row.id
    ensures var s := rows + [row]; forall i, j :: 0 <= i < j < |s| ==> s[i].id != s[j].id
  {
    var s := rows + [row];
    forall i, j | 0 <= i < j < |s| ensures s[i].id != s[j].id {
      assert s[i] == rows[i];
    }
  }

  lemma AppendKeepsNormalizedUnique(rows: seq<CatalogRow>, row: CatalogRow)
    requires forall i, j :: 0 <= i < j < |rows| ==> rows[i].normalizedValue != rows[j].normalizedValue
    requires forall k :: 0 <= k < |rows| ==> rows[k].normalizedValue != row.normalizedValue
    ensures var s := rows + [row];
      forall i, j :: 0 <= i < j < |s| ==> s[i].normalizedValue != s[j].normalizedValue
  {
    var s := rows + [row];
    forall i, j | 0 <= i < j < |s| ensures s[i].normalizedValue != s[j].normalizedValue {
      assert s[i] == rows[i];
    }
  }

  lemma AppendKeepsNormalizedDerived(rows: seq<CatalogRow>, row: CatalogRow)
    requires forall i :: 0 <= i < |rows| ==> rows[i].normalizedValue == Normalize(Some(rows[i].value))
    requires row.normalizedValue == Normalize(Some(row.value))
    ensures var s := rows + [row];
      forall i :: 0 <= i < |s| ==> s[i].normalizedValue == Normalize(Some(s[i].value))
  {
  }

  /** A spelling that differs from a stored entry only in case or in
      surrounding whitespace is refused: its normalized form is taken. */
  lemma CaseVariantCollides(rows: seq<CatalogRow>, k: nat, value: string)
    requires CatalogConsistent(rows) && k < |rows|
    requires Normalize(Some(value)) == Normalize(Some(rows[k].value))
    ensures CatalogCollides(rows, value)
  {
    assert rows[k].normalizedValue == Normalize(Some(value));
  }

  /** Every stored id is below `n`, the next id handed out. */
  predicate IdsBelow(rows: seq<CatalogRow>, n: Id) {
    forall k :: 0 <= k < |rows| ==> rows[k].id < n
  }

  lemma IdsBelowAppend(rows: seq<CatalogRow>, row: CatalogRow, n: Id)
    requires IdsBelow(rows, n) && row.id == n
    ensures IdsBelow(rows + [row], n + 1)
    ensures forall k :: 0 <= k < |rows| ==> rows[k].id != row.id
  {
  }

  /** A name catalog table (`PersonName`, `LastName` or `Nickname`): `save()`
      of a new entry normalizes the value, then the two unique indexes refuse
      a collision (the database raises an integrity error). */
  class NameCatalog {
    var rows: seq<CatalogRow>
    var nextId: Id

    ghost predicate Valid()
      reads this
    {
      CatalogConsistent(rows) && IdsBelow(rows, nextId)
    }

    constructor ()
      ensures Valid() && rows == []
    {
      rows := [];
      nextId := 1;
    }

    method Save(value: string) returns (res: Result<CatalogRow, WriteError>)
      requires Valid()
      modifies this
      ensures Valid()
      ensures res.Failure? <==> CatalogCollides(old(rows), value)
      ensures res.Failure? ==> res.error == DuplicateName && rows == old(rows)
      ensures res.Success? ==>
        (forall k :: 0 <= k < |old(rows)| ==> old(rows)[k].id != res.value.id)
        && res.value == CatalogRow(res.value.id, value, Normalize(Some(value)))
        && rows == old(rows) + [res.value]
    {
      var entry := new NameEntry(Some(value));
      entry.Save();
      var normalized := entry.normalizedValue;
      assert rows == old(rows) && nextId == old(nextId);
      if CatalogCollides(rows, value) {
        return Failure(DuplicateName);
      }
      var stored := CatalogRow(nextId, value, normalized);
      CatalogAcceptKeepsConsistent(rows, nextId, value);
      IdsBelowAppend(rows, stored, nextId);
      rows := rows + [stored];
      nextId := nextId + 1;
      return Success(stored);
    }
  }

  // ---------------------------------------------------------------------
  // Relationships
  // ---------------------------------------------------------------------

  /** `PersonRelationship.is_current`. */
  predicate IsCurrent(r: Relationship) {
    r.endedOn.None?
  }

  /** A relationship as handed to `save()`: either side may still be unset. */
  datatype RelationshipDraft = RelationshipDraft(
    person: Option<Id>,
    partner: Option<Id>,
    relType: RelationshipType,
    startedOn: Option<Date>,
    endedOn: Option<Date>,
    createdAt: int)

  /** The pair order `save()` stores: when both sides are set and the person
      has the higher id, the two sides are swapped; nothing else changes. */
  function Canonical(d: RelationshipDraft): (c: RelationshipDraft)
    ensures c.person.Some? && c.partner.Some? ==> c.person.value <= c.partner.value
    ensures multiset{c.person, c.partner} == multiset{d.person, d.partner}
    ensures c == d.(person := c.person, partner := c.partner)
    ensures (d.person.None? || d.partner.None? || d.person.value <= d.partner.value) ==> c == d
  {
    if d.person.Some? && d.partner.Some? && d.person.value > d.partner.value then
      d.(person := d.partner, partner := d.person)
    else d
  }

  /** Saving twice stores the same pair as saving once. */
  lemma CanonicalIdempotent(d: RelationshipDraft)
    ensures Canonical(Canonical(d)) == Canonical(d)
  {
  }

  /** Entering the pair in either order stores the same row. */
  lemma CanonicalSymmetric(d: RelationshipDraft)
    requires d.person.Some? && d.partner.Some?
    ensures Canonical(d.(person := d.partner, partner := d.person)) == Canonical(d)
  {
  }

  /** The key of the partial unique index on current relationships. */
  function ActiveKey(r: Relationship): (Id, Id, Id) {
    (r.person, r.partner, r.relType.id)
  }

  /** What the table's constraints and `save()` keep true of the stored
      rows: canonical order without self-relationships, distinct ids, and at
      most one current row per (person, partner, type). */
  ghost predicate RelationshipsConsistent(rows: seq<Relationship>) {
    (forall i :: 0 <= i < |rows| ==> rows[i].person < rows[i].partner)
    && (forall i, j :: 0 <= i < j < |rows| ==> rows[i].id != rows[j].id)
    && (forall i, j :: 0 <= i < j < |rows| && IsCurrent(rows[i]) && IsCurrent(rows[j]) ==>
          ActiveKey(rows[i]) != ActiveKey(rows[j]))
  }

  /** Because stored pairs are canonical, the unique index also holds for the
      unordered pair: two current rows of one type that join the same two
      people are the same row. */
  lemma UnorderedPairUnique(rows: seq<Relationship>, i: nat, j: nat)
    requires RelationshipsConsistent(rows)
    requires i < |rows| && j < |rows|
    requires IsCurrent(rows[i]) && IsCurrent(rows[j])
    requires rows[i].relType.id == rows[j].relType.id
    requires {rows[i].person, rows[i].partner} == {rows[j].person, rows[j].partner}
    ensures i == j
  {
    var a, b := rows[i], rows[j];
    assert a.person in {b.person, b.partner};
    assert a.partner in {b.person, b.partner};
    assert b.person in {a.person, a.partner};
    assert a.person == b.person && a.partner == b.partner;
  }

  /** The smaller and the larger of two ids. */
  function Lower2(a: Id, b: Id): Id { if a <= b then a else b }
  function Upper2(a: Id, b: Id): Id { if a <= b then b else a }

  /** Whether some stored current row has the draft's canonical key. */
  predicate HasActiveDuplicate(rows: seq<Relationship>, c: RelationshipDraft)
    requires c.person.Some? && c.partner.Some?
  {
    exists k :: 0 <= k < |rows| && IsCurrent(rows[k])
      && rows[k].person == c.person.value && rows[k].partner == c.partner.value
      && rows[k].relType.id == c.relType.id
  }

  /** Why saving `d` into `rows` fails, if it does: a side is unset (the
      columns are NOT NULL), both sides are one person (the check
      constraint), or a current draft duplicates a current row (the partial
      unique index), each judged on the canonical pair. */
  function RelationshipRejection(rows: seq<Relationship>, d: RelationshipDraft): (r: Option<WriteError>)
    ensures r == Some(MissingParty) <==> d.person.None? || d.partner.None?
    ensures r == Some(SelfRelationship) <==> d.person.Some? && d.person == d.partner
    ensures r == Some(ActiveRelationshipExists) <==>
      && d.person.Some? && d.partner.Some? && d.person != d.partner && d.endedOn.None?
      && var lo, hi := Lower2(d.person.value, d.partner.value), Upper2(d.person.value, d.partner.value);
         exists k :: 0 <= k < |rows| && IsCurrent(rows[k]) && rows[k].relType.id == d.relType.id
           && rows[k].person == lo && rows[k].partner == hi
    ensures r.Some? ==> r.value in {MissingParty, SelfRelationship, ActiveRelationshipExists}
  {
    var c := Canonical(d);
    if c.person.None? || c.partner.None? then Some(MissingParty)
    else if c.person == c.partner then Some(SelfRelationship)
    else if c.endedOn.None? && HasActiveDuplicate(rows, c) then Some(ActiveRelationshipExists)
    else None
  }

  /** The rejection does not depend on the order the pair was entered in. */
  lemma RejectionIgnoresPairOrder(rows: seq<Relationship>, d: RelationshipDraft)
    ensures RelationshipRejection(rows, d.(person := d.partner, partner := d.person))
         == RelationshipRejection(rows, d)
  {
    if d.person.Some? && d.partner.Some? {
      CanonicalSymmetric(d);
    }
  }

  /** A self-relationship is always refused, whatever is stored. */
  lemma SelfRelationshipRefused(rows: seq<Relationship>, d: RelationshipDraft)
    requires d.person.Some? && d.person == d.partner
    ensures RelationshipRejection(rows, d) == Some(SelfRelationship)
  {
  }

  /** The row stored for an accepted draft. */
  function StoredRow(c: RelationshipDraft, id: Id): Relationship
    requires c.person.Some? && c.partner.Some?
  {
    Relationship(id, c.person.value, c.partner.value, c.relType, c.startedOn, c.endedOn, c.createdAt)
  }

  /** Accepting a draft with a fresh id keeps the stored rows consistent. */
  lemma AcceptKeepsConsistent(rows: seq<Relationship>, d: RelationshipDraft, id: Id)
    requires RelationshipsConsistent(rows)
    requires RelationshipRejection(rows, d).None?
    requires forall k :: 0 <= k < |rows| ==> rows[k].id != id
    ensures Canonical(d).person.Some? && Canonical(d).partner.Some?
    ensures RelationshipsConsistent(rows + [StoredRow(Canonical(d), id)])
  {
    var c := Canonical(d);
    var s := rows + [StoredRow(c, id)];
    forall i, j | 0 <= i < j < |s| && IsCurrent(s[i]) && IsCurrent(s[j])
      ensures ActiveKey(s[i]) != ActiveKey(s[j])
    {
      if j == |rows| {
        assert !HasActiveDuplicate(rows, c);
        assert s[i] == rows[i];
      }
    }
  }

  /** Setting the end date of one row keeps the stored rows consistent:
      ending never creates a second current row. */
  lemma EndKeepsConsistent(rows: seq<Relationship>, k: nat, endedOn: Date)
    requires RelationshipsConsistent(rows) && k < |rows|
    ensures RelationshipsConsistent(rows[k := rows[k].(endedOn := Some(endedOn))])
  {
    var s := rows[k := rows[k].(endedOn := Some(endedOn))];
    forall i, j | 0 <= i < j < |s| && IsCurrent(s[i]) && IsCurrent(s[j])
      ensures ActiveKey(s[i]) != ActiveKey(s[j])
    {
      assert s[i] == rows[i] && s[j] == rows[j];
    }
  }

  /** The relationship table. Writes go through `Save` (canonical order, then
      the table's constraints) and `End`. */
  class RelationshipStore {
    var rows: seq<Relationship>
    var nextId: Id

    ghost predicate Valid()
      reads this
    {
      RelationshipsConsistent(rows) && forall k :: 0 <= k < |rows| ==> rows[k].id < nextId
    }

    constructor ()
      ensures Valid() && rows == []
    {
      rows := [];
      nextId := 1;
    }

    /** `PersonRelationship.save()` for a new row: put the pair in canonical
        order, then insert unless a constraint refuses it. */
    method Save(d: RelationshipDraft) returns (res: Result<Relationship, WriteError>)
      requires Valid()
      modifies this
      ensures Valid()
      ensures res.Failure? <==> RelationshipRejection(old(rows), d).Some?
      ensures res.Failure? ==> res.error == RelationshipRejection(old(rows), d).value && rows == old(rows)
      ensures res.Success? ==>
        Canonical(d).person.Some? && Canonical(d).partner.Some?
        && (forall k :: 0 <= k < |old(rows)| ==> old(rows)[k].id != res.value.id)
        && res.value == StoredRow(Canonical(d), res.value.id)
        && rows == old(rows) + [res.value]
    {
      var person, partner := d.person, d.partner;
      if person.Some? && partner.Some? && person.value > partner.value {
        person, partner := partner, person;
      }
      var c := d.(person := person, partner := partner);
      assert c == Canonical(d);
      if person.None? || partner.None? {
        return Failure(MissingParty);
      }
      if person == partner {
        return Failure(SelfRelationship);
      }
      if d.endedOn.None? {
        var k := 0;
        while k < |rows|
          invariant 0 <= k <= |rows|
          invariant forall m :: 0 <= m < k ==>
            !(IsCurrent(rows[m]) && rows[m].person == person.value
              && rows[m].partner == partner.value && rows[m].relType.id == d.relType.id)
        {
          var row := rows[k];
          if row.endedOn.None? && row.person == person.value && row.partner == partner.value
             && row.relType.id == d.relType.id {
            return Failure(ActiveRelationshipExists);
          }
          k := k + 1;
        }
      }
      var stored := StoredRow(c, nextId);
      AcceptKeepsConsistent(rows, d, nextId);
      rows := rows + [stored];
      nextId := nextId + 1;
      return Success(stored);
    }

    /** Ending a relationship: set `ended_on` on the row with the given id. */
    method End(id: Id, endedOn: Date) returns (res: Result<Relationship, WriteError>)
      requires Valid()
      modifies this
      ensures Valid() && nextId == old(nextId)
      ensures res.Failure? <==> forall k :: 0 <= k < |old(rows)| ==> old(rows)[k].id != id
      ensures res.Failure? ==> res.error == NotFound && rows == old(rows)
      ensures res.Success? ==>
        exists k :: 0 <= k < |old(rows)| && old(rows)[k].id == id
          && res.value == old(rows)[k].(endedOn := Some(endedOn))
          && rows == old(rows)[k := res.value]
    {
      var k := 0;
      while k < |rows|
        invariant 0 <= k <= |rows|
        invariant forall m :: 0 <= m < k ==> rows[m].id != id
      {
        if rows[k].id == id {
          var ended := rows[k].(endedOn := Some(endedOn));
          EndKeepsConsistent(rows, k, endedOn);
          rows := rows[k := ended];
          return Success(ended);
        }
        k := k + 1;
      }
      return Failure(NotFound);
    }
  }

  // ---------------------------------------------------------------------
  // Marriages
  // ---------------------------------------------------------------------

  /** `Marriage.is_active`. */
  predicate IsActive(m: Marriage) {
    m.endedOn.None?
  }

  /** What the two partial unique indexes keep true: distinct ids, and no two
      active marriages share a husband or share a wife. */
  ghost predicate MarriagesConsistent(rows: seq<Marriage>) {
    (forall i, j :: 0 <= i < j < |rows| ==> rows[i].id != rows[j].id)
    && (forall i, j :: 0 <= i < j < |rows| && IsActive(rows[i]) && IsActive(rows[j]) ==>
          rows[i].husband != rows[j].husband && rows[i].wife != rows[j].wife)
  }

  datatype MarriageDraft = MarriageDraft(
    husband: Id, wife: Id, marriedOn: Date, endedOn: Option<Date>, endReason: Option<string>)

  /** Why inserting `m` fails, if it does: an active draft whose husband, or
      else whose wife, already has an active marriage (each side checked on
      its own). */
  function MarriageRejection(rows: seq<Marriage>, m: MarriageDraft): (r: Option<WriteError>)
    ensures r.None? <==>
      || m.endedOn.Some?
      || forall k :: 0 <= k < |rows| && IsActive(rows[k]) ==> rows[k].husband != m.husband && rows[k].wife != m.wife
    ensures r == Some(ActiveMarriageAsHusband) <==>
      m.endedOn.None? && exists k :: 0 <= k < |rows| && IsActive(rows[k]) && rows[k].husband == m.husband
    ensures r.Some? ==> r.value in {ActiveMarriageAsHusband, ActiveMarriageAsWife}
  {
    if m.endedOn.Some? then None
    else if exists k :: 0 <= k < |rows| && IsActive(rows[k]) && rows[k].husband == m.husband then
      Some(ActiveMarriageAsHusband)
    else if exists k :: 0 <= k < |rows| && IsActive(rows[k]) && rows[k].wife == m.wife then
      Some(ActiveMarriageAsWife)
    else None
  }

  function StoredMarriage(m: MarriageDraft, id: Id): Marriage {
    Marriage(id, m.husband, m.wife, m.marriedOn, m.endedOn, m.endReason)
  }

  /** Accepting a draft with a fresh id keeps the marriages consistent. */
  lemma AcceptMarriageKeepsConsistent(rows: seq<Marriage>, m: MarriageDraft, id: Id)
    requires MarriagesConsistent(rows)
    requires MarriageRejection(rows, m).None?
    requires forall k :: 0 <= k < |rows| ==> rows[k].id != id
    ensures MarriagesConsistent(rows + [StoredMarriage(m, id)])
  {
    var s := rows + [StoredMarriage(m, id)];
    forall i, j | 0 <= i < j < |s| && IsActive(s[i]) && IsActive(s[j])
      ensures s[i].husband != s[j].husband && s[i].wife != s[j].wife
    {
      if j == |rows| {
        assert s[i] == rows[i];
      }
    }
  }

  lemma EndMarriageKeepsConsistent(rows: seq<Marriage>, k: nat, endedOn: Date)
    requires MarriagesConsistent(rows) && k < |rows|
    ensures MarriagesConsistent(rows[k := rows[k].(endedOn := Some(endedOn))])
  {
    var s := rows[k := rows[k].(endedOn := Some(endedOn))];
    forall i, j | 0 <= i < j < |s| && IsActive(s[i]) && IsActive(s[j])
      ensures s[i].husband != s[j].husband && s[i].wife != s[j].wife
    {
      assert s[i] == rows[i] && s[j] == rows[j];
    }
  }

  /** The marriage table, written through `Insert` and `End`. */
  class MarriageStore {
    var rows: seq<Marriage>
    var nextId: Id

    ghost predicate Valid()
      reads this
    {
      MarriagesConsistent(rows) && forall k :: 0 <= k < |rows| ==> rows[k].id < nextId
    }

    constructor ()
      ensures Valid() && rows == []
    {
      rows := [];
      nextId := 1;
    }

    method Insert(m: MarriageDraft) returns (res: Result<Marriage, WriteError>)
      requires Valid()
      modifies this
      ensures Valid()
      ensures res.Failure? <==> MarriageRejection(old(rows), m).Some?
      ensures res.Failure? ==> res.error == MarriageRejection(old(rows), m).value && rows == old(rows)
      ensures res.Success? ==>
        (forall k :: 0 <= k < |old(rows)| ==> old(rows)[k].id != res.value.id)
        && res.value == StoredMarriage(m, res.value.id)
        && rows == old(rows) + [res.value]
    {
      if m.endedOn.None? {
        var k := 0;
        while k < |rows|
          invariant 0 <= k <= |rows|
          invariant forall j :: 0 <= j < k ==> !(IsActive(rows[j]) && rows[j].husband == m.husband)
        {
          if rows[k].endedOn.None? && rows[k].husband == m.husband {
            return Failure(ActiveMarriageAsHusband);
          }
          k := k + 1;
        }
        k := 0;
        while k < |rows|
          invariant 0 <= k <= |rows|
          invariant forall j :: 0 <= j < k ==> !(IsActive(rows[j]) && rows[j].wife == m.wife)
        {
          if rows[k].endedOn.None? && rows[k].wife == m.wife {
            return Failure(ActiveMarriageAsWife);
          }
          k := k + 1;
        }
      }
      var stored := StoredMarriage(m, nextId);
      AcceptMarriageKeepsConsistent(rows, m, nextId);
      rows := rows + [stored];
      nextId := nextId + 1;
      return Success(stored);
    }

    method End(id: Id, endedOn: Date) returns (res: Result<Marriage, WriteError>)
      requires Valid()
      modifies this
      ensures Valid() && nextId == old(nextId)
      ensures res.Failure? <==> forall k :: 0 <= k < |old(rows)| ==> old(rows)[k].id != id
      ensures res.Failure? ==> res.error == NotFound && rows == old(rows)
      ensures res.Success? ==>
        exists k :: 0 <= k < |old(rows)| && old(rows)[k].id == id
          && res.value == old(rows)[k].(endedOn := Some(endedOn))
          && rows == old(rows)[k := res.value]
    {
      var k := 0;
      while k < |rows|
        invariant 0 <= k <= |rows|
        invariant forall j :: 0 <= j < k ==> rows[j].id != id
      {
        if rows[k].id == id {
          var ended := rows[k].(endedOn := Some(endedOn));
          EndMarriageKeepsConsistent(rows, k, endedOn);
          rows := rows[k := ended];
          return Success(ended);
        }
        k := k + 1;
      }
      return Failure(NotFound);
    }
  }

  // ---------------------------------------------------------------------
  // Queries on a person
  // ---------------------------------------------------------------------

  predicate InMarriage(m: Marriage, p: Id) {
    m.husband == p || m.wife == p
  }

  /** `Person.current_marriage`: among the active marriages the person is in,
      one with the latest wedding date; none when there is no such marriage. */
  function CurrentMarriage(ms: seq<Marriage>, p: Id): (r: Option<Marriage>)
    ensures r.None? <==> forall k :: 0 <= k < |ms| ==> !(IsActive(ms[k]) && InMarriage(ms[k], p))
    ensures r.Some? ==> r.value in ms && IsActive(r.value) && InMarriage(r.value, p)
    ensures r.Some? ==> forall k :: 0 <= k < |ms| && IsActive(ms[k]) && InMarriage(ms[k], p) ==>
      !Before(r.value.marriedOn, ms[k].marriedOn)
  {
    var candidates := Filter(ms, m => IsActive(m) && InMarriage(m, p));
    var r := MaxBy(candidates, (m: Marriage) => DateKey(m.marriedOn));
    assert r.Some? ==> forall k :: 0 <= k < |ms| && IsActive(ms[k]) && InMarriage(ms[k], p) ==>
      !Before(r.value.marriedOn, ms[k].marriedOn) by {
      if r.Some? {
        forall k | 0 <= k < |ms| && IsActive(ms[k]) && InMarriage(ms[k], p)
          ensures !Before(r.value.marriedOn, ms[k].marriedOn)
        {
          var c :| 0 <= c < |candidates| && candidates[c] == ms[k];
          DateKeyOrderAlone(r.value.marriedOn, ms[k].marriedOn);
          if KeyLt(DateKey(r.value.marriedOn), DateKey(ms[k].marriedOn)) {
            KeyLtTransitive(DateKey(ms[k].marriedOn), DateKey(r.value.marriedOn), DateKey(ms[k].marriedOn));
            KeyLtIrreflexive(DateKey(ms[k].marriedOn));
          }
        }
      }
    }
    r
  }

  /** The other side of marriage `m` seen from `p`: the husband when `p` is
      the wife, the wife otherwise. */
  function SpouseIn(m: Marriage, p: Id): Id {
    if m.wife == p then m.husband else m.wife
  }

  /** Marriage `k` is an active marriage of `p` and none of `p`'s active
      marriages has a later wedding date. */
  predicate IsLatestMarriage(ms: seq<Marriage>, p: Id, k: nat) {
    k < |ms| && IsActive(ms[k]) && InMarriage(ms[k], p)
    && forall j :: 0 <= j < |ms| && IsActive(ms[j]) && InMarriage(ms[j], p) ==>
         !Before(ms[k].marriedOn, ms[j].marriedOn)
  }

  /** `Person.current_spouse`: the other side of the current marriage, or
      none. The husband is returned when the person is the wife, the wife
      otherwise; the marriage is one with the latest wedding date. */
  function CurrentSpouse(ms: seq<Marriage>, p: Id): (r: Option<Id>)
    ensures r.None? <==> forall k :: 0 <= k < |ms| ==> !(IsActive(ms[k]) && InMarriage(ms[k], p))
    ensures r.Some? ==> exists k: nat :: IsLatestMarriage(ms, p, k) && r.value == SpouseIn(ms[k], p)
  {
    match CurrentMarriage(ms, p)
    case None => None
    case Some(m) =>
      var k :| 0 <= k < |ms| && ms[k] == m;
      assert IsLatestMarriage(ms, p, k);
      Some(SpouseIn(m, p))
  }

  /** When one active marriage of `p` was entered strictly after all the
      others, the spouse is the other side of that marriage, whichever side
      `p` is on in each. */
  lemma CurrentSpouseLatest(ms: seq<Marriage>, p: Id, k: nat)
    requires k < |ms| && IsActive(ms[k]) && InMarriage(ms[k], p)
    requires forall j :: 0 <= j < |ms| && j != k && IsActive(ms[j]) && InMarriage(ms[j], p) ==>
      Before(ms[j].marriedOn, ms[k].marriedOn)
    ensures CurrentSpouse(ms, p) == Some(SpouseIn(ms[k], p))
  {
    var r := CurrentSpouse(ms, p);
    assert r.Some?;
    var i: nat :| IsLatestMarriage(ms, p, i) && r.value == SpouseIn(ms[i], p);
    assert i < |ms| && IsActive(ms[i]) && InMarriage(ms[i], p);
  }

  /** Husband of 6 since 2000 and wife of 7 since 2010, both active: the
      spouse is 7, from the later marriage. */
  lemma CurrentSpouseBothSides()
    ensures CurrentSpouse([Marriage(1, 5, 6, Date(2000, 1, 1), None, None),
                           Marriage(2, 7, 5, Date(2010, 1, 1), None, None)], 5) == Some(7)
  {
    var ms := [Marriage(1, 5, 6, Date(2000, 1, 1), None, None),
               Marriage(2, 7, 5, Date(2010, 1, 1), None, None)];
    CurrentSpouseLatest(ms, 5, 1);
  }

  /** Under the unique-active-marriage rules, a person who is the active
      husband of a marriage and the active wife of none has that marriage's
      wife as spouse. */
  lemma CurrentSpouseOfHusband(ms: seq<Marriage>, k: nat)
    requires MarriagesConsistent(ms) && k < |ms| && IsActive(ms[k])
    requires forall j :: 0 <= j < |ms| && IsActive(ms[j]) ==> ms[j].wife != ms[k].husband
    ensures CurrentSpouse(ms, ms[k].husband) == Some(ms[k].wife)
  {
    var p := ms[k].husband;
    var m := CurrentMarriage(ms, p).value;
    var j :| 0 <= j < |ms| && ms[j] == m;
    assert m.husband == p;
  }

  /** Symmetrically, a person who is the active wife of a marriage and the
      active husband of none has that marriage's husband as spouse. */
  lemma CurrentSpouseOfWife(ms: seq<Marriage>, k: nat)
    requires MarriagesConsistent(ms) && k < |ms| && IsActive(ms[k])
    requires forall j :: 0 <= j < |ms| && IsActive(ms[j]) ==> ms[j].husband != ms[k].wife
    ensures CurrentSpouse(ms, ms[k].wife) == Some(ms[k].husband)
  {
    var p := ms[k].wife;
    var m := CurrentMarriage(ms, p).value;
    var j :| 0 <= j < |ms| && ms[j] == m;
    assert m.wife == p;
  }

  predicate InRelationship(r: Relationship, p: Id) {
    r.person == p || r.partner == p
  }

  predicate IsCurrentDating(r: Relationship, p: Id) {
    r.relType.code == DatingCode && InRelationship(r, p) && IsCurrent(r)
  }

  /** The order of `.order_by("-started_on", "-created_at")`, read
      backwards: start date (an unset one as the earliest), then creation. */
  function DatingKey(r: Relationship): Key {
    DateKey(r.startedOn.GetOr(MinDate)) + [IntPart(r.createdAt)]
  }

  /** `Person.current_dating_relationship`: a current dating relationship of
      the person, the most recently started (then created) one; none when
      there is none. */
  function CurrentDatingRelationship(rels: seq<Relationship>, p: Id): (r: Option<Relationship>)
    ensures r.None? <==> forall k :: 0 <= k < |rels| ==> !IsCurrentDating(rels[k], p)
    ensures r.Some? ==> r.value in rels && IsCurrentDating(r.value, p)
    ensures r.Some? ==> forall k :: 0 <= k < |rels| && IsCurrentDating(rels[k], p) ==>
      KeyLe(DatingKey(rels[k]), DatingKey(r.value))
  {
    var candidates := Filter(rels, r => IsCurrentDating(r, p));
    var r := MaxBy(candidates, DatingKey);
    assert r.Some? ==> forall k :: 0 <= k < |rels| && IsCurrentDating(rels[k], p) ==>
      KeyLe(DatingKey(rels[k]), DatingKey(r.value)) by {
      if r.Some? {
        forall k | 0 <= k < |rels| && IsCurrentDating(rels[k], p)
          ensures KeyLe(DatingKey(rels[k]), DatingKey(r.value))
        {
          var c :| 0 <= c < |candidates| && candidates[c] == rels[k];
        }
      }
    }
    r
  }

  /** The other side of relationship `r` seen from `p`. */
  function DatingPartnerIn(r: Relationship, p: Id): Id {
    if r.person == p then r.partner else r.person
  }

  /** Relationship `k` is a current dating relationship of `p` and none of
      `p`'s current dating relationships comes later in (started_on,
      created_at). */
  predicate IsLatestDating(rels: seq<Relationship>, p: Id, k: nat) {
    k < |rels| && IsCurrentDating(rels[k], p)
    && forall j :: 0 <= j < |rels| && IsCurrentDating(rels[j], p) ==>
         KeyLe(DatingKey(rels[j]), DatingKey(rels[k]))
  }

  /** `Person.current_dating_partner`: the other side of the current dating
      relationship, the latest one, or none. */
  function CurrentDatingPartner(rels: seq<Relationship>, p: Id): (r: Option<Id>)
    ensures r.None? <==> forall k :: 0 <= k < |rels| ==> !IsCurrentDating(rels[k], p)
    ensures r.Some? ==> exists k: nat :: IsLatestDating(rels, p, k) && r.value == DatingPartnerIn(rels[k], p)
  {
    match CurrentDatingRelationship(rels, p)
    case None => None
    case Some(rel) =>
      var k :| 0 <= k < |rels| && rels[k] == rel;
      assert IsLatestDating(rels, p, k);
      Some(DatingPartnerIn(rel, p))
  }

  /** `r` started strictly before `s`, or on the same day (an unset start
      counting as the earliest) and was created first. */
  predicate StartedBefore(r: Relationship, s: Relationship) {
    var a, b := r.startedOn.GetOr(MinDate), s.startedOn.GetOr(MinDate);
    Before(a, b) || (a == b && r.createdAt < s.createdAt)
  }

  /** When one current dating relationship of `p` started (then was created)
      strictly after all the others, the partner is its other side. */
  lemma CurrentDatingPartnerLatest(rels: seq<Relationship>, p: Id, k: nat)
    requires k < |rels| && IsCurrentDating(rels[k], p)
    requires forall j :: 0 <= j < |rels| && j != k && IsCurrentDating(rels[j], p) ==>
      StartedBefore(rels[j], rels[k])
    ensures CurrentDatingPartner(rels, p) == Some(DatingPartnerIn(rels[k], p))
  {
    var r := CurrentDatingPartner(rels, p);
    assert r.Some?;
    var i: nat :| IsLatestDating(rels, p, i) && r.value == DatingPartnerIn(rels[i], p);
    assert i < |rels| && IsCurrentDating(rels[i], p);
    if i != k {
      assert StartedBefore(rels[i], rels[k]);
      var a, b := rels[i].startedOn.GetOr(MinDate), rels[k].startedOn.GetOr(MinDate);
      DateKeyOrder(a, b, [IntPart(rels[i].createdAt)], [IntPart(rels[k].createdAt)]);
      assert KeyLt(DatingKey(rels[i]), DatingKey(rels[k]));
      KeyLeAntisymmetric(DatingKey(rels[i]), DatingKey(rels[k]));
      KeyLtIrreflexive(DatingKey(rels[k]));
    }
  }

  /** Person 1 dating 2 since 2000 and 3 since 2010, both current: the
      partner is 3. */
  lemma CurrentDatingPartnerTwoCurrent(t: RelationshipType)
    requires t.code == DatingCode
    ensures CurrentDatingPartner([Relationship(1, 1, 2, t, Some(Date(2000, 1, 1)), None, 0),
                                  Relationship(2, 1, 3, t, Some(Date(2010, 1, 1)), None, 0)], 1) == Some(3)
  {
    var rels := [Relationship(1, 1, 2, t, Some(Date(2000, 1, 1)), None, 0),
                 Relationship(2, 1, 3, t, Some(Date(2010, 1, 1)), None, 0)];
    CurrentDatingPartnerLatest(rels, 1, 1);
  }

  /** In consistent rows (no self-relationships) the dating partner is never
      the person. */
  lemma DatingPartnerIsOther(rels: seq<Relationship>, p: Id)
    requires RelationshipsConsistent(rels)
    ensures CurrentDatingPartner(rels, p) != Some(p)
  {
    if CurrentDatingPartner(rels, p).Some? {
      var k: nat :| IsLatestDating(rels, p, k) && CurrentDatingPartner(rels, p).value == DatingPartnerIn(rels[k], p);
      assert rels[k].person < rels[k].partner;
    }
  }

  /** Whether `self` is a member of the family with id `familyId`. */
  predicate MemberOf(ms: seq<FamilyMember>, familyId: Id, self: Id) {
    exists k :: 0 <= k < |ms| && ms[k].family.id == familyId && ms[k].person.id == self
  }

  /** Whether membership `m` makes its person a relative of `self` in the
      sense of `get_family_members`. */
  predicate RelativeVia(ms: seq<FamilyMember>, m: FamilyMember, self: Id, roleCodes: seq<string>) {
    m.person.id != self && (roleCodes == [] || m.role.code in roleCodes)
    && MemberOf(ms, m.family.id, self)
  }

  function RelativesFrom(ms: seq<FamilyMember>, from: nat, self: Id, roleCodes: seq<string>): (r: set<Id>)
    requires from <= |ms|
    ensures forall q :: q in r <==>
      exists k :: from <= k < |ms| && ms[k].person.id == q && RelativeVia(ms, ms[k], self, roleCodes)
    decreases |ms| - from
  {
    if from == |ms| then {}
    else
      var rest := RelativesFrom(ms, from + 1, self, roleCodes);
      if RelativeVia(ms, ms[from], self, roleCodes) then rest + {ms[from].person.id} else rest
  }

  /** `Person.get_family_members(role_codes)`: the other people who hold a
      membership in a family the person belongs to, restricted, when codes are
      given, to such memberships whose role code is among them. */
  function FamilyMembersOf(ms: seq<FamilyMember>, self: Id, roleCodes: seq<string>): (r: set<Id>)
    ensures self !in r
    ensures forall q :: q in r <==>
      exists k :: 0 <= k < |ms| && ms[k].person.id == q && ms[k].person.id != self
        && (roleCodes == [] || ms[k].role.code in roleCodes)
        && exists j :: 0 <= j < |ms| && ms[j].family.id == ms[k].family.id && ms[j].person.id == self
  {
    RelativesFrom(ms, 0, self, roleCodes)
  }

  /** `Person.death_details`: nothing for a living person, otherwise the date
      of death and the cause's name (each possibly unset). */
  function DeathDetails(p: Person): (r: Option<(Option<Date>, Option<string>)>)
    ensures r.None? <==> !p.isDeceased
    ensures r.Some? ==> r.value.0 == p.dateOfDeath && r.value.1 == p.causeOfDeath
  {
    if !p.isDeceased then None else Some((p.dateOfDeath, p.causeOfDeath))
  }
}
