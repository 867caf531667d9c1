# Family tree core, modelled in Dafny

This project models the core of a Django genealogy application. Its people
are grouped into families through memberships that carry a role. People are
linked to each other by marriages and by typed relationships (dating and
others). The model covers four parts:

- **The full-tree walk** (`people/api.py`, `FamilyFullTreeAPIView.get`).
  The walk starts from one family and goes breadth-first across every family
  that any member also belongs to. It emits one payload per visible family
  and records one edge per (person, from family, to family) key. Inactive
  families are skipped unless the `include_inactive` query switch is on. A
  starting family that is not visible gives a 404. The family, membership
  and person-membership querysets are modelled with their orderings.
  (`api.dfy`, module `Api`)
- **Derived queries and write rules of the data model**
  (`people/models.py`). This covers display names, name normalisation on
  save and the two unique columns of the name catalogs, and the canonical
  pair order that `PersonRelationship.save` stores.
  It also covers the check and partial-unique constraints on relationships
  and marriages, the current marriage and spouse, the current dating
  relationship and partner, relatives in shared families, and death
  details. (`models.dfy`, module `Models`)
- **Serializer helpers** (`people/serializers.py`). This covers completed
  years between dates, `_code_label`, `_person_reference`, the partner seen
  from one side, the de-duplicated and sorted relationship list of a
  profile, the member count, and the family payload. (`serializers.dfy`,
  module `Serializers`)
- **Token-response formatting**
  (`sevenawesome_app_services/auth_views.py`). This covers the lifetime
  breakdown into a whole unit, the renaming of `access`/`refresh`, the
  `refresh_token` request alias and the default `token_type`.
  (`auth_views.dfy`, module `AuthViews`)

Shared helpers:
- `wrappers.dfy` holds `Option`, `Result` and the JSON scalar values with
  Python truthiness.
- `text.dfy` holds Python's `strip`, `lower`, `join` and `str(int)`.
- `ordering.dfy` holds filtering, lexicographic sort keys, a stable
  insertion sort and "first with the largest key".
- `dates.dfy` holds calendar dates as (year, month, day).

The database is a value (`Api.Db`). Each queryset is a function of it.
"Today" is a parameter. The walk is an imperative method (`Api.FullTreeGet`)
whose three nested loops are `FullTreeGet`, `ExpandFamily` and
`FollowPerson`; `CrossTo` is one pass of the innermost loop. Each is proved
against the same invariant. The invariant's end state gives two guarantees:
- `Api.Sound`: every family appears once, each family is the serialized
  visible family of its id, and every edge is the recording of a real
  membership pair.
- `Api.Closed`: nothing that should have been followed is missing.
Two lemmas then tie the response to reachability in the membership graph:
every reachable visible family is emitted, and every emitted family is
reachable.

Behaviours of the code worth noting, which the model follows:
- Ending a relationship or a marriage has no date checks in the code (no
  "end date before start date" rejection). The model has none either.
- A profile's relationships are sorted ascending by start date (a missing
  start counts as `date.min`) and then by id. Nothing reverses them.
- The full-tree walk has no ceiling on the number of families.
- `_should_include_inactive` lower-cases the parameter but does not strip
  it, so `" true"` is off.

## Model

| member | source | states |
|---|---|---|
| Api.ShouldIncludeInactive | people/api.py:496-498 | a missing parameter is off; an accepted spelling has length 1, 3 or 4 |
| Api.IncludeInactiveSpelling | people/api.py:496-498 | "TRUE", "Yes" and "1" switch it on; " true", "false" and "" do not |
| Api.IncludeInactiveCaseInsensitive | people/api.py:496-498 | two spellings equal after lower-casing decide the same way |
| Api.VisibleFamily | people/api.py:395-398 | the lookup yields a stored family with that id, active unless inactive ones are included; nothing exactly when no such row exists |
| Api.MembersOf | people/api.py:449-494 | a family's memberships are exactly the stored memberships of that family, ordered by role display order, first name, last name, person id |
| Api.PersonMemberships | people/api.py:429-447 | a person's memberships are exactly the stored ones of that person whose family is active (unless inactive ones are included), ordered by role display order, the four last names, family id |
| Api.FamilyPayloadOf | people/api.py:351 | the emitted payload has the family's id and counts the family's prefetched memberships |
| Api.PayloadFor | people/api.py:380 | a payload exists exactly when the family is visible, and it carries that id |
| Api.FullTreeGet | people/api.py:331-393 | fails (404) exactly when the starting family is not visible; otherwise the response is sound (root first, each family once and equal to its payload, each edge a recorded membership pair, no key twice, each later family entered from an earlier one) and closed (every crossing pair out of an emitted family is an edge, and its target is emitted when visible) |
| Api.ExpandFamily | people/api.py:353-383 | after a family's memberships are processed, every crossing pair out of every visited family is recorded and its target enqueued; the invariant is kept and the measure does not grow |
| Api.FollowPerson | people/api.py:355-383 | after one person's memberships are walked, every crossing membership of that person has its key recorded and its family enqueued |
| Api.CrossTo | people/api.py:356-383 | one pass skips inactive (unless included) and same-family memberships, records a new key as an edge, and enqueues a new family id and queues it when still visible |
| Api.StartWalk | people/api.py:338-343 | the initial state (root queued and enqueued, nothing visited) satisfies the walk invariant |
| Api.PopStep | people/api.py:346-349 | the head of the queue is visible, enqueued, and the root or entered from a visited family |
| Api.VisitStep | people/api.py:349-351 | emitting the payload of a newly visited family keeps the invariant |
| Api.AppendConnection | people/api.py:362-375 | recording a new edge out of a visited family keeps the invariant |
| Api.EnqueueStep | people/api.py:377-383 | enqueuing a new id lowers the measure by one and keeps the invariant, whether or not the family is still visible |
| Api.FinishedWalkClosed | people/api.py:345-393 | when the queue is empty the state gives a sound and closed response |
| Api.ReachableFamiliesIncluded | people/api.py:345-383 | every family at the end of a path of visible families from the root, each hop a shared member, is in the response |
| Api.EmittedFamiliesReachable | people/api.py:345-383 | every family in the response is at the end of such a path |
| Api.ConnectionMeaning | people/api.py:362-375 | an edge's person belongs to the source family and holds, in a different and active (unless included) target family, the reported role code, role name and primary flag |
| Models.PersonFullName | people/models.py:448-451 | the name has no surrounding whitespace |
| Models.PersonFullNameCases | people/models.py:448-451 | for names without surrounding whitespace: "first last", or the one that is set, or "" |
| Models.FullLastName | people/models.py:1039-1047 | empty exactly when no last-name part is set |
| Models.FullLastNameAllParts | people/models.py:1039-1047 | four set parts appear in order with single spaces |
| Models.FullLastNameSkipsUnset | people/models.py:1039-1047 | unset parts leave no gap |
| Models.FamilyLabel | people/models.py:1053-1054 | the full last name, else "Family #" followed by the decimal id |
| Models.Normalize | people/models.py:283-286 | the stored form has no surrounding whitespace and no upper-case letter |
| Models.NormalizeIdempotent | people/models.py:283-286 | normalising a normalised value changes nothing |
| Models.NameEntry.Save | people/models.py:283-286 | saving stores the normalised value |
| Models.CatalogAcceptKeepsConsistent | people/models.py:271-286 | adding an entry that collides on neither unique column keeps ids, values and normalised values unique and each normalised value derived from its value |
| Models.CaseVariantCollides | people/models.py:271-286 | a value that differs from a stored one only in case or surrounding whitespace collides with it |
| Models.NameCatalog.Save | people/models.py:271-286 | a new entry that collides with a stored value or normalised value is refused with no change; otherwise it is appended with its normalised value and a fresh id, and the catalog stays consistent |
| Models.Canonical | people/models.py:953-956 | with both sides set, the stored pair is ordered by id; the same two sides are kept; nothing else changes |
| Models.CanonicalIdempotent | people/models.py:953-956 | saving twice stores the same pair as saving once |
| Models.CanonicalSymmetric | people/models.py:953-956 | entering the pair in either order stores the same row |
| Models.UnorderedPairUnique | people/models.py:939-951 | two current rows of one type joining the same two people are the same row |
| Models.RejectionIgnoresPairOrder | people/models.py:939-956 | whether a write is refused does not depend on the order the pair was entered in |
| Models.SelfRelationshipRefused | people/models.py:942-945 | a relationship of a person with themself is always refused |
| Models.AcceptKeepsConsistent | people/models.py:939-956 | storing an accepted draft keeps the table's constraints |
| Models.EndKeepsConsistent | people/models.py:946-950 | setting an end date keeps the table's constraints |
| Models.RelationshipRejection | people/models.py:939-956 | a missing side, then a self-relationship, then a current draft that meets a current row of the same type for the same canonical pair is refused, each exactly when its condition holds |
| Models.RelationshipStore.Save | people/models.py:953-956 | refuses exactly the drafts the constraints refuse, with that error and no change; otherwise appends the canonical row with a fresh id |
| Models.RelationshipStore.End | people/models.py:946-950 | ends the row with that id, or reports it missing and changes nothing |
| Models.AcceptMarriageKeepsConsistent | people/models.py:894-907 | inserting an accepted marriage keeps "one active marriage per husband and per wife" |
| Models.EndMarriageKeepsConsistent | people/models.py:894-907 | ending a marriage keeps the constraints |
| Models.MarriageRejection | people/models.py:894-907 | an ended marriage always passes; an active one is refused when its husband is already an active husband, else when its wife is already an active wife |
| Models.MarriageStore.Insert | people/models.py:894-907 | refuses an active marriage whose husband, or else whose wife, is already actively married; otherwise appends it with a fresh id |
| Models.MarriageStore.End | people/models.py:894-907 | ends the marriage with that id, or reports it missing and changes nothing |
| Models.CurrentMarriage | people/models.py:508-514 | an active marriage of the person with no later wedding date; none exactly when there is no active marriage |
| Models.CurrentSpouse | people/models.py:508-520 | the other side (the husband when the person is the wife, the wife otherwise) of an active marriage of the person with no later wedding date among the person's active marriages; none exactly when there is no active marriage |
| Models.CurrentSpouseLatest | people/models.py:508-520 | when one active marriage was entered strictly after the person's other active marriages, the spouse is its other side, whichever side the person is on in each |
| Models.CurrentSpouseBothSides | people/models.py:508-520 | a husband of 6 since 2000 who is also wife of 7 since 2010 has spouse 7 |
| Models.CurrentSpouseOfHusband | people/models.py:516-520 | under the constraints, an active husband's spouse is that marriage's wife |
| Models.CurrentSpouseOfWife | people/models.py:516-520 | under the constraints, an active wife's spouse is that marriage's husband |
| Models.CurrentDatingRelationship | people/models.py:529-537 | a current dating relationship of the person with the latest start (then creation); none exactly when there is none |
| Models.CurrentDatingPartner | people/models.py:529-546 | the other side of a current dating relationship of the person with no later (start, creation) among them; none exactly when there is none |
| Models.CurrentDatingPartnerLatest | people/models.py:529-546 | when one current dating relationship started (then was created) strictly after the others, the partner is its other side |
| Models.CurrentDatingPartnerTwoCurrent | people/models.py:529-546 | a person dating 2 since 2000 and 3 since 2010 has partner 3 |
| Models.DatingPartnerIsOther | people/models.py:539-546 | in consistent rows the dating partner is never the person |
| Models.FamilyMembersOf | people/models.py:453-469 | exactly the other people holding a membership (with a listed role code, when codes are given) in a family the person belongs to; never the person |
| Models.DeathDetails | people/models.py:626-631 | nothing exactly for a living person; otherwise the date and cause of death |
| Serializers.YearsBetween | people/serializers.py:12-22 | nothing exactly without a start; 0 when the comparison date precedes the start; otherwise the number of whole years completed |
| Serializers.YearsBetweenExamples | people/serializers.py:12-22 | a day before the anniversary gives 33, on it 34, a comparison before the start 0 |
| Serializers.AgeYears | people/serializers.py:285-286 | nothing exactly without a birth date; 0 for a birth date after today; otherwise the number of whole years completed by today |
| Serializers.RelationshipYears | people/serializers.py:137-138 | nothing exactly without a start; an ended relationship counts up to its end |
| Serializers.OngoingRelationshipRunsToToday | people/serializers.py:137-138 | a current relationship counts up to today |
| Serializers.PartnerOf | people/serializers.py:132-135 | the other side of the relationship, seen from either side |
| Serializers.CodeLabel | people/serializers.py:33-45 | id, code when present, and a label from label, else name, else the string form |
| Serializers.PersonReference | people/serializers.py:93-101 | a reference exists exactly for a known person and carries the id, full name, gender label and age up to today |
| Serializers.DedupFrom | people/serializers.py:266-271 | no id twice, no id already seen, only input relationships |
| Serializers.DedupKeepsFirst | people/serializers.py:266-271 | the first occurrence of each id is kept |
| Serializers.DedupCovers | people/serializers.py:266-271 | every input id appears in the output |
| Serializers.DedupStep | people/serializers.py:266-271 | one pass of the loop keeps "what is kept, then the de-duplication of the rest, is the de-duplication of the whole" |
| Serializers.GetRelationships | people/serializers.py:264-283 | the loop computes the de-duplicated, sorted list |
| Serializers.ProfileRelationshipsContent | people/serializers.py:264-293 | no id twice, only relationships stored with the person on either side, and every such id listed |
| Serializers.ProfileRelationshipsOrder | people/serializers.py:272-278 | ascending by start date (missing as the earliest), then by id |
| Serializers.RelationshipKeyOrder | people/serializers.py:272-278 | the sort key orders by start date, then id |
| Serializers.MissingStartSortsFirst | people/serializers.py:275 | a missing start sorts no later than any real date |
| Serializers.ProjectRelationship | people/serializers.py:104-138 | the payload keeps the id, type, start and end dates and current flag, carries the relationship's years (up to today while it is ongoing) and shows the reference of the other side as partner |
| Serializers.ProjectPerson | people/serializers.py:264-286 | the payload keeps the person's id, and its k-th relationship entry is the relationship payload of the k-th listed relationship |
| Serializers.ProjectPersonIdentity | people/serializers.py:141-287 | the profile keeps the person's names, full name, gender label, birth date, deceased flag and death date, and gives the age up to today |
| Serializers.ProfileCoversRelationships | people/serializers.py:264-286 | the entries have distinct ids, every stored relationship the person is on either side of has an entry, and every entry comes from such a relationship and shows its other side |
| Serializers.MemberCount | people/serializers.py:340-344 | the prefetched list's length when there is one, else the stored count |
| Serializers.MemberCountAgrees | people/serializers.py:340-344 | both ways of counting agree when the prefetched list holds the family's memberships |
| Serializers.ProjectMember | people/serializers.py:295-316 | the member payload keeps the membership's id, role, primary flag and dates and holds the person's profile |
| Serializers.ProjectFamily | people/serializers.py:320-344 | the payload keeps id and active flag, shows the full last name as name, and has one member payload per membership, as counted, the k-th being the member payload of the k-th membership |
| AuthViews.FirstFit | sevenawesome_app_services/auth_views.py:21-25 | the first unit that divides the total exactly and is not larger than it; none exactly when no unit fits |
| AuthViews.DurationBreakdown | sevenawesome_app_services/auth_views.py:13-26 | the total comes back unchanged; a positive total is written in the first unit, in the order day, hour, minute, second, that divides it exactly, with amount times unit equal to the total; below one second the fallback "<n> seconds" |
| AuthViews.PluralSuffix | sevenawesome_app_services/auth_views.py:24 | the label ends in "s" exactly when the amount is not one |
| AuthViews.FallbackOnlyBelowOne | sevenawesome_app_services/auth_views.py:21-26 | no unit fits exactly when the total is below one |
| AuthViews.DurationBreakdownWholeUnits | sevenawesome_app_services/auth_views.py:13-26 | 86400 is "1 day", 604800 "7 days" |
| AuthViews.DurationBreakdownMinutes | sevenawesome_app_services/auth_views.py:13-26 | 300 is "5 minutes", 5400 "90 minutes" |
| AuthViews.DurationBreakdownSeconds | sevenawesome_app_services/auth_views.py:13-26 | 90 is "90 seconds", 1 "1 second" |
| AuthViews.DurationBreakdownFallback | sevenawesome_app_services/auth_views.py:26 | 0 is "0 seconds", -5 "-5 seconds" |
| AuthViews.FormatResponse | sevenawesome_app_services/auth_views.py:33-54 | the filled dictionary is the token entries overridden by every other input entry |
| AuthViews.FormattedMeaning | sevenawesome_app_services/auth_views.py:33-54 | the raw keys are gone, every other entry is copied unchanged, and no other key appears |
| AuthViews.FormattedTokens | sevenawesome_app_services/auth_views.py:35-48 | a present token is renamed and gets its lifetime in seconds, unless an input entry of that name overrides it |
| AuthViews.FormattedDisplay | sevenawesome_app_services/auth_views.py:37-41 | the access display entry is the access lifetime's label |
| AuthViews.FormattedRefreshDisplay | sevenawesome_app_services/auth_views.py:43-48 | the refresh display entry is the refresh lifetime's label |
| AuthViews.WithTokenType | sevenawesome_app_services/auth_views.py:60 | a token type is always present, kept if given, else "Bearer"; nothing else changes |
| AuthViews.AliasApplied | sevenawesome_app_services/auth_views.py:72-74 | the alias is always removed and fills `refresh` only when it is truthy and `refresh` is missing or falsy; other entries unchanged |
| AuthViews.ApplyRefreshAlias | sevenawesome_app_services/auth_views.py:72-74 | the pop-then-assign steps compute the alias rule |
| AuthViews.AliasKeepsRefresh | sevenawesome_app_services/auth_views.py:72-74 | a truthy `refresh` is never replaced, and applying the rule twice changes nothing more |
| AuthViews.ObtainPairValidate | sevenawesome_app_services/auth_views.py:58-61 | the response has a token type and no raw token keys |
| AuthViews.RefreshValidate | sevenawesome_app_services/auth_views.py:71-77 | alias, then the token library's validation, then the default type, then formatting; the response has a token type and no raw token keys |
| AuthViews.TokenTypeReported | sevenawesome_app_services/auth_views.py:60 | the response names the given token type, else "Bearer" |

## Left out

- HTTP, DRF, JWT authentication and permissions, the `Http404` exception and
  the `Response` object: the walk returns a `Result` value instead.
- SimpleJWT's own `validate` is a parameter. The configured token lifetimes
  are parameters in whole seconds. `timedelta.total_seconds()` is a float
  and is taken as already truncated.
- `timezone.now()` is the parameter `today`.
- `PeopleTablesDataAPIView` and the `FamilyTreeAPIView` list endpoint are
  not part of this model. The same goes for the other serializer fields
  (locations, education, occupation and the like), the admin, the URL
  configuration and the `the_churches` app.
- `select_related`/`prefetch_related` only shape queries. The model reads
  the joined rows directly: a membership carries its family, person and
  role rows.
- Database atomicity, concurrency, referential integrity and cascades are
  not modelled.
- Models.NameCatalog: only saving a new entry is modelled. Re-saving or
  renaming a stored entry, which the unique columns check against the
  other rows, is not. The three catalogs (`PersonName`, `LastName`,
  `Nickname`) share this one model; their column lengths are not modelled.
- Api.Connection: it carries the person row in place of the `person_id` and
  `person_full_name` entries, which are its id and `Models.PersonFullName`
  of it.
- Ordering of SQL NULLs and collation: a missing name sorts as "" and a
  missing start date as the earliest date. Strings compare by code point.
- Python's `str.lower()` is modelled for ASCII letters only.
- The order of keys in a response dictionary is not modelled: a dictionary
  is a `map`.
- Ties in a database `order_by` keep the stored order (the sort is stable).
  The database itself gives no order for ties.
- Api.ShouldIncludeInactive: its contract states only necessary conditions.
  The exact decision is stated through the example and case lemmas beside
  it.
- `Person.is_alive` is not a separate member: it is the negation of the
  stored flag, which `Models.DeathDetails` already exposes.
- Marriage and relationship `__str__` and `has_boyfriend_or_girlfriend` are
  not modelled. The same goes for the other `Person` queries (parents,
  siblings, children, attributes, photos, health, degrees).
