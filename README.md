# Event catalog of the data-science society website

This project models the event catalog of the society's website
(`lib/events-data.ts`). The catalog is a fixed list of four `Event` records in
declaration order. Four queries read it. `getAllEvents` returns the list.
`getEventById` is an `Array.find` on the id. `getUpcomingEvents` is an
`Array.filter` that keeps events whose status is not `"completed"`.
`getPastEvents` is an `Array.filter` that keeps events whose status is
`"completed"`.

The project has three modules:

- `Wrappers` (`wrappers.dfy`): `Option`, standing for TypeScript's `Event | undefined`.
- `Sequences` (`sequences.dfy`): `Find` and `Filter` give JavaScript's
  `Array.prototype.find` and `Array.prototype.filter` on sequences. Lemmas say
  that `Find` returns the first match, that `Filter` keeps the order of what it
  keeps (a subsequence, witnessed by increasing indices), that it keeps each
  matching element as often as it occurs, and that filtering by a predicate
  and by its negation splits a sequence.
- `EventsData` (`events_data.dfy`): the `Event` record with its status and
  category unions, the catalog `Events` copied field for field from the
  source, the four queries, and lemmas about them. These cover the partition
  into upcoming and past, the uniqueness of the catalog's ids,
  `GetEventById(e.id) == Some(e)`, and the concrete results for
  `hackml-2026`, `hackml-2025` and an unknown id.

The status is compared through its string label (`StatusLabel`), the same way
the source compares `event.status` with the literal `"completed"`.
`StatusLabelInjective` shows that comparing labels is the same as comparing
statuses.

`lib/events-data.ts` has one catalog constant, `events` at lines 41-154, and
the model has that one catalog. `getEventById` returns the first match in
declaration order, and so does the model. `CatalogIdsUnique` proves that this
match is also the only one.

## Model

| member | source | states |
|---|---|---|
| `Sequences.Find` | lib/events-data.ts:162 | `Array.find` yields absent exactly when no element satisfies the predicate; otherwise it yields an element of the array that satisfies it |
| `Sequences.FindReturnsFirstMatch` | lib/events-data.ts:162 | if index `i` is the first match, `Find` returns the element at `i` |
| `Sequences.FindHasFirstMatch` | lib/events-data.ts:162 | every successful `Find` comes from a first matching index: nothing before it matches |
| `Sequences.Filter` | lib/events-data.ts:166-170 | `Array.filter` keeps only elements of the array that satisfy the predicate, keeps every such element, and never grows the array |
| `Sequences.FilterIsSubsequence` | lib/events-data.ts:166-170 | the filtered array is a subsequence of the input: its elements sit at strictly increasing positions of the input |
| `Sequences.FilterMultiplicity` | lib/events-data.ts:166-170 | each element occurs in the filtered array as often as in the input if it satisfies the predicate, and not at all otherwise |
| `Sequences.FilterPartition` | lib/events-data.ts:165-171 | filtering by a predicate and by its negation gives disjoint results whose lengths add up to the input's and whose multisets add up to the input's |
| `EventsData.StatusLabelInjective` | lib/events-data.ts:14 | the three status strings are pairwise different, so two statuses have the same string exactly when they are equal |
| `EventsData.StatusPredicates` | lib/events-data.ts:14 | "status is not `completed`" holds exactly for `registration-open` and `registration-closed`; "status is `completed`" holds exactly for `Completed` |
| `EventsData.GetAllEvents` | lib/events-data.ts:157-159 | the result is the catalog itself: the same events in the same order |
| `EventsData.GetEventById` | lib/events-data.ts:161-163 | absent exactly when no catalog event has the id, and never fails; otherwise a catalog event carrying that id |
| `EventsData.GetEventByIdReturnsFirst` | lib/events-data.ts:161-163 | the lookup returns the first catalog event, in declaration order, whose id matches |
| `EventsData.GetUpcomingEvents` | lib/events-data.ts:165-167 | every result is a catalog event that is not completed; every catalog event that is not completed is in the result; the result is a subsequence of the catalog |
| `EventsData.GetPastEvents` | lib/events-data.ts:169-171 | every result is a completed catalog event; every completed catalog event is in the result; the result is a subsequence of the catalog |
| `EventsData.UpcomingFilter` | lib/events-data.ts:166 | on any list of events, the upcoming filter keeps exactly the events that are not completed, each as often as it occurs, in order |
| `EventsData.PastFilter` | lib/events-data.ts:170 | on any list of events, the past filter keeps exactly the completed events, each as often as it occurs, in order |
| `EventsData.RegistrationClosedIsUpcoming` | lib/events-data.ts:165-167 | a catalog event whose registration is closed is upcoming and not past, because only `completed` is excluded |
| `EventsData.StatusFiltersPartition` | lib/events-data.ts:165-171 | on any list of events, the upcoming and past filters split it: each event is in exactly one result, and the sizes and multisets add up to the list's |
| `EventsData.UpcomingAndPastPartitionCatalog` | lib/events-data.ts:157-171 | `getUpcomingEvents` and `getPastEvents` split `getAllEvents`: sizes add up, multisets add up, and each catalog event is in exactly one of them |
| `EventsData.FindByUniqueId` | lib/events-data.ts:161-163 | in any list whose ids are distinct, looking up an event's own id finds that event |
| `EventsData.CatalogIdsUnique` | lib/events-data.ts:41-154 | the catalog's four ids are pairwise distinct |
| `EventsData.GetEventByIdFindsCatalogEvent` | lib/events-data.ts:161-163 | lookup and membership agree: `getEventById(id)` is `e` exactly when `e` is a catalog event with that id, and every catalog event is found by its own id |
| `EventsData.HackML2026IsUpcoming` | lib/events-data.ts:41-94 | `hackml-2026` is found, is open for registration, is upcoming and is not past |
| `EventsData.HackML2025IsPast` | lib/events-data.ts:95-133 | `hackml-2025` is found, is completed, is past and is not upcoming |
| `EventsData.UnknownIdIsAbsent` | lib/events-data.ts:161-163 | the id `nonexistent` yields absent |
| `EventsData.CatalogQueryResults` | lib/events-data.ts:41-171 | the upcoming query returns the first, third and fourth entries in that order; the past query returns the second entry alone |
| `EventsData.CatalogFollowsFieldConvention` | lib/events-data.ts:41-154 | in this catalog, highlights and winners appear only on completed events, and a registration link, details, schedule and FAQ only on events that are not completed |

## Left out

- `app/resources/page.tsx`: static page markup over hardcoded course and link tables, with no logic beyond plural labels.
- `app/events/[eventId]/page.tsx`: the event page is left out. It renders an event and shows a not-found page when the lookup is absent, which `GetEventById`'s absent case covers. It decides whether an event is upcoming with the same test as `IsUpcoming` (`status !== "completed"`). It builds its static routes from the ids of `getAllEvents()`. Its remaining branches only choose what to display, for example whether an optional field is present.
- `app/events/[eventId]/register/page.tsx`: the registration form is left out. This includes the toggling of the "how did you hear about us" options and the single insert into a hosted backend table, which is a network write to a foreign service.
- Dates, times, capacities and schedule times are free text kept as `string`. Neither the model nor the source parses or orders them.
- Ids are compared as Dafny strings, which are sequences of Unicode scalar values, while JavaScript compares UTF-16 code units. No catalog behaviour depends on the difference, but an id holding a lone surrogate cannot be represented in the model.
- Object identity and aliasing: `getAllEvents` hands out the module's own array, and `find` returns the stored object. Dafny values have no identity, so the model cannot say that a caller mutating the result would change the catalog. In the source nothing mutates it.
- The rule that highlights and winners belong to completed events is only a convention in the source, not a type invariant. It is stated only as an observation about this catalog (`CatalogFollowsFieldConvention`).
- Repeated reads give equal results. This holds by construction, because Dafny functions are deterministic, so no lemma states it.
