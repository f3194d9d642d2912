# Boats, loads and users: the relationship engine

This project models the core of a REST service for boats, the loads they
carry, and the users who own boats. Records live in a document store with
three kinds:

- a boat `{name, type, length, loads, owner}`;
- a load `{volume, item, creation_date, carrier}`;
- a user `{name, boats}`.

Two links tie the kinds together. A boat's `loads` list has an entry for
each load whose `carrier` names that boat. A user's `boats` list has an
entry for each boat whose `owner` names that user.

The model covers the operations that keep these links consistent:

- linking a load to a boat (`put_reservation`);
- the two unlink helpers, in both copies the repository ships;
- the cascades that run when a boat or a load is deleted;
- whole-record updates and PATCH merges;
- required-attribute validation;
- the boat-name uniqueness check;
- cursor pagination (three loads or five boats to a page);
- the request handlers that put these together.

Layout, one module per file:

| file | module | models |
|---|---|---|
| `records.dfy` | `Records` | records, id lists (missing, null, array), reply kinds, first-occurrence removal |
| `store.dfy` | `Store` | tables (key map plus iteration order), writes, the `Datastore` class with its ghost write log |
| `paging.dfy` | `Paging` | cursor pages over a query |
| `loads.dfy` | `Loads` | the model functions of `loads.js` |
| `users.dfy` | `Users` | the model functions of `users.js` |
| `boats.dfy` | `Boats` | the model functions of `boats.js` |
| `helpers.dfy` | `Helpers` | `helpers.js` |
| `utility_helpers.dfy` | `UtilityHelpers` | `src/API/utility/helpers.js` |
| `load_routes.dfy` | `LoadRoutes` | the POST, PUT, PATCH and DELETE handlers of `loads.js` |
| `boat_routes.dfy` | `BoatRoutes` | the POST, PUT, PATCH, link, unlink and DELETE handlers of `boats.js` |
| `links.dfy` | `Links` | the cross-record invariants, and which requests keep them |

Every operation that writes appears twice:

- a **function** of the store state that gives the sequence of writes and
  the outcome (`Run` for model functions, `Response` for handlers);
- a **method** on `Store.Datastore` that fetches, splices in place and
  commits step by step.

Each method's `ensures` says it committed exactly the writes its function
lists, in that order (`Performed`). The lemmas then say what those writes
leave in the store.

A JavaScript `TypeError` is modelled as `thrown`, keeping the writes made
before it. Examples are reading a property of a missing record, or calling
`findIndex` or `push` on `null`.

Where the handlers read a field of the fetched array instead of its
element, the handler functions model the element, which is the evident
intent. The as-written behaviour is kept where it changes the outcome; see
"## Findings".

Choices that follow the code:

- **The name check counts the boat's own name.** Keeping a boat's name in a
  PUT is refused (`BoatRoutes.PutKeepingNameRefused`).
- **A PATCH without a name never writes.** The name check refuses a missing
  name, so the request is answered with the "name in use" 400
  (`BoatRoutes.PatchNeedsName`).
- **Exclusivity is answered 403, not 409.** This covers linking a load that
  already has a carrier, and a boat owned by someone else.
- **A PUT without `loads` stores the boat with no list.** Loads the boat
  carried still name it as carrier (`Links.PutWithoutLoadsOrphans`).
- **The owner has one representation.** The code compares a boat's
  `owner` with the principal's name (boats.js:289, 414). The helpers use it
  as a user key (helpers.js:36, boats.js:425). The model stores the owner
  as a reference `{id, name}`, like a load's carrier:
  - ownership checks compare its `name` with the principal;
  - unlinks use its `id`.

## Model

| member | source | states |
|---|---|---|
| Records.Given | loads.js:87 | JavaScript truthiness of an optional string: absent, null and empty are falsy |
| Records.GivenNumber | loads.js:87 | JavaScript truthiness of an optional number: absent, null and 0 are falsy |
| Records.FindIndex | helpers.js:15 | the index is -1 exactly when the id is absent; otherwise it holds the id and no earlier index does |
| Records.RemoveFirst | helpers.js:14-20 | reference removal of the first occurrence: an absent id leaves the list as it was; a present one makes the list one shorter with one fewer occurrence of that id; every other id's count is unchanged and nothing new appears |
| Records.SpliceRemovesFirst | helpers.js:15-19 | `findIndex` followed by `splice(index, 1)` when the index is not -1 is exactly the reference removal of the first occurrence |
| Store.FreshId | boats.js:34 | the key the store allocates for a new record is not a key already in use |
| Store.Query | boats.js:52-59 | a whole-kind query returns one entry per stored record, in the kind's order, each tagged with its key and holding that key's record |
| Store.Lookup | loads.js:30-39 | get by key (get_load, and also get_user at users.js:27-36 and get_boat_helper at boats.js:40-49) gives nothing exactly when the key is absent, and otherwise the stored record tagged with its id |
| Store.Datastore.Commit | loads.js:58-74 | one save or delete takes effect on the whole record, keeps every table well-formed, and is appended to the write log |
| Paging.PageAt | loads.js:42-55 | a page holds at most `size` records, namely the records from the cursor on, in order; it has a next cursor exactly when records remain after it, and that cursor is the position after the page |
| Paging.PagesCover | loads.js:42-55 | following the next cursors from a start position yields the rest of the query in order; from 0 that is every record exactly once |
| Paging.PagesShape | loads.js:49-51 | every page but the last is full and has a next cursor; the last has none |
| Paging.SevenByThree | loads.js:43 | seven loads at three to a page come as pages of 3, 3 and 1 records, and the third has no next cursor |
| Loads.PostLoad | loads.js:23-27 | post_load stores `{volume, item, creation_date, carrier}` under a fresh key and returns it; nothing else is written |
| Loads.GetLoads | loads.js:42-55 | get_loads returns at most three loads from the cursor on (from the first when there is no cursor), in store order; `next` is present exactly when loads remain after the page |
| Loads.UpdateLoad | loads.js:58-68 | update_load overwrites the whole record under the key; a null or missing carrier is stored as null |
| Loads.DeleteLoad | loads.js:71-74 | delete_load removes the record under the key, and nothing else |
| Users.InitialBoats | users.js:12 | the stored boats list defaults to null when the argument is not passed, and is otherwise the argument |
| Users.PostUser | users.js:12-16 | post_user stores `{name, boats}` under a fresh key, with boats defaulting to null |
| Users.StoredBoats | users.js:41-48 | an array of boats is stored as given; a null or missing one is stored as null |
| Users.UpdateUser | users.js:39-49 | update_user overwrites the whole record: the name as given, boats as given or null |
| Users.GetUsers | users.js:19-24 | get_users returns every stored user exactly once, each with its own id and record |
| Boats.PostBoat | boats.js:33-37 | post_boat stores `{name, type, length, loads, owner}` under a fresh key and returns it |
| Boats.UpdateBoat | boats.js:78-88 | update_boat overwrites the whole record under the key; a null or missing owner is stored as null |
| Boats.Names | boats.js:97 | the list of names has one entry per queried boat, in query order, each that boat's name |
| Boats.NameAvailable | boats.js:91-104 | the name is accepted exactly when it is present and no stored boat already has it (the renamed boat's own name included) |
| Boats.NameConstraintAsWritten | boats.js:96-97 | as written, a missing name is refused, and every present name makes the check throw |
| Boats.Reserve | boats.js:107-124 | put_reservation first saves the boat with lid appended to its list (a missing list starts as []); it then saves the load with carrier {id: bid, name: boat's name} and volume, item and creation_date unchanged. A missing boat or a null list throws before any write; a missing load throws after the boat write |
| Boats.ReserveLinks | boats.js:107-124 | after a completed reservation the boat's list is its old list followed by lid, the load names the boat as carrier, and no other record changed |
| Boats.PutReservation | boats.js:107-124 | the in-place push and the two saves make exactly the writes `Reserve` lists, in order, and report whether it threw |
| Boats.DeleteBoat | boats.js:127-130 | delete_boat removes the record under the key, and nothing else |
| Boats.Owns | boats.js:289 | the ownership test: the boat names an owner and the owner's name is the principal's |
| Boats.OwnedBy | boats.js:69 | the filter keeps every entry whose boat this user owns and only such entries, and never more entries than the query has |
| Boats.OwnedByFilters | boats.js:69 | the filter is exact: each owned entry occurs as often as in the query, no other entry occurs, and the result is a subsequence of the query (original order kept) |
| Boats.PageEntriesStored | boats.js:63-68 | every entry of the page from the cursor is a record stored under its id |
| Boats.PageEntriesInWindow | boats.js:63-68 | every entry of the page from the cursor comes from one of the five positions from the cursor on |
| Boats.PageEntriesCover | boats.js:63-68 | every record at one of the five positions from the cursor on is on the page |
| Boats.OwnerPage | boats.js:63-69 | the owner filter of that page holds only owned, stored records from the five positions, holds every owned record there, and has at most five items |
| Boats.GetOwnerBoats | boats.js:62-75 | the items are the owner filter applied to the page of five records from the cursor on: each item is owned, stored and sits at one of those five positions, every owned boat at those positions is an item, there are at most five; `next` is present exactly when records remain after the five, and is then the position after them |
| Helpers.UnlinkBoatLoad | helpers.js:9-32 | the boat is saved first, with the first occurrence of lid removed from an array list and a missing list left as it was; then the load is saved with carrier null and its other fields unchanged. A missing boat or a null list throws before any write; a missing load throws after the boat write; no record but that boat and that load is written |
| Helpers.UnlinkBoatLoadEffect | helpers.js:14-30 | after a completed unlink the boat lost only the first lid of its list (a missing list stays missing), keeping its name and owner; the load lost only its carrier; users are untouched |
| Helpers.UnlinkBoatLoadTwice | helpers.js:9-32 | when lid occurs at most once in the list, a second call completes and leaves every record as the first call left it |
| Helpers.SaveWithoutLoad | helpers.js:14-22 | the in-place splice and the save write the boat without the first lid |
| Helpers.DeleteRelationshipBoatLoad | helpers.js:9-32 | the imperative helper makes exactly the writes `UnlinkBoatLoad` lists, in order, and reports whether it threw |
| Helpers.UserSide | helpers.js:37-49 | the user is saved without the first occurrence of bid (a missing list is skipped); a missing user or a null list throws before any write |
| Helpers.UnlinkUserBoat | helpers.js:35-58 | the user side first; then the boat is rewritten with owner null and name, type, length and loads unchanged. A missing boat throws after the user write; no record but that user and that boat is written |
| Helpers.UnlinkUserBoatEffect | helpers.js:40-56 | after a completed unlink the user's list lost its first bid, the boat has no owner and kept its loads, and the loads are untouched |
| Helpers.SaveWithoutBoat | helpers.js:40-48 | the in-place splice and the save write the user without the first bid |
| Helpers.DeleteRelationshipUserBoat | helpers.js:35-58 | the imperative helper makes exactly the writes `UnlinkUserBoat` lists, in order, and reports whether it threw |
| UtilityHelpers.UnlinkBoatLoad | src/API/utility/helpers.js:9-32 | as `Helpers.UnlinkBoatLoad`, except that a null list is, like a missing one, saved back unchanged; only a missing boat throws before any write |
| UtilityHelpers.UnlinkBoatLoadVariants | src/API/utility/helpers.js:14 | the two copies agree on every store except one where the boat's list is null: there the root copy throws with no write, and this copy saves the boat back unchanged |
| UtilityHelpers.UnlinkBoatLoadEffect | src/API/utility/helpers.js:14-30 | after a completed unlink an array list lost its first lid, a missing or null list is unchanged, the load lost only its carrier, and users are untouched |
| UtilityHelpers.DeleteRelationshipBoatLoad | src/API/utility/helpers.js:9-32 | the imperative helper makes exactly the writes `UtilityHelpers.UnlinkBoatLoad` lists, in order |
| UtilityHelpers.TypeOf | src/API/utility/helpers.js:44 | `typeof` of a stored owner, which for the model's owner reference (or null) is "object" |
| UtilityHelpers.UnlinkUserBoat | src/API/utility/helpers.js:35-60 | as written: a missing boat or user throws before any write; the boat is always re-saved, either unchanged or with its owner removed. A user whose list is not an array throws after the boat write. Otherwise the user is saved with its own name and bid's first occurrence removed |
| UtilityHelpers.UnlinkUserBoatKeepsOwner | src/API/utility/helpers.js:44-49 | for any user not named "object", the boat is re-saved exactly as it was |
| UtilityHelpers.UnlinkUserBoatLeavesOwner | src/API/utility/helpers.js:44-58 | a concrete store: user alice lists boat 7, owned by alice; after a completed unlink alice no longer lists it, but the boat still names alice as owner |
| UtilityHelpers.UnlinkUserBoatIntended | src/API/utility/helpers.js:35-60 | the intended helper: the same writes, but the boat is saved with no owner |
| UtilityHelpers.UnlinkUserBoatIntendedEffect | src/API/utility/helpers.js:35-60 | after the intended unlink completes, the boat has no owner and kept everything else, the user kept its name and lists bid once less, and loads are untouched |
| UtilityHelpers.PutUserWithout | src/API/utility/helpers.js:52-58 | the in-place splice followed by put_user saves the user under its own name without the first bid |
| UtilityHelpers.DeleteRelationshipUserBoat | src/API/utility/helpers.js:35-60 | the imperative helper (user fetched first) makes exactly the writes `UtilityHelpers.UnlinkUserBoat` lists, in order |
| LoadRoutes.Complete | loads.js:87 | volume, item and creation_date are all truthy (the POST and PUT test, also at loads.js:178) |
| LoadRoutes.NoneGiven | loads.js:208 | none of volume, item and creation_date is truthy (the PATCH refusal) |
| LoadRoutes.FromBody | loads.js:178-183 | the load a complete body describes, its carrier as given |
| LoadRoutes.Merged | loads.js:212-215 | each of the four attributes present and not null replaces the stored one; the others keep their stored values |
| LoadRoutes.MergeNothing | loads.js:212-215 | a PATCH body that supplies nothing leaves the load as it was |
| LoadRoutes.MergeIdempotent | loads.js:212-215 | merging the same body twice is merging it once |
| LoadRoutes.MergeEverything | loads.js:212-215 | a body that supplies every attribute replaces the whole load, whatever was stored |
| LoadRoutes.OnPost | loads.js:81-103 | 400 with no write unless volume, item and creation_date are all truthy; otherwise the load (carrier null when not supplied) is stored under a fresh key and answered 201 with that key |
| LoadRoutes.PostThenGet | loads.js:81-121 | after a created load, reading the new key gives back the posted load; that key was free before, and no other load changed |
| LoadRoutes.OnPut | loads.js:160-187 | 404 exactly for a missing load, and 400 exactly for an incomplete body, both with no write; otherwise the whole record is overwritten from the body and answered 303 |
| LoadRoutes.PutThenGet | loads.js:178-183 | after an accepted PUT the stored load is exactly the body's, carrier included, and boats and users are untouched |
| LoadRoutes.OnPatch | loads.js:190-224 | 404 exactly for a missing load, and 400 exactly when none of the three attributes is truthy, both with no write; otherwise the merge is written and answered 204 |
| LoadRoutes.OnDelete | loads.js:227-247 | 404 with no write exactly for a missing load; a load without a carrier is deleted; a carried load is first unlinked from boat `carrier.id` and deleted only when that unlink completes |
| LoadRoutes.DeleteRemovesLoad | loads.js:227-247 | after an answered DELETE the loads are the old loads without this one; the boat that carried it lists it once less and no other boat changed; users are untouched |
| LoadRoutes.Post | loads.js:81-103 | the handler makes exactly the writes and the answer of `LoadRoutes.OnPost` |
| LoadRoutes.Put | loads.js:160-187 | the handler makes exactly the writes and the answer of `LoadRoutes.OnPut` |
| LoadRoutes.Patch | loads.js:190-224 | the handler makes exactly the writes and the answer of `LoadRoutes.OnPatch` |
| LoadRoutes.Delete | loads.js:227-247 | the handler makes exactly the writes and the answer of `LoadRoutes.OnDelete` |
| BoatRoutes.Complete | boats.js:144 | name, type and length are all truthy (the POST and PUT test, also at boats.js:301) |
| BoatRoutes.NoneGiven | boats.js:347 | none of name, type and length is truthy (the PATCH refusal) |
| BoatRoutes.Merged | boats.js:352-356 | each of the five attributes present and not null replaces the stored one; the others keep their stored values |
| BoatRoutes.DefaultLoads | boats.js:141 | the POST default for loads keeps an array, even an empty one, and turns anything else into [] |
| BoatRoutes.Guard | boats.js:286-292 | the intended checks on the fetched boat: 404 exactly for a missing boat; 403 for a boat not owned by the principal; through exactly for the owner |
| BoatRoutes.GuardAsWritten | boats.js:286-292 | the checks as written, applied to the fetched array, answer 403 to every request |
| BoatRoutes.GuardLocksOutOwner | boats.js:289 | the owner of a stored boat is let through by the intended checks and refused by the checks as written |
| BoatRoutes.OnPost | boats.js:137-162 | 400 with no write unless name, type and length are all truthy; otherwise the boat is stored under a fresh key, with loads defaulting to [] and owner to null, and answered 201 |
| BoatRoutes.OnPut | boats.js:272-315 | 401, then 404 or 403, then 400 for an incomplete body, then 400 for a name in use, each with no write; a write happens exactly when all the checks pass, and then the whole record is overwritten from the body and answered 303 |
| BoatRoutes.PutKeepingNameRefused | boats.js:305 | a PUT that keeps the boat's own name makes no write |
| BoatRoutes.MergeNothing | boats.js:352-356 | a PATCH body that supplies nothing leaves the boat as it was |
| BoatRoutes.MergeIdempotent | boats.js:352-356 | merging the same body twice is merging it once |
| BoatRoutes.OnPatch | boats.js:318-367 | 401, then 404 or 403, then 400 when none of the three attributes is truthy, then 400 for a name in use, each with no write; a write happens exactly when all the checks pass, and then the merge is written and answered 204 |
| BoatRoutes.PatchNeedsName | boats.js:347-351 | a PATCH without a name never writes, and is answered with one of the refusals |
| BoatRoutes.OnLink | boats.js:370-399 | 401 without a principal; 404 unless both records exist; 403 with no write when the principal does not own the boat, and 403 with no write when the load already has a carrier; the answer is 204 exactly when all the checks pass and the reservation completes, and then the writes are the reservation's; once every check passes, a reservation that throws is answered 500, and a boat with a null list is answered 500 with no write; every answer but 204 comes with no write |
| BoatRoutes.OnUnlink | boats.js:165-188 | 404 with no write exactly unless both records exist and the load's carrier is this boat; otherwise the unlink's writes, answered 204 when it completed and 500 when it threw (the unhandled rejection) |
| BoatRoutes.UnlinkEach | boats.js:419-421 | the load cascade over the boat's list: no list, no writes; every write saves this boat or one of the listed loads, so none deletes a boat or touches a third record |
| BoatRoutes.UnlinkEachStep | boats.js:419-421 | one more listed load extends the cascade by that load's unlink, run on the store the earlier unlinks left |
| BoatRoutes.UnlinkEachEffect | boats.js:419-421 | after a cascade that completed, every listed load exists and has no carrier; every other load is as it was; no record was added or removed; only the boat's list changed among the boats; users are untouched |
| BoatRoutes.UnlinkAll | boats.js:419-426 | the unlinks run before the delete: the load cascade comes first, no write deletes a boat, and a cascade that threw makes the whole step throw; every write after the cascade saves this boat or its owner's user record |
| BoatRoutes.UnlinkAllLoadsEffect | boats.js:419-429 | after the unlinks complete, every load the boat listed has no carrier, every other load is as it was, and no load was added |
| BoatRoutes.UnlinkAllBoatsEffect | boats.js:419-429 | after the unlinks complete, no boat but this one changed and none was added or removed |
| BoatRoutes.UnlinkAllUsersEffect | boats.js:419-429 | after the unlinks complete, the owner (if any) lists the boat once less, and otherwise users are untouched |
| BoatRoutes.OnDelete | boats.js:402-437 | 401, 404 and 403 with no write; otherwise the load cascade is a prefix of the writes, and the answer is 204 exactly when none of the unlinks threw, in which case the writes are the unlinks followed by deleting the boat; once the guard passes, an unlink step that threw, the load cascade or the owner unlink, gives 500 with exactly the unlinks' writes; a 500 answer writes exactly the unlinks, and so deletes no boat |
| BoatRoutes.DeleteCascades | boats.js:419-431 | after an answered boat delete the boat is gone; every load it listed exists and has no carrier; other loads and boats are as they were; nothing was added; its owner lists it once less and no other user changed |
| BoatRoutes.OwnerUnlinkAsWritten | boats.js:424-426 | the owner unlink as called, with the owner record as key and without callbacks, always throws, makes at most the user write, and deletes no boat |
| BoatRoutes.OnDeleteAsWritten | boats.js:402-437 | as written, no request is answered 204 and none deletes a boat |
| BoatRoutes.DeleteAsWrittenKeepsBoat | boats.js:424-430 | a stored boat survives every DELETE as written, which is never answered 204, while the intended handler answers the owner 204 and removes the boat whenever its unlinks complete |
| BoatRoutes.DeleteOwnedExample | boats.js:402-437 | a concrete store (boat 1 owned by alice, who lists it): the intended DELETE by alice is answered 204, removes the boat and leaves alice listing nothing; as written the same request is answered 500 and the boat stays |
| BoatRoutes.DeleteMissingOwnerExample | boats.js:419-435 | when the boat's owner key names no user, the load cascade completes but the owner unlink throws, and the delete is answered 500 with no write |
| BoatRoutes.Post | boats.js:137-162 | the handler makes exactly the writes and the answer of `BoatRoutes.OnPost` |
| BoatRoutes.Put | boats.js:272-315 | the handler makes exactly the writes and the answer of `BoatRoutes.OnPut` |
| BoatRoutes.Patch | boats.js:318-367 | the handler makes exactly the writes and the answer of `BoatRoutes.OnPatch` |
| BoatRoutes.Link | boats.js:370-399 | the handler makes exactly the writes and the answer of `BoatRoutes.OnLink` |
| BoatRoutes.Unlink | boats.js:165-188 | the handler makes exactly the writes and the answer of `BoatRoutes.OnUnlink` |
| BoatRoutes.UnlinkLoads | boats.js:419-421 | the sequential loop over the fetched list makes exactly the writes of `UnlinkEach` and reports whether any unlink threw |
| BoatRoutes.UnlinkOwnerOf | boats.js:424-426 | the owner step makes exactly the writes of `Helpers.UnlinkUserBoat` for the fetched owner, or none for a boat without one |
| BoatRoutes.UnlinkAllOf | boats.js:419-429 | both unlink steps make exactly the writes of `UnlinkAll` |
| BoatRoutes.Delete | boats.js:402-437 | the handler makes exactly the writes and the answer of `BoatRoutes.OnDelete` |
| Links.LinkKeepsConsistent | boats.js:370-399 | an answered link keeps both invariants: a carried load is listed exactly once by its carrier, and every listed load names the listing boat; the same holds for owners and users |
| Links.UnlinkKeepsConsistent | helpers.js:9-32 | a completed unlink of a linked pair keeps both invariants and leaves no back reference: the boat no longer lists the load and the load has no carrier |
| Links.UnlinkRequestKeepsConsistent | boats.js:165-188 | an answered unlink request keeps both invariants |
| Links.DeleteUncarriedKeepsConsistent | loads.js:236-237 | deleting a load that has no carrier keeps both invariants |
| Links.LoadDeleteKeepsConsistent | loads.js:227-247 | an answered load delete keeps both invariants, whether the load was carried or not |
| Links.PostUncarriedKeepsConsistent | loads.js:81-103 | posting a load without a carrier keeps both invariants |
| Links.BoatDeleteKeepsConsistent | boats.js:402-437 | an answered boat delete keeps both invariants |
| Links.PatchWithoutLoadsKeepsLinked | boats.js:352-358 | a PATCH that supplies no loads list keeps the load links |
| Links.PutWithoutLoadsOrphans | boats.js:294-306 | a concrete consistent store in which a PUT without loads is accepted and leaves a load naming a boat that no longer lists it |

## Left out

- **Concurrency.** The boat delete's `Promise.all` over its loads and its
  owner (boats.js:420-429) runs one unlink after the other, in list order,
  with the owner last. Last-write-wins races between concurrent requests
  are not modelled, since the store has no atomicity.
- **Transport.** HTTP mechanics are not modelled: the 415 content-type
  checks, status-code bodies, `Location` headers, `self` URLs and view
  rendering. JWT verification is not modelled either; the principal is an
  input, `None` when there is no usable token.
- **GET handlers.** The model does not include the GET handlers. That
  covers GET /boats, which calls `get_owner_boats` with one argument
  (boats.js:220); GET /boats/:id/loads, whose `.map` builds promises
  (boats.js:201-210); and GET /loads and GET /loads/:id. Their model
  functions are modelled: `Boats.GetOwnerBoats`, `Loads.GetLoads` and
  `Store.Lookup`.
- **Cursors.** A cursor is a position in the kind's fixed iteration order.
  `next` is present when records remain after the page; the store's
  `moreResults` flag is not modelled separately.
- Loads.GetLoads: `next` is a position, not the URL the service builds
  from the request's host; a cursor that is present but empty counts as no
  cursor.
- Boats.GetOwnerBoats: `next` is a position, not a URL; the owner filter
  compares the owner reference's name with the user's name.
- **Null and missing collapse.** A null and a missing carrier or owner are
  both `None`.
  - For a load's carrier this matters in the unlink handler
    (boats.js:175), which tests `=== null`. A missing carrier would throw
    there; the model answers 404.
  - The carrier test in the load DELETE handler (loads.js:236) also
    compares with a fresh `[]` under loose equality. That is false for an
    object or a null carrier, the only carriers the model represents, so
    it changes nothing here. A PUT can store a `""`, `0` or `false`
    carrier (loads.js:175, 182 and update_load at loads.js:65), which is
    loosely equal to `[]`; such carriers are not modelled.
- UtilityHelpers.UnlinkUserBoatKeepsOwner: stated for the model's owner
  reference, whose `typeof` is "object". The boat handlers compare the
  owner with a user name (boats.js:289, 414), and a string owner's `typeof`
  is "string". Either way the owner is kept for every user whose name is
  not the `typeof` of the stored owner.
- UtilityHelpers.TypeOf: gives "object" for every owner, because the model
  cannot tell a missing owner (typeof "undefined") from a null one. The
  written boat is the same either way: deleting an absent property changes
  nothing.
- **Values are abstracted.** Numbers are integers, and JavaScript's loose
  equality in `findIndex(element => element == lid)` is ordinary equality
  on ids. Path ids are taken as already parsed with `parseInt`.
- **Key allocation.** The store assigns keys itself, and the source does not
  say how. The model takes one more than the largest key in use
  (`Store.NextId`, `Store.FreshId`). That rule is a modelling choice: only
  freshness is promised, and only freshness is used.
- **Checks on the array, not its element.** Several handlers read a field
  of the array `get_boat_helper` or `get_load` resolves to, instead of the
  element: loads.js:169 and 199; loads.js:212-215 in the PATCH merge;
  boats.js:286, 332, 382 and 388; boats.js:352-356 in the PATCH merge;
  boats.js:412, where `boat.length === 0` is false for the `[undefined]`
  a missing key resolves to. The
  handler functions model the element. The owner checks are kept as written
  in `BoatRoutes.GuardAsWritten` (see "## Findings").
  - As written, the 404 tests never fire; a PUT to a missing load would
    create it.
  - The PATCH merges would read every omitted field as undefined.
  - The link handler's carrier test (`undefined !== null`) would refuse
    every link.
  - A DELETE of a missing boat is answered 500: it reaches `boat[0].owner`
    at boats.js:414. `BoatRoutes.OnDeleteAsWritten` keeps this;
    `BoatRoutes.OnDelete` answers 404.
- **The unguarded rejection.** Two handlers leave the request unanswered
  when their unlink throws, because the promise has no `catch`: the load
  DELETE (loads.js:240-244) and the boat unlink (boats.js:183-184). The
  model answers both `ServerError` (`LoadRoutes.OnDelete`,
  `BoatRoutes.OnUnlink`).
- **POST, PUT and PATCH bypass the engine.** They write a boat's `loads`
  and `owner`, or a load's `carrier`, straight from the body without
  touching the other side of the link. The model writes exactly that, and
  `Links.PutWithoutLoadsOrphans` shows the consistency it can break. Only
  the link, unlink and delete requests are proved to keep the invariants.
- **Read order in the user-boat unlink.** The fetch of the user before the
  boat (src/API/utility/helpers.js:37-41) is modelled by the method's
  order. Both reads come before any write, so the written store does not
  depend on it.
- **Other files.** home.js (login, logout and find-or-create-user by name)
  is foreign calls and I/O, and is not part of this model. Neither is the
  server, router and datastore setup.

## Findings

| source | as written | input that shows it | evidently intended | confidence | as-written member | corrected member |
|---|---|---|---|---|---|---|
| boats.js:96-97 | `get_all_boats_helper` resolves to `{items}`, and the check calls `.map` on that object, so every present name throws | a PUT or PATCH with name "Sky" on any store | refuse exactly the names some stored boat already has | not executed | Boats.NameConstraintAsWritten | Boats.NameAvailable |
| boats.js:286-289 | the 404 and 403 checks of PUT (and of PATCH at 332-335 and link at 382-384) read `owner` of the fetched array, which has none, so every request is answered 403 | boat 1 owned by alice, principal "alice", PUT /boats/1 | let the owner through and refuse everyone else | not executed | BoatRoutes.GuardAsWritten, BoatRoutes.GuardLocksOutOwner | BoatRoutes.Guard |
| boats.js:424-426 | the owner unlink is called with the owner record as the user key and without the two callbacks, so it always throws and the boat is never deleted | boat 1 owned by alice, principal "alice", DELETE /boats/1 | unlink the owner's user record, then delete the boat | not executed | BoatRoutes.OnDeleteAsWritten, BoatRoutes.DeleteAsWrittenKeepsBoat, BoatRoutes.DeleteOwnedExample | BoatRoutes.OnDelete, BoatRoutes.DeleteCascades |
| src/API/utility/helpers.js:44-47 | the owner test compares `typeof boat[0].owner` with the user's name, so the owner is kept for every user whose name is not the `typeof` of the stored owner ("object" for an owner reference, "string" for a name) | user 1 "alice" listing boat 7, owned by alice; unlink boat 7 from user 1 | remove the boat's owner | not executed | UtilityHelpers.UnlinkUserBoat, UtilityHelpers.UnlinkUserBoatLeavesOwner | UtilityHelpers.UnlinkUserBoatIntended, UtilityHelpers.UnlinkUserBoatIntendedEffect |
