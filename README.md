# AirBnB clone v4 REST views, modelled in Dafny

This project models the REST handlers of the AirBnB clone's API (`api/v1/views/`).
They run over an object store that holds six kinds of entity: State, City, Place,
User, Amenity and Review. A place also carries a list of linked amenities.

Each handler reads the store, checks its inputs in a fixed order, and then either
aborts (400 with a reason, or 404) or answers 200/201, possibly after one write to
the store. The model follows that shape:

- `ObjectStore.Storage` is a class with one table per entity kind. Each table maps
  an object's id to its record (its attributes by name). The class also holds
  `links`, which maps each place id to the ordered ids of its amenities.
  `Valid()` is the object invariant:
  - every object is filed under its own `id` attribute;
  - exactly the stored places have a link list;
  - no link list holds an amenity twice.
- Every handler of every view file is a member of the module named after that
  file (`States`, `Cities`, `Amenities`, `Users`, `Places`, `PlacesReviews`,
  `PlacesAmenities`). GET handlers are functions that read the store. POST, PUT
  and DELETE handlers are methods that modify only the tables they write, named
  with field frames (`modifies st`places, st`links`). Every mutating method keeps
  `Valid()`, and states its response and the new contents of every table it may
  write.
- `Guard` holds the update rule shared by every PUT: the `setattr` loop, as the
  method `ApplyPayload`, proved against the function `Guarded`.
- `Search` states `POST /places_search` declaratively, as sets over the store.
  `Places.PlacesSearch` keeps the source's loops: it collects places state by
  state and city by city, then filters them by amenity. It is proved to answer
  exactly `Search.Result`. Lemmas about `Search.Result` give:
  - the union law: a search by one state equals the union of the searches by
    each of its cities;
  - asking for more amenities never adds a place;
  - a search naming only unknown states and cities finds nothing;
  - with no criteria at all, every place is found.

`PUT /users/<id>` (api/v1/views/users.py:52-55) has no `is_json` test, unlike
the other PUT handlers: it rejects only an absent or empty body, and
`Users.PutUser` models exactly that.

## Model

| member | source | states |
|---|---|---|
| `Model.NewRecord` | api/v1/views/amenities.py:27-28 | A created object has every payload attribute, the fresh id, and both timestamps set to the save time, whatever the payload said for them |
| `Model.Children` | api/v1/views/cities.py:26 | A parent's children (`state.cities`, `city.places`, `place.reviews`) are exactly the stored records whose foreign key names the parent |
| `Model.Truthy` | api/v1/views/places.py:122 | A value is falsy exactly when it is `None`, `False`, `0`, `""`, `[]` or `{}`, as Python's `not` reads it |
| `Model.HasData` | api/v1/views/states.py:25 | `if not data` passes exactly when a body was parsed and it is a non-empty object |
| `Model.JsonObject` | api/v1/views/states.py:22-26 | Both guards of a POST or PUT pass exactly when the request is JSON and its body is a non-empty object |
| `Model.Resolves` | api/v1/views/places.py:40 | `storage.get(User, user_id)` finds an object exactly when the value is a string naming a stored id |
| `ObjectStore.Storage.Valid` | api/v1/views/places_amenities.py:45-57 | In a valid store every stored place has an amenity list, and that list holds no amenity twice |
| `Guard.Guarded` | api/v1/views/states.py:57-59 | After the `setattr` loop, protected attributes keep their presence and value, each unprotected payload key has the payload's value, and attributes the payload does not name are unchanged |
| `Guard.Updated` | api/v1/views/states.py:57-60 | The record a PUT stores: the guarded attributes, with `updated_at` refreshed by `save()` and never taken from the payload |
| `Guard.ApplyPayload` | api/v1/views/places.py:74-77 | The loop over the payload items computes exactly `Guarded` |
| `States.ListStates` | api/v1/views/states.py:17-20 | GET answers exactly the set of stored states |
| `States.PostState` | api/v1/views/states.py:21-33 | A non-JSON or empty body gives 400 "Not a JSON", and then a body without `name` gives 400 "Missing name", with the store unchanged. Otherwise 201 and exactly one new state is stored |
| `States.GetState` | api/v1/views/states.py:46-50 | 404 exactly when the id is unknown; otherwise the stored state |
| `States.PutState` | api/v1/views/states.py:46-61 | Unknown id gives 404, then a bad body gives 400, with the store unchanged. Otherwise the state is updated by `Guard.Updated` with `id` and the timestamps protected |
| `States.DeleteState` | api/v1/views/states.py:46-65 | Unknown id gives 404. Otherwise 200 with an empty object and exactly that state removed; no other table is touched |
| `Amenities.ListAmenities` | api/v1/views/amenities.py:15-18 | GET answers exactly the set of stored amenities |
| `Amenities.PostAmenity` | api/v1/views/amenities.py:19-31 | An empty or non-JSON body gives 400, and then a missing `name` gives 400, with the store unchanged. Otherwise 201 and exactly one new amenity is stored |
| `Amenities.GetAmenity` | api/v1/views/amenities.py:44-48 | 404 exactly when the id is unknown; otherwise the stored amenity |
| `Amenities.PutAmenity` | api/v1/views/amenities.py:44-59 | Unknown id gives 404, then a bad body gives 400. An update protects only `id`, `created_at` and `updated_at` |
| `Amenities.DeleteAmenity` | api/v1/views/amenities.py:44-63 | Unknown id gives 404. Otherwise 200 with an empty object and exactly that amenity removed |
| `Users.ListUsers` | api/v1/views/users.py:16-19 | GET answers exactly the set of stored users |
| `Users.PostUser` | api/v1/views/users.py:20-34 | `email` is checked before `password`, so a body missing both gives 400 "Missing email". Success gives 201 and exactly one new user |
| `Users.GetUser` | api/v1/views/users.py:47-51 | 404 exactly when the id is unknown; otherwise the stored user |
| `Users.PutUser` | api/v1/views/users.py:47-60 | There is no `is_json` test, only the empty-body test. Only `id` and the timestamps are protected, so `email` and `password` can be updated |
| `Users.DeleteUser` | api/v1/views/users.py:47-64 | Unknown id gives 404. Otherwise exactly that user is removed |
| `Model.NewChild` | api/v1/views/cities.py:37-39 | A created child object has the path's parent in its foreign key (`state_id` of a city, `city_id` of a place, `place_id` of a review), even when the payload names another; every other payload key but `id` and the timestamps is kept |
| `Cities.ListCitiesOfState` | api/v1/views/cities.py:21-27 | Unknown state gives 404; otherwise exactly the cities whose `state_id` is that state |
| `Cities.PostCity` | api/v1/views/cities.py:21-40 | Unknown state gives 404, then a bad body gives 400, then a missing `name` gives 400, each with no change. Otherwise 201 and the city from `NewChild` is stored |
| `Cities.GetCity` | api/v1/views/cities.py:53-58 | 404 exactly when the id is unknown; otherwise the stored city |
| `Cities.PutCity` | api/v1/views/cities.py:53-70 | Unknown id gives 404, then a bad body gives 400. `id`, `state_id` and the timestamps never change from the payload; every other key is applied |
| `Cities.DeleteCity` | api/v1/views/cities.py:53-75 | Unknown id gives 404. Otherwise only that city entry is removed, and its places stay |
| `Places.ListPlacesOfCity` | api/v1/views/places.py:23-29 | Unknown city gives 404; otherwise exactly the places whose `city_id` is that city |
| `Places.PostPlace` | api/v1/views/places.py:23-48 | The checks run in this order: unknown city gives 404; non-JSON or empty body gives 400; missing `user_id` gives 400; unknown user gives 404; missing `name` gives 400. So a body with no `name` and an unknown user gets 404. The store changes only on 201, which stores the new place with an empty amenity list |
| `Places.GetPlace` | api/v1/views/places.py:60-65 | 404 exactly when the id is unknown; otherwise the stored place |
| `Places.PutPlace` | api/v1/views/places.py:60-79 | Unknown id gives 404, then a bad body gives 400. `id`, `user_id`, `city_id` and the timestamps never change from the payload; every other key is set to its payload value |
| `Places.DeletePlace` | api/v1/views/places.py:60-84 | Unknown id gives 404. Otherwise the place and its own amenity list are removed, and nothing else |
| `Places.CollectFromStates` | api/v1/views/places.py:109-114 | The loop over the named states collects exactly the places whose city is a stored city of a stored named state |
| `Places.AddFromCities` | api/v1/views/places.py:116-120 | The loop over the named cities adds exactly the places of the stored named cities |
| `Places.FilterByAmenities` | api/v1/views/places.py:126-134 | Keeps exactly the candidates linked to every stored amenity named; unknown amenity ids are dropped |
| `Places.SearchOutcome` | api/v1/views/places.py:122-136 | The candidates, filtered when an amenity list is given, are `Search.Result` |
| `Places.PlacesSearch` | api/v1/views/places.py:93-136 | A non-JSON request gives 400. Otherwise the answer is exactly the records of `Search.Result`, and an empty body gives all places |
| `Search.Param` | api/v1/views/places.py:102-104 | A present key gives its value. `data.get(key, [])` is falsy exactly when the key is absent or its value is falsy |
| `Search.StringItems` | api/v1/views/places.py:117 | An id is iterated exactly when it occurs as a string item of the list, and no more ids come out than the list has items |
| `Search.IdsIn` | api/v1/views/places.py:110 | A falsy parameter names no ids; otherwise the ids are exactly the string items of the array |
| `Search.CitiesOf` | api/v1/views/places.py:113 | `state.cities` names stored cities only, and its records are exactly the `Children` of the state by `state_id`, as `GET /states/<id>/cities` lists them |
| `Search.PlacesOf` | api/v1/views/places.py:114 | `city.places` names stored places only, and its records are exactly the `Children` of the city by `city_id`, as `GET /cities/<id>/places` lists them |
| `Search.CarriesAll` | api/v1/views/places.py:132 | A place passes the `all(...)` test exactly when it is linked to every resolved amenity |
| `Search.Resolved` | api/v1/views/places.py:127-128 | The resolved amenities are exactly the named ids that are stored |
| `Search.Candidates` | api/v1/views/places.py:107-123 | The candidate set is the union of the places of the known named states and the places of the known named cities, or all places when both lists are empty; it is always a subset of the stored places |
| `Search.Result` | api/v1/views/places.py:96-136 | An empty body gives all places. Otherwise a place is in the answer exactly when it is a candidate linked to every resolved amenity. The answer has no duplicates and is a subset of the candidates |
| `Search.ByStatesStep` | api/v1/views/places.py:110-114 | One more named state adds the places of its cities if the state is stored, and nothing otherwise |
| `Search.ByCitiesStep` | api/v1/views/places.py:117-120 | One more named city adds its places if the city is stored, and nothing otherwise |
| `Search.ByCitySetStep` | api/v1/views/places.py:113-114 | One more city of a state adds exactly `city.places` |
| `Search.StateSearchIsUnionOfCitySearches` | api/v1/views/places.py:109-120 | Searching one stored state gives exactly the union, over that state's cities, of searching each city alone |
| `Search.MoreAmenitiesNarrow` | api/v1/views/places.py:126-134 | Adding amenities to the list never grows the answer |
| `Search.UnknownLocationsFindNothing` | api/v1/views/places.py:109-123 | A non-empty state or city list that names only unknown ids finds nothing, not all places |
| `Search.NoLocationNoAmenityFindsAll` | api/v1/views/places.py:122-123 | A non-empty body with no state, city or amenity list finds every place |
| `PlacesReviews.ListReviewsOfPlace` | api/v1/views/places_reviews.py:21-27 | Unknown place gives 404; otherwise exactly the reviews whose `place_id` is that place |
| `PlacesReviews.PostReview` | api/v1/views/places_reviews.py:21-46 | The checks run in this order: unknown place gives 404; non-JSON or empty body gives 400; missing `user_id` gives 400; unknown user gives 404; missing `text` gives 400. No review is stored on any failure |
| `PlacesReviews.GetReview` | api/v1/views/places_reviews.py:58-63 | 404 exactly when the id is unknown; otherwise the stored review |
| `PlacesReviews.PutReview` | api/v1/views/places_reviews.py:58-77 | Unknown id gives 404, then a bad body gives 400. `id`, `user_id`, `place_id` and the timestamps are unchanged; all other keys are applied |
| `PlacesReviews.DeleteReview` | api/v1/views/places_reviews.py:58-82 | Unknown id gives 404. Otherwise exactly that review is removed |
| `PlacesAmenities.RemoveFirst` | api/v1/views/places_amenities.py:48 | `list.remove` takes out the first occurrence of the amenity and keeps every other link in its order; a list without it is unchanged |
| `PlacesAmenities.RemoveFirstCounts` | api/v1/views/places_amenities.py:48 | `list.remove` takes away exactly one occurrence of the amenity, if there is one, as a multiset difference |
| `PlacesAmenities.RemoveFirstRemovesOnly` | api/v1/views/places_amenities.py:46-48 | On a duplicate-free list, unlinking removes exactly that amenity, keeps every other one, and leaves the list duplicate-free |
| `PlacesAmenities.LinkThenUnlinkRestores` | api/v1/views/places_amenities.py:46-57 | Linking a new amenity and then unlinking it gives back the original list |
| `PlacesAmenities.LinkedOnce` | api/v1/views/places_amenities.py:53-55 | In a duplicate-free link list a linked amenity occurs exactly once |
| `PlacesAmenities.GetAmenitiesOfPlace` | api/v1/views/places_amenities.py:20-25 | Unknown place gives 404; otherwise the place's amenity list |
| `PlacesAmenities.LinkAmenity` | api/v1/views/places_amenities.py:39-57 | Unknown place or amenity gives 404 with no change. An amenity already linked gives 200 and the list is unchanged. Otherwise the amenity is appended and 201 is returned. Either way the link is then present exactly once |
| `PlacesAmenities.UnlinkAmenity` | api/v1/views/places_amenities.py:39-50 | Unknown place or amenity, or an amenity not linked, gives 404 with the list unchanged. Otherwise the amenity is removed, every other link is kept, and 200 is returned with an empty object |

## Left out

- Flask routing, `abort`, `jsonify` and `to_dict` serialisation. A response is a value: a status with the records it would serialise, or the abort it raises.
- `request.get_json()` is modelled as the request's `body` field, and `is_json` as its `isJson` flag. The model does not tie the two together. A handler that tests `is_json` tests the flag; `PUT /users/<id>` looks only at the body.
- Users.PutUser: its difference from the other PUT handlers (it updates the user) shows only on a request that is not JSON yet has a non-empty object body. Flask's `get_json()` gives no such request: it returns `None` or raises for a non-JSON request. On the requests Flask does produce, `PutUser` answers as the other PUT handlers do.
- Bodies that are JSON but not a JSON object (an array, a string, a number) are not modelled; only an object or no body reaches the handlers.
- A search list whose value is not a JSON array contributes no ids. Items of a search list that are not strings are ignored. In Python a string value would be iterated character by character, and a number would raise an error.
- Floating-point JSON numbers are not modelled; numbers are integers.
- Guard.Guarded: every unprotected payload key becomes a plain attribute of the record. Python's `setattr` does not always do that, and the model does not capture these cases:
  - `__class__` with a non-class value raises `TypeError`, so such a PUT fails with a 500 in the source but answers 200 in the model;
  - the relationship attributes `amenities`, `cities`, `reviews` and `places` go through their setters or the ORM. A PUT body naming one of them does not change `links` or the other tables in the model; it only sets a record attribute of that name.
- The base model's constructor and `save()` are not part of this model. It is assumed that `Cls(**data)` copies every payload key, that the store assigns a fresh id and both timestamps (overriding the payload's), and that `save()` sets `updated_at`. The fresh id and the time are parameters. A create method requires that the id is not already in its table (uuid freshness).
- Model.NewRecord: does not model that a payload carrying its own `id`, `created_at` or `updated_at` might be kept by the base model's constructor, because that constructor is not part of this model.
- `storage.save()`, commit and durable persistence. The store is an in-memory object, and each handler writes to it at most once.
- ORM relationships (`state.cities`, `city.places`, `place.reviews`) are modelled as filters by foreign key. `place.amenities` is modelled as an explicit list of amenity ids per place.
  - No cascade is modelled. Deleting a state, city or place leaves its children, and deleting an amenity leaves its id in link lists.
  - Deleting a place removes its own amenity list, because that list belongs to the place object.
- PlacesAmenities.GetAmenitiesOfPlace: answers the linked amenity ids in link order rather than their serialised records.
- The order of `storage.all` results is not promised, so every listing and the search answer are sets of records.
- Password handling, the unused `include` import in `users.py`, concurrency, and last-write-wins between requests.
