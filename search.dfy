/**
 What `POST /places_search` answers, stated over the store as sets: the
 candidate places are the union of the places of the cities of the named
 (known) states and the places of the named (known) cities, or every place
 when neither list is given; the answer keeps the candidates that carry every
 named (known) amenity.
 */
module Search {
  import opened Model
  import opened ObjectStore

  /** `data.get(key, [])`. */
  function Param(data: Record, key: string): (r: Value)
    ensures key in data ==> r == data[key]
    ensures !Truthy(r) <==> key !in data || !Truthy(data[key])
  {
    if key in data then data[key] else Arr([])
  }

  /** The string items of a list, in order. */
  function StringItems(xs: seq<Value>): (r: seq<Id>)
    ensures forall id :: id in r <==> Str(id) in xs
    ensures |r| <= |xs|
  {
    if xs == [] then []
    else (if xs[0].Str? then [xs[0].s] else []) + StringItems(xs[1..])
  }

  /** The ids a search parameter names: the string items of a JSON array. */
  function IdsIn(v: Value): (r: seq<Id>)
    ensures !Truthy(v) ==> r == []
    ensures forall id :: id in r <==> v.Arr? && Str(id) in v.items
  {
    if v.Arr? then StringItems(v.items) else []
  }

  /** The city a place record names in its `city_id`, if it names one. */
  function CityOf(place: Record): Option<Id>
  {
    if "city_id" in place && place["city_id"].Str? then Some(place["city_id"].s) else None
  }

  /** `city.places`: the places whose `city_id` is `c`. */
  function PlacesOf(st: Storage, c: Id): (r: set<Id>)
    reads st
    ensures r <= st.places.Keys
    ensures forall p :: p in r ==> st.places[p] in Children(st.places, "city_id", c)
    ensures forall rec :: rec in Children(st.places, "city_id", c) ==> exists p :: p in r && st.places[p] == rec
  {
    set p | p in st.places && RefersTo(st.places[p], "city_id", c)
  }

  /** `state.cities`: the cities whose `state_id` is `s`. */
  function CitiesOf(st: Storage, s: Id): (r: set<Id>)
    reads st
    ensures r <= st.cities.Keys
    ensures forall c :: c in r ==> st.cities[c] in Children(st.cities, "state_id", s)
    ensures forall rec :: rec in Children(st.cities, "state_id", s) ==> exists c :: c in r && st.cities[c] == rec
  {
    set c | c in st.cities && RefersTo(st.cities[c], "state_id", s)
  }

  /** The place lies, through a stored city, in the stored state `s`. */
  predicate InState(st: Storage, place: Record, s: Id)
    reads st
  {
    && s in st.states
    && CityOf(place).Some?
    && CityOf(place).value in st.cities
    && RefersTo(st.cities[CityOf(place).value], "state_id", s)
  }

  /** The places in some stored state of `sids`. */
  function ByStates(st: Storage, sids: seq<Id>): set<Id>
    reads st
  {
    set p | p in st.places && exists s :: s in sids && InState(st, st.places[p], s)
  }

  /** The places whose city is a stored city of `cids`. */
  function ByCities(st: Storage, cids: seq<Id>): set<Id>
    reads st
  {
    set p | p in st.places && CityOf(st.places[p]).Some?
              && CityOf(st.places[p]).value in cids && CityOf(st.places[p]).value in st.cities
  }

  /** The places whose city is one of `cs`. */
  function ByCitySet(st: Storage, cs: set<Id>): set<Id>
    reads st
  {
    set p | p in st.places && CityOf(st.places[p]).Some? && CityOf(st.places[p]).value in cs
  }

  /** The candidate places before the amenity filter, for a non-empty body. */
  function Candidates(st: Storage, data: Record): (r: set<Id>)
    reads st
    ensures r <= st.places.Keys
  {
    var states, cities := Param(data, "states"), Param(data, "cities");
    if !Truthy(states) && !Truthy(cities) then st.places.Keys
    else ByStates(st, IdsIn(states)) + ByCities(st, IdsIn(cities))
  }

  /** The amenities linked to place `p`. */
  function LinksOf(st: Storage, p: Id): seq<Id>
    reads st
  {
    if p in st.links then st.links[p] else []
  }

  /** Place `p` is linked to every stored amenity of `aids`; unknown ids are ignored. */
  predicate CarriesAll(st: Storage, p: Id, aids: seq<Id>)
    reads st
    ensures CarriesAll(st, p, aids) <==> forall a :: a in Resolved(st.amenities, aids) ==> a in LinksOf(st, p)
  {
    forall a :: a in aids && a in st.amenities ==> a in LinksOf(st, p)
  }

  /** The ids of the places the search answers with. */
  function Result(st: Storage, data: Option<Record>): (r: set<Id>)
    reads st
    ensures r <= st.places.Keys
    ensures data.None? || data.value == map[] ==> r == st.places.Keys
    ensures data.Some? && data.value != map[] ==> r <= Candidates(st, data.value)
    ensures data.Some? && data.value != map[] ==> forall p :: p in r <==>
      p in Candidates(st, data.value) && CarriesAll(st, p, IdsIn(Param(data.value, "amenities")))
  {
    if data.None? || data.value == map[] then st.places.Keys
    else
      var aids := IdsIn(Param(data.value, "amenities"));
      set p | p in Candidates(st, data.value) && CarriesAll(st, p, aids)
  }

  /** The records of the places `ids` names. */
  function RecordsOf(places: map<Id, Record>, ids: set<Id>): set<Record>
  {
    set p | p in ids && p in places :: places[p]
  }

  /** The ids a list of amenity ids resolves to, dropping those not stored, in order. */
  function Resolved(amenities: map<Id, Record>, ids: seq<Id>): (r: seq<Id>)
    ensures forall a :: a in r <==> a in ids && a in amenities
  {
    if ids == [] then []
    else (if ids[0] in amenities then [ids[0]] else []) + Resolved(amenities, ids[1..])
  }

  // ---- Steps of the accumulation the handler performs ----

  /** One more state id adds the places of its cities, if it is stored. */
  lemma ByStatesStep(st: Storage, sids: seq<Id>, i: nat)
    requires i < |sids|
    ensures ByStates(st, sids[..i + 1]) ==
      ByStates(st, sids[..i]) + (if sids[i] in st.states then ByCitySet(st, CitiesOf(st, sids[i])) else {})
  {
    assert sids[..i + 1] == sids[..i] + [sids[i]];
    var s := sids[i];
    forall p ensures p in ByStates(st, sids[..i + 1]) <==>
      p in ByStates(st, sids[..i]) || (s in st.states && p in ByCitySet(st, CitiesOf(st, s)))
    {
      if p in ByCitySet(st, CitiesOf(st, s)) && s in st.states {
        assert InState(st, st.places[p], s);
        assert s in sids[..i + 1];
      }
      if p in ByStates(st, sids[..i + 1]) {
        var t :| t in sids[..i + 1] && InState(st, st.places[p], t);
        if t !in sids[..i] {
          assert t == s;
          assert CityOf(st.places[p]).value in CitiesOf(st, s);
        }
      }
    }
  }

  /** One more city id adds its places, if it is stored. */
  lemma ByCitiesStep(st: Storage, cids: seq<Id>, j: nat)
    requires j < |cids|
    ensures ByCities(st, cids[..j + 1]) ==
      ByCities(st, cids[..j]) + (if cids[j] in st.cities then PlacesOf(st, cids[j]) else {})
  {
    assert cids[..j + 1] == cids[..j] + [cids[j]];
  }

  /** One more city of a state adds that city's places. */
  lemma ByCitySetStep(st: Storage, done: set<Id>, c: Id)
    ensures ByCitySet(st, done + {c}) == ByCitySet(st, done) + PlacesOf(st, c)
  {
  }

  // ---- Properties of the search ----

  /**
   Searching one stored state gives exactly the union of the searches of its
   cities, one city at a time.
   */
  lemma {:induction false} StateSearchIsUnionOfCitySearches(st: Storage, s: Id)
    requires s in st.states
    ensures Result(st, Some(map["states" := Arr([Str(s)])])) ==
      set p, c | c in CitiesOf(st, s) && p in Result(st, Some(map["cities" := Arr([Str(c)])])) :: p
  {
    var byState := Some(map["states" := Arr([Str(s)])]);
    assert IdsIn(Arr([Str(s)])) == [s];
    assert Param(byState.value, "amenities") == Arr([]);
    assert Param(byState.value, "cities") == Arr([]);
    assert ByCities(st, []) == {};
    assert Param(byState.value, "states") == Arr([Str(s)]);
    assert Candidates(st, byState.value) == ByStates(st, [s]);
    forall p ensures p in Result(st, byState) <==>
      exists c :: c in CitiesOf(st, s) && p in Result(st, Some(map["cities" := Arr([Str(c)])]))
    {
      if p in Result(st, byState) {
        assert p in ByStates(st, [s]);
        assert InState(st, st.places[p], s);
        var c := CityOf(st.places[p]).value;
        var byCity := Some(map["cities" := Arr([Str(c)])]);
        assert IdsIn(Arr([Str(c)])) == [c];
        assert Param(byCity.value, "amenities") == Arr([]);
        assert c in CitiesOf(st, s);
        assert p in Result(st, byCity);
      }
      if c :| c in CitiesOf(st, s) && p in Result(st, Some(map["cities" := Arr([Str(c)])])) {
        var byCity := Some(map["cities" := Arr([Str(c)])]);
        assert IdsIn(Arr([Str(c)])) == [c];
        assert InState(st, st.places[p], s);
        assert p in ByStates(st, [s]);
      }
    }
  }

  /** Asking for more amenities never adds a place. */
  lemma MoreAmenitiesNarrow(st: Storage, data: Record, xs: seq<Value>, ys: seq<Value>)
    ensures Result(st, Some(data["amenities" := Arr(xs + ys)])) <= Result(st, Some(data["amenities" := Arr(xs)]))
  {
    var wide, narrow := data["amenities" := Arr(xs)], data["amenities" := Arr(xs + ys)];
    assert Param(wide, "states") == Param(narrow, "states");
    assert Param(wide, "cities") == Param(narrow, "cities");
    assert Candidates(st, wide) == Candidates(st, narrow);
    forall a | a in IdsIn(Param(wide, "amenities"))
      ensures a in IdsIn(Param(narrow, "amenities"))
    {
      assert Str(a) in xs + ys;
    }
  }

  /**
   A non-empty body whose state and city lists are not both empty, and which
   names no stored state and no stored city, finds nothing.
   */
  lemma UnknownLocationsFindNothing(st: Storage, data: Record)
    requires data != map[]
    requires Truthy(Param(data, "states")) || Truthy(Param(data, "cities"))
    requires forall s :: s in IdsIn(Param(data, "states")) ==> s !in st.states
    requires forall c :: c in IdsIn(Param(data, "cities")) ==> c !in st.cities
    ensures Result(st, Some(data)) == {}
  {
    assert ByStates(st, IdsIn(Param(data, "states"))) == {};
    assert ByCities(st, IdsIn(Param(data, "cities"))) == {};
  }

  /**
   Only when neither a state list nor a city list is given is every place a
   candidate; then, with no amenities asked for, every place is found.
   */
  lemma NoLocationNoAmenityFindsAll(st: Storage, data: Record)
    requires data != map[]
    requires !Truthy(Param(data, "states")) && !Truthy(Param(data, "cities"))
    requires !Truthy(Param(data, "amenities"))
    ensures Result(st, Some(data)) == st.places.Keys
  {
    assert IdsIn(Param(data, "amenities")) == [];
  }
}
