/**
 The object store the handlers share: one table per entity kind, mapping an
 object's id to its attributes, and the ordered list of amenity ids linked to
 each place.
 */
module ObjectStore {
  import opened Model

  /** Every object is filed under its own `id` attribute. */
  ghost predicate WellKeyed(table: map<Id, Record>)
  {
    forall id :: id in table ==> RefersTo(table[id], "id", id)
  }

  /** No id occurs twice in the list. */
  predicate NoDup(s: seq<Id>)
  {
    forall i, j :: 0 <= i < j < |s| ==> s[i] != s[j]
  }

  class Storage {
    var states: map<Id, Record>
    var cities: map<Id, Record>
    var places: map<Id, Record>
    var users: map<Id, Record>
    var amenities: map<Id, Record>
    var reviews: map<Id, Record>
    /** `place.amenities`, as the ids of the linked amenities, in link order. */
    var links: map<Id, seq<Id>>

    /**
     Each table is filed by id, every place (and only a place) has a link
     list, and no link list holds an amenity twice.
     */
    ghost predicate Valid()
      reads this
      ensures Valid() ==> forall p :: p in places ==> p in links && NoDup(links[p])
    {
      && WellKeyed(states) && WellKeyed(cities) && WellKeyed(places)
      && WellKeyed(users) && WellKeyed(amenities) && WellKeyed(reviews)
      && links.Keys == places.Keys
      && forall p :: p in links ==> NoDup(links[p])
    }

    constructor ()
      ensures Valid()
      ensures states == map[] && cities == map[] && places == map[]
      ensures users == map[] && amenities == map[] && reviews == map[]
      ensures links == map[]
    {
      states, cities, places := map[], map[], map[];
      users, amenities, reviews := map[], map[], map[];
      links := map[];
    }
  }
}
