/**
 The handlers of `/places/<place_id>/amenities` and
 `/places/<place_id>/amenities/<amenity_id>`: listing, linking and unlinking
 the amenities of a place, kept as the place's list of amenity ids.
 */
module PlacesAmenities {
  import opened Model
  import opened ObjectStore

  /** The position of the first occurrence of `x` in `s`. */
  function FirstIndex(s: seq<Id>, x: Id): (i: nat)
    requires x in s
    ensures i < |s| && s[i] == x && x !in s[..i]
  {
    if s[0] == x then 0
    else
      assert s == [s[0]] + s[1..];
      1 + FirstIndex(s[1..], x)
  }

  /**
   `list.remove(x)`: the list without the first occurrence of `x`, the other
   elements kept in their order.
   */
  function RemoveFirst(s: seq<Id>, x: Id): (r: seq<Id>)
    ensures x !in s ==> r == s
    ensures x in s ==> r == s[..FirstIndex(s, x)] + s[FirstIndex(s, x) + 1..]
    ensures x in s ==> |r| == |s| - 1
  {
    if s == [] then []
    else
      assert s == [s[0]] + s[1..];
      if s[0] == x then s[1..]
      else
        var t := RemoveFirst(s[1..], x);
        if x in s[1..] then
          var j := FirstIndex(s[1..], x);
          assert FirstIndex(s, x) == j + 1;
          assert s[..j + 1] == [s[0]] + s[1..][..j];
          assert s[j + 2..] == s[1..][j + 1..];
          [s[0]] + t
        else
          [s[0]] + t
  }

  /** Unlinking takes away one occurrence of `x`, if there is one, and nothing else. */
  lemma {:induction false} RemoveFirstCounts(s: seq<Id>, x: Id)
    ensures multiset(RemoveFirst(s, x)) == multiset(s) - multiset{x}
  {
    if x in s {
      var i := FirstIndex(s, x);
      var before, after := s[..i], s[i + 1..];
      assert s == before + [x] + after;
      assert multiset(s) == multiset(before) + multiset{x} + multiset(after);
      assert multiset(RemoveFirst(s, x)) == multiset(before) + multiset(after);
    } else {
      assert multiset(s)[x] == 0;
    }
  }

  /** The tail of a duplicate-free list is duplicate-free and lacks the head. */
  lemma NoDupTail(s: seq<Id>)
    requires NoDup(s) && s != []
    ensures NoDup(s[1..]) && s[0] !in s[1..]
  {
    forall i, j | 0 <= i < j < |s[1..]| ensures s[1..][i] != s[1..][j] {
      assert s[1..][i] == s[i + 1] && s[1..][j] == s[j + 1];
    }
    forall k | 0 <= k < |s[1..]| ensures s[1..][k] != s[0] {
      assert s[1..][k] == s[k + 1];
    }
  }

  /** Putting a new id in front of a duplicate-free list keeps it duplicate-free. */
  lemma NoDupCons(x: Id, t: seq<Id>)
    requires NoDup(t) && x !in t
    ensures NoDup([x] + t)
  {
    forall i, j | 0 <= i < j < |[x] + t| ensures ([x] + t)[i] != ([x] + t)[j] {
      assert ([x] + t)[j] == t[j - 1];
      if i > 0 {
        assert ([x] + t)[i] == t[i - 1];
      }
    }
  }

  /** Unlinking from a duplicate-free list removes exactly `x` and keeps the list duplicate-free. */
  lemma {:induction false} RemoveFirstRemovesOnly(s: seq<Id>, x: Id)
    requires NoDup(s)
    ensures NoDup(RemoveFirst(s, x))
    ensures forall y :: y in RemoveFirst(s, x) <==> y in s && y != x
  {
    if s != [] {
      NoDupTail(s);
      assert s == [s[0]] + s[1..];
      if s[0] != x {
        RemoveFirstRemovesOnly(s[1..], x);
        NoDupCons(s[0], RemoveFirst(s[1..], x));
      }
    }
  }

  /** Unlinking right after linking a new amenity gives back the original list. */
  lemma {:induction false} LinkThenUnlinkRestores(s: seq<Id>, x: Id)
    requires x !in s
    ensures RemoveFirst(s + [x], x) == s
  {
    if s == [] {
      assert [] + [x] == [x];
    } else {
      assert (s + [x])[1..] == s[1..] + [x];
      LinkThenUnlinkRestores(s[1..], x);
    }
  }

  /** In a duplicate-free list a linked amenity occurs exactly once. */
  lemma {:induction false} LinkedOnce(s: seq<Id>, x: Id)
    requires NoDup(s) && x in s
    ensures multiset(s)[x] == 1
  {
    NoDupTail(s);
    assert s == [s[0]] + s[1..];
    if s[0] != x {
      LinkedOnce(s[1..], x);
    }
  }

  /** GET /places/<place_id>/amenities: the place's linked amenities, in link order. */
  function GetAmenitiesOfPlace(st: Storage, placeId: Id): (r: Response)
    reads st
    requires st.Valid()
    ensures r == NotFound <==> placeId !in st.places
    ensures placeId in st.places ==> r == Ok(Links(st.links[placeId]))
  {
    if placeId !in st.places then NotFound else Ok(Links(st.links[placeId]))
  }

  /**
   POST /places/<place_id>/amenities/<amenity_id>: links the amenity, or
   answers 200 without change when it is already linked.
   */
  method LinkAmenity(st: Storage, placeId: Id, amenityId: Id) returns (r: Response)
    requires st.Valid()
    modifies st`links
    ensures st.Valid()
    ensures placeId !in st.places || amenityId !in st.amenities ==> r == NotFound
    ensures placeId in st.places && amenityId in st.amenities ==>
      r == if amenityId in old(st.links[placeId]) then Ok(One(st.amenities[amenityId]))
           else Created(One(st.amenities[amenityId]))
    ensures st.links == if r.Created? then old(st.links)[placeId := old(st.links[placeId]) + [amenityId]] else old(st.links)
    ensures placeId in st.places && amenityId in st.amenities ==> multiset(st.links[placeId])[amenityId] == 1
  {
    if placeId !in st.places || amenityId !in st.amenities {
      return NotFound;
    }
    var linked := st.links[placeId];
    if amenityId in linked {
      LinkedOnce(linked, amenityId);
      return Ok(One(st.amenities[amenityId]));
    }
    assert NoDup(linked + [amenityId]);
    st.links := st.links[placeId := linked + [amenityId]];
    LinkedOnce(st.links[placeId], amenityId);
    r := Created(One(st.amenities[amenityId]));
  }

  /**
   DELETE /places/<place_id>/amenities/<amenity_id>: unlinks the amenity;
   404 when either is unknown or the amenity is not linked.
   */
  method UnlinkAmenity(st: Storage, placeId: Id, amenityId: Id) returns (r: Response)
    requires st.Valid()
    modifies st`links
    ensures st.Valid()
    ensures placeId !in st.places || amenityId !in st.amenities ==> r == NotFound
    ensures r.Ok? <==> placeId in st.places && amenityId in st.amenities && amenityId in old(st.links[placeId])
    ensures !r.Ok? ==> r == NotFound && st.links == old(st.links)
    ensures r.Ok? ==> r.body == EmptyObject
    ensures r.Ok? ==> st.links == old(st.links)[placeId := RemoveFirst(old(st.links[placeId]), amenityId)]
    ensures r.Ok? ==> forall a :: a in st.links[placeId] <==> a in old(st.links[placeId]) && a != amenityId
  {
    if placeId !in st.places || amenityId !in st.amenities {
      return NotFound;
    }
    var linked := st.links[placeId];
    if amenityId !in linked {
      return NotFound;
    }
    RemoveFirstRemovesOnly(linked, amenityId);
    st.links := st.links[placeId := RemoveFirst(linked, amenityId)];
    r := Ok(EmptyObject);
  }
}
