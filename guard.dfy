/**
 The update rule every PUT handler applies: each payload key outside the
 handler's protected set overwrites the attribute of that name, protected
 keys are silently ignored, and `save()` then refreshes `updated_at`.
 */
module Guard {
  import opened Model

  /** The attributes left after the `setattr` loop of a PUT handler. */
  function Guarded(rec: Record, data: Record, protected: set<string>): (r: Record)
    ensures r.Keys == rec.Keys + (data.Keys - protected)
    ensures forall k :: k in protected ==> (k in r <==> k in rec)
    ensures forall k :: k in protected && k in rec ==> r[k] == rec[k]
    ensures forall k :: k in data && k !in protected ==> r[k] == data[k]
    ensures forall k :: k in rec && k !in data ==> r[k] == rec[k]
  {
    rec + (data - protected)
  }

  /** The object a PUT stores: the guarded attributes, then `save()` sets `updated_at`. */
  function Updated(rec: Record, data: Record, protected: set<string>, now: Value): (r: Record)
    requires "updated_at" in protected
    ensures r.Keys == rec.Keys + (data.Keys - protected) + {"updated_at"}
    ensures r["updated_at"] == now
    ensures forall k :: k in protected && k != "updated_at" ==> (k in r <==> k in rec)
    ensures forall k :: k in protected && k != "updated_at" && k in rec ==> r[k] == rec[k]
    ensures forall k :: k in data && k !in protected ==> r[k] == data[k]
    ensures forall k :: k in rec && k !in data && k != "updated_at" ==> r[k] == rec[k]
  {
    Guarded(rec, data, protected)["updated_at" := now]
  }

  /** The `for key, val in data.items(): if key not in protected: setattr(...)` loop. */
  method ApplyPayload(rec: Record, data: Record, protected: set<string>) returns (r: Record)
    ensures r == Guarded(rec, data, protected)
  {
    r := rec;
    var todo := data.Keys;
    while todo != {}
      invariant todo <= data.Keys
      invariant r == rec + ((data - todo) - protected)
      decreases todo
    {
      var key :| key in todo;
      if key !in protected {
        r := r[key := data[key]];
      }
      todo := todo - {key};
    }
  }
}
