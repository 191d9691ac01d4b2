/**
 * The scene list (hitable_list.rs) and its closest-hit scan.
 *
 * `hit` asks every object in order for a hit in (t_min, closest_so_far),
 * narrowing closest_so_far to each reported t and copying each reported
 * record to the caller's record. `Scan` describes the state of that loop
 * after the first n objects; `HitableList.Hit` is the loop itself.
 */
module HitableLists {
  import opened Wrappers
  import opened Utility
  import opened Rays
  import opened Hitables

  /** closest_so_far, and the record held in rec when hit_anything is set. */
  datatype ScanState = ScanState(closest: Bound, best: Option<HitRecord>)

  /** The loop state after the first n objects of the list. */
  function Scan(objects: seq<Hitable>, r: Ray, tMin: real, tMax: Bound, n: nat): (s: ScanState)
    requires n <= |objects|
    ensures s.best.None? ==> s.closest == tMax
    ensures s.best.Some? ==> s.closest == Finite(s.best.value.t)
    decreases n
  {
    if n == 0 then ScanState(tMax, None)
    else
      var s := Scan(objects, r, tMin, tMax, n - 1);
      var h := objects[n - 1](r, tMin, s.closest);
      if h.Some? then ScanState(Finite(h.value.t), h) else s
  }

  /** The call the loop makes on object i. */
  function Query(objects: seq<Hitable>, r: Ray, tMin: real, tMax: Bound, i: nat): Option<HitRecord>
    requires i < |objects|
  {
    objects[i](r, tMin, Scan(objects, r, tMin, tMax, i).closest)
  }

  /** What HitableList::hit reports: the record left in rec, if any. */
  function ListHit(objects: seq<Hitable>, r: Ray, tMin: real, tMax: Bound): (res: Option<HitRecord>)
    ensures objects == [] ==> res == None
  {
    Scan(objects, r, tMin, tMax, |objects|).best
  }

  /** A list, seen through its `hit`, is itself a Hitable. */
  function ListHitable(objects: seq<Hitable>): Hitable
  {
    (r: Ray, tMin: real, tMax: Bound) => ListHit(objects, r, tMin, tMax)
  }

  ghost predicate AllSound(objects: seq<Hitable>)
  {
    forall i :: 0 <= i < |objects| ==> Sound(objects[i])
  }

  ghost predicate AllNearest(objects: seq<Hitable>)
  {
    forall i :: 0 <= i < |objects| ==> ReportsNearest(objects[i])
  }

  ghost predicate AllValidMaterials(objects: seq<Hitable>)
  {
    forall i :: 0 <= i < |objects| ==> ValidMaterials(objects[i])
  }

  /** hit_anything is set exactly when some call of the scan succeeded. */
  lemma {:induction false} ScanFound(objects: seq<Hitable>, r: Ray, tMin: real, tMax: Bound, n: nat)
    requires n <= |objects|
    ensures Scan(objects, r, tMin, tMax, n).best.Some? <==>
      exists i :: 0 <= i < n && Query(objects, r, tMin, tMax, i).Some?
  {
    if n > 0 {
      ScanFound(objects, r, tMin, tMax, n - 1);
      if Query(objects, r, tMin, tMax, n - 1).Some? {
        assert Scan(objects, r, tMin, tMax, n).best.Some?;
      } else {
        assert Scan(objects, r, tMin, tMax, n) == Scan(objects, r, tMin, tMax, n - 1);
        assert (exists i :: 0 <= i < n && Query(objects, r, tMin, tMax, i).Some?) ==>
          (exists i :: 0 <= i < n - 1 && Query(objects, r, tMin, tMax, i).Some?);
      }
    }
  }

  /** The record held is the one of the last successful call. */
  lemma {:induction false} ScanKeepsLastSuccess(objects: seq<Hitable>, r: Ray, tMin: real, tMax: Bound, n: nat)
    requires n <= |objects|
    requires Scan(objects, r, tMin, tMax, n).best.Some?
    ensures exists i :: 0 <= i < n && Query(objects, r, tMin, tMax, i) == Scan(objects, r, tMin, tMax, n).best &&
                        (forall j :: i < j < n ==> Query(objects, r, tMin, tMax, j).None?)
  {
    if Query(objects, r, tMin, tMax, n - 1).Some? {
      assert Query(objects, r, tMin, tMax, n - 1) == Scan(objects, r, tMin, tMax, n).best;
    } else {
      ScanKeepsLastSuccess(objects, r, tMin, tMax, n - 1);
      var i :| 0 <= i < n - 1 && Query(objects, r, tMin, tMax, i) == Scan(objects, r, tMin, tMax, n - 1).best &&
               (forall j :: i < j < n - 1 ==> Query(objects, r, tMin, tMax, j).None?);
      assert Query(objects, r, tMin, tMax, i) == Scan(objects, r, tMin, tMax, n).best;
    }
  }

  /** Each successful call lies inside (t_min, closest_so_far) when the objects are sound. */
  lemma QueryWithin(objects: seq<Hitable>, r: Ray, tMin: real, tMax: Bound, i: nat)
    requires i < |objects|
    requires AllSound(objects)
    ensures Query(objects, r, tMin, tMax, i).Some? ==>
      tMin < Query(objects, r, tMin, tMax, i).value.t &&
      Below(Query(objects, r, tMin, tMax, i).value.t, Scan(objects, r, tMin, tMax, i).closest)
  {
    assert Sound(objects[i]);
  }

  /** closest_so_far never increases. */
  lemma {:induction false} ScanNarrows(objects: seq<Hitable>, r: Ray, tMin: real, tMax: Bound, i: nat, j: nat)
    requires i <= j <= |objects|
    requires AllSound(objects)
    ensures BoundLe(Scan(objects, r, tMin, tMax, j).closest, Scan(objects, r, tMin, tMax, i).closest)
    decreases j
  {
    if i < j {
      ScanNarrows(objects, r, tMin, tMax, i, j - 1);
      QueryWithin(objects, r, tMin, tMax, j - 1);
    }
  }

  /** Everything the scan holds lies in (t_min, t_max) when the objects are sound. */
  lemma {:induction false} ScanSound(objects: seq<Hitable>, r: Ray, tMin: real, tMax: Bound, n: nat)
    requires n <= |objects|
    requires AllSound(objects)
    ensures Scan(objects, r, tMin, tMax, n).best.Some? ==>
      tMin < Scan(objects, r, tMin, tMax, n).best.value.t && Below(Scan(objects, r, tMin, tMax, n).best.value.t, tMax)
  {
    if n > 0 {
      ScanSound(objects, r, tMin, tMax, n - 1);
      QueryWithin(objects, r, tMin, tMax, n - 1);
    }
  }

  /** Each success lies strictly below every earlier success. */
  lemma SuccessesDecrease(objects: seq<Hitable>, r: Ray, tMin: real, tMax: Bound, i: nat, j: nat)
    requires i < j < |objects|
    requires AllSound(objects)
    requires Query(objects, r, tMin, tMax, i).Some? && Query(objects, r, tMin, tMax, j).Some?
    ensures Query(objects, r, tMin, tMax, j).value.t < Query(objects, r, tMin, tMax, i).value.t
  {
    ScanNarrows(objects, r, tMin, tMax, i + 1, j);
    QueryWithin(objects, r, tMin, tMax, j);
  }

  /**
   * When every object reports its nearest hit, the scan finds a hit exactly
   * when some object has one in (t_min, t_max), and what it finds is the
   * nearest of them.
   */
  lemma {:induction false} ScanNearest(objects: seq<Hitable>, r: Ray, tMin: real, tMax: Bound, n: nat)
    requires n <= |objects|
    requires AllNearest(objects)
    ensures Scan(objects, r, tMin, tMax, n).best.Some? <==>
      exists i :: 0 <= i < n && objects[i](r, tMin, tMax).Some?
    ensures Scan(objects, r, tMin, tMax, n).best.Some? ==>
      exists i :: 0 <= i < n && objects[i](r, tMin, tMax) == Scan(objects, r, tMin, tMax, n).best
    ensures Scan(objects, r, tMin, tMax, n).best.Some? ==>
      forall i :: 0 <= i < n && objects[i](r, tMin, tMax).Some? ==>
        Scan(objects, r, tMin, tMax, n).best.value.t <= objects[i](r, tMin, tMax).value.t
  {
    if n > 0 {
      var k := n - 1;
      var s := Scan(objects, r, tMin, tMax, k);
      ScanNearest(objects, r, tMin, tMax, k);
      var near := objects[k](r, tMin, Infinity);
      assert ReportsNearest(objects[k]);
      assert objects[k](r, tMin, tMax) == Restrict(near, tMax);
      assert objects[k](r, tMin, s.closest) == Restrict(near, s.closest);
      if s.best.Some? {
        var i :| 0 <= i < k && objects[i](r, tMin, tMax) == s.best;
        assert ReportsNearest(objects[i]);
        assert objects[i](r, tMin, tMax) == Restrict(objects[i](r, tMin, Infinity), tMax);
        assert Below(s.best.value.t, tMax);
      }
      if objects[k](r, tMin, s.closest).Some? {
        assert objects[k](r, tMin, tMax) == Scan(objects, r, tMin, tMax, n).best;
      } else {
        assert Scan(objects, r, tMin, tMax, n) == s;
      }
    }
  }

  /** The scan over (t_min, t_max) keeps the scan over (t_min, INFINITY) when that lies below t_max. */
  lemma {:induction false} ScanRestricts(objects: seq<Hitable>, r: Ray, tMin: real, tMax: Bound, n: nat)
    requires n <= |objects|
    requires AllNearest(objects)
    ensures Scan(objects, r, tMin, tMax, n).best == Restrict(Scan(objects, r, tMin, Infinity, n).best, tMax)
  {
    if n > 0 {
      var k := n - 1;
      ScanRestricts(objects, r, tMin, tMax, k);
      var a := Scan(objects, r, tMin, Infinity, k);
      var b := Scan(objects, r, tMin, tMax, k);
      var near := objects[k](r, tMin, Infinity);
      assert ReportsNearest(objects[k]);
      assert objects[k](r, tMin, a.closest) == Restrict(near, a.closest);
      assert objects[k](r, tMin, b.closest) == Restrict(near, b.closest);
    }
  }

  /** Every record the scan holds carries a well-formed material. */
  lemma {:induction false} ScanValidMaterials(objects: seq<Hitable>, r: Ray, tMin: real, tMax: Bound, n: nat)
    requires n <= |objects|
    requires AllValidMaterials(objects)
    ensures Scan(objects, r, tMin, tMax, n).best.Some? ==> Scan(objects, r, tMin, tMax, n).best.value.mat.Valid()
  {
    if n > 0 {
      ScanValidMaterials(objects, r, tMin, tMax, n - 1);
      assert ValidMaterials(objects[n - 1]);
    }
  }

  /** The list reports the nearest hit of its objects in (t_min, t_max), and a hit only if one of them has one. */
  lemma ListHitNearest(objects: seq<Hitable>, r: Ray, tMin: real, tMax: Bound)
    requires AllNearest(objects)
    ensures ListHit(objects, r, tMin, tMax).Some? <==> exists i :: 0 <= i < |objects| && objects[i](r, tMin, tMax).Some?
    ensures ListHit(objects, r, tMin, tMax).Some? ==>
      exists i :: 0 <= i < |objects| && objects[i](r, tMin, tMax) == ListHit(objects, r, tMin, tMax)
    ensures ListHit(objects, r, tMin, tMax).Some? ==>
      forall i :: 0 <= i < |objects| && objects[i](r, tMin, tMax).Some? ==>
        ListHit(objects, r, tMin, tMax).value.t <= objects[i](r, tMin, tMax).value.t
  {
    ScanNearest(objects, r, tMin, tMax, |objects|);
  }

  /** A list of one object reports what that object reports. */
  lemma ListHitSingleton(h: Hitable, r: Ray, tMin: real, tMax: Bound)
    ensures ListHit([h], r, tMin, tMax) == h(r, tMin, tMax)
  {
    assert Scan([h], r, tMin, tMax, 0) == ScanState(tMax, None);
  }

  /** A list of sound objects is sound. */
  lemma ListHitableSound(objects: seq<Hitable>)
    requires AllSound(objects)
    ensures Sound(ListHitable(objects))
  {
    forall r: Ray, tMin: real, tMax: Bound
      ensures ListHit(objects, r, tMin, tMax).Some? ==>
        tMin < ListHit(objects, r, tMin, tMax).value.t && Below(ListHit(objects, r, tMin, tMax).value.t, tMax)
    {
      ScanSound(objects, r, tMin, tMax, |objects|);
    }
  }

  /** A list of objects that report their nearest hit reports its nearest hit. */
  lemma ListHitableNearest(objects: seq<Hitable>)
    requires AllNearest(objects)
    ensures ReportsNearest(ListHitable(objects))
  {
    forall r: Ray, tMin: real, tMax: Bound
      ensures ListHit(objects, r, tMin, tMax) == Restrict(ListHit(objects, r, tMin, Infinity), tMax)
    {
      ScanRestricts(objects, r, tMin, tMax, |objects|);
    }
  }

  /** A list of objects with well-formed materials reports only well-formed materials. */
  lemma ListHitableValidMaterials(objects: seq<Hitable>)
    requires AllValidMaterials(objects)
    ensures ValidMaterials(ListHitable(objects))
  {
    forall r: Ray, tMin: real, tMax: Bound
      ensures ListHit(objects, r, tMin, tMax).Some? ==> ListHit(objects, r, tMin, tMax).value.mat.Valid()
    {
      ScanValidMaterials(objects, r, tMin, tMax, |objects|);
    }
  }

  /** The scene list. */
  class HitableList {
    var objects: seq<Hitable>

    /** HitableList::new: an empty list. */
    constructor ()
      ensures objects == []
    {
      objects := [];
    }

    /** clear: removes every object. */
    method Clear()
      modifies this
      ensures objects == []
    {
      objects := [];
    }

    /** add: appends one object after the others. */
    method Add(obj: Hitable)
      modifies this
      ensures objects == old(objects) + [obj]
    {
      objects := objects + [obj];
    }

    /**
     * hit: the closest-hit scan. rec receives the record of the scan and is
     * left as it was when no object reports a hit.
     */
    method Hit(r: Ray, tMin: real, tMax: Bound, rec: HitRecordCell) returns (hitAnything: bool)
      modifies rec
      ensures hitAnything == ListHit(objects, r, tMin, tMax).Some?
      ensures hitAnything ==> rec.Value() == ListHit(objects, r, tMin, tMax).value
      ensures !hitAnything ==> rec.Value() == old(rec.Value())
    {
      var tempRec := new HitRecordCell.Default();
      hitAnything := false;
      var closestSoFar := tMax;
      var i := 0;
      while i < |objects|
        invariant 0 <= i <= |objects|
        invariant fresh(tempRec)
        invariant Scan(objects, r, tMin, tMax, i) ==
          ScanState(closestSoFar, if hitAnything then Some(rec.Value()) else None)
        invariant !hitAnything ==> rec.Value() == old(rec.Value())
      {
        var found := HitInto(objects[i], r, tMin, closestSoFar, tempRec);
        if found {
          hitAnything := true;
          closestSoFar := Finite(tempRec.t);
          rec.Assign(tempRec);
        }
        i := i + 1;
      }
    }
  }
}
