/** The scene of src/Scene.h: a list of objects (here spheres, the only Hittable) and the
    nearest-hit scan that narrows the end of the range to the closest hit found so far. */
module Scenes {
  import opened Numeric
  import opened Options
  import opened Rays
  import opened Hittables
  import opened Spheres

  /** The scan's two variables, closest_so_far and res. */
  datatype ScanState = ScanState(closest: real, res: Option<HitRecord>)

  /** The state after the scan has visited `objects` in order: closest_so_far starts at
      range.end, and every object is asked for a hit in (range.start, closest_so_far). */
  function Scan(objects: seq<Sphere>, r: Ray, range: Range, sqrt: real -> real): ScanState
    decreases |objects|
  {
    if objects == [] then
      ScanState(range.end, None)
    else
      var prev := Scan(objects[..|objects| - 1], r, range, sqrt);
      match Spheres.Hit(objects[|objects| - 1], r, Range(range.start, prev.closest), sqrt)
      case None => prev
      case Some(h) => ScanState(h.t, Some(h))
  }

  class Scene {
    var objects: seq<Sphere>

    /** `Scene()`: no objects. */
    constructor ()
      ensures objects == []
    {
      objects := [];
    }

    /** `Scene(object)`: built through add, so it holds exactly that object. */
    constructor Single(obj: Sphere)
      ensures objects == [obj]
    {
      objects := [];
      new;
      Add(obj);
    }

    /** `clear()`. */
    method Clear()
      modifies this
      ensures objects == []
    {
      objects := [];
    }

    /** `add(object)`: appended at the end; the earlier objects keep their order. */
    method Add(obj: Sphere)
      modifies this
      ensures objects == old(objects) + [obj]
    {
      objects := objects + [obj];
    }

    /** `hit(r, range)`: the loop over the objects, proved to compute Scan. */
    method Hit(r: Ray, range: Range, sqrt: real -> real) returns (res: Option<HitRecord>)
      ensures res == Scan(objects, r, range, sqrt).res
    {
      var closestSoFar := range.end;
      res := None;
      var i := 0;
      while i < |objects|
        invariant 0 <= i <= |objects|
        invariant Scan(objects[..i], r, range, sqrt) == ScanState(closestSoFar, res)
      {
        assert objects[..i + 1][..i] == objects[..i];
        var tempRec := Spheres.Hit(objects[i], r, Range(range.start, closestSoFar), sqrt);
        if tempRec.Some? {
          closestSoFar := tempRec.value.t;
          res := tempRec;
        }
        i := i + 1;
      }
      assert objects[..i] == objects;
    }
  }

  // ---------------------------------------------------------------- properties

  /** An empty scene reports no hit. */
  lemma EmptySceneMisses(r: Ray, range: Range, sqrt: real -> real)
    ensures Scan([], r, range, sqrt) == ScanState(range.end, None)
  {
  }

  /** closest_so_far never increases from one object to the next. */
  lemma ScanNarrows(objects: seq<Sphere>, obj: Sphere, r: Ray, range: Range, sqrt: real -> real)
    ensures Scan(objects + [obj], r, range, sqrt).closest <= Scan(objects, r, range, sqrt).closest
  {
    assert (objects + [obj])[..|objects|] == objects;
  }

  /** What the scan finds, in terms of each object's own hit over the whole range:
      nothing exactly when no object is hit; otherwise the hit of some object w whose t is
      the smallest, strictly smaller than the hits of the objects before w (ties go to the
      earlier object) and no larger than those after it.  closest_so_far ends at the
      result's t, or at range.end when nothing is hit. */
  lemma {:induction false} ScanNearest(objects: seq<Sphere>, r: Ray, range: Range, sqrt: real -> real)
    requires IsSqrt(sqrt)
    ensures var st := Scan(objects, r, range, sqrt);
            (st.res.None? <==>
               forall j :: 0 <= j < |objects| ==> Spheres.Hit(objects[j], r, range, sqrt).None?)
            && (st.res.None? ==> st.closest == range.end)
            && (st.res.Some? ==> st.closest == st.res.value.t && st.closest < range.end)
    ensures var st := Scan(objects, r, range, sqrt);
            st.res.Some? ==>
              exists w :: 0 <= w < |objects| && Winner(objects, r, range, sqrt, w, st.res.value)
    decreases |objects|
  {
    if objects == [] {
      return;
    }
    var n := |objects| - 1;
    var prefix, o := objects[..n], objects[n];
    assert objects == prefix + [o];
    ScanNearest(prefix, r, range, sqrt);
    var prev := Scan(prefix, r, range, sqrt);
    HitShrinkEnd(o, r, range.start, range.end, prev.closest, sqrt);
    assert Range(range.start, range.end) == range;
    var own := Spheres.Hit(o, r, range, sqrt);
    if prev.res.None? {
      forall j | 0 <= j < n
        ensures Spheres.Hit(objects[j], r, range, sqrt).None?
      {
        assert objects[j] == prefix[j];
      }
      if own.Some? {
        assert Winner(objects, r, range, sqrt, n, own.value);
      }
    } else {
      var h := prev.res.value;
      var w :| 0 <= w < n && Winner(prefix, r, range, sqrt, w, h);
      if own.Some? && own.value.t < prev.closest {
        WinnerExtendNew(prefix, o, r, range, sqrt, w, h, own.value);
      } else {
        WinnerExtendOld(prefix, o, r, range, sqrt, w, h);
      }
    }
  }

  /** Object w's own hit over the whole range is `rec`, every earlier object misses or is
      hit strictly further away, and every later one misses or is hit no nearer. */
  ghost predicate Winner(objects: seq<Sphere>, r: Ray, range: Range, sqrt: real -> real,
                         w: int, rec: HitRecord)
    requires 0 <= w < |objects|
  {
    Spheres.Hit(objects[w], r, range, sqrt) == Some(rec) &&
    (forall j :: 0 <= j < w ==>
       Spheres.Hit(objects[j], r, range, sqrt).None? ||
       rec.t < Spheres.Hit(objects[j], r, range, sqrt).value.t) &&
    (forall j :: w < j < |objects| ==>
       Spheres.Hit(objects[j], r, range, sqrt).None? ||
       rec.t <= Spheres.Hit(objects[j], r, range, sqrt).value.t)
  }

  /** A new object hit strictly nearer than the old winner takes over. */
  lemma WinnerExtendNew(prefix: seq<Sphere>, o: Sphere, r: Ray, range: Range,
                        sqrt: real -> real, w: int, h: HitRecord, h': HitRecord)
    requires 0 <= w < |prefix| && Winner(prefix, r, range, sqrt, w, h)
    requires Spheres.Hit(o, r, range, sqrt) == Some(h') && h'.t < h.t
    ensures Winner(prefix + [o], r, range, sqrt, |prefix|, h')
  {
    var objects := prefix + [o];
    forall j | 0 <= j < |prefix|
      ensures Spheres.Hit(objects[j], r, range, sqrt).None?
              || h'.t < Spheres.Hit(objects[j], r, range, sqrt).value.t
    {
      assert objects[j] == prefix[j];
    }
  }

  /** An object that misses, or is hit no nearer than the old winner, leaves it winning. */
  lemma WinnerExtendOld(prefix: seq<Sphere>, o: Sphere, r: Ray, range: Range,
                        sqrt: real -> real, w: int, h: HitRecord)
    requires 0 <= w < |prefix| && Winner(prefix, r, range, sqrt, w, h)
    requires Spheres.Hit(o, r, range, sqrt).None? || h.t <= Spheres.Hit(o, r, range, sqrt).value.t
    ensures Winner(prefix + [o], r, range, sqrt, w, h)
  {
    var objects := prefix + [o];
    forall j | 0 <= j < |objects| && j != |prefix|
      ensures objects[j] == prefix[j]
    {
    }
  }

  /** Any hit the scene reports lies strictly inside the range it was asked about. */
  lemma SceneHitInRange(objects: seq<Sphere>, r: Ray, range: Range, sqrt: real -> real)
    requires IsSqrt(sqrt)
    requires Scan(objects, r, range, sqrt).res.Some?
    ensures InRange(range, Scan(objects, r, range, sqrt).res.value.t)
  {
    ScanNearest(objects, r, range, sqrt);
  }

  /** The reported hit is no farther than any object's own hit over the whole range. */
  lemma SceneHitNearest(objects: seq<Sphere>, r: Ray, range: Range, sqrt: real -> real, j: int)
    requires IsSqrt(sqrt)
    requires 0 <= j < |objects| && Spheres.Hit(objects[j], r, range, sqrt).Some?
    ensures Scan(objects, r, range, sqrt).res.Some?
    ensures Scan(objects, r, range, sqrt).res.value.t <= Spheres.Hit(objects[j], r, range, sqrt).value.t
  {
    ScanNearest(objects, r, range, sqrt);
    var rec := Scan(objects, r, range, sqrt).res.value;
    var w :| 0 <= w < |objects| && Winner(objects, r, range, sqrt, w, rec);
  }
}
