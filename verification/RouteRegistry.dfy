/**
 The route registry as the source keeps it: a map from methods to slices that append may extend in
 place.  Dispatch reads its slice outside the lock, after other goroutines may have changed the
 registry; `given` records every slice handed out that way, and Valid says that none has changed.
 */
module RouteRegistry {
  import opened Handlers
  import opened PatternText
  import opened GoSlices
  import R = Registry
  import M = Machine

  type Items = Slice<R.RouteItem>

  class Routes {
    const re: Regexp
    var currentApiVersion: string
    var routes: map<string, Items>
    /** The registry on values that these fields stand for. */
    ghost var abs: R.Registry
    /** Every slice a dispatch has taken, with what was in it at that moment. */
    ghost var given: seq<(Items, seq<R.RouteItem>)>

    ghost function Backing(): set<object>
      reads this
    {
      (set verb | verb in routes :: routes[verb].arr) + (set k | 0 <= k < |given| :: given[k].0.arr)
    }

    /** The array in which AddRoute may write for this method. */
    ghost function Written(verb: string): set<object>
      reads this
    {
      if verb in routes then {routes[verb].arr} else {}
    }

    /** The slices hold the lists of `abs`, and no two methods share an array. */
    ghost predicate Represents()
      reads this, Backing()
    {
      && abs.version == currentApiVersion
      && abs.routes.Keys == routes.Keys
      && (forall verb :: verb in routes ==> routes[verb].Fits() && routes[verb].Elements() == abs.routes[verb])
      && (forall v, w :: v in routes && w in routes && v != w ==> routes[v].arr != routes[w].arr)
    }

    /** What has been handed out still holds what it held, and lies below what append may write. */
    ghost predicate Frozen()
      reads this, Backing()
    {
      forall k :: 0 <= k < |given| ==>
        && given[k].0.Fits()
        && given[k].0.Elements() == given[k].1
        && forall verb :: verb in routes && routes[verb].arr == given[k].0.arr
                          ==> given[k].0.len <= routes[verb].len
    }

    ghost predicate Valid()
      reads this, Backing()
    {
      Represents() && Frozen()
    }

    constructor (re: Regexp)
      ensures Valid() && abs == R.EMPTY && given == [] && this.re == re
    {
      this.re, currentApiVersion, routes, given, abs := re, "", map[], [], R.EMPTY;
    }

    method SetApiVersion(version: string)
      requires Valid()
      modifies this`currentApiVersion, this`abs
      ensures Valid() && abs == R.SetVersion(old(abs), version).next
    {
      currentApiVersion := version;
      abs := abs.(version := version);
    }

    /** The loop of checkDuplicateRoute, removeRouteImpl and findRoute. */
    method IndexOf(s: Items, version: string, pattern: string) returns (i: nat)
      requires s.Fits()
      ensures i == R.Find(s.Elements(), version, pattern)
    {
      i := 0;
      while i < s.len && !s.arr[i].Is(version, pattern)
        invariant i <= s.len
        invariant R.Find(s.Elements(), version, pattern) == i + R.Find(s.Elements()[i..], version, pattern)
      {
        assert s.Elements()[i..][1..] == s.Elements()[i + 1..];
        i := i + 1;
      }
    }

    /** Put a slice that shares its array with no other method in the place of a method's old one. */
    method Replace(verb: string, slice: Items)
      requires Valid() && slice.Fits()
      requires forall w :: w in routes && w != verb ==> routes[w].arr != slice.arr
      requires forall k :: 0 <= k < |given| && given[k].0.arr == slice.arr ==> given[k].0.len <= slice.len
      modifies this`routes, this`abs
      ensures Valid() && given == old(given)
      ensures abs == old(abs).With(verb, slice.Elements())
    {
      routes := routes[verb := slice];
      abs := abs.With(verb, slice.Elements());
    }

    /** Append an item to the slice of a known method, in place while the slice has capacity. */
    method Grow(verb: string, item: R.RouteItem, room: nat)
      requires Valid() && verb in routes
      modifies this`routes, this`abs, routes[verb].arr
      ensures Valid() && given == old(given)
      ensures abs == old(abs).With(verb, old(abs).routes[verb] + [item])
    {
      var slice := routes[verb];
      var grown := Append(slice, item, room);
      forall k | 0 <= k < |given|
        ensures given[k].0.Elements() == given[k].1
      {
        var g := given[k].0;
        if g.arr == slice.arr {
          assert g.Elements() == slice.Elements()[..g.len];
          assert old(g.Elements()) == old(slice.Elements())[..g.len];
        }
      }
      assert Represents();
      Replace(verb, grown);
    }

    method AddRoute(verb: string, pattern: string, chain: seq<Handler>, final: Endpoint, room: nat)
      returns (verdict: R.Verdict)
      requires Valid()
      modifies this`routes, this`abs, Written(verb)
      ensures Valid() && given == old(given)
      ensures R.Step(abs, verdict) == R.Add(re, old(abs), verb, pattern, chain, final)
    {
      var item := R.RouteItem(currentApiVersion, pattern, chain, final);
      if verb in routes {
        var i := IndexOf(routes[verb], currentApiVersion, pattern);
        if i < routes[verb].len {
          return R.Duplicate;
        }
        if !Compiles(re, currentApiVersion + pattern) {
          return R.BadPattern;
        }
        Grow(verb, item, room);
      } else {
        if !Compiles(re, currentApiVersion + pattern) {
          return R.BadPattern;
        }
        var none := Empty();
        var slice := Append(none, item, room);
        Replace(verb, slice);
      }
      return R.Ok;
    }

    /** The items before and after the i-th, in a new slice. */
    method Cut(slice: Items, i: nat) returns (r: Items)
      requires slice.Fits() && i < slice.len
      ensures r.Fits() && fresh(r.arr) && r.Elements() == R.Without(slice.Elements(), i)
    {
      r := Empty();
      if i > 0 {
        r := AppendAll(r, slice.arr[..i]);
      }
      if i + 1 < slice.len {
        r := AppendAll(r, slice.arr[i + 1..slice.len]);
      }
      assert slice.Elements()[..i] == slice.arr[..i];
      assert slice.Elements()[i + 1..] == slice.arr[i + 1..slice.len];
    }

    method RemoveRoute(verb: string, pattern: string) returns (verdict: R.Verdict)
      requires Valid()
      modifies this`routes, this`abs
      ensures Valid() && given == old(given)
      ensures R.Step(abs, verdict) == R.Remove(old(abs), verb, pattern)
    {
      if verb !in routes {
        return R.NoSuchMethod;
      }
      var slice := routes[verb];
      var newRoutes := Empty();
      var i := IndexOf(slice, currentApiVersion, pattern);
      if i < slice.len {
        newRoutes := Cut(slice, i);
      }
      Replace(verb, newRoutes);
      return R.Ok;
    }

    method ExistHandler(verb: string, pattern: string) returns (found: bool)
      requires Valid()
      ensures found <==> abs.Has(currentApiVersion, pattern, verb)
    {
      if verb !in routes {
        return false;
      }
      var i := IndexOf(routes[verb], currentApiVersion, pattern);
      return i < routes[verb].len;
    }

    /** The first half of Handle, under the lock: take the slice for the request's method. */
    method Snapshot(requested: string) returns (s: Items)
      requires Valid()
      modifies this`given
      ensures Valid() && s.Fits() && s.Elements() == abs.Of(R.ToUpper(requested))
      ensures given == old(given) + [(s, s.Elements())]
      ensures abs == old(abs)
    {
      if R.ToUpper(requested) in routes {
        s := routes[R.ToUpper(requested)];
      } else {
        s := Empty();
      }
      given := given + [(s, s.Elements())];
    }

    /**
     The second half of Handle, outside the lock, whatever the registry has become: the decision is
     that of the registry at the moment the slice was taken.
     */
    method Decide(s: Items, ghost taken: seq<R.RouteItem>, path: string) returns (target: M.Target)
      requires Valid() && (s, taken) in given
      ensures target == R.ResolveIn(re, taken, path)
      ensures forall n :: 0 <= n < |taken| && taken[n].Matches(re, path) && (forall k :: 0 <= k < n ==> !taken[k].Matches(re, path))
                          ==> target == M.Routed(taken[n].chain, taken[n].final)
    {
      var i := 0;
      while i < s.len
        invariant i <= s.len
        invariant R.First(re, taken, path) == i + R.First(re, taken[i..], path)
        invariant forall k :: 0 <= k < i ==> !taken[k].Matches(re, path)
      {
        if s.arr[i].Matches(re, path) {
          return M.Routed(s.arr[i].chain, s.arr[i].final);
        }
        assert taken[i..][1..] == taken[i + 1..];
        i := i + 1;
      }
      return M.Unrouted;
    }
  }
}
