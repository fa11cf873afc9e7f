/** The list of middlewares of a server: it grows in place while requests read earlier versions of it. */
module MiddleWareChains {
  import opened Handlers
  import opened GoSlices

  class Chains {
    var handlers: Slice<Handler>
    /** Every slice handed out so far, with what was in it at that moment. */
    ghost var given: seq<(Slice<Handler>, seq<Handler>)>

    ghost function Backing(): set<object>
      reads this
    {
      {handlers.arr} + set k | 0 <= k < |given| :: given[k].0.arr
    }

    /** What has been handed out still holds what it held, and cannot be written by Append. */
    ghost predicate Valid()
      reads this, Backing()
    {
      && handlers.Fits()
      && forall k :: 0 <= k < |given| ==>
           && given[k].0.Fits()
           && given[k].0.Elements() == given[k].1
           && (given[k].0.arr == handlers.arr ==> given[k].0.len <= handlers.len)
    }

    constructor ()
      ensures Valid() && handlers.Elements() == [] && given == [] && fresh(handlers.arr)
    {
      var none := Empty();
      handlers := none;
      given := [];
    }

    /** The handlers so far, without a copy. */
    method GetHandlers() returns (s: Slice<Handler>)
      requires Valid()
      modifies this`given
      ensures Valid() && s.Fits() && s.Elements() == old(handlers.Elements()) == handlers.Elements()
      ensures given == old(given) + [(s, s.Elements())]
    {
      s := handlers;
      given := given + [(s, s.Elements())];
    }

    method Append(h: Handler, room: nat)
      requires Valid()
      modifies this`handlers, handlers.arr
      ensures Valid() && given == old(given)
      ensures handlers.Elements() == old(handlers.Elements()) + [h]
      ensures handlers.arr == old(handlers.arr) || fresh(handlers.arr)
    {
      var before := handlers;
      handlers := GoSlices.Append(handlers, h, room);
      assert forall k :: 0 <= k < |given| && given[k].0.arr == before.arr ==>
          given[k].0.Elements() == before.Elements()[..given[k].0.len];
    }
  }
}
