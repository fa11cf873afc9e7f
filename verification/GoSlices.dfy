/** Go slices over a shared backing array, and append, which may write into that array in place. */
module GoSlices {

  datatype Slice<T> = Slice(arr: array<T>, len: nat) {
    predicate Fits() {
      len <= arr.Length
    }

    function Elements(): seq<T>
      requires Fits()
      reads arr
    {
      arr[..len]
    }
  }

  /** An empty slice literal. */
  method Empty<T>() returns (s: Slice<T>)
    ensures s.Fits() && fresh(s.arr) && s.Elements() == []
  {
    var arr := new T[0];
    s := Slice(arr, 0);
  }

  /** append(s, x): in place while there is capacity, otherwise into a new array with some room. */
  method Append<T>(s: Slice<T>, x: T, room: nat) returns (r: Slice<T>)
    requires s.Fits()
    modifies s.arr
    ensures r.Fits() && r.len == s.len + 1
    ensures r.Elements() == old(s.Elements()) + [x]
    ensures r.arr == s.arr || fresh(r.arr)
    ensures s.Elements() == old(s.Elements())
  {
    if s.len < s.arr.Length {
      s.arr[s.len] := x;
      r := Slice(s.arr, s.len + 1);
    } else {
      var elements := s.arr[..] + [x];
      var arr := new T[s.len + 1 + room](k => if 0 <= k <= s.len then elements[k] else x);
      r := Slice(arr, s.len + 1);
      assert arr[..s.len + 1] == elements;
    }
  }

  /** append(s, xs...) onto a slice nobody else holds. */
  method AppendAll<T>(s: Slice<T>, xs: seq<T>) returns (r: Slice<T>)
    requires s.Fits()
    ensures r.Fits() && fresh(r.arr)
    ensures r.Elements() == s.Elements() + xs
  {
    var elements := s.arr[..s.len] + xs;
    var arr := new T[|elements|](k requires 0 <= k < |elements| => elements[k]);
    r := Slice(arr, |elements|);
    assert arr[..] == elements;
  }
}
