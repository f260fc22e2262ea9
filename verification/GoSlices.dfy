/** Go slices: windows into backing arrays that several slices may share. */
module GoSlices {
  /** len elements of arr from off on are the contents; append may write into the cap - len elements after them. */
  datatype Slice<!T> = Slice(arr: array<T>, off: nat, len: nat, cap: nat) {
    ghost predicate Valid() {
      len <= cap && off + cap <= arr.Length
    }

    function End(): (end: nat) {
      off + len
    }

    function Contents(): (s: seq<T>)
      requires Valid()
      reads arr
      ensures |s| == len
    {
      arr[off..off + len]
    }
  }

  /** A nil slice has no spare capacity, so the first append allocates. */
  method NilSlice<T(0)>() returns (s: Slice<T>)
    ensures s.Valid() && fresh(s.arr) && s.len == s.cap == 0 && s.Contents() == []
  {
    var empty := new T[0];
    s := Slice(empty, 0, 0, 0);
  }

  /** A slice that holds exactly the given elements in an array of its own. */
  method MakeSlice<T(0)>(xs: seq<T>) returns (s: Slice<T>)
    ensures s.Valid() && fresh(s.arr) && s.Contents() == xs
  {
    s := NilSlice();
    s := Append(s, xs);
    assert [] + xs == xs;
  }

  /**
   * append: in place when the capacity suffices, writing nothing but the elements just after s; otherwise into a
   * larger array of a size the run-time system chooses.
   */
  method Append<T(0)>(s: Slice<T>, xs: seq<T>) returns (r: Slice<T>)
    requires s.Valid()
    modifies s.arr
    ensures r.Valid() && r.Contents() == old(s.Contents()) + xs
    ensures s.len + |xs| <= s.cap ==> r == s.(len := s.len + |xs|)
    ensures s.len + |xs| > s.cap ==> fresh(r.arr) && r.off == 0 && s.arr[..] == old(s.arr[..])
    ensures forall i | 0 <= i < s.arr.Length && !(s.End() <= i < s.End() + |xs|) :: s.arr[i] == old(s.arr[i])
    ensures s.arr[..s.End()] == old(s.arr[..s.End()])
  {
    var n := s.len + |xs|;
    if n <= s.cap {
      forall i | 0 <= i < |xs| {
        s.arr[s.End() + i] := xs[i];
      }
      r := s.(len := n);
    } else {
      var spare: nat :| 0 <= spare;
      var grown := new T[n + spare];
      forall i | 0 <= i < s.len {
        grown[i] := s.arr[s.off + i];
      }
      forall i | 0 <= i < |xs| {
        grown[s.len + i] := xs[i];
      }
      r := Slice(grown, 0, n, n + spare);
    }
  }
}
