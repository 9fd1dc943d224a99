/** Go byte slices: a window into an array that others may share. */
module Slices {
  import opened BigEndian

  datatype Slice = Slice(arr: array<byte>, off: nat, len: nat, cap: nat)
  {
    predicate Valid() {
      len <= cap && off + cap <= arr.Length
    }

    function Content(): seq<byte>
      requires Valid()
      reads arr
    {
      arr[off..off + len]
    }

    /** s[lo:hi]: same array, and the capacity still reaches to the end of the old one. */
    function Sub(lo: nat, hi: nat): Slice
      requires Valid() && lo <= hi <= cap
    {
      Slice(arr, off + lo, hi - lo, cap - lo)
    }
  }

  lemma SubContent(s: Slice, lo: nat, hi: nat)
    requires s.Valid() && lo <= hi <= s.len
    ensures s.Sub(lo, hi).Valid() && s.Sub(lo, hi).Content() == s.Content()[lo..hi]
  {
    var window := s.arr[s.off..s.off + s.len];
    assert forall i | lo <= i < hi :: window[i] == s.arr[s.off + i];
    assert window[lo..hi] == s.arr[s.off + lo..s.off + hi];
  }

  method Make(b: seq<byte>) returns (s: Slice)
    ensures fresh(s.arr) && s.Valid() && s.off == 0 && s.len == s.cap == |b| && s.Content() == b
  {
    var arr := new byte[|b|](i requires 0 <= i < |b| => b[i]);
    s := Slice(arr, 0, |b|, |b|);
    assert arr[..] == b;
  }

  /** append(s, t...): in place when the capacity allows it, so that whatever shares the array
      sees the bytes after s change; otherwise in a new array of unspecified spare capacity. */
  method Append(s: Slice, t: seq<byte>) returns (r: Slice)
    requires s.Valid()
    modifies s.arr
    ensures r.Valid() && r.Content() == old(s.Content()) + t
    ensures s.Content() == old(s.Content())
    ensures s.len + |t| <= s.cap ==>
      && r == Slice(s.arr, s.off, s.len + |t|, s.cap)
      && s.arr[..] == old(s.arr[..s.off + s.len]) + t + old(s.arr[s.off + s.len + |t|..])
    ensures s.len + |t| > s.cap ==> fresh(r.arr) && s.arr[..] == old(s.arr[..])
  {
    var at := s.off + s.len;
    if s.len + |t| <= s.cap {
      forall i | 0 <= i < |t| {
        s.arr[at + i] := t[i];
      }
      r := Slice(s.arr, s.off, s.len + |t|, s.cap);
    } else {
      var spare: nat :| true;
      var content := s.Content() + t;
      var arr := new byte[|content| + spare](i => if 0 <= i < |content| then content[i] else 0);
      r := Slice(arr, 0, |content|, |content| + spare);
    }
  }

  /** bytes.TrimLeft(s, "\x00"): a window into the same array.  When nothing is left Go returns
      nil, which like the slice returned here has no capacity. */
  method TrimLeft(s: Slice) returns (r: Slice)
    requires s.Valid()
    ensures r.Valid() && r.arr == s.arr && r.Content() == Trim(s.Content())
  {
    r := s;
    while r.len > 0 && r.arr[r.off] == 0
      invariant r.Valid() && r.arr == s.arr && Trim(r.Content()) == Trim(s.Content())
      decreases r.len
    {
      SubContent(r, 1, r.len);
      r := r.Sub(1, r.len);
    }
    if r.len == 0 {
      r := Slice(r.arr, r.off, 0, 0);
    }
  }
}
