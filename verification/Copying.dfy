/** Copying into an array. */
module Copying {
  method CopyInto<T>(target: array<T>, at: nat, data: seq<T>)
    requires at + |data| <= target.Length
    modifies target
    ensures target[..] == old(target[..at]) + data + old(target[at + |data|..])
  {
    ghost var s := target[..];
    var i := 0;
    while i < |data|
      invariant i <= |data| && target[..] == s[..at] + data[..i] + s[at + i..]
    {
      ghost var before := target[..];
      target[at + i] := data[i];
      assert target[..] == before[at + i := data[i]];
      i := i + 1;
    }
    assert data[..i] == data;
  }
}
