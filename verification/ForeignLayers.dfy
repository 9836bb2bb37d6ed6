/** Dropping the layers that are not to be distributed, in place. */
module ForeignLayers {
  import opened Content
  import opened CopyMachine

  method RemoveForeignLayers(descs: array<Descriptor>) returns (j: nat)
    modifies descs
    ensures j <= descs.Length && descs[..j] == Local(old(descs[..]))
  {
    ghost var before := descs[..];
    j := 0;
    for i := 0 to descs.Length
      invariant Packed(descs[..], before, i, j, Local(before[..i]))
    {
      var desc := descs[i];
      ghost var a, m := descs[..], j;
      if !IsForeignLayer(desc.mediaType) {
        if i != j {
          descs[j] := desc;
        }
        j := j + 1;
      }
      PackStep(a, before, i, m, Local(before[..i]), IsForeignLayer(desc.mediaType), descs[..], j);
    }
    assert before[..|before|] == before;
  }
}
