/**
  Who may name an id: the owner of its chunk, and every partition noted when
  one of its rows took the id in.
 */
module ForeignSets {
  import opened Seqs

  datatype Readers = Readers(owner: nat, foreign: seq<nat>)

  /** The partitions to look in for what names an id of the chunk. */
  function ReadersOf(r: Readers): seq<nat> { [r.owner] + r.foreign }

  /** The partition noted, once. */
  function Note(r: Readers, part: nat): (n: Readers)
    requires Distinct(ReadersOf(r))
    ensures Distinct(ReadersOf(n)) && forall p :: p in ReadersOf(n) <==> p in ReadersOf(r) || p == part
  {
    if part == r.owner || part in r.foreign then r
    else
      var n := r.(foreign := r.foreign + [part]);
      assert ReadersOf(n) == ReadersOf(r) + [part];
      n
  }
}
