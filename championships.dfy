/** Finalizing a championship: the one-way draft -> finalized step that opens
    match generation. The roster itself stays editable afterwards. */
module Championships {
  import opened Models
  import RoundRobin

  /** `enrollments` is the number of membership rows the store counts for the
      championship. A soft-deleted player keeps its row but leaves the roster
      the generator loads, so the roster is never longer than this count. */
  function Finalize(c: Championship, enrollments: nat): (r: Result<Championship>)
    ensures r.Success? <==> c.status == Draft && enrollments >= 2
    ensures c.status == Finalized ==> r == Failure(AlreadyFinalized)
    ensures c.status == Draft && enrollments < 2 ==> r == Failure(TooFewToFinalize)
    ensures r.Success? ==> r.value.status == Finalized
    ensures r.Success? ==> r.value.id == c.id && r.value.name == c.name && r.value.players == c.players
  {
    if c.status.Finalized? then Failure(AlreadyFinalized)
    else if enrollments < 2 then Failure(TooFewToFinalize)
    else Success(c.(status := Finalized))
  }

  /** Finalization cannot be repeated. While every membership row belongs to a
      player still on the roster, a freshly finalized championship with no
      matches yet is one the generator accepts. */
  lemma FinalizeOpensGeneration(c: Championship, enrollments: nat)
    requires Finalize(c, enrollments).Success?
    ensures Finalize(Finalize(c, enrollments).value, enrollments) == Failure(AlreadyFinalized)
    ensures enrollments == |c.players| ==> RoundRobin.CanGenerate(Finalize(c, enrollments).value, 0)
  {
  }

  /** Once a player on a two-player roster is deleted, finalization still
      succeeds on the two membership rows, but generation is refused. */
  lemma DeletedPlayerBlocksGeneration(c: Championship)
    requires c.status == Draft && |c.players| == 1
    ensures Finalize(c, 2).Success?
    ensures !RoundRobin.CanGenerate(Finalize(c, 2).value, 0)
  {
  }

  /** Generation is only ever accepted for a championship that finalization
      could have produced from its draft form, given the membership rows behind
      its roster. */
  lemma GenerationNeedsFinalization(c: Championship, existingMatches: nat, enrollments: nat)
    requires RoundRobin.CanGenerate(c, existingMatches)
    requires |c.players| <= enrollments
    ensures Finalize(c.(status := Draft), enrollments) == Success(c)
  {
  }
}
