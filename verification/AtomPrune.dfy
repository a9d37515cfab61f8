/** The daily prune of old memory atoms: links first, then atoms, with no
    foreign key to help. */
module AtomPrune {
  import opened Ids
  import opened AtomGraph
  import S = StableSort

  predicate Old(atoms: map<Uuid, AtomRow>, cutoff: int, id: Uuid) {
    id in atoms && atoms[id].createdAt < cutoff
  }

  /** Every link joins two atoms that exist. */
  ghost predicate Closed(atoms: map<Uuid, AtomRow>, links: seq<Link>) {
    forall l :: l in links ==> l.source in atoms && l.target in atoms
  }

  /** `DELETE FROM memory_links WHERE … IN (SELECT id FROM memory_atoms WHERE created_at < cutoff)`. */
  function WithoutLinksToOld(atoms: map<Uuid, AtomRow>, links: seq<Link>, cutoff: int): seq<Link> {
    S.Filter((l: Link) => !Old(atoms, cutoff, l.source) && !Old(atoms, cutoff, l.target), links)
  }

  function WithoutOld(atoms: map<Uuid, AtomRow>, cutoff: int): map<Uuid, AtomRow> {
    map id | id in atoms && !Old(atoms, cutoff, id) :: atoms[id]
  }

  /** Pruning a closed graph leaves a closed graph. */
  lemma PruneKeepsClosed(atoms: map<Uuid, AtomRow>, links: seq<Link>, cutoff: int)
    requires Closed(atoms, links)
    ensures Closed(WithoutOld(atoms, cutoff), WithoutLinksToOld(atoms, links, cutoff))
  {
  }

  /** In the other order the link statement finds no old atom and deletes
      nothing, so the result is closed only if no link touched an old atom. */
  lemma AtomsFirstLeavesDanglingLinks(atoms: map<Uuid, AtomRow>, links: seq<Link>, cutoff: int)
    requires Closed(atoms, links)
    ensures var rest := WithoutOld(atoms, cutoff);
            && WithoutLinksToOld(rest, links, cutoff) == links
            && (Closed(rest, WithoutLinksToOld(rest, links, cutoff)) <==>
                forall l :: l in links ==> !Old(atoms, cutoff, l.source) && !Old(atoms, cutoff, l.target))
  {
    var rest := WithoutOld(atoms, cutoff);
    S.FilterAll((l: Link) => !Old(rest, cutoff, l.source) && !Old(rest, cutoff, l.target), links);
  }

  /** What other connections insert between the two statements: new atoms, and
      links among the atoms there are by then. */
  datatype Inserted = Inserted(atoms: map<Uuid, AtomRow>, links: seq<Link>)

  /** A link inserted between the two statements is not deleted with the atoms:
      the graph stays closed exactly when no such link touches an old atom. */
  lemma PruneStaysClosedIff(atoms: map<Uuid, AtomRow>, links: seq<Link>, between: Inserted, cutoff: int)
    requires Closed(atoms, links) && Closed(atoms + between.atoms, between.links) && atoms.Keys !! between.atoms.Keys
    ensures var all := atoms + between.atoms;
            Closed(WithoutOld(all, cutoff), WithoutLinksToOld(atoms, links, cutoff) + between.links) <==>
              forall l :: l in between.links ==> !Old(all, cutoff, l.source) && !Old(all, cutoff, l.target)
  {
    var all := atoms + between.atoms;
    var kept, left := WithoutOld(all, cutoff), WithoutLinksToOld(atoms, links, cutoff);
    forall l | l in left ensures l.source in kept && l.target in kept {
      assert l in links && all[l.source] == atoms[l.source] && all[l.target] == atoms[l.target];
    }
    if Closed(kept, left + between.links) {
      forall l | l in between.links ensures !Old(all, cutoff, l.source) && !Old(all, cutoff, l.target) {
        assert l in left + between.links;
      }
    }
  }

  /** The inserted links, and those that joined no atom older than the cutoff. */
  ghost predicate AreTheLinksLeft(atoms: map<Uuid, AtomRow>, links: seq<Link>, between: Inserted, cutoff: int,
                                  left: seq<Link>)
  {
    forall l :: l in left <==>
      || l in between.links
      || (l in links
          && (l.source in atoms ==> atoms[l.source].createdAt >= cutoff)
          && (l.target in atoms ==> atoms[l.target].createdAt >= cutoff))
  }

  lemma PruneLeavesLinks(atoms: map<Uuid, AtomRow>, links: seq<Link>, between: Inserted, cutoff: int)
    ensures AreTheLinksLeft(atoms, links, between, cutoff,
              WithoutLinksToOld(atoms, links, cutoff) + between.links)
  {
  }

  class AtomStore {
    var atoms: map<Uuid, AtomRow>
    var links: seq<Link>

    constructor (atoms: map<Uuid, AtomRow>, links: seq<Link>)
      ensures this.atoms == atoms && this.links == links
    {
      this.atoms, this.links := atoms, links;
    }

    /** `DELETE FROM memory_atoms WHERE created_at < cutoff`. */
    method DeleteOldAtoms(cutoff: int) returns (deleted: nat)
      modifies this`atoms
      ensures atoms == WithoutOld(old(atoms), cutoff) && deleted == |old(atoms)| - |atoms|
    {
      var kept := WithoutOld(atoms, cutoff);
      var gone := set id | id in atoms && Old(atoms, cutoff, id);
      assert atoms.Keys == kept.Keys + gone && kept.Keys !! gone;
      deleted := |gone|;
      atoms := kept;
    }

    /** Returns how many atoms were deleted. Other connections may insert between
        the statements; a transaction that fails undoes its own deletes only. */
    method PruneAtoms(cutoff: int, between: Inserted, fails: bool) returns (ok: bool, pruned: nat)
      requires atoms.Keys !! between.atoms.Keys
      modifies this
      ensures ok == !fails
      ensures var all := old(atoms) + between.atoms;
              if ok then atoms == WithoutOld(all, cutoff)
                && links == WithoutLinksToOld(old(atoms), old(links), cutoff) + between.links
              else atoms == all && links == old(links) + between.links
      ensures ok ==> forall id :: id in atoms <==>
                id in old(atoms) + between.atoms && (old(atoms) + between.atoms)[id].createdAt >= cutoff
      ensures ok ==> AreTheLinksLeft(old(atoms), old(links), between, cutoff, links)
      ensures pruned == |old(atoms) + between.atoms| - |atoms|
      ensures old(Closed(atoms, links)) && Closed(old(atoms) + between.atoms, between.links) ==>
                (Closed(atoms, links) <==>
                  ok ==> forall l :: l in between.links ==>
                           && !Old(old(atoms) + between.atoms, cutoff, l.source)
                           && !Old(old(atoms) + between.atoms, cutoff, l.target))
    {
      ok := !fails;
      pruned := 0;
      ghost var atoms0, links0 := atoms, links;
      if ok { links := WithoutLinksToOld(atoms, links, cutoff); }
      atoms, links := atoms + between.atoms, links + between.links;
      if ok { pruned := DeleteOldAtoms(cutoff); }
      PruneLeavesLinks(atoms0, links0, between, cutoff);
      if Closed(atoms0, links0) && Closed(atoms0 + between.atoms, between.links) {
        PruneStaysClosedIff(atoms0, links0, between, cutoff);
      }
    }
  }
}
