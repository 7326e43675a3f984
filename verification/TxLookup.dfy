/** The pool's lookup of all transactions, local and remote, with its slot count. */
module TxLookup {
  import opened PoolLists

  type Known = map<Hash, Tx>

  /** The slots a set of transactions takes. */
  ghost function SlotSum(m: Known): (s: nat)
    decreases |m|
  {
    if m.Keys == {} then 0
    else
      var h :| h in m;
      assert m.Keys == (m - {h}).Keys + {h};
      NumSlots(m[h]) + SlotSum(m - {h})
  }

  /** Any transaction can be counted first. */
  lemma {:induction false} SlotSumWithout(m: Known, h: Hash)
    requires h in m
    ensures SlotSum(m) == NumSlots(m[h]) + SlotSum(m - {h})
    decreases |m|
  {
    var first :| first in m && SlotSum(m) == NumSlots(m[first]) + SlotSum(m - {first});
    if first != h {
      assert m.Keys == (m - {first}).Keys + {first} && m.Keys == (m - {h}).Keys + {h};
      SlotSumWithout(m - {first}, h);
      SlotSumWithout(m - {h}, first);
      assert m - {first} - {h} == m - {h} - {first};
    }
  }

  lemma {:induction false} SlotSumWith(m: Known, h: Hash, tx: Tx)
    requires h !in m
    ensures SlotSum(m[h := tx]) == NumSlots(tx) + SlotSum(m)
  {
    SlotSumWithout(m[h := tx], h);
    assert m[h := tx] - {h} == m;
  }

  ghost predicate Counted(locals: Known, remotes: Known, slots: int) {
    locals.Keys !! remotes.Keys && slots == SlotSum(locals) + SlotSum(remotes)
  }

  lemma {:induction false} MoveCounted(locals: Known, remotes: Known, slots: int, h: Hash)
    requires Counted(locals, remotes, slots) && h in remotes
    ensures Counted(locals[h := remotes[h]], remotes - {h}, slots)
    ensures locals[h := remotes[h]] + (remotes - {h}) == locals + remotes
  {
    SlotSumWithout(remotes, h);
    SlotSumWith(locals, h, remotes[h]);
  }

  /** Of the remote transactions, those not of the given accounts or still to visit remain. */
  ghost predicate Divided(was: Known, remotes: Known, left: set<Hash>, accounts: set<Addr>) {
    forall h :: h in remotes <==> h in was && (h in left || was[h].from !in accounts)
  }

  method Migrate(locals: Known, remotes: Known, accounts: set<Addr>, ghost slots: int)
    returns (locals': Known, remotes': Known, migrated: nat)
    requires Counted(locals, remotes, slots)
    ensures Counted(locals', remotes', slots) && locals' + remotes' == locals + remotes
    ensures Divided(remotes, remotes', {}, accounts) && migrated + |remotes'| == |remotes|
  {
    locals', remotes', migrated := locals, remotes, 0;
    var left := remotes.Keys;
    while left != {}
      invariant left <= remotes.Keys && (forall h | h in remotes' :: h in remotes && remotes'[h] == remotes[h])
      invariant Counted(locals', remotes', slots) && locals' + remotes' == locals + remotes
      invariant Divided(remotes, remotes', left, accounts) && migrated + |remotes'| == |remotes|
    {
      var h :| h in left;
      left := left - {h};
      if remotes'[h].from in accounts {
        MoveCounted(locals', remotes', slots, h);
        assert remotes'.Keys == (remotes' - {h}).Keys + {h};
        locals', remotes', migrated := locals'[h := remotes'[h]], remotes' - {h}, migrated + 1;
      }
    }
  }

  class Lookup {
    var slots: int
    var locals: Known
    var remotes: Known

    /** No transaction is both local and remote, and the slots are those of all. */
    ghost predicate Exact()
      reads this
    {
      Counted(locals, remotes, slots)
    }

    ghost function All(): Known
      reads this
    {
      locals + remotes
    }

    constructor ()
      ensures Exact() && All() == map[]
    {
      slots, locals, remotes := 0, map[], map[];
    }

    /** Does not look whether the transaction is known: the pool does that before. */
    method Add(tx: Tx, local: bool)
      modifies this
      ensures slots == old(slots) + NumSlots(tx)
      ensures locals == (if local then old(locals)[tx.hash := tx] else old(locals))
      ensures remotes == (if local then old(remotes) else old(remotes)[tx.hash := tx])
      ensures old(Exact()) && tx.hash !in old(All()) ==> Exact() && All() == old(All())[tx.hash := tx]
    {
      ghost var fits := Exact() && tx.hash !in All();
      if fits {
        SlotSumWith(locals, tx.hash, tx);
        SlotSumWith(remotes, tx.hash, tx);
      }
      slots := slots + NumSlots(tx);
      if local {
        locals := locals[tx.hash := tx];
      } else {
        remotes := remotes[tx.hash := tx];
      }
    }

    method Remove(hash: Hash)
      requires Exact()
      modifies this
      ensures Exact() && All() == old(All()) - {hash}
      ensures locals == old(locals) - {hash} && remotes == old(remotes) - {hash}
    {
      if hash in locals {
        SlotSumWithout(locals, hash);
        slots := slots - NumSlots(locals[hash]);
      } else if hash in remotes {
        SlotSumWithout(remotes, hash);
        slots := slots - NumSlots(remotes[hash]);
      }
      assert hash !in locals ==> locals - {hash} == locals;
      assert hash !in remotes ==> remotes - {hash} == remotes;
      locals, remotes := locals - {hash}, remotes - {hash};
    }

    /** Remote transactions of local accounts become local; nothing else changes. */
    method RemoteToLocals(accounts: set<Addr>) returns (migrated: nat)
      requires Exact()
      modifies this
      ensures Exact() && slots == old(slots) && All() == old(All())
      ensures Divided(old(remotes), remotes, {}, accounts)
      ensures migrated == |old(remotes)| - |remotes|
    {
      locals, remotes, migrated := Migrate(locals, remotes, accounts, slots);
    }
  }
}
