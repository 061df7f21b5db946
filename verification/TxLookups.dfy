/** The pool's lookup of all known transactions, split into local and remote ones. */
module TxLookups {
  import opened Transactions
  import opened Totals

  function SlotsOf(tx: Tx): nat { tx.Slots() }

  datatype Lookup = Lookup(locals: map<Hash, Tx>, remotes: map<Hash, Tx>, slots: int) {

    ghost predicate Valid() {
      && Split()
      && (forall h :: h in locals ==> locals[h].hash == h)
      && (forall h :: h in remotes ==> remotes[h].hash == h)
    }

    /** The running slot count is the sum over all known transactions. */
    ghost predicate SlotsExact() { slots == SlotSum() }

    ghost predicate Split() { forall h :: h in locals ==> h !in remotes }

    ghost function SlotSum(): nat { Total(locals, SlotsOf) + Total(remotes, SlotsOf) }

    function Known(): map<Hash, Tx> { locals + remotes }

    predicate Has(h: Hash) { h in locals || h in remotes }

    function Get(h: Hash): Option<Tx> {
      if h in locals then Some(locals[h]) else if h in remotes then Some(remotes[h]) else None
    }

    function GetRemote(h: Hash): Option<Tx> {
      if h in remotes then Some(remotes[h]) else None
    }

    function Count(): nat { |locals| + |remotes| }

    function Add(tx: Tx, local: bool): Lookup {
      if local then this.(slots := slots + tx.Slots(), locals := locals[tx.hash := tx])
      else this.(slots := slots + tx.Slots(), remotes := remotes[tx.hash := tx])
    }

    function Remove(h: Hash): Lookup {
      var tx := Get(h);
      if tx.None? then this else
      Lookup(locals - {h}, remotes - {h}, slots - tx.value.Slots())
    }
  }

  /** If every known transaction takes a slot, no more are known than slots are taken. */
  lemma CountWithinSlots(t: Lookup)
    requires t.SlotsExact() && (forall h :: h in t.locals ==> t.locals[h].Slots() > 0) && forall h :: h in t.remotes ==> t.remotes[h].Slots() > 0
    ensures t.Count() <= t.slots
  {
    SizeWithinTotal(t.locals);
    SizeWithinTotal(t.remotes);
  }

  lemma {:induction false} SizeWithinTotal(m: map<Hash, Tx>)
    requires forall h :: h in m ==> m[h].Slots() > 0
    ensures |m| <= Total(m, SlotsOf)
    decreases |m|
  {
    if m != map[] {
      var h :| h in m;
      TotalRemove(m, h, SlotsOf);
      SizeWithinTotal(m - {h});
      assert (m - {h}).Keys == m.Keys - {h} && |m| == |m.Keys|;
    }
  }

  lemma {:induction false} UnionTotal(a: map<Hash, Tx>, b: map<Hash, Tx>)
    requires forall h :: h in a ==> h !in b
    ensures Total(a + b, SlotsOf) == Total(a, SlotsOf) + Total(b, SlotsOf)
    decreases |a|
  {
    if a == map[] {
      assert a + b == b;
    } else {
      var h :| h in a;
      TotalRemove(a, h, SlotsOf);
      UnionTotal(a - {h}, b);
      UnionRemove(a, b, h);
    }
  }

  lemma UnionRemove(a: map<Hash, Tx>, b: map<Hash, Tx>, h: Hash)
    requires h in a && h !in b
    ensures Total(a + b, SlotsOf) == SlotsOf(a[h]) + Total((a - {h}) + b, SlotsOf)
  {
    TotalRemove(a + b, h, SlotsOf);
    assert (a + b) - {h} == (a - {h}) + b;
  }

  /** The slot count after a transaction was filed in place of `gone`, if any. */
  lemma FilingSlots(before: Lookup, after: Lookup, gone: set<Hash>, tx: Tx)
    requires before.Valid() && after.Valid() && before.SlotsExact() && after.SlotsExact() && !before.Has(tx.hash)
    requires after.Known() == (before.Known() - gone)[tx.hash := tx]
    ensures after.slots <= before.slots + tx.Slots() && (gone == {} ==> after.slots == before.slots + tx.Slots())
    ensures forall h :: after.Has(h) ==> before.Has(h) || h == tx.hash
  {
    UnionTotal(before.locals, before.remotes);
    UnionTotal(after.locals, after.remotes);
    var rest := before.Known() - gone;
    TotalUpdate(rest, tx.hash, tx, SlotsOf);
    assert rest - {tx.hash} == rest;
    assert gone == {} ==> rest == before.Known();
    TotalOfLess(before.Known(), gone);
    forall h | after.Has(h) ensures before.Has(h) || h == tx.hash {
      assert h in after.Known();
    }
  }

  lemma TotalOfLess(m: map<Hash, Tx>, gone: set<Hash>)
    ensures Total(m - gone, SlotsOf) <= Total(m, SlotsOf)
  {
    var out := map h | h in m && h in gone :: m[h];
    UnionTotal(out, m - gone);
    assert out + (m - gone) == m;
  }

  lemma AddSlots(t: Lookup, tx: Tx, local: bool)
    requires !t.Has(tx.hash) && t.SlotsExact()
    ensures t.Add(tx, local).SlotsExact()
  {
    TotalUpdate(t.locals, tx.hash, tx, SlotsOf);
    TotalUpdate(t.remotes, tx.hash, tx, SlotsOf);
  }

  lemma AddKnown(t: Lookup, tx: Tx, local: bool)
    requires t.Valid() && !t.Has(tx.hash)
    ensures t.Add(tx, local).Valid()
    ensures t.Add(tx, local).Known() == t.Known()[tx.hash := tx]
  {
  }

  lemma RemoveSlots(t: Lookup, h: Hash)
    requires t.Split() && t.SlotsExact()
    ensures t.Remove(h).SlotsExact()
  {
    if h in t.locals {
      TotalRemove(t.locals, h, SlotsOf);
      assert t.remotes - {h} == t.remotes;
    } else if h in t.remotes {
      TotalRemove(t.remotes, h, SlotsOf);
      assert t.locals - {h} == t.locals;
    }
  }

  lemma RemoveKnown(t: Lookup, h: Hash)
    requires t.Valid()
    ensures t.Remove(h).Valid()
    ensures t.Remove(h).Known() == t.Known() - {h}
    ensures t.Remove(h).remotes == t.remotes - {h} && t.Remove(h).locals == t.locals - {h}
  {
    if !t.Has(h) {
      assert t.remotes - {h} == t.remotes && t.locals - {h} == t.locals;
    }
  }

  function Migrate(t: Lookup, h: Hash): Lookup
    requires h in t.remotes
  {
    t.(locals := t.locals[h := t.remotes[h]], remotes := t.remotes - {h})
  }

  lemma MigrateSlots(t: Lookup, h: Hash)
    requires t.Split() && t.SlotsExact() && h in t.remotes
    ensures Migrate(t, h).SlotsExact()
    ensures |Migrate(t, h).remotes| == |t.remotes| - 1
  {
    TotalRemove(t.remotes, h, SlotsOf);
    TotalUpdate(t.locals, h, t.remotes[h], SlotsOf);
    assert (t.remotes - {h}).Keys == t.remotes.Keys - {h};
    assert |t.remotes - {h}| == |t.remotes.Keys - {h}|;
  }

  lemma MigrateKnown(t: Lookup, h: Hash)
    requires t.Valid() && h in t.remotes
    ensures Migrate(t, h).Valid() && Migrate(t, h).Known() == t.Known()
  {
  }

  /** Migrates the remote transactions of local accounts, in whatever order they come. */
  method RemoteToLocals(t: Lookup, accounts: set<Address>) returns (r: Lookup, migrated: nat)
    requires t.Valid() && t.SlotsExact()
    ensures r.Valid() && r.SlotsExact() && r.Known() == t.Known() && r.slots == t.slots
    ensures r.remotes == map h | h in t.remotes && t.remotes[h].sender !in accounts :: t.remotes[h]
    ensures migrated == |t.remotes| - |r.remotes|
  {
    r, migrated := t, 0;
    var todo := t.remotes.Keys;
    while todo != {}
      invariant Migrating(t, r, accounts, todo) && r.SlotsExact()
      invariant migrated == |t.remotes| - |r.remotes| && r.slots == t.slots
      decreases todo
    {
      var h :| h in todo;
      MigrationStep(t, r, accounts, todo, h);
      if r.remotes[h].sender in accounts {
        MigrateSlots(r, h);
        r, migrated := Migrate(r, h), migrated + 1;
      }
      todo := todo - {h};
    }
    MigrationEnd(t, r, accounts);
  }

  lemma MigrationEnd(t: Lookup, r: Lookup, accounts: set<Address>)
    requires Migrating(t, r, accounts, {})
    ensures r.remotes == map h | h in t.remotes && t.remotes[h].sender !in accounts :: t.remotes[h]
  {
  }

  /** The remote transactions with hash in `todo` are still to be looked at. */
  ghost predicate Migrating(t: Lookup, r: Lookup, accounts: set<Address>, todo: set<Hash>) {
    && r.Valid() && r.Known() == t.Known()
    && (forall h :: h in todo ==> h in r.remotes)
    && (forall h :: h in r.remotes ==> h in t.remotes && r.remotes[h] == t.remotes[h])
    && (forall h :: h in r.remotes ==> h in todo || t.remotes[h].sender !in accounts)
    && (forall h :: h in t.remotes && t.remotes[h].sender !in accounts ==> h in r.remotes)
  }

  lemma MigrationStep(t: Lookup, r: Lookup, accounts: set<Address>, todo: set<Hash>, h: Hash)
    requires Migrating(t, r, accounts, todo) && h in todo
    ensures Migrating(t, if r.remotes[h].sender in accounts then Migrate(r, h) else r, accounts, todo - {h})
  {
    MigrateKnown(r, h);
  }
}
