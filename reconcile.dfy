/**
 * The reconciliation pass of `syncWithServer`: each server quote, in batch
 * order, overwrites the first local quote with the same id (server data
 * wins) or, when no local quote has that id, is appended. Two counters
 * record what happened: `newQuotesAdded` for appends and `conflictsResolved`
 * for overwrites that changed the text.
 *
 * Merge is the specification of that loop as a left fold of Apply over the
 * batch; the method Store.Reconcile is proved to compute it, and the lemmas
 * here state what it guarantees.
 */
module Reconciliation {
  import opened Quotes

  /** The state the loop carries: the quote list and the two counters. */
  datatype Tally = Tally(quotes: seq<Quote>, added: nat, conflicts: nat)

  /** The state a sync starts from: the current list, both counters at zero. */
  function Start(quotes: seq<Quote>): Tally {
    Tally(quotes, 0, 0)
  }

  /** One iteration of the loop, for one server quote. */
  function Apply(t: Tally, serverQ: Quote): (r: Tally)
    ensures !HasId(t.quotes, serverQ.id) ==>
      r == Tally(t.quotes + [serverQ], t.added + 1, t.conflicts)
    ensures forall i :: FirstWith(t.quotes, serverQ.id, i) ==>
      r == Tally(t.quotes[i := serverQ], t.added,
                 if t.quotes[i].text != serverQ.text then t.conflicts + 1 else t.conflicts)
  {
    var existingIndex := FindIndex(t.quotes, serverQ.id);
    if existingIndex != -1 then
      Tally(t.quotes[existingIndex := serverQ], t.added,
            if t.quotes[existingIndex].text != serverQ.text then t.conflicts + 1 else t.conflicts)
    else
      Tally(t.quotes + [serverQ], t.added + 1, t.conflicts)
  }

  /** The whole loop: Apply to each server quote in batch order. */
  function Merge(t: Tally, batch: seq<Quote>): (r: Tally)
    ensures t.added <= r.added && t.conflicts <= r.conflicts
    ensures (r.added - t.added) + (r.conflicts - t.conflicts) <= |batch|
    ensures |r.quotes| == |t.quotes| + (r.added - t.added)
    decreases |batch|
  {
    if batch == [] then t
    else Apply(Merge(t, batch[..|batch| - 1]), batch[|batch| - 1])
  }

  /** Apply leaves every id other than the server quote's at the same first position with the same entry. */
  lemma ApplyKeepsOtherIds(t: Tally, serverQ: Quote, id: string)
    requires id != serverQ.id
    ensures FindIndex(Apply(t, serverQ).quotes, id) == FindIndex(t.quotes, id)
    ensures FindIndex(t.quotes, id) != -1 ==>
      Apply(t, serverQ).quotes[FindIndex(t.quotes, id)] == t.quotes[FindIndex(t.quotes, id)]
  {
    var r := Apply(t, serverQ);
    var e := FindIndex(t.quotes, serverQ.id);
    if e != -1 {
      assert FirstWith(t.quotes, serverQ.id, e);
    }
    var f := FindIndex(t.quotes, id);
    if f != -1 {
      FindIndexIsFirst(r.quotes, id, f);
    } else {
      assert !HasId(r.quotes, id);
    }
  }

  /** FindIndex is the one first position holding the id. */
  lemma FindIndexIsFirst(qs: seq<Quote>, id: string, i: int)
    requires FirstWith(qs, id, i)
    ensures FindIndex(qs, id) == i
  {
  }

  /** A local entry whose id no server quote carries keeps its value and its position. */
  lemma {:induction false} MergeKeepsUnmatched(t: Tally, batch: seq<Quote>, i: int)
    requires 0 <= i < |t.quotes|
    requires forall k :: 0 <= k < |batch| ==> batch[k].id != t.quotes[i].id
    ensures Merge(t, batch).quotes[i] == t.quotes[i]
    decreases |batch|
  {
    if batch != [] {
      var init := batch[..|batch| - 1];
      var last := batch[|batch| - 1];
      MergeKeepsUnmatched(t, init, i);
      ApplyKeepsOtherIds(Merge(t, init), last, t.quotes[i].id);
      var m := Merge(t, init);
      var e := FindIndex(m.quotes, last.id);
      if e != -1 {
        assert FirstWith(m.quotes, last.id, e);
      }
    }
  }

  /**
   * The loop never reorders or removes: every old position keeps its id and
   * holds either its old entry or a server quote; every new position holds a
   * server quote.
   */
  lemma {:induction false} MergeShape(t: Tally, batch: seq<Quote>)
    ensures forall i :: 0 <= i < |t.quotes| ==>
      Merge(t, batch).quotes[i].id == t.quotes[i].id &&
      (Merge(t, batch).quotes[i] == t.quotes[i] || Merge(t, batch).quotes[i] in batch)
    ensures forall i :: |t.quotes| <= i < |Merge(t, batch).quotes| ==> Merge(t, batch).quotes[i] in batch
    decreases |batch|
  {
    if batch != [] {
      var init := batch[..|batch| - 1];
      var last := batch[|batch| - 1];
      MergeShape(t, init);
      var m := Merge(t, init);
      var r := Merge(t, batch);
      assert r == Apply(m, last);
      var e := FindIndex(m.quotes, last.id);
      if e != -1 {
        assert FirstWith(m.quotes, last.id, e);
        assert r.quotes == m.quotes[e := last];
      } else {
        assert r.quotes == m.quotes + [last];
      }
      forall x | x in init ensures x in batch {
        var k :| 0 <= k < |init| && init[k] == x;
        assert batch[k] == x;
      }
    }
  }

  /**
   * Namespace non-interference: a batch of server ids never alters a quote
   * added on the page.
   */
  lemma LocalQuoteUntouched(t: Tally, batch: seq<Quote>, i: int)
    requires forall k :: 0 <= k < |batch| ==> HasPrefix(batch[k].id, SERVER_PREFIX)
    requires 0 <= i < |t.quotes| && HasPrefix(t.quotes[i].id, LOCAL_PREFIX)
    ensures Merge(t, batch).quotes[i] == t.quotes[i]
  {
    forall k | 0 <= k < |batch| ensures batch[k].id != t.quotes[i].id {
      NamespacesDisjoint(batch[k].id);
    }
    MergeKeepsUnmatched(t, batch, i);
  }

  /** A list without duplicate ids stays so: the loop appends only ids it did not find. */
  lemma {:induction false} MergePreservesUniqueIds(t: Tally, batch: seq<Quote>)
    requires UniqueIds(t.quotes)
    ensures UniqueIds(Merge(t, batch).quotes)
    decreases |batch|
  {
    if batch != [] {
      var init := batch[..|batch| - 1];
      var last := batch[|batch| - 1];
      MergePreservesUniqueIds(t, init);
      var m := Merge(t, init);
      var e := FindIndex(m.quotes, last.id);
      if e != -1 {
        assert FirstWith(m.quotes, last.id, e);
      }
    }
  }

  /**
   * A batch of distinct ids that are all new is appended as a whole, in batch
   * order, each quote counted as added and none as a conflict.
   */
  lemma {:induction false} MergeFresh(t: Tally, batch: seq<Quote>)
    requires UniqueIds(batch)
    requires forall k :: 0 <= k < |batch| ==> !HasId(t.quotes, batch[k].id)
    ensures Merge(t, batch) == Tally(t.quotes + batch, t.added + |batch|, t.conflicts)
    decreases |batch|
  {
    if batch != [] {
      var init := batch[..|batch| - 1];
      var last := batch[|batch| - 1];
      MergeFresh(t, init);
      assert !HasId(t.quotes + init, last.id) by {
        forall i | 0 <= i < |t.quotes + init| ensures (t.quotes + init)[i].id != last.id {
          if i >= |t.quotes| {
            assert (t.quotes + init)[i] == batch[i - |t.quotes|];
          }
        }
      }
      assert t.quotes + init + [last] == t.quotes + batch;
    }
  }

  /** Reconciling a batch of distinct ids into an empty list yields exactly the batch, all counted as added. */
  lemma MergeIntoEmpty(batch: seq<Quote>)
    requires UniqueIds(batch)
    ensures Merge(Start([]), batch) == Tally(batch, |batch|, 0)
  {
    MergeFresh(Start([]), batch);
    assert [] + batch == batch;
  }

  /** Every server quote is what the lookup finds under its id. */
  predicate Settled(qs: seq<Quote>, batch: seq<Quote>) {
    forall k :: 0 <= k < |batch| ==>
      FindIndex(qs, batch[k].id) != -1 && qs[FindIndex(qs, batch[k].id)] == batch[k]
  }

  /** After a pass with distinct ids, each server quote sits where its id is first found. */
  lemma {:induction false} MergeSettles(t: Tally, batch: seq<Quote>)
    requires UniqueIds(batch)
    ensures Settled(Merge(t, batch).quotes, batch)
    decreases |batch|
  {
    if batch != [] {
      var init := batch[..|batch| - 1];
      var last := batch[|batch| - 1];
      MergeSettles(t, init);
      var m := Merge(t, init);
      var r := Merge(t, batch);
      forall k | 0 <= k < |batch|
        ensures FindIndex(r.quotes, batch[k].id) != -1 && r.quotes[FindIndex(r.quotes, batch[k].id)] == batch[k]
      {
        if k < |batch| - 1 {
          assert init[k] == batch[k];
          ApplyKeepsOtherIds(m, last, batch[k].id);
        } else {
          var e := FindIndex(m.quotes, last.id);
          if e != -1 {
            assert FirstWith(m.quotes, last.id, e);
            FindIndexIsFirst(r.quotes, last.id, e);
          } else {
            assert FirstWith(r.quotes, last.id, |m.quotes|);
            FindIndexIsFirst(r.quotes, last.id, |m.quotes|);
          }
        }
      }
    }
  }

  /** A pass over a batch already in place changes nothing and counts nothing. */
  lemma {:induction false} MergeSettledIsNoOp(t: Tally, batch: seq<Quote>)
    requires Settled(t.quotes, batch)
    ensures Merge(t, batch) == t
    decreases |batch|
  {
    if batch != [] {
      var init := batch[..|batch| - 1];
      var last := batch[|batch| - 1];
      assert Settled(t.quotes, init) by {
        forall k | 0 <= k < |init| ensures init[k] == batch[k] { }
      }
      MergeSettledIsNoOp(t, init);
      var e := FindIndex(t.quotes, last.id);
      assert FirstWith(t.quotes, last.id, e);
      assert t.quotes[e := last] == t.quotes;
    }
  }

  /**
   * Idempotence: reconciling the same batch of distinct ids a second time
   * adds nothing, resolves no conflict and leaves the list as it was.
   */
  lemma ReconcileIdempotent(quotes: seq<Quote>, batch: seq<Quote>)
    requires UniqueIds(batch)
    ensures Merge(Start(Merge(Start(quotes), batch).quotes), batch) == Start(Merge(Start(quotes), batch).quotes)
  {
    var once := Merge(Start(quotes), batch).quotes;
    MergeSettles(Start(quotes), batch);
    MergeSettledIsNoOp(Start(once), batch);
  }

  /**
   * Without distinct ids idempotence fails: two server quotes sharing an id
   * with different texts keep overwriting each other, so every pass counts
   * conflicts.
   */
  lemma IdempotenceNeedsUniqueIds()
    ensures var batch := [Quote("server-1", "a", "Server-1"), Quote("server-1", "b", "Server-1")];
            var once := Merge(Start([]), batch);
            once == Tally([Quote("server-1", "b", "Server-1")], 1, 1) &&
            Merge(Start(once.quotes), batch) == Tally(once.quotes, 0, 2)
  {
  }

  /** The conflict example: a stored text replaced by the server's different text counts one conflict. */
  lemma TextChangeCountsConflict(local: Quote, serverQ: Quote)
    requires local.id == serverQ.id && local.text != serverQ.text
    ensures Merge(Start([local]), [serverQ]) == Tally([serverQ], 0, 1)
  {
  }

  /**
   * A category-only difference overwrites the entry but is not a conflict, so
   * a pass can change the list while both counters stay at zero.
   */
  lemma CategoryOnlyChangeUncounted(local: Quote, serverQ: Quote)
    requires local.id == serverQ.id && local.text == serverQ.text && local.category != serverQ.category
    ensures Merge(Start([local]), [serverQ]) == Tally([serverQ], 0, 0)
    ensures [serverQ] != [local]
  {
  }
}
