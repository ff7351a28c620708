/** The run results, read off the tables of a billing service object. */
module ServiceGuarantees {
  import opened Prelude
  import opened Ledger
  import opened Billing
  import opened BillingLaws
  import opened CreditLoops
  import opened CreditService
  import opened Guarantees

  // Sum of the account's rows in the ledger table.
  function EntrySum(entries: seq<Entry>, a: Ref): int {
    if |entries| == 0 then 0
    else
      var e := entries[|entries| - 1];
      EntrySum(entries[..|entries| - 1], a) + if e.account == a then e.amount else 0
  }

  lemma EntrySumAppend(entries: seq<Entry>, e: Entry, a: Ref)
    ensures EntrySum(entries + [e], a) == EntrySum(entries, a) + if e.account == a then e.amount else 0
  {
    assert (entries + [e])[..|entries|] == entries;
  }

  lemma {:induction false} PostedSum(j: seq<Item>, a: Ref)
    ensures EntrySum(Posted(j), a) == LedgerSum(j, a)
  {
    if |j| > 0 {
      var init, last := j[..|j| - 1], j[|j| - 1];
      PostedSum(init, a);
      assert LedgerSum(j, a) == LedgerSum(init, a) + if last.posted
        && last.entry.account == a then last.entry.amount else 0;
      PostedAppend(init, last);
      EntrySumAppend(Posted(init), last.entry, a);
      hide EntrySum, Posted, LedgerSum;
      assert j == init + [last];
      if last.posted {
        assert Posted(j) == Posted(init) + [last.entry];
      } else {
        assert Posted(j) == Posted(init) + [] == Posted(init);
      }
    }
  }

  // After any sequence of method calls the state is one that a run reaches, and the
  // ledger table sums to the buckets' balance plus the dropped credits.
  lemma ServiceConserves(service: BillingService, a: Ref)
    requires service.Valid()
    ensures Reachable(service.Snapshot())
    ensures EntrySum(service.entries, a) == Balance(service.buckets, a) + Unjournaled(service.journal, a)
  {
    hide Run, Init, OffersOk, LedgerSum, EntrySum, Balance, Unjournaled;
    assert Reachable(service.Snapshot());
    LedgerConservation(service.Snapshot(), a);
    PostedSum(service.journal, a);
  }
}
