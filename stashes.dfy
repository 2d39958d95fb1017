/**
 * Stashes: money set aside inside an account. A stash is validated on its
 * name, goal and balance; destroying it first returns a positive balance to
 * the account as a locked credit transfer and removes its entries.
 */
module Stashes {
  import opened Wrappers
  import opened Text
  import opened Calendar
  import opened TransactionRules
  import opened Ledger
  import opened Transfers

  /** A valid stash never holds more than its goal, nor less than nothing. */
  lemma ValidStashWithinGoal(s: Stash, takenNames: set<string>)
    requires StashErrors(s, takenNames) == {}
    ensures 0 <= s.balance <= s.goal.value
  {
  }

  function UnstashDescription(name: string): string {
    "Transfer from " + name + " Stash (Stash Deleted)"
  }

  /** The entries left once those of stash `sid` are deleted (`dependent: :delete_all`). */
  function EntriesWithout(entries: map<TrxId, StashEntry>, sid: StashId): (r: map<TrxId, StashEntry>)
    ensures forall k :: k in r <==> k in entries && entries[k].stash != sid
    ensures forall k :: k in r ==> r[k] == entries[k]
  {
    map k | k in entries && entries[k].stash != sid :: entries[k]
  }

  /**
   * Destroying a stash. `unstash` runs first: a stash whose balance is not
   * positive returns nothing; otherwise a non-pending, locked credit transfer of
   * |balance| in the transfer category is saved to the stash's account, and
   * when that fails (no transfer category, an invalid record) the destroy is
   * aborted and nothing changes. A destroyed stash takes its entries with it.
   */
  method DestroyStash(books: Books, sid: StashId, transferCategory: Option<CategoryId>, date: Date)
    returns (destroyed: bool)
    requires books.Valid() && sid in books.stashes
    modifies books
    ensures books.Valid()
    ensures var s := old(books.stashes)[sid];
            destroyed <==> s.balance <= 0 || (transferCategory.Some? && |UnstashDescription(s.name)| <= 150)
    ensures !destroyed ==>
              books.accounts == old(books.accounts) && books.trxs == old(books.trxs) && books.nextId == old(books.nextId)
              && books.stashes == old(books.stashes) && books.stashEntries == old(books.stashEntries)
    ensures destroyed ==>
              books.stashes == old(books.stashes) - {sid}
              && books.stashEntries == EntriesWithout(old(books.stashEntries), sid)
    ensures destroyed && old(books.stashes)[sid].balance <= 0 ==>
              books.accounts == old(books.accounts) && books.trxs == old(books.trxs) && books.nextId == old(books.nextId)
    ensures destroyed && old(books.stashes)[sid].balance > 0 ==>
              var s := old(books.stashes)[sid];
              var d := Leg(s.account, UnstashDescription(s.name), s.balance, date, transferCategory);
              books.nextId == old(books.nextId) + 1
              && books.trxs == old(books.trxs)[old(books.nextId) := SavedLeg(d, s.balance, "credit", true)]
              && books.accounts == ApplyMoves(old(books.accounts), [Move(s.account, s.balance)])
    ensures books.batches == old(books.batches)
  {
    var s := books.stashes[sid];
    if s.balance > 0 {
      if transferCategory.None? {
        // `Category.transfer_category.id` raises: the destroy is aborted
        return false;
      }
      var saved := SaveLeg(books, s.account, UnstashDescription(s.name), s.balance, date, transferCategory, "credit", true);
      if !saved {
        return false;
      }
    }
    books.stashEntries := EntriesWithout(books.stashEntries, sid);
    books.stashes := books.stashes - {sid};
    destroyed := true;
  }
}
