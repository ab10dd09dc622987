/**
 * The page's global, mutable quote list and the two operations that change
 * it: the sync with the server (map the fetched posts, reconcile them into
 * the list in place, choose the notification) and adding a quote from the
 * form.
 */
module QuoteStore {
  import opened Quotes
  import opened ServerPosts
  import opened Reconciliation
  import opened Notify

  /** What the fetch delivered: a failure (network error, status not ok, undecodable body) or the posts. */
  datatype FetchResult = FetchFailed | Fetched(serverData: seq<Post>)

  /**
   * How a sync ended: with the error message shown because the fetch failed,
   * or with the notice chosen after the merge.
   */
  datatype SyncReport = SyncFailed | Synced(notice: Notice)

  class Store {
    var quotes: seq<Quote>

    constructor (initial: seq<Quote>)
      ensures quotes == initial
    {
      quotes := initial;
    }

    /**
     * The reconciliation loop: for each server quote in order, overwrite the
     * first quote with its id (counting a conflict when the text differs) or
     * append it (counting it as added).
     */
    method Reconcile(serverQuotes: seq<Quote>) returns (newQuotesAdded: nat, conflictsResolved: nat)
      modifies this
      ensures Tally(quotes, newQuotesAdded, conflictsResolved) == Merge(Start(old(quotes)), serverQuotes)
      ensures |quotes| == |old(quotes)| + newQuotesAdded
    {
      newQuotesAdded, conflictsResolved := 0, 0;
      for k := 0 to |serverQuotes|
        invariant Tally(quotes, newQuotesAdded, conflictsResolved) == Merge(Start(old(quotes)), serverQuotes[..k])
      {
        var serverQ := serverQuotes[k];
        var existingIndex := FindIndex(quotes, serverQ.id);
        if existingIndex != -1 {
          assert FirstWith(quotes, serverQ.id, existingIndex);
          if quotes[existingIndex].text != serverQ.text {
            conflictsResolved := conflictsResolved + 1;
          }
          quotes := quotes[existingIndex := serverQ];
        } else {
          quotes := quotes + [serverQ];
          newQuotesAdded := newQuotesAdded + 1;
        }
        assert serverQuotes[..k + 1][..k] == serverQuotes[..k];
      }
      assert serverQuotes[..|serverQuotes|] == serverQuotes;
    }

    /**
     * One sync pass with the fetch's outcome as input. A failed fetch leaves
     * the list alone; otherwise the first five posts are reconciled and the
     * notice is chosen from the counters and the lengths.
     */
    method SyncWithServer(response: FetchResult) returns (report: SyncReport)
      modifies this
      ensures response.FetchFailed? ==> report == SyncFailed && quotes == old(quotes)
      ensures response.Fetched? ==>
        var r := Merge(Start(old(quotes)), ServerQuotes(response.serverData));
        quotes == r.quotes && report == Synced(Choose(r.added, r.conflicts, |old(quotes)|, |quotes|))
      ensures report.Synced? ==> !report.notice.QuotesAdded?
    {
      if response.FetchFailed? {
        return SyncFailed;
      }
      var serverQuotes := ServerQuotes(response.serverData);
      var quotesBeforeSync := |quotes|;
      var added, conflicts := Reconcile(serverQuotes);
      report := Synced(Choose(added, conflicts, quotesBeforeSync, |quotes|));
    }

    /**
     * The add-quote form: when both fields are non-empty (no trimming), append
     * a quote with id `local-<now>`; otherwise change nothing.
     */
    method AddQuote(text: string, category: string, now: nat) returns (added: bool)
      modifies this
      ensures added <==> text != "" && category != ""
      ensures added ==> quotes == old(quotes) + [Quote(LocalId(now), text, category)]
      ensures !added ==> quotes == old(quotes)
    {
      added := text != "" && category != "";
      if added {
        var newId := LocalId(now);
        quotes := quotes + [Quote(newId, text, category)];
      }
    }
  }

  /** A sync never alters a quote added on the page. */
  lemma SyncKeepsLocalQuotes(quotes: seq<Quote>, serverData: seq<Post>, i: int)
    requires 0 <= i < |quotes| && HasPrefix(quotes[i].id, LOCAL_PREFIX)
    ensures Merge(Start(quotes), ServerQuotes(serverData)).quotes[i] == quotes[i]
  {
    LocalQuoteUntouched(Start(quotes), ServerQuotes(serverData), i);
  }

  /**
   * Syncing twice with the same posts (distinct ids among the first five):
   * the second pass leaves the list as the first left it and shows no notice.
   */
  lemma SecondSyncIsQuiet(quotes: seq<Quote>, serverData: seq<Post>)
    requires DistinctLeadingPostIds(serverData)
    ensures var once := Merge(Start(quotes), ServerQuotes(serverData)).quotes;
            Merge(Start(once), ServerQuotes(serverData)).quotes == once &&
            PassNotice(once, ServerQuotes(serverData)) == NoNotice
  {
    ServerQuotesUniqueIds(serverData);
    ReconcileIdempotent(quotes, ServerQuotes(serverData));
  }

  /**
   * Adding a quote keeps ids unique when every existing id is a server id or
   * the local id of another time stamp.
   */
  lemma AddQuoteKeepsUniqueIds(quotes: seq<Quote>, text: string, category: string, now: nat)
    requires UniqueIds(quotes)
    requires forall i :: 0 <= i < |quotes| ==>
      HasPrefix(quotes[i].id, SERVER_PREFIX) || exists stamp: nat :: stamp != now && quotes[i].id == LocalId(stamp)
    ensures UniqueIds(quotes + [Quote(LocalId(now), text, category)])
  {
    forall i | 0 <= i < |quotes| ensures quotes[i].id != LocalId(now) {
      if HasPrefix(quotes[i].id, SERVER_PREFIX) {
        NamespacesDisjoint(quotes[i].id);
      } else {
        var stamp: nat :| stamp != now && quotes[i].id == LocalId(stamp);
        LocalIdInjective(stamp, now);
      }
    }
  }
}
