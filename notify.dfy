/**
 * The notification shown at the end of a sync: a full message when anything
 * was added or a conflict was resolved, a shorter "N quotes added" message
 * when the counters are zero but the list grew, and nothing otherwise.
 */
module Notify {
  import opened Quotes
  import opened Reconciliation

  datatype Notice =
    | SyncComplete(added: nat, conflicts: nat)
    | QuotesAdded(count: nat)
    | NoNotice

  /** The choice of message from the two counters and the list length before and after the pass. */
  function Choose(added: nat, conflicts: nat, lengthBefore: nat, lengthAfter: nat): (n: Notice)
    ensures n.SyncComplete? <==> added > 0 || conflicts > 0
    ensures n.SyncComplete? ==> n == SyncComplete(added, conflicts)
    ensures n.QuotesAdded? <==> added == 0 && conflicts == 0 && lengthBefore < lengthAfter
    ensures n.QuotesAdded? ==> n.count == lengthAfter - lengthBefore
  {
    if conflicts > 0 || added > 0 then SyncComplete(added, conflicts)
    else if lengthAfter > lengthBefore then QuotesAdded(lengthAfter - lengthBefore)
    else NoNotice
  }

  /** The notice a reconciliation pass over `batch` produces for the list `quotes`. */
  function PassNotice(quotes: seq<Quote>, batch: seq<Quote>): Notice {
    var r := Merge(Start(quotes), batch);
    Choose(r.added, r.conflicts, |quotes|, |r.quotes|)
  }

  /**
   * The shorter "quotes added" branch cannot be taken after a pass: the list
   * grows only by appends, and every append is counted. A pass is silent
   * exactly when both counters stay at zero, and then the length is unchanged.
   */
  lemma QuotesAddedUnreachable(quotes: seq<Quote>, batch: seq<Quote>)
    ensures !PassNotice(quotes, batch).QuotesAdded?
    ensures PassNotice(quotes, batch) == NoNotice <==>
      Merge(Start(quotes), batch).added == 0 && Merge(Start(quotes), batch).conflicts == 0
    ensures PassNotice(quotes, batch) == NoNotice ==> |Merge(Start(quotes), batch).quotes| == |quotes|
  {
  }

  /** A silent pass may still have rewritten a category. */
  lemma SilentPassCanChangeList()
    ensures var local := Quote("server-1", "t", "Work");
            var serverQ := Quote("server-1", "t", "Server-1");
            PassNotice([local], [serverQ]) == NoNotice && Merge(Start([local]), [serverQ]).quotes != [local]
  {
  }
}
