/**
 * The quote record held in the page's global `quotes` list, the two id
 * namespaces (`server-<post id>` for records taken from the server,
 * `local-<timestamp>` for records added on the page), and the id lookup
 * (`Array.prototype.findIndex` on ids) the reconciler relies on.
 */
module Quotes {
  import opened Wrappers
  import opened Decimal

  datatype Quote = Quote(id: string, text: string, category: string)

  const SERVER_PREFIX: string := "server-"
  const LOCAL_PREFIX: string := "local-"

  predicate HasPrefix(s: string, prefix: string) {
    |prefix| <= |s| && s[..|prefix|] == prefix
  }

  /** The id given to the quote mapped from server post `postId`. */
  function ServerId(postId: nat): (id: string)
    ensures HasPrefix(id, SERVER_PREFIX)
  {
    SERVER_PREFIX + DecimalString(postId)
  }

  /** The id given to a quote added on the page at time `stamp`. */
  function LocalId(stamp: nat): (id: string)
    ensures HasPrefix(id, LOCAL_PREFIX)
  {
    LOCAL_PREFIX + DecimalString(stamp)
  }

  /** Recovers the post id from a server id; None for any other string. */
  function ServerPostId(id: string): Option<nat> {
    if HasPrefix(id, SERVER_PREFIX) then ParseDecimal(id[|SERVER_PREFIX|..]) else None
  }

  lemma ServerIdRoundTrip(postId: nat)
    ensures ServerPostId(ServerId(postId)) == Some(postId)
  {
    var id := ServerId(postId);
    assert id[|SERVER_PREFIX|..] == DecimalString(postId);
    RenderThenParse(postId);
  }

  /** Every string ServerPostId accepts is the server id of the number it yields. */
  lemma ServerPostIdRoundTrip(id: string)
    requires ServerPostId(id).Some?
    ensures ServerId(ServerPostId(id).value) == id
  {
    ParseThenRender(id[|SERVER_PREFIX|..]);
    assert id == id[..|SERVER_PREFIX|] + id[|SERVER_PREFIX|..];
  }

  /** Distinct posts get distinct quote ids. */
  lemma ServerIdInjective(a: nat, b: nat)
    ensures ServerId(a) == ServerId(b) <==> a == b
  {
    ServerIdRoundTrip(a);
    ServerIdRoundTrip(b);
  }

  /** Quotes added at distinct times get distinct ids. */
  lemma LocalIdInjective(a: nat, b: nat)
    ensures LocalId(a) == LocalId(b) <==> a == b
  {
    if LocalId(a) == LocalId(b) {
      assert LocalId(a)[|LOCAL_PREFIX|..] == DecimalString(a);
      assert LocalId(b)[|LOCAL_PREFIX|..] == DecimalString(b);
      DecimalInjective(a, b);
    }
  }

  /** No id lies in both namespaces: they already differ in their first character. */
  lemma NamespacesDisjoint(id: string)
    ensures HasPrefix(id, SERVER_PREFIX) ==> !HasPrefix(id, LOCAL_PREFIX)
  {
    if HasPrefix(id, SERVER_PREFIX) {
      assert id[0] == 's';
    }
  }

  /** Some entry of `qs` carries `id`. */
  predicate HasId(qs: seq<Quote>, id: string) {
    exists i :: 0 <= i < |qs| && qs[i].id == id
  }

  /** No two entries of `qs` share an id. */
  predicate UniqueIds(qs: seq<Quote>) {
    forall i, j :: 0 <= i < j < |qs| ==> qs[i].id != qs[j].id
  }

  /** Position `i` is the first in `qs` that holds `id`. */
  predicate FirstWith(qs: seq<Quote>, id: string, i: int) {
    0 <= i < |qs| && qs[i].id == id && forall j :: 0 <= j < i ==> qs[j].id != id
  }

  /** `findIndex(q => q.id === id)`: the first position holding `id`, or -1 when there is none. */
  function FindIndex(qs: seq<Quote>, id: string): (r: int)
    ensures -1 <= r < |qs|
    ensures r == -1 <==> !HasId(qs, id)
    ensures r != -1 ==> FirstWith(qs, id, r)
  {
    if qs == [] then -1
    else if qs[0].id == id then 0
    else
      var r := FindIndex(qs[1..], id);
      assert forall i :: 1 <= i < |qs| ==> qs[i] == qs[1..][i - 1];
      if r == -1 then -1 else r + 1
  }
}
