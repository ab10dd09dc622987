/**
 * Category handling on the page: the filter applied before a random quote is
 * shown, the random pick itself, the option list of the category drop-down
 * (`'all'` followed by each category once, in first-seen order, as a JavaScript
 * `Set` keeps insertion order) and the restore of the saved filter.
 */
module Categories {
  import opened Wrappers
  import opened Quotes

  /** The filter value that selects every quote. */
  const ALL: string := "all"

  /** `quotes.filter(q => q.category === category)`. */
  function WithCategory(quotes: seq<Quote>, category: string): (r: seq<Quote>)
    ensures |r| <= |quotes|
    ensures forall q :: q in r ==> q in quotes && q.category == category
    ensures forall i :: 0 <= i < |quotes| && quotes[i].category == category ==> quotes[i] in r
    decreases |quotes|
  {
    if quotes == [] then []
    else
      var last := quotes[|quotes| - 1];
      WithCategory(quotes[..|quotes| - 1], category) + (if last.category == category then [last] else [])
  }

  /** Filtering keeps the original order: it distributes over concatenation. */
  lemma {:induction false} WithCategoryAppend(xs: seq<Quote>, ys: seq<Quote>, category: string)
    ensures WithCategory(xs + ys, category) == WithCategory(xs, category) + WithCategory(ys, category)
    decreases |ys|
  {
    if ys != [] {
      var init := ys[..|ys| - 1];
      var last := ys[|ys| - 1];
      assert (xs + ys)[..|xs + ys| - 1] == xs + init;
      WithCategoryAppend(xs, init, category);
    } else {
      assert xs + ys == xs;
    }
  }

  /** The quotes a random quote is drawn from: all of them for `'all'`, else those of the selected category. */
  function Filtered(quotes: seq<Quote>, selected: string): (r: seq<Quote>)
    ensures selected == ALL ==> r == quotes
    ensures selected != ALL ==> forall q :: q in r <==> q in quotes && q.category == selected
  {
    if selected == ALL then quotes else WithCategory(quotes, selected)
  }

  /** `Math.floor(u * n)` for `u` in [0, 1): always a valid index. */
  function RandomIndex(u: real, n: nat): (i: nat)
    requires 0.0 <= u < 1.0 && n > 0
    ensures i < n
  {
    var x := u * n as real;
    assert 0.0 <= x < n as real by {
      assert u * n as real < 1.0 * n as real;
    }
    x.Floor
  }

  /**
   * The quote shown for a filter and a random draw `u`; None when no quote
   * matches (the page then shows a "no quotes found" message).
   */
  function PickQuote(quotes: seq<Quote>, selected: string, u: real): (r: Option<Quote>)
    requires 0.0 <= u < 1.0
    ensures r.None? <==> (if selected == ALL then quotes == [] else forall q :: q in quotes ==> q.category != selected)
    ensures r.Some? ==> r.value in quotes && (selected == ALL || r.value.category == selected)
  {
    var filtered := Filtered(quotes, selected);
    if |filtered| == 0 then None
    else
      assert filtered[0] in filtered;
      Some(filtered[RandomIndex(u, |filtered|)])
  }

  /** The position of the first occurrence of `x` in `xs`. */
  function FirstIndexOf(xs: seq<string>, x: string): (i: nat)
    requires x in xs
    ensures i < |xs| && xs[i] == x && forall j :: 0 <= j < i ==> xs[j] != x
  {
    if xs[0] == x then 0 else 1 + FirstIndexOf(xs[1..], x)
  }

  /** `[...new Set(xs)]`: each element once, kept at its first occurrence. */
  function Distinct(xs: seq<string>): (r: seq<string>)
    ensures forall x :: x in r <==> x in xs
    ensures forall i, j :: 0 <= i < j < |r| ==> r[i] != r[j]
    decreases |xs|
  {
    if xs == [] then []
    else
      var d := Distinct(xs[..|xs| - 1]);
      var last := xs[|xs| - 1];
      assert forall x :: x in xs <==> x in xs[..|xs| - 1] || x == last;
      if last in d then d else d + [last]
  }

  /** Distinct lists the elements in the order they are first seen. */
  lemma {:induction false} DistinctFirstSeenOrder(xs: seq<string>, i: int, j: int)
    requires 0 <= i < j < |Distinct(xs)|
    ensures FirstIndexOf(xs, Distinct(xs)[i]) < FirstIndexOf(xs, Distinct(xs)[j])
    decreases |xs|
  {
    var p := xs[..|xs| - 1];
    var d := Distinct(p);
    var r := Distinct(xs);
    var last := xs[|xs| - 1];
    assert r[i] in p;
    FirstIndexOfPrefix(xs, p, r[i]);
    if j < |d| {
      assert r[i] == d[i] && r[j] == d[j];
      FirstIndexOfPrefix(xs, p, r[j]);
      DistinctFirstSeenOrder(p, i, j);
    } else {
      assert r[j] == last && last !in p;
      assert FirstIndexOf(xs, last) == |xs| - 1;
    }
  }

  lemma FirstIndexOfPrefix(xs: seq<string>, p: seq<string>, x: string)
    requires p <= xs && x in p
    ensures FirstIndexOf(xs, x) == FirstIndexOf(p, x)
  {
  }

  /** The category of every quote, in list order. */
  function CategoriesOf(quotes: seq<Quote>): (r: seq<string>)
    ensures |r| == |quotes| && forall i :: 0 <= i < |quotes| ==> r[i] == quotes[i].category
  {
    seq(|quotes|, i requires 0 <= i < |quotes| => quotes[i].category)
  }

  /**
   * The drop-down options: `'all'`, then each category once. A quote whose
   * category is itself `'all'` makes `'all'` appear twice, as in the page.
   */
  function CategoryOptions(quotes: seq<Quote>): (r: seq<string>)
    ensures |r| >= 1 && r[0] == ALL
    ensures forall c :: c in r[1..] <==> exists i :: 0 <= i < |quotes| && quotes[i].category == c
    ensures forall i, j :: 1 <= i < j < |r| ==> r[i] != r[j]
  {
    var r := [ALL] + Distinct(CategoriesOf(quotes));
    assert r[1..] == Distinct(CategoriesOf(quotes));
    r
  }

  /**
   * The filter selected after the options are rebuilt: the saved one when it
   * is present, non-empty and one of the options; `'all'` otherwise.
   */
  function RestoredFilter(quotes: seq<Quote>, saved: Option<string>): (r: string)
    ensures r in CategoryOptions(quotes)
    ensures r != ALL ==> saved == Some(r) && r != ""
    ensures saved.Some? && saved.value != "" && saved.value in CategoryOptions(quotes) ==> r == saved.value
  {
    var lastFilter := if saved.Some? && saved.value != "" then saved.value else ALL;
    if lastFilter in CategoryOptions(quotes) then lastFilter else ALL
  }
}
