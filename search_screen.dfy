/** The search screen: a case-insensitive description search over the loaded transactions,
    newest first, and a local delete from the results. */
module SearchScreen {
  import opened Types
  import opened Text

  /** `tx.description.toLowerCase().includes(term.toLowerCase())` */
  predicate Matches(tx: Transaction, term: string)
  {
    Contains(ToLower(tx.description), ToLower(term))
  }

  /** The `filter` step: the matching transactions, each as often as in `txs`, in order. */
  function FilterByTerm(txs: seq<Transaction>, term: string): (r: seq<Transaction>)
    ensures forall x :: multiset(r)[x] == if Matches(x, term) then multiset(txs)[x] else 0
    ensures forall x :: x in r <==> x in txs && Matches(x, term)
  {
    if txs == [] then []
    else
      var r := (if Matches(txs[0], term) then [txs[0]] else []) + FilterByTerm(txs[1..], term);
      assert txs == [txs[0]] + txs[1..];
      assert multiset(txs) == multiset{txs[0]} + multiset(txs[1..]);
      r
  }

  /** Newest first by `time` (standing for `new Date(d).getTime()`). */
  predicate NewestFirst(s: seq<Transaction>, time: string -> int)
  {
    forall i, j :: 0 <= i < j < |s| ==> time(s[i].transactionDate) >= time(s[j].transactionDate)
  }

  /** Places `x` before the first element that is not newer than it. */
  function InsertNewestFirst(x: Transaction, s: seq<Transaction>, time: string -> int): (r: seq<Transaction>)
    requires NewestFirst(s, time)
    ensures NewestFirst(r, time)
    ensures multiset(r) == multiset{x} + multiset(s)
    ensures forall y :: y in r ==> y == x || y in s
  {
    if s == [] || time(x.transactionDate) >= time(s[0].transactionDate) then
      ConsNewestFirst(x, s, time);
      [x] + s
    else
      var tail := s[1..];
      var rest := InsertNewestFirst(x, tail, time);
      assert s == [s[0]] + tail;
      forall y | y in rest ensures time(s[0].transactionDate) >= time(y.transactionDate) {
        if y != x {
          var j :| 0 <= j < |tail| && tail[j] == y;
          assert s[j + 1] == y;
        }
      }
      ConsNewestFirst(s[0], rest, time);
      [s[0]] + rest
  }

  /** Putting in front an element at least as new as all others keeps the order. */
  lemma ConsNewestFirst(y: Transaction, s: seq<Transaction>, time: string -> int)
    requires NewestFirst(s, time)
    requires forall z :: z in s ==> time(y.transactionDate) >= time(z.transactionDate)
    ensures NewestFirst([y] + s, time)
  {
    var r := [y] + s;
    forall i, j | 0 <= i < j < |r| ensures time(r[i].transactionDate) >= time(r[j].transactionDate) {
      assert r[j] == s[j - 1];
      if i > 0 {
        assert r[i] == s[i - 1];
      } else {
        assert s[j - 1] in s;
      }
    }
  }

  /** The `sort` step: the comparator `time(b) - time(a)` orders newest first. */
  function SortNewestFirst(s: seq<Transaction>, time: string -> int): (r: seq<Transaction>)
    ensures NewestFirst(r, time)
    ensures multiset(r) == multiset(s)
  {
    if s == [] then []
    else
      assert s == [s[0]] + s[1..];
      InsertNewestFirst(s[0], SortNewestFirst(s[1..], time), time)
  }

  /** What `performSearch` shows for a non-blank term: exactly the matching transactions,
      with their multiplicities, newest first. */
  lemma SearchResultsAreTheMatches(txs: seq<Transaction>, term: string, time: string -> int)
    ensures NewestFirst(SortNewestFirst(FilterByTerm(txs, term), time), time)
    ensures forall x :: x in SortNewestFirst(FilterByTerm(txs, term), time) <==> x in txs && Matches(x, term)
    ensures multiset(SortNewestFirst(FilterByTerm(txs, term), time)) <= multiset(txs)
  {
    var f := FilterByTerm(txs, term);
    var r := SortNewestFirst(f, time);
    forall x ensures x in r <==> x in f {
      assert x in r <==> x in multiset(r);
      assert x in f <==> x in multiset(f);
    }
  }

  class SearchScreen {
    var results: seq<Transaction>
    var hasSearched: bool
    var isLoading: bool

    constructor ()
      ensures results == [] && !hasSearched && !isLoading
    {
      results := [];
      hasSearched := false;
      isLoading := false;
    }

    /** `performSearch` on the loaded list `txs`. A missing user or a blank term clears the
        results; `hasSearched` then records whether the trimmed term was non-empty. The
        filter itself uses the term untrimmed. */
    method PerformSearch(hasUser: bool, term: string, txs: seq<Transaction>, time: string -> int)
      modifies this
      ensures !hasUser || AllWhitespace(term) ==>
        results == [] && hasSearched == !AllWhitespace(term) && isLoading == old(isLoading)
      ensures hasUser && !AllWhitespace(term) ==> hasSearched && !isLoading
      ensures hasUser && !AllWhitespace(term) ==> results == SortNewestFirst(FilterByTerm(txs, term), time)
      ensures forall x :: x in results ==> x in txs && Matches(x, term)
      ensures NewestFirst(results, time)
    {
      var blank := Trim(term) == "";
      assert blank <==> AllWhitespace(term);
      if !hasUser || blank {
        results := [];
        hasSearched := !blank;
        return;
      }
      isLoading := true;
      hasSearched := true;
      var found := SortNewestFirst(FilterByTerm(txs, term), time);
      SearchResultsAreTheMatches(txs, term, time);
      results := found;
      isLoading := false;
    }

    /** `handleDelete`: removes the entries carrying `id` from the results only. */
    method HandleDelete(id: string)
      modifies this`results
      ensures results == RemoveById(old(results), id)
      ensures forall x :: x in results ==> x in old(results) && x.id != id
      ensures forall x: Transaction :: x.id != id ==> multiset(results)[x] == multiset(old(results))[x]
    {
      results := RemoveById(results, id);
    }
  }
}
