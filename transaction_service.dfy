/**
 * TransactionService: the recent-transactions query and the two spending
 * aggregates, total and per category (ignoring case).
 */
module TransactionService {
  import opened Model
  import opened JavaText
  import Repository

  /** getRecentTransactions, with "today minus monthsBack months" supplied as fromDate. */
  function GetRecentTransactions(store: Repository.Store, clientId: ClientId, fromDate: Date)
    : (r: seq<Transaction>)
    ensures Repository.NewestFirst(r)
    ensures forall t :: t in r ==>
      (exists i :: 0 <= i < |store.rows| && Repository.InWindow(store.rows[i], clientId, fromDate)
                   && store.rows[i].tx == t)
    ensures forall i :: 0 <= i < |store.rows| && Repository.InWindow(store.rows[i], clientId, fromDate) ==>
      store.rows[i].tx in r
    ensures forall i :: 0 <= i < |store.rows| ==>
      multiset(r)[store.rows[i].tx] == Repository.WindowCount(store.rows, clientId, fromDate, store.rows[i].tx)
  {
    Repository.FindByClientIdAndDateAfter(store.rows, clientId, fromDate)
  }

  /** getTotalSpending: the amounts reduced with + from zero, left to right; without
      refunds (negative amounts) the total is not negative. */
  function TotalSpending(txs: seq<Transaction>): (r: real)
    ensures (forall t :: t in txs ==> t.amount >= 0.0) ==> r >= 0.0
  {
    if |txs| == 0 then 0.0
    else
      var init := txs[..|txs| - 1];
      assert forall t :: t in init ==> t in txs;
      assert txs[|txs| - 1] in txs;
      TotalSpending(init) + txs[|txs| - 1].amount
  }

  /** The stream filter of getSpendingByCategory: the transactions whose category
      equals the given one ignoring case, in list order. */
  function MatchingCategory(txs: seq<Transaction>, category: string): (r: seq<Transaction>)
    ensures forall t :: t in r ==> t in txs && EqualsIgnoreCase(t.category, category)
    ensures forall t :: t in txs && EqualsIgnoreCase(t.category, category) ==> t in r
    ensures forall t :: t in txs ==>
      multiset(r)[t] == if EqualsIgnoreCase(t.category, category) then multiset(txs)[t] else 0
    ensures |r| <= |txs|
  {
    if |txs| == 0 then []
    else
      var rest := MatchingCategory(txs[1..], category);
      assert forall t :: t in txs ==> t == txs[0] || t in txs[1..];
      assert txs == [txs[0]] + txs[1..];
      assert txs[0] !in txs[1..] ==> multiset(rest)[txs[0]] == 0 && multiset(txs[1..])[txs[0]] == 0;
      if EqualsIgnoreCase(txs[0].category, category) then [txs[0]] + rest else rest
  }

  /** The transactions getSpendingByCategory leaves out, in list order. */
  function OtherCategories(txs: seq<Transaction>, category: string): (r: seq<Transaction>)
    ensures forall t :: t in r ==> t in txs && !EqualsIgnoreCase(t.category, category)
    ensures forall t :: t in txs && !EqualsIgnoreCase(t.category, category) ==> t in r
    ensures forall t :: t in txs ==>
      multiset(r)[t] == if EqualsIgnoreCase(t.category, category) then 0 else multiset(txs)[t]
  {
    if |txs| == 0 then []
    else
      var rest := OtherCategories(txs[1..], category);
      assert forall t :: t in txs ==> t == txs[0] || t in txs[1..];
      assert txs == [txs[0]] + txs[1..];
      assert txs[0] !in txs[1..] ==> multiset(rest)[txs[0]] == 0 && multiset(txs[1..])[txs[0]] == 0;
      if EqualsIgnoreCase(txs[0].category, category) then rest else [txs[0]] + rest
  }

  /** getSpendingByCategory: the total of the transactions matching the category
      ignoring case; with the total of the others it makes up the total spending. */
  function SpendingByCategory(txs: seq<Transaction>, category: string): (r: real)
    ensures r + TotalSpending(OtherCategories(txs, category)) == TotalSpending(txs)
  {
    MatchingPartition(txs, category);
    TotalSpending(MatchingCategory(txs, category))
  }

  /** The total of no transactions is zero and the total of a concatenation is
      the sum of the totals: the reduction is a monoid homomorphism. */
  lemma {:induction false} TotalSpendingOfConcat(a: seq<Transaction>, b: seq<Transaction>)
    ensures TotalSpending([]) == 0.0
    ensures TotalSpending(a + b) == TotalSpending(a) + TotalSpending(b)
  {
    if |b| == 0 {
      assert a + b == a;
    } else {
      var b' := b[..|b| - 1];
      TotalSpendingOfConcat(a, b');
      assert (a + b)[..|a + b| - 1] == a + b';
    }
  }

  lemma TotalSpendingOfCons(t: Transaction, s: seq<Transaction>)
    ensures TotalSpending([t] + s) == t.amount + TotalSpending(s)
  {
    TotalSpendingOfConcat([t], s);
    assert [t][..0] == [];
  }

  /** Cutting out position i removes one occurrence of that element. */
  lemma MultisetWithoutAt(s: seq<Transaction>, i: int)
    requires 0 <= i < |s|
    ensures s == s[..i] + [s[i]] + s[i + 1..]
    ensures multiset(s[..i] + s[i + 1..]) == multiset(s) - multiset{s[i]}
  {
    assert s == s[..i] + [s[i]] + s[i + 1..];
  }

  lemma TotalSpendingOfSnoc(s: seq<Transaction>, t: Transaction)
    ensures TotalSpending(s + [t]) == TotalSpending(s) + t.amount
  {
    assert (s + [t])[..|s|] == s;
  }

  /** Taking the element at i out of the list takes its amount out of the total. */
  lemma {:induction false} TotalSpendingWithoutAt(s: seq<Transaction>, i: int)
    requires 0 <= i < |s|
    ensures TotalSpending(s) == TotalSpending(s[..i] + s[i + 1..]) + s[i].amount
  {
    CutThenSplitLast(s, i);
    if i < |s| - 1 {
      TotalSpendingWithoutAt(s[..|s| - 1], i);
    }
  }

  /** The total does not depend on the order of the list. */
  lemma {:induction false} TotalSpendingPermutation(a: seq<Transaction>, b: seq<Transaction>)
    requires multiset(a) == multiset(b)
    ensures TotalSpending(a) == TotalSpending(b)
  {
    if |a| == 0 {
      assert |b| == |multiset(b)| == 0;
    } else {
      var x := a[|a| - 1];
      assert x in b by {
        assert x in multiset(b);
      }
      var i :| 0 <= i < |b| && b[i] == x;
      assert multiset(a[..|a| - 1]) == multiset(b[..i] + b[i + 1..]) by {
        MultisetWithoutAt(a, |a| - 1);
        MultisetWithoutAt(b, i);
      }
      TotalSpendingPermutation(a[..|a| - 1], b[..i] + b[i + 1..]);
      TotalSpendingWithoutAt(b, i);
    }
  }

  /** Every transaction is counted once: among the matching ones or among the others. */
  lemma {:induction false} MatchingPartition(txs: seq<Transaction>, category: string)
    ensures TotalSpending(MatchingCategory(txs, category)) + TotalSpending(OtherCategories(txs, category))
         == TotalSpending(txs)
  {
    if |txs| > 0 {
      var head, tail := txs[0], txs[1..];
      SplitFirst(txs);
      MatchingPartition(tail, category);
      TotalSpendingOfCons(head, tail);
      if EqualsIgnoreCase(head.category, category) {
        assert MatchingCategory(txs, category) == [head] + MatchingCategory(tail, category);
        assert OtherCategories(txs, category) == OtherCategories(tail, category);
        TotalSpendingOfCons(head, MatchingCategory(tail, category));
      } else {
        assert MatchingCategory(txs, category) == MatchingCategory(tail, category);
        assert OtherCategories(txs, category) == [head] + OtherCategories(tail, category);
        TotalSpendingOfCons(head, OtherCategories(tail, category));
      }
    }
  }

  /** With no transaction in the category, the spending is zero. */
  lemma {:induction false} SpendingByCategoryNoMatch(txs: seq<Transaction>, category: string)
    requires forall t :: t in txs ==> !EqualsIgnoreCase(t.category, category)
    ensures SpendingByCategory(txs, category) == 0.0
  {
    if |txs| > 0 {
      assert txs[0] in txs;
      SpendingByCategoryNoMatch(txs[1..], category);
    }
  }

  lemma {:induction false} MatchingCaseVariant(txs: seq<Transaction>, c: string, d: string)
    requires EqualsIgnoreCase(c, d)
    ensures MatchingCategory(txs, c) == MatchingCategory(txs, d)
  {
    if |txs| > 0 {
      MatchingCaseVariant(txs[1..], c, d);
      EqualsIgnoreCaseIsEquivalence(txs[0].category, c, d);
      EqualsIgnoreCaseIsEquivalence(txs[0].category, d, c);
      EqualsIgnoreCaseIsEquivalence(c, d, c);
    }
  }

  /** A category and any case variant of it have the same spending. */
  lemma SpendingByCategoryCaseVariant(txs: seq<Transaction>, c: string, d: string)
    requires EqualsIgnoreCase(c, d)
    ensures SpendingByCategory(txs, c) == SpendingByCategory(txs, d)
  {
    MatchingCaseVariant(txs, c, d);
  }

  /** Without refunds (negative amounts), no category spends more than the total. */
  lemma SpendingByCategoryWithinTotal(txs: seq<Transaction>, category: string)
    requires forall t :: t in txs ==> t.amount >= 0.0
    ensures 0.0 <= SpendingByCategory(txs, category) <= TotalSpending(txs)
  {
    var matching, others := MatchingCategory(txs, category), OtherCategories(txs, category);
    assert forall t :: t in matching ==> t.amount >= 0.0;
    assert forall t :: t in others ==> t.amount >= 0.0;
  }
}
