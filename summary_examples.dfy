/**
 * Worked instances of the two aggregations: the summary groups by the exact
 * category string and rounds half-up, while getSpendingByCategory ignores case.
 */
module SummaryExamples {
  import opened Model
  import opened JavaText
  import opened ChatService
  import TransactionService
  /** Half a cent rounds up. */
  lemma Fmt2RoundsHalfUp()
    ensures Fmt2(15.555) == "15.56"
  {
    assert Cents(15.555) == 1556;
    assert NatToDecimal(15) == "15";
  }

  /** A negative amount that rounds to zero keeps its minus sign. */
  lemma Fmt2KeepsSignOfTinyNegative()
    ensures Fmt2(-0.001) == "-0.00"
  {
    assert Cents(-0.001) == 0;
  }

  /** Whole amounts get two zero decimals. */
  lemma Fmt2PadsDecimals()
    ensures Fmt2(7.0) == "7.00"
  {
    assert Cents(7.0) == 700;
  }

  lemma KeysExample(a: Transaction, b: Transaction)
    requires a.category == "Food" && b.category == "Food"
    ensures DistinctCategories([a, b]) == ["Food"]
  {
    assert [a, b][..1] == [a];
    assert [a][..0] == [];
    assert DistinctCategories([a]) == ["Food"];
  }
  lemma TotalsExample(a: Transaction, b: Transaction)
    requires a.category == "Food" && a.amount == 10.555
    requires b.category == "Food" && b.amount == 5.0
    ensures CategoryTotals([a, b]) == map["Food" := 15.555]
  {
    assert [a, b][..1] == [a];
    assert [a][..0] == [];
    assert CategoryTotals([a]) == map["Food" := 10.555];
  }
  lemma SummaryExample(a: Transaction, b: Transaction)
    requires a.category == "Food" && a.amount == 10.555
    requires b.category == "Food" && b.amount == 5.0
    ensures SummarizeTransactions([a, b]) == "- Food: $15.56"
  {
    KeysExample(a, b);
    TotalsExample(a, b);
    RenderExample();
  }
  lemma SummaryLineExample()
    ensures SummaryLine("Food", 15.555) == "- Food: $15.56"
  {
    Fmt2RoundsHalfUp();
  }
  lemma RenderExample()
    ensures RenderSummary(map["Food" := 15.555], ["Food"]) == "- Food: $15.56"
  {
    SummaryLineExample();
    var line := SummaryLine("Food", 15.555);
    assert SummaryLines(map["Food" := 15.555], ["Food"]) == [line];
    assert Join([line], "\n") == line;
  }

  /** "Food" and "food" are one category for getSpendingByCategory... */
  lemma SpendingIgnoresCaseExample(a: Transaction, b: Transaction)
    requires a.category == "Food" && a.amount == 10.0
    requires b.category == "food" && b.amount == 5.0
    ensures TransactionService.SpendingByCategory([a, b], "FOOD") == 15.0
  {
    assert EqualsIgnoreCase("Food", "FOOD") && EqualsIgnoreCase("food", "FOOD");
    assert [a, b][1..] == [b];
    assert [b][1..] == [];
    assert TransactionService.MatchingCategory([a, b], "FOOD") == [a, b];
    assert [a, b][..1] == [a];
    assert [a][..0] == [];
    assert TransactionService.TotalSpending([a]) == 10.0;
    assert TransactionService.TotalSpending([a, b]) == 15.0;
  }

  /** ...but two groups, and so two summary lines, for the summary. */
  lemma SummaryKeepsCaseExample(a: Transaction, b: Transaction)
    requires a.category == "Food" && b.category == "food"
    ensures DistinctCategories([a, b]) == ["Food", "food"]
  {
    assert [a, b][..1] == [a];
    assert [a][..0] == [];
    assert DistinctCategories([a]) == ["Food"];
    assert "food" != "Food";
  }
}
