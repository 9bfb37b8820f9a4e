/**
 * ChatService: the conversation sent to the completion API (system-prompt
 * injection, message mapping, reply wrapping), the system prompt built from
 * a client's recent spending, and the per-session history map.
 */
module ChatService {
  import opened Wrappers
  import opened Model
  import opened JavaText
  import opened Repository
  import TransactionService

  const SystemRole: string := "system"
  const AssistantRole: string := "assistant"

  /** Default of the openai.model property. */
  const DefaultModel: string := "gpt-4"

  /** Fixed generation parameters of every request. */
  const Temperature: real := 0.7
  const MaxTokens: int := 500

  // ---------------------------------------------------------------------
  // Prompt texts, as the Java text blocks evaluate (incidental indentation
  // stripped, four spaces kept, a final newline)
  // ---------------------------------------------------------------------

  /** The first line both system texts share. */
  const Greeting: string := "    Si osobný bankový asistent s umelou inteligenciou.\n"

  /** The system text used when the client has no recent transactions. */
  const FallbackPrompt: string :=
    Greeting
    + "    Momentálne" + " nemáme dostupné žiadne finančné údaje o klientovi.\n"
    + "    Poskytuj všeobecné rady, ako šetriť peniaze a pritom si udržať súčasný životný štýl.\n"
    + "    Buď priateľský, praktický a motivujúci.\n"

  /** The template's text before the client-name slot. */
  const PromptHead: string :=
    Greeting
    + "    Tvojou" + " úlohou je pomôcť klientovi "

  /** The template's text between the client-name slot and the summary slot. */
  const PromptMiddle: string :=
    " udržať si svoj životný štýl, a zároveň zlepšiť jeho finančnú disciplínu.\n"
    + "\n"
    + "    Na základe transakcií z posledných 3 mesiacov sú výdavkové návyky klienta nasledovné:\n"
    + "    "

  /** The template's text after the summary slot. */
  const PromptTail: string :=
    "\n"
    + "\n"
    + "    Poskytuj konkrétne a realistické odporúčania.\n"
    + "    Buď povzbudivý a empatický, nikdy neodsudzujúci.\n"
    + "    Vyhni sa radikálnym škrtom, pokiaľ nie sú úplne nevyhnutné.\n"
    + "    Tvoje rady by mali byť praktické, ľahko uskutočniteľné a mali by pomôcť klientovi ušetriť "
    + "peniaze bez výrazného obmedzenia kvality života.\n"

  /** The template with the client's name and the spending summary in its two slots:
      the text opens with the fixed head, the name, the fixed middle and the summary,
      in that order, and only the fixed tail follows. */
  function SystemPrompt(name: string, summary: string): (r: string)
    ensures Filled(r, PromptHead, name, PromptMiddle, summary, PromptTail)
  {
    FillTemplate(PromptHead, name, PromptMiddle, summary, PromptTail);
    PromptHead + (name + (PromptMiddle + summary + PromptTail))
  }

  /** A filled template never reads as the fallback text. */
  lemma SystemPromptIsNotFallback(name: string, summary: string)
    ensures SystemPrompt(name, summary) != FallbackPrompt
  {
    FallbackLeavesTemplateHead();
    assert SystemPrompt(name, summary)[|Greeting| + 4] == PromptHead[|Greeting| + 4];
  }

  /** r is the template head, name, middle, summary, tail with the two values in
      their slots: it opens with head, name, middle and summary in that order, and
      exactly the tail follows. */
  predicate Filled(r: string, head: string, name: string, middle: string, summary: string, tail: string)
  {
    && head + name + middle + summary <= r
    && |r| == |head| + |name| + |middle| + |summary| + |tail|
    && r[|r| - |tail|..] == tail
  }

  /** Text filled into the two slots of a template follows the fixed parts before
      it, in order, and only the tail comes after it. */
  lemma FillTemplate(head: string, name: string, middle: string, summary: string, tail: string)
    ensures Filled(head + (name + (middle + summary + tail)), head, name, middle, summary, tail)
  {
    assert head + (name + (middle + summary + tail)) == (head + name + middle + summary) + tail;
  }

  /** The fallback text and the template agree on the greeting and part from the
      second line's first letter on. */
  lemma FallbackLeavesTemplateHead()
    ensures |Greeting| + 4 < |PromptHead| && |Greeting| + 4 < |FallbackPrompt|
    ensures FallbackPrompt[|Greeting| + 4] != PromptHead[|Greeting| + 4]
  {
    assert "    Momentálne"[4] == 'M' && "    Tvojou"[4] == 'T';
  }

  // ---------------------------------------------------------------------
  // Messages exchanged with the completion API
  // ---------------------------------------------------------------------

  /** The API's own chat message: a role and a text. */
  datatype ApiMessage = ApiMessage(role: string, content: string)

  datatype ChatCompletionRequest =
    ChatCompletionRequest(model: string, messages: seq<ApiMessage>, temperature: real, maxTokens: int)

  /** What a completion call yields: the candidate replies, or a failure of the call. */
  datatype Completion = Completed(choices: seq<ApiMessage>) | Unavailable

  /** The ways a chat call fails: an unknown client id, a failed API call, or a
      response without any choice. */
  datatype ChatError = ClientNotFound(clientId: ClientId) | UpstreamFailure | NoChoices

  // ---------------------------------------------------------------------
  // summarizeTransactions: group by exact category, sum, render
  // ---------------------------------------------------------------------

  /** The distinct category strings (case-sensitive) of a list of transactions. */
  function CategoriesOf(txs: seq<Transaction>): set<string>
  {
    set t | t in txs :: t.category
  }

  /** The transactions whose category is exactly c, in list order. */
  function WithCategory(txs: seq<Transaction>, c: string): (r: seq<Transaction>)
    ensures forall u :: u in r ==> u in txs && u.category == c
    ensures c !in CategoriesOf(txs) ==> r == []
  {
    if |txs| == 0 then []
    else
      var init := txs[..|txs| - 1];
      var last := txs[|txs| - 1];
      assert forall u :: u in init ==> u in txs;
      assert CategoriesOf(init) <= CategoriesOf(txs) by {
        forall t | t in init ensures t in txs { }
      }
      WithCategory(init, c) + (if last.category == c then [last] else [])
  }

  /** The group of c holds each transaction of category c as often as the list
      does, and nothing else. */
  lemma {:induction false} WithCategoryCount(txs: seq<Transaction>, c: string, u: Transaction)
    ensures multiset(WithCategory(txs, c))[u] == if u.category == c then multiset(txs)[u] else 0
  {
    if |txs| > 0 {
      var init, last := txs[..|txs| - 1], txs[|txs| - 1];
      var tail := if last.category == c then [last] else [];
      WithCategoryCount(init, c, u);
      assert WithCategory(txs, c) == WithCategory(init, c) + tail;
      MultisetOfSnoc(txs);
    }
  }

  /** The reference value of one group: the sum of the amounts of exactly the
      transactions in category c. */
  function ExactCategoryTotal(txs: seq<Transaction>, c: string): real
  {
    TransactionService.TotalSpending(WithCategory(txs, c))
  }

  lemma CategoriesOfSnoc(s: seq<Transaction>, t: Transaction)
    ensures CategoriesOf(s + [t]) == CategoriesOf(s) + {t.category}
  {
    assert forall u :: u in s + [t] ==> u in s || u == t;
  }

  /** Adding a transaction at the end adds its amount to its own group only. */
  lemma ExactCategoryTotalOfSnoc(s: seq<Transaction>, t: Transaction, c: string)
    ensures ExactCategoryTotal(s + [t], c)
         == ExactCategoryTotal(s, c) + (if t.category == c then t.amount else 0.0)
  {
    assert (s + [t])[..|s|] == s;
    TransactionService.TotalSpendingOfSnoc(WithCategory(s, c), t);
    assert WithCategory(s, c) + [] == WithCategory(s, c);
  }

  /** Collectors.groupingBy(category, reducing(ZERO, add)) over the list: one key per
      distinct category, holding the sum of exactly that category's amounts. */
  function CategoryTotals(txs: seq<Transaction>): (m: map<string, real>)
    ensures m.Keys == CategoriesOf(txs)
    ensures forall c :: c in m ==> m[c] == ExactCategoryTotal(txs, c)
  {
    if |txs| == 0 then map[]
    else
      var init, t := txs[..|txs| - 1], txs[|txs| - 1];
      var prev := CategoryTotals(init);
      CategoryTotalsStep(init, t, prev);
      SplitLast(txs);
      AddToGroup(prev, t)
  }

  /** The accumulation of one transaction into the grouping map: its category gains a
      key if it had none (starting from ZERO), that key's value grows by the amount,
      and every other key keeps its value. */
  function AddToGroup(prev: map<string, real>, t: Transaction): (m: map<string, real>)
    ensures m.Keys == prev.Keys + {t.category}
    ensures t.category in prev ==> m[t.category] == prev[t.category] + t.amount
    ensures t.category !in prev ==> m[t.category] == t.amount
    ensures forall c :: c in prev && c != t.category ==> m[c] == prev[c]
  {
    prev[t.category := (if t.category in prev then prev[t.category] else 0.0) + t.amount]
  }

  /** One step of the grouping fold keeps the map equal to the reference groups. */
  lemma CategoryTotalsStep(init: seq<Transaction>, t: Transaction, prev: map<string, real>)
    requires prev.Keys == CategoriesOf(init)
    requires forall c :: c in prev ==> prev[c] == ExactCategoryTotal(init, c)
    ensures AddToGroup(prev, t).Keys == CategoriesOf(init + [t])
    ensures forall c :: c in AddToGroup(prev, t) ==> AddToGroup(prev, t)[c] == ExactCategoryTotal(init + [t], c)
  {
    var m := AddToGroup(prev, t);
    CategoriesOfSnoc(init, t);
    assert m.Keys == prev.Keys + {t.category};
    forall c | c in m ensures m[c] == ExactCategoryTotal(init + [t], c) {
      ExactCategoryTotalOfSnoc(init, t, c);
      if c != t.category {
        assert m[c] == prev[c];
      } else if c !in prev {
        assert WithCategory(init, c) == [];
        assert m[c] == 0.0 + t.amount;
      }
    }
  }

  predicate NoDuplicates(keys: seq<string>)
  {
    forall i, j :: 0 <= i < j < |keys| ==> keys[i] != keys[j]
  }

  /** keys lists every element of s exactly once: an iteration order of s. */
  predicate IsEnumeration(keys: seq<string>, s: set<string>)
  {
    && NoDuplicates(keys)
    && (forall i :: 0 <= i < |keys| ==> keys[i] in s)
    && (forall k :: k in s ==> k in keys)
  }

  /** The categories in order of first occurrence: the iteration order this model
      gives the grouping map (the Java HashMap leaves it unspecified). */
  function DistinctCategories(txs: seq<Transaction>): (keys: seq<string>)
    ensures IsEnumeration(keys, CategoriesOf(txs))
  {
    if |txs| == 0 then []
    else
      var init := txs[..|txs| - 1];
      var t := txs[|txs| - 1];
      var prev := DistinctCategories(init);
      SplitLast(txs);
      CategoriesOfSnoc(init, t);
      if t.category in prev then prev else prev + [t.category]
  }

  /** One summary line, "- <category>: $<amount to two places>": it names its
      category and its rendered amount back whatever characters the category holds,
      since the amount part has no ':'. */
  function SummaryLine(category: string, amount: real): (line: string)
    ensures "- " <= line
    ensures LineCategory(line) == category
    ensures LineAmount(line) == Fmt2(amount)
    ensures '\n' !in category ==> '\n' !in line
  {
    LineCategoryBeforeAmount(category, Fmt2(amount));
    "- " + category + ": $" + Fmt2(amount)
  }

  /** The lines of the summary, one per key, in the order of the keys. */
  function SummaryLines(totals: map<string, real>, keys: seq<string>): seq<string>
    requires forall i :: 0 <= i < |keys| ==> keys[i] in totals
  {
    if |keys| == 0 then []
    else [SummaryLine(keys[0], totals[keys[0]])] + SummaryLines(totals, keys[1..])
  }

  /** The rendered summary: the lines joined by newlines. When no key holds a
      newline, the text splits at its newlines back into exactly those lines: single
      separators, none before the first line or after the last. */
  function RenderSummary(totals: map<string, real>, keys: seq<string>): (r: string)
    requires forall i :: 0 <= i < |keys| ==> keys[i] in totals
    ensures |keys| == 0 ==> r == ""
    ensures |keys| > 0 ==> "- " <= r
    ensures |keys| > 0 && (forall i :: 0 <= i < |keys| ==> '\n' !in keys[i]) ==>
      Split(r, '\n') == SummaryLines(totals, keys)
  {
    SummaryLinesSplitBack(totals, keys);
    Join(SummaryLines(totals, keys), "\n")
  }

  /** summarizeTransactions, with the grouping map iterated in first-occurrence order:
      empty exactly for no transactions, and otherwise, for newline-free categories,
      splitting back into one line per distinct category. */
  function SummarizeTransactions(txs: seq<Transaction>): (r: string)
    ensures |txs| == 0 <==> r == ""
    ensures |txs| > 0 && (forall t :: t in txs ==> '\n' !in t.category) ==>
      Split(r, '\n') == SummaryLines(CategoryTotals(txs), DistinctCategories(txs))
  {
    var keys := DistinctCategories(txs);
    assert |txs| > 0 ==> |keys| > 0 by {
      if |txs| > 0 {
        assert txs[0].category in CategoriesOf(txs);
      }
    }
    assert (forall t :: t in txs ==> '\n' !in t.category) ==> forall i :: 0 <= i < |keys| ==> '\n' !in keys[i] by {
      forall i | 0 <= i < |keys| ensures keys[i] in CategoriesOf(txs) { }
    }
    RenderSummary(CategoryTotals(txs), keys)
  }

  /** The position of the last occurrence of c in s, or -1. */
  function LastIndexOf(s: string, c: char): (i: int)
    ensures -1 <= i < |s|
    ensures 0 <= i ==> s[i] == c && c !in s[i + 1..]
    ensures i == -1 ==> c !in s
  {
    if |s| == 0 then -1
    else if s[|s| - 1] == c then |s| - 1
    else
      var i := LastIndexOf(s[..|s| - 1], c);
      SplitLast(s);
      i
  }

  /** The category a summary line names: what lies between the leading "- " and
      the last ':'. */
  function LineCategory(line: string): string
  {
    var k := LastIndexOf(line, ':');
    if 2 <= k then line[2..k] else ""
  }

  /** The amount text a summary line carries: what follows ": $" at the last ':'. */
  function LineAmount(line: string): string
  {
    var k := LastIndexOf(line, ':');
    if 0 <= k && k + 3 <= |line| then line[k + 3..] else ""
  }

  lemma {:induction false} LastIndexOfBeforeTail(p: string, c: char, t: string)
    requires c !in t
    ensures LastIndexOf(p + [c] + t, c) == |p|
  {
    if |t| > 0 {
      var t' := t[..|t| - 1];
      LastIndexOfBeforeTail(p, c, t');
      assert (p + [c] + t)[..|p + [c] + t| - 1] == p + [c] + t';
    } else {
      assert p + [c] + t == p + [c];
    }
  }

  /** The category and the amount text are read back from "- <category>: $<text>"
      whenever the text has no ':'. */
  lemma LineCategoryBeforeAmount(category: string, text: string)
    requires ':' !in text
    ensures LineCategory("- " + category + ": $" + text) == category
    ensures LineAmount("- " + category + ": $" + text) == text
  {
    var p := "- " + category;
    var t := " $" + text;
    assert "- " + category + ": $" + text == p + [':'] + t;
    LastIndexOfBeforeTail(p, ':', t);
    assert (p + [':'] + t)[2..|p|] == category;
    assert (p + [':'] + t)[|p| + 3..] == text;
  }

  /** For any iteration order of the grouping map, the summary has one line per
      distinct category: line i names key i and carries the exact sum of that
      category's amounts, every category has a line, and no two lines name the
      same category. */
  lemma SummaryOneLinePerCategory(txs: seq<Transaction>, keys: seq<string>)
    requires IsEnumeration(keys, CategoriesOf(txs))
    ensures var lines := SummaryLines(CategoryTotals(txs), keys);
      && |lines| == |keys| == |CategoriesOf(txs)|
      && (forall i :: 0 <= i < |lines| ==>
            LineCategory(lines[i]) == keys[i]
            && LineAmount(lines[i]) == Fmt2(ExactCategoryTotal(txs, keys[i]))
            && lines[i] == SummaryLine(keys[i], ExactCategoryTotal(txs, keys[i])))
      && (forall c :: c in CategoriesOf(txs) ==>
            exists i :: 0 <= i < |lines| && LineCategory(lines[i]) == c)
      && (forall i, j :: 0 <= i < j < |lines| ==> LineCategory(lines[i]) != LineCategory(lines[j]))
  {
    var totals := CategoryTotals(txs);
    var lines := SummaryLines(totals, keys);
    SummaryLinesShape(totals, keys);
    forall i | 0 <= i < |keys|
      ensures LineCategory(lines[i]) == keys[i]
      ensures LineAmount(lines[i]) == Fmt2(ExactCategoryTotal(txs, keys[i]))
    {
      assert lines[i] == SummaryLine(keys[i], totals[keys[i]]);
    }
    EnumerationSize(keys, CategoriesOf(txs));
  }

  /** A duplicate-free listing of a set is as long as the set is large. */
  lemma {:induction false} EnumerationSize(keys: seq<string>, s: set<string>)
    requires IsEnumeration(keys, s)
    ensures |keys| == |s|
  {
    if |keys| > 0 {
      var rest := keys[1..];
      assert IsEnumeration(rest, s - {keys[0]}) by {
        forall k | k in s - {keys[0]} ensures k in rest {
          var i :| 0 <= i < |keys| && keys[i] == k;
          assert rest[i - 1] == k;
        }
      }
      EnumerationSize(rest, s - {keys[0]});
    } else {
      assert forall k :: k !in s;
      assert s == {};
    }
  }

  /** In a duplicate-free listing of s every element of s occurs once, others never. */
  lemma {:induction false} EnumerationMultiplicity(keys: seq<string>, s: set<string>, k: string)
    requires IsEnumeration(keys, s)
    ensures multiset(keys)[k] == if k in s then 1 else 0
  {
    if |keys| > 0 {
      var rest := keys[1..];
      assert keys == [keys[0]] + rest;
      assert IsEnumeration(rest, s - {keys[0]}) by {
        forall x | x in s - {keys[0]} ensures x in rest {
          var i :| 0 <= i < |keys| && keys[i] == x;
          assert rest[i - 1] == x;
        }
      }
      EnumerationMultiplicity(rest, s - {keys[0]}, k);
    }
  }

  /** Two duplicate-free listings of the same set are permutations of each other. */
  lemma EnumerationsArePermutations(a: seq<string>, b: seq<string>, s: set<string>)
    requires IsEnumeration(a, s) && IsEnumeration(b, s)
    ensures multiset(a) == multiset(b)
  {
    forall k ensures multiset(a)[k] == multiset(b)[k] {
      EnumerationMultiplicity(a, s, k);
      EnumerationMultiplicity(b, s, k);
    }
  }

  /** Line i of the summary renders key i with its value, for every i. */
  lemma {:induction false} SummaryLinesShape(totals: map<string, real>, keys: seq<string>)
    requires forall i :: 0 <= i < |keys| ==> keys[i] in totals
    ensures |SummaryLines(totals, keys)| == |keys|
    ensures forall i :: 0 <= i < |keys| ==>
      SummaryLines(totals, keys)[i] == SummaryLine(keys[i], totals[keys[i]])
  {
    if |keys| > 0 {
      var lines, rest := SummaryLines(totals, keys), SummaryLines(totals, keys[1..]);
      SummaryLinesShape(totals, keys[1..]);
      assert |lines| == |keys| && lines[1..] == rest by {
        SummaryLinesUnfold(totals, keys);
      }
      forall i | 1 <= i < |keys|
        ensures lines[i] == SummaryLine(keys[i], totals[keys[i]])
      {
        assert lines[i] == rest[i - 1] && keys[1..][i - 1] == keys[i];
      }
    }
  }

  lemma SummaryLinesUnfold(totals: map<string, real>, keys: seq<string>)
    requires forall i :: 0 <= i < |keys| ==> keys[i] in totals
    requires |keys| > 0
    ensures SummaryLines(totals, keys)[0] == SummaryLine(keys[0], totals[keys[0]])
    ensures SummaryLines(totals, keys)[1..] == SummaryLines(totals, keys[1..])
  {
  }

  /** Lines of distinct keys are distinct, since each names its key back. */
  lemma SummaryLinesDistinct(totals: map<string, real>, keys: seq<string>)
    requires forall i :: 0 <= i < |keys| ==> keys[i] in totals
    requires NoDuplicates(keys)
    ensures NoDuplicates(SummaryLines(totals, keys))
  {
    var lines := SummaryLines(totals, keys);
    SummaryLinesShape(totals, keys);
    forall i, j | 0 <= i < j < |lines| ensures lines[i] != lines[j] {
      assert LineCategory(lines[i]) == keys[i] && LineCategory(lines[j]) == keys[j];
    }
  }

  /** Every line for a key that also occurs in the other listing occurs among its lines. */
  lemma SummaryLinesCovered(totals: map<string, real>, a: seq<string>, b: seq<string>)
    requires forall i :: 0 <= i < |a| ==> a[i] in totals
    requires forall i :: 0 <= i < |b| ==> b[i] in totals
    requires forall k :: k in a ==> k in b
    ensures forall l :: l in SummaryLines(totals, a) ==> l in SummaryLines(totals, b)
  {
    var la, lb := SummaryLines(totals, a), SummaryLines(totals, b);
    SummaryLinesShape(totals, a);
    SummaryLinesShape(totals, b);
    forall l | l in la ensures l in lb {
      var i :| 0 <= i < |la| && la[i] == l;
      assert a[i] in a;
      var j :| 0 <= j < |b| && b[j] == a[i];
      assert lb[j] == l;
    }
  }

  /** Two duplicate-free listings of the same keys give the same lines up to order. */
  lemma SummaryLinesOfSameKeys(totals: map<string, real>, a: seq<string>, b: seq<string>)
    requires forall i :: 0 <= i < |a| ==> a[i] in totals
    requires forall i :: 0 <= i < |b| ==> b[i] in totals
    requires NoDuplicates(a) && NoDuplicates(b)
    requires forall k :: k in a <==> k in b
    ensures multiset(SummaryLines(totals, a)) == multiset(SummaryLines(totals, b))
  {
    SummaryLinesDistinct(totals, a);
    SummaryLinesDistinct(totals, b);
    SummaryLinesCovered(totals, a, b);
    SummaryLinesCovered(totals, b, a);
    SameElementsArePermutations(SummaryLines(totals, a), SummaryLines(totals, b));
  }

  /** Two duplicate-free lists with the same elements are permutations of each other. */
  lemma SameElementsArePermutations(la: seq<string>, lb: seq<string>)
    requires NoDuplicates(la) && NoDuplicates(lb)
    requires forall l :: l in la ==> l in lb
    requires forall l :: l in lb ==> l in la
    ensures multiset(la) == multiset(lb)
  {
    var lines := set l | l in la;
    assert IsEnumeration(la, lines);
    assert IsEnumeration(lb, lines);
    EnumerationsArePermutations(la, lb, lines);
  }

  /** The summary lines do not depend on the iteration order of the grouping map,
      up to permutation. */
  lemma SummaryLinesOrderIndependent(txs: seq<Transaction>, a: seq<string>, b: seq<string>)
    requires IsEnumeration(a, CategoriesOf(txs)) && IsEnumeration(b, CategoriesOf(txs))
    ensures forall i :: 0 <= i < |a| ==> a[i] in CategoryTotals(txs)
    ensures forall i :: 0 <= i < |b| ==> b[i] in CategoryTotals(txs)
    ensures multiset(SummaryLines(CategoryTotals(txs), a))
         == multiset(SummaryLines(CategoryTotals(txs), b))
  {
    SummaryLinesOfSameKeys(CategoryTotals(txs), a, b);
  }

  lemma SummaryLinesWithoutNewline(totals: map<string, real>, keys: seq<string>)
    requires forall i :: 0 <= i < |keys| ==> keys[i] in totals && '\n' !in keys[i]
    ensures |SummaryLines(totals, keys)| == |keys|
    ensures forall i :: 0 <= i < |keys| ==> '\n' !in SummaryLines(totals, keys)[i]
  {
    SummaryLinesShape(totals, keys);
    forall i | 0 <= i < |keys| ensures '\n' !in SummaryLines(totals, keys)[i] {
      var line := SummaryLine(keys[i], totals[keys[i]]);
      assert '\n' !in line;
    }
  }

  /** The joined lines start with the first line's "- ", and split at their newlines
      back into the lines when no key holds a newline. */
  lemma SummaryLinesSplitBack(totals: map<string, real>, keys: seq<string>)
    requires forall i :: 0 <= i < |keys| ==> keys[i] in totals
    ensures |keys| > 0 ==> "- " <= Join(SummaryLines(totals, keys), "\n")
    ensures |keys| > 0 && (forall i :: 0 <= i < |keys| ==> '\n' !in keys[i]) ==>
      Split(Join(SummaryLines(totals, keys), "\n"), '\n') == SummaryLines(totals, keys)
  {
    var lines := SummaryLines(totals, keys);
    if |keys| > 0 {
      var r := Join(lines, "\n");
      SummaryLinesShape(totals, keys);
      assert lines[0] <= r && "- " <= lines[0];
      assert r[..2] == lines[0][..2];
      if forall i :: 0 <= i < |keys| ==> '\n' !in keys[i] {
        SummaryLinesWithoutNewline(totals, keys);
        SplitJoin(lines, '\n');
      }
    }
  }

  /** The sum of the group values over an iteration order of the keys. */
  function SumOfTotals(totals: map<string, real>, keys: seq<string>): real
    requires forall i :: 0 <= i < |keys| ==> keys[i] in totals
  {
    if |keys| == 0 then 0.0 else totals[keys[0]] + SumOfTotals(totals, keys[1..])
  }

  /** The sum of the reference group values over a list of categories. */
  function SumOfExactTotals(txs: seq<Transaction>, keys: seq<string>): real
  {
    if |keys| == 0 then 0.0 else ExactCategoryTotal(txs, keys[0]) + SumOfExactTotals(txs, keys[1..])
  }

  lemma {:induction false} SumOfExactTotalsOfEmpty(keys: seq<string>)
    ensures SumOfExactTotals([], keys) == 0.0
  {
    if |keys| > 0 {
      SumOfExactTotalsOfEmpty(keys[1..]);
    }
  }

  lemma {:induction false} SumOfExactTotalsOfSnoc(s: seq<Transaction>, t: Transaction, keys: seq<string>)
    requires NoDuplicates(keys)
    ensures SumOfExactTotals(s + [t], keys)
         == SumOfExactTotals(s, keys) + (if t.category in keys then t.amount else 0.0)
  {
    if |keys| > 0 {
      SumOfExactTotalsOfSnoc(s, t, keys[1..]);
      ExactCategoryTotalOfSnoc(s, t, keys[0]);
      assert keys == [keys[0]] + keys[1..];
      assert t.category == keys[0] ==> t.category !in keys[1..];
    }
  }

  lemma {:induction false} SumOfExactTotalsIsTotal(txs: seq<Transaction>, keys: seq<string>)
    requires NoDuplicates(keys)
    requires forall t :: t in txs ==> t.category in keys
    ensures SumOfExactTotals(txs, keys) == TransactionService.TotalSpending(txs)
  {
    if |txs| == 0 {
      SumOfExactTotalsOfEmpty(keys);
    } else {
      var init := txs[..|txs| - 1];
      var t := txs[|txs| - 1];
      SplitLast(txs);
      SumOfExactTotalsIsTotal(init, keys);
      SumOfExactTotalsOfSnoc(init, t, keys);
    }
  }

  lemma {:induction false} SumOfTotalsIsSumOfExactTotals(txs: seq<Transaction>, keys: seq<string>)
    requires forall i :: 0 <= i < |keys| ==> keys[i] in CategoryTotals(txs)
    ensures SumOfTotals(CategoryTotals(txs), keys) == SumOfExactTotals(txs, keys)
  {
    if |keys| > 0 {
      SumOfTotalsIsSumOfExactTotals(txs, keys[1..]);
    }
  }

  /** The exact-case category sums of the summary add up to getTotalSpending of
      the same list. */
  lemma CategoryTotalsAddUp(txs: seq<Transaction>, keys: seq<string>)
    requires IsEnumeration(keys, CategoriesOf(txs))
    ensures forall i :: 0 <= i < |keys| ==> keys[i] in CategoryTotals(txs)
    ensures SumOfTotals(CategoryTotals(txs), keys) == TransactionService.TotalSpending(txs)
  {
    SumOfTotalsIsSumOfExactTotals(txs, keys);
    SumOfExactTotalsIsTotal(txs, keys);
  }

  // ---------------------------------------------------------------------
  // buildSystemMessage
  // ---------------------------------------------------------------------

  /** No row of the client dates from the window: the query comes back empty. */
  predicate NoRecentRows(store: Store, clientId: ClientId, fromDate: Date)
  {
    forall i :: 0 <= i < |store.rows| ==> !InWindow(store.rows[i], clientId, fromDate)
  }

  /** buildSystemMessage, with the client looked up first and the query run only for a
      known client: an unknown id fails; no recent transactions give the fallback
      text; otherwise the template is filled with the client's name and the summary
      of the recent transactions. */
  function BuildSystemMessage(store: Store, clientId: ClientId, fromDate: Date, builtAt: Instant)
    : (r: Result<ChatMessage, ChatError>)
    ensures r.Failure? <==> clientId !in store.clients
    ensures r.Failure? ==> r.error == ClientNotFound(clientId)
    ensures r.Success? ==> r.value.role == SystemRole && r.value.timestamp == builtAt
  {
    if clientId !in store.clients then Failure(ClientNotFound(clientId))
    else
      var txs := FindByClientIdAndDateAfter(store.rows, clientId, fromDate);
      if |txs| == 0 then
        Success(ChatMessage(SystemRole, FallbackPrompt, builtAt))
      else
        Success(ChatMessage(SystemRole, SystemPrompt(store.clients[clientId].name, SummarizeTransactions(txs)), builtAt))
  }

  /** The query comes back empty exactly when no row of the client is in the window. */
  lemma NoRecentRowsIffEmptyQuery(store: Store, clientId: ClientId, fromDate: Date)
    ensures NoRecentRows(store, clientId, fromDate)
        <==> |FindByClientIdAndDateAfter(store.rows, clientId, fromDate)| == 0
  {
    var txs := FindByClientIdAndDateAfter(store.rows, clientId, fromDate);
    if |txs| > 0 {
      assert txs[0] in txs;
    }
  }

  /** For a known client, the system text is the fallback exactly when the client has
      no transaction dated in the window. */
  lemma BuildSystemMessageFallback(store: Store, clientId: ClientId, fromDate: Date, builtAt: Instant)
    requires clientId in store.clients
    ensures BuildSystemMessage(store, clientId, fromDate, builtAt).value.message == FallbackPrompt
        <==> NoRecentRows(store, clientId, fromDate)
  {
    NoRecentRowsIffEmptyQuery(store, clientId, fromDate);
  }

  /** With recent transactions, the system text is the template with the client's name
      and the summary of the query result in its slots, not the fallback text, and the
      summary has one line per distinct category of the window. */
  lemma BuildSystemMessageSummarizesWindow(store: Store, clientId: ClientId, fromDate: Date, builtAt: Instant)
    requires clientId in store.clients && !NoRecentRows(store, clientId, fromDate)
    ensures var txs := FindByClientIdAndDateAfter(store.rows, clientId, fromDate);
      var name := store.clients[clientId].name;
      var summary := SummarizeTransactions(txs);
      var r := BuildSystemMessage(store, clientId, fromDate, builtAt);
      && r.Success? && r.value.message != FallbackPrompt
      && PromptHead + name + PromptMiddle + summary <= r.value.message
      && summary != ""
      && |SummaryLines(CategoryTotals(txs), DistinctCategories(txs))| == |CategoriesOf(txs)|
  {
    var txs := FindByClientIdAndDateAfter(store.rows, clientId, fromDate);
    NoRecentRowsIffEmptyQuery(store, clientId, fromDate);
    SystemPromptIsNotFallback(store.clients[clientId].name, SummarizeTransactions(txs));
    SummaryOneLinePerCategory(txs, DistinctCategories(txs));
  }

  // ---------------------------------------------------------------------
  // chatWithAssistant
  // ---------------------------------------------------------------------

  /** The negation of the noneMatch test: scanning the conversation front to back
      finds a message whose role is exactly "system". */
  predicate HasSystemMessage(history: seq<ChatMessage>): (b: bool)
    ensures b <==> exists i :: 0 <= i < |history| && history[i].role == SystemRole
  {
    if |history| == 0 then false
    else if history[0].role == SystemRole then true
    else
      var found := HasSystemMessage(history[1..]);
      assert forall i :: 1 <= i < |history| ==> history[i] == history[1..][i - 1];
      found
  }

  /** The conversation chatWithAssistant sends: the caller's messages unchanged when
      one of them is a system message, otherwise the built system message followed
      by the caller's messages; it fails only when a message had to be built for an
      unknown client. */
  function PreparedHistory(store: Store, clientId: ClientId, messages: seq<ChatMessage>,
                           fromDate: Date, builtAt: Instant): (r: Result<seq<ChatMessage>, ChatError>)
    ensures HasSystemMessage(messages) ==> r == Success(messages)
    ensures r.Failure? <==> !HasSystemMessage(messages) && clientId !in store.clients
    ensures r.Failure? ==> r.error == ClientNotFound(clientId)
    ensures r.Success? && !HasSystemMessage(messages) ==>
      r.value == [BuildSystemMessage(store, clientId, fromDate, builtAt).value] + messages
  {
    if HasSystemMessage(messages) then Success(messages)
    else
      match BuildSystemMessage(store, clientId, fromDate, builtAt)
      case Failure(e) => Failure(e)
      case Success(sys) => Success([sys] + messages)
  }

  /** A system message put in front of a conversation without one is its only system
      message, and the conversation follows it unchanged. */
  lemma PrependSystemMessage(sys: ChatMessage, messages: seq<ChatMessage>)
    requires sys.role == SystemRole && !HasSystemMessage(messages)
    ensures var h := [sys] + messages;
      && |h| == |messages| + 1 && h[1..] == messages
      && HasSystemMessage(h)
      && forall i :: 1 <= i < |h| ==> h[i].role != SystemRole
  {
    var h := [sys] + messages;
    assert h[0].role == SystemRole;
    forall i | 1 <= i < |h| ensures h[i].role != SystemRole {
      assert h[i] == messages[i - 1];
    }
  }

  /** Whenever preparation succeeds the conversation holds a system message; when it
      had to be injected, it is the built one, in front, the only one, and the
      caller's messages follow in their order. */
  lemma PreparedHistoryShape(store: Store, clientId: ClientId, messages: seq<ChatMessage>,
                             fromDate: Date, builtAt: Instant)
    requires PreparedHistory(store, clientId, messages, fromDate, builtAt).Success?
    ensures var h := PreparedHistory(store, clientId, messages, fromDate, builtAt).value;
      && HasSystemMessage(h)
      && (!HasSystemMessage(messages) ==>
            && |h| == |messages| + 1 && h[1..] == messages
            && Success(h[0]) == BuildSystemMessage(store, clientId, fromDate, builtAt)
            && forall i :: 1 <= i < |h| ==> h[i].role != SystemRole)
  {
    if !HasSystemMessage(messages) {
      PrependSystemMessage(BuildSystemMessage(store, clientId, fromDate, builtAt).value, messages);
    }
  }

  /** Preparing an already prepared conversation changes nothing: the system message
      is injected at most once. */
  lemma PreparedHistoryIdempotent(store: Store, clientId: ClientId, messages: seq<ChatMessage>,
                                  fromDate: Date, builtAt: Instant, clientId': ClientId,
                                  fromDate': Date, builtAt': Instant)
    requires PreparedHistory(store, clientId, messages, fromDate, builtAt).Success?
    ensures var h := PreparedHistory(store, clientId, messages, fromDate, builtAt).value;
      PreparedHistory(store, clientId', h, fromDate', builtAt') == Success(h)
  {
    PreparedHistoryShape(store, clientId, messages, fromDate, builtAt);
  }

  /** The API's messages: each history message's role and text, in order. */
  function ToApiMessages(history: seq<ChatMessage>): (r: seq<ApiMessage>)
    ensures |r| == |history|
    ensures forall i :: 0 <= i < |history| ==>
      r[i].role == history[i].role && r[i].content == history[i].message
  {
    if |history| == 0 then []
    else [ApiMessage(history[0].role, history[0].message)] + ToApiMessages(history[1..])
  }

  /** The request chatWithAssistant builds for a conversation. */
  function BuildRequest(model: string, history: seq<ChatMessage>): (r: ChatCompletionRequest)
    ensures r.model == model && r.temperature == 0.7 && r.maxTokens == 500
    ensures r.messages == ToApiMessages(history)
  {
    ChatCompletionRequest(model, ToApiMessages(history), Temperature, MaxTokens)
  }

  /** When the system message was injected, the request opens with it and then
      carries the caller's messages in their order. */
  lemma RequestLeadsWithSystemMessage(store: Store, clientId: ClientId, messages: seq<ChatMessage>,
                                      fromDate: Date, builtAt: Instant, model: string)
    requires !HasSystemMessage(messages) && clientId in store.clients
    ensures var sys := BuildSystemMessage(store, clientId, fromDate, builtAt).value;
      var req := BuildRequest(model, PreparedHistory(store, clientId, messages, fromDate, builtAt).value);
      && req.messages[0] == ApiMessage(SystemRole, sys.message)
      && req.messages[1..] == ToApiMessages(messages)
  {
    var h := PreparedHistory(store, clientId, messages, fromDate, builtAt).value;
    assert h == [BuildSystemMessage(store, clientId, fromDate, builtAt).value] + messages;
    var api := ToApiMessages(h);
    assert forall i :: 0 <= i < |messages| ==> api[1..][i] == ToApiMessages(messages)[i] by {
      forall i | 0 <= i < |messages| ensures api[1..][i] == ToApiMessages(messages)[i] {
        assert h[i + 1] == messages[i];
      }
    }
  }

  /** The reply: the first choice's text as an assistant message; a failed call or a
      response without choices is an error. */
  function Reply(completion: Completion, repliedAt: Instant): (r: Result<ChatMessage, ChatError>)
    ensures r.Success? <==> completion.Completed? && |completion.choices| > 0
    ensures r.Success? ==>
      r == Success(ChatMessage(AssistantRole, completion.choices[0].content, repliedAt))
    ensures completion.Unavailable? ==> r == Failure(UpstreamFailure)
    ensures completion.Completed? && |completion.choices| == 0 ==> r == Failure(NoChoices)
  {
    match completion
    case Unavailable => Failure(UpstreamFailure)
    case Completed(choices) =>
      if |choices| == 0 then Failure(NoChoices)
      else Success(ChatMessage(AssistantRole, choices[0].content, repliedAt))
  }

  // ---------------------------------------------------------------------
  // The session-history map
  // ---------------------------------------------------------------------

  /** getOrDefault(clientId, List.of()). */
  function HistoryOf(sessions: map<string, seq<ChatMessage>>, clientId: string): (h: seq<ChatMessage>)
    ensures clientId !in sessions ==> h == []
    ensures clientId in sessions ==> h == sessions[clientId]
  {
    if clientId in sessions then sessions[clientId] else []
  }

  /** After a reset the client's history is empty, every other client's is as it
      was, and a second reset changes nothing. */
  lemma ResetChatForgetsOnlyThatKey(sessions: map<string, seq<ChatMessage>>, clientId: string, other: string)
    ensures HistoryOf(sessions - {clientId}, clientId) == []
    ensures other != clientId ==> HistoryOf(sessions - {clientId}, other) == HistoryOf(sessions, other)
    ensures (sessions - {clientId}) - {clientId} == sessions - {clientId}
  {
  }

  /** The service: the two repositories (as the store), the model name, and the
      session-history map. The completion API is not a field: each call is given the
      answer the API returns to its request. */
  class ChatService {
    const store: Store
    const openAiModel: string
    var sessionHistory: map<string, seq<ChatMessage>>
    /** The requests sent to the completion API so far. */
    ghost var sent: seq<ChatCompletionRequest>

    /** The openai.model property, when it is set, names the model; otherwise "gpt-4". */
    constructor (store: Store, configuredModel: Option<string>)
      ensures this.store == store
      ensures configuredModel.Some? ==> openAiModel == configuredModel.value
      ensures configuredModel.None? ==> openAiModel == DefaultModel
      ensures sessionHistory == map[] && sent == []
    {
      this.store := store;
      this.openAiModel := if configuredModel.Some? then configuredModel.value else DefaultModel;
      sessionHistory := map[];
      sent := [];
    }

    /** chatWithAssistant: works on a copy of the caller's messages, injects the system
        message at the front when none is present (failing for an unknown client
        before any request is sent), sends the conversation once, and wraps the first
        choice of the API's answer (completion) as the reply. The history map is not
        touched. */
    method ChatWithAssistant(clientId: ClientId, messages: seq<ChatMessage>, fromDate: Date,
                             builtAt: Instant, completion: Completion, repliedAt: Instant)
      returns (r: Result<ChatMessage, ChatError>)
      modifies this
      ensures sessionHistory == old(sessionHistory)
      ensures var prepared := PreparedHistory(store, clientId, messages, fromDate, builtAt);
        if prepared.Failure? then r == Failure(prepared.error) && sent == old(sent)
        else
          var request := BuildRequest(openAiModel, prepared.value);
          && sent == old(sent) + [request]
          && r == Reply(completion, repliedAt)
      ensures !HasSystemMessage(messages) && clientId !in store.clients ==>
        r == Failure(ClientNotFound(clientId)) && sent == old(sent)
      ensures r.Success? ==> r.value.role == AssistantRole && r.value.timestamp == repliedAt
    {
      var history := messages;
      if !HasSystemMessage(history) {
        var system := BuildSystemMessage(store, clientId, fromDate, builtAt);
        if system.Failure? {
          return Failure(system.error);
        }
        history := [system.value] + history;
      }
      var request := ChatCompletionRequest(openAiModel, ToApiMessages(history), Temperature, MaxTokens);
      sent := sent + [request];
      match completion
      case Unavailable =>
        r := Failure(UpstreamFailure);
      case Completed(choices) =>
        if |choices| == 0 {
          r := Failure(NoChoices);
        } else {
          r := Success(ChatMessage(AssistantRole, choices[0].content, repliedAt));
        }
    }

    /** getChatHistory: the stored conversation, or none. */
    method GetChatHistory(clientId: string) returns (h: seq<ChatMessage>)
      ensures h == HistoryOf(sessionHistory, clientId)
      ensures clientId !in sessionHistory ==> h == []
    {
      h := if clientId in sessionHistory then sessionHistory[clientId] else [];
    }

    /** resetChat: forgets the client's conversation and nothing else. */
    method ResetChat(clientId: string)
      modifies this
      ensures sessionHistory == old(sessionHistory) - {clientId}
      ensures sent == old(sent)
    {
      sessionHistory := sessionHistory - {clientId};
    }
  }
}
