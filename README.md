# boteva-backend: the chat assistant's context building, as a verified Dafny model

boteva-backend is a Spring service that gives a bank client a chat assistant.
This project models the part of it that decides what is sent to the
completion API and what comes back:

- `ChatService.chatWithAssistant`: copies the caller's conversation; when no
  message has the role `"system"`, puts a system message built for the client
  in front; maps every message to the API's (role, content) pair; sends one
  request (model, temperature 0.7, at most 500 tokens); and wraps the first
  choice as an `"assistant"` message.
- `buildSystemMessage` / `summarizeTransactions`:
  - looks the client up and fails for an unknown id;
  - with no transaction of that client dated on or after the window start,
    uses the fixed fallback text;
  - otherwise fills the template with the client's name and a summary. The
    summary groups the transactions by exact category string, sums the
    amounts, and renders one `- <category>: $<amount>` line per group,
    joined by newlines.
- The per-session history map: `getChatHistory` is a get-or-empty and
  `resetChat` removes a key. No operation in the service ever writes to the
  map. So `ChatService.ChatService.ChatWithAssistant` and
  `ChatService.ChatService.ResetChat` leave it as it was or smaller, and a
  service built by the constructor answers `[]` for every key.
- `TransactionService`:
  - the recent-transactions query;
  - the total spending (a fold of `+` from zero);
  - the spending of one category, compared ignoring case.
- `Client.addTransaction` / `removeTransaction`: update the client's list in
  place and set or clear the transaction's back-reference.

## How it is modelled

- Modules: `Model` holds the entities, `Repository` the query,
  `TransactionService` the spending aggregates, `ChatService` the chat flow,
  `JavaText` the Java string operations it relies on, and `SummaryExamples`
  worked instances.
- Client and Transaction are classes, because the source updates their fields
  in place. ChatMessage and the API's request and response are datatypes.
- Amounts are exact `real`s (BigDecimal). Dates and instants are integers.
- The database is a `Store`: the clients by id, and the transaction rows in
  table order, each with its client id. The query keeps the rows of the client
  dated on or after `fromDate` (inclusive, despite the method's name "After")
  and orders them newest first.
- The completion API's answer is a parameter of each call: the caller passes
  the outcome (a failed call, or a response with its list of choices). A
  failed call and a response with no choices are the two API error results.
  A ghost field `sent` records the requests sent. It shows that an unknown
  client fails before any request goes out.
- The clock is replaced by parameters:
  - `fromDate` stands for today minus three months;
  - `builtAt` and `repliedAt` are the two `LocalDateTime.now()` reads.
- Text:
  - `equalsIgnoreCase` is Java's per-character rule, restricted to the ASCII
    letters.
  - `"%.2f"` of a BigDecimal keeps the sign of the value and rounds its
    magnitude half-up to hundredths. So -0.001 renders as `-0.00`.
  - The prompt texts are the exact strings the Java text blocks evaluate to.
- The grouping map's iteration order (a HashMap's, unspecified) is modelled as
  any duplicate-free listing of the keys.
  `ChatService.SummarizeTransactions` lists the keys in first-occurrence order.
  The summary properties are proved for every listing, and the lines
  of two listings are equal as multisets.

## Model

| member | source | states |
|---|---|---|
| Model.Client.constructor | src/main/java/com/boteva/model/Client.java:27-29 | a new client owns no transactions |
| Model.Transaction.constructor | src/main/java/com/boteva/model/Transaction.java:13-39 | the all-arguments constructor stores each given field unchanged |
| Model.Client.AddTransaction | src/main/java/com/boteva/model/Client.java:32-35 | the list gains t at its end and t's owner becomes this client |
| Model.Client.RemoveTransaction | src/main/java/com/boteva/model/Client.java:38-41 | the list loses the first occurrence of t (unchanged if absent) and t's owner is cleared in every case |
| Model.RemoveFirst | src/main/java/com/boteva/model/Client.java:39 | List.remove(Object): unchanged when x is absent, otherwise one shorter, and exactly one x fewer as a multiset |
| Model.RemoveFirstCutsFirstOccurrence | src/main/java/com/boteva/model/Client.java:39 | the removal cuts out exactly the first occurrence and keeps everything else in order |
| Model.AddThenRemoveRestores | src/main/java/com/boteva/model/Client.java:32-41 | adding a transaction the list did not hold and then removing it restores the list |
| Repository.Selected | src/main/java/com/boteva/repository/TransactionRepository.java:20 | the WHERE clause: a record is selected exactly when some row of that client dated on or after fromDate holds it |
| Repository.SelectedCount | src/main/java/com/boteva/repository/TransactionRepository.java:20 | the WHERE clause keeps every record as many times as the rows of that client dated on or after fromDate hold it |
| Repository.InsertNewestFirst | src/main/java/com/boteva/repository/TransactionRepository.java:20 | one step of ORDER BY date DESC keeps the list newest first and adds exactly one record |
| Repository.SortNewestFirst | src/main/java/com/boteva/repository/TransactionRepository.java:20 | ORDER BY date DESC: the result is newest first and a permutation of its input |
| Repository.FindByClientIdAndDateAfter | src/main/java/com/boteva/repository/TransactionRepository.java:20-21 | the query result is newest first, a permutation of the selected rows' records, and holds each record once per row of that client dated on or after fromDate that holds it |
| TransactionService.GetRecentTransactions | src/main/java/com/boteva/service/TransactionService.java:18-21 | the recent transactions are the query's: newest first, each of the client's records in the window once per row holding it |
| TransactionService.TotalSpending | src/main/java/com/boteva/service/TransactionService.java:23-27 | without negative amounts the total is not negative |
| TransactionService.TotalSpendingOfConcat | src/main/java/com/boteva/service/TransactionService.java:23-27 | the total of no transactions is zero and the total of a concatenation is the sum of the totals |
| TransactionService.TotalSpendingPermutation | src/main/java/com/boteva/service/TransactionService.java:23-27 | the total does not depend on the order of the list |
| TransactionService.TotalSpendingWithoutAt | src/main/java/com/boteva/service/TransactionService.java:23-27 | taking one transaction out of the list takes exactly its amount out of the total |
| TransactionService.MatchingCategory | src/main/java/com/boteva/service/TransactionService.java:29-31 | the filter keeps a transaction exactly when its category equals the given one ignoring case, as many times as the list holds it |
| TransactionService.OtherCategories | src/main/java/com/boteva/service/TransactionService.java:29-31 | the complement of the filter: the transactions whose category differs ignoring case, as many times as the list holds them |
| TransactionService.SpendingByCategory | src/main/java/com/boteva/service/TransactionService.java:29-34 | the category's spending plus the total of the transactions of other categories is the total spending |
| TransactionService.MatchingPartition | src/main/java/com/boteva/service/TransactionService.java:29-34 | the total of the matching transactions plus the total of the others is the total spending |
| TransactionService.SpendingByCategoryNoMatch | src/main/java/com/boteva/service/TransactionService.java:29-34 | with no transaction matching the category, its spending is zero |
| TransactionService.MatchingCaseVariant | src/main/java/com/boteva/service/TransactionService.java:31 | two case variants of a category select the same transactions |
| TransactionService.SpendingByCategoryCaseVariant | src/main/java/com/boteva/service/TransactionService.java:29-34 | a category and any case variant of it have the same spending |
| TransactionService.SpendingByCategoryWithinTotal | src/main/java/com/boteva/service/TransactionService.java:23-34 | without negative amounts, a category's spending lies between zero and the total |
| JavaText.EqualsIgnoreCase | src/main/java/com/boteva/service/TransactionService.java:31 | equalsIgnoreCase holds exactly when the two case folds are equal |
| JavaText.PositionsMatchIffSameFold | src/main/java/com/boteva/service/TransactionService.java:31 | equal lengths and a case-insensitive match at every position hold exactly when the case folds are equal |
| JavaText.Join | src/main/java/com/boteva/service/ChatService.java:136 | joining no parts gives the empty string, and the joined text starts with the first part |
| JavaText.EqualsIgnoreCaseIsEquivalence | src/main/java/com/boteva/service/TransactionService.java:31 | equalsIgnoreCase is reflexive, symmetric and transitive |
| JavaText.SplitJoin | src/main/java/com/boteva/service/ChatService.java:136 | joining newline-free parts with a newline and splitting at newlines gives the parts back |
| JavaText.RoundHalfUp | src/main/java/com/boteva/service/ChatService.java:135 | rounding to an integer lands within half a unit, halves going up |
| JavaText.NatToDecimal | src/main/java/com/boteva/service/ChatService.java:135 | the integer part is a non-empty string of digits with no leading zero |
| JavaText.DecimalRoundTrip | src/main/java/com/boteva/service/ChatService.java:135 | reading the written digits gives the number back |
| JavaText.TwoDigitsValue | src/main/java/com/boteva/service/ChatService.java:135 | the two-digit fraction part reads back as the number it was written from, zero-padded below ten |
| JavaText.Cents | src/main/java/com/boteva/service/ChatService.java:135 | the magnitude in hundredths lies within half a cent of the exact magnitude, halves rounding up |
| JavaText.AmountText | src/main/java/com/boteva/service/ChatService.java:135 | the unsigned amount text holds no newline, ':' or '-' |
| JavaText.AmountTextReadsBack | src/main/java/com/boteva/service/ChatService.java:135 | the unsigned amount text is digits, '.', two digits, and reads back as the number of hundredths it was written from |
| JavaText.SignedAmountReadsBack | src/main/java/com/boteva/service/ChatService.java:135 | with a sign in front, the text starts with '-' exactly when the sign is written, and the rest reads back as the hundredths |
| JavaText.Fmt2 | src/main/java/com/boteva/service/ChatService.java:135 | the rendered amount holds no newline and no ':' |
| JavaText.Fmt2ReadsBack | src/main/java/com/boteva/service/ChatService.java:135 | the rendered amount has a leading '-' exactly for negative values, then digits, '.', two digits, and reads back as Cents(x), the magnitude in hundredths rounded half-up |
| ChatService.SystemPrompt | src/main/java/com/boteva/service/ChatService.java:99-110 | the template text is its fixed head, the client's name, the fixed middle and then the summary, followed by exactly the fixed tail |
| ChatService.FillTemplate | src/main/java/com/boteva/service/ChatService.java:99-110 | filling two slots of a template keeps head, first value, middle and second value in that order, ends with exactly the tail, and adds up their lengths |
| ChatService.SystemPromptIsNotFallback | src/main/java/com/boteva/service/ChatService.java:86-110 | the filled template is never the fallback text |
| ChatService.FallbackLeavesTemplateHead | src/main/java/com/boteva/service/ChatService.java:86-91 | the fallback text and the template head differ at the first letter of their second line |
| ChatService.WithCategory | src/main/java/com/boteva/service/ChatService.java:125-132 | a group holds only transactions of the list with that category, and a category none of them has selects nothing |
| ChatService.WithCategoryCount | src/main/java/com/boteva/service/ChatService.java:125-132 | a group holds every transaction of its category as many times as the list does, and nothing else |
| ChatService.AddToGroup | src/main/java/com/boteva/service/ChatService.java:130 | adding one transaction adds its amount to its category's entry, creating it with the amount when absent, and leaves every other entry alone |
| ChatService.ExactCategoryTotalOfSnoc | src/main/java/com/boteva/service/ChatService.java:125-132 | one more transaction adds its amount to its own group only |
| ChatService.CategoryTotals | src/main/java/com/boteva/service/ChatService.java:125-132 | groupingBy with a summing reducer: one key per distinct exact category, holding the sum of exactly that category's amounts |
| ChatService.CategoryTotalsStep | src/main/java/com/boteva/service/ChatService.java:125-132 | accumulating one transaction keeps the map equal to the per-category sums |
| ChatService.DistinctCategories | src/main/java/com/boteva/service/ChatService.java:134 | the key order used lists every distinct category exactly once |
| ChatService.LineCategoryBeforeAmount | src/main/java/com/boteva/service/ChatService.java:135 | the category and the amount text are read back from "- <category>: $<text>" whenever the text holds no ':' |
| ChatService.SummaryLine | src/main/java/com/boteva/service/ChatService.java:135 | a summary line starts with "- ", names its category back whatever characters it holds, carries exactly the two-place rendering of its amount after ": $", and holds a newline only if the category does |
| ChatService.SummaryLinesShape | src/main/java/com/boteva/service/ChatService.java:134-135 | there is one line per key, and line i renders key i with its map value |
| ChatService.SummaryLinesDistinct | src/main/java/com/boteva/service/ChatService.java:134-135 | distinct keys give distinct lines |
| ChatService.SummaryLinesCovered | src/main/java/com/boteva/service/ChatService.java:134-135 | a line of one listing is a line of any listing holding the same key |
| ChatService.EnumerationSize | src/main/java/com/boteva/service/ChatService.java:134 | a duplicate-free listing of the map's keys is as long as the key set is large |
| ChatService.EnumerationMultiplicity | src/main/java/com/boteva/service/ChatService.java:134 | in a duplicate-free listing of the keys every key occurs exactly once and nothing else occurs |
| ChatService.EnumerationsArePermutations | src/main/java/com/boteva/service/ChatService.java:134 | two duplicate-free listings of the same key set are permutations of each other |
| ChatService.SummaryLinesOfSameKeys | src/main/java/com/boteva/service/ChatService.java:134-136 | two duplicate-free listings of the same keys give the same lines up to order |
| ChatService.SummaryOneLinePerCategory | src/main/java/com/boteva/service/ChatService.java:124-136 | for any iteration order: as many lines as distinct categories, line i names key i and carries the two-place rendering of that category's exact sum, every category has a line, no two lines name the same category |
| ChatService.SummaryLinesOrderIndependent | src/main/java/com/boteva/service/ChatService.java:124-136 | any two iteration orders of the grouping map give the same lines up to order |
| ChatService.SummaryLinesWithoutNewline | src/main/java/com/boteva/service/ChatService.java:135 | lines for newline-free categories hold no newline |
| ChatService.SummaryLinesSplitBack | src/main/java/com/boteva/service/ChatService.java:134-136 | joining the lines with newlines and splitting the result at newlines gives the lines back |
| ChatService.RenderSummary | src/main/java/com/boteva/service/ChatService.java:134-136 | no keys render as the empty string; otherwise the text starts with "- " and, for newline-free categories, splits at newlines into exactly the summary lines |
| ChatService.SumOfExactTotalsIsTotal | src/main/java/com/boteva/service/ChatService.java:125-132 | the per-category sums over keys covering every category add up to the total spending |
| ChatService.CategoryTotalsAddUp | src/main/java/com/boteva/service/ChatService.java:125-132 | the grouping map's values add up to getTotalSpending of the same list |
| ChatService.SummarizeTransactions | src/main/java/com/boteva/service/ChatService.java:124-137 | the summary is empty exactly when there are no transactions; otherwise, for newline-free categories, it splits at newlines into the lines of the per-category sums in first-occurrence order |
| ChatService.BuildSystemMessage | src/main/java/com/boteva/service/ChatService.java:75-119 | fails exactly for an unknown client, with ClientNotFound; otherwise a system message stamped at the build time |
| ChatService.NoRecentRowsIffEmptyQuery | src/main/java/com/boteva/service/ChatService.java:80-82 | the query comes back empty exactly when no row of the client is dated in the window |
| ChatService.BuildSystemMessageFallback | src/main/java/com/boteva/service/ChatService.java:82-94 | for a known client the system text is the fallback exactly when the client has no transaction in the window |
| ChatService.BuildSystemMessageSummarizesWindow | src/main/java/com/boteva/service/ChatService.java:97-110 | with recent transactions the message is not the fallback: the template head, the client's name and the middle are followed by the non-empty summary of the query result, which has one line per distinct category |
| ChatService.PreparedHistory | src/main/java/com/boteva/service/ChatService.java:38-43 | a conversation holding a system message at any position is sent unchanged; otherwise it fails exactly for an unknown client, with ClientNotFound, and on success it is the built system message followed by the caller's messages |
| ChatService.HasSystemMessage | src/main/java/com/boteva/service/ChatService.java:41 | holds exactly when some message of the conversation has the role "system" |
| ChatService.PrependSystemMessage | src/main/java/com/boteva/service/ChatService.java:42 | a system message put at index 0 of a conversation without one is its only system message, and the conversation follows it unchanged |
| ChatService.PreparedHistoryShape | src/main/java/com/boteva/service/ChatService.java:38-43 | a prepared conversation always holds a system message; an injected one is the built one, first and only, followed by the caller's messages in order |
| ChatService.PreparedHistoryIdempotent | src/main/java/com/boteva/service/ChatService.java:41-43 | preparing an already prepared conversation changes nothing |
| ChatService.ToApiMessages | src/main/java/com/boteva/service/ChatService.java:46-48 | the API list has the history's length and carries each message's role and text in order |
| ChatService.BuildRequest | src/main/java/com/boteva/service/ChatService.java:51-56 | the request carries the configured model, temperature 0.7, at most 500 tokens and the mapped conversation |
| ChatService.RequestLeadsWithSystemMessage | src/main/java/com/boteva/service/ChatService.java:41-48 | after injection the request opens with the built system text, followed by the caller's messages in order |
| ChatService.Reply | src/main/java/com/boteva/service/ChatService.java:59-67 | succeeds exactly when the call returned at least one choice, with an assistant message holding the first choice's text at the reply time; a failed call and an empty choice list are errors |
| ChatService.HistoryOf | src/main/java/com/boteva/service/ChatService.java:142-144 | getOrDefault: the stored list for a present key, the empty list otherwise |
| ChatService.ResetChatForgetsOnlyThatKey | src/main/java/com/boteva/service/ChatService.java:149-151 | after a reset the key's history is empty, every other key's is unchanged, and a second reset changes nothing |
| ChatService.ChatService.constructor | src/main/java/com/boteva/service/ChatService.java:27-32 | the model is the configured one, or "gpt-4" when none is configured; the session map starts empty and no request has been sent |
| ChatService.ChatService.ChatWithAssistant | src/main/java/com/boteva/service/ChatService.java:37-70 | on a failed preparation (unknown client, no system message) returns that error and sends nothing; otherwise sends exactly the request for the prepared conversation and returns the reply that the given completion outcome yields; the session map is untouched |
| ChatService.ChatService.GetChatHistory | src/main/java/com/boteva/service/ChatService.java:142-144 | returns the stored list for the key, or the empty list |
| ChatService.ChatService.ResetChat | src/main/java/com/boteva/service/ChatService.java:149-151 | removes exactly that key from the session map |
| SummaryExamples.SummaryExample | src/main/java/com/boteva/service/ChatService.java:124-136 | two Food transactions of 10.555 and 5 summarize to the single line "- Food: $15.56" |
| SummaryExamples.KeysExample | src/main/java/com/boteva/service/ChatService.java:125-127 | two transactions of the same category give one key |
| SummaryExamples.TotalsExample | src/main/java/com/boteva/service/ChatService.java:125-132 | 10.555 and 5 in one category group to 15.555 |
| SummaryExamples.SummaryLineExample | src/main/java/com/boteva/service/ChatService.java:135 | the category Food with 15.555 renders as the line "- Food: $15.56" |
| SummaryExamples.RenderExample | src/main/java/com/boteva/service/ChatService.java:134-136 | the one-key map Food to 15.555 renders as "- Food: $15.56" |
| SummaryExamples.Fmt2RoundsHalfUp | src/main/java/com/boteva/service/ChatService.java:135 | 15.555 renders as 15.56 |
| SummaryExamples.Fmt2KeepsSignOfTinyNegative | src/main/java/com/boteva/service/ChatService.java:135 | -0.001 renders as -0.00 |
| SummaryExamples.Fmt2PadsDecimals | src/main/java/com/boteva/service/ChatService.java:135 | 7 renders as 7.00 |
| SummaryExamples.SpendingIgnoresCaseExample | src/main/java/com/boteva/service/TransactionService.java:29-34 | "Food" 10 and "food" 5 give a spending of 15 for "FOOD" |
| SummaryExamples.SummaryKeepsCaseExample | src/main/java/com/boteva/service/ChatService.java:125-127 | "Food" and "food" are two groups of the summary |

## Left out

- The HTTP call to the completion API is not modelled; its outcome is a parameter. Only its two failure outcomes are modelled: the call throws, or there are no choices.
- A choice whose message or content is null is not modelled. So are null clients, categories, amounts and names.
- `LocalDate.now().minusMonths(n)` and `LocalDateTime.now()` are not modelled. Their results are parameters (`fromDate`, `builtAt`, `repliedAt`), and the calendar arithmetic is left out.
- TransactionService.GetRecentTransactions: takes the window start date instead of `monthsBack`, because computing it needs the clock.
- The two `System.out.println` calls in buildSystemMessage are not modelled; they are output only.
- ChatService.BuildSystemMessage: the client lookup and the query are pure reads of the store. Their order (lookup first) shows only in that the query's result is not used when the lookup fails.
- The ConcurrentHashMap is a plain map. Thread safety and concurrent calls are not modelled.
- The HashMap iteration order of the grouping is not modelled. The model uses first-occurrence order, and the summary properties are proved for every order.
- JavaText.EqualsIgnoreCase: case mapping covers the ASCII letters only. Java also maps non-ASCII letters.
- JavaText.Fmt2: the `'.'` decimal separator assumes a locale that uses it. Other default locales render a `','`.
- Model.Client.RemoveTransaction: elements are compared by reference. Lombok's generated `equals` compares fields, so the Java code may remove an earlier transaction that is field-equal to the argument.
- Repository.SortNewestFirst: transactions of the same date keep table order. The database leaves their order unspecified.
- The setters Lombok's `@Data` generates for Transaction (id, category, description, amount, date) and Client (id, name, email, joinedDate) are not modelled: those fields are `const`, since no modelled operation changes them. Only the back-reference `client` and the list `transactions` are mutable.
- The entity framework's cascade and orphan removal, the other repository method, the REST controller, the data seeder and the configuration are not part of this model.
- The caller's list cannot be changed by `chatWithAssistant` in this model, because sequences are values. The Java copy into an ArrayList gives the same guarantee.
