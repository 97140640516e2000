# Credit dashboard aggregation, modelled in Dafny

`Limite8.py` is a Streamlit dashboard over a credit spreadsheet. Each row is a
client account. It has a branch (`Filial`), a tax id (`CNPJ_CPF`), a credit
`Status` (Ruim, Regular, Bom, Ótimo), the amounts `Vencido` (overdue),
`A_Vencer` (upcoming) and `Disponivel` (available credit), a salesperson
(`Vendedor`) and a free-text market tenure (`TM`). On every interaction the
script does three things:

- it filters the rows by a branch selection and a salesperson;
- it computes the headline totals and the delinquency rate;
- it builds the fixed-order status breakdown, the six-bucket tenure summary,
  and the two rankings (top ten debtors, branches by delinquency rate).

When the sheet is loaded, the numeric columns are coerced in place: a cell that
cannot be parsed reads as 0.

This project models that pipeline:

- The aggregations are pure functions over `seq<Record>`.
- Amounts are exact `real`s, and every ratio uses the zero guard `Pct`.
- The loader's in-place coercion loop is a method on a `Frame` class. The class
  has a map from column names to cells.

One module per stage:

- `dataset.dfy`, module `Dataset`: the row, column sums, `Pct`
- `digits.dfy`, module `Digits`: ASCII digit runs, decimal values, fractions (the parsers' shared part)
- `wrappers.dfy`, module `Wrappers`: `Option`
- `loader.dfy`, module `Loader`: `pd.to_numeric(errors='coerce').fillna(0)` and the coercion loop
- `filter.dfy`, module `Filter`: the branch and salesperson filter
- `totals.dfy`, module `Totals`: the headline cards
- `grouping.dfy`, module `Grouping`: `groupby(...).sum()/count` followed by `reindex(...).fillna(0)`, and percentage columns
- `status.dfy`, module `StatusBreakdown`: chart, the three status tables, the client distribution
- `tenure.dfy`, module `Tenure`: the `TM` parser, `classificar_tempo_mercado`, `resumo_tm`
- `sorting.dfy`, module `Sorting`: the descending sort and `head`
- `rankings.dfy`, module `Rankings`: top ten debtors, branch ranking
- `dashboard.dfy`, module `Dashboard`: all figures of one filtered view

Grouping follows pandas:

- A group key is `Record -> Option<K>`. A `None` key is the empty cell that
  `groupby` and `value_counts` drop.
- `reindex(order).fillna(0)` becomes a per-key sum in a fixed key order, which
  is 0 for a key no row carries.

Two behaviours of the code are worth noting:

- An empty branch selection applies no branch filter: the `if filiais_select:`
  guard at Limite8.py:165 skips it. The salesperson filter still applies.
- "5,5 anos" reads as 5.5. Since `valor <= 5` fails, it lands in "6–10 anos".
  `Tenure.ExampleFiveAndAHalf` states this.

## Model

| member | source | states |
|---|---|---|
| `Loader.ParseNumber` | Limite8.py:118 | text without a digit never parses as a number |
| `Loader.ParseNumberIffLiteral` | Limite8.py:118 | a text parses exactly when it is a decimal literal: an optional sign, digits, and optionally "." and one or more digits |
| `Loader.ParseLiteral` | Limite8.py:118 | every literal parses to its sign applied to the value of its whole digits plus the decimal fraction of the digits after the point |
| `Loader.LeadingZerosLiteral` | Limite8.py:118 | "007" parses as 7 |
| `Loader.PlusSignLiteral` | Limite8.py:118 | "+5" parses as 5 |
| `Loader.NegativeFractionLiteral` | Limite8.py:118 | "-0.5" parses as -0.5 |
| `Loader.BrazilianAmountRejected` | Limite8.py:118 | "1.234,56" does not parse, so its cell coerces to 0 |
| `Loader.NonLiteralsRejected` | Limite8.py:118 | "12abc" and "1,5" do not parse |
| `Loader.TwoPointsRejected` | Limite8.py:118 | "1.2.3" does not parse |
| `Loader.ParseShowInt` | Limite8.py:118 | the decimal spelling of any integer parses back to that integer |
| `Loader.ParseShowDecimal` | Limite8.py:118 | an integer's spelling, ".", then digits parses to the integer moved away from zero by the digits' decimal fraction ("-3.25" is -3.25) |
| `Loader.ToNumeric` | Limite8.py:118 | a number cell keeps its value; text that parses takes the parsed value; an empty cell and unparseable text become 0 |
| `Loader.CoerceColumn` | Limite8.py:118 | the column keeps its length and every cell becomes the number its cell coerces to |
| `Loader.CoerceColumnNumeric` | Limite8.py:118 | after coercion every cell is a number, number cells are unchanged and empty cells are 0 |
| `Loader.CoerceColumnIdempotent` | Limite8.py:116-118 | coercing a column twice is coercing it once |
| `Loader.CoercedStep` | Limite8.py:116-118 | handling one more name coerces that column when the frame has it and changes nothing else |
| `Loader.Frame.CoerceNumeric` | Limite8.py:115-118 | the loop leaves exactly the coerced columns of the listed names the frame has; no column is added or dropped; every listed column holds only numbers |
| `Loader.Frame.CoerceNumericColumns` | Limite8.py:115-118 | the loop over `colunas_numericas`: exactly the numeric columns the frame has are coerced, no column is added or dropped, and each of them holds only numbers |
| `Filter.ByBranch` | Limite8.py:166 | a row is kept iff it is in the input and its branch is selected, and no row more often than in the input |
| `Filter.BySeller` | Limite8.py:168 | a row is kept iff it is in the input and its salesperson is the chosen one, and no row more often than in the input |
| `Filter.Apply` | Limite8.py:164-168 | every row of the view passes both filters, and no row occurs more often than in the input |
| `Filter.ApplyIsSelection` | Limite8.py:164-168 | the two-stage filter equals the single-pass selection of the rows that pass both tests, in input order |
| `Filter.ApplyMembers` | Limite8.py:164-168 | a row is in the view iff it is in the input, its branch is selected (or nothing is selected) and its salesperson matches (or the choice is "Todos"); the view is a sub-multiset of the input |
| `Filter.SelectionMembers` | Limite8.py:164-168 | the reference selection holds exactly the input rows that pass both tests, none of them more often than in the input |
| `Filter.ApplyAppend` | Limite8.py:164-168 | filtering a concatenation filters each part, so row order is kept |
| `Filter.ApplySingleton` | Limite8.py:164-168 | a single row is kept exactly when it passes both tests |
| `Filter.ByBranchAppend` | Limite8.py:166 | the branch filter distributes over concatenation |
| `Filter.BySellerAppend` | Limite8.py:168 | the salesperson filter distributes over concatenation |
| `Filter.AbsentBranchesEmpty` | Limite8.py:165-166 | a non-empty selection of branches that no row has gives an empty view |
| `Filter.NothingKept` | Limite8.py:164-168 | when no row passes, the selection is empty |
| `Filter.NoFilterKeepsAll` | Limite8.py:164-168 | an empty branch selection with "Todos" keeps the whole dataset |
| `Totals.Headlines` | Limite8.py:173-177 | the three column sums, the portfolio as overdue plus upcoming, the rate with rate × portfolio = overdue × 100, and the rate 0 for a zero portfolio |
| `Totals.InadPctBounds` | Limite8.py:177 | with no negative amounts the rate lies between 0 and 100 |
| `Totals.HeadlinesAppend` | Limite8.py:173-175 | the totals of a split view are the sums of the parts' totals |
| `Totals.HeadlinesEmpty` | Limite8.py:173-177 | an empty view has all figures 0, the rate included |
| `Totals.InadPctExample` | Limite8.py:177 | 200 overdue out of a 1000 portfolio is a rate of 20 |
| `Dataset.Pct` | Limite8.py:177 | the guarded percentage: p × whole = part × 100 for a non-zero whole, and 0 otherwise |
| `Dataset.PctComplement` | Limite8.py:403-404 | the two shares of a non-zero total add up to 100 |
| `Dataset.PctBounds` | Limite8.py:177 | a non-negative part of a larger whole is between 0 and 100 percent |
| `Dataset.SumAppend` | Limite8.py:173 | a column sum over a concatenation is the sum of the parts' sums |
| `Dataset.SumNonNegative` | Limite8.py:173 | a column of non-negative amounts has a non-negative sum |
| `Grouping.Series` | Limite8.py:288 | one zero-filled sum per key, in key order, each the sum over the rows with that key |
| `Grouping.Counts` | Limite8.py:338 | one zero-filled count per key, in key order, each the number of rows with that key that satisfy the predicate |
| `Grouping.SeriesTotal` | Limite8.py:288-289 | the zero-filled sums over distinct keys add up to the sum over the rows whose key is one of them |
| `Grouping.CountsTotal` | Limite8.py:338-339 | the zero-filled counts over distinct keys add up to the count of rows whose key is one of them |
| `Grouping.SumInAll` | Limite8.py:288-289 | when every row's key is in the list, the per-key sums cover the whole column |
| `Grouping.CountInAll` | Limite8.py:338-339 | when every row's key is in the list and passes the predicate, the per-key counts cover every row |
| `Grouping.SumWhereAbsent` | Limite8.py:251-252 | a key no row carries gets the sum 0 |
| `Grouping.CountWhereAbsent` | Limite8.py:338 | a key no row carries gets the count 0 |
| `Grouping.CountWhereMono` | Limite8.py:387-390 | counting with a weaker predicate never gives fewer rows |
| `Grouping.Percentages` | Limite8.py:290 | each entry is that value's guarded percentage of the column total |
| `Grouping.PercentagesTotal` | Limite8.py:290 | percentages of a non-zero total add up to 100; of a zero total they are all 0 |
| `Grouping.PctOfTotal` | Limite8.py:290 | the percentages of a list of values add up to the percentage of their total |
| `Grouping.AsReals` | Limite8.py:339-340 | counts read as reals keep their values and their total |
| `Grouping.DistinctKeys` | Limite8.py:474 | the present keys, none repeated: every present key is in the list and every listed key is present |
| `StatusBreakdown.Chart` | Limite8.py:249-253 | four rows in the order Ruim, Regular, Bom, Ótimo, each holding the three column sums over the rows with that status |
| `StatusBreakdown.Table` | Limite8.py:287-297 | four rows in the order Ruim, Regular, Bom, Ótimo, each holding the column sum over the rows with that status |
| `StatusBreakdown.ClientCounts` | Limite8.py:338-340 | four rows in the fixed order, each holding the number of rows with that status |
| `StatusBreakdown.TableRows` | Limite8.py:287-297 | four rows in the fixed order; each holds the column sum for its status and that sum's guarded share of the column total |
| `StatusBreakdown.TableTotal` | Limite8.py:288-289 | the four sums add up to the column sum over rows with one of the four statuses, and to the whole column sum when every row has one |
| `StatusBreakdown.TablePercentages` | Limite8.py:290 | the percentage column adds up to 100 for a non-zero total and is all 0 otherwise |
| `StatusBreakdown.AbsentStatusZero` | Limite8.py:251-252 | a status no row carries keeps its row, with 0 sums and a 0 count |
| `StatusBreakdown.ChartMatchesHeadline` | Limite8.py:249-253 | when every row has one of the four statuses, the chart's overdue column adds up to the headline overdue total |
| `StatusBreakdown.ClientCountsRows` | Limite8.py:338-339 | one count per status in the fixed order, each the number of rows with that status; they add up to the rows with one of the four statuses |
| `StatusBreakdown.ClientCountsCoverAll` | Limite8.py:338-339 | when every row has one of the four statuses, the counts add up to the number of rows |
| `StatusBreakdown.ClientCountsPercentages` | Limite8.py:339-340 | each percentage is count × 100 / total; they add up to 100, or are all 0 when the total is 0 |
| `StatusBreakdown.OrdemStatusDistinct` | Limite8.py:248 | the status order lists each status once |
| `Tenure.ParseTenure` | Limite8.py:360 | the tenure is missing exactly when the text has no digit, and is never negative |
| `Tenure.NumberAt` | Limite8.py:360 | the number read at a digit is never negative, and its whole part is the value of the digit run there |
| `Tenure.ParseWholeAt` | Limite8.py:360 | a digit run after a digit-free prefix, not followed by "," and a digit, reads as its integer value |
| `Tenure.ParseFractionAt` | Limite8.py:360 | digits, ",", digits after a digit-free prefix read as the whole part plus the decimal fraction |
| `Tenure.FractionAt` | Limite8.py:360 | a number starting at a digit run followed by "," and digits is whole part plus fraction |
| `Tenure.ExampleFiveAndAHalf` | Limite8.py:360-375 | "5,5 anos" reads as 5.5 and is classified "6–10 anos" |
| `Tenure.ExampleNotInformed` | Limite8.py:360-365 | the text of an empty cell, "nan", is "Não informado" |
| `Tenure.Classify` | Limite8.py:363-375 | only a missing tenure is "Não informado" |
| `Tenure.LabelInjective` | Limite8.py:363-375 | distinct buckets have distinct labels, so grouping by bucket groups as grouping by the label text does |
| `Tenure.ClassifyInRange` | Limite8.py:363-375 | every tenure lands in the bucket whose bounds contain it: ≤ 2, ≤ 5, ≤ 10, ≤ 20, above 20 |
| `Tenure.ClassifyMonotone` | Limite8.py:363-375 | a longer tenure never lands in an earlier bucket |
| `Tenure.OrdemFaixasDistinct` | Limite8.py:397 | the bucket order lists each bucket once |
| `Tenure.Summary` | Limite8.py:384-399 | six lines in the `reindex` order |
| `Tenure.SummaryLines` | Limite8.py:377-402 | each line holds its bucket's overdue and upcoming sums, its counts of rows with a tax id, with overdue and with upcoming amounts, and its total as overdue plus upcoming |
| `Tenure.FaixaOfInOrder` | Limite8.py:377 | every row falls in one of the six listed buckets |
| `Tenure.SummaryCoversAll` | Limite8.py:384-399 | the buckets' overdue and upcoming sums add up to the view's totals |
| `Tenure.BucketCounts` | Limite8.py:379-392 | a bucket's three client figures are counts over the bucket's rows |
| `Tenure.BucketClientBounds` | Limite8.py:379-392 | when every row has a tax id, a bucket's client total is its row count and bounds its overdue and upcoming client counts |
| `Tenure.SummaryClientsTotal` | Limite8.py:384-392 | when every row has a tax id, the buckets' client totals add up to the number of rows |
| `Tenure.AbsentBucketZero` | Limite8.py:397-404 | a bucket no row falls in still has its line, with 0 in every column |
| `Tenure.SummaryLocalPercentages` | Limite8.py:402-404 | the two percentages are shares of the bucket's own total; they add up to 100, or are both 0 when that total is 0 |
| `Tenure.LocalPctAsWritten` | Limite8.py:403-404 | the division as written: the guarded share for a non-zero total, 0 for 0/0 (the `fillna(0)`), and for a non-zero part of a zero total an infinity with the part's sign |
| `Tenure.CancellingBucketIsInfinite` | Limite8.py:402-404 | a bucket holding one row whose overdue and upcoming amounts cancel has total 0 and an infinite `% Vencido` as written |
| `Tenure.Rank` | Limite8.py:397 | each bucket's place in the display order |
| `Sorting.Insert` | Limite8.py:476 | inserting adds exactly the new element |
| `Sorting.SortDesc` | Limite8.py:476 | the sort is a permutation of its input |
| `Sorting.SortDescSorted` | Limite8.py:476 | the sort's output is in non-increasing key order |
| `Sorting.SortDescStable` | Limite8.py:503 | elements with equal keys keep their input order |
| `Sorting.InsertSorted` | Limite8.py:476 | inserting into a sorted list keeps it sorted |
| `Sorting.InsertTies` | Limite8.py:503 | inserting adds the element to its key's ties ahead of them |
| `Sorting.Head` | Limite8.py:477 | the first n elements, or all of them when there are fewer |
| `Sorting.PermutationUnique` | Limite8.py:476 | a permutation of a list without repeats has no repeats |
| `Rankings.FirstStatusSpec` | Limite8.py:475 | `'Status': 'first'` is missing iff no row of the id has a status, and is otherwise the first status present among that id's rows |
| `Rankings.FirstStatus` | Limite8.py:475 | an id none of whose rows has a status gets no status |
| `Rankings.Debtors` | Limite8.py:474-475 | one group per distinct present tax id, in the order of the distinct ids, each with that id's summed overdue amount and first status |
| `Rankings.Numbered` | Limite8.py:480 | the element at place i gets position i + 1, and the length is kept |
| `Rankings.TopDebtors` | Limite8.py:474-480 | min(10, number of distinct tax ids) entries, numbered 1, 2, … with no gaps |
| `Rankings.TopDebtorsEntries` | Limite8.py:474-481 | each entry is a distinct present tax id with its summed overdue amount and first status; entries are in non-increasing overdue order |
| `Rankings.TopDebtorsAreLargest` | Limite8.py:476-477 | a present tax id left out of the ten owes no more than any entry |
| `Rankings.TopDebtorsTieExample` | Limite8.py:476-480 | two tied groups above a third keep their grouping order and are numbered 1, 2, 3 |
| `Rankings.Branches` | Limite8.py:493-501 | one line per distinct branch, each with the branch's overdue and upcoming sums, their sum as portfolio and the guarded rate |
| `Rankings.BranchRanking` | Limite8.py:493-504 | one line per branch of the view, numbered 1, 2, … with no gaps |
| `Rankings.BranchRankingLines` | Limite8.py:493-504 | each line is the group of one branch of the view |
| `Rankings.BranchRankingRates` | Limite8.py:498-501 | each line's portfolio is its overdue plus upcoming sums, its rate × portfolio = overdue × 100, and its rate is 0 for a zero portfolio |
| `Rankings.BranchRankingOrdered` | Limite8.py:503 | lines are in non-increasing rate order, with no branch twice |
| `Rankings.BranchRankingCovers` | Limite8.py:493-496 | every branch that has a row in the view has a line |
| `Dashboard.FiguresOf` | Limite8.py:173-504 | every view has four status rows per table, six tenure lines and at most ten debtors |
| `Dashboard.EmptyStatusRows` | Limite8.py:249-340 | an empty view still has the four status rows, in order: zero chart sums, zero sums and percentages in each of the three tables, zero counts and percentages |
| `Dashboard.EmptyTenureRows` | Limite8.py:397-404 | an empty view still has the six buckets, in order, each line 0 in every column |
| `Dashboard.Compute` | Limite8.py:164-504 | every figure is computed over exactly the rows that pass both filters, in input order |
| `Dashboard.EmptyRankings` | Limite8.py:474-504 | an empty view has empty rankings |
| `Dashboard.AbsentBranchesReportZero` | Limite8.py:164-177 | selecting only branches that no row has gives the empty view's figures: zero totals and empty rankings |

## Left out

- Rendering is not modelled: Streamlit layout, CSS, HTML cards, buttons, the Plotly charts and the rate card's colour threshold. They compute nothing the figures depend on.
- Reading the Excel file, the `st.cache_data` cache, the reload button, the `st.stop` error paths and the Excel export and download are I/O. They are not modelled.
- Header normalisation and the rename map are not modelled: they depend on the library's Unicode normalisation. A `Record` has the canonical fields already.
- The `astype(str).str.strip()` of `Filial` and `Vendedor` is not modelled: `Record` holds those strings already stripped.
- `.round(2)`, the `:.2f` formats and `formatar_moeda` are display. Every percentage is exact and unrounded.
- The widgets' option lists and defaults (every branch, "Todos") are UI. The filter takes the chosen branch set and salesperson as parameters.
- The guards `'TM' in df_filtrado.columns` (Limite8.py:356) and `'CNPJ_CPF' in df_filtrado.columns` (Limite8.py:473) are not modelled: every `Record` has both fields.
- `Loader.Frame.CoerceNumeric`: the coerced frame is not linked to the `Record`s. The aggregation stages take rows whose amounts are already coerced.
- `Loader.ParseNumber`: accepts only `[+-]digits[.digits]`, with digits on both sides of the point. `pd.to_numeric` also accepts "5." and ".5" (as 5.0 and 0.5), exponents, surrounding spaces, "inf" and "nan". For that text the model gives `None`, so the cell coerces to 0 where pandas may give a number.
- `Tenure.ParseTenure`: reads only ASCII digits. Python's `\d` also matches other Unicode decimal digits.
- `Tenure.ParseTenure`: reads the matched text as an exact decimal, where `astype(float)` rounds it to a binary float. For "2,0000000000000001" the source reads 2.0 and classifies "0–2 anos"; the model reads a value above 2 and gives "3–5 anos".
- `Rankings.TopDebtors`: groups are in order of first appearance, and ties keep that order through a stable sort. pandas groups in key order, and its default sort does not fix the order of ties. The model fixes one order that pandas may also produce.
- `Rankings.BranchRanking`: sorts on the exact rate. The source sorts on the rate rounded to two decimals. Rates equal after rounding are ordered by their exact value here.
- `Rankings.BranchRanking`: groups branches in order of first appearance, and ties in the rate keep that order through a stable sort. pandas groups by sorted `Filial` (Limite8.py:493), so tied branches may be listed in a different order. For example, two zero-rate branches "B" then "A" are ranked B first here; pandas would list A first.
- `StatusBreakdown.TablePercentages`: for a zero total the source's percentage column is the scalar 0. The model gives four zeros, which is how that scalar is displayed.

## Findings

| source | as written | input that shows it | evidently intended | confidence | as-written member | corrected member |
|---|---|---|---|---|---|---|
| Limite8.py:403-404 | `Vencido / Total_Faixa * 100`, then `fillna(0)`, which only replaces the NaN of 0/0 | a bucket whose one row has Vencido 50 and A_Vencer -50: its total is 0, so `% Vencido` is +infinity and is displayed as "inf%" | a 0 share for a bucket whose total is 0, like the `replace([inf, -inf], 0)` of the branch ranking at Limite8.py:501 | low: it needs negative upcoming amounts; not executed | `Tenure.CancellingBucketIsInfinite` | `Tenure.SummaryLocalPercentages` |

The tenure summary, `Tenure.Summary`, uses the corrected, guarded share `Pct`.
`Tenure.LocalPctAsWritten` is the expression as written.
