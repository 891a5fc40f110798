# ETL transforms over pandas tables, modelled in Dafny

This project models the transformation layer of a small ETL pipeline. The
pipeline reads tables, reshapes them with pandas, and hands the result to a
loader. The model covers three parts:

- **The SQL-style helper library** (`SQl_df`): a stateless object whose
  methods do the usual relational operations on a DataFrame. These are:
  cleaning labels, coercing a column to numbers, join, filter (WHERE),
  projection (SELECT), group-by with a count or an aggregate, a range
  classification (CASE WHEN), a pivot of values into count columns, a
  rollup with a subtotal per group and a grand total, and the report order
  that puts subtotals after their group and the grand total last.
- **The marketplace `Transform`**. Rentals are coerced, joined with their
  segments on the product code, and kept when at least 25 months were paid.
  They are then projected, counted per customer site, classified by unit
  count ('1-2', '3-5', '6 or more') and rolled up per marketplace and
  category. Each row counts the 'Seg 1-3' sites, the 'Seg 4-6' sites and
  all sites. Each marketplace gets a 'Total' row and the report gets a
  'Grand Total' row, all in report order.
- **The hospital `Transform`**. Every extracted table has its labels
  cleaned in place. The first two tables are coerced and joined on the age
  range. Bills of at least 1000 are kept and classified ('<5000', '<10000',
  '>10000'). The rows are pivoted into patient counts per province, bill
  category and age group (Child, Adult, Elderly). The helper library's
  rollup and ordering finish the report.

A table is a `Tables.Table`: a header of labels and rows of cells, every row
as long as the header. A cell is a `Values.Value`: text, an integer, a
boolean, or missing (NaN). `Tables.Cell(t, i, c)` reads the cell at row i
under label c. It is total: it gives `Missing` outside the table, as a
pandas lookup that aligns on the index would. Column-level contracts are
stated through it. Python exceptions become `Err(KeyError(label))`,
`Err(ValueError(message))` or `Err(TypeError(message))` of a `Result`. The
model keeps the order in which pandas meets them.

Where the source changes a caller's object, the model is imperative:

- `SqlColumns.RenameColumns` relabels a `Tables.DataFrame` in place.
- `SqlOrder.OrderByGrouping` writes its two flag columns into the caller's
  DataFrame before sorting, as `df_orderby_grouping` does.
- `Hospital.RunTransform` relabels every table of the dictionary of frames
  in place.
- `Marketplace.Transform` keeps the configuration that `_transform` records
  in its fields.
- `SqlRollup.GroupByRollup` builds the grand-total row with a loop over the
  numeric columns, filling a dictionary.

Each of these imperative members is proved equal to a specification function. The properties
the reports rely on are proved about those functions:

- the group counts add up;
- the grand totals equal the column sums;
- the subtotals add up to the grand total when no row lacks its first
  grouping key; a row with a missing key counts in the grand total but in
  no subtotal;
- the ordered report is a permutation of its unordered rows;
- the grand-total row is last, and each subtotal follows the detail rows of
  its group.

An absent grouping column in the ordering raises `KeyError`, and the
ordering's flag columns are written into the caller's table.

## Model

| member | source | states |
|---|---|---|
| Values.Coerce | src/etl_pipeline/utils/SQL_with_Dataframes.py:36-43 | a coerced cell is a number exactly when its text, with commas removed, parses as an integer, and missing otherwise |
| Values.StripCommasCount | src/etl_pipeline/utils/SQL_with_Dataframes.py:36-40 | removing commas keeps every other character with its multiplicity and removes all commas |
| Values.ParseShowInt | src/etl_pipeline/utils/SQL_with_Dataframes.py:38-43 | printing an integer and parsing it back gives the same integer |
| Values.CoerceNumber | src/etl_pipeline/utils/SQL_with_Dataframes.py:36-43 | a cell that already holds a number keeps it |
| Values.CoerceIdempotent | src/etl_pipeline/utils/SQL_with_Dataframes.py:36-43 | coercing twice is coercing once |
| Values.CoerceGroupedDigits | src/etl_pipeline/utils/SQL_with_Dataframes.py:36-43 | any text whose comma-stripped form is a run of digits (such as "1,000") becomes that number |
| Values.CoerceNegativeGroupedDigits | src/etl_pipeline/utils/SQL_with_Dataframes.py:36-43 | any text made of a minus sign and comma-grouped digits becomes the negated number |
| Values.ParsedChars | src/etl_pipeline/utils/SQL_with_Dataframes.py:42-43 | text that parses as a number holds only digits, apart from a leading sign |
| Values.CoerceNonNumeric | src/etl_pipeline/utils/SQL_with_Dataframes.py:42-43 | any text holding a character other than a digit, a comma or a sign becomes missing |
| Values.CoerceMissing | src/etl_pipeline/utils/SQL_with_Dataframes.py:36-43 | a missing cell stays missing (its text "nan" does not parse) |
| Values.ValueLeTotalOrder | src/etl_pipeline/utils/SQL_with_Dataframes.py:283-285 | the order in which cells sort is reflexive, total, antisymmetric and transitive |
| SqlColumns.NormalizeName | src/etl_pipeline/utils/SQL_with_Dataframes.py:23-24 | a cleaned label has the same length, no space and no slash, and has '_' exactly where the label had a space or a slash |
| SqlColumns.NormalizeColumns | src/etl_pipeline/utils/SQL_with_Dataframes.py:23-24 | every label of the header is cleaned, at its own position |
| SqlColumns.NormalizeIdempotent | src/etl_pipeline/utils/SQL_with_Dataframes.py:19-25 | cleaning an already cleaned header changes nothing |
| SqlColumns.NormalizeKeepsCleanLabels | src/etl_pipeline/utils/SQL_with_Dataframes.py:19-25 | a label without spaces or slashes is left as it is |
| SqlColumns.NormalizeSeparates | src/etl_pipeline/utils/SQL_with_Dataframes.py:23-24 | labels that differ at a position where one holds a character other than space, slash or underscore stay different after cleaning |
| SqlColumns.RenameColumns | src/etl_pipeline/utils/SQL_with_Dataframes.py:19-25 | the DataFrame given is relabelled in place with the cleaned header, its rows are untouched, and the same object is returned |
| SqlColumns.ConvertToNumeric | src/etl_pipeline/utils/SQL_with_Dataframes.py:27-45 | an absent column is a KeyError; otherwise a copy with the same header and row count, each cell of the column coerced and every other cell unchanged |
| SqlColumns.ConvertToNumericSettles | src/etl_pipeline/utils/SQL_with_Dataframes.py:27-45 | after conversion the column holds only numbers and missing cells, and converting again changes nothing |
| SqlColumns.SelectColumns | src/etl_pipeline/utils/SQL_with_Dataframes.py:80-84 | selection succeeds exactly when every requested label exists, and otherwise raises a KeyError naming an absent one; the result has the requested header and each row's cells under those labels |
| SqlFilter.Symbol | src/etl_pipeline/utils/SQL_with_Dataframes.py:62-69 | each comparison has one of the six supported operator symbols |
| SqlFilter.ParseOperator | src/etl_pipeline/utils/SQL_with_Dataframes.py:62-73 | an operator is recognised exactly when it is one of the six keys, and it then maps to the comparison of that symbol |
| SqlFilter.ParseSymbol | src/etl_pipeline/utils/SQL_with_Dataframes.py:62-69 | reading back a comparison's symbol gives that comparison |
| SqlFilter.Kept | src/etl_pipeline/utils/SQL_with_Dataframes.py:63-78 | the positions kept are exactly the rows whose cell satisfies the comparison |
| SqlFilter.KeptInOrder | src/etl_pipeline/utils/SQL_with_Dataframes.py:78 | the kept positions are strictly increasing, so the filter keeps row order |
| SqlFilter.Where | src/etl_pipeline/utils/SQL_with_Dataframes.py:78 | the filtered table has the same header and holds, in order, the rows at the kept positions, each satisfying the comparison |
| SqlFilter.WhereIdempotent | src/etl_pipeline/utils/SQL_with_Dataframes.py:57-78 | filtering twice with the same condition is filtering once |
| SqlFilter.ApplyFilters | src/etl_pipeline/utils/SQL_with_Dataframes.py:57-78 | KeyError for an absent column, TypeError when the column holds text (all six comparisons are evaluated first), ValueError("Invalid operator") for an unknown operator; otherwise exactly the rows that satisfy the comparison |
| SqlJoin.RightPartners | src/etl_pipeline/utils/SQL_with_Dataframes.py:51-55 | the right rows paired with a left row are exactly those with an equal key cell, a missing key matching a missing key |
| SqlJoin.LeftPartners | src/etl_pipeline/utils/SQL_with_Dataframes.py:51-55 | the left rows paired with a right row are exactly those with an equal key cell, a missing key matching a missing key |
| SqlJoin.Links | src/etl_pipeline/utils/SQL_with_Dataframes.py:51-55 | a left or full outer join yields at least one row per left row, a right join at least one per right row |
| SqlJoin.LinksExact | src/etl_pipeline/utils/SQL_with_Dataframes.py:51-55 | for each join type, a pairing appears exactly when the type admits it: matched pairs always, unmatched left rows for left and full joins, unmatched right rows for right and full joins |
| SqlJoin.KeyColumnsMatch | src/etl_pipeline/utils/SQL_with_Dataframes.py:51-53 | two rows are paired exactly when both exist and their cells under the key are equal, a missing key matching a missing key |
| SqlJoin.LinksInRange | src/etl_pipeline/utils/SQL_with_Dataframes.py:51-55 | every pairing refers to rows that exist |
| SqlJoin.JoinColumns | src/etl_pipeline/utils/SQL_with_Dataframes.py:51-55 | the joined header is the left header (clashing labels suffixed _x) followed by the right labels other than the key (clashing ones suffixed _y) |
| SqlJoin.Join | src/etl_pipeline/utils/SQL_with_Dataframes.py:47-55 | a key absent from either side is a KeyError; a numeric key column against a string-like one, both sides having rows, is a ValueError; otherwise one row per pairing the join type admits, laid out under the joined header |
| SqlJoin.JoinedPairCells | src/etl_pipeline/utils/SQL_with_Dataframes.py:51-55 | a matched row carries the whole left row, the shared key, and the right row's other cells after it |
| SqlJoin.JoinedLoneRightCells | src/etl_pipeline/utils/SQL_with_Dataframes.py:51-55 | a right row without partner carries its key under the key label and missing cells under every other left label |
| SqlGroup.GroupKey | src/etl_pipeline/utils/SQL_with_Dataframes.py:93 | a row's group key is its cells under the grouping labels, in order |
| SqlGroup.Grouped | src/etl_pipeline/utils/SQL_with_Dataframes.py:93 | the rows that take part in grouping are exactly those with no missing key cell |
| SqlGroup.Groups | src/etl_pipeline/utils/SQL_with_Dataframes.py:93-94 | the groups are the distinct keys of the grouped rows, each once |
| SqlGroup.CheckKeys | src/etl_pipeline/utils/SQL_with_Dataframes.py:93 | grouping keys are accepted exactly when there is at least one and all exist; no key is a ValueError, an absent one a KeyError naming it |
| SqlGroup.GroupByCount | src/etl_pipeline/utils/SQL_with_Dataframes.py:86-96 | one row per group holding its key and, under the counter label, the number of rows with that key |
| SqlGroup.GroupByCountPartitions | src/etl_pipeline/utils/SQL_with_Dataframes.py:86-96 | every grouped row falls in exactly one group, every group counts at least one row, and the counts add up to the number of grouped rows |
| SqlGroup.AggCells | src/etl_pipeline/utils/SQL_with_Dataframes.py:107-109 | the aggregated cells are the value cells of the grouped rows, in order |
| SqlGroup.Aggregated | src/etl_pipeline/utils/SQL_with_Dataframes.py:104-110 | one row per group holding its key and the aggregate of the group's value cells: for a group holding text, its texts joined or their alphabetical extreme |
| SqlGroup.GroupByAgg | src/etl_pipeline/utils/SQL_with_Dataframes.py:98-110 | bad keys or an absent value column raise the corresponding error; a sum, min or max raises TypeError exactly when some group holds both text and numbers; otherwise one aggregated row per group |
| SqlGroup.GroupTotalsAddUp | src/etl_pipeline/utils/SQL_with_Dataframes.py:98-110 | the per-group sums add up to the sum over all grouped rows, and so do the per-group counts |
| SqlGroup.TextExtremeBound | src/etl_pipeline/utils/SQL_with_Dataframes.py:104-110 | the alphabetical extreme of a group's texts is at least as extreme as each of them |
| SqlGroup.TextMinimum | src/etl_pipeline/utils/SQL_with_Dataframes.py:104-110 | in a group holding text, the minimum is one of its texts and alphabetically no later than any |
| SqlGroup.NumberMinimum | src/etl_pipeline/utils/SQL_with_Dataframes.py:104-110 | in a group without text, the minimum is missing exactly when it has no number, and otherwise one of its numbers and no larger than any |
| SqlGroup.GroupMinimum | src/etl_pipeline/utils/SQL_with_Dataframes.py:98-110 | a group's minimum is the alphabetically first of its texts when it holds text; otherwise it is missing exactly when the group has no number, and else one of its numbers and no larger than any of them |
| SqlGroup.JoinedLength | src/etl_pipeline/utils/SQL_with_Dataframes.py:104-110 | the sum of a group's texts is as long as its texts together |
| SqlGroup.JoinedTextsAddUp | src/etl_pipeline/utils/SQL_with_Dataframes.py:98-110 | the text sums of all groups together are as long as all the texts of the grouped rows |
| Grouping.Extreme | src/etl_pipeline/utils/SQL_with_Dataframes.py:109 | the extreme of a key's present values is absent exactly when there is none, and is otherwise one of them and at least as extreme as each |
| Grouping.PartitionSum | src/etl_pipeline/utils/SQL_with_Dataframes.py:104-110 | summing per distinct key and then adding the sums gives the total of all weights |
| Grouping.CountsAddUp | src/etl_pipeline/utils/SQL_with_Dataframes.py:91-96 | the counts of the distinct keys add up to the number of keyed rows |
| Grouping.CrossTabRowTotal | src/etl_pipeline/utils/SQL_with_Dataframes.py:203-215 | summing a pair count over every value of the second key gives the count of the first key |
| SqlCase.FirstRange | src/etl_pipeline/utils/SQL_with_Dataframes.py:134-144 | the range chosen holds the value and no earlier range does; none is chosen only when no range holds it |
| SqlCase.Label | src/etl_pipeline/utils/SQL_with_Dataframes.py:140-144 | the label is that of the first range holding the value, or the default when none does |
| SqlCase.Labelled | src/etl_pipeline/utils/SQL_with_Dataframes.py:131-146 | the result keeps the chosen columns' cells, adds the new label column, and each row's label is that of its value |
| SqlCase.Case | src/etl_pipeline/utils/SQL_with_Dataframes.py:112-146 | errors in the order the helper meets them: ValueError when ranges and labels differ in length, KeyError for an absent kept label, then with no range the ValueError of `np.select` (the value column is never read), else KeyError for a value label outside the kept ones and TypeError for text in the value column; succeeds exactly when none applies, with the labelled table |
| SqlCase.DisjointRangesLabel | src/etl_pipeline/utils/SQL_with_Dataframes.py:134-144 | with non-overlapping ranges, a value gets the label of the range that holds it |
| SqlPivot.CountedRows | src/etl_pipeline/utils/SQL_with_Dataframes.py:196-208 | the counted rows are exactly those whose value is one of the listed values and whose two keys are present |
| SqlPivot.Unseen | src/etl_pipeline/utils/SQL_with_Dataframes.py:215 | reports a listed value that no counted row holds (whose column the total would miss), and reports none exactly when every value occurs |
| SqlPivot.PivotGroups | src/etl_pipeline/utils/SQL_with_Dataframes.py:203-208 | the pivot groups are the distinct key pairs of the counted rows, each once |
| SqlPivot.Tallies | src/etl_pipeline/utils/SQL_with_Dataframes.py:203-208 | one count per listed value, in the column order |
| SqlPivot.PivotBody | src/etl_pipeline/utils/SQL_with_Dataframes.py:194-212 | one row per group: its two keys, then its count for each value |
| SqlPivot.PivotKeyCells | src/etl_pipeline/utils/SQL_with_Dataframes.py:203-211 | each pivot row holds its group's two key cells under the grouping labels |
| SqlPivot.PivotTallyCell | src/etl_pipeline/utils/SQL_with_Dataframes.py:203-208 | under each value's label, a pivot row holds how many counted rows of its group have that value (0 when none) |
| SqlPivot.PivotBodyCells | src/etl_pipeline/utils/SQL_with_Dataframes.py:194-212 | a pivot row's key cells and value counts together |
| SqlPivot.Pivot | src/etl_pipeline/utils/SQL_with_Dataframes.py:180-217 | absent labels are KeyErrors and a value that never occurs is a KeyError from the total; otherwise the pivot body with a Grand_Total column equal to each row's sum of value counts |
| SqlPivot.RowTotalCountsGroup | src/etl_pipeline/utils/SQL_with_Dataframes.py:215 | a row's Grand_Total is the number of counted rows in its group |
| SqlPivot.GrandTotalsAddUp | src/etl_pipeline/utils/SQL_with_Dataframes.py:215 | the Grand_Total column adds up to the number of counted rows |
| SqlRollup.NumericLabels | src/etl_pipeline/utils/SQL_with_Dataframes.py:253 | the numeric labels are exactly the columns that hold only numbers and missing cells |
| SqlRollup.Keyed | src/etl_pipeline/utils/SQL_with_Dataframes.py:232-235 | the rows taking part in subtotals are exactly those with a first grouping key |
| SqlRollup.SubtotalGroups | src/etl_pipeline/utils/SQL_with_Dataframes.py:232-235 | the subtotal groups are the distinct first keys, each once |
| SqlRollup.GroupSums | src/etl_pipeline/utils/SQL_with_Dataframes.py:235 | a group's sums are, per summed column, the sum of that column over the group's rows |
| SqlRollup.Subtotals | src/etl_pipeline/utils/SQL_with_Dataframes.py:232-236 | one subtotal row per first key: the key, then the group's sums |
| SqlRollup.SubtotalsCells | src/etl_pipeline/utils/SQL_with_Dataframes.py:232-236 | a subtotal row holds its key and, under each summed column, the group's sum |
| SqlRollup.TotalledSubtotals | src/etl_pipeline/utils/SQL_with_Dataframes.py:232-239 | one subtotal row per first key, with the total label under the second grouping column |
| SqlRollup.TotalledSubtotalsCells | src/etl_pipeline/utils/SQL_with_Dataframes.py:232-239 | a subtotal row holds its key, the total label, and the group's sum under each summed column |
| SqlRollup.GrandTable | src/etl_pipeline/utils/SQL_with_Dataframes.py:245-256 | the grand-total row holds each numeric column's total, the total label under the second grouping column, and the grand-total label under the first |
| SqlRollup.GrandRowTable | src/etl_pipeline/utils/SQL_with_Dataframes.py:256 | a one-row table from a dictionary keeps its labels in insertion order and each label's value |
| SqlRollup.GrandRowIsGrandTable | src/etl_pipeline/utils/SQL_with_Dataframes.py:247-256 | the dictionary the loop fills gives the grand-total row |
| SqlRollup.GrandRowStart | src/etl_pipeline/utils/SQL_with_Dataframes.py:247-250 | the dictionary starts with the grand-total and total labels, as the row needs before any numeric column |
| SqlRollup.GrandRowStep | src/etl_pipeline/utils/SQL_with_Dataframes.py:253-254 | writing one more column total keeps the dictionary equal to the row built so far |
| SqlRollup.RollupSpec | src/etl_pipeline/utils/SQL_with_Dataframes.py:221-260 | KeyError exactly when the first grouping column is absent; otherwise one subtotal row per first key followed by one grand-total row |
| SqlRollup.GroupByRollup | src/etl_pipeline/utils/SQL_with_Dataframes.py:221-260 | the loop over the numeric columns returns what the rollup specifies |
| SqlRollup.SubtotalCells | src/etl_pipeline/utils/SQL_with_Dataframes.py:232-239 | each subtotal row holds its key, the total label, and its group's sum of every numeric column |
| SqlRollup.GrandTotalCells | src/etl_pipeline/utils/SQL_with_Dataframes.py:245-258 | the last row holds every numeric column's total, the total label, and the grand-total label |
| SqlRollup.SubtotalsAddUp | src/etl_pipeline/utils/SQL_with_Dataframes.py:232-245 | the subtotals of a column add up to its sum over the keyed rows |
| SqlRollup.KeyedIsWhole | src/etl_pipeline/utils/SQL_with_Dataframes.py:245 | when every row has a first key, the sum over keyed rows is the column's total |
| SqlOrder.Marks | src/etl_pipeline/utils/SQL_with_Dataframes.py:273-276 | a flag is true exactly where the cell is the given label |
| SqlOrder.GroupingOrder | src/etl_pipeline/utils/SQL_with_Dataframes.py:262-290 | KeyError for an absent first, then second, grouping column; a success keeps the row count |
| SqlOrder.MarkGrandFacts | src/etl_pipeline/utils/SQL_with_Dataframes.py:273 | the grand flag marks the grand-total rows and every other cell is unchanged |
| SqlOrder.MarkTotalFacts | src/etl_pipeline/utils/SQL_with_Dataframes.py:276 | the subtotal flag marks the total rows and every other cell is unchanged |
| SqlOrder.FlaggedFacts | src/etl_pipeline/utils/SQL_with_Dataframes.py:273-276 | after both flags, the original cells are unchanged and both flag columns hold the booleans that mark the labels |
| SqlOrder.SortSucceeds | src/etl_pipeline/utils/SQL_with_Dataframes.py:283-285 | with both grouping columns present, the four-key sort succeeds, even when a grouping column mixes text with numbers |
| SqlOrder.GroupingOrderOk | src/etl_pipeline/utils/SQL_with_Dataframes.py:262-290 | the ordering succeeds exactly when both grouping columns exist, whatever their cells hold, and its header is the input's without the flags |
| SqlOrder.OrderByGrouping | src/etl_pipeline/utils/SQL_with_Dataframes.py:262-290 | returns the ordered table, and leaves the caller's DataFrame with the flag columns it wrote before any error or the sort |
| SqlOrder.SortedRowFlags | src/etl_pipeline/utils/SQL_with_Dataframes.py:273-288 | when both grouping columns exist and differ from the two flag labels, the ordering succeeds and after sorting, each row's flags still mark its own labels, and dropping the flags keeps its grouping cells |
| SqlOrder.SortedPair | src/etl_pipeline/utils/SQL_with_Dataframes.py:283-285 | when both grouping columns exist and differ from the two flag labels, the ordering succeeds and any two rows are in order by (grand flag, first key, subtotal flag, second key) |
| SqlOrder.GrandTotalLast | src/etl_pipeline/utils/SQL_with_Dataframes.py:265-269 | when both grouping columns exist and differ from the two flag labels, the ordering succeeds and no row follows a grand-total row that is not itself one |
| SqlOrder.FirstColumnOrdered | src/etl_pipeline/utils/SQL_with_Dataframes.py:283-285 | when both grouping columns exist and differ from the two flag labels, the ordering succeeds and apart from grand totals, rows come in order of the first grouping column |
| SqlOrder.SubtotalAfterDetail | src/etl_pipeline/utils/SQL_with_Dataframes.py:265-269 | when both grouping columns exist and differ from the two flag labels, the ordering succeeds and within a first key, no detail row follows its subtotal row |
| SqlOrder.SecondColumnOrdered | src/etl_pipeline/utils/SQL_with_Dataframes.py:283-285 | when both grouping columns exist and differ from the two flag labels, the ordering succeeds and within a first key, detail rows come in order of the second grouping column |
| SqlOrder.ReshapeIsLay | src/etl_pipeline/utils/SQL_with_Dataframes.py:288 | dropping columns lays each row out under the remaining labels |
| SqlOrder.OrderIsPermutation | src/etl_pipeline/utils/SQL_with_Dataframes.py:283-288 | when both grouping columns exist and differ from the two flag labels, the ordering succeeds and the ordered rows are a permutation of the input rows, read under the output header |
| Sorting.KeyLeTotal | src/etl_pipeline/utils/SQL_with_Dataframes.py:283-285 | any two sort keys are comparable |
| Sorting.KeyLeTransitive | src/etl_pipeline/utils/SQL_with_Dataframes.py:283-285 | the order on sort keys is transitive |
| Sorting.KeyLeAntisymmetric | src/etl_pipeline/utils/SQL_with_Dataframes.py:283-285 | keys ordered both ways are equal |
| Sorting.Insert | src/etl_pipeline/utils/SQL_with_Dataframes.py:283-285 | inserting a row adds exactly that row |
| Sorting.InsertSorted | src/etl_pipeline/utils/SQL_with_Dataframes.py:283-285 | inserting into sorted rows keeps them sorted |
| Sorting.SortRows | src/etl_pipeline/utils/SQL_with_Dataframes.py:283-285 | the sorted rows are a permutation of the input and ordered by the key |
| Sorting.SortValues | src/etl_pipeline/utils/SQL_with_Dataframes.py:283-285 | an absent key label is a KeyError; a single key mixing text and numbers is a TypeError, while several keys order such a column numbers first; otherwise the same header, the same rows as a multiset, in key order |
| Sorting.KeyIsCells | src/etl_pipeline/utils/SQL_with_Dataframes.py:283-285 | a row's sort key is its cells under the key labels |
| Sorting.MapPermutation | src/etl_pipeline/utils/SQL_with_Dataframes.py:288 | reshaping each row keeps a permutation a permutation |
| Tables.SetColumn | src/etl_pipeline/utils/SQL_with_Dataframes.py:239 | assigning a column replaces it, or appends it when absent, and leaves every other cell unchanged |
| Tables.Project | src/etl_pipeline/utils/SQL_with_Dataframes.py:131 | the projection has the chosen header and each row's cells under those labels |
| Tables.Concat | src/etl_pipeline/utils/SQL_with_Dataframes.py:258 | the first table's rows, then the second's, under the first header extended by the second's new labels; a row missing a label reads as missing |
| Tables.DropColumns | src/etl_pipeline/utils/SQL_with_Dataframes.py:288 | the dropped labels leave the header and every other cell is unchanged |
| Tables.Pick | src/etl_pipeline/utils/SQL_with_Dataframes.py:78 | a boolean mask keeps the chosen rows in order under the same header |
| Hospital.Relabel | src/etl_pipeline/transform/transform_hospital.py:16-22 | a relabelled table has the cleaned header and the same rows |
| Hospital.RelabelAll | src/etl_pipeline/transform/transform_hospital.py:32-34 | every table is relabelled, in order |
| Hospital.FilteredBills | src/etl_pipeline/transform/transform_hospital.py:62-66 | every row left by the filter has a bill of at least 1000 |
| Hospital.SelectedBills | src/etl_pipeline/transform/transform_hospital.py:68-70 | after the selection every bill is a number of at least 1000 |
| Hospital.BillLabel | src/etl_pipeline/transform/transform_hospital.py:72-84 | a bill of at least 1000 is labelled '<5000' up to 5000, '<10000' up to 9999, and '>10000' above |
| Hospital.ClassifiedBills | src/etl_pipeline/transform/transform_hospital.py:72-84 | the classified table keeps the four chosen columns, adds Category, and each row's category is the one its bill amount gives |
| Hospital.BaseCountsPatients | src/etl_pipeline/transform/transform_hospital.py:86-92 | each base row's Grand_Total is the number of patients of its province and category in the three age groups |
| Hospital.BaseTotalsAddUp | src/etl_pipeline/transform/transform_hospital.py:86-92 | the base's Grand_Total column adds up to the number of patients counted |
| Hospital.Report | src/etl_pipeline/transform/transform_hospital.py:39-44 | fewer than two tables is a ValueError; otherwise the report of the first two, the rest ignored |
| Hospital.ReportRowCount | src/etl_pipeline/transform/transform_hospital.py:86-106 | the report has one row per base row, one per province, and one grand-total row |
| Hospital.ReportIsOrder | src/etl_pipeline/transform/transform_hospital.py:100-106 | the report is the grouping order of the base followed by its rollup |
| Hospital.ReportGrandTotalLast | src/etl_pipeline/transform/transform_hospital.py:102-106 | the grand-total rows of the report come last |
| Hospital.ReportSubtotalAfterCategories | src/etl_pipeline/transform/transform_hospital.py:102-106 | a province's total row follows all of its category rows |
| Hospital.ReportOrdered | src/etl_pipeline/transform/transform_hospital.py:102-106 | provinces come in order and, within one, categories come in order |
| Hospital.ReportIsPermutation | src/etl_pipeline/transform/transform_hospital.py:100-106 | the report's rows are those of the base and its rollup, reordered |
| Hospital.Snapshot | src/etl_pipeline/transform/transform_hospital.py:39 | the tables of the dictionary, in its key order |
| Hospital.SnapshotRelabelled | src/etl_pipeline/transform/transform_hospital.py:32-39 | when each stored table is the relabelling of an earlier one, the snapshot is the relabelled earlier snapshot |
| Hospital.RenameAt | src/etl_pipeline/transform/transform_hospital.py:34 | one table of the dictionary is relabelled in place and its rows kept |
| Hospital.RenameFrames | src/etl_pipeline/transform/transform_hospital.py:32-34 | after the loop every table of the dictionary is relabelled in place |
| Hospital.RunChain | src/etl_pipeline/transform/transform_hospital.py:44-108 | the chain from the first two tables returns their report |
| Hospital.Prepare | src/etl_pipeline/transform/transform_hospital.py:46-84 | coercion, join, filter, selection and classification give the classified table |
| Hospital.Summarise | src/etl_pipeline/transform/transform_hospital.py:94-106 | rollup, concatenation and ordering give the summary of the base |
| Hospital.RunTransform | src/etl_pipeline/transform/transform_hospital.py:27-108 | every table of the dictionary ends relabelled and the result is the report of the relabelled tables |
| Hospital.Transform.constructor | src/etl_pipeline/transform/transform_hospital.py:6-14 | the object keeps the dictionary, whose tables end relabelled, and its data is the report |
| Marketplace.FilterRows | src/etl_pipeline/transform/transform_code.py:94-110 | like the library filter, but an unknown operator's message names it and the supported operators |
| Marketplace.ClassifyCategories | src/etl_pipeline/transform/transform_code.py:133-149 | the classification fails only for a missing column or text among the counts; each site's category is the one its unit count gives |
| Marketplace.UnitLabel | src/etl_pipeline/transform/transform_code.py:136-147 | one or two units give '1-2', three to five '3-5', anything else '6 or more' |
| Marketplace.PairKeys | src/etl_pipeline/transform/transform_code.py:165 | each row's key is its marketplace and category, missing values included |
| Marketplace.BaseGroups | src/etl_pipeline/transform/transform_code.py:163-174 | the base groups are the distinct (marketplace, category) pairs, each once |
| Marketplace.SegmentIs | src/etl_pipeline/transform/transform_code.py:168-169 | a row counts 1 toward a segment exactly when its segment is that text |
| Marketplace.SegmentPresent | src/etl_pipeline/transform/transform_code.py:170 | a row counts 1 toward the 'Grand Total' count exactly when its segment is present |
| Marketplace.BaseRow | src/etl_pipeline/transform/transform_code.py:163-174 | a base row holds its two keys and three counts |
| Marketplace.Base | src/etl_pipeline/transform/transform_code.py:163-174 | the base exists exactly when the three columns do; it has one row per (marketplace, category) pair |
| Marketplace.BaseCells | src/etl_pipeline/transform/transform_code.py:163-174 | a base row holds its keys, its 'Seg 1-3' and 'Seg 4-6' counts and its count of present segments |
| Marketplace.GrandTotalCoversSegments | src/etl_pipeline/transform/transform_code.py:168-170 | a row's 'Grand Total' is at least its two segment counts together |
| Marketplace.BasePartitions | src/etl_pipeline/transform/transform_code.py:163-174 | every row falls in exactly one base group, and the 'Grand Total' counts add up to the present segments |
| Marketplace.MarketSubtotals | src/etl_pipeline/transform/transform_code.py:176-186 | one subtotal row per marketplace |
| Marketplace.MarketSubtotalRowCells | src/etl_pipeline/transform/transform_code.py:176-186 | a subtotal row holds its marketplace, 'Total', and the marketplace's sum of each count |
| Marketplace.MarketGrandRow | src/etl_pipeline/transform/transform_code.py:188-194 | the grand total is a single row |
| Marketplace.MarketGrandRowCells | src/etl_pipeline/transform/transform_code.py:188-194 | the grand-total row holds 'Grand Total', 'Total' and each count column's sum |
| Marketplace.Unordered | src/etl_pipeline/transform/transform_code.py:196-199 | the concatenation has the base rows, one subtotal per marketplace, and the grand total |
| Marketplace.UnorderedColumns | src/etl_pipeline/transform/transform_code.py:196-199 | the concatenation keeps the base's five labels |
| Marketplace.MarketSubtotalCells | src/etl_pipeline/transform/transform_code.py:176-199 | in the concatenation, each subtotal row after the base holds its marketplace, 'Total' and its sums |
| Marketplace.MarketGrandCells | src/etl_pipeline/transform/transform_code.py:188-199 | the concatenation's last row is the grand total |
| Marketplace.MarketSubtotalsAddUp | src/etl_pipeline/transform/transform_code.py:176-194 | when every marketplace is present, the subtotals of a count add up to its grand total |
| Marketplace.MarketplaceRollup | src/etl_pipeline/transform/transform_code.py:151-212 | the rollup has one row per base group, one per marketplace and the grand total |
| Marketplace.RollupIsOrder | src/etl_pipeline/transform/transform_code.py:201-210 | the rollup is the concatenation sorted by the four keys with the flags dropped |
| Marketplace.RollupSucceeds | src/etl_pipeline/transform/transform_code.py:163-210 | the rollup succeeds exactly when the base does, whatever the key columns hold; its header is the base's |
| Marketplace.BaseColumnsKept | src/etl_pipeline/transform/transform_code.py:209 | dropping the flags leaves the five base labels |
| Marketplace.ReportGrandTotalLast | src/etl_pipeline/transform/transform_code.py:201-210 | the grand-total rows come last |
| Marketplace.ReportSubtotalAfterCategories | src/etl_pipeline/transform/transform_code.py:201-210 | a marketplace's 'Total' row follows all of its category rows |
| Marketplace.ReportMarketsOrdered | src/etl_pipeline/transform/transform_code.py:204-208 | apart from the grand total, marketplaces come in order, and within a marketplace the categories other than its total come in order |
| Marketplace.ReportIsPermutation | src/etl_pipeline/transform/transform_code.py:196-210 | the rollup's rows are those of the concatenation, reordered |
| Marketplace.Transform.constructor | src/etl_pipeline/transform/transform_code.py:7-10 | the object keeps the two extracted tables, records the configuration, and its data is the result of the chain |
| Marketplace.Transform.RunTransform | src/etl_pipeline/transform/transform_code.py:16-35 | records the configuration and returns coercion, inner join, filter (payment month at least 25), selection, count per site (through `SqlGroup.GroupByCount`), classification and rollup, with the tables left unchanged |

## Left out

- Reading and writing files is left out; the extracted tables are parameters of the constructors. The extract and load code and the entry scripts are not part of this model, and neither is the older marketplace transform module.
- Code inside triple-quoted strings is not modelled, since it never runs.
- Integer width is not modelled: counts and sums are unbounded integers, while pandas stores them as int64, which wraps around on overflow.
- Floating point is left out: cells hold integers. The gap between the bill ranges (5000, 5001) only matters for fractional bills, which the model cannot express.
- Values.Coerce: parses integers only. Decimals, exponents, surrounding spaces and 'inf' are not modelled.
- The inferred type of a column is derived from its content: a column is numeric when it holds only numbers and missing cells. Other pandas dtype rules are not modelled.
- SqlGroup.Groups: groups come in first-occurrence order, while pandas sorts group keys. Pivot and subtotal groups likewise. Contracts speak of group contents, not their order.
- SqlPivot.Pivot: value columns follow the order of the listed values, with duplicates removed. pandas sorts them.
- SqlJoin.Join: rows come left-driven, then unmatched right rows. The join type is an enumeration: an unknown `how` string and cross joins are left out. pandas sorts outer-join keys; that is not modelled.
- Sorting.SortValues: the contract fixes only the multiset and the order of keys. The order among rows with equal keys, and the relative order of booleans and integers in one column, are the model's own choice.
- SqlGroup.GroupByAgg: only count, sum, min and max. Mean and other aggregations need fractions. A text group's minimum and maximum skip missing cells as its sum does.
- SqlGroup.GroupByCount: a grouping label equal to 'size' clashing with the counter is not modelled.
- Duplicate labels are not modelled; a lookup reads the first column with that label.
- The `SQl_df` object holds no state, so it is a module of functions. The hospital `Transform` keeps the dictionary of frames but not the configuration attributes it sets; the marketplace `Transform` keeps them.
- The rollup's default arguments in the marketplace transform are constants of the model.
- The dictionary of frames is a sequence of names, in insertion order, and a map from names to DataFrame objects. Two names may share one object, because relabelling twice is relabelling once.
