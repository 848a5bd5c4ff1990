# ZfcDatagrid core in Dafny

This project models the part of the ZfcDatagrid data-grid library that sits
between a data source and an HTML table, and proves properties of it:

- **Row renderer** (`TableRow` view helper). It turns one data row and the
  grid's columns into one `<tr>...</tr>` fragment. For each visible column it
  runs these steps in order:
  1. replace-value substitution;
  2. translation;
  3. the column type's effect (right alignment for numbers, a `<pre>` dump
     for PHP-array columns);
  4. the applying row and column styles;
  5. action links and the row-click link;
  6. a `<td>` with its non-empty `class`, `style` and
     `data-columnUniqueId` attributes.

  The renderer is a class with the translator as its field. The per-row
  loop, the by-reference array loops, the style loop and the `getTd`
  attribute loop are methods. Each method is proved equal to a
  specification function (`RowHtml`, `CellHtml`, `ReplaceEntries`,
  `TranslateEntries`, `ApplyStyles`, `ActionsHtml`, `TdHtml`). The lemmas
  prove what those functions promise.
- **Fast Doctrine paginator adapter** (`PaginatorFast`). It pages the held
  query builder, and counts through a clone of it. The counting strategy
  depends on the number of GROUP BY parts:
  - several parts: the distinct `CONCAT` values, counted in memory;
  - one part: `COUNT(DISTINCT ...)`;
  - none: `COUNT_ONE()` when that function is registered, otherwise the
    first FROM alias.

  The count is cached. The entity manager is an oracle that answers
  queries and logs the queries it runs.
- **Data-source configuration** (`AbstractDataSource`). It holds the
  columns, sort conditions, filters and paginator adapter, and has a base
  constructor that always throws.
- **Object-backed data population** (`DataObject`). It holds an optional
  object and a list of parameter bindings. Setting a parameter and
  converting to a string both degrade gracefully when no object is set.
- **Formatter gate** (`AbstractFormatter`). It formats a value only when the
  renderer name is one of the valid renderers, and otherwise passes the raw
  row value through.

Files:
- `common.dfy`: `Option`, `Result`, PHP's `implode` and `array_unique`.
- `table_row.dfy`: the row renderer.
- `paginator_fast.dfy`: the paginator adapter.
- `abstract_data_source.dfy`: the data-source configuration.
- `data_object.dfy`: the object-backed data population.
- `abstract_formatter.dfy`: the formatter gate.

Where PHP 8 throws, the model returns a `Failure`:
- A `null` cell value in a translated column, or a `null` entry of a
  translated array. `translate(string $message)` refuses `null` with a
  `TypeError`.
- A nested array entry under replacement. `isset($replaceValues[$array])`
  throws "illegal offset type".
- A cell value that is still an array or `null` when it reaches
  `getTd(string ...)`.
- An applying style of an unknown class (`InvalidArgumentException`).
- `format` of a column whose id is missing from the row, or whose row value
  is `null`, when the formatter does not apply. The `null` value violates
  the `string|array` return type.

In the paginator adapter, `count` with no GROUP BY part, no `COUNT_ONE`
function and no FROM entity fails (`NoFromPart`), where PHP calls
`getAlias()` on `null`.

Absent collaborators degrade quietly: no translator makes translation the
identity, and no object makes `toString` return ''. A `null` value reaching
a typed parameter throws.

## Model

| member | source | states |
|---|---|---|
| Common.ArrayUniqueProperties | src/ZfcDatagrid/DataSource/Doctrine2/PaginatorFast.php:99 | `array_unique` keeps exactly the values of its input, each once, so its result is never longer than the input |
| Common.ArrayUniqueCountsDistinct | src/ZfcDatagrid/DataSource/Doctrine2/PaginatorFast.php:99-101 | `count(array_unique(xs))` is the number of distinct values of `xs` |
| TableRow.Translate | src/ZfcDatagrid/Renderer/BootstrapTable/View/Helper/TableRow.php:38-45 | with no translator the message comes back unchanged |
| TableRow.ReplaceEntriesAt | src/ZfcDatagrid/Renderer/BootstrapTable/View/Helper/TableRow.php:124-131 | the array replace loop fails exactly when some entry is itself an array; otherwise it keeps length and keys and rewrites entry k by the scalar rule |
| TableRow.TranslateEntriesAt | src/ZfcDatagrid/Renderer/BootstrapTable/View/Helper/TableRow.php:142-148 | the array translate loop fails exactly when some entry is `null`; otherwise it keeps length and keys, translates scalar entries and leaves nested arrays as they are |
| TableRow.ReplacedScalar | src/ZfcDatagrid/Renderer/BootstrapTable/View/Helper/TableRow.php:133-137 | a scalar in the replace map becomes its mapped entry (`null` is looked up as ''); otherwise it becomes '' under not-replaced-get-empty and stays unchanged without it |
| TableRow.ReplacedArray | src/ZfcDatagrid/Renderer/BootstrapTable/View/Helper/TableRow.php:124-131 | an array value fails with an illegal-offset error iff an entry is a nested array; otherwise it stays an array of the same length and keys, each entry replaced as a scalar would be |
| TableRow.TranslatedArray | src/ZfcDatagrid/Renderer/BootstrapTable/View/Helper/TableRow.php:141-152 | translating `null` fails; translating an array fails iff an entry is `null`; otherwise top-level strings are translated, nested arrays kept, length and keys kept |
| TableRow.NoTranslatorIsIdentity | src/ZfcDatagrid/Renderer/BootstrapTable/View/Helper/TableRow.php:38-45 | without a translator, the translation step leaves every value it accepts unchanged |
| TableRow.StruckTwice | src/ZfcDatagrid/Renderer/BootstrapTable/View/Helper/TableRow.php:196-198 | wrapping a value a times in `<s>...</s>` and then b times is the same as wrapping it a+b times |
| TableRow.ApplyStylesFailure | src/ZfcDatagrid/Renderer/BootstrapTable/View/Helper/TableRow.php:171-213 | the style loop throws iff some applying style is of an unknown class, and only with the undefined-style error |
| TableRow.ApplyStylesEffects | src/ZfcDatagrid/Renderer/BootstrapTable/View/Helper/TableRow.php:171-213 | after a successful style loop, the CSS and class lists are the earlier lists followed by the effects of the applying styles in order, and the value is struck once per applying strikethrough |
| TableRow.StyleCssAppend | src/ZfcDatagrid/Renderer/BootstrapTable/View/Helper/TableRow.php:171 | the CSS of merged style lists is the CSS of the first list followed by the CSS of the second |
| TableRow.StyleClassesAppend | src/ZfcDatagrid/Renderer/BootstrapTable/View/Helper/TableRow.php:171 | the classes of merged style lists are the first list's classes followed by the second's |
| TableRow.PreparedAction | src/ZfcDatagrid/Renderer/BootstrapTable/View/Helper/TableRow.php:221-224 | the action handed to `toHtml` has its title replaced by the translation and, when it has a route, its link replaced by the URL of that route; nothing else changes |
| TableRow.ActionsHtmlDisplayed | src/ZfcDatagrid/Renderer/BootstrapTable/View/Helper/TableRow.php:215-232 | exactly the displayed actions are rendered, each once, in order, each handed to `toHtml` with its title translated |
| TableRow.CellAttributeOrder | src/ZfcDatagrid/Renderer/BootstrapTable/View/Helper/TableRow.php:242-248 | a cell's attributes appear in the order class, style, data-columnUniqueId, each only when its value is non-empty |
| TableRow.CellStyleAttributes | src/ZfcDatagrid/Renderer/BootstrapTable/View/Helper/TableRow.php:154-213 | `class` is `hidden` (when hidden), then the row styles' classes, then the column styles' classes. `style` is the number alignment, then the row styles' CSS, then the column styles' CSS |
| TableRow.StyledAttributes | src/ZfcDatagrid/Renderer/BootstrapTable/View/Helper/TableRow.php:171-248 | styling by row styles then column styles gives the attributes of the two lists' effects in that order |
| TableRow.CellContent | src/ZfcDatagrid/Renderer/BootstrapTable/View/Helper/TableRow.php:215-248 | a rendered cell shows: for an action column, the displayed actions' HTML joined by spaces; otherwise the value after replacement, translation, the type effect and one `<s>` per applying strikethrough. For a row-click Select column this is wrapped in `<a href="...">...</a>` |
| TableRow.ReplacementRenders | src/ZfcDatagrid/Renderer/BootstrapTable/View/Helper/TableRow.php:133-137 | a scalar in the replace map renders exactly as its mapped entry in any column except an action column, a row-click-wrapped Select column or a PhpArray column, when translation is off and no strikethrough applies |
| TableRow.CellFailsOnUndefinedStyle | src/ZfcDatagrid/Renderer/BootstrapTable/View/Helper/TableRow.php:208-210 | a cell fails with an undefined-style error iff its value survives replacement and translation and some applying row or column style is of an unknown class |
| TableRow.NullTranslatedFails | src/ZfcDatagrid/Renderer/BootstrapTable/View/Helper/TableRow.php:150 | a `null` reaching translation makes the cell fail before any style is considered |
| TableRow.NonStringCellFails | src/ZfcDatagrid/Renderer/BootstrapTable/View/Helper/TableRow.php:248 | a column that is neither an action column, a row-click-wrapped Select column nor a PhpArray column, whose value is still an array or `null` after replacement, translation and styles, fails at `getTd` |
| TableRow.NoStrikethrough | src/ZfcDatagrid/Renderer/BootstrapTable/View/Helper/TableRow.php:196-198 | with no applying strikethrough style, the value is wrapped zero times |
| TableRow.NumberColumnRightAligned | src/ZfcDatagrid/Renderer/BootstrapTable/View/Helper/TableRow.php:161-164 | a number column's `style` attribute starts with `text-align: right`, ahead of every style's CSS |
| TableRow.ImplodeStartsWithFirst | src/ZfcDatagrid/Renderer/BootstrapTable/View/Helper/TableRow.php:244 | an imploded list starts with its first piece |
| TableRow.ColumnsOfVisible | src/ZfcDatagrid/Renderer/BootstrapTable/View/Helper/TableRow.php:110-114 | hidden columns contribute nothing: the loop yields one `<td>` per visible column, in order, each that column's cell |
| TableRow.ColumnsFailure | src/ZfcDatagrid/Renderer/BootstrapTable/View/Helper/TableRow.php:110-249 | the column loop fails iff the cell of some visible column fails |
| TableRow.ColumnsFirstError | src/ZfcDatagrid/Renderer/BootstrapTable/View/Helper/TableRow.php:110-249 | when the cells before visible column k succeed, the error of column k's cell is the row's error |
| TableRow.TdHtmlIsTd | src/ZfcDatagrid/Renderer/BootstrapTable/View/Helper/TableRow.php:72-84 | `getTd` output starts with `<td` and ends with `</td>` |
| TableRow.CellHtmlIsTd | src/ZfcDatagrid/Renderer/BootstrapTable/View/Helper/TableRow.php:248 | every rendered cell starts with `<td` |
| TableRow.MassActionCellIsTd | src/ZfcDatagrid/Renderer/BootstrapTable/View/Helper/TableRow.php:106-108 | the mass-action checkbox cell starts with `<td` |
| TableRow.ColumnsAreTds | src/ZfcDatagrid/Renderer/BootstrapTable/View/Helper/TableRow.php:110-249 | every element the column loop yields starts with `<td` when every cell does |
| TableRow.RowCellCount | src/ZfcDatagrid/Renderer/BootstrapTable/View/Helper/TableRow.php:106-114 | a row has one `<td>` per visible column plus one when mass actions are on. The checkbox cell comes first, and every element starts with `<td` |
| TableRow.GetTr | src/ZfcDatagrid/Renderer/BootstrapTable/View/Helper/TableRow.php:53-64 | the closing tag is `</tr>`; the opening tag is `<tr>` without a set `idConcated` and `<tr id="...">` carrying the id's string otherwise |
| TableRow.TrFrame | src/ZfcDatagrid/Renderer/BootstrapTable/View/Helper/TableRow.php:53-64 | any cells between `getTr` and `getTr(false)` make markup that starts with the opening tag and ends with `</tr>` |
| TableRow.RowMarkupFrame | src/ZfcDatagrid/Renderer/BootstrapTable/View/Helper/TableRow.php:104-253 | a rendered row starts with `<tr id="...">` when `idConcated` is set and non-null, with `<tr>` otherwise, and always ends with `</tr>` |
| TableRow.TableRow.constructor | src/ZfcDatagrid/Renderer/BootstrapTable/View/Helper/TableRow.php:18-19 | a new helper has no translator |
| TableRow.TableRow.SetTranslator | src/ZfcDatagrid/Renderer/BootstrapTable/View/Helper/TableRow.php:26-31 | stores the translator (or none) and returns the helper itself |
| TableRow.TableRow.ReplaceEach | src/ZfcDatagrid/Renderer/BootstrapTable/View/Helper/TableRow.php:124-131 | the in-place replace loop computes `ReplaceEntries` (fails on a nested array, else rewrites each entry as `ReplaceEntriesAt` states) |
| TableRow.TableRow.TranslateEach | src/ZfcDatagrid/Renderer/BootstrapTable/View/Helper/TableRow.php:142-148 | the in-place translate loop computes `TranslateEntries` (fails on a `null` entry, else as `TranslateEntriesAt` states) |
| TableRow.TableRow.ApplyStylesInOrder | src/ZfcDatagrid/Renderer/BootstrapTable/View/Helper/TableRow.php:171-213 | the style loop computes `ApplyStyles`, whose failure and effects `ApplyStylesFailure` and `ApplyStylesEffects` state |
| TableRow.TableRow.RenderActions | src/ZfcDatagrid/Renderer/BootstrapTable/View/Helper/TableRow.php:215-232 | the action loop yields the displayed actions' HTML joined by spaces (`ActionsHtmlDisplayed`) |
| TableRow.TableRow.GetTd | src/ZfcDatagrid/Renderer/BootstrapTable/View/Helper/TableRow.php:72-84 | the attribute loop keeps the non-empty attributes in order and wraps the value in a `<td>` (`CellAttributeOrder`, `TdHtmlIsTd`) |
| TableRow.TableRow.ProcessValue | src/ZfcDatagrid/Renderer/BootstrapTable/View/Helper/TableRow.php:116-152 | the row value after replacement and translation, or the error of a nested array key or a `null` translation |
| TableRow.TableRow.StyleValue | src/ZfcDatagrid/Renderer/BootstrapTable/View/Helper/TableRow.php:154-213 | the `hidden` class and the type effect, then the style loop over row styles followed by column styles |
| TableRow.TableRow.FinishCell | src/ZfcDatagrid/Renderer/BootstrapTable/View/Helper/TableRow.php:215-248 | the action HTML or row-click link replaces the value; a string value becomes the cell's `<td>` with the styled attributes, anything else fails; the content is as `CellContent` states |
| TableRow.TableRow.RenderCell | src/ZfcDatagrid/Renderer/BootstrapTable/View/Helper/TableRow.php:116-248 | one visible column's loop body computes `CellHtml`: a `<td>` whose content `CellContent` and whose attributes `CellStyleAttributes` state, or the errors the cell lemmas state |
| TableRow.TableRow.Invoke | src/ZfcDatagrid/Renderer/BootstrapTable/View/Helper/TableRow.php:97-254 | `__invoke` computes `RowHtml`: the `<tr>` frame around the mass-action cell and the visible columns' cells, or the first failing cell's error (`RowCellCount`, `RowMarkupFrame`, `ColumnsFailure`) |
| PaginatorFast.QueryBuilder.Clone | src/ZfcDatagrid/DataSource/Doctrine2/PaginatorFast.php:70 | `clone` makes a fresh builder with the same query and entity manager |
| PaginatorFast.QueryBuilder.SetFirstResult | src/ZfcDatagrid/DataSource/Doctrine2/PaginatorFast.php:78 | sets only the first-result paging of the builder's query |
| PaginatorFast.QueryBuilder.SetMaxResults | src/ZfcDatagrid/DataSource/Doctrine2/PaginatorFast.php:79 | sets only the max-results paging of the builder's query |
| PaginatorFast.QueryBuilder.ResetDQLPart | src/ZfcDatagrid/DataSource/Doctrine2/PaginatorFast.php:80-83 | empties exactly the named DQL part |
| PaginatorFast.QueryBuilder.Select | src/ZfcDatagrid/DataSource/Doctrine2/PaginatorFast.php:92 | replaces the select part by one expression |
| PaginatorFast.QueryBuilder.GetResult | src/ZfcDatagrid/DataSource/Doctrine2/PaginatorFast.php:95 | runs the query once and returns the entity manager's rows for it |
| PaginatorFast.QueryBuilder.GetArrayResult | src/ZfcDatagrid/DataSource/Doctrine2/PaginatorFast.php:51 | runs the query once and returns its array rows |
| PaginatorFast.QueryBuilder.GetSingleScalarResult | src/ZfcDatagrid/DataSource/Doctrine2/PaginatorFast.php:108 | runs the query once and returns its scalar |
| PaginatorFast.CountQueryKeepsFilters | src/ZfcDatagrid/DataSource/Doctrine2/PaginatorFast.php:69-83 | the counting query keeps FROM, WHERE and HAVING; it has no paging, no ordering, no GROUP BY and exactly one select expression |
| PaginatorFast.CountStrategy | src/ZfcDatagrid/DataSource/Doctrine2/PaginatorFast.php:85-121 | the select expression by number of GROUP BY parts: CONCAT of all parts, `COUNT(DISTINCT part)`, `COUNT_ONE()` when registered, else `COUNT(first alias)`; only the last case fails, iff there is no FROM entity |
| PaginatorFast.CountIgnoresPaging | src/ZfcDatagrid/DataSource/Doctrine2/PaginatorFast.php:78-83 | the count does not depend on the builder's paging, ordering or selection |
| PaginatorFast.DistinctCountBounds | src/ZfcDatagrid/DataSource/Doctrine2/PaginatorFast.php:94-101 | the grouped workaround counts the distinct projected values, at most the number of rows and at least one when there is a row |
| PaginatorFast.GroupedCount | src/ZfcDatagrid/DataSource/Doctrine2/PaginatorFast.php:85-101 | with several GROUP BY parts the count is the number of distinct `uniqueParts` values of the counting query's rows, at most its row count |
| PaginatorFast.GroupedCountExample | src/ZfcDatagrid/DataSource/Doctrine2/PaginatorFast.php:94-101 | rows grouped as (A,1), (A,1), (B,2) count as 2 |
| PaginatorFast.PaginatorFast.constructor | src/ZfcDatagrid/DataSource/Doctrine2/PaginatorFast.php:25-28 | holds the builder, with no cached count |
| PaginatorFast.PaginatorFast.GetQueryBuilder | src/ZfcDatagrid/DataSource/Doctrine2/PaginatorFast.php:33-36 | returns the held builder |
| PaginatorFast.PaginatorFast.GetItems | src/ZfcDatagrid/DataSource/Doctrine2/PaginatorFast.php:46-52 | sets offset and page size on the held builder itself, runs it once and returns its array rows |
| PaginatorFast.PaginatorFast.CollectUniqueParts | src/ZfcDatagrid/DataSource/Doctrine2/PaginatorFast.php:94-98 | the loop collects each row's `uniqueParts` in row order |
| PaginatorFast.PaginatorFast.Count | src/ZfcDatagrid/DataSource/Doctrine2/PaginatorFast.php:63-125 | a cached count is returned with no query run. Otherwise exactly the counting query runs, its count (`ExpectedCount`) is cached and returned, and the held builder's query is unchanged |
| AbstractDataSource.Construct | src/ZfcDatagrid/DataSource/AbstractDataSource.php:43-47 | the base constructor always throws, with a message `Missing __construct in ` followed by the class name |
| AbstractDataSource.DataSource.constructor | src/ZfcDatagrid/DataSource/AbstractDataSource.php:13-30 | a data source starts with no columns, sort conditions, filters or paginator adapter |
| AbstractDataSource.DataSource.SetColumns | src/ZfcDatagrid/DataSource/AbstractDataSource.php:54-57 | replaces the columns and nothing else |
| AbstractDataSource.DataSource.GetColumns | src/ZfcDatagrid/DataSource/AbstractDataSource.php:62-65 | returns the stored columns |
| AbstractDataSource.DataSource.AddSortCondition | src/ZfcDatagrid/DataSource/AbstractDataSource.php:73-79 | appends one `{column, sortDirection}` entry, direction `ASC` by default, keeping earlier entries and the other fields |
| AbstractDataSource.DataSource.SetSortConditions | src/ZfcDatagrid/DataSource/AbstractDataSource.php:84-87 | replaces the sort conditions and nothing else |
| AbstractDataSource.DataSource.GetSortConditions | src/ZfcDatagrid/DataSource/AbstractDataSource.php:92-95 | returns the stored sort conditions |
| AbstractDataSource.DataSource.AddFilter | src/ZfcDatagrid/DataSource/AbstractDataSource.php:102-105 | appends one filter, keeping order and the other fields |
| AbstractDataSource.DataSource.SetFilters | src/ZfcDatagrid/DataSource/AbstractDataSource.php:110-113 | replaces the filters and nothing else |
| AbstractDataSource.DataSource.GetFilters | src/ZfcDatagrid/DataSource/AbstractDataSource.php:118-121 | returns the stored filters |
| AbstractDataSource.DataSource.SetPaginatorAdapter | src/ZfcDatagrid/DataSource/AbstractDataSource.php:126-129 | stores the adapter or none and nothing else |
| AbstractDataSource.DataSource.GetPaginatorAdapter | src/ZfcDatagrid/DataSource/AbstractDataSource.php:134-137 | returns the stored adapter or none |
| DataObject.ObjectAware.SetParameterFromColumn | src/ZfcDatagrid/Column/DataPopulation/DataObject.php:76 | the object records one more parameter, in call order |
| DataObject.DataObject.constructor | src/ZfcDatagrid/Column/DataPopulation/DataObject.php:11-15 | no object and no bindings |
| DataObject.DataObject.SetObject | src/ZfcDatagrid/Column/DataPopulation/DataObject.php:24-29 | stores the object or none, changes nothing else, returns the data object itself |
| DataObject.DataObject.GetObject | src/ZfcDatagrid/Column/DataPopulation/DataObject.php:34-37 | returns the stored object or none |
| DataObject.DataObject.AddObjectParameterColumn | src/ZfcDatagrid/Column/DataPopulation/DataObject.php:47-55 | appends one `{objectParameterName, column}` binding, keeps order, returns the data object itself |
| DataObject.DataObject.GetObjectParametersColumn | src/ZfcDatagrid/Column/DataPopulation/DataObject.php:60-63 | returns the bindings in insertion order |
| DataObject.DataObject.SetObjectParameter | src/ZfcDatagrid/Column/DataPopulation/DataObject.php:73-80 | with no object nothing changes. With an object, exactly one `(name, value)` is forwarded to it. The bindings never change |
| DataObject.DataObject.ToString | src/ZfcDatagrid/Column/DataPopulation/DataObject.php:85-93 | '' with no object, else the object's own string of the parameters it has received |
| AbstractFormatter.Formatter.constructor | src/ZfcDatagrid/Column/Formatter/AbstractFormatter.php:9-16 | no row data, no renderer name, no valid renderers |
| AbstractFormatter.Formatter.SetRowData | src/ZfcDatagrid/Column/Formatter/AbstractFormatter.php:23-28 | stores the row data only and returns the formatter itself |
| AbstractFormatter.Formatter.GetRowData | src/ZfcDatagrid/Column/Formatter/AbstractFormatter.php:33-36 | returns the stored row data |
| AbstractFormatter.Formatter.SetRendererName | src/ZfcDatagrid/Column/Formatter/AbstractFormatter.php:43-48 | stores the renderer name or none (the default) only and returns the formatter itself |
| AbstractFormatter.Formatter.GetRendererName | src/ZfcDatagrid/Column/Formatter/AbstractFormatter.php:53-56 | returns the stored renderer name or none |
| AbstractFormatter.Formatter.SetValidRendererNames | src/ZfcDatagrid/Column/Formatter/AbstractFormatter.php:63-68 | stores the valid renderer list only and returns the formatter itself |
| AbstractFormatter.Formatter.GetValidRendererNames | src/ZfcDatagrid/Column/Formatter/AbstractFormatter.php:73-76 | returns the stored valid renderer list |
| AbstractFormatter.Formatter.IsApply | src/ZfcDatagrid/Column/Formatter/AbstractFormatter.php:81-84 | the formatter applies iff a renderer name is set and equals some entry of the valid renderers |
| AbstractFormatter.Formatter.Format | src/ZfcDatagrid/Column/Formatter/AbstractFormatter.php:91-96 | a value passed through without formatting is the row's own non-null value at the column's id |
| AbstractFormatter.FormatOutcome | src/ZfcDatagrid/Column/Formatter/AbstractFormatter.php:91-96 | `format` fails iff the formatter does not apply and the row's value at the column's id is missing or `null`; when it applies the result is the formatted value |
| AbstractFormatter.NoRenderersPassThrough | src/ZfcDatagrid/Column/Formatter/AbstractFormatter.php:81-96 | with no valid renderers the formatter never applies: `format` passes a non-null row value through and fails on a missing or `null` one |

## Left out

- Collaborators whose code is not part of this model are uninterpreted functions carried by values:
  - the translation service;
  - each style's `isApply`, `getRgbHexString`, `getAlignment` and `getClass`;
  - each action's `isDisplayed`, `toHtml` and `getLinkReplaced`;
  - the view's `url`;
  - `print_r`.
- The in-place `setTitle`/`setLink` on shared action objects (TableRow.php:221-224) is modelled as the translated, routed copy handed to `toHtml`. The model does not capture an action's title being translated again when the same action object renders the next row.
- Scalar row values are modelled by their string form. PHP's normalisation of integer, float and boolean values as array keys, and the `int`-to-`string` coercion at `translate` and `getTd`, are not modelled.
- PHP loose comparison is replaced by strict comparison. This affects three places:
  - `$value != ''` in `getTd`;
  - `in_array` in `isApply`, where a `null` renderer name would loosely match an empty-string entry, and a numeric string would loosely match a number;
  - the replace map is `string` to `string`, so it cannot hold a `null` entry; PHP's `isset` would treat such an entry as absent.
- Doctrine is an oracle. Each query maps to fixed rows or a fixed scalar, and `getResult` and `getArrayResult` are two independent answers. DQL parts are uninterpreted strings. SQL semantics and `CONCAT` collisions between different tuples are not modelled. The same goes for the entity-manager configuration beyond the set of registered custom string functions, where Doctrine's case-insensitive lookup is modelled as exact membership.
- PaginatorFast.PaginatorFast.Count: the scalar result is modelled as an `int`, so `intval` (a PHP numeric string or float becoming an int) is left out. When no group part, no `COUNT_ONE` and no FROM entity exist, the model fails with `NoFromPart` where PHP fails on the `null` alias.
- `execute()` and `getData()` of the data source are abstract in the source and have no behaviour to model.
- The data source's base constructor is modelled twice: by the `Construct` function, which always fails, and by a constructor giving concrete subclasses their empty starting state.
- The `DataPopulationInterface` declaration has no logic. `DataObject` implements its three methods (`toString`, `setObjectParameter`, `getObjectParametersColumn`) directly.
- DataObject.DataObject.ToString: the object-aware collaborator's `toString` may return an array in PHP. The model returns a string only.
- `getFormattedValue` is abstract in the formatter. It is modelled as a function of the row data and the column that the formatter is built with.
- `array_merge($rowStyles, $col->getStyles())` is modelled as list concatenation. With string keys, PHP would let a column style overwrite the row style under the same key; the model keeps both.
- PHP warnings are not modelled. A missing row key (the `idConcated` of the checkbox, a column's value) reads as `null` with no "Undefined array key" warning. An array in string concatenation (the row id, the strikethrough, the row-click link) becomes "Array" with no "Array to string conversion" warning.
- No HTML escaping: the source performs none, and the model adds none.
