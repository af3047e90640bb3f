# Eden SQL statement builders in Dafny

This project models two SQL statement builders of the Eden PHP library and
proves what their output looks like.

- `Eden_Mysql_Alter` builds a MySQL `ALTER TABLE` statement. Its setters
  collect dropped columns, added and changed column definitions, and
  added or dropped index, unique and primary keys. `getQuery` emits one
  fragment per dropped name, per column and per dropped key, plus one
  fragment for each non-empty list of added keys, group by group in a
  fixed order. It joins the fragments with a comma and a newline and
  wraps them as ``ALTER TABLE `name` …;``.
- `Eden_Sql_Select` builds a `SELECT` statement. `select`, `from`,
  `groupBy` and `limit` overwrite what they set. `join`, `where` and
  `sortBy` append. `getQuery` fills the template
  `SELECT %s FROM %s %s %s %s %s %s;` with the select list, the table,
  the joins, WHERE, ORDER BY, LIMIT and GROUP BY. It then makes one
  left-to-right pass of `str_replace('  ', ' ', …)`.

Files:

- `wrappers.dfy` (`Wrappers`): an `Option` type.
- `php.dfy` (`Php`): the PHP built-ins the builders use. These are
  `implode`, a one-pattern `str_replace`, the decimal text of an
  integer (with a parser as its inverse), and assignment into an array
  with string keys, which keeps insertion order.
- `alter.dfy` (`MysqlAlter`): the column-definition rule, the fragment
  list `Fragments` and the statement `Render`.
  - The class `Alter` has the builder's ten fields, setters that
    `modify this`, and a `GetQuery` method. `GetQuery` builds the
    fragment list with loops, as the PHP code does, and is proved equal
    to `Render` of the state.
- `alter_properties.dfy` (`MysqlAlterProperties`): the text of a column
  definition, the default-value policy, the order and count of the
  fragments, and a worked statement.
- `select.dfy` (`SqlSelect`): the sections, the template and the pass
  `Collapse`.
  - The class `Select` has the builder's fields and setters.
    `GetQuery` is a function of the state, as the PHP method is pure.
- `select_properties.dfy` (`SqlSelectProperties`): what the pass does to
  runs of spaces, the shape of every statement whose select list and
  sections are trimmed, the sections, and
  worked statements.

### The space-collapsing pass

`str_replace` scans left to right and never rescans what it replaced, so
a run of n spaces becomes ceil(n/2) spaces, not one space (`CollapseRun`).

Empty sections of the template therefore leave runs of spaces:

- A bare `select('id, name')->from('users')` renders as
  `SELECT id, name FROM users   ;`, with three spaces before the
  semicolon (`IdNameExample`). Five blanks collapse to three.
- A statement whose GROUP BY is empty ends its LIMIT clause with ` ;`
  (`ActiveUsersExample`).
- With a limit and a group list but no joins, WHERE or ORDER BY, two
  spaces precede `LIMIT` (`LimitBeforeGroup`).

## Model

| member | source | states |
|---|---|---|
| Php.ImplodeCons | sql/select.php:274-278 | `implode` read from the front: the first part, then the separator and the implode of the rest |
| Php.ImplodeSnoc | mysql/alter.php:311 | appending a part to the list appends the separator and the part to the imploded text |
| Php.ParseIntToString | sql/select.php:277 | the decimal text of any integer is a sign or digit followed by digits, and parses back to the same integer |
| Php.IndexOf | mysql/alter.php:80 | the position found holds the key and no earlier entry does; no position is found exactly when the key is absent |
| Php.PutLookup | mysql/alter.php:95 | after `$m[$k] = $v`, key k reads v and every other key reads as before |
| Php.PutKeys | mysql/alter.php:95 | assignment keeps the key order; a new key is appended at the end and an existing key keeps its place |
| Php.PutUniqueKeys | mysql/alter.php:80 | assignment never creates a second entry for a key |
| Php.PutPut | mysql/alter.php:95 | assigning a key twice leaves the same array as assigning the second value alone |
| MysqlAlter.Dropped | mysql/alter.php:208-210 | one `prefix` + backticked name per name, in the given order |
| MysqlAlter.EachAt | mysql/alter.php:212-245 | the i-th fragment of a column group is the fragment of the i-th stored column |
| MysqlAlter.ColumnFragment | mysql/alter.php:212-244 | building the token list by conditional appends and joining it with spaces yields `FieldFragment` |
| MysqlAlter.AppendDropped | mysql/alter.php:287-289 | the loop appends exactly the dropped-name fragments, in order, after what was there |
| MysqlAlter.AppendAdded | mysql/alter.php:212-245 | the loop appends one ADD fragment per added column, in insertion order |
| MysqlAlter.AppendChanged | mysql/alter.php:247-285 | the loop appends one CHANGE fragment per changed column, in insertion order |
| MysqlAlter.AppendKeyGroup | mysql/alter.php:291-293 | one `ADD … (k1, k2, …)` fragment when there are keys, none otherwise |
| MysqlAlter.Alter.constructor | mysql/alter.php:46-50 | a new builder holds nothing but the optional name |
| MysqlAlter.Alter.SetName | mysql/alter.php:60-66 | sets the name and nothing else |
| MysqlAlter.Alter.ChangeField | mysql/alter.php:76-82 | stores the attributes under the name: an existing entry is replaced in place, a new one is appended; column names stay unique |
| MysqlAlter.Alter.AddField | mysql/alter.php:91-97 | as ChangeField, for the columns to add |
| MysqlAlter.Alter.RemoveField | mysql/alter.php:105-111 | appends the name unquoted; nothing else changes |
| MysqlAlter.Alter.AddKey | mysql/alter.php:119-125 | appends the backticked name; nothing else changes |
| MysqlAlter.Alter.RemoveKey | mysql/alter.php:133-139 | appends the name unquoted; nothing else changes |
| MysqlAlter.Alter.AddUniqueKey | mysql/alter.php:147-153 | appends the backticked name; nothing else changes |
| MysqlAlter.Alter.RemoveUniqueKey | mysql/alter.php:161-167 | appends the name unquoted; nothing else changes |
| MysqlAlter.Alter.AddPrimaryKey | mysql/alter.php:175-181 | appends the backticked name; nothing else changes |
| MysqlAlter.Alter.RemovePrimaryKey | mysql/alter.php:189-195 | appends the name unquoted; nothing else changes |
| MysqlAlter.Alter.GetQuery | mysql/alter.php:204-316 | the statement built step by step equals `Render` of the builder's state |
| MysqlAlterProperties.FieldFragmentText | mysql/alter.php:212-244 | a column fragment is the head, then type (with `(length)`), attribute, null clause, default and `auto_increment`, each present one after exactly one space |
| MysqlAlterProperties.TypedNotNull | mysql/alter.php:214-228 | a column with only a type and `null => false` reads head, type, `NOT NULL` |
| MysqlAlterProperties.DefaultIgnored | mysql/alter.php:230-238 | the default is dropped when `null` is true, and when it is neither a string nor a number |
| MysqlAlterProperties.NullableSaysDefaultNull | mysql/alter.php:222-231 | with `null` true the definition says `DEFAULT NULL` and has no default clause |
| MysqlAlterProperties.StringDefaultDecides | mysql/alter.php:232-233 | when `null` is not true, two string defaults give the same fragment only if they are equal |
| MysqlAlterProperties.NumericDefaultDecides | mysql/alter.php:234-235 | when `null` is not true, two numeric defaults give the same fragment only if they are equal |
| MysqlAlterProperties.NumericStringQuoted | mysql/alter.php:232-235 | the string case comes before the numeric one: the numeric string "n" gives a fragment two characters longer than the number n |
| MysqlAlterProperties.ChangeKeepsName | mysql/alter.php:247-252 | without a `name` attribute a CHANGE fragment repeats the old name after two spaces |
| MysqlAlterProperties.FragmentCount | mysql/alter.php:205-311 | one fragment per dropped name and per column, plus one per non-empty key group |
| MysqlAlterProperties.ColumnGroupsFirst | mysql/alter.php:208-285 | the fragment list starts with the dropped, added and changed column fragments |
| MysqlAlterProperties.DropFragmentAt | mysql/alter.php:208-210 | the dropped columns come first, in call order |
| MysqlAlterProperties.AddFragmentAt | mysql/alter.php:212-245 | the added columns follow the dropped ones, in first-insertion order |
| MysqlAlterProperties.ChangeFragmentAt | mysql/alter.php:247-285 | the changed columns follow the added ones, in first-insertion order |
| MysqlAlterProperties.PrimaryKeyGroupLast | mysql/alter.php:307-309 | when primary keys are added, their fragment is the last one |
| MysqlAlterProperties.CountByGroup | mysql/alter.php:205-309 | counting fragments with a given start splits over the nine groups |
| MysqlAlterProperties.CountOnlyKeyGroups | mysql/alter.php:291-309 | only the three key groups hold fragments that start like `ADD <keyword>` |
| MysqlAlterProperties.KeyGroupCountOwn | mysql/alter.php:291-293 | a key group has one fragment when it has keys, none otherwise |
| MysqlAlterProperties.IndexGroupOnce | mysql/alter.php:291-293 | `ADD INDEX (` starts exactly one fragment when keys were added, none otherwise |
| MysqlAlterProperties.UniqueGroupOnce | mysql/alter.php:299-301 | `ADD UNIQUE (` starts exactly one fragment when unique keys were added, none otherwise |
| MysqlAlterProperties.PrimaryGroupOnce | mysql/alter.php:307-309 | `ADD PRIMARY KEY (` starts exactly one fragment when primary keys were added, none otherwise |
| MysqlAlterProperties.KeyGroupsOnce | mysql/alter.php:291-309 | the three key-group facts together |
| MysqlAlterProperties.RenderNothingCollected | mysql/alter.php:311-315 | with nothing collected the statement is ``ALTER TABLE `name` ;`` |
| MysqlAlterProperties.RenderFrame | mysql/alter.php:206 | every statement starts with ``ALTER TABLE `name` `` and ends with `;` |
| MysqlAlterProperties.UsersRender | mysql/alter.php:204-316 | for a table `users` with `legacy` dropped and `age INT NOT NULL` added, the drop comes first, then the addition, after a comma and a newline |
| MysqlAlterProperties.UsersExample | mysql/alter.php:46-316 | the same statement built through the setters and `GetQuery` |
| SqlSelect.Select.constructor | sql/select.php:44-46 | a new builder selects the given list (`*` by default) and holds nothing else |
| SqlSelect.Select.Select | sql/select.php:57-70 | replaces the select text, `*` when no argument is given; a list is joined with `", "` |
| SqlSelect.Select.From | sql/select.php:79-85 | replaces the table; nothing else changes |
| SqlSelect.Select.Join | sql/select.php:98-110 | appends exactly one join fragment: `USING (w)` after one space, or `ON (w)` after two |
| SqlSelect.Select.Where | sql/select.php:195-206 | appends the predicates in call order, a string as one predicate, without removing repeats |
| SqlSelect.Select.SortBy | sql/select.php:216-225 | appends `field order`, with `ASC` by default |
| SqlSelect.Select.GroupBy | sql/select.php:234-244 | replaces the group list with the given list |
| SqlSelect.Select.Limit | sql/select.php:254-264 | sets page and length together |
| SqlSelectProperties.CollapseShortens | sql/select.php:285 | the pass never lengthens a text, and shortens it when it has a double space |
| SqlSelectProperties.CollapseKeeps | sql/select.php:285 | a text without a double space is left unchanged |
| SqlSelectProperties.CollapseUnchanged | sql/select.php:285 | the pass leaves a text unchanged exactly when it has no double space |
| SqlSelectProperties.CollapseConcat | sql/select.php:285 | the pass works separately on two parts when the first does not end with a space |
| SqlSelectProperties.CollapseRun | sql/select.php:285 | a run of n spaces becomes ceil(n/2) spaces |
| SqlSelectProperties.SpreadCons | sql/select.php:281 | the template's spaced sections read from the front |
| SqlSelectProperties.CollapseSpread | sql/select.php:280-285 | collapsing the spaced sections gives the reference layout `Squeeze`: each gap of blanks leaves ceil(n/2) spaces |
| SqlSelectProperties.TemplateSplit | sql/select.php:280-283 | the template is the head `SELECT … FROM`, then each section after one space, then `;` |
| SqlSelectProperties.CollapseHead | sql/select.php:281-285 | the pass keeps the head's words and collapses the select list |
| SqlSelect.Select.GetQuery | sql/select.php:273-286 | the statement is the template filled from the builder's fields, then `str_replace('  ', ' ', …)` applied once; `RenderShape` characterises the result |
| SqlSelectProperties.RenderShape | sql/select.php:273-286 | every statement is `SELECT`, the collapsed select list, `FROM`, then the sections in the order table, joins, WHERE, ORDER BY, LIMIT, GROUP BY, laid out by `Squeeze` |
| SqlSelectProperties.SqueezeBlanks | sql/select.php:280-285 | k empty sections after n pending spaces leave ceil((n+k)/2) spaces before `;` |
| SqlSelectProperties.BareQuery | sql/select.php:273-286 | with only a select list and a table, the statement ends with three spaces and `;` |
| SqlSelectProperties.SqueezePresent | sql/select.php:280-285 | when every section is present, each follows one space |
| SqlSelectProperties.FullQuery | sql/select.php:273-286 | with every section present, the statement is the collapsed sections each after one space, then `;` |
| SqlSelectProperties.WhereSnoc | sql/select.php:275 | a further predicate is added at the end of the WHERE clause after ` AND ` |
| SqlSelectProperties.SortSnoc | sql/select.php:276 | a further entry is added at the end of the ORDER BY clause after `, ` |
| SqlSelectProperties.JoinsSnoc | sql/select.php:274 | a further join is added after the earlier ones, after a space |
| SqlSelectProperties.LimitReadsBack | sql/select.php:277 | a LIMIT clause is `LIMIT `, the page's text, a comma and the length's text, each parsing back to the value set |
| SqlSelectProperties.LimitInjective | sql/select.php:277 | two limits render alike only when their pages and lengths are equal |
| SqlSelectProperties.LimitClean | sql/select.php:277 | a LIMIT clause is non-empty, trimmed and single-spaced |
| SqlSelectProperties.CollapseLinkage | sql/select.php:106 | a parenthesised join condition only loses its own double spaces |
| SqlSelectProperties.JoinLinkage | sql/select.php:106-107 | after the pass, both join forms have one space before `USING (` or `ON (` |
| SqlSelectProperties.UsingJoin | sql/select.php:106 | the `USING` form after the pass |
| SqlSelectProperties.OnJoin | sql/select.php:106 | the `ON` form after the pass: its two spaces become one |
| SqlSelectProperties.SqueezeLimitGroup | sql/select.php:277-285 | the layout of a table, a limit and a group list only |
| SqlSelectProperties.LimitBeforeGroup | sql/select.php:277-283 | LIMIT comes before GROUP BY, after two spaces when joins, WHERE and ORDER BY are empty |
| SqlSelectProperties.SqueezeFilteredPage | sql/select.php:274-285 | the layout of a table, WHERE, ORDER BY and a limit only |
| SqlSelectProperties.FilteredPage | sql/select.php:273-286 | a filtered, sorted page: each clause after one space and ` ;` at the end |
| SqlSelectProperties.IdNameExample | sql/select.php:44-86 | `select('id, name')->from('users')` renders with three spaces before `;` |
| SqlSelectProperties.ActiveUsersSections | sql/select.php:275-277 | the WHERE, ORDER BY and LIMIT texts of the worked statement |
| SqlSelectProperties.ActiveUsersRender | sql/select.php:273-286 | the worked statement for a filtered, sorted first page of ten users |
| SqlSelectProperties.ActiveUsersExample | sql/select.php:195-264 | the same statement built through the setters and `GetQuery` |

## Left out

- The instance registry `get` / `_getMultiple` (sql/select.php:38-40, mysql/alter.php:40-42). It lives in a base class, `Eden_Sql_Query`, which is not part of this model.
- The argument checks `Eden_…_Error::get()->argument(…)`. The checks inspect the call stack at run time. Dafny's parameter types take their place, so a call with an argument of the wrong type cannot be written.
- error.php and memcache.php are not part of this model. The first is the argument checker; the second is a network client with nothing to state.
- `innerJoin`, `outerJoin`, `leftJoin`, `rightJoin` (sql/select.php:121-186). They call `joined`, which the class does not define, so their behaviour cannot be read from the code.
- SqlSelect.Select.GroupBy: takes a list only. With a string argument the code keeps the string (sql/select.php:242) and hands it to `implode`, whose result depends on the PHP version.
- PHP loose comparison. `'null'` is modelled as absent, true or false, and `'auto_increment'` as a boolean. The values 0, `''` and `'0'`, which `== false` also accepts, are not modelled, and an explicit NULL is the same as absent.
- MysqlAlter.Attributes: a default is a string, an integer, `false`, unset or some other value. A float default, and the text PHP gives it, are not modelled.
- SqlSelect.Select.Limit: takes integers. A numeric string or a float, which the argument check also accepts, is not modelled.
- The unused `$unbind` parameter of the alter builder's `getQuery` (mysql/alter.php:204).
- The setters' `return $this`. The model's setters return nothing, and a chain of calls becomes a sequence of statements.
- An unset table name renders as ``` `` ```, and an unset table of a `SELECT` renders as an empty section, as in the code. Neither is reported as an error.
- SqlSelectProperties.RenderShape: states the layout only when the select list is not empty and it and every section neither start nor end with a space. An empty select list leaves `SELECT  FROM`, whose two spaces the pass merges; a section that starts or ends with a space would join its run of spaces with the neighbouring gap. CollapseHead, BareQuery, FullQuery, LimitBeforeGroup and FilteredPage carry the same requirement on the select list.
- The `SELECT` builder's `array_merge` is modelled for lists only. String keys in a `where` argument are not modelled.
