# Flux query-text builder, modelled in Dafny

This project models the query builder of the time-machine UI
(`ui/src/timeMachine/utils/queryBuilder.ts`). The builder turns a structured
builder configuration into the text of a Flux query. The configuration holds
buckets, tag filter selections and aggregate/selector functions. The builder
also decides whether the text in the editor has drifted from what it would
generate.

Modules:

- `Text` (`text.dfy`): the string join of JavaScript arrays (`Join`). It also
  gives a second, independent view of join, `PrefixEach`, where each item is
  written with a separator in front of it, and `Encloses`, which says that a
  text is a fixed opening, a variable middle and a fixed closing, so that the
  middle can be read back.
- `QueryBuilder` (`query_builder.dfy`): the data model and one function for
  each operation of the source file. Every template literal is rebuilt by
  concatenation, with the same `"\n  "` indentation (`Indent`).
- `QueryBuilderProperties` (`query_builder_properties.dfy`): a reference
  description of a fragment. A fragment is its data-source clause followed by
  a list of clauses, each on its own indented line. This module proves that
  the template text agrees with that description. It also proves the
  properties the builder promises, and works the examples through.

Inputs the source takes from files outside this model are parameters. They
sit together in `Env`:

- the function registry `FUNCTIONS`, as a sequence of `FunctionSpec(name, flux, aggregate)`.
  Lookup (`Find`) returns the first entry with that name, as `Array.find` does.
- the constants `OPTION_NAME`, `TIME_RANGE_START`, `TIME_RANGE_STOP` and
  `WINDOW_PERIOD`, as arbitrary strings.

Error path: when no registry entry has a function's name, the source crashes
at line 62 (`fnSpec.flux` on `undefined`). The model returns
`InvalidFunctionReference(name)` instead. In `buildQuery` the `map` stops at
the first such function, so the model reports the first unregistered function
in list order. `hasQueryBeenEdited` calls `buildQuery`, so it passes the error on.

Edge cases worth knowing:

- `hasQueryBeenEdited` with an invalid configuration and EMPTY text returns
  true. The text `""` never equals the generated query, whose first
  characters are always `from(`, so the comparison on line 91 reports an
  edit even though line 90 alone would not
  (`EmptyTextUnderInvalidConfigEdited`).
- When tag selections exist but none is active, the tag-filter text is
  exactly `"\n  "`, not the empty string (`FormatTagFilterCall`).
- With no bucket, JavaScript's array destructuring gives `undefined`, and
  the template writes `from(bucket: "undefined")` (`NoBucketRendersUndefined`).

## Model

| member | source | states |
|---|---|---|
| `QueryBuilder.AnyActive` | ui/src/timeMachine/utils/queryBuilder.ts:16 | true exactly when some tag selection has a non-empty key and at least one value |
| `QueryBuilder.IsConfigValid` | ui/src/timeMachine/utils/queryBuilder.ts:11-19 | valid exactly when there is a bucket, a tag selection, and some active selection; never valid without buckets |
| `QueryBuilder.Find` | ui/src/timeMachine/utils/queryBuilder.ts:50 | not found exactly when no registry entry has the name; when found, the entry carries the name and no earlier entry does |
| `QueryBuilder.ActiveTags` | ui/src/timeMachine/utils/queryBuilder.ts:74-75 | keeps exactly the active selections: everything kept is active and comes from the input, and every active input selection is kept |
| `QueryBuilder.FormatTagFilterCall` | ui/src/timeMachine/utils/queryBuilder.ts:69-84 | the empty text for no selections; only a line break and indentation when selections exist but none is active; otherwise each active selection's filter clause, in input order, each after a line break and indentation |
| `QueryBuilder.FormatFunctionCall` | ui/src/timeMachine/utils/queryBuilder.ts:49-67 | an error exactly when the name is unregistered, and then the error names that function |
| `QueryBuilder.BuildQueryHelper` | ui/src/timeMachine/utils/queryBuilder.ts:35-47 | an error exactly when a function is given and it is unregistered; otherwise the text opens with the data-source clause on the first bucket |
| `QueryBuilder.BuildFragments` | ui/src/timeMachine/utils/queryBuilder.ts:27 | succeeds exactly when every function is registered; then it gives exactly one fragment per function |
| `QueryBuilder.FragmentsPerFunction` | ui/src/timeMachine/utils/queryBuilder.ts:27 | fragment i of a successful map is the fragment built for function i |
| `QueryBuilder.BuildQuery` | ui/src/timeMachine/utils/queryBuilder.ts:21-33 | succeeds exactly when every selected function is registered; the query opens with the data-source clause |
| `QueryBuilder.HasQueryBeenEdited` | ui/src/timeMachine/utils/queryBuilder.ts:86-94 | fails only when the query build fails; "not edited" exactly when the configuration is valid and the text equals the built query |
| `Text.JoinAsPrefixEach` | ui/src/timeMachine/utils/queryBuilder.ts:77 | a non-empty join is the first part followed by each later part with one separator in front of it |
| `Text.JoinLength` | ui/src/timeMachine/utils/queryBuilder.ts:81 | a join of n parts is as long as the parts plus n - 1 separators |
| `Text.JoinEnds` | ui/src/timeMachine/utils/queryBuilder.ts:27 | a non-empty join begins with its first part and finishes with its last part |
| `QueryBuilderProperties.ActiveTagsAppend` | ui/src/timeMachine/utils/queryBuilder.ts:74-75 | dropping inactive selections keeps input order: it commutes with concatenation |
| `QueryBuilderProperties.ActiveTagsKeepsActive` | ui/src/timeMachine/utils/queryBuilder.ts:75 | a list of active selections is kept unchanged |
| `QueryBuilderProperties.ActiveTagsEmptyIff` | ui/src/timeMachine/utils/queryBuilder.ts:75 | nothing is kept exactly when no selection is active |
| `QueryBuilderProperties.ActiveTagsCounts` | ui/src/timeMachine/utils/queryBuilder.ts:75 | each active selection is kept as many times as it occurs in the input, and no inactive selection is kept |
| `QueryBuilderProperties.FilterBodyShape` | ui/src/timeMachine/utils/queryBuilder.ts:76-79 | a filter predicate is one `r.<key> == "<value>"` per value, in value order, with `" or "` before every one after the first, so there is one separator fewer than there are values; its length follows from this |
| `QueryBuilderProperties.EqualitiesCompareEachValue` | ui/src/timeMachine/utils/queryBuilder.ts:77 | one equality per value, in value order; equality i compares the tag column `r.<key>` with value i, quoted |
| `QueryBuilderProperties.FilterClauseWrapsBody` | ui/src/timeMachine/utils/queryBuilder.ts:79 | a filter stage is the filter call whose function body is exactly the predicate, closed by one parenthesis |
| `QueryBuilderProperties.SourceClauseQuotesBucket` | ui/src/timeMachine/utils/queryBuilder.ts:43 | the data-source clause is `from(bucket: "`, the first bucket, and `")` |
| `QueryBuilderProperties.NoBucketRendersUndefined` | ui/src/timeMachine/utils/queryBuilder.ts:39-43 | with no bucket, the data-source clause reads `from(bucket: "undefined")`, as the destructured missing element is rendered by the template |
| `QueryBuilderProperties.OptionFieldShape` | ui/src/timeMachine/utils/queryBuilder.ts:44 | an option field is the option record's name, a dot, and the field name |
| `QueryBuilderProperties.RangeClauseBounds` | ui/src/timeMachine/utils/queryBuilder.ts:44 | the range clause starts at the option's start field and stops at its stop field |
| `QueryBuilderProperties.WindowClausePeriod` | ui/src/timeMachine/utils/queryBuilder.ts:56 | the window period is the option's window-period field |
| `QueryBuilderProperties.GroupClauseExceptsReserved` | ui/src/timeMachine/utils/queryBuilder.ts:58 | the regrouping lists exactly the columns `_value`, `_time`, `_start` and `_stop`, in `except` mode |
| `QueryBuilderProperties.YieldClauseQuotesName` | ui/src/timeMachine/utils/queryBuilder.ts:59 | the yield stage carries the function's name, quoted, as its label |
| `QueryBuilderProperties.TagFilterCallLines` | ui/src/timeMachine/utils/queryBuilder.ts:69-84 | the tag-filter text is one indented line per clause of the tag-filter stage: none, a single empty one, or one filter per active selection |
| `QueryBuilderProperties.FunctionCallLines` | ui/src/timeMachine/utils/queryBuilder.ts:54-63 | a registered aggregate gives the window, Flux body, regrouping and yield lines, in that order; any other registered function gives only the body and yield lines |
| `QueryBuilderProperties.FunctionCallEndsWithYield` | ui/src/timeMachine/utils/queryBuilder.ts:55-63 | the function stage always ends with the yield labelled by the function's name |
| `QueryBuilderProperties.FragmentLines` | ui/src/timeMachine/utils/queryBuilder.ts:35-47 | a fragment is the data-source clause followed by indented lines: the range, then the tag filters, then the function stage |
| `QueryBuilderProperties.FragmentOpening` | ui/src/timeMachine/utils/queryBuilder.ts:43-44 | every fragment opens with the first bucket's data-source clause and the range on the option's start and stop fields |
| `QueryBuilderProperties.QueryWithoutFunctions` | ui/src/timeMachine/utils/queryBuilder.ts:28-30 | with no functions the query is one fragment with no function stage, and it always succeeds |
| `QueryBuilderProperties.QueryWithFunctions` | ui/src/timeMachine/utils/queryBuilder.ts:26-27 | with n >= 1 functions the query is n fragments, fragment i for function i, the first followed by each other after one blank line |
| `QueryBuilderProperties.QueryOpening` | ui/src/timeMachine/utils/queryBuilder.ts:21-47 | every built query opens with the data-source clause on the first bucket and the time range |
| `QueryBuilderProperties.FirstUnregisteredReported` | ui/src/timeMachine/utils/queryBuilder.ts:27 | a failed map names a function that is unregistered, and every function before it is registered |
| `QueryBuilderProperties.QueryReportsFirstUnregistered` | ui/src/timeMachine/utils/queryBuilder.ts:50-62 | a failed query names the first unregistered function of the configuration |
| `QueryBuilderProperties.FragmentsReadFirstBucketOnly` | ui/src/timeMachine/utils/queryBuilder.ts:39 | two configurations with the same tags and the same first bucket give the same fragments |
| `QueryBuilderProperties.QueryReadsFirstBucketOnly` | ui/src/timeMachine/utils/queryBuilder.ts:39 | adding buckets after the first does not change the query |
| `QueryBuilderProperties.EditedWhenTextDiffers` | ui/src/timeMachine/utils/queryBuilder.ts:91-93 | text that differs from the built query counts as edited |
| `QueryBuilderProperties.EditedWhenInvalidAndNonEmpty` | ui/src/timeMachine/utils/queryBuilder.ts:90 | non-empty text under an invalid configuration counts as edited |
| `QueryBuilderProperties.RegeneratedQueryEdited` | ui/src/timeMachine/utils/queryBuilder.ts:86-94 | the built query itself counts as edited exactly when the configuration is invalid, so never for a valid one |
| `QueryBuilderProperties.EmptyTextUnderInvalidConfigEdited` | ui/src/timeMachine/utils/queryBuilder.ts:90-93 | empty text under an invalid configuration also counts as edited |
| `QueryBuilderProperties.HostFilterClauseExample` | ui/src/timeMachine/utils/queryBuilder.ts:76-79 | the selection `host` = `a`, `b` is written as the filter stage `filter(fn: (r) => r.host == "a" or r.host == "b")` |
| `QueryBuilderProperties.SingleFilterExample` | ui/src/timeMachine/utils/queryBuilder.ts:83 | one active selection is written as one indented filter line |
| `QueryBuilderProperties.ExampleFilterOnly` | ui/src/timeMachine/utils/queryBuilder.ts:43-44 | bucket `metrics` with that selection and no function: source, range and filter, with no function stage |
| `QueryBuilderProperties.ExampleAggregate` | ui/src/timeMachine/utils/queryBuilder.ts:54-59 | the same with the aggregate `mean`: range, filter, window, body, regrouping and the yield `mean`, in that order |
| `QueryBuilderProperties.ExampleSelector` | ui/src/timeMachine/utils/queryBuilder.ts:60-63 | a selector contributes only its body and its yield, with no window and no regrouping |
| `QueryBuilderProperties.ExampleManualTextEdited` | ui/src/timeMachine/utils/queryBuilder.ts:90 | typed text against an empty configuration counts as edited |

## Left out

- The contents of the function registry and the values of the option
  constants: they live in files that are not part of this model. They are
  parameters (`Env`), and every property holds for all of them.
- `_.isEmpty` on the query text is modelled as "length zero". This is what
  lodash does for strings.
- Diagnostics beyond the missing function: the TypeError the source raises is
  replaced by an explicit `InvalidFunctionReference` result.
- Determinism of `buildQuery` needs no lemma: every operation is a Dafny
  function, so equal inputs give equal outputs by construction.
- The rest of the UI (task actions and thunks, the save-as-task form, the
  onboarding wizard, sign-in, bucket and token rows, the export overlay, the
  axis options, the store types) is rendering, routing, HTTP calls and type
  declarations. It is not part of this model.
