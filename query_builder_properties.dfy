/** Properties of the query-text builder. A fragment is described a second
    time, as a list of clauses each written on its own indented line, and the
    template text of the builder is proved to agree with that description. */
module QueryBuilderProperties {
  import opened Text
  import opened QueryBuilder

  /** The clauses of a function stage: an aggregate is windowed before and
      regrouped after its own Flux text; every function ends with a yield
      labelled with its name. */
  function FunctionClauses(env: Env, spec: FunctionSpec, name: string): seq<string>
  {
    if spec.aggregate then [WindowClause(env), spec.flux, GroupClause, YieldClause(name)]
    else [spec.flux, YieldClause(name)]
  }

  /** The clauses of the tag-filter stage: none without selections, one filter
      per active selection, and a single empty line when selections exist but
      none is active. */
  function TagClauses(tags: seq<TagSpec>): seq<string>
  {
    if |tags| == 0 then []
    else if |ActiveTags(tags)| == 0 then [""]
    else FilterClauses(ActiveTags(tags))
  }

  /** The clauses of the optional function stage of a fragment. */
  function FunctionStageClauses(env: Env, fn: Option<BuilderFunction>): seq<string>
  {
    match fn
    case None => []
    case Some(f) =>
      match Find(env.registry, f.name)
      case Found(spec) => FunctionClauses(env, spec, f.name)
      case NotFound => []
  }

  /** The clause lines of a fragment after its data-source clause. */
  function FragmentClauses(env: Env, c: BuilderConfig, fn: Option<BuilderFunction>): seq<string>
  {
    [RangeClause(env)] + (TagClauses(c.tags) + FunctionStageClauses(env, fn))
  }

  // ---------------------------------------------------------------------
  // Clause texts: each variable part sits between fixed delimiters, from
  // which it can be read back.

  /** The data-source clause quotes the first bucket. */
  lemma SourceClauseQuotesBucket(c: BuilderConfig)
    ensures Encloses(SourceClause(c), "from(bucket: \"", FirstBucket(c.buckets), "\")")
  {
    EnclosesConcat("from(bucket: \"", FirstBucket(c.buckets), "\")");
  }

  /** Without buckets the data source is JavaScript's rendering of the
      missing first element. */
  lemma NoBucketRendersUndefined(c: BuilderConfig)
    requires |c.buckets| == 0
    ensures SourceClause(c) == "from(bucket: \"undefined\")"
  {
    assert FirstBucket(c.buckets) == "undefined";
  }

  /** An option field is the option record's name, a dot, and the field. */
  lemma OptionFieldShape(env: Env, field: string)
    ensures Encloses(OptionField(env, field), env.optionName, ".", field)
  {
    EnclosesConcat(env.optionName, ".", field);
  }

  /** The range starts at the option's start field and stops at its stop field. */
  lemma RangeClauseBounds(env: Env)
    ensures Encloses(RangeClause(env), "|> range(start: ", OptionField(env, env.timeRangeStart),
                     ", stop: " + OptionField(env, env.timeRangeStop) + ")")
    ensures Encloses(", stop: " + OptionField(env, env.timeRangeStop) + ")",
                     ", stop: ", OptionField(env, env.timeRangeStop), ")")
  {
    EnclosesConcat("|> range(start: ", OptionField(env, env.timeRangeStart),
                   ", stop: " + OptionField(env, env.timeRangeStop) + ")");
    EnclosesConcat(", stop: ", OptionField(env, env.timeRangeStop), ")");
  }

  /** The window period is the option's window-period field. */
  lemma WindowClausePeriod(env: Env)
    ensures Encloses(WindowClause(env), "|> window(period: ", OptionField(env, env.windowPeriod), ")")
  {
    EnclosesConcat("|> window(period: ", OptionField(env, env.windowPeriod), ")");
  }

  /** The regrouping names exactly the reserved columns, in `except` mode. */
  lemma GroupClauseExceptsReserved()
    ensures Encloses(GroupClause, "|> group(columns: [", ReservedColumns, "], mode: \"except\")")
  {
    EnclosesConcat("|> group(columns: [", ReservedColumns, "], mode: \"except\")");
  }

  /** The yield is labelled with the quoted function name. */
  lemma YieldClauseQuotesName(name: string)
    ensures Encloses(YieldClause(name), "|> yield(name: \"", name, "\")")
  {
    EnclosesConcat("|> yield(name: \"", name, "\")");
  }

  /** One equality per value, in value order, each comparing the tag column
      `r.<key>` with that value, quoted. */
  lemma EqualitiesCompareEachValue(key: string, values: seq<string>)
    ensures |Equalities(key, values)| == |values|
    ensures forall i :: 0 <= i < |values| ==>
              Encloses(Equalities(key, values)[i], "r." + key + " == \"", values[i], "\"")
  {
    forall i | 0 <= i < |values|
      ensures Encloses(Equalities(key, values)[i], "r." + key + " == \"", values[i], "\"")
    {
      EnclosesConcat("r." + key + " == \"", values[i], "\"");
    }
  }

  /** A filter stage wraps its predicate. */
  lemma FilterClauseWrapsBody(t: TagSpec)
    ensures Encloses(FilterClause(t), "|> filter(fn: (r) => ", FilterBody(t.key, t.values), ")")
  {
    EnclosesConcat("|> filter(fn: (r) => ", FilterBody(t.key, t.values), ")");
  }

  // ---------------------------------------------------------------------
  // Tag filters

  /** Filtering the active selections keeps their order: it commutes with
      concatenation of the selection list. */
  lemma {:induction false} ActiveTagsAppend(a: seq<TagSpec>, b: seq<TagSpec>)
    ensures ActiveTags(a + b) == ActiveTags(a) + ActiveTags(b)
    decreases |a|
  {
    if |a| == 0 {
      assert a + b == b;
    } else {
      assert (a + b)[0] == a[0];
      assert (a + b)[1..] == a[1..] + b;
      ActiveTagsAppend(a[1..], b);
    }
  }

  /** A list of active selections is kept whole, in order. */
  lemma {:induction false} ActiveTagsKeepsActive(tags: seq<TagSpec>)
    requires forall i :: 0 <= i < |tags| ==> IsActive(tags[i])
    ensures ActiveTags(tags) == tags
    decreases |tags|
  {
    if |tags| > 0 {
      ActiveTagsKeepsActive(tags[1..]);
    }
  }

  /** Every active selection is kept as many times as it occurs, and no
      inactive one is kept. */
  lemma {:induction false} ActiveTagsCounts(tags: seq<TagSpec>)
    ensures forall t :: multiset(ActiveTags(tags))[t] == if IsActive(t) then multiset(tags)[t] else 0
    decreases |tags|
  {
    if |tags| > 0 {
      ActiveTagsCounts(tags[1..]);
      assert tags == [tags[0]] + tags[1..];
      assert multiset(tags) == multiset([tags[0]]) + multiset(tags[1..]);
    }
  }

  /** There is an active selection exactly when the filtered list is non-empty. */
  lemma ActiveTagsEmptyIff(tags: seq<TagSpec>)
    ensures |ActiveTags(tags)| == 0 <==> !AnyActive(tags)
  {
  }

  /** Each filter predicate is one equality per value, in value order,
      separated by " or ": |values| - 1 separators for |values| equalities. */
  lemma FilterBodyShape(key: string, values: seq<string>)
    ensures |values| == 0 ==> FilterBody(key, values) == ""
    ensures |values| >= 1 ==>
              FilterBody(key, values)
              == "r." + key + " == \"" + values[0] + "\""
                 + PrefixEach(" or ", Equalities(key, values)[1..])
    ensures |values| >= 1 ==>
              |FilterBody(key, values)| == SumLengths(Equalities(key, values)) + 4 * (|values| - 1)
  {
    if |values| >= 1 {
      JoinAsPrefixEach(Equalities(key, values), " or ");
      JoinLength(Equalities(key, values), " or ");
    }
  }

  /** The tag-filter text is one indented line per clause of the tag-filter
      stage, the lone empty line included. */
  lemma TagFilterCallLines(tags: seq<TagSpec>)
    ensures FormatTagFilterCall(tags) == PrefixEach(Indent, TagClauses(tags))
  {
    ActiveTagsEmptyIff(tags);
    if |tags| > 0 && |ActiveTags(tags)| == 0 {
      assert PrefixEach(Indent, [""]) == Indent + "" + PrefixEach(Indent, []);
    }
  }

  // ---------------------------------------------------------------------
  // Function stage

  /** A registered function is written as its clause lines: window, Flux text,
      regrouping and yield for an aggregate, only Flux text and yield
      otherwise. */
  lemma FunctionCallLines(env: Env, fn: BuilderFunction, spec: FunctionSpec)
    requires Find(env.registry, fn.name) == Found(spec)
    ensures FormatFunctionCall(env, fn) == Ok(PrefixEach(Indent, FunctionClauses(env, spec, fn.name)))
  {
    if spec.aggregate {
      PrefixEachQuad(Indent, WindowClause(env), spec.flux, GroupClause, YieldClause(fn.name));
    } else {
      PrefixEachPair(Indent, spec.flux, YieldClause(fn.name));
    }
  }

  /** Every written function stage ends with the yield labelled by its name. */
  lemma FunctionCallEndsWithYield(env: Env, fn: BuilderFunction)
    requires FormatFunctionCall(env, fn).Ok?
    ensures EndsWith(FormatFunctionCall(env, fn).value, YieldClause(fn.name))
  {
  }

  // ---------------------------------------------------------------------
  // Fragments

  /** Concatenating indented blocks is indenting the concatenated clause lists. */
  lemma LinesAssembly(head: string, first: string, a: seq<string>, b: seq<string>)
    ensures head + Indent + first + PrefixEach(Indent, a) + PrefixEach(Indent, b)
            == head + PrefixEach(Indent, [first] + (a + b))
  {
    PrefixEachConsAppend(Indent, first, a, b);
  }

  /** A fragment is the data-source clause on the first bucket followed by one
      indented line per clause: the time range, the tag filters, then the
      function stage. */
  lemma FragmentLines(env: Env, c: BuilderConfig, fn: Option<BuilderFunction>)
    requires BuildQueryHelper(env, c, fn).Ok?
    ensures BuildQueryHelper(env, c, fn).value
            == SourceClause(c) + PrefixEach(Indent, FragmentClauses(env, c, fn))
  {
    var tagClauses := TagClauses(c.tags);
    var fnClauses := FunctionStageClauses(env, fn);
    var call := if fn.Some? then FormatFunctionCall(env, fn.value).value else "";
    var tagText := FormatTagFilterCall(c.tags);
    TagFilterCallLines(c.tags);
    assert tagText == PrefixEach(Indent, tagClauses);
    assert call == PrefixEach(Indent, fnClauses) by {
      if fn.Some? {
        FunctionCallLines(env, fn.value, Find(env.registry, fn.value.name).spec);
      }
    }
    assert BuildQueryHelper(env, c, fn).value
           == SourceClause(c) + Indent + RangeClause(env) + tagText + call;
    LinesAssembly(SourceClause(c), RangeClause(env), tagClauses, fnClauses);
  }

  /** Every fragment opens with the data-source clause and the time range on
      the option's start and stop fields. */
  lemma FragmentOpening(env: Env, c: BuilderConfig, fn: Option<BuilderFunction>)
    requires BuildQueryHelper(env, c, fn).Ok?
    ensures SourceClause(c) + Indent + RangeClause(env) <= BuildQueryHelper(env, c, fn).value
  {
  }

  // ---------------------------------------------------------------------
  // The whole query

  /** No function selected: one fragment, with no function stage. */
  lemma QueryWithoutFunctions(env: Env, c: BuilderConfig)
    requires |c.functions| == 0
    ensures BuildQuery(env, c).Ok?
    ensures BuildQuery(env, c).value
            == SourceClause(c) + PrefixEach(Indent, [RangeClause(env)] + TagClauses(c.tags))
  {
    FragmentLines(env, c, None);
    assert TagClauses(c.tags) + [] == TagClauses(c.tags);
  }

  /** With n >= 1 registered functions: n fragments, fragment i for function i,
      the first followed by each of the others after one blank line. */
  lemma QueryWithFunctions(env: Env, c: BuilderConfig)
    requires |c.functions| >= 1 && BuildQuery(env, c).Ok?
    ensures BuildFragments(env, c, c.functions).Ok?
    ensures var frags := BuildFragments(env, c, c.functions).value;
            && |frags| == |c.functions|
            && (forall i :: 0 <= i < |frags| ==> BuildQueryHelper(env, c, Some(c.functions[i])) == Ok(frags[i]))
            && BuildQuery(env, c).value == frags[0] + PrefixEach("\n\n", frags[1..])
  {
    JoinAsPrefixEach(BuildFragments(env, c, c.functions).value, "\n\n");
    FragmentsPerFunction(env, c, c.functions);
  }

  /** Every built query opens with the data-source clause on the first bucket
      and the time range. */
  lemma QueryOpening(env: Env, c: BuilderConfig)
    requires BuildQuery(env, c).Ok?
    ensures SourceClause(c) + Indent + RangeClause(env) <= BuildQuery(env, c).value
  {
    var opening := SourceClause(c) + Indent + RangeClause(env);
    if |c.functions| > 0 {
      var frags := BuildFragments(env, c, c.functions).value;
      FragmentsPerFunction(env, c, c.functions);
      FragmentOpening(env, c, Some(c.functions[0]));
      JoinAsPrefixEach(frags, "\n\n");
      assert opening <= frags[0];
    } else {
      FragmentOpening(env, c, None);
    }
  }

  /** The reported unregistered function is the first one in list order. */
  lemma {:induction false} FirstUnregisteredReported(env: Env, c: BuilderConfig, fns: seq<BuilderFunction>)
    requires BuildFragments(env, c, fns).InvalidFunctionReference?
    ensures var name := BuildFragments(env, c, fns).name;
            exists k :: 0 <= k < |fns| && fns[k].name == name && !IsRegistered(env.registry, name)
                        && forall j :: 0 <= j < k ==> IsRegistered(env.registry, fns[j].name)
    decreases |fns|
  {
    var name := BuildFragments(env, c, fns).name;
    if BuildQueryHelper(env, c, Some(fns[0])).InvalidFunctionReference? {
      assert fns[0].name == name;
    } else {
      FirstUnregisteredReported(env, c, fns[1..]);
      var k :| 0 <= k < |fns[1..]| && fns[1..][k].name == name && !IsRegistered(env.registry, name)
               && forall j :: 0 <= j < k ==> IsRegistered(env.registry, fns[1..][j].name);
      assert fns[k + 1] == fns[1..][k];
      forall j | 0 <= j < k + 1 ensures IsRegistered(env.registry, fns[j].name) {
        if j > 0 {
          assert fns[j] == fns[1..][j - 1];
        }
      }
    }
  }

  /** An unregistered function makes the whole query an error naming the
      first unregistered function. */
  lemma QueryReportsFirstUnregistered(env: Env, c: BuilderConfig)
    requires BuildQuery(env, c).InvalidFunctionReference?
    ensures var name := BuildQuery(env, c).name;
            exists k :: 0 <= k < |c.functions| && c.functions[k].name == name
                        && !IsRegistered(env.registry, name)
                        && forall j :: 0 <= j < k ==> IsRegistered(env.registry, c.functions[j].name)
  {
    FirstUnregisteredReported(env, c, c.functions);
  }

  /** Fragments depend on the buckets only through the first one. */
  lemma {:induction false} FragmentsReadFirstBucketOnly(env: Env, c: BuilderConfig, d: BuilderConfig, fns: seq<BuilderFunction>)
    requires c.tags == d.tags && FirstBucket(c.buckets) == FirstBucket(d.buckets)
    ensures BuildFragments(env, c, fns) == BuildFragments(env, d, fns)
    decreases |fns|
  {
    if |fns| > 0 {
      assert BuildQueryHelper(env, c, Some(fns[0])) == BuildQueryHelper(env, d, Some(fns[0]));
      FragmentsReadFirstBucketOnly(env, c, d, fns[1..]);
    }
  }

  /** Only the first bucket is ever read: further buckets change nothing. */
  lemma QueryReadsFirstBucketOnly(env: Env, c: BuilderConfig, extra: seq<string>)
    requires |c.buckets| >= 1
    ensures BuildQuery(env, c.(buckets := c.buckets + extra)) == BuildQuery(env, c)
  {
    var d := c.(buckets := c.buckets + extra);
    assert FirstBucket(d.buckets) == FirstBucket(c.buckets);
    FragmentsReadFirstBucketOnly(env, d, c, c.functions);
  }

  // ---------------------------------------------------------------------
  // Edit detection

  /** Text that differs from the regenerated query counts as edited. */
  lemma EditedWhenTextDiffers(env: Env, query: string, c: BuilderConfig)
    requires BuildQuery(env, c).Ok? && query != BuildQuery(env, c).value
    ensures HasQueryBeenEdited(env, query, c) == Ok(true)
  {
  }

  /** Non-empty text under an invalid configuration counts as edited. */
  lemma EditedWhenInvalidAndNonEmpty(env: Env, query: string, c: BuilderConfig)
    requires BuildQuery(env, c).Ok? && !IsConfigValid(c) && |query| > 0
    ensures HasQueryBeenEdited(env, query, c) == Ok(true)
  {
  }

  /** The regenerated query itself counts as edited exactly when the
      configuration is invalid; in particular never for a valid one. */
  lemma RegeneratedQueryEdited(env: Env, c: BuilderConfig)
    requires BuildQuery(env, c).Ok?
    ensures HasQueryBeenEdited(env, BuildQuery(env, c).value, c) == Ok(!IsConfigValid(c))
  {
  }

  /** Empty text under an invalid configuration also counts as edited,
      because the builder's text is never empty. */
  lemma EmptyTextUnderInvalidConfigEdited(env: Env, c: BuilderConfig)
    requires BuildQuery(env, c).Ok? && !IsConfigValid(c)
    ensures HasQueryBeenEdited(env, "", c) == Ok(true)
  {
  }

  // ---------------------------------------------------------------------
  // Worked examples

  /** The filter clause for `host` with values `a` and `b`. */
  lemma HostFilterClauseExample()
    ensures FilterClause(TagSpec("host", ["a", "b"]))
            == "|> filter(fn: (r) => r.host == \"a\" or r.host == \"b\")"
  {
  }

  /** A single active selection is written as one indented filter line. */
  lemma SingleFilterExample(t: TagSpec)
    requires IsActive(t)
    ensures FormatTagFilterCall([t]) == Indent + FilterClause(t)
  {
  }

  /** One selection on `host` with two values and no function: the source,
      the range and one filter line, with no function stage. */
  lemma ExampleFilterOnly(env: Env)
    ensures BuildQuery(env, BuilderConfig(["metrics"], [TagSpec("host", ["a", "b"])], []))
            == Ok("from(bucket: \"metrics\")"
                  + Indent + RangeClause(env)
                  + Indent + FilterClause(TagSpec("host", ["a", "b"])))
  {
    var c := BuilderConfig(["metrics"], [TagSpec("host", ["a", "b"])], []);
    var src := "from(bucket: \"" + FirstBucket(c.buckets) + "\")";
    assert src == "from(bucket: \"metrics\")";
    SingleFilterExample(TagSpec("host", ["a", "b"]));
    assert BuildQuery(env, c) == BuildQueryHelper(env, c, None);
    var tagText := FormatTagFilterCall(c.tags);
    var v := BuildQueryHelper(env, c, None).value;
    assert v == src + Indent + RangeClause(env) + tagText;
    assert v == "from(bucket: \"metrics\")" + Indent + RangeClause(env) + Indent + FilterClause(TagSpec("host", ["a", "b"]));
  }

  /** The same selection with the aggregate `mean`: after the source, six
      indented lines, namely range, filter, window, body, regrouping and yield. */
  lemma ExampleAggregate(env: Env, flux: string)
    requires Find(env.registry, "mean") == Found(FunctionSpec("mean", flux, true))
    ensures BuildQuery(env, BuilderConfig(["metrics"], [TagSpec("host", ["a", "b"])], [BuilderFunction("mean")]))
            == Ok("from(bucket: \"metrics\")"
                  + PrefixEach(Indent, [RangeClause(env), FilterClause(TagSpec("host", ["a", "b"])),
                                        WindowClause(env), flux, GroupClause, YieldClause("mean")]))
  {
    var t := TagSpec("host", ["a", "b"]);
    var c := BuilderConfig(["metrics"], [t], [BuilderFunction("mean")]);
    var fn := Some(BuilderFunction("mean"));
    assert SourceClause(c) == "from(bucket: \"metrics\")";
    assert IsRegistered(env.registry, "mean");
    var frags := BuildFragments(env, c, c.functions).value;
    assert BuildQuery(env, c) == Ok(frags[0]);
    FragmentLines(env, c, fn);
    assert ActiveTags([t]) == [t];
    assert TagClauses(c.tags) == [FilterClause(t)];
    assert FunctionStageClauses(env, fn) == [WindowClause(env), flux, GroupClause, YieldClause("mean")];
    assert FragmentClauses(env, c, fn)
           == [RangeClause(env), FilterClause(t), WindowClause(env), flux, GroupClause, YieldClause("mean")];
  }

  /** A selector (non-aggregate) contributes only its body and a yield. */
  lemma ExampleSelector(env: Env, flux: string)
    requires Find(env.registry, "last") == Found(FunctionSpec("last", flux, false))
    ensures BuildQuery(env, BuilderConfig(["metrics"], [], [BuilderFunction("last")]))
            == Ok("from(bucket: \"metrics\")"
                  + Indent + RangeClause(env)
                  + Indent + flux
                  + Indent + YieldClause("last"))
  {
    var c := BuilderConfig(["metrics"], [], [BuilderFunction("last")]);
    var src := "from(bucket: \"" + FirstBucket(c.buckets) + "\")";
    assert src == "from(bucket: \"metrics\")";
    assert IsRegistered(env.registry, "last");
    var frags := BuildFragments(env, c, c.functions).value;
    assert BuildQuery(env, c) == Ok(frags[0]);
    var call := FormatFunctionCall(env, BuilderFunction("last")).value;
    var v := frags[0];
    assert v == src + Indent + RangeClause(env) + "" + call;
    assert call == Indent + flux + Indent + YieldClause("last");
    assert v == "from(bucket: \"metrics\")" + Indent + RangeClause(env) + Indent + flux + Indent + YieldClause("last");
  }

  /** Typed text against an empty configuration counts as edited. */
  lemma ExampleManualTextEdited(env: Env)
    ensures HasQueryBeenEdited(env, "some manually typed text", BuilderConfig([], [], [])) == Ok(true)
  {
  }
}
