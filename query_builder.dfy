/** The query-text builder of the time machine: turns a structured builder
    configuration (buckets, tag filters, aggregate/selector functions) into the
    text of a Flux query, and decides whether editor text has drifted from what
    the builder would produce. */
module QueryBuilder {
  import opened Text

  datatype Option<T> = None | Some(value: T)

  /** One tag filter selection: a tag key and the values it may take. */
  datatype TagSpec = TagSpec(key: string, values: seq<string>)

  /** A function chosen in the builder; only its name is used. */
  datatype BuilderFunction = BuilderFunction(name: string)

  datatype BuilderConfig = BuilderConfig(
    buckets: seq<string>,
    tags: seq<TagSpec>,
    functions: seq<BuilderFunction>)

  /** An entry of the function registry: the Flux text of the function and
      whether it aggregates over windows. */
  datatype FunctionSpec = FunctionSpec(name: string, flux: string, aggregate: bool)

  /** What the builder reads besides its configuration: the function registry
      and the names of the option record and of its time-range and
      window-period fields. */
  datatype Env = Env(
    registry: seq<FunctionSpec>,
    optionName: string,
    timeRangeStart: string,
    timeRangeStop: string,
    windowPeriod: string)

  /** The result of looking a function up in the registry. */
  datatype Lookup = Found(spec: FunctionSpec) | NotFound

  /** A built text, or the name of the first function the registry does not know. */
  datatype Outcome<T> = Ok(value: T) | InvalidFunctionReference(name: string)

  /** Tag selections that contribute a filter: a non-empty key and at least one value. */
  predicate IsActive(t: TagSpec)
  {
    |t.key| > 0 && |t.values| > 0
  }

  /** Some registry entry carries this name. */
  predicate IsRegistered(registry: seq<FunctionSpec>, name: string)
  {
    exists j :: 0 <= j < |registry| && registry[j].name == name
  }

  /** Some selection is active. */
  function AnyActive(tags: seq<TagSpec>): (b: bool)
    ensures b <==> exists i :: 0 <= i < |tags| && IsActive(tags[i])
    decreases |tags|
  {
    if |tags| == 0 then false
    else IsActive(tags[0]) || AnyActive(tags[1..])
  }

  /** A configuration the builder can turn into a meaningful query. */
  function IsConfigValid(c: BuilderConfig): (b: bool)
    ensures b <==> |c.buckets| >= 1 && |c.tags| >= 1
                   && exists i :: 0 <= i < |c.tags| && IsActive(c.tags[i])
    ensures |c.buckets| == 0 ==> !b
  {
    |c.buckets| >= 1 && |c.tags| >= 1 && AnyActive(c.tags)
  }

  /** The registry entry for a name: the first entry that carries it. */
  function Find(registry: seq<FunctionSpec>, name: string): (r: Lookup)
    ensures r.NotFound? <==> !IsRegistered(registry, name)
    ensures r.Found? ==> r.spec.name == name
    ensures r.Found? ==> exists k :: 0 <= k < |registry| && registry[k] == r.spec
                                     && forall j :: 0 <= j < k ==> registry[j].name != name
    decreases |registry|
  {
    if |registry| == 0 then NotFound
    else if registry[0].name == name then Found(registry[0])
    else
      var r := Find(registry[1..], name);
      assert r.Found? ==> exists k :: 1 <= k < |registry| && registry[k] == r.spec
                                      && forall j :: 1 <= j < k ==> registry[j].name != name
        by {
          if r.Found? {
            var k :| 0 <= k < |registry[1..]| && registry[1..][k] == r.spec
                     && forall j :: 0 <= j < k ==> registry[1..][j].name != name;
            assert registry[k + 1] == r.spec;
            forall j | 1 <= j < k + 1 ensures registry[j].name != name {
              assert registry[j] == registry[1..][j - 1];
            }
          }
        }
      assert r.NotFound? <==> !IsRegistered(registry, name) by {
        if IsRegistered(registry, name) {
          var j :| 0 <= j < |registry| && registry[j].name == name;
          assert j > 0 && registry[1..][j - 1].name == name;
        }
      }
      r
  }

  /** Every clause after the data source starts on a new line indented by two spaces. */
  const Indent: string := "\n  "

  /** The data-source clause every fragment opens with: the first bucket,
      quoted. */
  function SourceClause(c: BuilderConfig): string
  {
    "from(bucket: \"" + FirstBucket(c.buckets) + "\")"
  }

  /** The first bucket, or JavaScript's rendering of the missing element. */
  function FirstBucket(buckets: seq<string>): string
  {
    if |buckets| >= 1 then buckets[0] else "undefined"
  }

  /** One equality test per value, in value order: the tag column `r.<key>`
      compared with the quoted value. */
  function Equalities(key: string, values: seq<string>): seq<string>
  {
    seq(|values|, i requires 0 <= i < |values| => "r." + key + " == \"" + values[i] + "\"")
  }

  /** The predicate of one filter: the first equality, then every other one
      after " or ". */
  function FilterBody(key: string, values: seq<string>): string
  {
    Join(Equalities(key, values), " or ")
  }

  /** The filter stage of one selection, around its predicate. */
  function FilterClause(t: TagSpec): string
  {
    "|> filter(fn: (r) => " + FilterBody(t.key, t.values) + ")"
  }

  /** The active selections, in input order. */
  function ActiveTags(tags: seq<TagSpec>): (r: seq<TagSpec>)
    ensures |r| <= |tags|
    ensures forall t :: t in r ==> t in tags && IsActive(t)
    ensures forall i :: 0 <= i < |tags| && IsActive(tags[i]) ==> tags[i] in r
    decreases |tags|
  {
    if |tags| == 0 then []
    else if IsActive(tags[0]) then [tags[0]] + ActiveTags(tags[1..])
    else ActiveTags(tags[1..])
  }

  function FilterClauses(ts: seq<TagSpec>): seq<string>
  {
    seq(|ts|, i requires 0 <= i < |ts| => FilterClause(ts[i]))
  }

  /** The tag-filter text: nothing without selections, otherwise a line break
      and indentation followed by the filter clauses of the active selections,
      each further one on its own indented line. When selections exist but
      none is active, only the line break and indentation remain. */
  function FormatTagFilterCall(tags: seq<TagSpec>): (r: string)
    ensures |tags| == 0 ==> r == ""
    ensures |tags| > 0 && !AnyActive(tags) ==> r == Indent
    ensures AnyActive(tags) ==> r == PrefixEach(Indent, FilterClauses(ActiveTags(tags)))
  {
    if |tags| == 0 then ""
    else
      var cs := FilterClauses(ActiveTags(tags));
      assert |cs| >= 1 ==> Indent + Join(cs, Indent) == PrefixEach(Indent, cs) by {
        if |cs| >= 1 {
          LeadingSeparatorJoin(cs, Indent);
        }
      }
      assert AnyActive(tags) <==> |cs| >= 1 by {
        if AnyActive(tags) {
          var i :| 0 <= i < |tags| && IsActive(tags[i]);
          assert tags[i] in ActiveTags(tags);
        }
        if |cs| >= 1 {
          assert ActiveTags(tags)[0] in ActiveTags(tags);
        }
      }
      Indent + Join(cs, Indent)
  }

  /** A field of the option record. */
  function OptionField(env: Env, field: string): string
  {
    env.optionName + "." + field
  }

  /** The time range, bounded by the start and stop fields of the option record. */
  function RangeClause(env: Env): string
  {
    "|> range(start: " + OptionField(env, env.timeRangeStart) + (", stop: " + OptionField(env, env.timeRangeStop) + ")")
  }

  /** Windowing on the window-period field of the option record. */
  function WindowClause(env: Env): string
  {
    "|> window(period: " + OptionField(env, env.windowPeriod) + ")"
  }

  /** The columns the regrouping keeps out of the group key. */
  const ReservedColumns: string := "\"_value\", \"_time\", \"_start\", \"_stop\""

  /** Regroup by everything except the reserved value and time columns. */
  const GroupClause: string := "|> group(columns: [" + ReservedColumns + "], mode: \"except\")"

  /** Output labelled with the function's name, quoted. */
  function YieldClause(name: string): string
  {
    "|> yield(name: \"" + name + "\")"
  }

  /** The function stage: for an aggregate a window, the function's Flux text,
      a regrouping and a yield; for any other function its Flux text and a
      yield. A name missing from the registry is an explicit error. */
  function FormatFunctionCall(env: Env, fn: BuilderFunction): (r: Outcome<string>)
    ensures r.InvalidFunctionReference? <==> !IsRegistered(env.registry, fn.name)
    ensures r.InvalidFunctionReference? ==> r.name == fn.name
  {
    match Find(env.registry, fn.name)
    case Found(spec) =>
      if spec.aggregate then
        Ok(Indent + WindowClause(env) + Indent + spec.flux + Indent + GroupClause + Indent + YieldClause(fn.name))
      else
        Ok(Indent + spec.flux + Indent + YieldClause(fn.name))
    case NotFound => InvalidFunctionReference(fn.name)
  }

  /** One fragment, from the first bucket, over the option
      time range, through the tag filters and the optional function. */
  function BuildQueryHelper(env: Env, c: BuilderConfig, fn: Option<BuilderFunction>): (r: Outcome<string>)
    ensures r.InvalidFunctionReference? <==> fn.Some? && !IsRegistered(env.registry, fn.value.name)
    ensures r.Ok? ==> SourceClause(c) <= r.value
  {
    var tagFilterCall := FormatTagFilterCall(c.tags);
    var fnCall := if fn.Some? then FormatFunctionCall(env, fn.value) else Ok("");
    match fnCall
    case Ok(call) =>
      Ok(SourceClause(c) + Indent + RangeClause(env) + tagFilterCall + call)
    case InvalidFunctionReference(name) => InvalidFunctionReference(name)
  }

  /** One fragment per function, in list order; the first unregistered
      function aborts the whole list. */
  function BuildFragments(env: Env, c: BuilderConfig, fns: seq<BuilderFunction>): (r: Outcome<seq<string>>)
    ensures r.Ok? <==> forall i :: 0 <= i < |fns| ==> IsRegistered(env.registry, fns[i].name)
    ensures r.Ok? ==> |r.value| == |fns|
    decreases |fns|
  {
    if |fns| == 0 then Ok([])
    else
      match BuildQueryHelper(env, c, Some(fns[0]))
      case InvalidFunctionReference(name) => InvalidFunctionReference(name)
      case Ok(fragment) =>
        match BuildFragments(env, c, fns[1..])
        case Ok(fragments) =>
          assert forall i :: 1 <= i < |fns| ==> fns[i] == fns[1..][i - 1];
          Ok([fragment] + fragments)
        case InvalidFunctionReference(name) =>
          assert forall i :: 1 <= i < |fns| ==> fns[i] == fns[1..][i - 1];
          InvalidFunctionReference(name)
  }

  /** Fragment i of a successful map is the fragment built for function i. */
  lemma {:induction false} FragmentsPerFunction(env: Env, c: BuilderConfig, fns: seq<BuilderFunction>)
    requires BuildFragments(env, c, fns).Ok?
    ensures forall i :: 0 <= i < |fns| ==>
              BuildQueryHelper(env, c, Some(fns[i])) == Ok(BuildFragments(env, c, fns).value[i])
    decreases |fns|
  {
    if |fns| > 0 {
      var all := BuildFragments(env, c, fns).value;
      FragmentsPerFunction(env, c, fns[1..]);
      var rest := BuildFragments(env, c, fns[1..]).value;
      assert all == [all[0]] + rest;
      forall i | 1 <= i < |fns|
        ensures BuildQueryHelper(env, c, Some(fns[i])) == Ok(all[i])
      {
        assert fns[i] == fns[1..][i - 1] && all[i] == rest[i - 1];
      }
    }
  }

  /** The whole query: the fragments joined by a blank line, or the single
      function-free fragment when no function is selected. */
  function BuildQuery(env: Env, c: BuilderConfig): (r: Outcome<string>)
    ensures r.Ok? <==> forall i :: 0 <= i < |c.functions| ==> IsRegistered(env.registry, c.functions[i].name)
    ensures r.Ok? ==> SourceClause(c) <= r.value
  {
    if |c.functions| > 0 then
      match BuildFragments(env, c, c.functions)
      case Ok(fragments) =>
        JoinAsPrefixEach(fragments, "\n\n");
        FragmentsPerFunction(env, c, c.functions);
        assert BuildQueryHelper(env, c, Some(c.functions[0])) == Ok(fragments[0]);
        Ok(Join(fragments, "\n\n"))
      case InvalidFunctionReference(name) => InvalidFunctionReference(name)
    else
      BuildQueryHelper(env, c, None)
  }

  /** Whether the editor text is not what the builder would
      write, or the configuration is invalid and the text is non-empty. */
  function HasQueryBeenEdited(env: Env, query: string, c: BuilderConfig): (r: Outcome<bool>)
    ensures r.InvalidFunctionReference? <==> BuildQuery(env, c).InvalidFunctionReference?
    ensures r.Ok? ==> (!r.value <==> IsConfigValid(c) && query == BuildQuery(env, c).value)
  {
    var emptyQueryChanged := !IsConfigValid(c) && |query| > 0;
    match BuildQuery(env, c)
    case Ok(built) => Ok(emptyQueryChanged || query != built)
    case InvalidFunctionReference(name) => InvalidFunctionReference(name)
  }
}
