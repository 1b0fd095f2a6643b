/** The command entities of global_modules/BotOperator/Command/index.js:
    the fields the abstract `Command` constructor stores (:10-37), the two
    kinds of command with their constructors (`StructuredCommand`,
    :270-351; `NaturalCommand`, :488-514) and the required-field checks of
    the builders' `build()` (:408-430, :589-614). */
module Commands {
  import opened Wrappers
  import opened JsText
  import opened Values
  import opened Args
  import opened Sorting
  import opened UsageCompiler
  import opened AliasTable

  /** A chat room, by its `id`. */
  type ChannelId = string

  /** A callback function, by identity; the bodies are the bot's, not this
      module's. */
  type Handler = nat

  /** One entry of `cronJobs`: `{ cron, startDate, endDate, before, after }`,
      a missing field being `None`. */
  datatype CronJob = CronJob(
    cron: string,
    startDate: Option<Moment>,
    endDate: Option<Moment>,
    before: Option<int>,
    after: Option<int>)

  /** The fields the `Command` constructor stores. `channels` keeps the
      `null` entries a caller may pass; a missing callback (`None`) stands for
      the constructor's do-nothing default. */
  datatype Common = Common(
    name: string,
    icon: string,
    description: string,
    execute: Option<Handler>,
    executeLazy: Option<Handler>,
    executeCron: Option<Handler>,
    cronJobs: seq<CronJob>,
    channels: seq<Option<ChannelId>>,
    examples: seq<string>,
    lazy: bool)

  /** The options object handed to a constructor, in the part the `Command`
      constructor reads. */
  datatype CommonOptions = CommonOptions(
    name: Option<string>,
    icon: Option<string>,
    description: Option<string>,
    execute: Option<Handler>,
    executeLazy: Option<Handler>,
    executeCron: Option<Handler>,
    cronJobs: Option<seq<CronJob>>,
    channels: Option<seq<Option<ChannelId>>>,
    examples: Option<seq<string>>)

  /** A natural command's `query`: slot name to default value, in the
      object's key order. A default is `Null` for a slot that must be
      filled, or a `Supplier` called when the command matches. */
  type Query = seq<(string, Value)>

  datatype Command =
    | Structured(
        common: Common,
        usage: string,
        args: seq<Arg>,
        arguments: seq<(string, string)>,
        regex: string)
    | Natural(
        common: Common,
        query: Query,
        useDateParse: bool,
        useDuration: bool,
        filterIncludeEnding: bool,
        dictionaryPath: string,
        margin: Option<int>,
        table: AliasMap)

  function Name(c: Command): string {
    c.common.name
  }

  /** The `Command` constructor: the three required fields are checked in
      order, and the optional ones default to empty (`cronJobs ?? {}` is
      an object without `length`, which the registry reads as no jobs). */
  function NewCommon(o: CommonOptions): (r: Result<Common, Thrown>)
    ensures o.name.None? ==> r == Failure(TypeError("name is required"))
    ensures o.name.Some? && o.icon.None? ==> r == Failure(TypeError("icon is required"))
    ensures o.name.Some? && o.icon.Some? && o.description.None? ==> r == Failure(TypeError("description is required"))
    ensures r.Success? <==> o.name.Some? && o.icon.Some? && o.description.Some?
    ensures r.Success? ==>
      r.value.name == o.name.value && r.value.icon == o.icon.value && r.value.description == o.description.value
    ensures r.Success? ==> (r.value.lazy <==> o.executeLazy.Some?)
    ensures r.Success? ==> r.value.channels == (if o.channels.Some? then o.channels.value else [])
    ensures r.Success? ==> r.value.cronJobs == (if o.cronJobs.Some? then o.cronJobs.value else [])
    ensures r.Success? ==> r.value.examples == (if o.examples.Some? then o.examples.value else [])
    ensures r.Success? ==>
      r.value.execute == o.execute && r.value.executeLazy == o.executeLazy && r.value.executeCron == o.executeCron
  {
    if o.name.None? then Failure(TypeError("name is required"))
    else if o.icon.None? then Failure(TypeError("icon is required"))
    else if o.description.None? then Failure(TypeError("description is required"))
    else Success(Common(
      o.name.value, o.icon.value, o.description.value,
      o.execute, o.executeLazy, o.executeCron,
      if o.cronJobs.Some? then o.cronJobs.value else [],
      if o.channels.Some? then o.channels.value else [],
      if o.examples.Some? then o.examples.value else [],
      o.executeLazy.Some?))
  }

  // ---------------------------------------------------------------------
  // StructuredCommand
  // ---------------------------------------------------------------------

  datatype StructuredOptions = StructuredOptions(common: CommonOptions, usage: Option<string>)

  /** What a constructed structured command satisfies: one descriptor and one
      `[name, kind]` entry per placeholder, every descriptor compiled, and
      the pattern anchored at both ends. */
  predicate WellFormedStructured(c: Command)
    requires c.Structured?
  {
    |c.args| == |c.arguments| == |Matches(c.usage, 0)|
    && (forall k :: 0 <= k < |c.args| ==> Compiled(c.args[k]))
    && |c.regex| >= 2 && c.regex[0] == '^' && c.regex[|c.regex| - 1] == '$'
  }

  /** `new StructuredCommand(options)`: the usage is checked before the
      common fields, then compiled. */
  function NewStructured(o: StructuredOptions): (r: Result<Command, Thrown>)
    ensures o.usage.None? ==> r == Failure(TypeError("usage is required"))
    ensures o.usage.Some? && NewCommon(o.common).Failure? ==> r == Failure(NewCommon(o.common).error)
    ensures o.usage.Some? && NewCommon(o.common).Success? ==>
      (r.Failure? <==> Compile(o.usage.value).Failure?)
    ensures r.Success? ==> r.value.Structured? && WellFormedStructured(r.value)
    ensures r.Success? ==> r.value.usage == o.usage.value && r.value.common == NewCommon(o.common).value
    ensures r.Success? ==>
      var c := Compile(o.usage.value).value;
      r.value.args == c.args && r.value.arguments == c.arguments && r.value.regex == c.source
  {
    if o.usage.None? then Failure(TypeError("usage is required"))
    else
      match NewCommon(o.common)
      case Failure(e) => Failure(e)
      case Success(common) =>
        match Compile(o.usage.value)
        case Failure(e) => Failure(e)
        case Success(c) => Success(Structured(common, o.usage.value, c.args, c.arguments, c.source))
  }

  // ---------------------------------------------------------------------
  // NaturalCommand
  // ---------------------------------------------------------------------

  datatype NaturalOptions = NaturalOptions(
    common: CommonOptions,
    query: Option<Query>,
    useDateParse: bool,
    useDuration: bool,
    filterIncludeEnding: bool,
    dictionaryPath: Option<string>,
    margin: Option<int>)

  /** `options.dictionaryPath || 'dict.json'`. */
  function DictionaryPath(p: Option<string>): (r: string)
    ensures p.Some? && p.value != "" ==> r == p.value
    ensures p.None? || p.value == "" ==> r == "dict.json"
  {
    if p.Some? && p.value != "" then p.value else "dict.json"
  }

  /** What a constructed natural command satisfies: its table holds every
      alias of its dictionary once, with the last token listing it, longest
      aliases first. */
  ghost predicate WellFormedNatural(c: Command, load: string -> Dictionary)
    requires c.Natural?
  {
    TableOf(load(c.dictionaryPath), c.table) && SortedBy(c.table, AliasRank)
  }

  /** `new NaturalCommand(options)`. Reading the dictionary file is `load`. */
  method NewNatural(o: NaturalOptions, load: string -> Dictionary) returns (r: Result<Command, Thrown>)
    ensures o.query.None? ==> r == Failure(TypeError("query is required"))
    ensures o.query.Some? && NewCommon(o.common).Failure? ==> r == Failure(NewCommon(o.common).error)
    ensures o.query.Some? && NewCommon(o.common).Success? ==> r.Success?
    ensures r.Success? ==> r.value.Natural? && WellFormedNatural(r.value, load)
    ensures r.Success? ==>
      && r.value.common == NewCommon(o.common).value && r.value.query == o.query.value
      && r.value.dictionaryPath == DictionaryPath(o.dictionaryPath) && r.value.margin == o.margin
      && r.value.useDateParse == o.useDateParse && r.value.useDuration == o.useDuration
      && r.value.filterIncludeEnding == o.filterIncludeEnding
  {
    if o.query.None? {
      return Failure(TypeError("query is required"));
    }
    var common := NewCommon(o.common);
    if common.Failure? {
      return Failure(common.error);
    }
    var path := DictionaryPath(o.dictionaryPath);
    var table := BuildAliasTable(load(path));
    r := Success(Natural(common.value, o.query.value, o.useDateParse, o.useDuration,
      o.filterIncludeEnding, path, o.margin, table));
  }

  // ---------------------------------------------------------------------
  // Builders
  // ---------------------------------------------------------------------

  /** The fields of `StructuredCommand.Builder`. */
  datatype StructuredBuilder = StructuredBuilder(
    name: Option<string>,
    icon: Option<string>,
    description: Option<string>,
    usage: Option<string>,
    execute: Option<Handler>,
    executeLazy: Option<Handler>,
    executeCron: Option<Handler>,
    cronJobs: seq<CronJob>,
    channels: seq<Option<ChannelId>>,
    examples: seq<string>)

  /** A fresh `StructuredCommand.Builder`. */
  const EmptyStructuredBuilder: StructuredBuilder :=
    StructuredBuilder(None, None, None, None, None, None, None, [], [], [])

  /** The first missing required field of a builder, in the order `build()`
      checks them; `what` is `usage` or `query`. */
  function MissingField(name: Option<string>, icon: Option<string>, description: Option<string>,
                        what: string, present: bool, execute: Option<Handler>): (r: Option<Thrown>)
    ensures r.None? <==> name.Some? && icon.Some? && description.Some? && present && execute.Some?
    ensures name.None? ==> r == Some(TypeError("name is required"))
    ensures name.Some? && icon.None? ==> r == Some(TypeError("icon is required"))
    ensures name.Some? && icon.Some? && description.None? ==> r == Some(TypeError("description is required"))
    ensures name.Some? && icon.Some? && description.Some? && !present ==> r == Some(TypeError(what + " is required"))
    ensures name.Some? && icon.Some? && description.Some? && present && execute.None? ==>
      r == Some(TypeError("execute is required"))
  {
    if name.None? then Some(TypeError("name is required"))
    else if icon.None? then Some(TypeError("icon is required"))
    else if description.None? then Some(TypeError("description is required"))
    else if !present then Some(TypeError(what + " is required"))
    else if execute.None? then Some(TypeError("execute is required"))
    else None
  }

  /** `StructuredCommand.Builder.build()`: the required fields, then the
      constructor with every field of the builder. */
  function BuildStructured(b: StructuredBuilder): (r: Result<Command, Thrown>)
    ensures MissingField(b.name, b.icon, b.description, "usage", b.usage.Some?, b.execute).Some? ==>
      r == Failure(MissingField(b.name, b.icon, b.description, "usage", b.usage.Some?, b.execute).value)
    ensures MissingField(b.name, b.icon, b.description, "usage", b.usage.Some?, b.execute).None? ==>
      (r.Success? <==> Compile(b.usage.value).Success?)
    ensures r.Success? ==> r.value.Structured? && WellFormedStructured(r.value)
    ensures r.Success? ==>
      r.value.common == Common(b.name.value, b.icon.value, b.description.value,
        b.execute, b.executeLazy, b.executeCron, b.cronJobs, b.channels, b.examples, b.executeLazy.Some?)
    ensures r.Success? ==>
      var c := Compile(b.usage.value).value;
      && r.value.usage == b.usage.value
      && r.value.args == c.args && r.value.arguments == c.arguments && r.value.regex == c.source
  {
    match MissingField(b.name, b.icon, b.description, "usage", b.usage.Some?, b.execute)
    case Some(e) => Failure(e)
    case None =>
      NewStructured(StructuredOptions(
        CommonOptions(b.name, b.icon, b.description, b.execute, b.executeLazy, b.executeCron,
          Some(b.cronJobs), Some(b.channels), Some(b.examples)),
        b.usage))
  }

  /** The fields of `NaturalCommand.Builder`. */
  datatype NaturalBuilder = NaturalBuilder(
    name: Option<string>,
    icon: Option<string>,
    description: Option<string>,
    query: Option<Query>,
    dictionaryPath: Option<string>,
    execute: Option<Handler>,
    executeLazy: Option<Handler>,
    executeCron: Option<Handler>,
    margin: Option<int>,
    useDateParse: bool,
    useDuration: bool,
    filterIncludeEnding: bool,
    cronJobs: seq<CronJob>,
    channels: seq<Option<ChannelId>>,
    examples: seq<string>)

  /** A fresh `NaturalCommand.Builder`: a margin of 3, no date parsing, and
      the ending filter on. */
  const EmptyNaturalBuilder: NaturalBuilder :=
    NaturalBuilder(None, None, None, None, None, None, None, None, Some(3), false, false, true, [], [], [])

  /** `NaturalCommand.Builder.build()`. */
  method BuildNatural(b: NaturalBuilder, load: string -> Dictionary) returns (r: Result<Command, Thrown>)
    ensures MissingField(b.name, b.icon, b.description, "query", b.query.Some?, b.execute).Some? ==>
      r == Failure(MissingField(b.name, b.icon, b.description, "query", b.query.Some?, b.execute).value)
    ensures MissingField(b.name, b.icon, b.description, "query", b.query.Some?, b.execute).None? ==> r.Success?
    ensures r.Success? ==> r.value.Natural? && WellFormedNatural(r.value, load)
    ensures r.Success? ==>
      r.value.common == Common(b.name.value, b.icon.value, b.description.value,
        b.execute, b.executeLazy, b.executeCron, b.cronJobs, b.channels, b.examples, b.executeLazy.Some?)
    ensures r.Success? ==>
      && r.value.query == b.query.value && r.value.margin == b.margin
      && r.value.dictionaryPath == DictionaryPath(b.dictionaryPath)
      && r.value.useDateParse == b.useDateParse && r.value.useDuration == b.useDuration
      && r.value.filterIncludeEnding == b.filterIncludeEnding
  {
    var missing := MissingField(b.name, b.icon, b.description, "query", b.query.Some?, b.execute);
    if missing.Some? {
      return Failure(missing.value);
    }
    r := NewNatural(NaturalOptions(
      CommonOptions(b.name, b.icon, b.description, b.execute, b.executeLazy, b.executeCron,
        Some(b.cronJobs), Some(b.channels), Some(b.examples)),
      b.query, b.useDateParse, b.useDuration, b.filterIncludeEnding, b.dictionaryPath, b.margin), load);
  }
}
