/** The command registry of global_modules/BotOperator/Command/index.js
    (:689-906): the list of registered commands, kept with structured
    commands first and, within each kind, commands with more arguments (or
    query slots) first; the cron jobs handed to the cron manager at
    registration; and the lookup `get`, which walks the list in that order
    and returns the first command that is visible in the chat's room and
    accepts its message, with the arguments it bound. */
module CommandRegistry {
  import opened Wrappers
  import opened JsText
  import opened Values
  import opened Args
  import opened Sorting
  import opened Entries
  import opened Commands
  import opened NaturalMatch

  // ---------------------------------------------------------------------
  // Registration order (index.js:729-742)
  // ---------------------------------------------------------------------

  /** The sort key of `register`'s comparator: structured commands before
      natural ones, then more arguments first for a structured command and
      more query keys first for a natural one (the entries of an object hold
      distinct keys, so `Object.keys(query).length` is the number of
      entries). */
  function CommandRank(c: Command): Rank {
    match c
    case Structured(_, _, args, _, _) => Rank(0, 0 - |args|)
    case Natural(_, query, _, _, _, _, _, _) => Rank(1, 0 - |query|)
  }

  /** The comparator passed to `this.data.sort`: it puts `a` no later than
      `b` exactly when `a`'s key does not come after `b`'s. */
  function CompareCommands(a: Command, b: Command): (r: int)
    ensures r <= 0 <==> RankLe(CommandRank(a), CommandRank(b))
    ensures r < 0 <==> !RankLe(CommandRank(b), CommandRank(a))
  {
    if a.Structured? && b.Natural? then -1
    else if a.Natural? && b.Structured? then 1
    else if a.Structured? then |b.args| - |a.args|
    else |b.query| - |a.query|
  }

  // ---------------------------------------------------------------------
  // Cron jobs (index.js:747-771)
  // ---------------------------------------------------------------------

  /** The `cronOpt` object: at most one of `before`, `startDate`, `endDate`. */
  datatype CronOption = NoOption | Before(millis: int) | StartDate(start: Moment) | EndDate(end: Moment)

  /** One `cronManager.add(cron, callback, cronOpt)` call. When it fires,
      the callback sleeps `delay` milliseconds if that is set and then runs
      the command's `executeCron` with the job's index. */
  datatype Schedule = Schedule(cron: string, command: string, index: nat, delay: Option<int>, option: CronOption)

  /** `before` is preferred, then `startDate`, then `endDate`. */
  function OptionOf(j: CronJob): CronOption {
    if j.before.Some? then Before(j.before.value)
    else if j.startDate.Some? then StartDate(j.startDate.value)
    else if j.endDate.Some? then EndDate(j.endDate.value)
    else NoOption
  }

  /** A job that sets both `before` and `after`, which `register` rejects. */
  predicate Conflicting(j: CronJob) {
    j.before.Some? && j.after.Some?
  }

  const CronConflict: Thrown := Error("before and after in cronJobs cannot be used together")

  function ScheduleOf(name: string, jobs: seq<CronJob>, idx: nat): Schedule
    requires idx < |jobs|
  {
    Schedule(jobs[idx].cron, name, idx, jobs[idx].after, OptionOf(jobs[idx]))
  }

  /** What the cron loop adds from job `idx` on, and the exception it stops
      with: the jobs before the first conflicting one are already added
      when it throws. */
  function PlanFrom(name: string, jobs: seq<CronJob>, idx: nat): (r: (seq<Schedule>, Option<Thrown>))
    requires idx <= |jobs|
    ensures idx + |r.0| <= |jobs|
    ensures r.1.Some? ==> r.1 == Some(CronConflict) && idx + |r.0| < |jobs| && Conflicting(jobs[idx + |r.0|])
    ensures r.1.None? ==> idx + |r.0| == |jobs|
    decreases |jobs| - idx
  {
    if idx == |jobs| then ([], None)
    else if Conflicting(jobs[idx]) then ([], Some(CronConflict))
    else
      var rest := PlanFrom(name, jobs, idx + 1);
      ([ScheduleOf(name, jobs, idx)] + rest.0, rest.1)
  }

  /** The cron loop adds the jobs in order, each with its own index and
      option, up to the first job that sets both `before` and `after`; it
      throws exactly when there is such a job, and otherwise adds them all. */
  lemma {:induction false} PlanStopsAtConflict(name: string, jobs: seq<CronJob>, idx: nat)
    requires idx <= |jobs|
    ensures var (added, err) := PlanFrom(name, jobs, idx);
      && (err.Some? <==> exists k :: idx <= k < |jobs| && Conflicting(jobs[k]))
      && (err.Some? ==> err == Some(CronConflict))
      && idx + |added| <= |jobs|
      && (forall n :: 0 <= n < |added| ==> added[n] == ScheduleOf(name, jobs, idx + n) && !Conflicting(jobs[idx + n]))
      && (err.None? ==> idx + |added| == |jobs|)
      && (err.Some? ==> idx + |added| < |jobs| && Conflicting(jobs[idx + |added|]))
    decreases |jobs| - idx
  {
    if idx < |jobs| && !Conflicting(jobs[idx]) {
      PlanStopsAtConflict(name, jobs, idx + 1);
      var rest := PlanFrom(name, jobs, idx + 1);
      var added := [ScheduleOf(name, jobs, idx)] + rest.0;
      forall n | 0 <= n < |added|
        ensures added[n] == ScheduleOf(name, jobs, idx + n) && !Conflicting(jobs[idx + n])
      {
        if n > 0 {
          assert added[n] == rest.0[n - 1];
        }
      }
      if rest.1.Some? {
        var k :| idx + 1 <= k < |jobs| && Conflicting(jobs[k]);
      }
    }
  }

  // ---------------------------------------------------------------------
  // Registration (index.js:690-772)
  // ---------------------------------------------------------------------

  /** The argument of `register`: an instance of `Command`, or anything else. */
  datatype Registrand = Instance(cmd: Command) | NotCommand

  const NotCommandError: Thrown := TypeError("command must be instance of Command. maybe you forgot to use 'build' method?")

  function DuplicateError(name: string): Thrown {
    Error("Command with name \"" + name + "\" already exists")
  }

  /** What the constructors guarantee of every `Command` instance. */
  predicate Constructed(c: Command) {
    c.Structured? ==> WellFormedStructured(c)
  }

  predicate NameTaken(data: seq<Command>, name: string) {
    exists k :: 0 <= k < |data| && Name(data[k]) == name
  }

  /** A command whose name is not taken can join distinctly named commands. */
  lemma AppendKeepsDistinct(data: seq<Command>, c: Command)
    requires DistinctBy(data, Name) && !NameTaken(data, Name(c))
    ensures DistinctBy(data + [c], Name)
  {
    var all := data + [c];
    forall i, j | 0 <= i < j < |all|
      ensures Name(all[i]) != Name(all[j])
    {
      if j == |data| {
        assert all[i] == data[i];
      } else {
        assert all[i] == data[i] && all[j] == data[j];
      }
    }
  }

  class Registry {
    /** `this.data`, in lookup order. */
    var data: seq<Command>
    /** Whether `setCronManager` has been called. */
    var cronManager: bool
    /** The jobs handed to the cron manager so far. */
    var scheduled: seq<Schedule>

    /** Names are unique, the list is in comparator order, and every entry
        came out of a constructor. */
    ghost predicate Valid()
      reads this
    {
      DistinctBy(data, Name) && SortedBy(data, CommandRank) && AllConstructed(data)
    }

    /** The registry as its constructor leaves it. */
    constructor()
      ensures Valid()
      ensures data == [] && !cronManager && scheduled == []
    {
      data := [];
      cronManager := false;
      scheduled := [];
    }

    /** `setCronManager`: later registrations hand their jobs to it. */
    method SetCronManager()
      modifies this
      ensures cronManager && data == old(data) && scheduled == old(scheduled)
    {
      cronManager := true;
    }

    /** `register(command, logRoom)`. A non-command and a taken name are
        rejected before anything changes; otherwise the command joins the
        list, the list is re-sorted, and, when a cron manager is set, the
        command's jobs are scheduled until one sets both `before` and
        `after`, which throws with the command left registered. */
    method Register(r: Registrand) returns (err: Option<Thrown>)
      requires Valid()
      requires r.Instance? ==> Constructed(r.cmd)
      modifies this
      ensures Valid()
      ensures cronManager == old(cronManager)
      ensures r.NotCommand? ==>
        err == Some(NotCommandError) && data == old(data) && scheduled == old(scheduled)
      ensures r.Instance? && NameTaken(old(data), Name(r.cmd)) ==>
        err == Some(DuplicateError(Name(r.cmd))) && data == old(data) && scheduled == old(scheduled)
      ensures r.Instance? && !NameTaken(old(data), Name(r.cmd)) ==>
        && multiset(data) == multiset(old(data)) + multiset{r.cmd}
        && (!old(cronManager) ==> err.None? && scheduled == old(scheduled))
        && (old(cronManager) ==>
              scheduled == old(scheduled) + PlanFrom(Name(r.cmd), r.cmd.common.cronJobs, 0).0
              && err == PlanFrom(Name(r.cmd), r.cmd.common.cronJobs, 0).1)
    {
      if r.NotCommand? {
        return Some(NotCommandError);
      }
      var c := r.cmd;
      for k := 0 to |data|
        invariant forall j :: 0 <= j < k ==> Name(data[j]) != Name(c)
      {
        if Name(data[k]) == Name(c) {
          return Some(DuplicateError(Name(c)));
        }
      }
      var before := data;
      AppendKeepsDistinct(before, c);
      data := Sort(before + [c], CommandRank);
      PermutationKeepsDistinct(before + [c], data, Name);
      PermutationKeepsMembers(before + [c], data);
      assert forall k :: 0 <= k < |data| ==> Constructed(data[k]) by {
        forall k | 0 <= k < |data|
          ensures Constructed(data[k])
        {
          assert data[k] in before + [c];
        }
      }
      if !cronManager {
        return None;
      }
      err := ScheduleJobs(Name(c), c.common.cronJobs);
    }

    /** The cron loop of `register`. */
    method ScheduleJobs(name: string, jobs: seq<CronJob>) returns (err: Option<Thrown>)
      modifies this
      ensures data == old(data) && cronManager == old(cronManager)
      ensures scheduled == old(scheduled) + PlanFrom(name, jobs, 0).0
      ensures err == PlanFrom(name, jobs, 0).1
    {
      ghost var added: seq<Schedule> := [];
      assert PlanFrom(name, jobs, 0).0 == added + PlanFrom(name, jobs, 0).0;
      for idx := 0 to |jobs|
        invariant data == old(data) && cronManager == old(cronManager)
        invariant scheduled == old(scheduled) + added
        invariant PlanFrom(name, jobs, 0) == (added + PlanFrom(name, jobs, idx).0, PlanFrom(name, jobs, idx).1)
      {
        if jobs[idx].before.Some? && jobs[idx].after.Some? {
          return Some(CronConflict);
        }
        var s := Schedule(jobs[idx].cron, name, idx, jobs[idx].after, OptionOf(jobs[idx]));
        assert added + PlanFrom(name, jobs, idx).0 == (added + [s]) + PlanFrom(name, jobs, idx + 1).0;
        scheduled := scheduled + [s];
        added := added + [s];
      }
      return None;
    }

    /** `get(chat, channel, debugRooms, isDebugMod)`: the first command, in
        list order, that is visible there and accepts the message, and the
        arguments it bound, or neither. A natural command that is tried
        leaves its filtered text in `chat.filteredText`, whether or not it
        accepts. */
    method Get(chat: Chat, channel: ChannelId, debugRooms: seq<Option<ChannelId>>, debugMode: bool, env: Env)
      returns (cmd: Option<Command>, args: Option<Obj>)
      requires Valid()
      modifies chat
      ensures var d := Dispatch(data, Request(chat.message, channel, debugRooms, debugMode), env, old(chat.filteredText));
        && (cmd.Some? <==> d.0.Some?) && (args.Some? <==> d.0.Some?)
        && (d.0.Some? ==> cmd.value == d.0.value.0 && args.value == d.0.value.1)
        && chat.filteredText == d.1
    {
      var q := Request(chat.message, channel, debugRooms, debugMode);
      ghost var start := chat.filteredText;
      ghost var atts := Attempts(data, q, env);
      for k := 0 to |data|
        invariant Dispatch(data, q, env, start) == FirstAccepting(data, atts, k, chat.filteredText)
      {
        var a := TryOne(data[k], chat, q, env);
        if a.Some? {
          return Some(data[k]), a;
        }
      }
      return None, None;
    }
  }

  /** One pass of `get`'s loop: the command's attempt, with the filtered
      text written to the chat when it is a natural command that is tried. */
  method TryOne(c: Command, chat: Chat, q: Request, env: Env) returns (args: Option<Obj>)
    requires Constructed(c) && q.message == chat.message
    modifies chat
    ensures args == TryCommand(c, q, env).args
    ensures chat.filteredText ==
      (if TryCommand(c, q, env).filtered.Some? then TryCommand(c, q, env).filtered else old(chat.filteredText))
  {
    if !Visible(c, q) {
      return None;
    }
    if c.Structured? {
      var matched := env.engine(c.regex, chat.message);
      if matched.None? {
        return None;
      }
      var satisfied, obj := ParseGroups(c.args, matched.value, env.lib);
      if !satisfied {
        return None;
      }
      return Some(obj);
    } else {
      var filtered, a := TryNatural(c, chat.message, env.lib, env.invoke);
      chat.filteredText := Some(filtered);
      return a;
    }
  }

  // ---------------------------------------------------------------------
  // Lookup (index.js:780-906)
  // ---------------------------------------------------------------------

  /** The chat handed to `get`: its message, and the `filteredText` the
      natural path writes back. */
  class Chat {
    const message: string
    var filteredText: Option<string>

    constructor(message: string)
      ensures this.message == message && filteredText.None?
    {
      this.message := message;
      filteredText := None;
    }
  }

  /** `message.match(regex)` for a pattern without the `g` flag, given the
      pattern's source: `None` for `null`, otherwise the capture groups after
      the whole match (`matched.slice(1)`), an unmatched group being
      `undefined` (`None`). */
  type RegexEngine = (string, string) -> Option<seq<Option<string>>>

  /** What `get` is asked: the message, the room it came from, the debug
      rooms and whether debug mode is on. */
  datatype Request = Request(message: string, channel: ChannelId, debugRooms: seq<Option<ChannelId>>, debugMode: bool)

  /** The collaborators `get` calls into: the regular-expression engine, the
      date parser, and the query's default-value functions. */
  datatype Env = Env(engine: RegexEngine, lib: DateTimeLib, invoke: nat -> Value)

  /** `channels.filter(c => c != null).map(c => c.id)`. */
  function Ids(channels: seq<Option<ChannelId>>): seq<ChannelId>
    decreases |channels|
  {
    if channels == [] then []
    else (if channels[0].Some? then [channels[0].value] else []) + Ids(channels[1..])
  }

  /** A room is listed exactly when some non-null entry names it. */
  lemma {:induction false} IdsMembers(channels: seq<Option<ChannelId>>, id: ChannelId)
    ensures id in Ids(channels) <==> Some(id) in channels
    decreases |channels|
  {
    if channels != [] {
      IdsMembers(channels[1..], id);
      assert channels == [channels[0]] + channels[1..];
    }
  }

  /** The two room checks of `get`: in debug mode only the debug rooms are
      served, and a command that lists rooms is served only there and in
      the debug rooms. */
  predicate Visible(c: Command, q: Request) {
    if q.debugMode && q.channel !in Ids(q.debugRooms) then false
    else if |c.common.channels| != 0 && q.channel !in Ids(c.common.channels + q.debugRooms) then false
    else true
  }

  /** The room checks in terms of the lists as given: a `null` entry names
      no room but still makes the command's list non-empty. */
  lemma VisibleMeans(c: Command, q: Request)
    ensures Visible(c, q) <==>
      (!q.debugMode || Some(q.channel) in q.debugRooms)
      && (|c.common.channels| == 0 || Some(q.channel) in c.common.channels || Some(q.channel) in q.debugRooms)
  {
    IdsMembers(q.debugRooms, q.channel);
    IdsMembers(c.common.channels + q.debugRooms, q.channel);
  }

  // ---------------------------------------------------------------------
  // The structured path (index.js:804-821)
  // ---------------------------------------------------------------------

  /** `groups[i]`, `undefined` past the end. */
  function GroupAt(groups: seq<Option<string>>, i: nat): Option<string> {
    if i < |groups| then groups[i] else None
  }

  predicate AllCompiled(args: seq<Arg>) {
    forall k :: 0 <= k < |args| ==> Compiled(args[k])
  }

  /** What `arg.parse(groups[i])` returns for each descriptor. */
  function ParseAll(args: seq<Arg>, groups: seq<Option<string>>, lib: DateTimeLib): (ps: seq<Parsed>)
    requires AllCompiled(args)
    ensures |ps| == |args|
  {
    seq(|args|, k requires 0 <= k < |args| => Parse(args[k], GroupAt(groups, k), lib))
  }

  /** None of the first `n` descriptors returned the sentinel. */
  predicate ValidUpTo(ps: seq<Parsed>, n: nat)
    requires n <= |ps|
    decreases n
  {
    n == 0 || (ps[n - 1].Valid? && ValidUpTo(ps, n - 1))
  }

  /** No descriptor returned the sentinel: `is_satisfy` stays true. */
  predicate AllValid(ps: seq<Parsed>) {
    ValidUpTo(ps, |ps|)
  }

  /** `is_satisfy` stays true exactly when every descriptor parsed. */
  lemma {:induction false} ValidUpToMeans(ps: seq<Parsed>, n: nat)
    requires n <= |ps|
    ensures ValidUpTo(ps, n) <==> forall k :: 0 <= k < n ==> ps[k].Valid?
    decreases n
  {
    if n > 0 {
      ValidUpToMeans(ps, n - 1);
    }
  }

  /** The `args` object after the first `n` descriptors: each value parsed
      is written under its descriptor's name, a later one overwriting an
      earlier one of the same name. */
  function Bind(args: seq<Arg>, ps: seq<Parsed>, n: nat): Obj
    requires |ps| == |args| && n <= |args|
    decreases n
  {
    if n == 0 then []
    else
      match ps[n - 1]
      case Valid(v) => Put(Bind(args, ps, n - 1), args[n - 1].name, v)
      case Invalid => Bind(args, ps, n - 1)
  }

  /** `cmd.args.forEach((arg, i) => ...)` over the parsed groups: the
      `return false` of a failed parse only ends that call, so every
      descriptor is parsed and every value parsed is written. */
  method ParseGroups(args: seq<Arg>, groups: seq<Option<string>>, lib: DateTimeLib)
    returns (satisfied: bool, obj: Obj)
    requires AllCompiled(args)
    ensures satisfied <==> AllValid(ParseAll(args, groups, lib))
    ensures obj == Bind(args, ParseAll(args, groups, lib), |args|)
  {
    var ps := ParseAll(args, groups, lib);
    satisfied := true;
    obj := [];
    for i := 0 to |args|
      invariant satisfied == ValidUpTo(ps, i)
      invariant obj == Bind(args, ps, i)
    {
      var ret := ps[i];
      BindStep(args, ps, i);
      if ret.Invalid? {
        satisfied := false;
      } else {
        obj := Put(obj, args[i].name, ret.value);
      }
    }
  }

  lemma BindStep(args: seq<Arg>, ps: seq<Parsed>, i: nat)
    requires |ps| == |args| && i < |args|
    ensures ps[i].Valid? ==> Bind(args, ps, i + 1) == Put(Bind(args, ps, i), args[i].name, ps[i].value)
    ensures ps[i].Invalid? ==> Bind(args, ps, i + 1) == Bind(args, ps, i)
  {
  }

  /** A descriptor that parsed and is the last of its name leaves its value
      under its name. */
  lemma {:induction false} BindGet(args: seq<Arg>, ps: seq<Parsed>, n: nat, i: nat)
    requires |ps| == |args| && n <= |args| && i < n && ps[i].Valid?
    requires forall j :: i < j < n ==> args[j].name != args[i].name
    ensures Get(Bind(args, ps, n), args[i].name) == Some(ps[i].value)
    decreases n
  {
    match ps[n - 1] {
      case Valid(v) =>
        GetPut(Bind(args, ps, n - 1), args[n - 1].name, v, args[i].name);
        if i < n - 1 {
          BindGet(args, ps, n - 1, i);
        }
      case Invalid =>
        BindGet(args, ps, n - 1, i);
    }
  }

  /** Every key of the object is the name of a descriptor that parsed. */
  lemma {:induction false} BindKeys(args: seq<Arg>, ps: seq<Parsed>, n: nat, key: string)
    requires |ps| == |args| && n <= |args|
    ensures HasKey(Bind(args, ps, n), key) ==> exists j :: 0 <= j < n && args[j].name == key && ps[j].Valid?
    decreases n
  {
    if n > 0 {
      BindKeys(args, ps, n - 1, key);
      match ps[n - 1] {
        case Valid(v) =>
          GetPut(Bind(args, ps, n - 1), args[n - 1].name, v, key);
        case Invalid =>
      }
    }
  }

  // ---------------------------------------------------------------------
  // One command, and the walk over the list
  // ---------------------------------------------------------------------

  /** What trying one command gives: the arguments when it accepts, and
      the filtered text when it is a natural command that was tried. */
  datatype Attempt = Attempt(args: Option<Obj>, filtered: Option<string>)

  /** The body of `get`'s loop for one command. */
  function TryCommand(c: Command, q: Request, env: Env): (a: Attempt)
    requires Constructed(c)
    ensures !Visible(c, q) ==> a == Attempt(None, None)
    ensures a.args.Some? ==> Visible(c, q)
    ensures c.Structured? ==> a.filtered.None?
    ensures c.Natural? && Visible(c, q) ==>
      a.filtered == Some(NaturalOutcome(c, q.message, env.lib, env.invoke).filtered)
      && a.args == NaturalOutcome(c, q.message, env.lib, env.invoke).args
  {
    if !Visible(c, q) then Attempt(None, None)
    else if c.Structured? then
      match env.engine(c.regex, q.message)
      case None => Attempt(None, None)
      case Some(groups) =>
        var ps := ParseAll(c.args, groups, env.lib);
        if AllValid(ps) then Attempt(Some(Bind(c.args, ps, |c.args|)), None)
        else Attempt(None, None)
    else
      var r := NaturalOutcome(c, q.message, env.lib, env.invoke);
      Attempt(r.args, Some(r.filtered))
  }

  predicate AllConstructed(data: seq<Command>) {
    forall k :: 0 <= k < |data| ==> Constructed(data[k])
  }

  /** Each command's attempt, in list order. */
  function Attempts(data: seq<Command>, q: Request, env: Env): (atts: seq<Attempt>)
    requires AllConstructed(data)
    ensures |atts| == |data| && forall k :: 0 <= k < |data| ==> atts[k] == TryCommand(data[k], q, env)
  {
    seq(|data|, k requires 0 <= k < |data| => TryCommand(data[k], q, env))
  }

  /** `get`'s loop from position `k` on, given every command's attempt, with
      `current` the chat's filtered text so far: the first command that
      accepts is returned, and each natural command tried before it (and
      itself) updates the filtered text. */
  function FirstAccepting(data: seq<Command>, atts: seq<Attempt>, k: nat, current: Option<string>): (Option<(Command, Obj)>, Option<string>)
    requires |atts| == |data| && k <= |data|
    decreases |data| - k
  {
    if k == |data| then (None, current)
    else
      var now := if atts[k].filtered.Some? then atts[k].filtered else current;
      if atts[k].args.Some? then (Some((data[k], atts[k].args.value)), now)
      else FirstAccepting(data, atts, k + 1, now)
  }

  /** What `get` returns and leaves in `chat.filteredText`. */
  function Dispatch(data: seq<Command>, q: Request, env: Env, current: Option<string>): (Option<(Command, Obj)>, Option<string>)
    requires AllConstructed(data)
  {
    FirstAccepting(data, Attempts(data, q, env), 0, current)
  }

  /** The walk returns the first attempt that accepts, from position `k` on,
      with the arguments it bound, and returns nothing exactly when none
      accepts. */
  lemma {:induction false} FirstAcceptingIsFirst(data: seq<Command>, atts: seq<Attempt>, k: nat, current: Option<string>)
    requires |atts| == |data| && k <= |data|
    ensures var d := FirstAccepting(data, atts, k, current);
      d.0.Some? ==>
        exists j :: k <= j < |data| && data[j] == d.0.value.0 && atts[j].args == Some(d.0.value.1)
          && forall i :: k <= i < j ==> atts[i].args.None?
    ensures FirstAccepting(data, atts, k, current).0.None? <==> forall j :: k <= j < |data| ==> atts[j].args.None?
    decreases |data| - k
  {
    if k < |data| && atts[k].args.None? {
      var now := if atts[k].filtered.Some? then atts[k].filtered else current;
      FirstAcceptingIsFirst(data, atts, k + 1, now);
    }
  }

  /** How far the walk from `k` goes: up to and including the first
      attempt that accepts, or to the end of the list. */
  function Reach(atts: seq<Attempt>, k: nat): (n: nat)
    requires k <= |atts|
    ensures k <= n <= |atts|
    decreases |atts| - k
  {
    if k == |atts| then k else if atts[k].args.Some? then k + 1 else Reach(atts, k + 1)
  }

  /** The filtered text the walk leaves is the one of the last natural
      command it tried, or the text it started with when it tried none. */
  lemma {:induction false} FilteredIsLastTried(data: seq<Command>, atts: seq<Attempt>, k: nat, current: Option<string>)
    requires |atts| == |data| && k <= |data|
    ensures var d := FirstAccepting(data, atts, k, current);
      var n := Reach(atts, k);
      && ((forall j :: k <= j < n ==> atts[j].filtered.None?) ==> d.1 == current)
      && ((exists j :: k <= j < n && atts[j].filtered.Some?) ==>
            exists j :: k <= j < n && atts[j].filtered.Some? && d.1 == atts[j].filtered
              && forall i :: j < i < n ==> atts[i].filtered.None?)
    decreases |data| - k
  {
    if k < |data| {
      var now := if atts[k].filtered.Some? then atts[k].filtered else current;
      if atts[k].args.None? {
        FilteredIsLastTried(data, atts, k + 1, now);
        var n := Reach(atts, k);
        var d := FirstAccepting(data, atts, k, current);
        if forall j :: k + 1 <= j < n ==> atts[j].filtered.None? {
          if atts[k].filtered.Some? {
            assert d.1 == atts[k].filtered;
          }
        } else {
          var j :| k + 1 <= j < n && atts[j].filtered.Some? && d.1 == atts[j].filtered
            && forall i :: j < i < n ==> atts[i].filtered.None?;
        }
      }
    }
  }

  /** When no command is even tried, the walk finds nothing and leaves
      the filtered text as it was. */
  lemma {:induction false} NothingTried(data: seq<Command>, atts: seq<Attempt>, k: nat, current: Option<string>)
    requires |atts| == |data| && k <= |data|
    requires forall j :: k <= j < |data| ==> atts[j] == Attempt(None, None)
    ensures FirstAccepting(data, atts, k, current) == (None, current)
    decreases |data| - k
  {
    if k < |data| {
      NothingTried(data, atts, k + 1, current);
    }
  }

  /** `get` returns the first command of the list that accepts the
      message, with the arguments it bound: every command before it
      declines. It returns nothing exactly when every command declines. */
  lemma DispatchFirst(data: seq<Command>, q: Request, env: Env, current: Option<string>)
    requires AllConstructed(data)
    ensures var d := Dispatch(data, q, env, current);
      d.0.Some? ==>
        exists j :: 0 <= j < |data| && data[j] == d.0.value.0 && TryCommand(data[j], q, env).args == Some(d.0.value.1)
          && forall i :: 0 <= i < j ==> TryCommand(data[i], q, env).args.None?
    ensures Dispatch(data, q, env, current).0.None? <==> forall j :: 0 <= j < |data| ==> TryCommand(data[j], q, env).args.None?
  {
    FirstAcceptingIsFirst(data, Attempts(data, q, env), 0, current);
  }

  /** In debug mode, a message from a room that is not a debug room finds
      no command and leaves the filtered text alone. */
  lemma DebugIsolation(data: seq<Command>, q: Request, env: Env, current: Option<string>)
    requires AllConstructed(data)
    requires q.debugMode && Some(q.channel) !in q.debugRooms
    ensures Dispatch(data, q, env, current) == (None, current)
  {
    IdsMembers(q.debugRooms, q.channel);
    NothingTried(data, Attempts(data, q, env), 0, current);
  }

  /** The command `get` returns is visible in the room. */
  lemma AcceptedIsVisible(data: seq<Command>, q: Request, env: Env, current: Option<string>)
    requires AllConstructed(data)
    ensures Dispatch(data, q, env, current).0.Some? ==> Visible(Dispatch(data, q, env, current).0.value.0, q)
  {
    DispatchFirst(data, q, env, current);
  }

  /** In a list in registration order, `get` returns a natural command only
      when every structured command declined the message. */
  lemma StructuredBeforeNatural(data: seq<Command>, q: Request, env: Env, current: Option<string>)
    requires AllConstructed(data) && SortedBy(data, CommandRank)
    ensures var d := Dispatch(data, q, env, current);
      d.0.Some? && d.0.value.0.Natural? ==>
        forall j :: 0 <= j < |data| && data[j].Structured? ==> TryCommand(data[j], q, env).args.None?
  {
    var atts := Attempts(data, q, env);
    FirstAcceptingIsFirst(data, atts, 0, current);
    var d := Dispatch(data, q, env, current);
    if d.0.Some? && d.0.value.0.Natural? {
      var n :| 0 <= n < |data| && data[n] == d.0.value.0 && atts[n].args == Some(d.0.value.1)
        && forall i :: 0 <= i < n ==> atts[i].args.None?;
      forall j | 0 <= j < |data| && data[j].Structured?
        ensures atts[j].args.None?
      {
        assert j < n;
      }
    }
  }

  /** A structured command accepts exactly when its pattern matches and
      every descriptor parses its group; it then binds each descriptor that
      is the last of its name to the value parsed from its group. */
  lemma StructuredAccepts(c: Command, q: Request, env: Env, i: nat)
    requires c.Structured? && Constructed(c) && Visible(c, q)
    ensures TryCommand(c, q, env).filtered.None?
    ensures TryCommand(c, q, env).args.Some? <==>
      env.engine(c.regex, q.message).Some? && AllValid(ParseAll(c.args, env.engine(c.regex, q.message).value, env.lib))
    ensures TryCommand(c, q, env).args.Some? && i < |c.args| && (forall j :: i < j < |c.args| ==> c.args[j].name != c.args[i].name) ==>
      var ps := ParseAll(c.args, env.engine(c.regex, q.message).value, env.lib);
      ps[i].Valid? && Get(TryCommand(c, q, env).args.value, c.args[i].name) == Some(ps[i].value)
  {
    if TryCommand(c, q, env).args.Some? && i < |c.args| && (forall j :: i < j < |c.args| ==> c.args[j].name != c.args[i].name) {
      var ps := ParseAll(c.args, env.engine(c.regex, q.message).value, env.lib);
      ValidUpToMeans(ps, |ps|);
      BindGet(c.args, ps, |c.args|, i);
    }
  }
}
