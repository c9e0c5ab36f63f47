/**
 * The command-line layer shared by the ffmbc tools: looking an option up in
 * a sentinel-terminated table, the argv loop of parse_options, and the
 * -loglevel handler. What the handlers do with a value (parse a number, call
 * an option function, take a positional argument) is outside this file; the
 * loop's view of it is whether the call succeeded, given by `accepts`.
 */
module CmdUtils {
  import opened Wrappers
  import opened CText
  import Log

  // ---------------------------------------------------------------- the option table

  /** The OptionDef flag bits parse_options reads, and OPT_EXPERT, which only the help printer reads. */
  datatype OptFlag = HasArg | OptBool | OptString | OptInt | OptInt64 | OptFloat | OptExit | OptExpert

  /**
   * One OptionDef. `name` is None for the terminating entry; `hasFunc` says
   * whether the union holds a non-NULL func_arg, which only matters when none
   * of the value flags is set.
   */
  datatype OptionDef = OptionDef(name: Option<string>, flags: set<OptFlag>, hasFunc: bool)

  /** The table holds its NULL-named terminator. */
  predicate Terminated(options: seq<OptionDef>) {
    exists k | 0 <= k < |options| :: options[k].name.None?
  }

  /** The walk of find_option from entry i: the first entry named `name`, or the terminator. */
  function LookupFrom(options: seq<OptionDef>, name: string, i: nat): (k: nat)
    requires exists t | i <= t < |options| :: options[t].name.None?
    ensures i <= k < |options|
    ensures options[k].name.None? || options[k].name.value == name
    ensures forall j | i <= j < k :: options[j].name.Some? && options[j].name.value != name
    decreases |options| - i
  {
    if options[i].name.None? || options[i].name.value == name then i
    else LookupFrom(options, name, i + 1)
  }

  /** find_option(options, name) as an index into the table. */
  function Lookup(options: seq<OptionDef>, name: string): (k: nat)
    requires Terminated(options)
    ensures k < |options|
    ensures options[k].name.None? || options[k].name.value == name
    ensures forall j | 0 <= j < k :: options[j].name.Some? && options[j].name.value != name
  {
    LookupFrom(options, name, 0)
  }

  /** Entry j is named `name` and no terminator comes before it. */
  predicate NamedAt(options: seq<OptionDef>, name: string, j: int) {
    0 <= j < |options| && options[j].name == Some(name)
    && forall i | 0 <= i < j :: options[i].name.Some?
  }

  /** find_option finds an entry exactly when the name is in the table before the terminator, and then the first one. */
  lemma LookupFinds(options: seq<OptionDef>, name: string)
    requires Terminated(options)
    ensures options[Lookup(options, name)].name.Some? <==> exists j :: NamedAt(options, name, j)
    ensures forall j | NamedAt(options, name, j) :: Lookup(options, name) <= j
  {
    var k := Lookup(options, name);
    forall j | NamedAt(options, name, j)
      ensures k <= j && options[k].name.Some?
    {
      assert options[j].name == Some(name);
    }
    if options[k].name.Some? {
      assert NamedAt(options, name, k);
    }
  }

  /** find_option: walks the table until the name matches or the terminator is reached. */
  method FindOption(options: array<OptionDef>, name: string) returns (k: nat)
    requires Terminated(options[..])
    ensures k == Lookup(options[..], name)
  {
    k := 0;
    while options[k].name.Some?
      invariant k < options.Length
      invariant exists t | k <= t < options.Length :: options[t].name.None?
      invariant LookupFrom(options[..], name, k) == Lookup(options[..], name)
      decreases options.Length - k
    {
      if name == options[k].name.value {
        break;
      }
      k := k + 1;
    }
  }

  // ---------------------------------------------------------------- resolving one option word

  /** The entry an option word names and the value a boolean option gets: 0 for the -noX form. */
  datatype Resolved = Resolved(index: nat, boolValue: int)

  predicate StartsWithNo(name: string) {
    |name| >= 2 && name[0] == 'n' && name[1] == 'o'
  }

  /**
   * Which entry parse_options settles on for `-name`: the entry itself; else,
   * for noX, the boolean option X; else the "default" entry. None is
   * "unrecognized option".
   */
  function Resolve(options: seq<OptionDef>, name: string): (r: Option<Resolved>)
    requires Terminated(options)
    ensures r.Some? ==> r.value.index < |options| && options[r.value.index].name.Some?
    ensures r.Some? ==> r.value.boolValue == 0 || r.value.boolValue == 1
  {
    var k := Lookup(options, name);
    if options[k].name.Some? then Some(Resolved(k, 1))
    else if StartsWithNo(name) then
      var x := Lookup(options, name[2..]);
      if options[x].name.Some? && OptBool in options[x].flags then Some(Resolved(x, 0)) else None
    else
      var d := Lookup(options, "default");
      if options[d].name.Some? then Some(Resolved(d, 1)) else None
  }

  /** A name in the table resolves to its first entry, with value 1 for a boolean. */
  lemma ResolveKnown(options: seq<OptionDef>, name: string, j: nat)
    requires Terminated(options) && NamedAt(options, name, j)
    ensures Resolve(options, name).Some?
    ensures Resolve(options, name).value.index <= j && Resolve(options, name).value.boolValue == 1
    ensures options[Resolve(options, name).value.index].name == Some(name)
  {
    LookupFinds(options, name);
  }

  /**
   * An unknown noX resolves only to a boolean option X, with value 0; when X
   * is not a boolean option it is unrecognized and "default" is not consulted.
   */
  lemma ResolveNoPrefix(options: seq<OptionDef>, x: string)
    requires Terminated(options)
    requires forall j :: !NamedAt(options, "no" + x, j)
    ensures var r := Resolve(options, "no" + x);
      && (r.Some? <==> exists j :: NamedAt(options, x, j) && OptBool in options[Lookup(options, x)].flags)
      && (r.Some? ==> r.value.boolValue == 0 && options[r.value.index].name == Some(x)
                      && OptBool in options[r.value.index].flags)
  {
    var name := "no" + x;
    LookupFinds(options, name);
    assert StartsWithNo(name) && name[2..] == x;
    LookupFinds(options, x);
  }

  /** Any other unknown name resolves to the "default" entry when there is one, and is unrecognized otherwise. */
  lemma ResolveFallback(options: seq<OptionDef>, name: string)
    requires Terminated(options)
    requires (forall j :: !NamedAt(options, name, j)) && !StartsWithNo(name)
    ensures Resolve(options, name).Some? <==> exists j :: NamedAt(options, "default", j)
    ensures Resolve(options, name).Some? ==>
      Resolve(options, name).value.boolValue == 1 && options[Resolve(options, name).value.index].name == Some("default")
  {
    LookupFinds(options, name);
    LookupFinds(options, "default");
  }

  // ---------------------------------------------------------------- what an option does

  /** Which parse_number_or_die call an option's value goes through. */
  datatype NumberKind = IntNumber | Int64Number | FloatNumber

  /**
   * One effect of parse_options, in order. SetNumber stands for
   * parse_number_or_die followed by the store; CallHandler for po->u.func_arg(opt,
   * arg); Positional for parse_arg_function(NULL, arg). Options are named by
   * their index in the table.
   */
  datatype Action =
    | SetString(option: nat, arg: Option<string>)
    | SetBool(option: nat, value: int)
    | SetNumber(option: nat, kind: NumberKind, arg: Option<string>)
    | CallHandler(option: nat, name: string, arg: Option<string>)
    | Positional(word: string)

  /** Actions whose success depends on code outside this file. */
  predicate Checked(a: Action) {
    a.SetNumber? || a.CallHandler? || a.Positional?
  }

  /** The effect of option k with its argument: the first value flag in the order string, bool, int, int64, float decides; else its function, if any. */
  function Dispatch(po: OptionDef, k: nat, name: string, arg: Option<string>, boolValue: int): (r: Option<Action>)
    ensures r.Some? ==> !r.value.Positional? && r.value.option == k
    ensures r.None? <==> !po.hasFunc && forall f | f in PRECEDENCE :: f !in po.flags
  {
    if OptString in po.flags then Some(SetString(k, arg))
    else if OptBool in po.flags then Some(SetBool(k, boolValue))
    else if OptInt in po.flags then Some(SetNumber(k, IntNumber, arg))
    else if OptInt64 in po.flags then Some(SetNumber(k, Int64Number, arg))
    else if OptFloat in po.flags then Some(SetNumber(k, FloatNumber, arg))
    else if po.hasFunc then Some(CallHandler(k, name, arg))
    else None
  }

  /** The value flags in the order parse_options tests them. */
  const PRECEDENCE: seq<OptFlag> := [OptString, OptBool, OptInt, OptInt64, OptFloat]

  /** The first flag of `order` that is set. */
  function Governing(flags: set<OptFlag>, order: seq<OptFlag>): (r: Option<OptFlag>)
    ensures r.Some? ==> r.value in flags && r.value in order
    ensures r.None? ==> forall f | f in order :: f !in flags
    ensures r.Some? ==> exists i | 0 <= i < |order| :: order[i] == r.value && forall j | 0 <= j < i :: order[j] !in flags
  {
    if order == [] then None
    else if order[0] in flags then Some(order[0])
    else Governing(flags, order[1..])
  }

  /** The action kind a value flag stands for. */
  predicate ActsAs(f: OptFlag, a: Action) {
    match f
    case OptString => a.SetString?
    case OptBool => a.SetBool?
    case OptInt => a.SetNumber? && a.kind == IntNumber
    case OptInt64 => a.SetNumber? && a.kind == Int64Number
    case OptFloat => a.SetNumber? && a.kind == FloatNumber
    case _ => false
  }

  /**
   * The flag precedence: the highest-ranked value flag that is set decides the
   * effect; with none set, the option's function is called if there is one.
   */
  lemma DispatchPrecedence(po: OptionDef, k: nat, name: string, arg: Option<string>, boolValue: int)
    ensures var a := Dispatch(po, k, name, arg, boolValue);
      match Governing(po.flags, PRECEDENCE)
      case Some(f) => a.Some? && ActsAs(f, a.value)
      case None => a == (if po.hasFunc then Some(CallHandler(k, name, arg)) else None)
  {
    GoverningPrecedence(po.flags);
  }

  /** The first value flag set, in the order parse_options tests them. */
  lemma GoverningPrecedence(f: set<OptFlag>)
    ensures Governing(f, PRECEDENCE) ==
      if OptString in f then Some(OptString)
      else if OptBool in f then Some(OptBool)
      else if OptInt in f then Some(OptInt)
      else if OptInt64 in f then Some(OptInt64)
      else if OptFloat in f then Some(OptFloat)
      else None
  {
    var p1: seq<OptFlag> := [OptBool, OptInt, OptInt64, OptFloat];
    var p2: seq<OptFlag> := [OptInt, OptInt64, OptFloat];
    var p3: seq<OptFlag> := [OptInt64, OptFloat];
    var p4: seq<OptFlag> := [OptFloat];
    assert PRECEDENCE[1..] == p1 && p1[1..] == p2 && p2[1..] == p3 && p3[1..] == p4 && p4[1..] == [];
    if OptString !in f {
      assert Governing(f, PRECEDENCE) == Governing(f, p1);
      if OptBool !in f {
        assert Governing(f, p1) == Governing(f, p2);
        if OptInt !in f {
          assert Governing(f, p2) == Governing(f, p3);
          if OptInt64 !in f {
            assert Governing(f, p3) == Governing(f, p4);
          }
        }
      }
    }
  }

  // ---------------------------------------------------------------- the argv loop

  /** The table, whether each checked action succeeds, and whether a parse_arg_function was given. */
  datatype Setup = Setup(options: seq<OptionDef>, accepts: Action -> bool, hasArgHandler: bool)

  /** Why the program exits with status 1. */
  datatype CliError =
    | UnrecognizedOption(name: string)
    | MissingArgument(name: string)
    | Rejected(action: Action)

  /** How parse_options ends: it returns, OPT_EXIT calls exit(0), or a failure calls exit(1). */
  datatype Outcome =
    | Finished(actions: seq<Action>)
    | Exited(actions: seq<Action>)
    | Fatal(actions: seq<Action>, error: CliError)

  /** After one argv element: go on at `next` with the given option handling, or stop. */
  datatype Progress = Continue(next: nat, handle: bool, actions: seq<Action>) | Stop(outcome: Outcome)

  /** An argument parse_options treats as an option: a '-' followed by at least one character. */
  predicate IsOptionWord(arg: string) {
    |arg| > 1 && arg[0] == '-'
  }

  /** Every option action names a real entry of the table. */
  predicate ValidActions(options: seq<OptionDef>, actions: seq<Action>) {
    forall a | a in actions :: a.Positional? || (a.option < |options| && options[a.option].name.Some?)
  }

  /** The option word `-name` at index next - 1, with its argument (if it takes one) at `next`. */
  function OptionStep(options: seq<OptionDef>, accepts: Action -> bool, argv: seq<string>, next: nat, name: string,
                      done: seq<Action>): (r: Progress)
    requires Terminated(options) && 0 < next <= |argv|
    ensures r.Continue? ==> next <= r.next <= |argv| && r.handle
    ensures r.Continue? ==> done <= r.actions && ValidActions(options, r.actions[|done|..])
    ensures r.Stop? ==> done <= r.outcome.actions && ValidActions(options, r.outcome.actions[|done|..])
  {
    match Resolve(options, name)
    case None => Stop(Fatal(done, UnrecognizedOption(name)))
    case Some(res) =>
      var po := options[res.index];
      if HasArg in po.flags && next >= |argv| then Stop(Fatal(done, MissingArgument(name)))
      else
        var arg := if HasArg in po.flags then Some(argv[next]) else None;
        var after := if HasArg in po.flags then next + 1 else next;
        var act := Dispatch(po, res.index, name, arg, res.boolValue);
        if act.Some? && Checked(act.value) && !accepts(act.value) then Stop(Fatal(done, Rejected(act.value)))
        else
          var now := if act.Some? then done + [act.value] else done;
          assert now[|done|..] == if act.Some? then [act.value] else [];
          if OptExit in po.flags then Stop(Exited(now)) else Continue(after, true, now)
  }

  /** parse_options' handling of argv[i]. */
  function Step(p: Setup, argv: seq<string>, i: nat, handle: bool, done: seq<Action>): (r: Progress)
    requires Terminated(p.options) && i < |argv|
    ensures r.Continue? ==> i < r.next <= |argv|
    ensures r.Continue? ==> done <= r.actions && ValidActions(p.options, r.actions[|done|..])
    ensures r.Stop? ==> done <= r.outcome.actions && ValidActions(p.options, r.outcome.actions[|done|..])
  {
    var arg := argv[i];
    if handle && IsOptionWord(arg) then
      if arg == "--" then Continue(i + 1, false, done)
      else OptionStep(p.options, p.accepts, argv, i + 1, arg[1..], done)
    else if !p.hasArgHandler then Continue(i + 1, handle, done)
    else if p.accepts(Positional(arg)) then
      assert (done + [Positional(arg)])[|done|..] == [Positional(arg)];
      Continue(i + 1, handle, done + [Positional(arg)])
    else Stop(Fatal(done, Rejected(Positional(arg))))
  }

  /** A sequence of actions extending a valid one by valid actions is valid. */
  lemma ValidExtends(options: seq<OptionDef>, done: seq<Action>, more: seq<Action>)
    requires done <= more
    ensures ValidActions(options, done) && ValidActions(options, more[|done|..]) ==> ValidActions(options, more)
  {
    assert more == done + more[|done|..];
  }

  /** parse_options from argv[i] on, with the actions so far. */
  function ParseFrom(p: Setup, argv: seq<string>, i: nat, handle: bool, done: seq<Action>): (r: Outcome)
    requires Terminated(p.options)
    ensures done <= r.actions
    ensures ValidActions(p.options, done) ==> ValidActions(p.options, r.actions)
    decreases |argv| - i
  {
    if i >= |argv| then Finished(done)
    else match Step(p, argv, i, handle, done)
      case Stop(o) =>
        ValidExtends(p.options, done, o.actions);
        o
      case Continue(next, h, now) =>
        ValidExtends(p.options, done, now);
        ParseFrom(p, argv, next, h, now)
  }

  /** parse_options(argc, argv, options, parse_arg_function): the loop starts after the program name, handling options. */
  function Parse(p: Setup, argv: seq<string>): (r: Outcome)
    requires Terminated(p.options)
    ensures ValidActions(p.options, r.actions)
  {
    ParseFrom(p, argv, 1, true, [])
  }

  /** parse_options, over the option table as an array. */
  method ParseOptions(argv: seq<string>, options: array<OptionDef>, accepts: Action -> bool, hasArgHandler: bool)
    returns (outcome: Outcome)
    requires Terminated(options[..])
    ensures outcome == Parse(Setup(options[..], accepts, hasArgHandler), argv)
  {
    ghost var p := Setup(options[..], accepts, hasArgHandler);
    var optindex := 1;
    var handleoptions := true;
    var actions: seq<Action> := [];
    while optindex < |argv|
      invariant ParseFrom(p, argv, optindex, handleoptions, actions) == Parse(p, argv)
      decreases |argv| - optindex
    {
      var progress := HandleArgument(argv, optindex, handleoptions, options, accepts, hasArgHandler, actions);
      match progress
      case Stop(o) =>
        return o;
      case Continue(next, handle, now) =>
        optindex, handleoptions, actions := next, handle, now;
    }
    outcome := Finished(actions);
  }

  /** One pass of the parse_options loop: reads argv[optindex] and whatever argument it takes. */
  method HandleArgument(argv: seq<string>, optindex: nat, handleoptions: bool, options: array<OptionDef>,
                        accepts: Action -> bool, hasArgHandler: bool, actions: seq<Action>) returns (r: Progress)
    requires Terminated(options[..]) && optindex < |argv|
    ensures r == Step(Setup(options[..], accepts, hasArgHandler), argv, optindex, handleoptions, actions)
  {
    var opt := argv[optindex];
    if handleoptions && |opt| > 1 && opt[0] == '-' {
      if opt == "--" {
        return Continue(optindex + 1, false, actions);
      }
      r := HandleOption(argv, optindex + 1, opt[1..], options, accepts, actions);
    } else if hasArgHandler {
      if !accepts(Positional(opt)) {
        return Stop(Fatal(actions, Rejected(Positional(opt))));
      }
      r := Continue(optindex + 1, handleoptions, actions + [Positional(opt)]);
    } else {
      r := Continue(optindex + 1, handleoptions, actions);
    }
  }

  /** The entry parse_options settles on, by the same find_option calls. */
  method ResolveOption(options: array<OptionDef>, name: string) returns (r: Option<Resolved>)
    requires Terminated(options[..])
    ensures r == Resolve(options[..], name)
  {
    var boolVal := 1;
    var k := FindOption(options, name);
    if options[k].name.None? && |name| >= 2 && name[0] == 'n' && name[1] == 'o' {
      k := FindOption(options, name[2..]);
      if !(options[k].name.Some? && OptBool in options[k].flags) {
        return None;
      }
      boolVal := 0;
    }
    if options[k].name.None? {
      k := FindOption(options, "default");
    }
    if options[k].name.None? {
      return None;
    }
    r := Some(Resolved(k, boolVal));
  }

  /** The body of the option branch of parse_options, for the word -name read just before argv[next]. */
  method HandleOption(argv: seq<string>, next: nat, name: string, options: array<OptionDef>,
                      accepts: Action -> bool, actions: seq<Action>) returns (r: Progress)
    requires Terminated(options[..]) && 0 < next <= |argv|
    ensures r == OptionStep(options[..], accepts, argv, next, name, actions)
  {
    var res := ResolveOption(options, name);
    if res.None? {
      return Stop(Fatal(actions, UnrecognizedOption(name)));
    }
    var k, boolVal := res.value.index, res.value.boolValue;
    var po := options[k];
    var optindex := next;
    var arg: Option<string> := None;
    if HasArg in po.flags {
      if optindex >= |argv| {
        return Stop(Fatal(actions, MissingArgument(name)));
      }
      arg := Some(argv[optindex]);
      optindex := optindex + 1;
    }
    var now := actions;
    var act := Dispatch(po, k, name, arg, boolVal);
    if act.Some? {
      var a := act.value;
      if Checked(a) && !accepts(a) {
        return Stop(Fatal(actions, Rejected(a)));
      }
      now := now + [a];
    }
    if OptExit in po.flags {
      return Stop(Exited(now));
    }
    r := Continue(optindex, true, now);
  }

  // ---------------------------------------------------------------- properties of the loop

  /** parse_arg_function(NULL, arg) for each argument, in order. */
  function Calls(args: seq<string>): (calls: seq<Action>)
    ensures |calls| == |args|
    ensures forall k | 0 <= k < |args| :: calls[k] == Positional(args[k])
  {
    seq(|args|, k requires 0 <= k < |args| => Positional(args[k]))
  }

  /** What happens to arguments once options are off: each goes to parse_arg_function, until one is refused. */
  function AllPositional(p: Setup, args: seq<string>, done: seq<Action>): (r: Outcome)
    ensures !r.Exited? && done <= r.actions
    ensures r.Finished? <==> !p.hasArgHandler || forall k | 0 <= k < |args| :: p.accepts(Positional(args[k]))
  {
    if !p.hasArgHandler then Finished(done)
    else if forall k | 0 <= k < |args| :: p.accepts(Positional(args[k])) then Finished(done + Calls(args))
    else
      var r := FirstRefused(p, args);
      Fatal(done + Calls(args[..r]), Rejected(Positional(args[r])))
  }

  /** The index of the first argument parse_arg_function refuses. */
  function FirstRefused(p: Setup, args: seq<string>): (r: nat)
    requires exists k | 0 <= k < |args| :: !p.accepts(Positional(args[k]))
    ensures r < |args| && !p.accepts(Positional(args[r]))
    ensures forall k | 0 <= k < r :: p.accepts(Positional(args[k]))
  {
    var k :| 0 <= k < |args| && !p.accepts(Positional(args[k]));
    FirstRefusedBelow(p, args, k)
  }

  /** The first refused argument at or below index k, which is refused. */
  function FirstRefusedBelow(p: Setup, args: seq<string>, k: nat): (r: nat)
    requires k < |args| && !p.accepts(Positional(args[k]))
    ensures r <= k && !p.accepts(Positional(args[r]))
    ensures forall j | 0 <= j < r :: p.accepts(Positional(args[j]))
  {
    if forall j | 0 <= j < k :: p.accepts(Positional(args[j])) then k
    else
      var j :| 0 <= j < k && !p.accepts(Positional(args[j]));
      FirstRefusedBelow(p, args, j)
  }

  /** The first refused index is the only refused index with nothing refused before it. */
  lemma FirstRefusedUnique(p: Setup, args: seq<string>, r: nat)
    requires r < |args| && !p.accepts(Positional(args[r]))
    requires forall k | 0 <= k < r :: p.accepts(Positional(args[k]))
    ensures FirstRefused(p, args) == r
  {
    var f := FirstRefused(p, args);
    assert !p.accepts(Positional(args[f])) && !p.accepts(Positional(args[r]));
  }

  /** Taking off a refused first argument: the run stops there, recording nothing. */
  lemma AllPositionalRefusedHead(p: Setup, args: seq<string>, done: seq<Action>)
    requires p.hasArgHandler && |args| > 0 && !p.accepts(Positional(args[0]))
    ensures AllPositional(p, args, done) == Fatal(done, Rejected(Positional(args[0])))
  {
    FirstRefusedUnique(p, args, 0);
    assert done + Calls(args[..0]) == done;
  }

  /** Taking off an accepted first argument when every argument is accepted. */
  lemma AllPositionalAllAccepted(p: Setup, args: seq<string>, done: seq<Action>)
    requires p.hasArgHandler && |args| > 0
    requires forall k | 0 <= k < |args| :: p.accepts(Positional(args[k]))
    ensures AllPositional(p, args, done) == AllPositional(p, args[1..], done + [Positional(args[0])])
  {
    var rest := args[1..];
    assert Calls(args) == [Positional(args[0])] + Calls(rest);
    assert forall k | 0 <= k < |rest| :: p.accepts(Positional(rest[k])) by {
      forall k | 0 <= k < |rest| ensures p.accepts(Positional(rest[k])) {
        assert rest[k] == args[k + 1];
      }
    }
    assert done + Calls(args) == (done + [Positional(args[0])]) + Calls(rest);
    AllAcceptedFinishes(p, args, done);
    AllAcceptedFinishes(p, rest, done + [Positional(args[0])]);
  }

  /** With every argument accepted, each gets its call and the run finishes. */
  lemma AllAcceptedFinishes(p: Setup, args: seq<string>, done: seq<Action>)
    requires p.hasArgHandler && forall k | 0 <= k < |args| :: p.accepts(Positional(args[k]))
    ensures AllPositional(p, args, done) == Finished(done + Calls(args))
  {
  }

  /** Taking off an accepted first argument when a later one is refused. */
  lemma AllPositionalLaterRefused(p: Setup, args: seq<string>, done: seq<Action>)
    requires p.hasArgHandler && |args| > 0 && p.accepts(Positional(args[0]))
    requires exists k | 0 <= k < |args| :: !p.accepts(Positional(args[k]))
    ensures AllPositional(p, args, done) == AllPositional(p, args[1..], done + [Positional(args[0])])
  {
    var rest := args[1..];
    var r := FirstRefused(p, args);
    FirstRefusedTail(p, args);
    CallsCons(args, r);
    assert done + Calls(args[..r]) == (done + [Positional(args[0])]) + Calls(rest[..r - 1]);
  }

  /** With the first argument accepted, the first refusal in the rest is one place earlier. */
  lemma FirstRefusedTail(p: Setup, args: seq<string>)
    requires |args| > 0 && p.accepts(Positional(args[0]))
    requires exists k | 0 <= k < |args| :: !p.accepts(Positional(args[k]))
    ensures FirstRefused(p, args) > 0
    ensures exists k | 0 <= k < |args[1..]| :: !p.accepts(Positional(args[1..][k]))
    ensures FirstRefused(p, args[1..]) == FirstRefused(p, args) - 1
  {
    var rest := args[1..];
    var r := FirstRefused(p, args);
    assert !p.accepts(Positional(rest[r - 1])) by { assert rest[r - 1] == args[r]; }
    forall k | 0 <= k < r - 1
      ensures p.accepts(Positional(rest[k]))
    {
      assert rest[k] == args[k + 1];
    }
    FirstRefusedUnique(p, rest, r - 1);
  }

  /** The calls for a prefix: the first one, then those for the rest. */
  lemma CallsCons(args: seq<string>, r: nat)
    requires 0 < r <= |args|
    ensures Calls(args[..r]) == [Positional(args[0])] + Calls(args[1..][..r - 1])
  {
    assert args[..r] == [args[0]] + args[1..][..r - 1];
  }

  /** Taking the first argument off: accepted, it is recorded and the rest follow; refused, it is fatal. */
  lemma AllPositionalCons(p: Setup, args: seq<string>, done: seq<Action>)
    requires p.hasArgHandler && |args| > 0
    ensures AllPositional(p, args, done) ==
      if p.accepts(Positional(args[0])) then AllPositional(p, args[1..], done + [Positional(args[0])])
      else Fatal(done, Rejected(Positional(args[0])))
  {
    if !p.accepts(Positional(args[0])) {
      AllPositionalRefusedHead(p, args, done);
    } else if forall k | 0 <= k < |args| :: p.accepts(Positional(args[k])) {
      AllPositionalAllAccepted(p, args, done);
    } else {
      AllPositionalLaterRefused(p, args, done);
    }
  }

  /** A literal "--" turns option handling off; nothing is recorded for it. */
  lemma DoubleDash(p: Setup, argv: seq<string>, i: nat, done: seq<Action>)
    requires Terminated(p.options) && i < |argv| && argv[i] == "--"
    ensures ParseFrom(p, argv, i, true, done) == ParseFrom(p, argv, i + 1, false, done)
  {
  }

  /** After "--" every argument, whatever it starts with, goes to parse_arg_function. */
  lemma {:induction false} AfterDoubleDash(p: Setup, argv: seq<string>, i: nat, done: seq<Action>)
    requires Terminated(p.options) && i <= |argv|
    ensures ParseFrom(p, argv, i, false, done) == AllPositional(p, argv[i..], done)
    decreases |argv| - i
  {
    if i < |argv| {
      var now := if p.hasArgHandler then done + [Positional(argv[i])] else done;
      AfterDoubleDash(p, argv, i + 1, now);
      assert argv[i..][1..] == argv[i + 1..];
      if p.hasArgHandler {
        AllPositionalCons(p, argv[i..], done);
      }
    }
  }

  /** A lone "-" or a word without a leading '-' is a positional argument whether or not options are handled. */
  lemma NonOptionWord(p: Setup, argv: seq<string>, i: nat, done: seq<Action>)
    requires Terminated(p.options) && i < |argv| && !IsOptionWord(argv[i])
    ensures var on, off := Step(p, argv, i, true, done), Step(p, argv, i, false, done);
      && on.Stop? == off.Stop? && (on.Stop? ==> on == off)
      && (on.Continue? ==> on.next == off.next == i + 1 && on.actions == off.actions && on.handle)
      && (on.Continue? ==> on.actions == done + (if p.hasArgHandler then [Positional(argv[i])] else []))
  {
  }

  /**
   * An option taking an argument consumes exactly the next element of argv,
   * which becomes its argument; at the end of argv it is fatal.
   */
  lemma HasArgConsumesNext(p: Setup, argv: seq<string>, next: nat, name: string, done: seq<Action>)
    requires Terminated(p.options) && 0 < next <= |argv|
    requires Resolve(p.options, name).Some? && HasArg in p.options[Resolve(p.options, name).value.index].flags
    ensures var r := OptionStep(p.options, p.accepts, argv, next, name, done);
      && (next == |argv| ==> r == Stop(Fatal(done, MissingArgument(name))))
      && (r.Continue? ==> r.next == next + 1)
      && (next < |argv| && r.Continue? ==> forall a | a in r.actions[|done|..] ::
            (a.SetString? || a.SetNumber? || a.CallHandler?) ==> a.arg == Some(argv[next]))
  {
  }

  /** A plain -X for a boolean option X stores 1; -noX, for an unknown noX, stores 0. */
  lemma BooleanValues(p: Setup, argv: seq<string>, next: nat, x: string, done: seq<Action>)
    requires Terminated(p.options) && 0 < next <= |argv|
    requires exists j :: NamedAt(p.options, x, j) && OptBool in p.options[Lookup(p.options, x)].flags
    requires OptString !in p.options[Lookup(p.options, x)].flags
    requires forall j :: !NamedAt(p.options, "no" + x, j)
    ensures var k := Lookup(p.options, x);
      var plain := OptionStep(p.options, p.accepts, argv, next, x, done);
      var negated := OptionStep(p.options, p.accepts, argv, next, "no" + x, done);
      && (plain.Continue? ==> plain.actions == done + [SetBool(k, 1)])
      && (negated.Continue? ==> negated.actions == done + [SetBool(k, 0)])
  {
    var j :| NamedAt(p.options, x, j) && OptBool in p.options[Lookup(p.options, x)].flags;
    ResolveKnown(p.options, x, j);
    ResolveNoPrefix(p.options, x);
    LookupFinds(p.options, x);
  }

  /**
   * An option whose argument is present and whose effect, if it has one, is
   * unchecked or accepted: the effect is recorded, then an OPT_EXIT option ends
   * the program with status 0 and any other option lets the loop go on after
   * its argument.
   */
  lemma OptionHandled(p: Setup, argv: seq<string>, next: nat, name: string, done: seq<Action>,
                      res: Resolved, act: Option<Action>)
    requires Terminated(p.options) && 0 < next <= |argv|
    requires Resolve(p.options, name) == Some(res)
    requires HasArg in p.options[res.index].flags ==> next < |argv|
    requires act == Dispatch(p.options[res.index], res.index, name,
                             if HasArg in p.options[res.index].flags then Some(argv[next]) else None, res.boolValue)
    requires act.Some? && Checked(act.value) ==> p.accepts(act.value)
    ensures OptExit in p.options[res.index].flags ==>
      OptionStep(p.options, p.accepts, argv, next, name, done) ==
      Stop(Exited(done + if act.Some? then [act.value] else []))
    ensures OptExit !in p.options[res.index].flags ==>
      OptionStep(p.options, p.accepts, argv, next, name, done) ==
      Continue(if HasArg in p.options[res.index].flags then next + 1 else next, true,
               done + if act.Some? then [act.value] else [])
  {
    if act.None? {
      assert done + [] == done;
    }
  }

  /**
   * The two ways a known option fails, OPT_EXIT or not: its argument is missing,
   * or its checked effect is refused; the effect is not recorded and the program
   * exits with status 1.
   */
  lemma OptionFails(p: Setup, argv: seq<string>, next: nat, name: string, done: seq<Action>,
                    res: Resolved, act: Option<Action>)
    requires Terminated(p.options) && 0 < next <= |argv|
    requires Resolve(p.options, name) == Some(res)
    requires HasArg in p.options[res.index].flags && next < |argv| ==>
      act == Dispatch(p.options[res.index], res.index, name, Some(argv[next]), res.boolValue)
    requires HasArg !in p.options[res.index].flags ==>
      act == Dispatch(p.options[res.index], res.index, name, None, res.boolValue)
    ensures HasArg in p.options[res.index].flags && next == |argv| ==>
      OptionStep(p.options, p.accepts, argv, next, name, done) == Stop(Fatal(done, MissingArgument(name)))
    ensures (HasArg in p.options[res.index].flags ==> next < |argv|) && act.Some? &&
            Checked(act.value) && !p.accepts(act.value) ==>
      OptionStep(p.options, p.accepts, argv, next, name, done) == Stop(Fatal(done, Rejected(act.value)))
  {
  }

  // ---------------------------------------------------------------- -loglevel

  /** opt_loglevel's table of level names, in its order. */
  const LOG_LEVELS: seq<(string, int)> := [
    ("quiet", Log.AV_LOG_QUIET), ("panic", Log.AV_LOG_PANIC), ("fatal", Log.AV_LOG_FATAL),
    ("error", Log.AV_LOG_ERROR), ("warning", Log.AV_LOG_WARNING), ("info", Log.AV_LOG_INFO),
    ("verbose", Log.AV_LOG_VERBOSE), ("debug", Log.AV_LOG_DEBUG)]

  /** The level of the first table entry from i on named `arg`. */
  function LevelNamed(arg: string, i: nat): (r: Option<int>)
    requires i <= |LOG_LEVELS|
    ensures r.Some? <==> exists k | i <= k < |LOG_LEVELS| :: LOG_LEVELS[k].0 == arg
    decreases |LOG_LEVELS| - i
  {
    if i == |LOG_LEVELS| then None
    else if LOG_LEVELS[i].0 == arg then Some(LOG_LEVELS[i].1)
    else LevelNamed(arg, i + 1)
  }

  const INT_MIN: int := -0x8000_0000
  const INT_MAX: int := 0x7FFF_FFFF

  /** Storing a long into an int keeps the low 32 bits, as two's complement. */
  function Wrap32(v: int): (r: int)
    ensures INT_MIN <= r <= INT_MAX
    ensures INT_MIN <= v <= INT_MAX ==> r == v
    ensures (r - v) % 0x1_0000_0000 == 0
  {
    (v - INT_MIN) % 0x1_0000_0000 + INT_MIN
  }

  /**
   * The level opt_loglevel sets for `arg`, or None when it exits with an
   * error: a level name, else a base-10 number filling the whole argument.
   */
  function LoglevelArgument(arg: string): (r: Option<int>)
    ensures r.Some? <==> LevelNamed(arg, 0).Some? || arg == [] ||
                         (SignedDecimal(arg, 0).Some? && SignedDecimal(arg, 0).value.end == |arg|)
    ensures LevelNamed(arg, 0).None? && SignedDecimal(arg, 0).Some? && SignedDecimal(arg, 0).value.end == |arg| &&
            INT_MIN <= SignedDecimal(arg, 0).value.value <= INT_MAX
        ==> r == Some(SignedDecimal(arg, 0).value.value)
    ensures r.Some? ==> INT_MIN <= r.value <= INT_MAX
  {
    var named := LevelNamed(arg, 0);
    if named.Some? then named
    else
      var n := StrToL(arg);
      if n.tail == |arg| then Some(Wrap32(n.value)) else None
  }

  /** Each of the eight names gives its level. */
  lemma LoglevelNames()
    ensures forall k | 0 <= k < |LOG_LEVELS| :: LoglevelArgument(LOG_LEVELS[k].0) == Some(LOG_LEVELS[k].1)
  {
    forall k | 0 <= k < |LOG_LEVELS|
      ensures LevelNamed(LOG_LEVELS[k].0, 0) == Some(LOG_LEVELS[k].1)
    {
      var name := LOG_LEVELS[k].0;
      forall j | 0 <= j < k
        ensures LOG_LEVELS[j].0 != name
      {
        FirstLettersDiffer(j, k);
      }
      LevelNamedFinds(name, 0, k);
    }
  }

  /** The eight names start with eight different letters. */
  lemma FirstLettersDiffer(j: nat, k: nat)
    requires j < k < |LOG_LEVELS|
    ensures |LOG_LEVELS[j].0| > 0 && |LOG_LEVELS[k].0| > 0 && LOG_LEVELS[j].0[0] != LOG_LEVELS[k].0[0]
  {
    var initials := "qpfewivd";
    assert forall i | 0 <= i < |LOG_LEVELS| :: |LOG_LEVELS[i].0| > 0 && LOG_LEVELS[i].0[0] == initials[i];
  }

  /** The lookup from i returns the level of the first entry from i on that carries the name. */
  lemma {:induction false} LevelNamedFinds(arg: string, i: nat, k: nat)
    requires i <= k < |LOG_LEVELS| && LOG_LEVELS[k].0 == arg
    requires forall j | i <= j < k :: LOG_LEVELS[j].0 != arg
    ensures LevelNamed(arg, i) == Some(LOG_LEVELS[k].1)
    decreases k - i
  {
    if i < k {
      LevelNamedFinds(arg, i + 1, k);
    }
  }

  /** No level name starts with a digit or a sign. */
  lemma NamesAreWords(arg: string)
    requires |arg| > 0 && (IsDigit(arg[0]) || arg[0] == '-')
    ensures LevelNamed(arg, 0).None?
  {
    forall k | 0 <= k < |LOG_LEVELS|
      ensures LOG_LEVELS[k].0 != arg
    {
      assert LOG_LEVELS[k].0[0] != arg[0];
    }
  }

  /** A number that fits an int, written in decimal, sets exactly that level. */
  lemma LoglevelNumber(n: int)
    requires INT_MIN <= n <= INT_MAX
    ensures LoglevelArgument(IntText(n)) == Some(n)
  {
    var s := IntText(n);
    NamesAreWords(s);
    assert s[0..|s|] == s;
    SignedDecimalOfText(s, 0, n);
  }

  /** A number followed by anything that is not a digit is an invalid level. */
  lemma LoglevelTrailing(n: int, tail: string)
    requires |tail| > 0 && !IsDigit(tail[0])
    ensures LoglevelArgument(IntText(n) + tail).None?
  {
    var s := IntText(n) + tail;
    NamesAreWords(s);
    assert s[0..|IntText(n)|] == IntText(n);
    SignedDecimalOfText(s, 0, n);
  }

  /** strtol converts nothing in "" and leaves tail at the terminator, so an empty argument sets level 0. */
  lemma LoglevelEmpty()
    ensures LoglevelArgument("") == Some(0)
  {
    assert LevelNamed("", 0).None?;
  }

  /** opt_loglevel(opt, arg): sets the level, or reports that the program exits with status 1. */
  method OptLoglevel(logger: Log.Logger, arg: string) returns (fails: bool)
    modifies logger`level
    ensures fails <==> LoglevelArgument(arg).None?
    ensures !fails ==> logger.level == LoglevelArgument(arg).value
    ensures fails ==> logger.level == old(logger.level)
  {
    for i := 0 to |LOG_LEVELS|
      invariant LevelNamed(arg, 0) == LevelNamed(arg, i)
    {
      if LOG_LEVELS[i].0 == arg {
        logger.SetLevel(LOG_LEVELS[i].1);
        return false;
      }
    }
    var n := StrToL(arg);
    if n.tail != |arg| {
      return true;
    }
    logger.SetLevel(Wrap32(n.value));
    fails := false;
  }
}
