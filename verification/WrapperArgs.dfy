// How the lint wrapper reads its arguments and completes them.
module WrapperArgs {
  import opened Prelude

  // The flags of the parsed record that can be set.
  datatype Flag = ManifestPath | PackageSelection | NoDeps | LibrarySelection | Fix | CargoTarget

  datatype Parsed = Parsed(lint: seq<string>, cargo: seq<string>, flags: set<Flag>)

  const SEPARATOR := "--"

  // ----- One argument -----

  // The flag set by the argument's value, when that is the next argument.
  function Expects(arg: string): Option<Flag> {
    if arg == "--manifest-path" then Some(ManifestPath)
    else if arg in {"-p", "--package"} then Some(PackageSelection)
    else if arg in {"--lib", "--lib-path"} then Some(LibrarySelection)
    else None
  }

  // The flags set by the argument on its own.
  function Sets(arg: string): set<Flag> {
    if "--manifest-path=" <= arg then {ManifestPath}
    else if "--package=" <= arg || arg == "--workspace" then {PackageSelection}
    else if arg == "--fix" then {Fix}
    else if arg == "--no-deps" then {NoDeps}
    else if "--lib=" <= arg || "--lib-path=" <= arg then {LibrarySelection}
    else {}
  }

  predicate SelectsTarget(arg: string) {
    || arg in {"--all-targets", "--lib", "--bins", "--tests", "--examples", "--benches", "--doc"}
    || arg in {"--bin", "--test", "--example", "--bench"}
    || "--bin=" <= arg || "--test=" <= arg || "--example=" <= arg || "--bench=" <= arg
  }

  // ----- Reading -----

  datatype State = State(parsed: Parsed, afterSeparator: bool, expected: Option<Flag>)

  function ReadLint(st: State, arg: string): State {
    var lint := st.parsed.lint + [arg];
    match st.expected
    case Some(flag) => st.(parsed := st.parsed.(lint := lint, flags := st.parsed.flags + {flag}), expected := None)
    case None => st.(parsed := st.parsed.(lint := lint, flags := st.parsed.flags + Sets(arg)), expected := Expects(arg))
  }

  function ReadCargo(st: State, arg: string): State {
    st.(parsed := st.parsed.(cargo := st.parsed.cargo + [arg],
                             flags := st.parsed.flags + if SelectsTarget(arg) then {CargoTarget} else {}))
  }

  function Read(st: State, arg: string): State {
    if st.afterSeparator then ReadCargo(st, arg)
    else if arg == SEPARATOR then st.(afterSeparator := true)
    else ReadLint(st, arg)
  }

  function ReadAll(st: State, args: seq<string>): State
    decreases |args|
  {
    if args == [] then st else ReadAll(Read(st, args[0]), args[1..])
  }

  const START := State(Parsed([], [], {}), false, None)

  function Parse(argv: seq<string>): Parsed {
    ReadAll(START, argv).parsed
  }

  method ParseWrapperArgs(argv: seq<string>) returns (parsed: Parsed)
    ensures parsed == Parse(argv)
  {
    parsed := Parsed([], [], {});
    var afterSeparator, expected: Option<Flag> := false, None;
    assert argv[0..] == argv;
    for i := 0 to |argv|
      invariant ReadAll(State(parsed, afterSeparator, expected), argv[i..]).parsed == Parse(argv)
    {
      var arg := argv[i];
      assert argv[i..][0] == arg && argv[i..][1..] == argv[i + 1..];
      if afterSeparator {
        parsed := parsed.(cargo := parsed.cargo + [arg]);
        if SelectsTarget(arg) {
          parsed := parsed.(flags := parsed.flags + {CargoTarget});
        } else {
          assert parsed.flags + {} == parsed.flags;
        }
      } else if arg == SEPARATOR {
        afterSeparator := true;
      } else {
        parsed := parsed.(lint := parsed.lint + [arg]);
        if expected.Some? {
          parsed := parsed.(flags := parsed.flags + {expected.value});
          expected := None;
        } else {
          parsed := parsed.(flags := parsed.flags + Sets(arg));
          expected := Expects(arg);
        }
      }
    }
  }

  // ----- Completing -----

  function Prefix(flags: set<Flag>, manifest: string): seq<string> {
    (if ManifestPath !in flags then ["--manifest-path", manifest] else [])
    + (if PackageSelection !in flags && ManifestPath !in flags then ["--workspace"] else [])
    + (if NoDeps !in flags then ["--no-deps"] else [])
  }

  function CargoArgs(p: Parsed): seq<string> {
    p.cargo + if Fix !in p.flags && CargoTarget !in p.flags then ["--all-targets"] else []
  }

  function AfterSeparator(cargo: seq<string>): seq<string> {
    if cargo == [] then [] else [SEPARATOR] + cargo
  }

  function Build(p: Parsed, manifest: string): seq<string> {
    (Prefix(p.flags, manifest) + p.lint) + AfterSeparator(CargoArgs(p))
  }

  method BuildFinalArgs(p: Parsed, manifest: string) returns (args: seq<string>)
    ensures args == Build(p, manifest)
  {
    args := [];
    var cargo := p.cargo;
    if ManifestPath !in p.flags {
      args := args + ["--manifest-path", manifest];
    }
    if PackageSelection !in p.flags && ManifestPath !in p.flags {
      args := args + ["--workspace"];
    }
    if NoDeps !in p.flags {
      args := args + ["--no-deps"];
    }
    assert args == Prefix(p.flags, manifest);
    if Fix !in p.flags && CargoTarget !in p.flags {
      cargo := cargo + ["--all-targets"];
    }
    args := args + p.lint;
    if cargo != [] {
      args := args + ([SEPARATOR] + cargo);
    }
  }

  // ----- What reading finds -----

  function Expected(expected: Option<Flag>, args: seq<string>): Option<Flag>
    decreases |args|
  {
    if args == [] then expected
    else Expected(if expected.Some? then None else Expects(args[0]), args[1..])
  }

  function LintFlags(expected: Option<Flag>, args: seq<string>): set<Flag>
    decreases |args|
  {
    if args == [] then {}
    else if expected.Some? then {expected.value} + LintFlags(None, args[1..])
    else Sets(args[0]) + LintFlags(Expects(args[0]), args[1..])
  }

  function CargoFlags(args: seq<string>): set<Flag> {
    if exists a :: a in args && SelectsTarget(a) then {CargoTarget} else {}
  }

  lemma {:induction false} ReadLintArgs(st: State, args: seq<string>)
    requires !st.afterSeparator && SEPARATOR !in args
    ensures ReadAll(st, args) == State(
              st.parsed.(lint := st.parsed.lint + args, flags := st.parsed.flags + LintFlags(st.expected, args)),
              false,
              Expected(st.expected, args))
    decreases |args|
  {
    if args == [] {
      assert st.parsed.lint + args == st.parsed.lint;
    } else {
      var next := ReadLint(st, args[0]);
      ReadLintArgs(next, args[1..]);
      assert next.parsed.lint + args[1..] == st.parsed.lint + args;
      assert next.parsed.flags + LintFlags(next.expected, args[1..]) == st.parsed.flags + LintFlags(st.expected, args);
    }
  }

  lemma CargoFlagsStep(args: seq<string>)
    requires args != []
    ensures CargoFlags(args) == (if SelectsTarget(args[0]) then {CargoTarget} else {}) + CargoFlags(args[1..])
  {
    assert args == [args[0]] + args[1..];
  }

  lemma {:induction false} ReadCargoArgs(st: State, args: seq<string>)
    requires st.afterSeparator
    ensures ReadAll(st, args) == st.(
              parsed := st.parsed.(cargo := st.parsed.cargo + args, flags := st.parsed.flags + CargoFlags(args)))
    decreases |args|
  {
    if args == [] {
      assert st.parsed.cargo + args == st.parsed.cargo;
    } else {
      var next := ReadCargo(st, args[0]);
      ReadCargoArgs(next, args[1..]);
      CargoFlagsStep(args);
      assert next.parsed.cargo + args[1..] == st.parsed.cargo + args;
      assert next.parsed.flags + CargoFlags(args[1..]) == st.parsed.flags + CargoFlags(args);
    }
  }

  lemma {:induction false} ReadJoins(st: State, a: seq<string>, b: seq<string>)
    ensures ReadAll(st, a + b) == ReadAll(ReadAll(st, a), b)
    decreases |a|
  {
    if a == [] {
      assert a + b == b;
    } else {
      assert (a + b)[1..] == a[1..] + b;
      ReadJoins(Read(st, a[0]), a[1..], b);
    }
  }

  function Flags(lint: seq<string>, cargo: seq<string>): set<Flag> {
    LintFlags(None, lint) + CargoFlags(cargo)
  }

  lemma ReadUpToSeparator(lint: seq<string>)
    requires SEPARATOR !in lint
    ensures ReadAll(START, lint + [SEPARATOR]) ==
            State(Parsed(lint, [], LintFlags(None, lint)), true, Expected(None, lint))
  {
    ReadJoins(START, lint, [SEPARATOR]);
    ReadLintArgs(START, lint);
    var mid := ReadAll(START, lint);
    var bar: seq<string> := [SEPARATOR];
    assert bar[1..] == [] && ReadAll(mid, bar) == mid.(afterSeparator := true);
  }

  // Reading splits at the first separator and keeps both sides as they are.
  lemma ParseOfSplit(lint: seq<string>, cargo: seq<string>)
    requires SEPARATOR !in lint
    ensures Parse(lint + [SEPARATOR] + cargo) == Parsed(lint, cargo, Flags(lint, cargo))
  {
    ReadJoins(START, lint + [SEPARATOR], cargo);
    ReadUpToSeparator(lint);
    ReadCargoArgs(ReadAll(START, lint + [SEPARATOR]), cargo);
  }

  lemma ParseOfLint(lint: seq<string>)
    requires SEPARATOR !in lint
    ensures Parse(lint) == Parsed(lint, [], Flags(lint, []))
  {
    ReadLintArgs(START, lint);
  }

  lemma {:induction false} FirstSeparator(argv: seq<string>) returns (i: nat)
    requires SEPARATOR in argv
    ensures i < |argv| && argv[i] == SEPARATOR && SEPARATOR !in argv[..i]
    decreases |argv|
  {
    if argv[0] == SEPARATOR {
      i := 0;
    } else {
      var j := FirstSeparator(argv[1..]);
      i := j + 1;
      assert argv[..i] == [argv[0]] + argv[1..][..j];
    }
  }

  // The user's arguments survive reading in order, and only they decide the flags.
  lemma ParseKeepsArguments(argv: seq<string>)
    ensures var p := Parse(argv);
            && SEPARATOR !in p.lint
            && (argv == p.lint + [SEPARATOR] + p.cargo || (argv == p.lint && p.cargo == []))
            && p.flags == Flags(p.lint, p.cargo)
  {
    if SEPARATOR in argv {
      var i := FirstSeparator(argv);
      assert argv == argv[..i] + [SEPARATOR] + argv[i + 1..];
      ParseOfSplit(argv[..i], argv[i + 1..]);
    } else {
      ParseOfLint(argv);
    }
  }

  // ----- Reading completed arguments -----

  lemma {:induction false} LintFlagsJoin(expected: Option<Flag>, a: seq<string>, b: seq<string>)
    ensures LintFlags(expected, a + b) == LintFlags(expected, a) + LintFlags(Expected(expected, a), b)
    ensures Expected(expected, a + b) == Expected(Expected(expected, a), b)
    decreases |a|
  {
    if a == [] {
      assert a + b == b;
    } else {
      assert (a + b)[1..] == a[1..] + b;
      LintFlagsJoin(if expected.Some? then None else Expects(a[0]), a[1..], b);
    }
  }

  lemma AddedArguments()
    ensures Expects("--manifest-path") == Some(ManifestPath) && Sets("--manifest-path") == {}
    ensures Expects("--workspace") == None && Sets("--workspace") == {PackageSelection}
    ensures Expects("--no-deps") == None && Sets("--no-deps") == {NoDeps}
    ensures SelectsTarget("--all-targets")
    ensures SEPARATOR !in ["--manifest-path", "--workspace", "--no-deps"]
  {
    var s := "--manifest-path";
    assert |s| < |"--manifest-path="|;
    assert s[2] == 'm' && "--package="[2] == 'p' && "--workspace"[2] == 'w' && "--fix"[2] == 'f';
    assert "--no-deps"[2] == 'n' && "--lib="[2] == 'l' && "--lib-path="[2] == 'l';
  }

  lemma OneArgument(arg: string)
    ensures LintFlags(None, [arg]) == Sets(arg) && Expected(None, [arg]) == Expects(arg)
  {
    var one: seq<string> := [arg];
    assert one[1..] == [] && LintFlags(Expects(arg), one[1..]) == {};
  }

  lemma ManifestArguments(manifest: string)
    ensures LintFlags(None, ["--manifest-path", manifest]) == {ManifestPath}
    ensures Expected(None, ["--manifest-path", manifest]) == None
  {
    AddedArguments();
    var two: seq<string>, one: seq<string> := ["--manifest-path", manifest], [manifest];
    assert two[1..] == one && one[1..] == [];
    assert Expected(Some(ManifestPath), one) == Expected(None, one[1..]);
    assert LintFlags(Some(ManifestPath), one) == {ManifestPath} + LintFlags(None, one[1..]);
    assert LintFlags(None, two) == Sets("--manifest-path") + LintFlags(Some(ManifestPath), one);
  }

  lemma Optional(wanted: bool, arg: string, flag: Flag)
    requires Sets(arg) == {flag} && Expects(arg) == None
    ensures var args := if wanted then [arg] else [];
            LintFlags(None, args) == (if wanted then {flag} else {}) && Expected(None, args) == None
  {
    OneArgument(arg);
  }

  // What is put in front leaves no argument waiting for a value and sets what was missing.
  lemma PrefixMeans(flags: set<Flag>, manifest: string)
    ensures Expected(None, Prefix(flags, manifest)) == None
    ensures var added := LintFlags(None, Prefix(flags, manifest));
            ManifestPath in flags + added && NoDeps in flags + added
    ensures SEPARATOR in Prefix(flags, manifest) <==> manifest == SEPARATOR && ManifestPath !in flags
  {
    AddedArguments();
    var a := if ManifestPath !in flags then ["--manifest-path", manifest] else [];
    var b := if PackageSelection !in flags && ManifestPath !in flags then ["--workspace"] else [];
    var c := if NoDeps !in flags then ["--no-deps"] else [];
    assert Prefix(flags, manifest) == (a + b) + c;
    ManifestArguments(manifest);
    Optional(PackageSelection !in flags && ManifestPath !in flags, "--workspace", PackageSelection);
    Optional(NoDeps !in flags, "--no-deps", NoDeps);
    LintFlagsJoin(None, a + b, c);
    LintFlagsJoin(None, a, b);
  }

  lemma ParseOfBuilt(lint: seq<string>, cargo: seq<string>)
    requires SEPARATOR !in lint
    ensures Parse(lint + AfterSeparator(cargo)) == Parsed(lint, cargo, Flags(lint, cargo))
  {
    if cargo == [] {
      assert lint + [] == lint;
      ParseOfLint(lint);
    } else {
      assert lint + ([SEPARATOR] + cargo) == lint + [SEPARATOR] + cargo;
      ParseOfSplit(lint, cargo);
    }
  }

  lemma CargoArgsSelect(p: Parsed)
    requires p.flags == Flags(p.lint, p.cargo)
    ensures Fix in p.flags || CargoTarget in LintFlags(None, p.lint) + CargoFlags(CargoArgs(p))
  {
    AddedArguments();
    var cargo := CargoArgs(p);
    if Fix !in p.flags {
      if CargoTarget in CargoFlags(p.cargo) {
        var a :| a in p.cargo && SelectsTarget(a);
        assert a in cargo;
      } else if CargoTarget !in p.flags {
        assert cargo[|cargo| - 1] == "--all-targets" && cargo[|cargo| - 1] in cargo;
      }
    }
  }

  // Reading completed arguments finds a manifest path, no-deps and a fix or a target selection,
  // and the user's own arguments in order.
  lemma ReparseSeesEverything(argv: seq<string>, manifest: string)
    requires manifest != SEPARATOR || ManifestPath in Parse(argv).flags
    ensures var p := Parse(argv);
            var q := Parse(Build(p, manifest));
            && q.lint == Prefix(p.flags, manifest) + p.lint && q.cargo == CargoArgs(p)
            && ManifestPath in q.flags && NoDeps in q.flags && (Fix in q.flags || CargoTarget in q.flags)
  {
    var p := Parse(argv);
    var prefix := Prefix(p.flags, manifest);
    ParseKeepsArguments(argv);
    PrefixMeans(p.flags, manifest);
    ParseOfBuilt(prefix + p.lint, CargoArgs(p));
    LintFlagsJoin(None, prefix, p.lint);
    CargoArgsSelect(p);
    var q := Parse(Build(p, manifest));
    assert q.flags == (LintFlags(None, prefix) + LintFlags(None, p.lint)) + CargoFlags(CargoArgs(p));
    FlagsOfCargo(p.cargo);
  }

  lemma FlagsOfCargo(cargo: seq<string>)
    ensures CargoFlags(cargo) <= {CargoTarget}
  {
  }

  lemma RebuildsTo(q: Parsed, manifest: string)
    requires ManifestPath in q.flags && NoDeps in q.flags && (Fix in q.flags || CargoTarget in q.flags)
    ensures Build(q, manifest) == q.lint + AfterSeparator(q.cargo)
  {
    assert q.cargo + [] == q.cargo && [] + q.lint == q.lint;
  }

  // With "--" as the manifest path nothing written after it is read as a lint argument.
  lemma SeparatorAsManifest(p: Parsed)
    requires ManifestPath !in p.flags
    ensures var f := Build(p, SEPARATOR);
            |Build(Parse(f), SEPARATOR)| > |f|
  {
    var f := Build(p, SEPARATOR);
    var lint, rest := ["--manifest-path"], f[2..];
    AddedArguments();
    assert f[0] == "--manifest-path" && f[1] == SEPARATOR;
    assert f == lint + [SEPARATOR] + rest;
    ParseOfSplit(lint, rest);
    OneArgument("--manifest-path");
    FlagsOfCargo(rest);
    var q := Parse(f);
    assert |Prefix(q.flags, SEPARATOR)| == 4;
    assert |AfterSeparator(CargoArgs(q))| >= |rest|;
  }

  // Completing completed arguments changes nothing, exactly when the manifest path the wrapper
  // adds is not itself the separator.
  lemma RewritingIsAFixedPointIff(argv: seq<string>, manifest: string)
    ensures var built := Build(Parse(argv), manifest);
            Build(Parse(built), manifest) == built <==> manifest != SEPARATOR || ManifestPath in Parse(argv).flags
  {
    var p := Parse(argv);
    if manifest != SEPARATOR || ManifestPath in p.flags {
      ReparseSeesEverything(argv, manifest);
      RebuildsTo(Parse(Build(p, manifest)), manifest);
    } else {
      SeparatorAsManifest(p);
    }
  }

  lemma SeparatorManifestIsNotAFixedPoint()
    ensures var built := Build(Parse([]), SEPARATOR); Build(Parse(built), SEPARATOR) != built
  {
    RewritingIsAFixedPointIff([], SEPARATOR);
  }
}
