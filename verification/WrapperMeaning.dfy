// What the lint wrapper adds to its arguments, stated on the arguments themselves.
module WrapperMeaning {
  import opened Prelude
  import opened WrapperArgs

  // ----- Which arguments say what -----

  // Options whose value is the next argument.
  predicate TakesValue(arg: string) {
    || arg == "--manifest-path" || arg == "-p" || arg == "--package" || arg == "--lib" || arg == "--lib-path"
  }

  // The argument at `i` is the value of the option before it.
  predicate IsValue(args: seq<string>, i: nat)
    requires i < |args|
  {
    i > 0 && TakesValue(args[i - 1]) && !IsValue(args, i - 1)
  }

  // The argument at `i` is an option's value that sets `flag`, or sets it on its own.
  predicate Marks(args: seq<string>, i: nat, flag: Flag)
    requires i < |args|
  {
    var arg := args[i];
    if IsValue(args, i) then
      var option := args[i - 1];
      match flag
      case ManifestPath => option == "--manifest-path"
      case PackageSelection => option == "-p" || option == "--package"
      case LibrarySelection => option == "--lib" || option == "--lib-path"
      case _ => false
    else
      match flag
      case ManifestPath => "--manifest-path=" <= arg
      case PackageSelection => "--package=" <= arg || arg == "--workspace"
      case LibrarySelection => "--lib=" <= arg || "--lib-path=" <= arg
      case Fix => arg == "--fix"
      case NoDeps => arg == "--no-deps"
      case CargoTarget => false
  }

  predicate Gives(args: seq<string>, flag: Flag) {
    exists i :: 0 <= i < |args| && Marks(args, i, flag)
  }

  predicate NamesTarget(arg: string) {
    || arg == "--all-targets" || arg == "--lib" || arg == "--bins" || arg == "--tests" || arg == "--examples"
    || arg == "--benches" || arg == "--doc" || arg == "--bin" || arg == "--test" || arg == "--example" || arg == "--bench"
    || "--bin=" <= arg || "--test=" <= arg || "--example=" <= arg || "--bench=" <= arg
  }

  predicate GivesTarget(cargo: seq<string>) {
    exists i :: 0 <= i < |cargo| && NamesTarget(cargo[i])
  }

  // ----- Reading finds just that -----

  lemma IsValueInPrefix(args: seq<string>, n: nat, i: nat)
    requires i < n <= |args|
    ensures IsValue(args[..n], i) <==> IsValue(args, i)
    decreases i
  {
    if i > 0 {
      IsValueInPrefix(args, n, i - 1);
    }
  }

  // The option waiting for a value is the argument before it, unless that is a value itself.
  lemma {:induction false} Awaited(args: seq<string>, i: nat)
    requires i < |args|
    ensures Expected(None, args[..i]) == if IsValue(args, i) then Expects(args[i - 1]) else None
    decreases i
  {
    if i > 0 {
      Awaited(args, i - 1);
      var front, last := args[..i - 1], args[i - 1];
      assert args[..i] == front + [last];
      LintFlagsJoin(None, front, [last]);
      var one: seq<string> := [last];
      assert one[1..] == [];
      ExpectsMeans(last);
      if IsValue(args, i - 1) {
        ExpectsMeans(args[i - 2]);
      }
    }
  }

  lemma ExpectsMeans(arg: string)
    ensures Expects(arg).Some? <==> TakesValue(arg)
  {}

  // The flags one argument sets, after an option waiting for a value or not.
  function MarkedBy(waiting: Option<Flag>, arg: string): set<Flag> {
    if waiting.Some? then {waiting.value} else Sets(arg)
  }

  lemma SetsMeans(arg: string, flag: Flag)
    ensures flag in Sets(arg) <==>
            match flag
            case ManifestPath => "--manifest-path=" <= arg
            case PackageSelection => "--package=" <= arg || arg == "--workspace"
            case LibrarySelection => "--lib=" <= arg || "--lib-path=" <= arg
            case Fix => arg == "--fix"
            case NoDeps => arg == "--no-deps"
            case CargoTarget => false
  {
    assert "--manifest-path="[2] == 'm' && "--package="[2] == 'p' && "--workspace"[2] == 'w' && "--fix"[2] == 'f';
    assert "--no-deps"[2] == 'n' && "--lib="[2] == 'l' && "--lib-path="[2] == 'l';
  }

  lemma LastArgument(args: seq<string>, flag: Flag)
    requires args != []
    ensures var n := |args| - 1; flag in MarkedBy(Expected(None, args[..n]), args[n]) <==> Marks(args, n, flag)
  {
    var n := |args| - 1;
    Awaited(args, n);
    SetsMeans(args[n], flag);
    if IsValue(args, n) {
      ExpectsMeans(args[n - 1]);
    }
  }

  lemma FlagsGrow(front: seq<string>, last: string)
    ensures LintFlags(None, front + [last]) == LintFlags(None, front) + MarkedBy(Expected(None, front), last)
  {
    LintFlagsJoin(None, front, [last]);
    var one: seq<string> := [last];
    assert one[1..] == [];
    var waiting := Expected(None, front);
    if waiting.Some? {
      assert LintFlags(None, one[1..]) == {};
    } else {
      assert LintFlags(Expects(last), one[1..]) == {};
    }
  }

  lemma {:induction false} FlagsAreGiven(args: seq<string>, flag: Flag)
    ensures flag in LintFlags(None, args) <==> Gives(args, flag)
    decreases |args|
  {
    if args != [] {
      var n := |args| - 1;
      var front := args[..n];
      FlagsAreGiven(front, flag);
      assert args == front + [args[n]];
      FlagsGrow(front, args[n]);
      LastArgument(args, flag);
      forall i | 0 <= i < n
        ensures Marks(front, i, flag) <==> Marks(args, i, flag)
      {
        IsValueInPrefix(args, n, i);
      }
      if Gives(front, flag) {
        var i :| 0 <= i < n && Marks(front, i, flag);
        assert Marks(args, i, flag);
      }
    }
  }

  lemma TargetsAreGiven(cargo: seq<string>)
    ensures CargoTarget in CargoFlags(cargo) <==> GivesTarget(cargo)
  {
    forall a
      ensures SelectsTarget(a) <==> NamesTarget(a)
    {}
    if exists a :: a in cargo && SelectsTarget(a) {
      var a :| a in cargo && SelectsTarget(a);
      var i :| 0 <= i < |cargo| && cargo[i] == a;
      assert NamesTarget(cargo[i]);
    }
    if GivesTarget(cargo) {
      var i :| 0 <= i < |cargo| && NamesTarget(cargo[i]);
      assert cargo[i] in cargo && SelectsTarget(cargo[i]);
    }
  }

  // Both sides of the separator, and every flag, as the arguments give them.
  lemma ParsedMeans(argv: seq<string>)
    ensures var p := Parse(argv);
            && "--" !in p.lint
            && (argv == p.lint + ["--"] + p.cargo || (argv == p.lint && p.cargo == []))
            && (forall flag :: flag != CargoTarget ==> (flag in p.flags <==> Gives(p.lint, flag)))
            && (CargoTarget in p.flags <==> GivesTarget(p.cargo))
  {
    ParseKeepsArguments(argv);
    var p := Parse(argv);
    TargetsAreGiven(p.cargo);
    FlagsOfCargo(p.cargo);
    forall flag
      ensures flag in LintFlags(None, p.lint) <==> Gives(p.lint, flag)
    {
      FlagsAreGiven(p.lint, flag);
    }
    NoTargetInLint(p.lint);
  }

  lemma NoTargetInLint(lint: seq<string>)
    ensures !Gives(lint, CargoTarget)
  {
    forall i | 0 <= i < |lint|
      ensures !Marks(lint, i, CargoTarget)
    {}
  }

  // ----- What is added -----

  // The completed arguments: the manifest path unless one was given, the whole workspace unless a
  // manifest path or a package was, no-deps unless it was, the user's own arguments, and behind
  // the separator all targets unless a fix was asked for or a target named.
  lemma CompletedArguments(argv: seq<string>, manifest: string)
    ensures var lint, cargo := Parse(argv).lint, Parse(argv).cargo;
            var added := if Gives(lint, Fix) || GivesTarget(cargo) then [] else ["--all-targets"];
            Build(Parse(argv), manifest) ==
            ((((if Gives(lint, ManifestPath) then [] else ["--manifest-path", manifest])
               + (if Gives(lint, ManifestPath) || Gives(lint, PackageSelection) then [] else ["--workspace"]))
              + (if Gives(lint, NoDeps) then [] else ["--no-deps"]))
             + lint)
            + (if cargo + added == [] then [] else ["--"] + (cargo + added))
  {
    ParsedMeans(argv);
  }

  // Without arguments the whole workspace is checked, every target and no dependency.
  lemma NoArguments(manifest: string)
    ensures Build(Parse([]), manifest) == ["--manifest-path", manifest, "--workspace", "--no-deps", "--", "--all-targets"]
  {
    CompletedArguments([], manifest);
    ParsedMeans([]);
    NothingGiven(ManifestPath);
    NothingGiven(PackageSelection);
    NothingGiven(NoDeps);
    NothingGiven(Fix);
    var none: seq<string> := [];
    assert none + ["--all-targets"] == ["--all-targets"];
  }

  lemma NothingGiven(flag: Flag)
    ensures !Gives([], flag) && !GivesTarget([])
  {}
}
