/**
 * Start-up of the command-line chat server: listing the model files,
 * reading the command-line flags and choosing the model to load.
 *
 * The directory listing and the line typed at the prompt are parameters;
 * `process.exit` is an outcome of the choice.
 */
module ModelSelection {
  import opened Js

  const ModelSuffix: string := ".gguf"

  // ---------------------------------------------------------------------
  // Listing the models

  /** `a <= b` in the order `Array.prototype.sort` uses for strings: code unit by code unit. */
  predicate TextLe(a: string, b: string) {
    |a| == 0 || (|b| > 0 && (a[0] < b[0] || (a[0] == b[0] && TextLe(a[1..], b[1..]))))
  }

  lemma {:induction false} TextLeTotal(a: string, b: string)
    ensures TextLe(a, b) || TextLe(b, a)
  {
    if |a| > 0 && |b| > 0 && a[0] == b[0] {
      TextLeTotal(a[1..], b[1..]);
    }
  }

  lemma {:induction false} TextLeTransitive(a: string, b: string, c: string)
    requires TextLe(a, b) && TextLe(b, c)
    ensures TextLe(a, c)
  {
    if |a| > 0 && a[0] == b[0] && b[0] == c[0] {
      TextLeTransitive(a[1..], b[1..], c[1..]);
    }
  }

  predicate SortedText(s: seq<string>) {
    forall i, j :: 0 <= i < j < |s| ==> TextLe(s[i], s[j])
  }

  /** Inserts `x` ahead of the first element it does not exceed. */
  function InsertText(x: string, s: seq<string>): seq<string> {
    if |s| == 0 || TextLe(x, s[0]) then [x] + s else [s[0]] + InsertText(x, s[1..])
  }

  lemma {:induction false} InsertTextPermutes(x: string, s: seq<string>)
    ensures multiset(InsertText(x, s)) == multiset(s) + multiset{x}
  {
    if |s| > 0 && !TextLe(x, s[0]) {
      InsertTextPermutes(x, s[1..]);
      assert s == [s[0]] + s[1..];
    }
  }

  lemma {:induction false} InsertTextSorted(x: string, s: seq<string>)
    requires SortedText(s)
    ensures SortedText(InsertText(x, s))
    ensures InsertText(x, s)[0] == x || (|s| > 0 && InsertText(x, s)[0] == s[0])
  {
    if |s| == 0 {
    } else if TextLe(x, s[0]) {
      var r := [x] + s;
      forall i, j | 0 <= i < j < |r| ensures TextLe(r[i], r[j]) {
        if i == 0 {
          if j > 1 { TextLeTransitive(x, s[0], s[j - 1]); }
        } else {
          assert r[i] == s[i - 1] && r[j] == s[j - 1];
        }
      }
    } else {
      var rest := InsertText(x, s[1..]);
      InsertTextSorted(x, s[1..]);
      TextLeTotal(x, s[0]);
      var r := [s[0]] + rest;
      assert TextLe(s[0], rest[0]);
      forall i, j | 0 <= i < j < |r| ensures TextLe(r[i], r[j]) {
        if i == 0 {
          assert r[j] == rest[j - 1];
          if j > 1 { TextLeTransitive(s[0], rest[0], rest[j - 1]); }
        } else {
          assert r[i] == rest[i - 1] && r[j] == rest[j - 1];
        }
      }
    }
  }

  /** `names.sort()` */
  function SortText(names: seq<string>): (r: seq<string>)
    ensures multiset(r) == multiset(names)
    ensures SortedText(r)
  {
    if |names| == 0 then []
    else
      var rest := SortText(names[1..]);
      InsertTextPermutes(names[0], rest);
      InsertTextSorted(names[0], rest);
      assert names == [names[0]] + names[1..];
      InsertText(names[0], rest)
  }

  function ModelFiles(files: seq<string>): (r: seq<string>)
    ensures forall f :: f in r <==> f in files && EndsWith(f, ModelSuffix)
    ensures forall f :: f in files && EndsWith(f, ModelSuffix) ==> multiset(r)[f] == multiset(files)[f]
  {
    if |files| == 0 then []
    else
      assert files == [files[0]] + files[1..];
      (if EndsWith(files[0], ModelSuffix) then [files[0]] else []) + ModelFiles(files[1..])
  }

  /**
   * `listAvailableModels`: the `.gguf` files of the models directory in
   * ascending order, or none when the directory cannot be read.
   */
  function ListAvailableModels(listing: Result<seq<string>, Thrown>): (models: seq<string>)
    ensures listing.Fail? ==> models == []
    ensures listing.Ok? ==> forall f :: f in models <==> f in listing.value && EndsWith(f, ModelSuffix)
    ensures listing.Ok? ==> multiset(models) == multiset(ModelFiles(listing.value))
    ensures SortedText(models)
  {
    match listing
    case Fail(_) => []
    case Ok(files) =>
      var r := SortText(ModelFiles(files));
      assert forall f :: f in r <==> f in ModelFiles(files) by {
        forall f ensures f in r <==> f in ModelFiles(files) {
          assert f in r <==> f in multiset(r);
        }
      }
      r
  }

  /** A listed model is never the empty string, so it is truthy. */
  lemma ListedModelsAreNamed(listing: Result<seq<string>, Thrown>, i: nat)
    requires i < |ListAvailableModels(listing)|
    ensures ListAvailableModels(listing)[i] != ""
  {
    var models := ListAvailableModels(listing);
    assert models[i] in models;
  }

  // ---------------------------------------------------------------------
  // Command-line flags

  datatype CliArgs = CliArgs(model: Option<string>, listModels: bool)

  /** `--help` prints the usage and exits with status 0 while the flags are read. */
  datatype ArgsOutcome = Parsed(args: CliArgs) | HelpRequested

  predicate IsModelFlag(a: string) { a == "--model" || a == "-m" }
  predicate IsListFlag(a: string) { a == "--list-models" || a == "-l" }
  predicate IsHelpFlag(a: string) { a == "--help" || a == "-h" }

  /** The flags in `rest`, read from left to right on top of `acc`. */
  function ArgsFrom(rest: seq<string>, acc: CliArgs): ArgsOutcome
    decreases |rest|
  {
    if |rest| == 0 then Parsed(acc)
    else if IsModelFlag(rest[0]) then
      if 1 < |rest| then ArgsFrom(rest[2..], acc.(model := Some(rest[1]))) else ArgsFrom(rest[1..], acc)
    else if IsListFlag(rest[0]) then ArgsFrom(rest[1..], acc.(listModels := true))
    else if IsHelpFlag(rest[0]) then HelpRequested
    else ArgsFrom(rest[1..], acc)
  }

  /** `parseArgs` over `process.argv.slice(2)`. */
  method ParseArgs(args: seq<string>) returns (r: ArgsOutcome)
    ensures r == ArgsFrom(args, CliArgs(None, false))
  {
    var result := CliArgs(None, false);
    var i := 0;
    while i < |args|
      invariant 0 <= i <= |args|
      invariant ArgsFrom(args[i..], result) == ArgsFrom(args, CliArgs(None, false))
    {
      assert args[i..][1..] == args[i + 1..];
      if IsModelFlag(args[i]) {
        if i + 1 < |args| {
          assert args[i..][2..] == args[i + 2..];
          result := result.(model := Some(args[i + 1]));
          i := i + 1;
        }
      } else if IsListFlag(args[i]) {
        result := result.(listModels := true);
      } else if IsHelpFlag(args[i]) {
        return HelpRequested;
      }
      i := i + 1;
    }
    r := Parsed(result);
  }

  /** Without a list flag anywhere, `listModels` keeps its value. */
  lemma {:induction false} ListModelsNeedsFlag(rest: seq<string>, acc: CliArgs)
    requires forall i :: 0 <= i < |rest| ==> !IsListFlag(rest[i])
    ensures ArgsFrom(rest, acc).Parsed? ==> ArgsFrom(rest, acc).args.listModels == acc.listModels
    decreases |rest|
  {
    if |rest| > 0 {
      if IsModelFlag(rest[0]) && 1 < |rest| {
        ListModelsNeedsFlag(rest[2..], acc.(model := Some(rest[1])));
      } else if !IsHelpFlag(rest[0]) {
        ListModelsNeedsFlag(rest[1..], acc);
      }
    }
  }

  /** Without a model flag anywhere, `model` keeps its value. */
  lemma {:induction false} ModelNeedsFlag(rest: seq<string>, acc: CliArgs)
    requires forall i :: 0 <= i < |rest| ==> !IsModelFlag(rest[i])
    ensures ArgsFrom(rest, acc).Parsed? ==> ArgsFrom(rest, acc).args.model == acc.model
    decreases |rest|
  {
    if |rest| > 0 {
      if IsListFlag(rest[0]) {
        ModelNeedsFlag(rest[1..], acc.(listModels := true));
      } else if !IsHelpFlag(rest[0]) {
        ModelNeedsFlag(rest[1..], acc);
      }
    }
  }

  /** Without a help flag anywhere, the flags are always parsed. */
  lemma {:induction false} ParsedWithoutHelp(rest: seq<string>, acc: CliArgs)
    requires forall i :: 0 <= i < |rest| ==> !IsHelpFlag(rest[i])
    ensures ArgsFrom(rest, acc).Parsed?
    decreases |rest|
  {
    if |rest| > 0 {
      if IsModelFlag(rest[0]) && 1 < |rest| {
        ParsedWithoutHelp(rest[2..], acc.(model := Some(rest[1])));
      } else if IsListFlag(rest[0]) {
        ParsedWithoutHelp(rest[1..], acc.(listModels := true));
      } else {
        ParsedWithoutHelp(rest[1..], acc);
      }
    }
  }

  /**
   * A model flag takes the next argument as its value, whatever it looks
   * like, and that value stands unless a later model flag replaces it.
   */
  lemma ModelFlagTakesNextArgument(flag: string, value: string, rest: seq<string>)
    requires IsModelFlag(flag)
    requires forall i :: 0 <= i < |rest| ==> !IsModelFlag(rest[i]) && !IsHelpFlag(rest[i])
    ensures ArgsFrom([flag, value] + rest, CliArgs(None, false)).Parsed?
    ensures ArgsFrom([flag, value] + rest, CliArgs(None, false)).args.model == Some(value)
  {
    var all := [flag, value] + rest;
    assert all[2..] == rest;
    ParsedWithoutHelp(rest, CliArgs(Some(value), false));
    ModelNeedsFlag(rest, CliArgs(Some(value), false));
  }

  /** A model flag in last position has no value and is ignored. */
  lemma TrailingModelFlagIgnored(flag: string, acc: CliArgs)
    requires IsModelFlag(flag)
    ensures ArgsFrom([flag], acc) == Parsed(acc)
  {
    assert [flag][1..] == [];
  }

  // ---------------------------------------------------------------------
  // Choosing the model

  datatype Choice = Chosen(model: string) | Exit(status: int)

  /**
   * What `selectModel` does with the typed `answer`, once the flags have not
   * decided: a number from 1 to the number of models picks that model, an
   * exact model name picks itself, and anything else falls back to the
   * first model.
   */
  function ChooseFromAnswer(models: seq<string>, answer: string): (c: Choice)
    ensures c.Chosen? ==> c.model in models
    ensures c.Exit? ==> c.status == 1 && (|models| == 0 || models[0] == "")
    ensures answer in models && !(ParseInt(answer).Some? && 1 <= ParseInt(answer).value <= |models|)
      ==> c == Chosen(answer)
    ensures |models| > 0 && (forall i :: 0 <= i < |models| ==> models[i] != "") ==>
      var v := ParseInt(answer);
      && (v.Some? && 1 <= v.value <= |models| ==> c == Chosen(models[v.value - 1]))
      && (!(v.Some? && 1 <= v.value <= |models|) && answer !in models ==> c == Chosen(models[0]))
  {
    var index := ParseInt(answer);
    if index.Some? && 1 <= index.value <= |models| && models[index.value - 1] != "" then
      Chosen(models[index.value - 1])
    else if !(index.Some? && 1 <= index.value <= |models|) && answer in models then
      Chosen(answer)
    else if |models| == 0 || models[0] == "" then Exit(1)
    else Chosen(models[0])
  }

  /**
   * `selectModel`: no model files exits with status 1; a help or list
   * flag exits with status 0; a model flag naming a listed model picks
   * it; otherwise the typed answer decides.
   */
  function SelectModel(listing: Result<seq<string>, Thrown>, argv: seq<string>, answer: string): (c: Choice)
    ensures c.Chosen? ==> c.model in ListAvailableModels(listing)
    ensures c.Exit? ==> c.status == 0 || c.status == 1
    ensures c == Exit(1) <==> ListAvailableModels(listing) == []
    ensures ListAvailableModels(listing) != [] && ArgsFrom(argv, CliArgs(None, false)).HelpRequested? ==> c == Exit(0)
  {
    var models := ListAvailableModels(listing);
    if |models| == 0 then Exit(1)
    else
      ListedModelsAreNamed(listing, 0);
      match ArgsFrom(argv, CliArgs(None, false))
      case HelpRequested => Exit(0)
      case Parsed(args) =>
        if args.listModels then Exit(0)
        else if Truthy(args.model) && args.model.value in models then Chosen(args.model.value)
        else ChooseFromAnswer(models, answer)
  }

  /** A listed model named on the command line is used without asking. */
  lemma FlaggedModelWins(listing: Result<seq<string>, Thrown>, flag: string, name: string, answer: string)
    requires IsModelFlag(flag) && name in ListAvailableModels(listing)
    ensures SelectModel(listing, [flag, name], answer) == Chosen(name)
  {
    var argv := [flag, name];
    assert argv[2..] == [];
    assert ArgsFrom(argv, CliArgs(None, false)) == Parsed(CliArgs(Some(name), false));
    ListedModelsNamed(listing, name);
  }

  lemma ListedModelsNamed(listing: Result<seq<string>, Thrown>, name: string)
    requires name in ListAvailableModels(listing)
    ensures name != ""
  {
    var models := ListAvailableModels(listing);
    assert EndsWith(name, ModelSuffix);
  }

  /** Typing the decimal number k, for 1 <= k <= the number of models, picks the k-th model. */
  lemma NumberPicksModel(listing: Result<seq<string>, Thrown>, k: nat)
    requires 1 <= k <= |ListAvailableModels(listing)|
    ensures SelectModel(listing, [], NatToString(k)) == Chosen(ListAvailableModels(listing)[k - 1])
  {
    ListedModelsAreNamed(listing, k - 1);
    WithoutArgumentsTheAnswerDecides(listing, NatToString(k));
    NumberChoosesModel(ListAvailableModels(listing), k);
  }

  /** With no command-line arguments and some models, the typed answer decides. */
  lemma WithoutArgumentsTheAnswerDecides(listing: Result<seq<string>, Thrown>, answer: string)
    requires |ListAvailableModels(listing)| > 0
    ensures SelectModel(listing, [], answer) == ChooseFromAnswer(ListAvailableModels(listing), answer)
  {
  }

  /** The decimal number k picks the k-th of the models. */
  lemma NumberChoosesModel(models: seq<string>, k: nat)
    requires 1 <= k <= |models| && models[k - 1] != ""
    ensures ChooseFromAnswer(models, NatToString(k)) == Chosen(models[k - 1])
  {
    ParseIntOfNatToString(k);
  }

  /**
   * With any command line the flags leave undecided, an answer that is
   * neither a model number from 1 to the number of models (no number at
   * all, 0, a negative one or one too large) nor a listed name falls back
   * to the first model.
   */
  lemma InvalidAnswerPicksFirst(listing: Result<seq<string>, Thrown>, argv: seq<string>, answer: string)
    requires |ListAvailableModels(listing)| > 0
    requires answer !in ListAvailableModels(listing)
    requires !(ParseInt(answer).Some? && 1 <= ParseInt(answer).value <= |ListAvailableModels(listing)|)
    requires ArgsFrom(argv, CliArgs(None, false)).Parsed?
    requires var a := ArgsFrom(argv, CliArgs(None, false)).args;
      !a.listModels && (a.model.None? || a.model.value !in ListAvailableModels(listing))
    ensures SelectModel(listing, argv, answer) == Chosen(ListAvailableModels(listing)[0])
  {
    ListedModelsAreNamed(listing, 0);
    UndecidedFlagsLeaveTheAnswer(listing, argv, answer);
  }

  /**
   * With any command line the flags leave undecided, an answer that
   * `parseInt` reads as k, for 1 <= k <= the number of models, picks the
   * k-th model, whatever follows the digits.
   */
  lemma ParsedNumberPicksModel(listing: Result<seq<string>, Thrown>, argv: seq<string>, answer: string)
    requires ParseInt(answer).Some? && 1 <= ParseInt(answer).value <= |ListAvailableModels(listing)|
    requires ArgsFrom(argv, CliArgs(None, false)).Parsed?
    requires var a := ArgsFrom(argv, CliArgs(None, false)).args;
      !a.listModels && (a.model.None? || a.model.value !in ListAvailableModels(listing))
    ensures SelectModel(listing, argv, answer) == Chosen(ListAvailableModels(listing)[ParseInt(answer).value - 1])
  {
    ListedModelsAreNamed(listing, ParseInt(answer).value - 1);
    UndecidedFlagsLeaveTheAnswer(listing, argv, answer);
  }

  /**
   * Whatever the command line, once the flags have not decided (no help,
   * no list flag, no model flag naming a listed model), the typed answer
   * decides.
   */
  lemma UndecidedFlagsLeaveTheAnswer(listing: Result<seq<string>, Thrown>, argv: seq<string>, answer: string)
    requires |ListAvailableModels(listing)| > 0
    requires ArgsFrom(argv, CliArgs(None, false)).Parsed?
    requires var a := ArgsFrom(argv, CliArgs(None, false)).args;
      !a.listModels && (a.model.None? || a.model.value !in ListAvailableModels(listing))
    ensures SelectModel(listing, argv, answer) == ChooseFromAnswer(ListAvailableModels(listing), answer)
  {
  }

  /** A list flag that survives the parsing exits with status 0 before any question. */
  lemma ListFlagExits(listing: Result<seq<string>, Thrown>, argv: seq<string>, answer: string)
    requires |ListAvailableModels(listing)| > 0
    requires ArgsFrom(argv, CliArgs(None, false)).Parsed? && ArgsFrom(argv, CliArgs(None, false)).args.listModels
    ensures SelectModel(listing, argv, answer) == Exit(0)
  {
  }

  /** A listed model named by the last model flag is used, whatever else the command line holds. */
  lemma ParsedModelWins(listing: Result<seq<string>, Thrown>, argv: seq<string>, answer: string)
    requires ArgsFrom(argv, CliArgs(None, false)).Parsed?
    requires var a := ArgsFrom(argv, CliArgs(None, false)).args;
      !a.listModels && a.model.Some? && a.model.value in ListAvailableModels(listing)
    ensures SelectModel(listing, argv, answer) == Chosen(ArgsFrom(argv, CliArgs(None, false)).args.model.value)
  {
    ListedModelsNamed(listing, ArgsFrom(argv, CliArgs(None, false)).args.model.value);
  }

  /**
   * With any command line the flags leave undecided, typing the exact name
   * of a listed model picks it, unless the text also reads as a model number.
   */
  lemma NamePicksModel(listing: Result<seq<string>, Thrown>, argv: seq<string>, answer: string)
    requires answer in ListAvailableModels(listing)
    requires !(ParseInt(answer).Some? && 1 <= ParseInt(answer).value <= |ListAvailableModels(listing)|)
    requires ArgsFrom(argv, CliArgs(None, false)).Parsed?
    requires var a := ArgsFrom(argv, CliArgs(None, false)).args;
      !a.listModels && (a.model.None? || a.model.value !in ListAvailableModels(listing))
    ensures SelectModel(listing, argv, answer) == Chosen(answer)
  {
    ListedModelsNamed(listing, answer);
    UndecidedFlagsLeaveTheAnswer(listing, argv, answer);
  }
}
