/** The command runner of noot: the Coordinator, the validation of a command
    line and the dispatch of `main` to one of the Coordinator's operations.
    Every panic of the program (a failed `assert!`, the usage `panic!`, an
    index out of bounds) is a `RunError` value here, and every operation is a
    function of the Coordinator it is called on, which it never changes. */
module Noot {
  import Ascii

  datatype Result<+T, +E> = Ok(value: T) | Err(error: E)

  /** Where noot installs node versions; fixed, not configurable. */
  const InstallRoot: string := "~/.config/noot"

  /** The message of the usage panic (upper-case, unlike the words matched). */
  const UsageMessage: string := "USAGE: <INFO | ADD | SET | LIST | REMOVE>"

  /** The command words the usage message advertises. */
  const UsageWords: seq<string> := ["INFO", "ADD", "SET", "LIST", "REMOVE"]

  const AddCountMessage: string := "Please supply 1 and only 1 version to install"
  const SetCountMessage: string := "Please supply 1 and only 1 version to set"
  const RemoveCountMessage: string := "Please supply 1 and only 1 version to remove"

  /** The command runner: the install root and the installed versions. */
  datatype Coordinator = Coordinator(path: string, installed: seq<string>)

  /** The Coordinator that `main` builds. */
  function Initial(): (c: Coordinator)
    ensures c.path == "~/.config/noot" && c.installed == []
  {
    Coordinator(InstallRoot, [])
  }

  /** Why `validate` rejects a command line: the failed assertion on the
      number of words, or the usage panic for an unknown command word. */
  datatype ValidationError =
    | WrongVersionCount(message: string)
    | UnknownCommand(message: string)

  /** Why a run of `main` stops: indexing past the end of the arguments, a
      rejected command line, or the fallback panic of the dispatch. */
  datatype RunError =
    | IndexOutOfBounds(index: nat, len: nat)
    | Invalid(reason: ValidationError)
    | Unmatched(message: string)

  /** The Coordinator operation `main` dispatches to. */
  datatype Action = Info | Add(version: string) | Set(version: string) | Remove(version: string) | List

  /** What an operation prints: `info` shows the path and the installed
      versions, `list` a fixed line, the others the version they were given. */
  datatype Output =
    | ShowState(path: string, installed: seq<string>)
    | ShowList
    | ShowAdd(version: string)
    | ShowSet(version: string)
    | ShowRemove(version: string)

  /** The command words that take a version and that `validate` accepts. */
  predicate IsVersionCommand(word: string) {
    word == "add" || word == "set" || word == "remove"
  }

  /** The command word that selects an action in the dispatch of `main`. */
  function Word(a: Action): string {
    match a
    case Info => "info"
    case Add(_) => "add"
    case Set(_) => "set"
    case Remove(_) => "remove"
    case List => "list"
  }

  /** `validate`: "add", "set" and "remove" need the argument vector (the
      command word included) to have exactly two words; any other word is
      the usage panic. The Coordinator is only read. */
  function Validate(c: Coordinator, command: string, args: seq<string>): (r: Result<(), ValidationError>)
    ensures r.Ok? <==> IsVersionCommand(command) && |args| == 2
    ensures IsVersionCommand(command) && |args| != 2 ==> r.Err? && r.error.WrongVersionCount?
    ensures command == "add" && |args| != 2 ==> r == Err(WrongVersionCount(AddCountMessage))
    ensures command == "set" && |args| != 2 ==> r == Err(WrongVersionCount(SetCountMessage))
    ensures command == "remove" && |args| != 2 ==> r == Err(WrongVersionCount(RemoveCountMessage))
    ensures !IsVersionCommand(command) ==> r == Err(UnknownCommand(UsageMessage))
  {
    if command == "add" then
      if |args| == 2 then Ok(()) else Err(WrongVersionCount(AddCountMessage))
    else if command == "set" then
      if |args| == 2 then Ok(()) else Err(WrongVersionCount(SetCountMessage))
    else if command == "remove" then
      if |args| == 2 then Ok(()) else Err(WrongVersionCount(RemoveCountMessage))
    else
      Err(UnknownCommand(UsageMessage))
  }

  /** Rust's `args[i]`: the word at `i`, or the out-of-bounds panic. */
  function At(args: seq<string>, i: nat): (r: Result<string, RunError>)
    ensures r.Ok? <==> i < |args|
    ensures r.Ok? ==> r.value == args[i]
    ensures r.Err? ==> r.error == IndexOutOfBounds(i, |args|)
  {
    if i < |args| then Ok(args[i]) else Err(IndexOutOfBounds(i, |args|))
  }

  /** The body of `main` up to the choice of operation: read `args[0]`,
      validate, then match `args[0]` and read `args[1]` where needed. */
  function Run(c: Coordinator, args: seq<string>): (r: Result<Action, RunError>)
    // an empty argument list stops at `args[0]`, before validation
    ensures |args| == 0 ==> r == Err(IndexOutOfBounds(0, 0))
    // a non-empty one stops exactly where validation rejects it
    ensures |args| > 0 ==> (r.Ok? <==> Validate(c, args[0], args).Ok?)
    ensures |args| > 0 && r.Err? ==> r.error == Invalid(Validate(c, args[0], args).error)
    // every successful run dispatches the command word it was given,
    // with the second word as the version
    ensures r.Ok? ==> IsVersionCommand(args[0]) && |args| == 2
    ensures r.Ok? ==> !r.value.Info? && !r.value.List? && Word(r.value) == args[0]
    ensures r.Ok? ==> r.value.version == args[1]
  {
    match At(args, 0)
    case Err(e) => Err(e)
    case Ok(command) =>
      match Validate(c, command, args)
      case Err(e) => Err(Invalid(e))
      case Ok(_) =>
        if command == "info" then Ok(Info)
        else if command == "add" then Versioned(args, v => Add(v))
        else if command == "set" then Versioned(args, v => Set(v))
        else if command == "remove" then Versioned(args, v => Remove(v))
        else if command == "list" then Ok(List)
        else Err(Unmatched(UsageMessage))
  }

  /** A dispatch arm that passes `args[1]` to its operation. */
  function Versioned(args: seq<string>, op: string -> Action): (r: Result<Action, RunError>)
    ensures r.Ok? <==> |args| > 1
    ensures r.Ok? ==> r.value == op(args[1])
    ensures r.Err? ==> r.error == IndexOutOfBounds(1, |args|)
  {
    match At(args, 1)
    case Err(e) => Err(e)
    case Ok(v) => Ok(op(v))
  }

  /** The Coordinator's operations, all taking `&self`: each prints and
      leaves the Coordinator as it was. */
  function Execute(c: Coordinator, a: Action): (r: (Coordinator, Output))
    ensures r.0 == c
    ensures a.Info? ==> r.1 == ShowState(c.path, c.installed)
    ensures a.List? ==> r.1 == ShowList
    ensures a.Add? ==> r.1 == ShowAdd(a.version)
    ensures a.Set? ==> r.1 == ShowSet(a.version)
    ensures a.Remove? ==> r.1 == ShowRemove(a.version)
  {
    match a
    case Info => (c, ShowState(c.path, c.installed))
    case List => (c, ShowList)
    case Add(v) => (c, ShowAdd(v))
    case Set(v) => (c, ShowSet(v))
    case Remove(v) => (c, ShowRemove(v))
  }

  /** A whole run of `main` on the words after the program name: build the
      Coordinator, validate and dispatch, then perform the operation. */
  function Entry(args: seq<string>): (r: Result<(Coordinator, Output), RunError>)
    ensures r.Ok? <==> |args| == 2 && IsVersionCommand(args[0])
    ensures r.Ok? ==> r.value.0 == Coordinator("~/.config/noot", [])
    ensures r.Ok? ==>
      r.value.1 == (if args[0] == "add" then ShowAdd(args[1])
                    else if args[0] == "set" then ShowSet(args[1])
                    else ShowRemove(args[1]))
    ensures |args| == 0 ==> r == Err(IndexOutOfBounds(0, 0))
    ensures |args| > 0 && r.Err? ==> r.error == Invalid(Validate(Initial(), args[0], args).error)
  {
    var c := Initial();
    match Run(c, args)
    case Err(e) => Err(e)
    case Ok(a) => Ok(Execute(c, a))
  }

  /** The words "info" and "list" never get past validation, whatever follows
      them, so the `info` and `list` arms of the dispatch are unreachable. */
  lemma InfoAndListRejected(c: Coordinator, args: seq<string>)
    requires |args| > 0 && (args[0] == "info" || args[0] == "list")
    ensures Run(c, args) == Err(Invalid(UnknownCommand(UsageMessage)))
  {
  }

  /** Matching is case-sensitive: a command word holding any upper-case ASCII
      letter is rejected with the usage error, whatever the argument count. */
  lemma UpperCaseWordRejected(c: Coordinator, word: string, args: seq<string>)
    requires !Ascii.HasNoUpper(word)
    ensures Validate(c, word, args) == Err(UnknownCommand(UsageMessage))
  {
  }

  /** A word that differs from a version command only in letter case, such
      as "Add" or "REMOVE", is rejected with the usage error. */
  lemma {:induction false} CaseVariantRejected(c: Coordinator, word: string, args: seq<string>)
    requires IsVersionCommand(Ascii.Lower(word)) && word != Ascii.Lower(word)
    ensures Validate(c, word, args) == Err(UnknownCommand(UsageMessage))
  {
    Ascii.LowerFixesExactlyLowercase(word);
    UpperCaseWordRejected(c, word, args);
  }

  /** Each word the usage message advertises is rejected as a command, though
      its lower-case form is a word the dispatch of `main` matches. */
  lemma {:induction false} UsageWordsRejected(c: Coordinator, args: seq<string>)
    ensures forall i :: 0 <= i < |UsageWords| ==>
      Validate(c, UsageWords[i], args) == Err(UnknownCommand(UsageMessage))
    ensures forall i :: 0 <= i < |UsageWords| ==>
      Ascii.Lower(UsageWords[i]) in {"info", "add", "set", "list", "remove"}
  {
    forall i | 0 <= i < |UsageWords|
      ensures Validate(c, UsageWords[i], args) == Err(UnknownCommand(UsageMessage))
    {
      assert Ascii.IsUpper(UsageWords[i][0]);
      UpperCaseWordRejected(c, UsageWords[i], args);
    }
    assert Ascii.Lower("INFO") == "info";
    assert Ascii.Lower("ADD") == "add";
    assert Ascii.Lower("SET") == "set";
    assert Ascii.Lower("LIST") == "list";
    assert Ascii.Lower("REMOVE") == "remove";
  }

  /** A run succeeds exactly for a version command with one version, and then
      performs that command on that version, from the Coordinator `main` builds. */
  lemma RunDispatchesTheGivenVersion(command: string, version: string)
    requires IsVersionCommand(command)
    ensures Run(Initial(), [command, version]).Ok?
    ensures Word(Run(Initial(), [command, version]).value) == command
    ensures Run(Initial(), [command, version]).value.version == version
  {
  }

  /** The Coordinator `main` builds holds the fixed install root and no
      installed versions, and `info` reports exactly those values. */
  lemma InfoReportsInitialState()
    ensures Initial().path == "~/.config/noot" && Initial().installed == []
    ensures Execute(Initial(), Info) == (Initial(), ShowState("~/.config/noot", []))
  {
  }
}
