# noot command runner, modelled in Dafny

noot is a small, opinionated node version manager. Its whole program is
`src/main.rs`. `main` collects the words after the program name and builds a
`Coordinator` whose install root is `~/.config/noot` and whose list of
installed versions is empty. It then calls `validate` on the first word and
the whole word list, and dispatches on the first word to `info`, `add`, `set`,
`remove` or `list`. The five operations only print. The program stops with a
panic on a bad command line.

The model is pure. It has two modules:

- `Noot` (`noot.dfy`) holds the `Coordinator` value and the error and
  action types. `Validate` models `validate`. `At` models Rust's `args[i]`.
  `Run` models validate-then-dispatch. `Execute` models the five `&self`
  operations, and `Entry` models one whole run of `main`. Each panic is an
  error value: a failed `assert!` is `WrongVersionCount` with the assertion's
  message, the usage `panic!` is `UnknownCommand` with the usage message, and
  an index past the end is `IndexOutOfBounds`.
- `Ascii` (`ascii.dfy`) holds ASCII lower-casing. It is used to state that
  command matching is case-sensitive.

What the proofs show about the program as written:

- `validate` accepts only `add`, `set` and `remove`, and only with exactly
  two words (the command and one version).
- `info` and `list` are always rejected, so the `info` and `list` arms of the
  dispatch, and its fallback panic, can never be reached.
- The upper-case words of the usage message (`INFO`, `ADD`, ...) are rejected.
- An empty word list fails at `args[0]`, before validation runs.
- After a successful validation, `args[1]` is in bounds and is the version
  that gets dispatched.

Matching is exact string equality. Dafny compares strings as sequences of
Unicode scalar values, and two such sequences are equal exactly when their
UTF-8 encodings are equal, so this is the same test as Rust's `&str`
comparison.

`validate` has no installed-version check: `set` and `remove` accept any
version string, as `add` does.

## Model

| member | source | states |
|---|---|---|
| `Noot.Initial` | src/main.rs:89-92 | The Coordinator that `main` builds has path `~/.config/noot` and no installed versions. |
| `Noot.Validate` | src/main.rs:47-66 | Accepts exactly when the command is `add`, `set` or `remove` and the word list has length 2. A version command with any other length fails with that command's own assertion message ("... to install", "... to set", "... to remove"). Every other word fails with the usage error. |
| `Noot.At` | src/main.rs:94 | Indexing the word list succeeds exactly when the index is in bounds and gives that word. Otherwise it is the out-of-bounds failure carrying the index and the length. |
| `Noot.Run` | src/main.rs:94-103 | An empty word list fails at `args[0]` before validation. Otherwise the run fails exactly when validation fails, with validation's error, so neither the `args[1]` access nor the fallback panic ever fails. A successful run dispatches `Add`, `Set` or `Remove` for the given command word (never `Info` or `List`) with `args[1]` as the version. |
| `Noot.Versioned` | src/main.rs:98-100 | A dispatch arm that passes `args[1]` succeeds exactly when the word list has more than one word, and then gives its operation applied to `args[1]`. Otherwise it is the out-of-bounds failure at index 1. |
| `Noot.Execute` | src/main.rs:42-83 | Every operation leaves the Coordinator unchanged. `info` reports its path and installed list, `list` its fixed line, and `add`/`set`/`remove` the version they were given. |
| `Noot.Entry` | src/main.rs:86-104 | A run of `main` succeeds exactly for a version command followed by one version. The Coordinator afterwards is still `~/.config/noot` with nothing installed. The output is the operation that `args[0]` names (add, set or remove), applied to `args[1]`. An empty word list fails at `args[0]`, and every other failure is `validate`'s error. |
| `Noot.InfoAndListRejected` | src/main.rs:48-64 | `info` and `list`, whatever follows them, end with the usage error, so their dispatch arms are unreachable. |
| `Noot.UpperCaseWordRejected` | src/main.rs:48-64 | Any command word containing an upper-case ASCII letter is rejected with the usage error, whatever the word count. |
| `Noot.CaseVariantRejected` | src/main.rs:48-64 | A word that differs from `add`, `set` or `remove` only in letter case (for example `Add` or `REMOVE`) is rejected with the usage error. |
| `Noot.UsageWordsRejected` | src/main.rs:64 | Each word the usage message advertises (`INFO`, `ADD`, `SET`, `LIST`, `REMOVE`) is rejected as a command, even though its lower-case form is one of the dispatched words. |
| `Noot.RunDispatchesTheGivenVersion` | src/main.rs:94-100 | For each version command and any version, the two-word run from the initial Coordinator succeeds, dispatching that command with that version (for example `["set", "18.0.0"]` gives `Set("18.0.0")`). |
| `Noot.InfoReportsInitialState` | src/main.rs:43-45 | The Coordinator that `main` builds has path `~/.config/noot` and an empty installed list, and `info` on it reports exactly those values and leaves it unchanged. |

## Left out

- Printing: the text `println!` writes in `info`, `list`, `add`, `set` and `remove` is not modelled. The `Output` value records only what each line shows.
- Reading the process arguments (`env::args().skip(1)`): the word list is a parameter of `Run` and `Entry`.
- Panic and abort mechanics: a panic is an error value, and the process exit status is not modelled.
- Downloading, extracting, symlink switching, and scanning for installed versions: `src/main.rs` does none of these, so they are not modelled.
