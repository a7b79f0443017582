# infogenai backend: agent registry and prompt dispatcher in Dafny

This project models the core of `backend.py` in infogenai, a small Flask service. It has
two parts.

- **Agent registry (`Manager`).** At startup it scans the `agents` package directory.
  For every file that ends in `.py` and is not `__init__.py`, it imports the module
  `agents.<name>` and takes the first class defined in that module itself. It
  instantiates that class and records the instance and its description (or
  `"No description provided"`) under `<name>`. Reads give the ordered
  `{name, description}` list and a lookup that never raises.
- **Dispatcher (`process_prompt`).** It trims the `Body` form field and routes on it.
  `list_agents` lists the registry. `system_prompt` returns the prompt generated once at
  startup, which numbers the agents from 1. Any other text is an article: every agent
  that has a `process_article` hook is called on it in registry order, the results are
  serialised, and an analysis placeholder is appended. Any exception becomes a body
  starting with `"Error processing your prompt: "`. The status is 200 on every path.

Files:

- `Wrappers.dfy`: `Option` and `Result`.
- `Text.dfy`: the Python `str` operations the code uses: `endswith`, `strip()` (with
  Python's full `str.isspace` character set), `"\n".join`, and decimal rendering of an
  `int` in an f-string. It also defines `Split` on one character. The code never calls
  `split`; `Split` only serves to state how a reply reads line by line.
- `Registry.dfy`: plug-in records, the pure loader `LoadAll` and the filter
  `ExpectedKeys` it is proved against, the `Manager` class, and `NewManager`.
  `Manager.LoadAgents` is the loop of `load_agents`, with its `break`, proved against
  `LoadAll`.
- `Prompt.dfy`: the agent lines, the numbered lines and `generate_system_prompt`.
- `Dispatch.dfy`: `process_prompt`. `CollectRagData` is the agent loop of the default
  branch, proved against `RagData`.

Reflection and foreign code become inputs:

- The directory listing is a `seq<string>`, in whatever order the platform gives it.
- `importlib` plus `inspect.getmembers` become a `ModuleTable`. It maps each importable
  module name to its classes in member order. A name that is missing fails to import.
- Each `PluginClass` records five things: its class name, its `__module__`, the
  `description` its instance has (if any), whether the instance has `process_article`,
  and whether the zero-argument constructor raises. An instance is represented by the
  class it was made from.
- `process_article` is a `Hook<V>` parameter that returns a value or raises with a
  message.
- `json.dumps` is a `Serializer<V>` parameter that returns text or raises with a
  message.

Two consequences of the code are worth stating:

- A plug-in file whose module defines no class of its own adds no entry
  (backend.py:28-36).
- A description may repeat an agent's name, so the prompt can name an agent more than
  once. What is proved is that line `i + 2` of the prompt is agent `i`'s numbered line.

## Model

| member | source | states |
|---|---|---|
| `Registry.AgentKey` | backend.py:22-23 | the agent name of a plug-in file, followed by `.py`, gives back the file name |
| `Registry.FirstLocalClass` | backend.py:28-29 | returns the first class whose `__module__` is the module itself; no earlier class is local; `None` exactly when no class is local |
| `Registry.Put` | backend.py:32-35 | assigning a dict key keeps the keys distinct and equal to the insertion order |
| `Registry.LoadAll` | backend.py:21-36 | loading a listing file by file, stopping at the first exception, yields a well-formed registry |
| `Registry.LoadAllErrSticks` | backend.py:25-30 | once an import or a constructor has raised, the rest of the listing changes nothing |
| `Registry.LoadAllOkIff` | backend.py:21-36 | loading succeeds iff every plug-in file's module imports and its chosen class can be instantiated (no per-plug-in recovery) |
| `Registry.ExpectedKeysMembers` | backend.py:21-29 | a name is registered iff `<name>.py` is listed, is not `__init__.py`, and its module defines a class of its own |
| `Registry.LoadedContents` | backend.py:21-36 | for distinct file names, a successful load holds the expected names in listing order; each entry holds the chosen class and its description or the default |
| `Registry.Manager.constructor` | backend.py:10-12 | a new manager holds an empty, well-formed registry |
| `Registry.Manager.LoadAgents` | backend.py:15-36 | the loop's final registry, or the exception that stopped it, is what `LoadAll` gives from the old registry; the registry stays well-formed |
| `Registry.NewManager` | backend.py:10-13 | construction is all-or-nothing: either a registry equal to `LoadAll` from empty, or the exception `LoadAll` reports |
| `Registry.Manager.AgentsList` | backend.py:38-42 | one `{name, description}` per entry, same length as the registry, in insertion order |
| `Registry.LoadedAgentsList` | backend.py:31 | after loading, the list is the expected names in listing order, each with the instance's description or exactly `"No description provided"` |
| `Registry.Manager.AgentByName` | backend.py:44-48 | total lookup: the stored instance for a registered name, `None` for any other name |
| `Registry.LoadedLookup` | backend.py:48 | after loading, lookup gives the chosen class for each registered name and `None` for every other name |
| `Text.Strip` | backend.py:74 | `strip()` keeps a slice of its input, drops only whitespace on either side, and leaves none at either end |
| `Text.StripPadded` | backend.py:68 | whitespace around a trimmed text is exactly what `strip()` removes |
| `Text.StripIdempotent` | backend.py:74 | stripping twice equals stripping once |
| `Text.SplitJoin` | backend.py:79 | `split` undoes `"\n".join` when there is at least one piece and no piece contains a line break |
| `Text.DecimalString` | backend.py:55 | an f-string renders a number as at least one digit, with no leading zero |
| `Text.ParseDecimalString` | backend.py:55 | the rendered digits read back as the same number |
| `Text.DecimalStringInjective` | backend.py:55 | different numbers are rendered differently |
| `Prompt.AgentLines` | backend.py:79 | one `name - description` line per agent, in order |
| `Prompt.NumberedLines` | backend.py:55 | line `i` is `i + first`, then `. `, then agent `i`'s line, for every agent in order (`first` is 1 in the prompt) |
| `Prompt.StripFilled` | backend.py:56-68 | stripping the triple-quoted template removes exactly its opening and closing line breaks |
| `Prompt.GenerateSystemPrompt` | backend.py:54-68 | the prompt is the introduction lines, the numbered agent lines and the closing text, with nothing stripped from inside |
| `Prompt.FilledLines` | backend.py:56-67 | read by lines, the filled template is the two introduction lines, the listed lines (one empty line if none) and the closing lines |
| `Prompt.SystemPromptLines` | backend.py:55-68 | read by lines, the prompt has agent `i` on the line numbered `i + 1`, between the introduction and the closing text |
| `Dispatch.TitledLines` | backend.py:79 | a title line followed by joined lines splits back into the title and the lines |
| `Dispatch.ListAgentsLines` | backend.py:77-80 | read by lines, the `list_agents` reply is `Available agents:` and then one `name - description` line per agent in registry order |
| `Dispatch.ListAgentsExample` | backend.py:79 | agents `a` (`D1`) and `b` (`D2`) are listed as `Available agents:\na - D1\nb - D2` |
| `Dispatch.HookedAgentsMembers` | backend.py:89-92 | an agent takes part in the default branch iff it is registered and has `process_article` |
| `Dispatch.RagDataContents` | backend.py:88-92 | when no hook raises, the keys of `rag_data` are exactly the hooked agents in registry order, each with the value its hook returned for the trimmed article |
| `Dispatch.RagDataFailure` | backend.py:86-98 | the default branch raises iff some hooked agent raises; the message is that of the first such agent in registry order |
| `Dispatch.RagDataErrSticks` | backend.py:89-92 | once a hook has raised, later agents contribute nothing |
| `Dispatch.CollectRagData` | backend.py:88-92 | the agent loop returns the `rag_data` that `RagData` describes, or the first hook's exception |
| `Dispatch.AnalysisErrorPrefix` | backend.py:94-98 | the default branch's reply starts with `Error processing your prompt: ` iff a hook or the serialiser raised |
| `Dispatch.ProcessPrompt` | backend.py:73-100 | status is always 200; the body is trimmed; exactly one of the three branches applies, by exact equality; the reply starts with the error prefix iff the default branch raised |

## Left out

- The Flask application, the route decorator, form parsing beyond the `Body` field, and
  `app.run` with its host and port are HTTP plumbing. The handler is a method from the
  optional `Body` value to (text, status).
- `os.listdir`, `os.path`, `importlib.import_module`, `inspect.getmembers` and `obj()`
  are reflection and file-system access. They are replaced by the listing and
  `ModuleTable` inputs. The model does not sort the members by class name. It takes
  the sequence in the order `getmembers` reports it.
- Plug-in top-level code, plug-in constructors and `process_article` bodies are
  foreign code. Only their observable outcome is modelled: import failure, a raising
  constructor, and a hook that returns or raises.
- The text `json.dumps` produces is a library format. It is the `Serializer` parameter.
- Descriptions are modelled as strings. A non-string `description` attribute, rendered
  through `str()` by the f-strings, is not modelled. Neither is `str(e)` for exception
  objects: a raised exception carries its message string.
- Exceptions other than a raising hook or serialiser inside the default branch's `try`
  block are not modelled.
- The registry's state after a failed load is not described. The half-built manager
  is discarded together with the exception, and `NewManager` returns only the error.
- `SYSTEM_PROMPT` is computed once at startup and cached. `ProcessPrompt` builds the
  prompt from the registry it is given. The result is the same, because the registry
  is not changed after startup.
- The module name `agents.<name>` is looked up as a plain string. Python's treatment
  of a dot inside `<name>` as a sub-package is left to the module table.
