# Fenced-code extraction and prompt composition of the data-visualization agent

The agent sends a user's question about an uploaded CSV file to a language
model and runs the Python code the model sends back. This project models the
two pieces of that pipeline that are plain text processing:

- **the code-block extractor** (`match_code_blocks`): the regular expression
  ```` ```python\n(.*?)\n``` ```` compiled with `re.DOTALL`, searched once in
  the model's reply. It returns the interior of the first match, or `""` when
  there is none. Module `CodeBlocks`, file `code_blocks.dfy`.
- **the prompt builder**: the fixed system instruction, with the dataset's
  display name in single quotes, followed by `"\n\nUser query: "` and the
  user's question. In the source this is the string built inside
  `chat_with_llm`. Module `Prompt`, file `prompt.dfy`.

Strings are `seq<char>`. Module `Text` (`text.dfy`) holds the string search
both pieces are stated in: `OccursAt`, `Contains`, `EndsWith` and `FindFrom`.

The regular expression is stated in two ways. `IsMatch(s, p, q)` says that
the pattern matches with its opener at `p` and its closer at `q`. With DOTALL
the group accepts any characters, so only the two fences constrain a match,
and the closer must start at or after the end of the opener.
`IsSearchResult` adds what `pattern.search` reports: the leftmost start, and
at that start the shortest group, because `.*?` is lazy. `Locate` computes
the same thing with two searches. It finds the first opener, then the first
closer at or after that opener's end. `MatchCodeBlocks` is proved against the
declarative reading. Every lemma about the extractor uses only that contract.

The closer is a line feed followed by three backticks, so it must begin with
its own line feed: the line feed that ends the opener cannot be shared with
it. Hence ```` "```python\n```" ```` is not an empty block, and
```` "```python\n```\nx\n```" ```` gives ```` "```\nx" ````
(`EmptyFenceNotABlock`; the second reply is `RoundTrip` with the code ```` "```\nx" ````).

Both modelled operations are functions: they are deterministic and have no
side effects, as in the source.

## Model

| member | source | states |
|---|---|---|
| Text.FindFrom | ai_visualization.py:44 | The first index at or after `from` where a pattern occurs, with no occurrence between `from` and it; `None` only when no occurrence exists from `from` on |
| CodeBlocks.Locate | ai_visualization.py:44 | The two-step search (first opener, then first closer at or after its end) gives exactly the leftmost, shortest regex match; `None` exactly when the pattern matches nowhere |
| CodeBlocks.MatchCodeBlocks | ai_visualization.py:43-45 | The result is the text strictly between the fences of the match the search reports, and `""` when the pattern matches nowhere |
| CodeBlocks.SearchResultUnique | ai_visualization.py:44 | At most one (opener, closer) pair is the leftmost, shortest match |
| CodeBlocks.ResultHasNoCloser | ai_visualization.py:21 | The extracted code never contains `"\n```"`, because the lazy group stops at the first closer |
| CodeBlocks.RoundTrip | ai_visualization.py:43-45 | For any code without `"\n```"`, however many line feeds it holds (DOTALL), wrapping it as ```` "```python\n" + code + "\n```" ```` and extracting gives the code back |
| CodeBlocks.MatchedPrefixStable | ai_visualization.py:44 | Once a text holds a match, appending anything leaves the reported match and the extracted code unchanged |
| CodeBlocks.FirstBlockWins | ai_visualization.py:44 | Only the first block counts: a well-formed block followed by anything at all, further blocks included, gives that block's code |
| CodeBlocks.SearchResultShifts | ai_visualization.py:44 | Prose without backticks in front of a text moves the reported match along by the prose's length and changes nothing else |
| CodeBlocks.LeadingProseIgnored | ai_visualization.py:44-45 | Prose without backticks before the reply changes nothing: the extracted code is the same, block or no block |
| CodeBlocks.BlockAfterProse | ai_visualization.py:43-45 | A reply made of backtick-free prose, one well-formed block and anything after it gives that block's code |
| CodeBlocks.NoOpenerGivesEmpty | ai_visualization.py:45 | A reply without ```` "```python\n" ```` gives `""` |
| CodeBlocks.UnclosedOpenerGivesEmpty | ai_visualization.py:44-45 | A reply whose first opener has no `"\n```"` anywhere after it gives `""` |
| CodeBlocks.EmptyResultIff | ai_visualization.py:45 | The result is `""` exactly when there is no match or the reported match has an empty group; the caller cannot tell these apart |
| CodeBlocks.EmptyFenceNotABlock | ai_visualization.py:21 | ```` "```python\n```" ```` is not an empty block: the closer needs its own line feed, so with no closer later in the text the result is `""` |
| CodeBlocks.WrongTagNotAnOpener | ai_visualization.py:21 | The tag is matched exactly: for every reply that starts with ```` "```py\n" ````, ```` "```Python\n" ```` or ```` "```python\r\n" ```` and holds no exact opener after it, the result is `""` |
| Prompt.SystemPrompt | ai_visualization.py:50-61 | The instruction starts with the role statement, holds the dataset name in single quotes right after it, and shows the sample block ```` "```python\n# code here\n```" ```` |
| Prompt.ComposePrompt | ai_visualization.py:63 | The prompt starts with the role statement, contains `"'" + datasetName + "'"` right after it and ends with `"\n\nUser query: " + userMessage` |
| Prompt.QueryRecovered | ai_visualization.py:63 | For a known dataset name, the query is read back exactly from the prompt built from it |
| Prompt.RecoveredQueryComposes | ai_visualization.py:63 | Whatever is read back as a query rebuilds the very prompt it was read from |
| Prompt.ComposePromptInjective | ai_visualization.py:63 | For one dataset name, different queries give different prompts |
| Prompt.NoBacktickInPreamble | ai_visualization.py:51-52 | The role statement holds no backtick |
| Prompt.NoBacktickInUseDataFrameLine | ai_visualization.py:53 | The line that names `df` holds no backtick |
| Prompt.NoBacktickInLibrariesLine | ai_visualization.py:54 | The line that names the libraries holds no backtick |
| Prompt.NoBacktickInInstructionsHead | ai_visualization.py:52-55 | Nothing between the dataset name and the sample block holds a backtick |
| Prompt.EchoedPromptYieldsSample | ai_visualization.py:55-58 | The sample block is in the format the extractor accepts: extracting from the whole prompt gives `"# code here"` when the dataset name holds no backtick |

`Prompt.UserQueryOf` has no row. It does not come from the source. It is the
inverse that `QueryRecovered` and `RecoveredQueryComposes` relate the prompt
builder to.

## Left out

- `run_local_code` (ai_visualization.py:24-40) is not modelled. It runs
  untrusted code with `exec` and redirects standard output and error. None of
  that can be expressed here.
- The Gemini call in `chat_with_llm` (ai_visualization.py:65-70) is not
  modelled. It is a network call. Its reply is the free input `s` of
  `MatchCodeBlocks`. The pair `(python_code, response_text)` that
  `chat_with_llm` returns is not modelled either.
- `main` (ai_visualization.py:73-166) is not modelled. It is Streamlit user
  interface code: the API-key gate, the upload, CSV parsing, the preview and
  the rendering passes over figures, charts and tables, all of it depending on
  library types.
- The caller's check that skips execution when the extracted code is empty
  (ai_visualization.py:123-125) is not modelled as such. `EmptyResultIff`
  shows what it cannot see: a missing block and an empty block both give `""`.
- Python strings are sequences of code points, and Dafny's `char` is a
  Unicode scalar value. Lone surrogates, which a Python string can hold and a
  Dafny string cannot, are outside the model.
- Prompt.EchoedPromptYieldsSample: requires the dataset name to hold no
  backtick. A name holding ```` "```python\n" ```` followed later by a closer
  would start an earlier block.
