# run_pipeline, modelled in Dafny

`run_pipeline` in `core/executor.py` answers a question about a data set in
four steps:

1. It asks a code-writing language-model chain for a Python script.
2. It cuts the script out of the first `<code>…</code>` pair and strips it.
3. It runs the script with `exec`. The script sees the caller's `data` and a
   fresh `result` dict.
4. It asks a second chain for a one-line summary of that dict, cut out of
   `<one-line-summary>…</one-line-summary>` tags.

It returns a triple: an answer (the summary or an error message), the code
block, and the dict. The third value is `""` on both failure paths. The
second is `""` when no code block was found, and also when the block found
is empty or all whitespace (`<code></code>`); such a block is still
executed.

The model has four modules:

- `Options` (options.dfy): the `Option` type, which stands for Python's `None`.
- `Text` (text.dfy): a search for the first occurrence of a pattern, and
  `str.strip()` over an explicit whitespace set.
- `Extraction` (extraction.dfy): `re.search(open + "(.*?)" + close, text,
  re.DOTALL)` followed by `group(1).strip()`. It is written once as
  `Extract(open, close, text)` and proved against a reference definition.
  That definition picks the leftmost match, and the shortest one at that
  start.
- `Executor` (executor.dfy): the pipeline.

In `Executor`, the two chains and `exec` are function parameters. `exec` is
a function from the script, `data` and the initial dict to one of two
outcomes:

- `Completed(dict, globals)`: the final contents of the dict object created
  at line 4, plus the final globals namespace, where the script may have
  rebound the name `result`;
- `Raised(error)`: the text of the raised exception.

Every call the pipeline makes to a chain or to `exec` is recorded in order
in `Run.calls`, so the model can state how often each is called and in what
order.

A script that rebinds the global name `result` changes nothing in what is
returned: the returned dict is always the object created at line 4
(`RebindingResultIgnored`).

## Model

| member | source | states |
|---|---|---|
| Text.FindFrom | core/executor.py:6 | the position found is the first occurrence of the pattern at or after `from`; `None` exactly when there is no occurrence at or after `from` |
| Text.Strip | core/executor.py:9 | the result is no longer than the input and has no whitespace at either end |
| Text.StripCharacterised | core/executor.py:9 | where `s[a..b]` has no whitespace at its ends and everything outside it is whitespace, `Strip(s)` is exactly `s[a..b]` |
| Text.StripUnique | core/executor.py:9 | stripping whitespace, then `r`, then whitespace gives `r` when `r` has no whitespace at its ends |
| Text.StripLeavesUnchanged | core/executor.py:9 | a string with no whitespace at its ends is its own strip |
| Text.StripIdempotent | core/executor.py:9 | stripping twice is the same as stripping once |
| Text.StripIgnoresSurroundingSpace | core/executor.py:9 | adding whitespace at either end does not change the strip |
| Text.NoStraddle | core/executor.py:6 | for a tag whose first character does not recur in it, an occurrence in `x + tag` that starts inside `x` lies wholly inside `x` |
| Text.AbsentFirstChar | core/executor.py:6-7 | a text without the tag's first character has no occurrence of the tag |
| Extraction.Search | core/executor.py:6 | `None` exactly when no opening tag is followed, at or after its end, by a closing tag; otherwise the pair found is the leftmost opening tag with the first closing tag after it, as the reference predicate `IsSearchResult` defines |
| Extraction.Capture | core/executor.py:6-9 | `None` exactly when there is no match; otherwise group 1 of the leftmost-shortest match, the text between the tags |
| Extraction.Extract | core/executor.py:6-9 | `None` exactly when no opening tag is followed by a closing tag; otherwise the stripped text between the tags of the leftmost-shortest match |
| Extraction.CaptureExcludesClose | core/executor.py:6 | the captured text never contains the closing tag |
| Extraction.ExtractExcludesClose | core/executor.py:6-9 | the extracted block never contains the closing tag |
| Extraction.ExtractIsStripped | core/executor.py:9 | the extracted block has no whitespace at its ends, and stripping it again leaves it unchanged |
| Extraction.ExtractFramed | core/executor.py:6-9 | for a text of the form `pre + open + c + close + post`, with no opening tag starting at an index inside `pre` (in `pre + open`) and no closing tag starting at an index inside `c` (in `c + close`), the result is `Strip(c)` |
| Extraction.ExtractBetween | core/executor.py:6-9 | the same, stated on the slices of the text |
| Executor.CodeBlock | core/executor.py:6-9 | the code search of line 6 and the strip of line 9: `None` exactly when no `<code>` is followed by `</code>`, otherwise the stripped group 1 of the leftmost-shortest match; `CodeBlockFramed` and `ReturnedCodeIsClean` state what that block is |
| Executor.SummaryBlock | core/executor.py:15-16 | the summary search of line 15 and the strip of line 16: `None` exactly when no `<one-line-summary>` is followed by `</one-line-summary>`, otherwise the stripped group 1 of the leftmost-shortest match; `SummaryBlockFramed` and `SummaryIsClean` state what that block is |
| Executor.CodeBlockFramed | core/executor.py:6-9 | a script framed by `<code>` and `</code>` is found whatever surrounds it, when no `<code>` comes before it and no `</code>` inside it, and is returned stripped |
| Executor.SummaryBlockFramed | core/executor.py:15-16 | the same for the summary tags |
| Executor.CodeBlockTagged | core/executor.py:6-9 | an answer that starts with `<code>`, and in whose block `<` does not occur, gives the stripped block |
| Executor.SummaryBlockTagged | core/executor.py:15-16 | the same for the summary tags |
| Executor.CodeBlockExample | core/executor.py:6-9 | `"<code> result['x']=1+1 \n</code>"` gives `"result['x']=1+1"` |
| Executor.MultiLineCodeBlockExample | core/executor.py:6-9 | a block spanning two lines is captured whole, newline included, and the search stops at the first `</code>` |
| Executor.SummaryText | core/executor.py:15-16 | `"Summary not found."` when no `<one-line-summary>` is followed by `</one-line-summary>`; otherwise the stripped text between the tags of the leftmost-shortest match |
| Executor.SummaryIsClean | core/executor.py:15-16 | a summary is either the placeholder or stripped text that never contains `</one-line-summary>` |
| Executor.SummaryExample | core/executor.py:15-16 | `"<one-line-summary> x is 2 </one-line-summary>"` gives `"x is 2"` |
| Executor.RunPipeline | core/executor.py:3-17 | the code chain is called first and exactly once. With no code block: `("Code not found", "", "")` and no other call. Otherwise the block is executed once with the caller's `data` and an empty dict. If it raises: `("Execution error: " + message, block, "")`, and the summary chain is not called. If it finishes: the summary chain is called once, on that dict, and the result is `(summary or placeholder, block, dict)` |
| Executor.ReturnedCodeIsClean | core/executor.py:7-9 | the code block returned is stripped, stripping it again changes nothing, and it never contains `</code>` (on the no-block path it is `""`) |
| Executor.FailureKinds | core/executor.py:7-17 | the third value is `""` exactly on the two failure paths; on a failure the answer is `"Code not found"` exactly when no code block was found |
| Executor.RebindingResultIgnored | core/executor.py:4-17 | two scripts that raise the same error, or leave the same contents in the `result` dict object, give the same run, whatever they did to the globals namespace |
| Executor.SuccessExample | core/executor.py:3-17 | the worked example: the script `result['x']=1+1` leaves `{"x": 2}`; the summary chain answers `" x is 2 "` in tags; the run returns `("x is 2", "result['x']=1+1", {"x": 2})` after exactly the three calls |
| Executor.SummaryMissingExample | core/executor.py:14-17 | a summary answer in which `<` does not occur gives `"Summary not found."`, still with the code block and the dict |
| Executor.ExecutionErrorExample | core/executor.py:10-13 | the script `result['x']=1/0`, raising `division by zero` gives `("Execution error: division by zero", block, "")` after two calls |
| Executor.EmptyBlockExample | core/executor.py:6-17 | an answer whose block is empty or all whitespace counts as found: the empty script is executed with the caller's `data` and, when it finishes, the run returns `""` as the code and the dict as the third value |
| Executor.CodeNotFoundExample | core/executor.py:5-8 | an answer without `<` gives `("Code not found", "", "")` after the single code-chain call |

## Left out

- The two language-model chains (`code_chain.run`, `summary_chain.run`) are opaque function parameters. What text they generate is not modelled.
- `exec` is an uninterpreted function parameter. Running Python is not modelled, and neither are the script's side effects on `data` or on anything other than the `result` dict.
- Python object identity: `data` is passed to `exec` as a value. The model cannot tell the caller's object from a copy; it only states that the value passed to `exec` is the caller's `data`.
- The summary chain receives the dict as a value. A chain that mutated that dict before it was returned is not modelled.
- Only exceptions raised by the script are caught, as the code catches `Exception` around `exec` alone. Exceptions from the chains, and `BaseException` subclasses such as `KeyboardInterrupt`, abort the call in Python. They have no counterpart in the model.
- Text.IsSpace: `str.strip()` is modelled with the ASCII whitespace set (space, `\t`, `\n`, `\r`, `\x0b`, `\x0c`). Python also strips other Unicode whitespace: `\x1c`–`\x1f`, `\x85`, `\xa0`, the other Unicode space separators, U+2028, U+2029, and every other character `str.isspace()` accepts.
- The regular expression engine as a whole: only the one pattern shape the code uses, a literal tag, a lazy `(.*?)` under `re.DOTALL`, then a literal tag, is modelled, by what it matches.
- Executor.RunPipeline: the dict's insertion order is not modelled. The dict is a `map`, so the summary chain sees only its contents, and `RebindingResultIgnored` compares contents only. In Python, two scripts that insert the same keys in a different order give different `str(dict)` text in the summary prompt.
- `exec` and both chains are assumed to return. A script that never finishes hangs `run_pipeline`, because nothing limits the time `exec` may take at core/executor.py:11; the model has no such run.
- The dict's keys and values are generic types. Python's dynamic typing of the dict is not modelled.
- The code has no repair or retry loop, no fallback to fenced code blocks and no normalisation of the result, so the model has none either.
- core/model.py (model loading and sampling parameters), app.py (the Streamlit interface and file upload) and config/prompts.py (constant prompt templates) are not part of this model.
- langchain-pipeline1.py is not part of this model. It is an interactive script that reports through `print`, and its tag extractions are the ones modelled here.
