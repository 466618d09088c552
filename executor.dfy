/**
 * `run_pipeline` of core/executor.py: ask the code chain for a script, cut
 * the script out of the `<code>` tags, run it with `exec` against the
 * caller's `data` and a fresh `result` dict, then ask the summary chain for
 * a one-line summary of that dict and cut it out of its tags.
 *
 * The two language-model chains and `exec` are parameters: the model says
 * how the pipeline uses them, not what they compute. Every call the
 * pipeline makes to one of them is recorded, in order, in `Run.calls`.
 */
module Executor {
  import opened Options
  import opened Text
  import opened Extraction

  const CodeOpen := "<code>"
  const CodeClose := "</code>"
  const SummaryOpen := "<one-line-summary>"
  const SummaryClose := "</one-line-summary>"

  const CodeNotFound := "Code not found"
  const ExecutionErrorPrefix := "Execution error: "
  const SummaryNotFound := "Summary not found."

  /** What `exec(code, {"data": data, "result": result})` does: it either
      finishes, leaving the dict object created for `result` with contents
      `dict` and the globals namespace in state `globals` (where the script
      may have rebound the name `result` to anything), or raises an
      exception whose `str` is `error`. */
  datatype ExecOutcome<K, V, G> = Completed(dict: map<K, V>, globals: G) | Raised(error: string)

  /** The third value returned: the empty string `""` on both failure paths,
      the `result` dict on success. */
  datatype ReturnedResult<K, V> = EmptyString | Dict(entries: map<K, V>)

  /** The triple `run_pipeline` returns. `answer` is the summary on success
      and the error message otherwise. */
  datatype Outcome<K, V> = Outcome(answer: string, code: string, result: ReturnedResult<K, V>)

  /** One call out of the pipeline: `code_chain.run(query=...)`, `exec` on a
      script with the given `data` and `result` bindings, and
      `summary_chain.run(query=..., result=...)`. */
  datatype Call<D, K, V> =
    | CodeChainRun(query: string)
    | Exec(code: string, data: D, initial: map<K, V>)
    | SummaryChainRun(query: string, result: map<K, V>)

  datatype Run<D, K, V> = Run(outcome: Outcome<K, V>, calls: seq<Call<D, K, V>>)

  /** `re.search(r"<code>(.*?)</code>", text, re.DOTALL)`, group 1, stripped. */
  function CodeBlock(text: string): (r: Option<string>)
    ensures r.None? <==> forall i: nat, j: nat :: !IsMatch(CodeOpen, CodeClose, text, i, j)
    ensures forall i: nat, j: nat :: IsSearchResult(CodeOpen, CodeClose, text, i, j) ==>
      r == Some(Strip(text[i + |CodeOpen|..j]))
  {
    Extract(CodeOpen, CodeClose, text)
  }

  /** The same search with the `<one-line-summary>` tags. */
  function SummaryBlock(text: string): (r: Option<string>)
    ensures r.None? <==> forall i: nat, j: nat :: !IsMatch(SummaryOpen, SummaryClose, text, i, j)
    ensures forall i: nat, j: nat :: IsSearchResult(SummaryOpen, SummaryClose, text, i, j) ==>
      r == Some(Strip(text[i + |SummaryOpen|..j]))
  {
    Extract(SummaryOpen, SummaryClose, text)
  }

  /** The summary of line 16: the extracted block, or the placeholder when
      the summary tags are missing. */
  function SummaryText(output: string): (s: string)
    ensures (forall i: nat, j: nat :: !IsMatch(SummaryOpen, SummaryClose, output, i, j)) ==>
      s == SummaryNotFound
    ensures forall i: nat, j: nat :: IsSearchResult(SummaryOpen, SummaryClose, output, i, j) ==>
      s == Strip(output[i + |SummaryOpen|..j])
  {
    match SummaryBlock(output)
    case Some(block) => block
    case None => SummaryNotFound
  }

  /** A summary is either the placeholder or a stripped text that never
      contains the closing tag. */
  lemma {:induction false} SummaryIsClean(output: string)
    ensures var s := SummaryText(output);
      s == SummaryNotFound
      || (NoEdgeSpace(s) && Strip(s) == s && forall k: nat :: !StartsAt(SummaryClose, s, k))
  {
    if SummaryBlock(output).Some? {
      ExtractIsStripped(SummaryOpen, SummaryClose, output);
      forall k: nat ensures !StartsAt(SummaryClose, SummaryBlock(output).value, k) {
        ExtractExcludesClose(SummaryOpen, SummaryClose, output, k);
      }
    }
  }

  /** The effect of a script that `run_pipeline` can observe: the error it
      raised, or the final contents of the `result` dict object. The final
      globals namespace, and so any rebinding of the name `result`, is not
      part of it. */
  ghost predicate SameEffect<K, V, G1, G2>(a: ExecOutcome<K, V, G1>, b: ExecOutcome<K, V, G2>) {
    match a
    case Raised(e) => b.Raised? && b.error == e
    case Completed(d, _) => b.Completed? && b.dict == d
  }

  /** `run_pipeline(query, code_chain, summary_chain, data)`. */
  function RunPipeline<D, K, V, G>(
    query: string,
    codeChain: string -> string,
    summaryChain: (string, map<K, V>) -> string,
    exec: (string, D, map<K, V>) -> ExecOutcome<K, V, G>,
    data: D): (r: Run<D, K, V>)
    // The code chain is asked first, exactly once, and at most two calls follow.
    ensures 1 <= |r.calls| <= 3 && r.calls[0] == CodeChainRun(query)
    ensures forall k :: 0 < k < |r.calls| ==> !r.calls[k].CodeChainRun?
    // No code block: nothing is executed and the summary chain is not asked.
    ensures CodeBlock(codeChain(query)).None? ==>
      r.outcome == Outcome(CodeNotFound, "", EmptyString) && |r.calls| == 1
    // A code block is executed once, on the caller's data, with a fresh empty dict.
    ensures CodeBlock(codeChain(query)).Some? ==>
      var code := CodeBlock(codeChain(query)).value;
      r.outcome.code == code && |r.calls| >= 2 && r.calls[1] == Exec(code, data, map[])
    // The script raised: its message is reported and the summary chain is not asked.
    ensures CodeBlock(codeChain(query)).Some? ==>
      var code := CodeBlock(codeChain(query)).value;
      exec(code, data, map[]).Raised? ==>
        r.outcome == Outcome(ExecutionErrorPrefix + exec(code, data, map[]).error, code, EmptyString)
        && |r.calls| == 2
    // The script finished: the summary chain is asked once, about the dict
    // the script left, and that dict is returned.
    ensures CodeBlock(codeChain(query)).Some? ==>
      var code := CodeBlock(codeChain(query)).value;
      exec(code, data, map[]).Completed? ==>
        var dict := exec(code, data, map[]).dict;
        r.outcome == Outcome(SummaryText(summaryChain(query, dict)), code, Dict(dict))
        && |r.calls| == 3 && r.calls[2] == SummaryChainRun(query, dict)
  {
    var result := map[];
    var llmCodeOutput := codeChain(query);
    match CodeBlock(llmCodeOutput)
    case None =>
      Run(Outcome(CodeNotFound, "", EmptyString), [CodeChainRun(query)])
    case Some(codeBlock) =>
      var calls := [CodeChainRun(query), Exec(codeBlock, data, result)];
      match exec(codeBlock, data, result)
      case Raised(e) =>
        Run(Outcome(ExecutionErrorPrefix + e, codeBlock, EmptyString), calls)
      case Completed(dict, _) =>
        var summaryOutput := summaryChain(query, dict);
        Run(Outcome(SummaryText(summaryOutput), codeBlock, Dict(dict)),
            calls + [SummaryChainRun(query, dict)])
  }

  /** The code block handed to `exec` and returned is stripped and never
      contains `</code>`; it is empty when no block was found. */
  lemma {:induction false} ReturnedCodeIsClean<D, K, V, G>(
    query: string,
    codeChain: string -> string,
    summaryChain: (string, map<K, V>) -> string,
    exec: (string, D, map<K, V>) -> ExecOutcome<K, V, G>,
    data: D)
    ensures var code := RunPipeline(query, codeChain, summaryChain, exec, data).outcome.code;
      NoEdgeSpace(code) && Strip(code) == code && forall k: nat :: !StartsAt(CodeClose, code, k)
  {
    var output := codeChain(query);
    if CodeBlock(output).Some? {
      ExtractIsStripped(CodeOpen, CodeClose, output);
      forall k: nat ensures !StartsAt(CodeClose, CodeBlock(output).value, k) {
        ExtractExcludesClose(CodeOpen, CodeClose, output, k);
      }
    }
  }

  /** A block between `<code>` and `</code>` is found whatever surrounds it,
      provided no `<code>` comes before the frame and no `</code>` inside
      it, and is returned stripped. */
  lemma {:induction false} CodeBlockFramed(text: string, pre: string, c: string, post: string)
    requires text == pre + CodeOpen + c + CodeClose + post
    requires forall k: nat :: !StartsAt(CodeOpen, pre, k)
    requires forall k: nat :: !StartsAt(CodeClose, c, k)
    ensures CodeBlock(text) == Some(Strip(c))
  {
    forall k: nat | k < |pre| ensures !StartsAt(CodeOpen, pre + CodeOpen, k) {
      NoStraddle(CodeOpen, pre, k);
    }
    forall k: nat | k < |c| ensures !StartsAt(CodeClose, c + CodeClose, k) {
      NoStraddle(CodeClose, c, k);
    }
    ExtractFramed(CodeOpen, CodeClose, text, pre, c, post);
  }

  /** The same for the `<one-line-summary>` tags. */
  lemma {:induction false} SummaryBlockFramed(text: string, pre: string, c: string, post: string)
    requires text == pre + SummaryOpen + c + SummaryClose + post
    requires forall k: nat :: !StartsAt(SummaryOpen, pre, k)
    requires forall k: nat :: !StartsAt(SummaryClose, c, k)
    ensures SummaryBlock(text) == Some(Strip(c))
  {
    forall k: nat | k < |pre| ensures !StartsAt(SummaryOpen, pre + SummaryOpen, k) {
      NoStraddle(SummaryOpen, pre, k);
    }
    forall k: nat | k < |c| ensures !StartsAt(SummaryClose, c + SummaryClose, k) {
      NoStraddle(SummaryClose, c, k);
    }
    ExtractFramed(SummaryOpen, SummaryClose, text, pre, c, post);
  }

  /** A block with no `<` in it, between the two code tags, is extracted
      stripped, whatever follows the closing tag. */
  lemma {:induction false} CodeBlockTagged(text: string, c: string, post: string)
    requires CodeClose[0] !in c && text == CodeOpen + c + CodeClose + post
    ensures CodeBlock(text) == Some(Strip(c))
  {
    AbsentFirstChar(CodeClose, c);
    CodeBlockFramed(text, "", c, post);
  }

  /** The same for the summary tags. */
  lemma {:induction false} SummaryBlockTagged(text: string, c: string, post: string)
    requires SummaryClose[0] !in c && text == SummaryOpen + c + SummaryClose + post
    ensures SummaryBlock(text) == Some(Strip(c))
  {
    AbsentFirstChar(SummaryClose, c);
    SummaryBlockFramed(text, "", c, post);
  }

  /** `"<code> result['x']=1+1 \n</code>"` gives `"result['x']=1+1"`. */
  lemma {:induction false} CodeBlockExample(text: string, c: string, code: string)
    requires code == "result['x']=1+1" && c == " " + code + " \n"
    requires text == CodeOpen + c + CodeClose
    ensures CodeBlock(text) == Some(code)
  {
    assert CodeClose[0] !in c;
    CodeBlockTagged(text, c, "");
    StripUnique(" ", code, " \n");
  }

  /** The block may span lines, and it ends at the first `</code>`: a later
      `</code>` is not part of it. */
  lemma {:induction false} MultiLineCodeBlockExample(text: string, c: string)
    requires c == "a = 1\nb = 2" && text == CodeOpen + c + CodeClose + " done" + CodeClose
    ensures CodeBlock(text) == Some(c)
  {
    assert CodeClose[0] !in c;
    CodeBlockTagged(text, c, " done" + CodeClose);
    StripLeavesUnchanged(c);
  }

  /** The third value is `""` exactly on the two failure paths, and there
      the message tells them apart: it is "Code not found" exactly when no
      code block was found. */
  lemma {:induction false} FailureKinds<D, K, V, G>(
    query: string,
    codeChain: string -> string,
    summaryChain: (string, map<K, V>) -> string,
    exec: (string, D, map<K, V>) -> ExecOutcome<K, V, G>,
    data: D)
    ensures var r := RunPipeline(query, codeChain, summaryChain, exec, data);
      var block := CodeBlock(codeChain(query));
      && (r.outcome.result.EmptyString? <==>
            block.None? || exec(block.value, data, map[]).Raised?)
      && (r.outcome.result.EmptyString? ==> (r.outcome.answer == CodeNotFound <==> block.None?))
  {
    var block := CodeBlock(codeChain(query));
    if block.Some? && exec(block.value, data, map[]).Raised? {
      var message := ExecutionErrorPrefix + exec(block.value, data, map[]).error;
      assert |message| > |CodeNotFound|;
    }
  }

  /** What the script leaves in its globals namespace, including any new
      binding of the name `result`, does not change the run: only the error
      it raised, or the final contents of the dict object created for
      `result`, does. */
  lemma {:induction false} RebindingResultIgnored<D, K, V, G1, G2>(
    query: string,
    codeChain: string -> string,
    summaryChain: (string, map<K, V>) -> string,
    exec1: (string, D, map<K, V>) -> ExecOutcome<K, V, G1>,
    exec2: (string, D, map<K, V>) -> ExecOutcome<K, V, G2>,
    data: D)
    requires CodeBlock(codeChain(query)).Some? ==>
      var code := CodeBlock(codeChain(query)).value;
      SameEffect(exec1(code, data, map[]), exec2(code, data, map[]))
    ensures RunPipeline(query, codeChain, summaryChain, exec1, data)
         == RunPipeline(query, codeChain, summaryChain, exec2, data)
  {
    var block := CodeBlock(codeChain(query));
    if block.Some? {
      var o1, o2 := exec1(block.value, data, map[]), exec2(block.value, data, map[]);
      if o1.Completed? {
        assert o2.Completed? && o2.dict == o1.dict;
      }
    }
  }

  /** `"<one-line-summary> x is 2 </one-line-summary>"` gives `"x is 2"`. */
  lemma {:induction false} SummaryExample(output: string, s: string, summary: string)
    requires summary == "x is 2" && s == " " + summary + " "
    requires output == SummaryOpen + s + SummaryClose
    ensures SummaryText(output) == summary
  {
    assert SummaryClose[0] !in s;
    SummaryBlockTagged(output, s, "");
    StripUnique(" ", summary, " ");
  }

  /** The worked example: the script is cut out of its tags, run on a
      fresh dict, and the summary of the dict it leaves is returned with it. */
  lemma {:induction false} SuccessExample<D, G>(
    query: string,
    codeChain: string -> string,
    summaryChain: (string, map<string, int>) -> string,
    exec: (string, D, map<string, int>) -> ExecOutcome<string, int, G>,
    data: D, code: string, c: string, summary: string, s: string)
    requires code == "result['x']=1+1" && c == " " + code + " \n"
    requires codeChain(query) == CodeOpen + c + CodeClose
    requires exec(code, data, map[]).Completed?
    requires exec(code, data, map[]).dict == map["x" := 2]
    requires summary == "x is 2" && s == " " + summary + " "
    requires summaryChain(query, map["x" := 2]) == SummaryOpen + s + SummaryClose
    ensures var r := RunPipeline(query, codeChain, summaryChain, exec, data);
      && r.outcome == Outcome(summary, code, Dict(map["x" := 2]))
      && r.calls == [CodeChainRun(query), Exec(code, data, map[]),
                     SummaryChainRun(query, map["x" := 2])]
  {
    CodeBlockExample(codeChain(query), c, code);
    SummaryExample(summaryChain(query, map["x" := 2]), s, summary);
  }

  /** Without summary tags in the second answer the placeholder is
      returned, still with the code block and the dict. */
  lemma {:induction false} SummaryMissingExample<D, G>(
    query: string,
    codeChain: string -> string,
    summaryChain: (string, map<string, int>) -> string,
    exec: (string, D, map<string, int>) -> ExecOutcome<string, int, G>,
    data: D, code: string, c: string)
    requires code == "result['x']=1+1" && c == " " + code + " \n"
    requires codeChain(query) == CodeOpen + c + CodeClose
    requires exec(code, data, map[]).Completed?
    requires exec(code, data, map[]).dict == map["x" := 2]
    requires SummaryOpen[0] !in summaryChain(query, map["x" := 2])
    ensures RunPipeline(query, codeChain, summaryChain, exec, data).outcome
         == Outcome(SummaryNotFound, code, Dict(map["x" := 2]))
  {
    CodeBlockExample(codeChain(query), c, code);
    AbsentFirstChar(SummaryOpen, summaryChain(query, map["x" := 2]));
  }

  /** A script that raises: its message is reported, with the code block
      and `""`, and the summary chain is not asked. */
  lemma {:induction false} ExecutionErrorExample<D, K, V, G>(
    query: string,
    codeChain: string -> string,
    summaryChain: (string, map<K, V>) -> string,
    exec: (string, D, map<K, V>) -> ExecOutcome<K, V, G>,
    data: D, code: string, c: string)
    requires code == "result['x']=1/0" && c == " " + code + " \n"
    requires codeChain(query) == CodeOpen + c + CodeClose
    requires exec(code, data, map[]) == Raised("division by zero")
    ensures var r := RunPipeline(query, codeChain, summaryChain, exec, data);
      && r.outcome == Outcome(ExecutionErrorPrefix + "division by zero", code, EmptyString)
      && r.calls == [CodeChainRun(query), Exec(code, data, map[])]
  {
    assert CodeClose[0] !in c;
    CodeBlockTagged(codeChain(query), c, "");
    StripUnique(" ", code, " \n");
  }

  /** A block that is empty or all whitespace still counts as found: the
      empty script is executed and, when it finishes, the run succeeds with
      `""` as its code. */
  lemma {:induction false} EmptyBlockExample<D, K, V, G>(
    query: string,
    codeChain: string -> string,
    summaryChain: (string, map<K, V>) -> string,
    exec: (string, D, map<K, V>) -> ExecOutcome<K, V, G>,
    data: D, w: string)
    requires AllSpace(w) && codeChain(query) == CodeOpen + w + CodeClose
    requires exec("", data, map[]).Completed?
    ensures var r := RunPipeline(query, codeChain, summaryChain, exec, data);
      && r.outcome.code == ""
      && r.outcome.result == Dict(exec("", data, map[]).dict)
      && r.calls[1] == Exec("", data, map[])
  {
    assert CodeClose[0] !in w by {
      forall k | 0 <= k < |w| ensures w[k] != CodeClose[0] {
        assert IsSpace(w[k]);
      }
    }
    CodeBlockTagged(codeChain(query), w, "");
    StripCharacterised(w, |w|, |w|);
  }

  /** An answer without tags: "Code not found", nothing executed. */
  lemma {:induction false} CodeNotFoundExample<D, K, V, G>(
    query: string,
    codeChain: string -> string,
    summaryChain: (string, map<K, V>) -> string,
    exec: (string, D, map<K, V>) -> ExecOutcome<K, V, G>,
    data: D)
    requires CodeOpen[0] !in codeChain(query)
    ensures var r := RunPipeline(query, codeChain, summaryChain, exec, data);
      r.outcome == Outcome(CodeNotFound, "", EmptyString) && r.calls == [CodeChainRun(query)]
  {
    AbsentFirstChar(CodeOpen, codeChain(query));
  }
}
