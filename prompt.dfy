/**
 * The text sent to the language model for one question: a fixed system
 * instruction that names the uploaded dataset, followed by a blank line and
 * the user's query. The instruction shows the model the fenced format that
 * the extractor in `CodeBlocks` accepts.
 */
module Prompt {
  import opened Text
  import opened CodeBlocks

  /*
   * The instruction text in the order it is written, one constant per line
   * or part of a line. Long lines are sums of short literals, so that the
   * lemmas about their characters can look at one short piece at a time.
   */

  /** The role statement, up to the opening quote of the dataset name. */
  const Preamble: string :=
    "\nYou are a helpful " + "Python data " + "scientist and "
    + "visualization " + "expert.\n"
    + "You are given a " + "dataset named "

  /** The quote written on each side of the dataset name. */
  const Quote: string := "'"

  /** The rest of the line that names the dataset. */
  const NamedLineEnd: string := " uploaded through " + "Streamlit.\n"

  /** The line that points the model at the preloaded DataFrame `df`. */
  const UseDataFrameLine: string :=
    "Write clean, " + "runnable Python code "
    + "that uses the " + "DataFrame variable "
    + "'df' already loaded " + "in memory.\n"

  /** The line that names the libraries to use. */
  const LibrariesLine: string :=
    "Use pandas, " + "matplotlib/seaborn, "
    + "or plotly for " + "analysis or "
    + "visualization.\n"

  /** The line that introduces the sample block. */
  const WrapLine: string := "Wrap only the " + "Python code in " + "triple backticks " + "like:\n"

  /** From after the closing quote of the dataset name to the sample block. */
  const InstructionsHead: string := NamedLineEnd + UseDataFrameLine + LibrariesLine + WrapLine

  /** The code inside the sample block. */
  const SampleCode: string := "# code here"

  /**
   * The sample block the instruction shows the model, "```python", a line of
   * code and "```" on three lines: exactly the two fences of `CodeBlocks`
   * around the sample code.
   */
  const SampleBlock: string := Opener + SampleCode + Closer

  /** The closing rules, after the sample block, ending with a line feed. */
  const InstructionsTail: string :=
    "\nDo not reload the CSV from disk "
    + "— use 'df' directly.\n"
    + "Do not include long explanations "
    + "— return runnable code in the "
    + "code block.\n"

  /** What separates the system instruction from the user's query. */
  const QueryLabel: string := "\n\nUser query: "

  /** The system instruction for a dataset with the given display name. */
  function SystemPrompt(datasetName: string): (r: string)
    ensures OccursAt(Preamble, r, 0)
    ensures OccursAt(Quote + datasetName + Quote, r, |Preamble|)
    ensures OccursAt(SampleBlock, r, |Preamble| + |datasetName| + 2 + |InstructionsHead|)
  {
    var named := Quote + datasetName + Quote;
    var tail := InstructionsHead + SampleBlock + InstructionsTail;
    OccursFirst(Preamble, named + tail);
    OccursBetween(Preamble, named, tail);
    OccursBetween(InstructionsHead, SampleBlock, InstructionsTail);
    OccursInSuffix(SampleBlock, Preamble + named, tail, |InstructionsHead|);
    Preamble + named + tail
  }

  /**
   * The full prompt: the system instruction, a blank line, the label and
   * the user's query. It quotes the dataset name inside the instruction and
   * ends with the query verbatim.
   */
  function ComposePrompt(userMessage: string, datasetName: string): (r: string)
    ensures OccursAt(Preamble, r, 0)
    ensures OccursAt(Quote + datasetName + Quote, r, |Preamble|)
    ensures EndsWith(r, QueryLabel + userMessage)
  {
    var sys := SystemPrompt(datasetName);
    var query := QueryLabel + userMessage;
    OccursInPrefix(Preamble, sys, query, 0);
    OccursInPrefix(Quote + datasetName + Quote, sys, query, |Preamble|);
    assert sys + query == sys + QueryLabel + userMessage;
    EndsWithLast(sys, QueryLabel, userMessage);
    sys + QueryLabel + userMessage
  }

  /**
   * Reading the query back out of a prompt for a known dataset name: the
   * text after the system instruction and the label, or None when the prompt
   * does not start with them.
   */
  function UserQueryOf(prompt: string, datasetName: string): (r: Option<string>)
  {
    var head := SystemPrompt(datasetName) + QueryLabel;
    if OccursAt(head, prompt, 0) then Some(prompt[|head|..]) else None
  }

  /** The query is recovered from the prompt built from it. */
  lemma {:induction false} QueryRecovered(userMessage: string, datasetName: string)
    ensures UserQueryOf(ComposePrompt(userMessage, datasetName), datasetName) == Some(userMessage)
  {
    var head := SystemPrompt(datasetName) + QueryLabel;
    OccursFirst(head, userMessage);
    SplitConcat(head, userMessage);
  }

  /** Whatever is read back as a query rebuilds the very prompt it came from. */
  lemma {:induction false} RecoveredQueryComposes(prompt: string, datasetName: string)
    requires UserQueryOf(prompt, datasetName).Some?
    ensures ComposePrompt(UserQueryOf(prompt, datasetName).value, datasetName) == prompt
  {
    var head := SystemPrompt(datasetName) + QueryLabel;
    JoinSplit(prompt, |head|);
  }

  /** For one dataset, different queries give different prompts. */
  lemma {:induction false} ComposePromptInjective(m1: string, m2: string, datasetName: string)
    requires ComposePrompt(m1, datasetName) == ComposePrompt(m2, datasetName)
    ensures m1 == m2
  {
    QueryRecovered(m1, datasetName);
    QueryRecovered(m2, datasetName);
  }

  /** No backtick appears in the role statement. */
  lemma NoBacktickInPreamble()
    ensures '`' !in Preamble
  {
    assert '`' !in "\nYou are a helpful ";
    assert '`' !in "Python data ";
    assert '`' !in "scientist and ";
    assert '`' !in "visualization ";
    assert '`' !in "You are given a ";
    assert '`' !in "dataset named ";
  }

  /** No backtick appears in the line that points the model at `df`. */
  lemma NoBacktickInUseDataFrameLine()
    ensures '`' !in UseDataFrameLine
  {
    assert '`' !in "Write clean, ";
    assert '`' !in "runnable Python code ";
    assert '`' !in "that uses the ";
    assert '`' !in "DataFrame variable ";
    assert '`' !in "'df' already loaded ";
    assert '`' !in "in memory.\n";
  }

  /** No backtick appears in the line that names the libraries. */
  lemma NoBacktickInLibrariesLine()
    ensures '`' !in LibrariesLine
  {
    assert '`' !in "Use pandas, ";
    assert '`' !in "matplotlib/seaborn, ";
    assert '`' !in "or plotly for ";
    assert '`' !in "analysis or ";
    assert '`' !in "visualization.\n";
  }

  /**
   * No backtick appears in the instructions before the sample block; the
   * line that announces it speaks of "triple backticks" in words only.
   */
  lemma NoBacktickInInstructionsHead()
    ensures '`' !in InstructionsHead
  {
    NoBacktickInUseDataFrameLine();
    NoBacktickInLibrariesLine();
    assert '`' !in " uploaded through ";
    assert '`' !in "Streamlit.\n";
    assert '`' !in "Wrap only the ";
    assert '`' !in "Python code in ";
    assert '`' !in "triple backticks ";
    assert '`' !in "like:\n";
  }

  /**
   * The sample block in the instruction is in the format the extractor
   * accepts: were the model to echo the whole prompt back, the code taken
   * from it would be the sample's "# code here", provided the dataset name
   * holds no backtick (one could start an earlier opener).
   */
  lemma {:induction false} EchoedPromptYieldsSample(userMessage: string, datasetName: string)
    requires '`' !in datasetName
    ensures MatchCodeBlocks(ComposePrompt(userMessage, datasetName)) == SampleCode
  {
    var named := Quote + datasetName + Quote;
    NoBacktickInPreamble();
    NoBacktickInInstructionsHead();
    assert '`' !in Preamble + named + InstructionsHead;
    assert '`' !in SampleCode;
    MissingCharExcludes(Closer, SampleCode, 1);
    BlockAfterProse(Preamble + named + InstructionsHead, SampleCode, InstructionsTail + QueryLabel + userMessage);
    Regroup(Preamble + named, InstructionsHead, SampleBlock, InstructionsTail, QueryLabel, userMessage);
  }
}
