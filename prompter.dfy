/** `Prompter.prompt` (rag_agent/app/prompt/prompter.py), the composition of
    the prompt only: a fixed instruction, then the retrieved context when
    there is any, then the question. The call to the language model is not
    part of this model. */
module Prompting {
  import opened Common
  import opened Text

  /** `self.pre_prompt`: three sentences concatenated with no separator.
      Each sentence is written as a few shorter literals so that the
      verifier can inspect their characters piece by piece. */
  const Sentence1: string := "You are an " + "assistant that " + "has access to " + "my personal " + "documents."
  const Sentence2: string := "If the " + "question can " + "be answered " + "from your " + "general " + "knowledge, " + "answer " + "directly."
  const Sentence3: string := "If the " + "question " + "requires " + "looking up " + "my documents, " + "answer using " + "the documents " + "provided in " + "CONTEXT below."
  const PrePrompt: string := Sentence1 + Sentence2 + Sentence3

  const ContextHeader: string := "\n\nCONTEXT:\n"
  const QuestionHeader: string := "\n\nQUESTION: "

  /** Python's truthiness of `context`: `None` and `""` are false. */
  predicate HasContext(context: Option<string>) {
    context.Some? && context.value != []
  }

  /** The prompt sent for `query` with the optional retrieved context. */
  function FullPrompt(query: string, context: Option<string>): string
  {
    if HasContext(context) then PrePrompt + ContextHeader + context.value + QuestionHeader + query
    else PrePrompt + QuestionHeader + query
  }

  /** Reads the context back out of a prompt for `query`: the text between
      the context header and the question, if the prompt has a context block. */
  function ContextIn(prompt: string, query: string): Option<string>
  {
    var head, tail := PrePrompt + ContextHeader, QuestionHeader + query;
    if |head| + |tail| <= |prompt| && prompt[..|head|] == head && prompt[|prompt| - |tail|..] == tail
    then Some(prompt[|head|..|prompt| - |tail|])
    else None
  }

  /** Every prompt begins with the fixed instruction and ends with the
      question. */
  lemma PromptFrame(query: string, context: Option<string>)
    ensures var p := FullPrompt(query, context);
      && |PrePrompt| + |QuestionHeader| + |query| <= |p|
      && p[..|PrePrompt|] == PrePrompt
      && p[|p| - |QuestionHeader + query|..] == QuestionHeader + query
  {
    var p := FullPrompt(query, context);
    if HasContext(context) {
      assert p == PrePrompt + (ContextHeader + context.value + QuestionHeader + query);
      assert p == (PrePrompt + ContextHeader + context.value) + (QuestionHeader + query);
    } else {
      assert p == PrePrompt + (QuestionHeader + query);
    }
  }

  /** The context block is there exactly when the context is non-empty, and
      it holds that context unchanged. */
  lemma ContextRoundTrip(query: string, context: Option<string>)
    ensures ContextIn(FullPrompt(query, context), query) == if HasContext(context) then context else None
  {
    var p := FullPrompt(query, context);
    var head, tail := PrePrompt + ContextHeader, QuestionHeader + query;
    if HasContext(context) {
      assert p == head + context.value + tail;
      assert p[..|head|] == head;
      assert p[|p| - |tail|..] == tail;
      assert p[|head|..|p| - |tail|] == context.value;
    } else {
      assert p == PrePrompt + tail;
    }
  }

  /** A non-empty context is announced by the context header, right after
      the fixed instruction. */
  lemma ContextHeaderShown(query: string, context: Option<string>)
    requires HasContext(context)
    ensures Occurs("CONTEXT:\n", FullPrompt(query, context))
  {
    var p := FullPrompt(query, context);
    var i := |PrePrompt| + 2;
    assert p == PrePrompt + ContextHeader + (context.value + QuestionHeader + query);
    assert p[i..i + 9] == ContextHeader[2..];
    OccursAt("CONTEXT:\n", p, i);
  }

  lemma NoBreakInSentence1()
    ensures '\n' !in Sentence1
  {
    assert '\n' !in "You are an " by {}
    assert '\n' !in "assistant that " by {}
    assert '\n' !in "has access to " by {}
    assert '\n' !in "my personal " by {}
    assert '\n' !in "documents." by {}
  }

  lemma NoBreakInSentence2()
    ensures '\n' !in Sentence2
  {
    assert '\n' !in "If the " by {}
    assert '\n' !in "question can " by {}
    assert '\n' !in "be answered " by {}
    assert '\n' !in "from your " by {}
    assert '\n' !in "general " by {}
    assert '\n' !in "knowledge, " by {}
    assert '\n' !in "answer " by {}
    assert '\n' !in "directly." by {}
  }

  lemma NoBreakInSentence3()
    ensures '\n' !in Sentence3
  {
    assert '\n' !in "If the " by {}
    assert '\n' !in "question " by {}
    assert '\n' !in "requires " by {}
    assert '\n' !in "looking up " by {}
    assert '\n' !in "my documents, " by {}
    assert '\n' !in "answer using " by {}
    assert '\n' !in "the documents " by {}
    assert '\n' !in "provided in " by {}
    assert '\n' !in "CONTEXT below." by {}
  }

  /** The fixed instruction holds no line break, so the only `"CONTEXT:\n"`
      a prompt can carry before the question is the header of the context
      block: the word CONTEXT in the instruction's last sentence is not one. */
  lemma PrePromptHasNoContextHeader()
    ensures !Occurs("CONTEXT:\n", PrePrompt)
  {
    NoBreakInSentence1();
    NoBreakInSentence2();
    NoBreakInSentence3();
    assert '\n' !in PrePrompt;
    OccursNeedsChar("CONTEXT:\n", PrePrompt, 8);
  }
}
