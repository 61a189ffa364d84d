/** The prompt sent to the language model: the instructions, the numbered
    context blocks of the endorsed chunks, and the question. */
module Prompt {
  import opened PyStr

  /** The instruction lines that open the prompt, up to the context. The
      first and last character of the prompt's fixed text are written as
      separate literals so that the verifier sees them directly. */
  const Instructions: string := FirstSentence + Guidance

  const Guidance: string := "\n"
    + "If the answer is not explicitly supported by the context, say:\n"
    + "\"I don't have enough information from the provided documentation.\"\n"
    + "\n"
    + "Documentation Context:\n"

  const FirstSentence: string := "Y" + "ou must answer using ONLY the provided documentation context."

  const QuestionHeader: string := "\n\nUser Question:\n"

  const Closing: string := "\n\nProvide a clear, concise answer" + "."

  /** `f"[{i}] {c.text}"`. */
  function Block(i: nat, text: string): string {
    "[" + Decimal(i) + "] " + text
  }

  /** The context blocks, numbered from 1 in input order. */
  function Blocks(texts: seq<string>): (bs: seq<string>)
    ensures |bs| == |texts|
  {
    seq(|texts|, j requires 0 <= j < |texts| => Block(j + 1, texts[j]))
  }

  /** The template before `.strip()`: it opens and closes with a newline. */
  function Template(context: string, query: string): string {
    "\n" + Instructions + context + QuestionHeader + query + Closing + "\n"
  }

  /** `build_prompt(query, chunks)`, over the chunks' texts. */
  function PromptOf(query: string, texts: seq<string>): string {
    Strip(Template(Join("\n\n", Blocks(texts)), query))
  }

  /** `build_prompt`: collect the blocks, join them with blank lines, fill
      the template and strip it. */
  method BuildPrompt(query: string, texts: seq<string>) returns (prompt: string)
    ensures prompt == PromptOf(query, texts)
  {
    var blocks: seq<string> := [];
    var i := 0;
    while i < |texts|
      invariant 0 <= i <= |texts|
      invariant blocks == Blocks(texts[..i])
    {
      blocks := blocks + ["[" + Decimal(i + 1) + "] " + texts[i]];
      i := i + 1;
    }
    assert texts[..|texts|] == texts;
    var contextText := Join("\n\n", blocks);
    prompt := Strip("\n" + Instructions + contextText + QuestionHeader + query + Closing + "\n");
  }

  /** Stripping a text framed by newlines, whose first and last parts
      begin and end with a non-space character, gives the text back. */
  lemma StripFramed(first: string, middle: string, last: string)
    requires first != [] && !IsSpace(first[0]) && last != [] && !IsSpace(last[|last| - 1])
    ensures Strip("\n" + first + middle + last + "\n") == first + middle + last
  {
    var body := first + middle + last;
    assert body[0] == first[0];
    assert body[|body| - 1] == last[|last| - 1];
    StripNewlineFrame(body);
    Group3("\n", first, middle, last, "\n");
  }

  lemma Group3(a: string, b: string, c: string, d: string, e: string)
    ensures a + b + c + d + e == a + (b + c + d) + e
  {
  }

  lemma InstructionsFacts()
    ensures |Instructions| > |FirstSentence| > 0 && Instructions[0] == 'Y'
    ensures Instructions[..|FirstSentence|] == FirstSentence
  {
    assert FirstSentence[0] == 'Y';
    assert |Guidance| > 0;
    assert (FirstSentence + Guidance)[..|FirstSentence|] == FirstSentence;
  }

  lemma ClosingFacts()
    ensures |Closing| > 0 && Closing[|Closing| - 1] == '.'
  {
  }

  /** Stripping removes exactly the template's outer newlines: the prompt
      is the instructions, the context, the question header, the query
      and the closing line, whatever the chunks and the query hold. */
  lemma PromptLayout(query: string, texts: seq<string>)
    ensures PromptOf(query, texts)
      == Instructions + (Join("\n\n", Blocks(texts)) + QuestionHeader + query) + Closing
  {
    var middle := Join("\n\n", Blocks(texts)) + QuestionHeader + query;
    InstructionsFacts();
    ClosingFacts();
    StripFramed(Instructions, middle, Closing);
    TemplateShape(Instructions, Join("\n\n", Blocks(texts)), QuestionHeader, query, Closing);
  }

  lemma TemplateShape(ins: string, ctx: string, qh: string, query: string, closing: string)
    ensures "\n" + ins + ctx + qh + query + closing + "\n" == "\n" + ins + (ctx + qh + query) + closing + "\n"
  {
  }

  /** The prompt starts with the instruction sentence and ends with the
      request for a clear, concise answer. */
  lemma PromptStartsAndEnds(query: string, texts: seq<string>)
    ensures var p := PromptOf(query, texts);
      |p| >= |FirstSentence| + |Closing|
      && p[..|FirstSentence|] == FirstSentence
      && p[|p| - |Closing|..] == Closing
  {
    PromptLayout(query, texts);
    InstructionsFacts();
    Framed(Instructions, Join("\n\n", Blocks(texts)) + QuestionHeader + query, Closing, |FirstSentence|);
  }

  lemma Framed(first: string, middle: string, last: string, n: nat)
    requires n <= |first|
    ensures var s := first + middle + last;
      |s| >= n + |last| && s[..n] == first[..n] && s[|s| - |last|..] == last
  {
    var s := first + middle + last;
    assert s[..n] == first[..n];
  }

  /** The query appears verbatim in the prompt. */
  lemma PromptContainsQuery(query: string, texts: seq<string>)
    ensures Contains(PromptOf(query, texts), query)
  {
    PromptLayout(query, texts);
    Regroup(Instructions, Join("\n\n", Blocks(texts)) + QuestionHeader, query, Closing);
    ContainsMiddle(Instructions + (Join("\n\n", Blocks(texts)) + QuestionHeader), query, Closing);
  }

  lemma Regroup(a: string, b: string, c: string, d: string)
    ensures a + (b + c) + d == (a + b) + c + d
    ensures a + (b + c) + d == a + b + (c + d)
  {
  }

  /** Every chunk appears in the prompt as its numbered block. */
  lemma PromptContainsBlock(query: string, texts: seq<string>, k: nat)
    requires k < |texts|
    ensures Contains(PromptOf(query, texts), Block(k + 1, texts[k]))
  {
    ContextContainsBlock(texts, k);
    PromptLayout(query, texts);
    ContainsInLayout(PromptOf(query, texts), Instructions, Join("\n\n", Blocks(texts)),
                     QuestionHeader, query, Closing, Block(k + 1, texts[k]));
  }

  /** Every chunk's text appears verbatim in the prompt. */
  lemma PromptContainsChunk(query: string, texts: seq<string>, k: nat)
    requires k < |texts|
    ensures Contains(PromptOf(query, texts), texts[k])
  {
    PromptContainsBlock(query, texts, k);
    BlockContainsText(k + 1, texts[k]);
    ContainsTransitive(PromptOf(query, texts), Block(k + 1, texts[k]), texts[k]);
  }

  lemma ContextContainsBlock(texts: seq<string>, k: nat)
    requires k < |texts|
    ensures Contains(Join("\n\n", Blocks(texts)), Block(k + 1, texts[k]))
  {
    assert Blocks(texts)[k] == Block(k + 1, texts[k]);
    JoinContainsPart("\n\n", Blocks(texts), k);
  }

  lemma ContainsInLayout(p: string, ins: string, ctx: string, qh: string, query: string, closing: string, t: string)
    requires p == ins + (ctx + qh + query) + closing && Contains(ctx, t)
    ensures Contains(p, t)
  {
    ContainsWithin(ctx, t, ins, qh + query + closing);
    assert ins + ctx + (qh + query + closing) == p;
  }

  lemma BlockContainsText(i: nat, text: string)
    ensures Contains(Block(i, text), text)
  {
    var tag := "[" + Decimal(i) + "] ";
    ContainsMiddle(tag, text, "");
    assert tag + text + "" == Block(i, text);
  }

  /** A substring of a substring is a substring. */
  lemma ContainsTransitive(s: string, t: string, u: string)
    requires Contains(s, t) && Contains(t, u)
    ensures Contains(s, u)
  {
    var i :| 0 <= i <= |s| - |t| && OccursAt(s, t, i);
    var j :| 0 <= j <= |t| - |u| && OccursAt(t, u, j);
    assert t == s[i..i + |t|];
    assert u == t[j..j + |u|];
    forall m | 0 <= m < |u| ensures u[m] == s[i + j + m] {
      assert u[m] == t[j + m];
    }
    assert u == s[i + j..i + j + |u|];
    assert OccursAt(s, u, i + j);
  }

  /** The blocks are joined with a blank line, in input order. */
  lemma ContextJoinsInOrder(texts: seq<string>, t: string)
    requires texts != []
    ensures Join("\n\n", Blocks(texts + [t]))
      == Join("\n\n", Blocks(texts)) + "\n\n" + Block(|texts| + 1, t)
  {
    var bs := Blocks(texts + [t]);
    assert bs[..|bs| - 1] == Blocks(texts);
  }
}
