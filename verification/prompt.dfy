/** The prompt both generators send (src/text_to_sql.py and
    demo_meaningless_names_enhanced.py): a fixed template with the slots
    `{schema}` and `{question}`, filled by `format`. The template is held
    as its pieces: literal text and named slots. */
module Prompt {
  import opened Options
  import opened Text

  datatype Piece = Lit(text: string) | Slot(name: string)

  /** `format(**values)`: each slot replaced by its value, the values
      themselves left as they are; a slot with no value is a `KeyError`. */
  function Fill(pieces: seq<Piece>, values: map<string, string>): (r: Option<string>)
    ensures r.None? <==> exists i | 0 <= i < |pieces| :: pieces[i].Slot? && pieces[i].name !in values
    decreases |pieces|
  {
    if |pieces| == 0 then Some("")
    else
      var rest :- Fill(pieces[1..], values);
      match pieces[0]
      case Lit(text) => Some(text + rest)
      case Slot(name) => if name in values then Some(values[name] + rest) else None
  }

  /** The template text before `{schema}`. */
  const Head := "You are a SQL expert. " + "Given the following database schema:\n\n"

  /** The template text between `{schema}` and `{question}`. */
  const Middle := "\n\n" + "Convert the user's natural language question into SQL.\n"
    + "Return only the SQL query without any explanation or formatting.\n"
    + "\n" + "User question: "

  /** The template text after `{question}`. */
  const Tail := "\nSQL query:"

  const Template := [Lit(Head), Slot("schema"), Lit(Middle), Slot("question"), Lit(Tail)]

  /** `prompt_template.format(schema=schema, question=question)`. */
  function Compose(schema: string, question: string): (r: Option<string>)
    ensures r.Some?
  {
    Fill(Template, map["schema" := schema, "question" := question])
  }

  /** The filled template: the schema and the question are copied in
      verbatim, at fixed places between the template's own text. */
  lemma {:induction false} ComposeLayout(schema: string, question: string)
    ensures Compose(schema, question) == Some(Head + schema + Middle + question + Tail)
  {
    FillTemplate(Head, Middle, Tail, schema, question);
  }

  /** Filling a template of this shape, whatever its literal text. */
  lemma {:induction false} FillTemplate(h: string, m: string, tl: string, schema: string, question: string)
    ensures Fill([Lit(h), Slot("schema"), Lit(m), Slot("question"), Lit(tl)],
                 map["schema" := schema, "question" := question])
            == Some(h + schema + m + question + tl)
  {
    var values := map["schema" := schema, "question" := question];
    var p4: seq<Piece> := [Lit(tl)];
    var p3 := [Slot("question")] + p4;
    var p2 := [Lit(m)] + p3;
    var p1 := [Slot("schema")] + p2;
    assert [Lit(h), Slot("schema"), Lit(m), Slot("question"), Lit(tl)] == [Lit(h)] + p1;
    assert Fill([], values) == Some("");
    FillCons(Lit(tl), [], values);
    assert [Lit(tl)] + [] == p4 && tl + "" == tl;
    FillCons(Slot("question"), p4, values);
    FillCons(Lit(m), p3, values);
    FillCons(Slot("schema"), p2, values);
    FillCons(Lit(h), p1, values);
    assert h + (schema + (m + (question + tl))) == h + schema + m + question + tl;
  }

  /** `Fill` one piece at a time. */
  lemma {:induction false} FillCons(p: Piece, ps: seq<Piece>, values: map<string, string>)
    requires Fill(ps, values).Some?
    requires p.Slot? ==> p.name in values
    ensures Fill([p] + ps, values) ==
      Some((if p.Lit? then p.text else values[p.name]) + Fill(ps, values).value)
  {
    assert ([p] + ps)[1..] == ps;
  }

  /** The prompt text. */
  function PromptText(schema: string, question: string): string {
    Compose(schema, question).value
  }

  /** Reads the question back from a prompt whose schema is known. */
  function QuestionOf(prompt: string, schema: string): Option<string> {
    var start := |Head| + |schema| + |Middle|;
    if start + |Tail| <= |prompt| then Some(prompt[start..|prompt| - |Tail|]) else None
  }

  /** Reads the schema back from a prompt whose question is known. */
  function SchemaOf(prompt: string, question: string): Option<string> {
    var stop := |prompt| - |Tail| - |question| - |Middle|;
    if |Head| <= stop then Some(prompt[|Head|..stop]) else None
  }

  /** Partner of `Compose`: either argument is recovered from the prompt
      once the other is known, so for a fixed schema different questions
      give different prompts, and the other way round. */
  lemma {:induction false} ComposeRecoverable(schema: string, question: string)
    ensures QuestionOf(PromptText(schema, question), schema) == Some(question)
    ensures SchemaOf(PromptText(schema, question), question) == Some(schema)
  {
    ComposeLayout(schema, question);
    var p := Head + schema + Middle + question + Tail;
    var a := |Head| + |schema| + |Middle|;
    assert p[a..|p| - |Tail|] == question;
    assert p[|Head|..|Head| + |schema|] == schema;
  }

  /** There is no escaping: a question (or schema) that contains the
      template's own middle text makes two different argument pairs give
      the same prompt, so the prompt alone does not say where the schema
      ends. */
  lemma {:induction false} ComposeAmbiguous(x: string, y: string, z: string)
    ensures PromptText(x, y + Middle + z) == PromptText(x + Middle + y, z)
    ensures x != x + Middle + y
  {
    ComposeLayout(x, y + Middle + z);
    ComposeLayout(x + Middle + y, z);
    assert Head + x + Middle + (y + Middle + z) + Tail == Head + (x + Middle + y) + Middle + z + Tail;
    assert |Middle| > 0;
  }
}
