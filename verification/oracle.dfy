/** The language model as the pipeline sees it: one function from a prompt
    to the text it returns. A prompt is named by its template and the values
    filled into it; the template text itself is not modelled. */
module Oracle {

  datatype Prompt =
    | RerankPrompt(query: string, passages: string)
    | AnswerPrompt(context: string, question: string)
    | ExplorePrompt(context: string)
    | ExpansionPrompt(query: string, n: int)

  /** `llm(prompt)`, with a `None` reply read as "". */
  type Llm = Prompt -> string
}
