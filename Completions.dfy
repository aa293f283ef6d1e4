/** The hosted language model as the pipeline sees it: a prompt goes in, and either
    the completion text (`response.choices[0].message.content`) comes back or the
    client call raises. */
module Completions {

  datatype Completion = Reply(text: string) | Raised(message: string)

  /** The model is a parameter of every stage that calls it: the reply to a prompt. */
  type Model = string -> Completion
}
