/** Outcomes of a data request, as the guards of the oracle read them. */
module Outcomes {

  /** A numeric answer carries the multiplier it was scaled with. */
  datatype AnswerType =
    | Text(text: string)
    | Number(value: nat, multiplier: nat, negative: bool)

  datatype Outcome =
    | Answer(answer: AnswerType)
    | Invalid

  datatype DataType =
    | TextData
    | NumberData(multiplier: nat)
}
