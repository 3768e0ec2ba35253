/** Values shared by both number-generation pages: optional form values, the
    outcome of a check, the generator's answer and the result shown to the user. */
module LottoTypes {

  /** A value that may be unset (`undefined` in the pages' state). */
  datatype Option<+T> = None | Some(value: T)

  /** The outcome of a check: the value to go on with, or the reason to stop. */
  datatype Result<+T, +E> = Success(value: T) | Failure(error: E)

  /** What the external number generator answered for one seed: the numbers
      of its `res` payload, or a failed request of any kind. */
  datatype Response = Ok(numbers: seq<int>) | Err

  /** What the page tells the user once the generator has answered. */
  datatype Notice = ResultShown | GenerationFailed

  /** The tag that tells the result view which page produced a result. */
  datatype ResultType = Birth | Psy

  /** The result a page keeps once the generator has answered: the numbers,
      and for the birth page the name and birth string that built the seed. */
  datatype LottoResult =
    | BirthResult(numbers: seq<int>, birth: string, name: string)
    | PsyResult(numbers: seq<int>)
  {
    function Type(): ResultType {
      if BirthResult? then Birth else Psy
    }
  }
}
