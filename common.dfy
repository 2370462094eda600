/** Shared vocabulary of the DPV analysis scripts: the error outcomes the
    scripts can end in, and the few string and number helpers they use. */
module Common {

  datatype Option<+T> = None | Some(value: T)

  /** Every way a run of the scripts can stop early. */
  datatype Error =
    | LengthMismatch                          // numpy refuses a mask or an operand of another length
    | EmptyTrace                              // argmax of an empty array
    | IndexOutOfRange(index: int)             // numpy fancy indexing past either end
    | BadNumberCount(name: string, count: nat) // "Found Too Many Numbers in the FileName", then sys.exit()
    | UndefinedPoint(name: string)            // NameError: no concentration/time point assigned yet
    | UndefinedBaseline                       // NameError: baselineCurrent never assigned
    | ProtocolCount(selected: nat)            // "Only one protocol can be be executed."
    | DivisionByZero                          // math.ceil(len(fileNames)/0)

  datatype Result<+T> = Ok(value: T) | Err(error: Error)

  function Abs(x: real): (r: real)
    ensures r >= 0.0
    ensures r == x || r == -x
  {
    if x < 0.0 then -x else x
  }

  /** Python's `sub in s` for strings: sub occurs as a contiguous slice of s. */
  predicate Contains(s: string, sub: string)
    decreases |s|
  {
    |sub| <= |s| && (s[..|sub|] == sub || Contains(s[1..], sub))
  }

  /** `s.split("-")[0]`: everything before the first '-', or all of s. */
  function FirstField(s: string): string
  {
    if |s| == 0 || s[0] == '-' then "" else [s[0]] + FirstField(s[1..])
  }

  /** The first field is a prefix of s without a '-', and it ends where s
      ends or at s's first '-'. */
  lemma {:induction false} FirstFieldIsPrefixBeforeDash(s: string)
    ensures FirstField(s) <= s
    ensures '-' !in FirstField(s)
    ensures |FirstField(s)| < |s| ==> s[|FirstField(s)|] == '-'
  {
    if |s| > 0 && s[0] != '-' {
      FirstFieldIsPrefixBeforeDash(s[1..]);
    }
  }
}
