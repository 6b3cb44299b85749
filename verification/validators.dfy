/**
 * The reusable validators of `src/middleware/validators.ts`: the ObjectId
 * check, its throwing variant, and the note content check.
 *
 * Mongoose's `ObjectId.isValid` is not part of this model; every function
 * that needs it takes it as the parameter `objectIdIsValid`.
 */
module Validators {
  import opened Base
  import opened Text
  import opened Errors

  /** The library predicate accepts every 24-character hexadecimal string. */
  ghost predicate AcceptsHex24(objectIdIsValid: string -> bool) {
    forall s :: IsHex24(s) ==> objectIdIsValid(s)
  }

  /** `isValidObjectId(id)`: the library check AND the `^[0-9a-fA-F]{24}$` pattern. */
  function IsValidObjectId(objectIdIsValid: string -> bool, id: string): (ok: bool)
    ensures ok ==> |id| == 24
    ensures ok ==> forall i :: 0 <= i < |id| ==> IsHexDigit(id[i])
    ensures ok ==> objectIdIsValid(id)
  {
    objectIdIsValid(id) && IsHex24(id)
  }

  /** With a library predicate that accepts 24-hex strings, the validation accepts exactly the pattern. */
  lemma ObjectIdIsHex24(objectIdIsValid: string -> bool, id: string)
    requires AcceptsHex24(objectIdIsValid)
    ensures IsValidObjectId(objectIdIsValid, id) <==> IsHex24(id)
  {
  }

  /** The two documented examples: a real ObjectId is accepted, 'abc123' is not. */
  lemma DocumentedExamples(objectIdIsValid: string -> bool)
    requires AcceptsHex24(objectIdIsValid)
    ensures IsValidObjectId(objectIdIsValid, "507f1f77bcf86cd799439011")
    ensures !IsValidObjectId(objectIdIsValid, "abc123")
  {
    var id := "507f1f77bcf86cd799439011";
    forall i | 0 <= i < |id| ensures IsHexDigit(id[i]) {
      assert id[i] in "0123456789abcdef";
    }
  }

  /** `validateObjectId(id)`: throws InvalidIdError(id) exactly when the id is not valid. */
  function ValidateObjectId(objectIdIsValid: string -> bool, id: string): (r: Outcome<AppError>)
    ensures r.Fail? <==> !IsValidObjectId(objectIdIsValid, id)
    ensures r.Fail? ==> r.error == NewInvalidIdError(id)
  {
    if !IsValidObjectId(objectIdIsValid, id) then Fail(NewInvalidIdError(id)) else Pass
  }

  /**
   * `isValidContent(content)`: some character is not white space, and the
   * raw (untrimmed) length is at most 2000.
   */
  function IsValidContent(content: string): (ok: bool)
    ensures ok <==> (exists i :: 0 <= i < |content| && !IsSpace(content[i])) && |content| <= 2000
    ensures ok ==> 1 <= |content|
  {
    |Trim(content)| > 0 && |content| <= 2000
  }

  /** A string of white space only is never valid content, whatever its length. */
  lemma WhiteSpaceContentRejected(content: string)
    requires AllSpace(content)
    ensures !IsValidContent(content)
  {
  }
}
